// Whole runs of the per-thread pools: any number of threads, any order of operations,
// arbitrary writes into the chunks users hold.
module PoolRuns {
  import opened Memory
  import opened Layout
  import opened Sequences
  import opened FreeList
  import opened Carving
  import opened ObjectPool

  datatype Op =
    | MallocOp(t: Thread, place: int, answer: int)
    | FreeOp(t: Thread, place: int, c: int)
    | WriteOp(c: int, data: Mem)

  // A user writes into the RequestedSize bytes of a chunk.
  function UserWrite(m: Mem, c: int, req: nat, data: Mem): Mem
  {
    (i: int) => if c <= i < c + req then data(i) else m(i)
  }

  // The array has room for the id that thread t has or would get.
  predicate HasRoom(w: World, t: Thread)
  {
    t in w.ids || w.counter < MAX_THREAD_NUM
  }

  // The code neither uses a pool object at null, nor leaves its array, on entering a
  // thread or on following a tag, nor writes a tag behind null, nor fails the assertion of
  // free_append.
  predicate Defined(w: World, op: Op, req: nat)
  {
    && Ready(w)
    && match op
       case MallocOp(t, place, answer) =>
         && Placed(w.ids, t, place) && HasRoom(w, t)
         && MallocStep(w, t, place, answer, req).1 != NULL
       case FreeOp(t, place, c) =>
         && Placed(w.ids, t, place) && HasRoom(w, t)
         && var tag := Tag(w.mem, c, req);
            tag in w.pools && (tag != Enter(w, t, place, req).ids[t] ==> w.pools[tag].tail != NULL)
       case WriteOp(_, _) => true
  }

  // One operation on memory and registers, with the address malloc returns.
  function Step(w: World, op: Op, req: nat): (World, int)
    requires Defined(w, op, req)
  {
    match op
    case MallocOp(t, place, answer) => MallocStep(w, t, place, answer, req)
    case FreeOp(t, place, c) => (FreeStep(w, t, place, c, req), NULL)
    case WriteOp(c, data) => (w.(mem := UserWrite(w.mem, c, req, data)), NULL)
  }

  // What callers and the system may do: free and write only chunks in users' hands, and
  // answer a request with null or with a block apart from all others.
  ghost predicate Legal(a: Abstract, op: Op, req: nat)
  {
    && ReadyAbstract(a)
    && match op
       case MallocOp(t, place, answer) => AnswerLegal(a, t, answer, req)
       case FreeOp(t, place, c) => Live(a, c)
       case WriteOp(c, data) => Live(a, c)
  }

  // The system has memory for all that the operation asks of it.
  ghost predicate Served(a: Abstract, op: Op)
    requires ReadyAbstract(a)
  {
    match op
    case MallocOp(t, place, answer) => Placed(a.ids, t, place) && !Starved(PoolOf(a, t), answer)
    case FreeOp(t, place, c) => Placed(a.ids, t, place)
    case WriteOp(_, _) => true
  }

  // What can be checked before the operation: there is an id left for a new thread, and
  // no request meets an exhausted system.
  ghost predicate Safe(a: Abstract, op: Op)
    requires ReadyAbstract(a)
  {
    (op.WriteOp? || HasSlot(a, op.t)) && Served(a, op)
  }

  ghost function StepAbstract(a: Abstract, op: Op, req: nat): (Abstract, int)
    requires Legal(a, op, req)
  {
    match op
    case MallocOp(t, place, answer) => MallocAbstract(a, t, answer, req)
    case FreeOp(t, place, c) => (FreeAbstract(a, t, c), NULL)
    case WriteOp(c, data) => (a, NULL)
  }

  // Callers and the system keep to the rules for as long as the run is safe.
  ghost predicate LegalRun(a: Abstract, ops: seq<Op>, req: nat)
    decreases |ops|
  {
    ops == [] ||
    (Legal(a, ops[0], req)
     && (Safe(a, ops[0]) ==> LegalRun(StepAbstract(a, ops[0], req).0, ops[1..], req)))
  }

  ghost predicate SafeRun(a: Abstract, ops: seq<Op>, req: nat)
    requires LegalRun(a, ops, req)
    decreases |ops|
  {
    ops == [] ||
    (Safe(a, ops[0]) && SafeRun(StepAbstract(a, ops[0], req).0, ops[1..], req))
  }

  predicate DefinedRun(w: World, ops: seq<Op>, req: nat)
    decreases |ops|
  {
    ops == [] ||
    (Defined(w, ops[0], req) && DefinedRun(Step(w, ops[0], req).0, ops[1..], req))
  }

  function Run(w: World, ops: seq<Op>, req: nat): (res: (World, seq<int>))
    requires DefinedRun(w, ops, req)
    ensures |res.1| == |ops|
    decreases |ops|
  {
    if ops == [] then (w, [])
    else
      var (w1, out) := Step(w, ops[0], req);
      var (w2, outs) := Run(w1, ops[1..], req);
      (w2, [out] + outs)
  }

  ghost function RunAbstract(a: Abstract, ops: seq<Op>, req: nat): (Abstract, seq<int>)
    requires LegalRun(a, ops, req) && SafeRun(a, ops, req)
    decreases |ops|
  {
    if ops == [] then (a, [])
    else
      var (a1, out) := StepAbstract(a, ops[0], req);
      var (a2, outs) := RunAbstract(a1, ops[1..], req);
      (a2, [out] + outs)
  }

  lemma UserWriteOwn(m: Mem, r: Regs, v: View, c: int, req: nat, i: nat, data: Mem)
    requires PoolOk(m, r, v, req, i) && c in v.live
    ensures var m' := UserWrite(m, c, req, data);
            PoolOk(m', r, v, req, i) && OnlyBlocks(m, m', v.blocks, ChunkSize(req))
  {
    hide Linked, Headers, Doubling, OnlyBlocks, Load;
    var m' := UserWrite(m, c, req, data);
    FreeChunk(r, v, c);
    LiveWriteKeepsInv(m, m', r, v, c);
    forall d | d in v.live
      ensures Tag(m', d, req) == i
    {
      if d == c {
        LoadSame(m, m', c + req, TAG_SIZE);
      } else {
        FreeChunk(r, v, d);
        TagKept(m, m', v, req, c, d);
      }
    }
    ChunkWriteInBlocks(m, m', v.blocks, ChunkSize(req), c);
  }

  lemma UserWriteKeeps(w: World, a: Abstract, c: int, req: nat, data: Mem)
    requires WInv(w, a, req) && Live(a, c)
    ensures WInv(w.(mem := UserWrite(w.mem, c, req, data)), a, req)
  {
    hide PoolOk, OnlyBlocks, UserWrite;
    var i := Home(a, c);
    assert PoolOk(w.mem, w.pools[i], a.pools[i], req, i);
    UserWriteOwn(w.mem, w.pools[i], a.pools[i], c, req, i, data);
    ReplaceSame(w, a, req, i, UserWrite(w.mem, c, req, data));
  }

  lemma ReplaceSame(w: World, a: Abstract, req: nat, i: nat, m': Mem)
    requires WInv(w, a, req) && i in a.pools
    requires PoolOk(m', w.pools[i], a.pools[i], req, i)
    requires OnlyBlocks(w.mem, m', a.pools[i].blocks, ChunkSize(req))
    ensures WInv(w.(mem := m'), a, req)
  {
    hide PoolOk, OnlyBlocks;
    ReplacePool(w, a, req, i, m', w.pools[i], a.pools[i]);
    assert w.pools[i := w.pools[i]] == w.pools;
    assert a.pools[i := a.pools[i]] == a.pools;
  }

  // An operation is well defined on raw memory exactly if it is safe.
  lemma DefinedIff(w: World, a: Abstract, op: Op, req: nat)
    requires WInv(w, a, req) && Legal(a, op, req)
    ensures Defined(w, op, req) <==> Safe(a, op)
  {
    hide WInv, Ready, Live, AnswerLegal, PoolOf, Starved, MallocStep, MallocAbstract, Enter, Tag;
    InvReady(w, a, req);
    SameIds(w, a, req);
    match op
    case MallocOp(t, place, answer) => MallocRefinesWorld(w, a, t, place, answer, req);
    case FreeOp(t, place, c) => FreeRefinesWorld(w, a, t, place, c, req);
    case WriteOp(c, data) =>
  }

  lemma SameIds(w: World, a: Abstract, req: nat)
    requires WInv(w, a, req)
    ensures w.ids == a.ids && w.counter == a.counter
  {
  }

  lemma StepRefines(w: World, a: Abstract, op: Op, req: nat)
    requires WInv(w, a, req) && Legal(a, op, req)
    ensures Defined(w, op, req) <==> Safe(a, op)
    ensures Safe(a, op) ==>
              var (w', out) := Step(w, op, req);
              var (a', out') := StepAbstract(a, op, req);
              out == out' && WInv(w', a', req)
  {
    InvReady(w, a, req);
    DefinedIff(w, a, op, req);
    match op
    case MallocOp(t, place, answer) => MallocRefinesWorld(w, a, t, place, answer, req);
    case FreeOp(t, place, c) => FreeRefinesWorld(w, a, t, place, c, req);
    case WriteOp(c, data) => UserWriteKeeps(w, a, c, req, data);
  }

  // A user's write puts its bytes into the chunk and changes nothing else.
  lemma WriteEffect(w: World, c: int, data: Mem, req: nat)
    requires Ready(w)
    ensures Defined(w, WriteOp(c, data), req)
    ensures var w' := Step(w, WriteOp(c, data), req).0;
            && (forall x :: w'.mem(x) == if c <= x < c + req then data(x) else w.mem(x))
            && w'.pools == w.pools && w'.ids == w.ids && w'.counter == w.counter
  {
  }

  // A run of the allocator on raw bytes is well defined at every step exactly if no 65th
  // thread enters and no request, for chunks or for a pool object, meets an exhausted system; it then hands out the very
  // addresses the per-thread queues hand out.
  lemma {:induction false} RunRefines(w: World, a: Abstract, ops: seq<Op>, req: nat)
    requires WInv(w, a, req) && LegalRun(a, ops, req)
    ensures DefinedRun(w, ops, req) <==> SafeRun(a, ops, req)
    ensures SafeRun(a, ops, req) ==>
              && Run(w, ops, req).1 == RunAbstract(a, ops, req).1
              && WInv(Run(w, ops, req).0, RunAbstract(a, ops, req).0, req)
    decreases |ops|
  {
    if ops != [] {
      StepRefines(w, a, ops[0], req);
      if Safe(a, ops[0]) {
        RunRefines(Step(w, ops[0], req).0, StepAbstract(a, ops[0], req).0, ops[1..], req);
      }
    }
  }

  // Malloc in an exhausted system: null is returned after the tag has been written behind
  // address null.
  lemma StarvedWritesNull(w: World, a: Abstract, t: Thread, place: int, req: nat)
    requires WInv(w, a, req) && Ready(w) && ReadyAbstract(a) && NeedsGrowth(PoolOf(a, t))
    ensures Legal(a, MallocOp(t, place, NULL), req) && !Defined(w, MallocOp(t, place, NULL), req)
    ensures Placed(a.ids, t, place) ==>
              var (w', c) := MallocStep(w, t, place, NULL, req);
              c == NULL && t in w'.ids && w'.mem == Store(w.mem, NULL + req, TAG_SIZE, w'.ids[t])
  {
    MallocRefinesWorld(w, a, t, place, NULL, req);
  }

  // The first call of a thread, even a free, when the system has no memory for its pool
  // object: the thread is left without a pool.
  lemma UnplacedHasNoPool(w: World, a: Abstract, op: Op, req: nat)
    requires WInv(w, a, req) && Legal(a, op, req) && !op.WriteOp? && !Placed(a.ids, op.t, op.place)
    ensures !Defined(w, op, req)
    ensures var w1 := Enter(w, op.t, op.place, req);
            op.t !in w1.ids && w1.pools == w.pools && w1.counter == w.counter + 1
  {
    DefinedIff(w, a, op, req);
  }

  // A new thread when all ids are given out gets the id one past the end of the array,
  // whatever it does first.
  lemma NoRoomLeavesArray(w: World, a: Abstract, op: Op, req: nat)
    requires WInv(w, a, req) && Legal(a, op, req) && !op.WriteOp? && !HasSlot(a, op.t)
    ensures !Defined(w, op, req) && Enter(w, op.t, op.place, req).counter == MAX_THREAD_NUM + 1
    ensures Placed(a.ids, op.t, op.place) ==>
              var w1 := Enter(w, op.t, op.place, req);
              op.t in w1.ids && w1.ids[op.t] == MAX_THREAD_NUM + 1
  {
    DefinedIff(w, a, op, req);
  }

  // The k-th operation is the first the run cannot do.
  ghost predicate BreaksAt(w: World, ops: seq<Op>, k: nat, req: nat)
  {
    && k < |ops| && DefinedRun(w, ops[..k], req)
    && !Defined(Run(w, ops[..k], req).0, ops[k], req)
  }

  lemma NothingDefined(w: World, req: nat)
    ensures DefinedRun(w, [], req) && Run(w, [], req) == (w, [])
  {
  }

  lemma {:induction false} RunSnoc(w: World, ops: seq<Op>, op: Op, req: nat)
    requires DefinedRun(w, ops, req)
    ensures DefinedRun(w, ops + [op], req) <==> Defined(Run(w, ops, req).0, op, req)
    ensures Defined(Run(w, ops, req).0, op, req) ==>
              Run(w, ops + [op], req).0 == Step(Run(w, ops, req).0, op, req).0
    decreases |ops|
  {
    hide Defined, Step;
    if ops == [] {
      assert ops + [op] == [op] && [op][1..] == [];
    } else {
      RunSnoc(Step(w, ops[0], req).0, ops[1..], op, req);
      assert (ops + [op])[1..] == ops[1..] + [op];
    }
  }

  lemma {:induction false} DefinedPrefix(w: World, ops: seq<Op>, k: nat, req: nat)
    requires DefinedRun(w, ops, req) && k <= |ops|
    ensures DefinedRun(w, ops[..k], req)
    decreases k
  {
    hide Defined, Step;
    if k > 0 {
      DefinedPrefix(Step(w, ops[0], req).0, ops[1..], k - 1, req);
      assert ops[..k][1..] == ops[1..][..k - 1];
    }
  }

  lemma BreakEndsRun(w: World, ops: seq<Op>, k: nat, req: nat)
    requires BreaksAt(w, ops, k, req)
    ensures !DefinedRun(w, ops, req)
  {
    hide Defined, Step;
    assert ops[..k + 1] == ops[..k] + [ops[k]];
    RunSnoc(w, ops[..k], ops[k], req);
    if DefinedRun(w, ops, req) {
      DefinedPrefix(w, ops, k + 1, req);
    }
  }

  // The state before any thread has used the allocator.
  function Start(m: Mem): World
  {
    World(m, map[], map[], 0)
  }

  ghost function StartAbstract(): Abstract
  {
    Abstract(map[], map[], 0)
  }

  lemma StartOk(m: Mem, req: nat)
    requires req + TAG_SIZE < 0x1_0000_0000
    ensures WInv(Start(m), StartAbstract(), req)
  {
  }

  // ---------- what users keep ----------

  // A chunk of any pool is apart from every other chunk in a user's hands.
  lemma ApartFromLive(w: World, a: Abstract, i: nat, x: int, d: int, req: nat)
    requires WInv(w, a, req) && i in a.pools && Live(a, d) && x != d
    requires x in Chunks(a.pools[i].blocks, ChunkSize(req))
    ensures Apart(x, ChunkSize(req), d, ChunkSize(req))
  {
    var j := Home(a, d);
    LiveChunk(w, a, j, d, req);
    if i == j {
      assert PoolOk(w.mem, w.pools[i], a.pools[i], req, i);
      ChunksApart(a.pools[i].blocks, ChunkSize(req), x, d);
    } else {
      PoolsDisjoint(w, a, i, j, x, d, req);
    }
  }

  ghost predicate SameData(m: Mem, m': Mem, d: int, req: nat)
  {
    forall i :: d <= i < d + req ==> m'(i) == m(i)
  }

  lemma MallocMemory(w: World, a: Abstract, id: nat, answer: int, req: nat)
    requires WInv(w, a, req) && id in a.pools
    requires NeedsGrowth(a.pools[id]) ==>
               answer != NULL && FreshForAll(a, Block(answer, NextCount(a.pools[id])), req)
    requires w.pools[id].nextSize >= 2
    ensures var (v, m1) := (a.pools[id], Malloc(w.mem, w.pools[id], answer).0);
            && (!NeedsGrowth(v) ==> m1 == w.mem)
            && OnlyBlocks(w.mem, m1, [Block(answer, NextCount(v))], ChunkSize(req))
  {
    hide Malloc, OnlyBlocks;
    var (r, v) := (w.pools[id], a.pools[id]);
    assert PoolOk(w.mem, r, v, req, id);
    assert NeedsGrowth(v) ==> SystemAnswer(answer, v, ChunkSize(req)) by {
      assert FreshForAll(a, Block(answer, NextCount(v)), req) || !NeedsGrowth(v);
    }
    MallocTouches(w.mem, r, v, answer);
  }

  // Malloc of another chunk leaves what is in d.
  lemma MallocKeepsData(w: World, a: Abstract, id: nat, answer: int, d: int, req: nat)
    requires WInv(w, a, req) && id in a.pools && Live(a, d)
    requires NeedsGrowth(a.pools[id]) ==>
               answer != NULL && FreshForAll(a, Block(answer, NextCount(a.pools[id])), req)
    requires id in w.pools && w.pools[id].nextSize >= 2 && a.pools[id].start >= 2
    ensures var (w', c) := MallocBy(w, id, answer, req);
            c != d && SameData(w.mem, w'.mem, d, req)
  {
    hide Malloc, WInv, Live, FreshForAll, NeedsGrowth;
    var size := ChunkSize(req);
    var m1 := Malloc(w.mem, w.pools[id], answer).0;
    MallocMemory(w, a, id, answer, req);
    NewChunkApart(w, a, id, answer, d, req);
    if NeedsGrowth(a.pools[id]) {
      var b := Block(answer, NextCount(a.pools[id]));
      GrowthMissesLive(w, a, b, d, req);
      assert forall i :: d <= i < d + size ==> !InBlock([b][0], size, i);
    }
    assert SameData(w.mem, m1, d, req);
  }

  lemma GrowthMissesLive(w: World, a: Abstract, b: Block, d: int, req: nat)
    requires WInv(w, a, req) && Live(a, d) && FreshForAll(a, b, req)
    ensures forall i :: d <= i < d + ChunkSize(req) ==> !InBlock(b, ChunkSize(req), i)
  {
    var size := ChunkSize(req);
    var j := Home(a, d);
    LiveChunk(w, a, j, d, req);
    assert PoolOk(w.mem, w.pools[j], a.pools[j], req, j);
    var l := ChunkPlace(a.pools[j].blocks, size, d);
    assert Fresh(b, a.pools[j].blocks, size);
    assert BlocksApart(b, a.pools[j].blocks[l], size);
  }

  lemma MallocStepKeepsData(w: World, a: Abstract, t: Thread, place: int, answer: int, d: int, req: nat)
    requires WInv(w, a, req) && Ready(w) && ReadyAbstract(a)
    requires HasSlot(a, t) && Placed(a.ids, t, place) && AnswerOk(a, t, answer, req) && Live(a, d)
    ensures var (w', c) := MallocStep(w, t, place, answer, req);
            c != d && SameData(w.mem, w'.mem, d, req)
  {
    hide Malloc, PoolOk, PoolsApart;
    EnterKeeps(w, a, t, place, req);
    var (w1, a1) := (Enter(w, t, place, req), EnterAbstract(a, t));
    assert Live(a1, d) by {
      assert d in a1.pools[Home(a, d)].live;
    }
    InvReady(w1, a1, req);
    MallocKeepsData(w1, a1, a1.ids[t], answer, d, req);
  }

  lemma NewChunkApart(w: World, a: Abstract, id: nat, answer: int, d: int, req: nat)
    requires WInv(w, a, req) && id in a.pools && Live(a, d)
    requires NeedsGrowth(a.pools[id]) ==>
               answer != NULL && FreshForAll(a, Block(answer, NextCount(a.pools[id])), req)
    requires w.pools[id].nextSize >= 2 && a.pools[id].start >= 2
    ensures Apart(MallocBy(w, id, answer, req).1, ChunkSize(req), d, ChunkSize(req))
  {
    hide PoolsApart, OnlyBlocks, Malloc, PoolOk, MallocView, FreshForAll, Doubling;
    var (w', c) := MallocBy(w, id, answer, req);
    var (a', c') := MallocByAbstract(a, id, answer, req);
    var j := Home(a, d);
    MallocByRefines(w, a, id, answer, req);
    ViewOfPool(w, a, id, req);
    GrowthMeansAnswer(a, id, answer, req);
    MallocLive(a.pools[id], ChunkSize(req), answer);
    assert d in a'.pools[j].live && c in a'.pools[id].live;
    LiveApart(w', a', c, d, req) by {
      PickLive(w', a', id, c, j, d, req);
    }
  }

  lemma GrowthMeansAnswer(a: Abstract, id: nat, answer: int, req: nat)
    requires id in a.pools
    requires NeedsGrowth(a.pools[id]) ==>
               answer != NULL && FreshForAll(a, Block(answer, NextCount(a.pools[id])), req)
    ensures GrowthAllowed(a.pools[id], answer, ChunkSize(req)) && !Starved(a.pools[id], answer)
  {
  }

  lemma ViewOfPool(w: World, a: Abstract, i: nat, req: nat)
    requires WInv(w, a, req) && i in a.pools
    ensures ViewOk(a.pools[i], ChunkSize(req))
  {
    assert PoolOk(w.mem, w.pools[i], a.pools[i], req, i);
  }

  lemma PickLive(w: World, a: Abstract, i: nat, c: int, j: nat, d: int, req: nat)
    requires WInv(w, a, req) && i in a.pools && c in a.pools[i].live
    requires j in a.pools && d in a.pools[j].live
    ensures Live(a, c) && Live(a, d)
    ensures i != j ==> c != d
  {
    if i != j {
      LiveChunk(w, a, i, c, req);
      LiveChunk(w, a, j, d, req);
      PoolsDisjoint(w, a, i, j, c, d, req);
    }
  }

  // Free writes at most the link of the chunk given back and that of its home's tail.
  lemma FreeTouches(w: World, t: Thread, place: int, c: int, x: int, req: nat)
    requires Ready(w) && Tag(w.mem, c, req) in w.pools
    requires !(c <= x < c + PTR_SIZE)
    requires var tail := w.pools[Tag(w.mem, c, req)].tail; !(tail <= x < tail + PTR_SIZE)
    ensures FreeStep(w, t, place, c, req).mem(x) == w.mem(x)
  {
    hide Load;
  }

  // Free of another chunk leaves what is in d.
  lemma FreeKeepsData(w: World, a: Abstract, t: Thread, place: int, c: int, d: int, req: nat)
    requires WInv(w, a, req) && HasSlot(a, t) && Live(a, c) && Live(a, d) && c != d
    requires Ready(w) && Defined(w, FreeOp(t, place, c), req)
    ensures SameData(w.mem, FreeStep(w, t, place, c, req).mem, d, req)
  {
    TagIsHome(w, a, c, req);
    FreedAndTailApart(w, a, c, d, req);
    hide WInv, Load, Live, HasSlot, FreeStep, Tag, Ready;
    forall x | d <= x < d + req
      ensures FreeStep(w, t, place, c, req).mem(x) == w.mem(x)
    {
      FreeTouches(w, t, place, c, x, req);
    }
  }

  // The chunk given back and its home's tail lie apart from any other live chunk.
  lemma FreedAndTailApart(w: World, a: Abstract, c: int, d: int, req: nat)
    requires WInv(w, a, req) && Live(a, c) && Live(a, d) && c != d
    ensures a.pools[Home(a, c)].free != []
    ensures Apart(c, ChunkSize(req), d, ChunkSize(req))
    ensures Apart(w.pools[Home(a, c)].tail, ChunkSize(req), d, ChunkSize(req))
  {
    var i := Home(a, c);
    var (r, v) := (w.pools[i], a.pools[i]);
    assert PoolOk(w.mem, r, v, req, i);
    LiveChunk(w, a, i, c, req);
    FreeChunk(r, v, r.tail);
    TailNotLive(w, a, i, d, req);
    hide WInv, PoolOk;
    ApartFromLive(w, a, i, c, d, req);
    ApartFromLive(w, a, i, r.tail, d, req);
  }

  lemma TailNotLive(w: World, a: Abstract, i: nat, d: int, req: nat)
    requires WInv(w, a, req) && i in a.pools && a.pools[i].free != [] && Live(a, d)
    ensures w.pools[i].tail != d
  {
    var v := a.pools[i];
    var j := Home(a, d);
    assert PoolOk(w.mem, w.pools[i], v, req, i);
    assert w.pools[i].tail in Elems(v.free);
    if i != j {
      FreeChunk(w.pools[i], v, w.pools[i].tail);
      LiveChunk(w, a, j, d, req);
      PoolsDisjoint(w, a, i, j, w.pools[i].tail, d, req);
    }
  }

  // No operation but its owner's own write or free changes the user bytes of a live
  // chunk, and malloc never hands out a chunk that is in use.
  lemma StepKeepsData(w: World, a: Abstract, op: Op, d: int, req: nat)
    requires WInv(w, a, req) && Legal(a, op, req) && Defined(w, op, req) && Live(a, d)
    requires !op.MallocOp? ==> op.c != d
    ensures Safe(a, op)
    ensures SameData(w.mem, Step(w, op, req).0.mem, d, req)
    ensures op.MallocOp? ==> Step(w, op, req).1 != d
  {
    DefinedIff(w, a, op, req);
    match op
    case MallocOp(t, place, answer) =>
      MallocStepKeepsData(w, a, t, place, answer, d, req);
    case FreeOp(t, place, c) =>
      FreeKeepsData(w, a, t, place, c, d, req);
    case WriteOp(c, data) =>
      LiveApart(w, a, c, d, req);
  }

  lemma LiveStays(a: Abstract, op: Op, i: nat, d: int, req: nat)
    requires Indexed(a) && Legal(a, op, req)
    requires i in a.pools && d in a.pools[i].live
    requires op.FreeOp? ==> op.c != d
    ensures var a' := StepAbstract(a, op, req).0; i in a'.pools && d in a'.pools[i].live
  {
  }

  ghost predicate LeavesAlone(ops: seq<Op>, d: int)
  {
    forall k :: 0 <= k < |ops| ==> !ops[k].MallocOp? ==> ops[k].c != d
  }

  lemma StepKeepsChunk(w: World, a: Abstract, op: Op, i: nat, d: int, req: nat)
    requires WInv(w, a, req) && Legal(a, op, req) && Defined(w, op, req)
    requires i in a.pools && d in a.pools[i].live
    requires !op.MallocOp? ==> op.c != d
    ensures var (w', out) := Step(w, op, req);
            var a' := StepAbstract(a, op, req).0;
            && Safe(a, op) && WInv(w', a', req) && i in a'.pools && d in a'.pools[i].live
            && SameData(w.mem, w'.mem, d, req) && (op.MallocOp? ==> out != d)
  {
    hide Step, StepAbstract, Defined, Load;
    StepRefines(w, a, op, req);
    StepKeepsData(w, a, op, d, req);
    LiveStays(a, op, i, d, req);
  }

  lemma LeavesAloneTail(ops: seq<Op>, d: int)
    requires LeavesAlone(ops, d) && ops != []
    ensures LeavesAlone(ops[1..], d) && (!ops[0].MallocOp? ==> ops[0].c != d)
  {
    assert forall k :: 0 <= k < |ops[1..]| ==> ops[1..][k] == ops[k + 1];
  }

  // From malloc to free, through any run of all threads, a chunk keeps the user's bytes
  // and the tag of its home pool.
  lemma {:induction false} RunKeepsData(w: World, a: Abstract, ops: seq<Op>, i: nat, d: int, req: nat)
    requires WInv(w, a, req) && LegalRun(a, ops, req) && DefinedRun(w, ops, req)
    requires i in a.pools && d in a.pools[i].live && LeavesAlone(ops, d)
    ensures var m' := Run(w, ops, req).0.mem; SameData(w.mem, m', d, req) && Tag(m', d, req) == i
    decreases |ops|
  {
    hide Step, StepAbstract, Legal, Defined, WInv, Load, LeavesAlone, Tag;
    TagOfLive(w, a, i, d, req);
    if ops != [] {
      LeavesAloneTail(ops, d);
      StepKeepsChunk(w, a, ops[0], i, d, req);
      RunKeepsData(Step(w, ops[0], req).0, StepAbstract(a, ops[0], req).0, ops[1..], i, d, req);
    }
  }

  // Until it is freed, a chunk is not handed out a second time.
  lemma {:induction false} HandedOutOnce(w: World, a: Abstract, ops: seq<Op>, i: nat, d: int, k: nat, req: nat)
    requires WInv(w, a, req) && LegalRun(a, ops, req) && DefinedRun(w, ops, req)
    requires i in a.pools && d in a.pools[i].live && LeavesAlone(ops, d)
    requires k < |ops| && ops[k].MallocOp?
    ensures Run(w, ops, req).1[k] != d
    decreases |ops|
  {
    hide Step, StepAbstract, Legal, Defined, WInv, Load, LeavesAlone, SameData;
    LeavesAloneTail(ops, d);
    StepKeepsChunk(w, a, ops[0], i, d, req);
    if k > 0 {
      HandedOutOnce(Step(w, ops[0], req).0, StepAbstract(a, ops[0], req).0, ops[1..], i, d, k - 1, req);
    }
  }

  lemma TagOfLive(w: World, a: Abstract, i: nat, d: int, req: nat)
    requires WInv(w, a, req) && i in a.pools && d in a.pools[i].live
    ensures Tag(w.mem, d, req) == i
  {
    assert PoolOk(w.mem, w.pools[i], a.pools[i], req, i);
  }
}
