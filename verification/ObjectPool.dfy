// Per-thread pools over one memory. Every chunk carries the id of the pool that carved
// it in two bytes behind the user's data, and is given back to that pool by whichever
// thread frees it.
module ObjectPool {
  import opened Memory
  import opened Layout
  import opened Sequences
  import opened FreeList
  import opened Carving

  type Thread = nat

  const MAX_THREAD_NUM := 64

  // The static members: thread_id_counter, object_pool_array_ and the thread-local ids.
  datatype World = World(mem: Mem, pools: map<nat, Regs>, ids: map<Thread, nat>, counter: nat)

  // The same with each pool as its view, without any memory.
  datatype Abstract = Abstract(pools: map<nat, View>, ids: map<Thread, nat>, counter: nat)

  // Two bytes for the tag; never smaller than a link.
  function ChunkSize(req: nat): nat
  {
    if req + TAG_SIZE < PTR_SIZE then PTR_SIZE else req + TAG_SIZE
  }

  // The chunk size as the code computes it: RequestedSize is a 32-bit unsigned number.
  function AllocSize(req: nat): nat
  {
    var requested := (req + TAG_SIZE) % 0x1_0000_0000;
    if requested < PTR_SIZE then PTR_SIZE else requested
  }

  // It is ChunkSize, and the tag lies inside its chunk, exactly if the sum does not wrap.
  lemma TagFitsIff(req: nat)
    requires req < 0x1_0000_0000
    ensures AllocSize(req) == ChunkSize(req) <==> req + TAG_SIZE < 0x1_0000_0000
    ensures req + TAG_SIZE <= AllocSize(req) <==> req + TAG_SIZE < 0x1_0000_0000
  {
    if req + TAG_SIZE < 0x1_0000_0000 {
      SmallMod(req + TAG_SIZE, 0x1_0000_0000);
    }
  }

  function Tag(m: Mem, c: int, req: nat): nat
  {
    Load(m, c + req, TAG_SIZE)
  }

  // ---------- what the code does ----------

  function NewPool(req: nat): Regs
  {
    Regs(NULL, NULL, NULL, 64, ChunkSize(req))
  }

  predicate Ready(w: World)
  {
    && (forall t :: t in w.ids ==> w.ids[t] in w.pools)
    && (forall i :: i in w.pools ==> w.pools[i].nextSize >= 2)
  }

  predicate ReadyAbstract(a: Abstract)
  {
    && (forall t :: t in a.ids ==> a.ids[t] in a.pools)
    && (forall i :: i in a.pools ==> a.pools[i].start >= 2)
  }

  // Thread t has a pool object, or the system answers its request for one with memory.
  predicate Placed(ids: map<Thread, nat>, t: Thread, place: int)
  {
    t in ids || place != NULL
  }

  // object_pool(): a thread gets its pool and its id on first use; place is the system's
  // answer to the request for the pool object, which is not checked. A thread whose
  // object would lie at null uses up an id and is left without a pool.
  function Enter(w: World, t: Thread, place: int, req: nat): World
  {
    if t in w.ids then w
    else if place == NULL then w.(counter := w.counter + 1)
    else World(w.mem, w.pools[w.counter + 1 := NewPool(req)], w.ids[t := w.counter + 1], w.counter + 1)
  }

  // Without a pool object there is nothing to allocate from.
  function MallocStep(w0: World, t: Thread, place: int, answer: int, req: nat): (World, int)
    requires Ready(w0)
  {
    var w := Enter(w0, t, place, req);
    if Placed(w0.ids, t, place) then MallocBy(w, w.ids[t], answer, req) else (w, NULL)
  }

  // ObjectPool::malloc in a thread whose id is id.
  function MallocBy(w: World, id: nat, answer: int, req: nat): (World, int)
    requires id in w.pools && w.pools[id].nextSize >= 2
  {
    var (m, r, c) := Malloc(w.mem, w.pools[id], answer);
    (w.(mem := Store(m, c + req, TAG_SIZE, id), pools := w.pools[id := r]), c)
  }

  // The tag decides which pool gets the chunk: the own one at the front, another one at
  // the back.
  function FreeStep(w0: World, t: Thread, place: int, c: int, req: nat): (w': World)
    requires Ready(w0)
    requires Tag(w0.mem, c, req) in w0.pools
  {
    var w := Enter(w0, t, place, req);
    if !Placed(w0.ids, t, place) then w
    else
      var tag := Tag(w.mem, c, req);
      var (m, r) := if tag == w.ids[t] then Push(w.mem, w.pools[tag], c)
                    else Append(w.mem, w.pools[tag], c);
      w.(mem := m, pools := w.pools[tag := r])
  }

  // ---------- what it means ----------

  function EnterAbstract(a: Abstract, t: Thread): Abstract
  {
    if t in a.ids then a
    else Abstract(a.pools[a.counter + 1 := View([], {}, [], 64)], a.ids[t := a.counter + 1], a.counter + 1)
  }

  // The view of thread t's own pool, which an entering thread finds empty.
  ghost function PoolOf(a: Abstract, t: Thread): (v: View)
    requires ReadyAbstract(a)
    ensures v.start >= 2
  {
    var e := EnterAbstract(a, t);
    e.pools[e.ids[t]]
  }

  ghost predicate Live(a: Abstract, c: int)
  {
    exists i :: i in a.pools && c in a.pools[i].live
  }

  ghost function Home(a: Abstract, c: int): (i: nat)
    requires Live(a, c)
    ensures i in a.pools && c in a.pools[i].live
  {
    var i :| i in a.pools && c in a.pools[i].live;
    i
  }

  ghost function MallocAbstract(a0: Abstract, t: Thread, answer: int, req: nat): (Abstract, int)
    requires ReadyAbstract(a0)
  {
    var a := EnterAbstract(a0, t);
    MallocByAbstract(a, a.ids[t], answer, req)
  }

  ghost function MallocByAbstract(a: Abstract, id: nat, answer: int, req: nat): (Abstract, int)
    requires id in a.pools && a.pools[id].start >= 2
  {
    var (v, c) := MallocView(a.pools[id], ChunkSize(req), answer);
    (a.(pools := a.pools[id := v]), c)
  }

  ghost function FreeAbstract(a0: Abstract, t: Thread, c: int): Abstract
    requires ReadyAbstract(a0) && Live(a0, c)
  {
    var i := Home(a0, c);
    var a := EnterAbstract(a0, t);
    var v := if i == a.ids[t] then PushFront(a0.pools[i], c) else PushBack(a0.pools[i], c);
    a.(pools := a.pools[i := v])
  }

  // ---------- the invariant ----------

  // No block of the one pool overlaps a block of the other.
  ghost predicate PoolsApart(a: seq<Block>, b: seq<Block>, size: int)
  {
    forall k, l :: 0 <= k < |a| && 0 <= l < |b| ==> BlocksApart(a[k], b[l], size)
  }

  // Every chunk handed out by pool i carries i.
  ghost predicate Tagged(m: Mem, v: View, req: nat, i: nat)
  {
    forall c :: c in v.live ==> Tag(m, c, req) == i
  }

  // Thread ids are handed out once each and index the pools 1..counter.
  ghost predicate Indexed(a: Abstract)
  {
    && a.counter <= MAX_THREAD_NUM
    && (forall i :: i in a.pools <==> 1 <= i <= a.counter)
    && (forall t :: t in a.ids ==> a.ids[t] in a.pools)
    && (forall s, t :: s in a.ids && t in a.ids && s != t ==> a.ids[s] != a.ids[t])
  }

  ghost predicate PoolOk(m: Mem, r: Regs, v: View, req: nat, i: nat)
  {
    r.allocSize == ChunkSize(req) && Inv(m, r, v) && Tagged(m, v, req, i)
  }

  ghost predicate SameIndex(w: World, a: Abstract)
  {
    w.ids == a.ids && w.counter == a.counter && w.pools.Keys == a.pools.Keys
  }

  ghost predicate AllOk(w: World, a: Abstract, req: nat)
    requires SameIndex(w, a)
  {
    forall i :: i in a.pools ==> PoolOk(w.mem, w.pools[i], a.pools[i], req, i)
  }

  ghost predicate AllApart(a: Abstract, req: nat)
  {
    forall i, j :: i in a.pools && j in a.pools && i != j ==>
      PoolsApart(a.pools[i].blocks, a.pools[j].blocks, ChunkSize(req))
  }

  ghost predicate WInv(w: World, a: Abstract, req: nat)
  {
    && req + TAG_SIZE < 0x1_0000_0000
    && Indexed(a)
    && SameIndex(w, a)
    && AllOk(w, a, req)
    && AllApart(a, req)
  }

  // ---------- frame ----------

  // A write confined to one chunk does not reach the tag of another.
  lemma TagKept(m: Mem, m': Mem, v: View, req: nat, c: int, d: int)
    requires Sane(v.blocks, ChunkSize(req))
    requires c in Chunks(v.blocks, ChunkSize(req)) && d in Chunks(v.blocks, ChunkSize(req)) && c != d
    requires forall a :: m(a) != m'(a) ==> c <= a < c + ChunkSize(req)
    ensures Tag(m', d, req) == Tag(m, d, req)
  {
    ChunksApart(v.blocks, ChunkSize(req), c, d);
    LoadSame(m, m', d + req, TAG_SIZE);
  }

  lemma ForeignChunk(m: Mem, m': Mem, blocks: seq<Block>, size: int, touched: seq<Block>,
                     c: int, off: nat, n: nat)
    requires Sane(blocks, size) && PoolsApart(touched, blocks, size)
    requires OnlyBlocks(m, m', touched, size) && c in Chunks(blocks, size) && off + n <= size
    ensures Load(m', c + off, n) == Load(m, c + off, n)
  {
    var l := ChunkPlace(blocks, size, c);
    assert forall k :: 0 <= k < |touched| ==> BlocksApart(touched[k], blocks[l], size);
    LoadSame(m, m', c + off, n);
  }

  lemma ForeignHeader(m: Mem, m': Mem, blocks: seq<Block>, size: int, touched: seq<Block>, l: int)
    requires Sane(blocks, size) && PoolsApart(touched, blocks, size)
    requires OnlyBlocks(m, m', touched, size) && 0 <= l < |blocks|
    ensures Word(m', blocks[l].base) == Word(m, blocks[l].base)
  {
    assert BlockOk(blocks[l], size);
    ChunkInside(blocks[l], size, 0);
    assert forall k :: 0 <= k < |touched| ==> BlocksApart(touched[k], blocks[l], size);
    LoadSame(m, m', blocks[l].base, PTR_SIZE);
  }

  lemma ForeignLinks(m: Mem, m': Mem, r: Regs, v: View, touched: seq<Block>)
    requires Inv(m, r, v) && PoolsApart(touched, v.blocks, r.allocSize)
    requires OnlyBlocks(m, m', touched, r.allocSize)
    ensures KeepsLinks(m, m', v)
  {
    hide OnlyBlocks, PoolsApart, Load;
    forall k | 0 <= k < |v.blocks|
      ensures Word(m', v.blocks[k].base) == Word(m, v.blocks[k].base)
    {
      ForeignHeader(m, m', v.blocks, r.allocSize, touched, k);
    }
    forall k | 0 <= k < |v.free| - 1
      ensures Word(m', v.free[k]) == Word(m, v.free[k])
    {
      FreeChunk(r, v, v.free[k]);
      ForeignChunk(m, m', v.blocks, r.allocSize, touched, v.free[k], 0, PTR_SIZE);
    }
  }

  // A write confined to blocks apart from a pool's does not reach the pool.
  lemma ForeignWrite(m: Mem, m': Mem, r: Regs, v: View, req: nat, i: nat, touched: seq<Block>)
    requires PoolOk(m, r, v, req, i)
    requires PoolsApart(touched, v.blocks, ChunkSize(req))
    requires OnlyBlocks(m, m', touched, ChunkSize(req))
    ensures PoolOk(m', r, v, req, i)
  {
    ForeignLinks(m, m', r, v, touched);
    InvFrame(m, m', r, v);
    forall c | c in v.live
      ensures Tag(m', c, req) == i
    {
      FreeChunk(r, v, c);
      ForeignChunk(m, m', v.blocks, ChunkSize(req), touched, c, req, TAG_SIZE);
    }
  }

  // ---------- one pool ----------

  lemma ChunkWriteInBlocks(m: Mem, m': Mem, blocks: seq<Block>, size: int, c: int)
    requires Sane(blocks, size) && c in Chunks(blocks, size)
    requires forall a :: m(a) != m'(a) ==> c <= a < c + size
    ensures OnlyBlocks(m, m', blocks, size)
  {
    var k := ChunkPlace(blocks, size, c);
    forall a | m(a) != m'(a)
      ensures exists l :: 0 <= l < |blocks| && InBlock(blocks[l], size, a)
    {
      assert InBlock(blocks[k], size, a);
    }
  }

  lemma OnlyBlocksTrans(m: Mem, m1: Mem, m': Mem, b: Block, blocks: seq<Block>, size: int)
    requires (b in blocks && OnlyBlocks(m, m1, [b], size)) || m1 == m
    requires OnlyBlocks(m1, m', blocks, size)
    ensures OnlyBlocks(m, m', blocks, size)
  {
    forall a | m(a) != m'(a)
      ensures exists k :: 0 <= k < |blocks| && InBlock(blocks[k], size, a)
    {
      if m(a) != m1(a) {
        var l :| 0 <= l < |[b]| && InBlock([b][l], size, a);
        var k :| 0 <= k < |blocks| && blocks[k] == b;
        assert InBlock(blocks[k], size, a);
      }
    }
  }

  ghost predicate GrowthAllowed(v: View, answer: int, size: int)
  {
    NeedsGrowth(v) ==> SystemAnswer(answer, v, size)
  }

  // The pool must grow and the system has no memory for it.
  predicate Starved(v: View, answer: int)
  {
    NeedsGrowth(v) && answer == NULL
  }

  // Pool::Malloc answers null exactly when it is starved, and then changes nothing.
  lemma MallocNullIff(m: Mem, r: Regs, v: View, answer: int)
    requires Inv(m, r, v) && GrowthAllowed(v, answer, r.allocSize)
    ensures r.nextSize >= 2 && v.start >= 2
    ensures Malloc(m, r, answer).2 == NULL <==> Starved(v, answer)
    ensures Starved(v, answer) ==> Malloc(m, r, answer) == (m, r, NULL)
    ensures Starved(v, answer) ==> MallocView(v, r.allocSize, answer) == (v, NULL)
  {
    hide Linked, Headers, Doubling, Grow, Fresh;
    MallocRefines(m, r, v, answer);
    EmptyMeansOneHeldBack(m, r, v);
    if !NeedsGrowth(v) {
      FreeChunk(r, v, v.free[0]);
    }
  }

  // Pool::Malloc keeps the tags of the chunks handed out before.
  lemma MallocKeepsTags(m: Mem, r: Regs, v: View, answer: int, req: nat, i: nat)
    requires PoolOk(m, r, v, req, i) && GrowthAllowed(v, answer, ChunkSize(req))
    requires r.nextSize >= 2
    ensures Tagged(Malloc(m, r, answer).0, v, req, i)
  {
    hide Malloc, Load, Linked, Headers, Doubling, OnlyBlocks;
    MallocTouches(m, r, v, answer);
    var b := Block(answer, NextCount(v));
    var m1 := Malloc(m, r, answer).0;
    if NeedsGrowth(v) && answer != NULL {
      forall c | c in v.live
        ensures Tag(m1, c, req) == i
      {
        FreeChunk(r, v, c);
        ForeignChunk(m, m1, v.blocks, ChunkSize(req), [b], c, req, TAG_SIZE);
      }
    }
  }

  // Malloc and the tag write: the chunk handed out is tagged, all others stay tagged;
  // a starved malloc hands out null and leaves the pool as it was.
  lemma MallocOwn(m: Mem, r: Regs, v: View, answer: int, req: nat, i: nat)
    requires PoolOk(m, r, v, req, i) && GrowthAllowed(v, answer, ChunkSize(req))
    requires i <= MAX_THREAD_NUM
    ensures r.nextSize >= 2 && v.start >= 2
    ensures var (m1, r', c) := Malloc(m, r, answer);
            var m' := Store(m1, c + req, TAG_SIZE, i);
            var (v', c') := MallocView(v, ChunkSize(req), answer);
            && c == c' && (c == NULL <==> Starved(v, answer))
            && (c == NULL ==> (m1, r', v') == (m, r, v))
            && (c != NULL ==>
                  && c in v'.live && c !in v.live
                  && PoolOk(m', r', v', req, i)
                  && OnlyBlocks(m, m', v'.blocks, ChunkSize(req)))
  {
    MallocNullIff(m, r, v, answer);
    if !Starved(v, answer) {
      MallocTagged(m, r, v, answer, req, i);
    }
  }

  lemma MallocTagged(m: Mem, r: Regs, v: View, answer: int, req: nat, i: nat)
    requires PoolOk(m, r, v, req, i) && GrowthAllowed(v, answer, ChunkSize(req))
    requires i <= MAX_THREAD_NUM && !Starved(v, answer)
    ensures r.nextSize >= 2 && v.start >= 2
    ensures var (m1, r', c) := Malloc(m, r, answer);
            var m' := Store(m1, c + req, TAG_SIZE, i);
            var (v', c') := MallocView(v, ChunkSize(req), answer);
            && c == c' && c in v'.live && c !in v.live
            && PoolOk(m', r', v', req, i)
            && OnlyBlocks(m, m', v'.blocks, ChunkSize(req))
  {
    hide OnlyBlocks, Load, Pow256, Linked, Headers, Conserved, Doubling, Malloc;
    var size := ChunkSize(req);
    MallocRefines(m, r, v, answer);
    var (m1, r', c) := Malloc(m, r, answer);
    var m' := Store(m1, c + req, TAG_SIZE, i);
    var (v', c') := MallocView(v, size, answer);
    MallocKeepsTags(m, r, v, answer, req, i);
    MallocTouches(m, r, v, answer);
    MallocLive(v, size, answer);
    FreeChunk(r', v', c);
    LiveWriteKeepsInv(m1, m', r', v', c);
    WordLimit();
    LoadStore(m1, c + req, TAG_SIZE, i);
    forall d | d in v'.live
      ensures Tag(m', d, req) == i
    {
      if d != c {
        FreeChunk(r', v', d);
        TagKept(m1, m', v', req, c, d);
      }
    }
    ChunkWriteInBlocks(m1, m', v'.blocks, size, c);
    OnlyBlocksTrans(m, m1, m', Block(answer, NextCount(v)), v'.blocks, size);
  }

  lemma MallocLive(v: View, size: int, answer: int)
    requires v.start >= 2 && Conserved(v, size) && GrowthAllowed(v, answer, size)
    requires Sane(v.blocks, size) && !Starved(v, answer)
    ensures var (v', c) := MallocView(v, size, answer);
            v'.live == v.live + {c} && c !in v.live
  {
    if NeedsGrowth(v) {
      Pow2Positive(v);
      AddBlockConserved(v, answer, size);
    }
    var u := if NeedsGrowth(v) then AddBlock(v, answer, size) else v;
    assert u.free[0] in Elems(u.free);
  }

  lemma PushOwn(m: Mem, r: Regs, v: View, c: int, req: nat, i: nat)
    requires PoolOk(m, r, v, req, i) && c in v.live
    ensures var (m', r') := Push(m, r, c);
            PoolOk(m', r', PushFront(v, c), req, i) && OnlyBlocks(m, m', v.blocks, ChunkSize(req))
  {
    PushRefines(m, r, v, c);
    FreeChunk(r, v, c);
    TouchOwn(m, Push(m, r, c).0, r, v, req, i, c, c);
  }

  lemma AppendOwn(m: Mem, r: Regs, v: View, c: int, req: nat, i: nat)
    requires PoolOk(m, r, v, req, i) && c in v.live
    ensures r.tail != NULL
    ensures var (m', r') := Append(m, r, c);
            PoolOk(m', r', PushBack(v, c), req, i) && OnlyBlocks(m, m', v.blocks, ChunkSize(req))
  {
    AppendRefines(m, r, v, c);
    FreeChunk(r, v, c);
    assert v.blocks != [];
    assert r.tail in Elems(v.free);
    FreeChunk(r, v, r.tail);
    TouchOwn(m, Append(m, r, c).0, r, v, req, i, r.tail, c);
  }

  // A write to the chunk `touched`, which is free or the chunk c being given back.
  lemma TouchOwn(m: Mem, m': Mem, r: Regs, v: View, req: nat, i: nat, touched: int, c: int)
    requires PoolOk(m, r, v, req, i)
    requires touched in Chunks(v.blocks, ChunkSize(req))
    requires touched == c || touched !in v.live
    requires forall a :: m(a) != m'(a) ==> touched <= a < touched + PTR_SIZE
    ensures Tagged(m', v.(live := v.live - {c}), req, i)
    ensures OnlyBlocks(m, m', v.blocks, ChunkSize(req))
  {
    forall d | d in v.live && d != c
      ensures Tag(m', d, req) == i
    {
      FreeChunk(r, v, d);
      TagKept(m, m', v, req, touched, d);
    }
    ChunkWriteInBlocks(m, m', v.blocks, ChunkSize(req), touched);
  }

  // ---------- all pools ----------

  // An operation of pool i that writes only in its blocks leaves every other pool intact.
  lemma ReplacePool(w: World, a: Abstract, req: nat, i: nat, m': Mem, r': Regs, v': View)
    requires WInv(w, a, req) && i in a.pools
    requires PoolOk(m', r', v', req, i) && OnlyBlocks(w.mem, m', v'.blocks, ChunkSize(req))
    requires forall j :: j in a.pools && j != i ==>
               PoolsApart(v'.blocks, a.pools[j].blocks, ChunkSize(req))
    ensures WInv(w.(mem := m', pools := w.pools[i := r']), a.(pools := a.pools[i := v']), req)
  {
    hide PoolOk;
    forall j | j in a.pools && j != i
      ensures PoolOk(m', w.pools[j], a.pools[j], req, j)
      ensures PoolsApart(a.pools[j].blocks, v'.blocks, ChunkSize(req))
    {
      ForeignWrite(w.mem, m', w.pools[j], a.pools[j], req, j, v'.blocks);
    }
  }

  ghost predicate HasSlot(a: Abstract, t: Thread)
  {
    t in a.ids || a.counter < MAX_THREAD_NUM
  }

  lemma EnterIndexed(a: Abstract, t: Thread)
    requires Indexed(a) && HasSlot(a, t)
    ensures Indexed(EnterAbstract(a, t))
  {
    var a' := EnterAbstract(a, t);
    assert forall s :: s in a'.ids ==> s in a.ids || s == t;
  }

  lemma EnterOk(w: World, a: Abstract, t: Thread, place: int, req: nat)
    requires req + TAG_SIZE < 0x1_0000_0000 && Indexed(a)
    requires SameIndex(w, a) && AllOk(w, a, req) && Placed(w.ids, t, place)
    ensures SameIndex(Enter(w, t, place, req), EnterAbstract(a, t))
    ensures AllOk(Enter(w, t, place, req), EnterAbstract(a, t), req)
  {
    hide PoolOk, NewPool, ChunkSize, Indexed;
    if t in w.ids {
      assert Enter(w, t, place, req) == w && EnterAbstract(a, t) == a;
    } else {
      NewPoolOk(w.mem, req, a.counter + 1);
      AddPool(w, a, a.counter + 1, NewPool(req), View([], {}, [], 64), req);
    }
  }

  lemma AddPool(w: World, a: Abstract, id: nat, r: Regs, v: View, req: nat)
    requires SameIndex(w, a) && AllOk(w, a, req) && PoolOk(w.mem, r, v, req, id)
    ensures AllOk(w.(pools := w.pools[id := r]), a.(pools := a.pools[id := v]), req)
  {
    hide PoolOk;
  }

  lemma NewPoolOk(m: Mem, req: nat, id: nat)
    requires req + TAG_SIZE < 0x1_0000_0000
    ensures PoolOk(m, NewPool(req), View([], {}, [], 64), req, id)
  {
  }

  lemma EnterApart(a: Abstract, t: Thread, req: nat)
    requires AllApart(a, req)
    ensures AllApart(EnterAbstract(a, t), req)
  {
  }

  // Entering keeps the invariant exactly if the array has room for the thread and the
  // system has memory for its pool object.
  lemma EnterKeeps(w: World, a: Abstract, t: Thread, place: int, req: nat)
    requires WInv(w, a, req)
    ensures var w1 := Enter(w, t, place, req);
            && (WInv(w1, EnterAbstract(a, t), req) <==> HasSlot(a, t) && Placed(a.ids, t, place))
            && (t in w1.ids <==> Placed(a.ids, t, place))
            && (t in w1.ids ==> (w1.ids[t] <= MAX_THREAD_NUM <==> HasSlot(a, t)))
  {
    if HasSlot(a, t) && Placed(a.ids, t, place) {
      EnterIndexed(a, t);
      EnterOk(w, a, t, place, req);
      EnterApart(a, t, req);
    }
  }

  lemma InvReady(w: World, a: Abstract, req: nat)
    requires WInv(w, a, req)
    ensures Ready(w) && ReadyAbstract(a)
  {
    forall i | i in w.pools
      ensures w.pools[i].nextSize >= 2 && a.pools[i].start >= 2
    {
      GrowthSizes(w.mem, w.pools[i], a.pools[i]);
    }
  }

  // What the system may answer when the pool of thread t must grow: null, or a block
  // apart from every block of every pool.
  ghost predicate AnswerLegal(a: Abstract, t: Thread, answer: int, req: nat)
    requires ReadyAbstract(a)
  {
    var v := PoolOf(a, t);
    NeedsGrowth(v) && answer != NULL ==>
      FreshForAll(EnterAbstract(a, t), Block(answer, NextCount(v)), req)
  }

  // The system answers with such a block.
  ghost predicate AnswerOk(a: Abstract, t: Thread, answer: int, req: nat)
    requires ReadyAbstract(a)
  {
    AnswerLegal(a, t, answer, req) && !Starved(PoolOf(a, t), answer)
  }

  ghost predicate FreshForAll(a: Abstract, b: Block, req: nat)
  {
    forall j :: j in a.pools ==> Fresh(b, a.pools[j].blocks, ChunkSize(req))
  }

  lemma MallocApart(a: Abstract, id: nat, answer: int, req: nat)
    requires id in a.pools && a.pools[id].start >= 2 && AllApart(a, req)
    requires NeedsGrowth(a.pools[id]) && answer != NULL ==>
               FreshForAll(a, Block(answer, NextCount(a.pools[id])), req)
    ensures var v' := MallocView(a.pools[id], ChunkSize(req), answer).0;
            forall j :: j in a.pools && j != id ==>
              PoolsApart(v'.blocks, a.pools[j].blocks, ChunkSize(req))
  {
    var v := a.pools[id];
    var b := Block(answer, NextCount(v));
    var v' := MallocView(v, ChunkSize(req), answer).0;
    forall j | j in a.pools && j != id
      ensures PoolsApart(v'.blocks, a.pools[j].blocks, ChunkSize(req))
    {
      assert PoolsApart(v.blocks, a.pools[j].blocks, ChunkSize(req));
      if NeedsGrowth(v) && answer != NULL {
        assert v'.blocks == [b] + v.blocks;
        assert Fresh(b, a.pools[j].blocks, ChunkSize(req));
      }
    }
  }

  lemma MallocByRefines(w: World, a: Abstract, id: nat, answer: int, req: nat)
    requires WInv(w, a, req) && id in a.pools
    requires NeedsGrowth(a.pools[id]) && answer != NULL ==>
               FreshForAll(a, Block(answer, NextCount(a.pools[id])), req)
    requires w.pools[id].nextSize >= 2 && a.pools[id].start >= 2
    ensures var (w', c) := MallocBy(w, id, answer, req);
            var (a', c') := MallocByAbstract(a, id, answer, req);
            && c == c' && (c == NULL <==> Starved(a.pools[id], answer))
            && (c == NULL ==> w'.mem == Store(w.mem, NULL + req, TAG_SIZE, id))
            && (c != NULL ==> WInv(w', a', req))
  {
    hide Malloc, PoolsApart, OnlyBlocks, PoolOk;
    var (r, v) := (w.pools[id], a.pools[id]);
    MallocOwn(w.mem, r, v, answer, req, id);
    MallocApart(a, id, answer, req);
    var (m1, r', c) := Malloc(w.mem, r, answer);
    if c != NULL {
      var v' := MallocView(v, ChunkSize(req), answer).0;
      ReplacePool(w, a, req, id, Store(m1, c + req, TAG_SIZE, id), r', v');
    }
  }

  // ObjectPool::malloc by any thread with room in the array is the sequence operation on
  // that thread's pool. Null is returned by a starved pool, which has then already written
  // its tag behind the null address, and stands for the call of a thread without a pool.
  lemma MallocRefinesWorld(w: World, a: Abstract, t: Thread, place: int, answer: int, req: nat)
    requires WInv(w, a, req) && Ready(w) && ReadyAbstract(a) && AnswerLegal(a, t, answer, req)
    ensures var (w', c) := MallocStep(w, t, place, answer, req);
            var (a', c') := MallocAbstract(a, t, answer, req);
            && (c == NULL <==> Starved(PoolOf(a, t), answer) || !Placed(a.ids, t, place))
            && (Placed(a.ids, t, place) ==> t in w'.ids && c == c')
            && (Placed(a.ids, t, place) && c == NULL ==>
                  w'.mem == Store(w.mem, NULL + req, TAG_SIZE, w'.ids[t]))
            && (!Placed(a.ids, t, place) ==> w' == w.(counter := w.counter + 1))
            && (c != NULL && HasSlot(a, t) ==> WInv(w', a', req))
  {
    hide WInv, Ready, FreshForAll, Malloc, MallocView;
    MallocEntered(w, a, t, place, req);
    var (w1, a1) := (Enter(w, t, place, req), EnterAbstract(a, t));
    if Placed(a.ids, t, place) {
      if HasSlot(a, t) {
        MallocByRefines(w1, a1, a1.ids[t], answer, req);
      } else {
        UnseatedMalloc(w, a, t, place, answer, req);
      }
    }
  }

  lemma MallocEntered(w: World, a: Abstract, t: Thread, place: int, req: nat)
    requires WInv(w, a, req) && Ready(w) && ReadyAbstract(a)
    ensures w.ids == a.ids && w.counter == a.counter
    ensures var (w1, a1) := (Enter(w, t, place, req), EnterAbstract(a, t));
            Placed(a.ids, t, place) ==>
              && t in w1.ids && t in a1.ids && w1.ids[t] == a1.ids[t]
              && a1.ids[t] in a1.pools && a1.ids[t] in w1.pools
              && w1.pools[a1.ids[t]].nextSize >= 2 && a1.pools[a1.ids[t]].start >= 2
              && (HasSlot(a, t) ==> WInv(w1, a1, req))
  {
    EnterKeeps(w, a, t, place, req);
  }

  lemma LegalAnswerAddress(a: Abstract, t: Thread, answer: int, req: nat)
    requires ReadyAbstract(a) && AnswerLegal(a, t, answer, req)
    requires NeedsGrowth(PoolOf(a, t)) && answer != NULL
    ensures answer > NULL
  {
    var e := EnterAbstract(a, t);
    assert Fresh(Block(answer, NextCount(PoolOf(a, t))), e.pools[e.ids[t]].blocks, ChunkSize(req));
  }

  // The first malloc of a thread for which the array has no room.
  lemma UnseatedMalloc(w: World, a: Abstract, t: Thread, place: int, answer: int, req: nat)
    requires WInv(w, a, req) && Ready(w) && ReadyAbstract(a) && !HasSlot(a, t)
    requires AnswerLegal(a, t, answer, req) && Placed(a.ids, t, place)
    ensures var (w', c) := MallocStep(w, t, place, answer, req);
            var (a', c') := MallocAbstract(a, t, answer, req);
            && t in w'.ids && c == c' && (c == NULL <==> Starved(PoolOf(a, t), answer))
            && (c == NULL ==> w'.mem == Store(w.mem, NULL + req, TAG_SIZE, w'.ids[t]))
  {
    hide WInv, Ready, AnswerLegal, Malloc, MallocView, NewPool, ChunkSize;
    MallocEntered(w, a, t, place, req);
    if answer != NULL {
      LegalAnswerAddress(a, t, answer, req);
    }
    NewPoolMalloc(w.mem, answer, req);
  }

  // The first malloc on a new pool.
  lemma NewPoolMalloc(m: Mem, answer: int, req: nat)
    ensures Malloc(m, NewPool(req), answer).2
         == MallocView(View([], {}, [], 64), ChunkSize(req), answer).1
         == if answer == NULL then NULL else answer + PTR_SIZE
    ensures NewPool(req).nextSize >= 2
    ensures answer == NULL ==> Malloc(m, NewPool(req), answer).0 == m
  {
    var v := View([], {}, [], 64);
    assert NextCount(v) == 64;
    assert AddBlock(v, answer, ChunkSize(req)).free[0] == ChunkAt(answer, ChunkSize(req), 0);
  }

  // The three ways in which a pool that was v becomes v' and hands out c.
  ghost predicate OwnMalloc(v: View, v': View, c: int, answer: int, req: nat)
  {
    var b := Block(answer, v.start * Pow2(|v.blocks|));
    && (|v.free| >= 2 ==> c == v.free[0] && v' == v.(free := v.free[1..], live := v.live + {c}))
    && (|v.free| < 2 && answer == NULL ==> c == NULL && v' == v)
    && (|v.free| < 2 && answer != NULL ==>
          && c == answer + PTR_SIZE && v'.blocks == [b] + v.blocks && v'.live == v.live + {c}
          && [c] + v'.free == Ascending(b, ChunkSize(req)) + v.free)
  }

  // What malloc means for the pools: the calling thread's own pool hands out its front, or
  // the first chunk of a new block when at most one chunk is free; no other pool changes.
  lemma MallocEffect(a: Abstract, t: Thread, answer: int, req: nat)
    requires ReadyAbstract(a) && Indexed(a)
    ensures var (a', c) := MallocAbstract(a, t, answer, req);
            t in a'.ids && a'.ids[t] in a'.pools
            && OwnMalloc(PoolOf(a, t), a'.pools[a'.ids[t]], c, answer, req)
            && forall j :: j in a.pools && j != a'.ids[t] ==> j in a'.pools && a'.pools[j] == a.pools[j]
  {
    var v := PoolOf(a, t);
    Pow2Positive(v);
    var b := Block(answer, NextCount(v));
    assert Ascending(b, ChunkSize(req))[0] == ChunkAt(answer, ChunkSize(req), 0);
  }

  // What free means for the pools: the chunk goes to its home pool, before the others if
  // that is the calling thread's own and behind them otherwise; no other pool changes.
  lemma FreeEffect(a: Abstract, t: Thread, c: int)
    requires ReadyAbstract(a) && Indexed(a) && Live(a, c)
    ensures var (i, a') := (Home(a, c), FreeAbstract(a, t, c));
            && i in a'.pools && a'.pools[i].live == a.pools[i].live - {c}
            && a'.pools[i].free == (if t in a.ids && a.ids[t] == i then [c] + a.pools[i].free
                                    else a.pools[i].free + [c])
            && a'.pools[i].blocks == a.pools[i].blocks && a'.pools[i].start == a.pools[i].start
            && forall j :: j in a.pools && j != i ==> j in a'.pools && a'.pools[j] == a.pools[j]
  {
  }

  // What entering means: an empty pool under the next id for a new thread, and nothing
  // for one that has its pool.
  lemma EnterEffect(a: Abstract, t: Thread)
    requires Indexed(a)
    ensures var a' := EnterAbstract(a, t);
            && t in a'.ids
            && (t in a.ids ==> a' == a)
            && (t !in a.ids ==>
                  a'.ids[t] == a.counter + 1 && a.counter + 1 !in a.pools
                  && a'.pools[a.counter + 1] == View([], {}, [], 64))
            && (forall u :: u in a.ids ==> u in a'.ids && a'.ids[u] == a.ids[u])
            && forall j :: j in a.pools ==> j in a'.pools && a'.pools[j] == a.pools[j]
  {
  }

  // The tag of a live chunk is the index of the pool that carved it.
  lemma TagIsHome(w: World, a: Abstract, c: int, req: nat)
    requires WInv(w, a, req) && Live(a, c)
    ensures Tag(w.mem, c, req) == Home(a, c)
  {
    var i := Home(a, c);
    assert PoolOk(w.mem, w.pools[i], a.pools[i], req, i);
  }

  // The chunk sets of different pools are disjoint, chunk by chunk and byte by byte.
  lemma PoolsDisjoint(w: World, a: Abstract, i: nat, j: nat, c: int, d: int, req: nat)
    requires WInv(w, a, req) && i in a.pools && j in a.pools && i != j
    requires c in Chunks(a.pools[i].blocks, ChunkSize(req))
    requires d in Chunks(a.pools[j].blocks, ChunkSize(req))
    ensures Apart(c, ChunkSize(req), d, ChunkSize(req))
  {
    var size := ChunkSize(req);
    assert PoolOk(w.mem, w.pools[i], a.pools[i], req, i);
    assert PoolOk(w.mem, w.pools[j], a.pools[j], req, j);
    var k := ChunkPlace(a.pools[i].blocks, size, c);
    var l := ChunkPlace(a.pools[j].blocks, size, d);
    assert PoolsApart(a.pools[i].blocks, a.pools[j].blocks, size);
    assert BlocksApart(a.pools[i].blocks[k], a.pools[j].blocks[l], size);
  }

  // No two chunks in users' hands share a byte.
  lemma LiveApart(w: World, a: Abstract, c: int, d: int, req: nat)
    requires WInv(w, a, req) && Live(a, c) && Live(a, d) && c != d
    ensures Apart(c, ChunkSize(req), d, ChunkSize(req))
  {
    var i, j := Home(a, c), Home(a, d);
    LiveChunk(w, a, i, c, req);
    LiveChunk(w, a, j, d, req);
    if i == j {
      assert PoolOk(w.mem, w.pools[i], a.pools[i], req, i);
      ChunksApart(a.pools[i].blocks, ChunkSize(req), c, d);
    } else {
      PoolsDisjoint(w, a, i, j, c, d, req);
    }
  }

  lemma LiveChunk(w: World, a: Abstract, i: nat, c: int, req: nat)
    requires WInv(w, a, req) && i in a.pools && c in a.pools[i].live
    ensures c in Chunks(a.pools[i].blocks, ChunkSize(req))
  {
    assert PoolOk(w.mem, w.pools[i], a.pools[i], req, i);
    FreeChunk(w.pools[i], a.pools[i], c);
  }

  // ObjectPool::free by any thread: the chunk goes back to the pool that carved it, at
  // the front when the thread owns that pool and at the back otherwise.
  lemma FreeRefinesWorld(w: World, a: Abstract, t: Thread, place: int, c: int, req: nat)
    requires WInv(w, a, req) && Live(a, c)
    requires Ready(w) && ReadyAbstract(a)
    ensures Tag(w.mem, c, req) in w.pools
    ensures w.pools[Tag(w.mem, c, req)].tail != NULL
    ensures HasSlot(a, t) && Placed(a.ids, t, place) ==>
              WInv(FreeStep(w, t, place, c, req), FreeAbstract(a, t, c), req)
    ensures !Placed(a.ids, t, place) ==> FreeStep(w, t, place, c, req) == w.(counter := w.counter + 1)
  {
    TagIsHome(w, a, c, req);
    var i := Home(a, c);
    assert PoolOk(w.mem, w.pools[i], a.pools[i], req, i);
    AppendOwn(w.mem, w.pools[i], a.pools[i], c, req, i);
    if HasSlot(a, t) && Placed(a.ids, t, place) {
      FreeKeeps(w, a, t, place, c, req);
    }
  }

  lemma FreeKeeps(w: World, a: Abstract, t: Thread, place: int, c: int, req: nat)
    requires WInv(w, a, req) && HasSlot(a, t) && Placed(a.ids, t, place) && Live(a, c)
    requires Ready(w) && ReadyAbstract(a)
    ensures Tag(w.mem, c, req) in w.pools
    ensures WInv(FreeStep(w, t, place, c, req), FreeAbstract(a, t, c), req)
  {
    hide Push, Append, PoolsApart, OnlyBlocks, PoolOk, Load;
    TagIsHome(w, a, c, req);
    EnterKeeps(w, a, t, place, req);
    var (w1, a1) := (Enter(w, t, place, req), EnterAbstract(a, t));
    var i := Home(a, c);
    var (r, v) := (w1.pools[i], a1.pools[i]);
    PushOwn(w1.mem, r, v, c, req, i);
    AppendOwn(w1.mem, r, v, c, req, i);
    var (m', r') := if i == w1.ids[t] then Push(w1.mem, r, c) else Append(w1.mem, r, c);
    var v' := if i == a1.ids[t] then PushFront(v, c) else PushBack(v, c);
    ReplacePool(w1, a1, req, i, m', r', v');
  }
}
