// Where runs of the per-thread pools end, and how much they carve: both failures of the
// code can be reached, and every thread's pool stays within a bound of its own peak.
module PoolLimits {
  import opened Memory
  import opened Layout
  import opened FreeList
  import opened ObjectPool
  import opened PoolRuns
  import PoolBounds

  // The very first malloc meets an exhausted system.
  lemma FirstMallocMayFail(m: Mem, t: Thread, place: int, req: nat)
    requires req + TAG_SIZE < 0x1_0000_0000
    ensures var ops := [MallocOp(t, place, NULL)];
            LegalRun(StartAbstract(), ops, req) && !DefinedRun(Start(m), ops, req)
  {
    StartOk(m, req);
    StarvedWritesNull(Start(m), StartAbstract(), t, place, req);
  }

  // ---------- sixty-five threads ----------

  const SPACING := 0x80_0000_0000

  function BlockOf(i: nat): int
  {
    i * SPACING
  }

  // Where the system puts the pool object of the i-th thread.
  function PlaceOf(i: nat): int
  {
    BlockOf(i) - 0x1000
  }

  // The i-th thread's first malloc.
  function Arrive(i: nat): Op
  {
    MallocOp(i, PlaceOf(i + 1), BlockOf(i + 1))
  }

  function IdOf(t: Thread): nat
  {
    t + 1
  }

  ghost function Arrived(i: nat, req: nat): View
  {
    MallocView(View([], {}, [], 64), ChunkSize(req), BlockOf(i)).0
  }

  // The threads 0..k-1 have each allocated one chunk.
  ghost function Crowd(k: nat, req: nat): Abstract
  {
    Abstract(map i: nat | 1 <= i <= k :: Arrived(i, req), map t: nat | t < k :: IdOf(t), k)
  }

  lemma ArrivedBlocks(i: nat, req: nat)
    requires i >= 1
    ensures Arrived(i, req).blocks == [Block(BlockOf(i), 64)] && Arrived(i, req).start == 64
  {
    assert NextCount(View([], {}, [], 64)) == 64;
  }

  lemma SpacedApart(i: nat, j: nat, req: nat)
    requires 1 <= i < j <= 65 && req + TAG_SIZE < 0x1_0000_0000
    ensures Fresh(Block(BlockOf(j), 64), [Block(BlockOf(i), 64)], ChunkSize(req))
  {
    assert BlockBytes(Block(BlockOf(i), 64), ChunkSize(req)) < SPACING;
  }

  lemma CrowdReady(k: nat, req: nat)
    ensures ReadyAbstract(Crowd(k, req))
    ensures PoolOf(Crowd(k, req), k) == View([], {}, [], 64)
  {
    forall j: nat | 1 <= j <= k
      ensures Arrived(j, req).start == 64
    {
      ArrivedBlocks(j, req);
    }
  }

  lemma ArrivalLegal(k: nat, req: nat)
    requires k <= MAX_THREAD_NUM && req + TAG_SIZE < 0x1_0000_0000
    ensures Legal(Crowd(k, req), Arrive(k), req)
  {
    var (b, e) := (Block(BlockOf(k + 1), 64), EnterAbstract(Crowd(k, req), k));
    CrowdReady(k, req);
    assert NextCount(View([], {}, [], 64)) == 64;
    forall j | j in e.pools
      ensures Fresh(b, e.pools[j].blocks, ChunkSize(req))
    {
      hide Fresh;
      if j <= k {
        ArrivedBlocks(j, req);
        SpacedApart(j, k + 1, req);
      } else {
        NewIsFresh(k + 1, req);
      }
    }
  }

  lemma NewIsFresh(j: nat, req: nat)
    requires 1 <= j <= 65 && req + TAG_SIZE < 0x1_0000_0000
    ensures Fresh(Block(BlockOf(j), 64), [], ChunkSize(req))
  {
  }

  // One more thread arrives and allocates.
  lemma Arrival(k: nat, req: nat)
    requires k <= MAX_THREAD_NUM && req + TAG_SIZE < 0x1_0000_0000
    ensures var op := Arrive(k);
            && Legal(Crowd(k, req), op, req)
            && (Safe(Crowd(k, req), op) <==> k < MAX_THREAD_NUM)
            && StepAbstract(Crowd(k, req), op, req).0 == Crowd(k + 1, req)
  {
    hide Legal, MallocView, AnswerLegal;
    var a := Crowd(k, req);
    ArrivalLegal(k, req);
    CrowdReady(k, req);
    var a' := MallocAbstract(a, k, BlockOf(k + 1), req).0;
    assert a'.pools == Crowd(k + 1, req).pools;
    assert a'.ids == Crowd(k + 1, req).ids;
  }

  function Arrivals(k: nat): (ops: seq<Op>)
    requires k <= MAX_THREAD_NUM
    ensures |ops| == MAX_THREAD_NUM + 1 - k
    decreases MAX_THREAD_NUM - k
  {
    var op := Arrive(k);
    if k == MAX_THREAD_NUM then [op] else [op] + Arrivals(k + 1)
  }

  lemma {:induction false} ArrivalsFail(k: nat, req: nat)
    requires k <= MAX_THREAD_NUM && req + TAG_SIZE < 0x1_0000_0000
    ensures LegalRun(Crowd(k, req), Arrivals(k), req) && !SafeRun(Crowd(k, req), Arrivals(k), req)
    ensures var ops := Arrivals(k)[..MAX_THREAD_NUM - k];
            LegalRun(Crowd(k, req), ops, req) && SafeRun(Crowd(k, req), ops, req)
    decreases MAX_THREAD_NUM - k
  {
    hide Crowd, Legal, Safe, StepAbstract;
    Arrival(k, req);
    if k < MAX_THREAD_NUM {
      ArrivalsFail(k + 1, req);
      var ops := Arrivals(k)[..MAX_THREAD_NUM - k];
      assert ops[1..] == Arrivals(k + 1)[..MAX_THREAD_NUM - (k + 1)];
      assert Arrivals(k)[1..] == Arrivals(k + 1);
    }
  }

  // Sixty-four threads can come and allocate; the sixty-fifth breaks the run.
  lemma SixtyFifthThreadFails(m: Mem, req: nat)
    requires req + TAG_SIZE < 0x1_0000_0000
    ensures var ops := Arrivals(0);
            && LegalRun(StartAbstract(), ops, req) && !DefinedRun(Start(m), ops, req)
            && DefinedRun(Start(m), ops[..MAX_THREAD_NUM], req)
  {
    StartOk(m, req);
    ArrivalsFail(0, req);
    EmptyCrowd(req);
    RunRefines(Start(m), StartAbstract(), Arrivals(0), req);
    RunRefines(Start(m), StartAbstract(), Arrivals(0)[..MAX_THREAD_NUM], req);
  }

  // Another failing run: a thread whose first call is a free finds the system exhausted.
  lemma FirstFreeMayFail(m: Mem, req: nat)
    requires req + TAG_SIZE < 0x1_0000_0000
    ensures var ops := [Arrive(0), FreeOp(1, NULL, BlockOf(1) + PTR_SIZE)];
            && LegalRun(StartAbstract(), ops, req) && !DefinedRun(Start(m), ops, req)
            && DefinedRun(Start(m), [Arrive(0)], req)
  {
    hide Crowd, Legal, Safe, StepAbstract, Start, StartAbstract, WInv, DefinedRun, Run;
    var (first, second) := (Arrive(0), FreeOp(1, NULL, BlockOf(1) + PTR_SIZE));
    StartOk(m, req);
    EmptyCrowd(req);
    Arrival(0, req);
    FreeRefused(req);
    assert [first, second][1..] == [second] && [first][1..] == [];
    RunRefines(Start(m), StartAbstract(), [first, second], req);
    RunRefines(Start(m), StartAbstract(), [first], req);
  }

  lemma EmptyCrowd(req: nat)
    ensures Crowd(0, req) == StartAbstract()
  {
    assert Crowd(0, req).pools == map[] && Crowd(0, req).ids == map[];
  }

  lemma FreeRefused(req: nat)
    ensures var op := FreeOp(1, NULL, BlockOf(1) + PTR_SIZE);
            Legal(Crowd(1, req), op, req) && !Safe(Crowd(1, req), op)
  {
    FirstChunkLive(req);
    CrowdReady(1, req);
  }

  lemma FirstChunkLive(req: nat)
    ensures Live(Crowd(1, req), BlockOf(1) + PTR_SIZE)
    ensures 1 !in Crowd(1, req).ids
  {
    var v := View([], {}, [], 64);
    assert NextCount(v) == 64;
    var v1 := AddBlock(v, BlockOf(1), ChunkSize(req));
    assert v1.free[0] == ChunkAt(BlockOf(1), ChunkSize(req), 0);
    assert BlockOf(1) + PTR_SIZE in Crowd(1, req).pools[1].live;
  }

  // ---------- how many threads a run can have ----------

  // The threads that allocate or free in a run.
  function Users(ops: seq<Op>): set<Thread>
  {
    if ops == [] then {}
    else (if ops[0].WriteOp? then {} else {ops[0].t}) + Users(ops[1..])
  }

  // No request of the run meets an exhausted system.
  ghost predicate ServedRun(a: Abstract, ops: seq<Op>, req: nat)
    requires LegalRun(a, ops, req)
    decreases |ops|
  {
    ops == [] ||
    (Served(a, ops[0])
     && (Safe(a, ops[0]) ==> ServedRun(StepAbstract(a, ops[0], req).0, ops[1..], req)))
  }

  // Every id given out belongs to a thread.
  ghost predicate AllUsed(a: Abstract)
  {
    |a.ids| == a.counter
  }

  lemma StepUsers(a: Abstract, op: Op, req: nat)
    requires Legal(a, op, req) && Safe(a, op) && AllUsed(a)
    ensures var a' := StepAbstract(a, op, req).0;
            && AllUsed(a')
            && a'.ids.Keys == a.ids.Keys + (if op.WriteOp? then {} else {op.t})
  {
    if !op.WriteOp? && op.t !in a.ids {
      var ids := a.ids[op.t := a.counter + 1];
      assert ids.Keys == a.ids.Keys + {op.t};
      assert |ids| == |ids.Keys| && |a.ids| == |a.ids.Keys|;
    }
  }

  lemma UsersKept(a: Abstract, ops: seq<Op>, req: nat)
    requires ops != [] && Legal(a, ops[0], req) && Safe(a, ops[0]) && AllUsed(a)
    ensures var a' := StepAbstract(a, ops[0], req).0;
            AllUsed(a') && a.ids.Keys + Users(ops) == a'.ids.Keys + Users(ops[1..])
  {
    hide StepAbstract, Legal, Safe, AllUsed;
    StepUsers(a, ops[0], req);
  }

  lemma NoMoreUsers(a: Abstract)
    requires AllUsed(a)
    ensures |a.ids.Keys + Users([])| == a.counter
  {
    assert a.ids.Keys + Users([]) == a.ids.Keys && |a.ids| == |a.ids.Keys|;
  }

  lemma CrowdedOut(a: Abstract, op: Op, ops: seq<Op>)
    requires AllUsed(a) && a.counter <= MAX_THREAD_NUM && !op.WriteOp? && !HasSlot(a, op.t)
    requires ops != [] && ops[0] == op
    ensures |a.ids.Keys + Users(ops)| > MAX_THREAD_NUM
  {
    var more := a.ids.Keys + {op.t};
    assert |more| == |a.ids.Keys| + 1 && |a.ids| == |a.ids.Keys|;
    FewerInSubset(more, a.ids.Keys + Users(ops));
  }

  lemma {:induction false} FewerInSubset(s: set<Thread>, t: set<Thread>)
    requires s <= t
    ensures |s| <= |t|
  {
    if s != {} {
      var x :| x in s;
      FewerInSubset(s - {x}, t - {x});
    }
  }

  // A run is well defined exactly if no request meets an exhausted system and no more
  // than 64 threads take part in it.
  lemma {:induction false} SafeRunIff(w: World, a: Abstract, ops: seq<Op>, req: nat)
    requires WInv(w, a, req) && AllUsed(a) && LegalRun(a, ops, req)
    ensures SafeRun(a, ops, req)
       <==> ServedRun(a, ops, req) && |a.ids.Keys + Users(ops)| <= MAX_THREAD_NUM
    decreases |ops|
  {
    hide Step, StepAbstract, Legal, Defined, Served, HasSlot, WInv, AllUsed, Users;
    CounterBound(w, a, req);
    if ops == [] {
      NoMoreUsers(a);
    } else if Safe(a, ops[0]) {
      StepRefines(w, a, ops[0], req);
      UsersKept(a, ops, req);
      var a' := StepAbstract(a, ops[0], req).0;
      SafeRunIff(Step(w, ops[0], req).0, a', ops[1..], req);
    } else if Served(a, ops[0]) {
      CrowdedOut(a, ops[0], ops);
    }
  }

  lemma CounterBound(w: World, a: Abstract, req: nat)
    requires WInv(w, a, req)
    ensures a.counter <= MAX_THREAD_NUM && ReadyAbstract(a)
  {
    InvReady(w, a, req);
  }

  // From the first use on: the number of threads decides, whatever the order.
  lemma DefinedRunIff(m: Mem, ops: seq<Op>, req: nat)
    requires req + TAG_SIZE < 0x1_0000_0000 && LegalRun(StartAbstract(), ops, req)
    ensures DefinedRun(Start(m), ops, req)
       <==> ServedRun(StartAbstract(), ops, req) && |Users(ops)| <= MAX_THREAD_NUM
  {
    StartOk(m, req);
    RunRefines(Start(m), StartAbstract(), ops, req);
    SafeRunIff(Start(m), StartAbstract(), ops, req);
    assert StartAbstract().ids.Keys + Users(ops) == Users(ops);
  }

  // ---------- how much a run carves ----------

  ghost function Carved(a: Abstract, i: nat, req: nat): nat
  {
    if i in a.pools then |Chunks(a.pools[i].blocks, ChunkSize(req))| else 0
  }

  ghost function InUse(a: Abstract, i: nat): nat
  {
    if i in a.pools then |a.pools[i].live| else 0
  }

  // The largest number of pool i's chunks in use at any moment of the run.
  ghost function PeakOf(a: Abstract, ops: seq<Op>, i: nat, req: nat): nat
    requires LegalRun(a, ops, req) && SafeRun(a, ops, req)
    decreases |ops|
  {
    var here := InUse(a, i);
    if ops == [] then here
    else
      var later := PeakOf(StepAbstract(a, ops[0], req).0, ops[1..], i, req);
      if here > later then here else later
  }

  // Whatever is done by whichever thread is, for pool i, one operation of that pool or
  // none at all.
  lemma StepOfPool(a: Abstract, op: Op, i: nat, req: nat) returns (mine: bool, pop: PoolBounds.PoolOp)
    requires Indexed(a) && Legal(a, op, req) && Safe(a, op) && i in a.pools
    ensures var a' := StepAbstract(a, op, req).0;
            && i in a'.pools
            && (mine ==> PoolBounds.Allowed(a.pools[i], pop, ChunkSize(req))
                         && a'.pools[i] == PoolBounds.StepView(a.pools[i], pop, ChunkSize(req)))
            && (!mine ==> a'.pools[i] == a.pools[i])
  {
    mine, pop := false, PoolBounds.MallocOp(NULL);
    match op
    case MallocOp(t, _, answer) =>
      mine, pop := EnterAbstract(a, t).ids[t] == i, PoolBounds.MallocOp(answer);
    case FreeOp(t, _, c) =>
      mine := Home(a, c) == i;
      pop := if EnterAbstract(a, t).ids[t] == i then PoolBounds.FreeOp(c) else PoolBounds.AppendOp(c);
    case WriteOp(_, _) =>
  }

  // A pool that a step creates is empty or has just grown for the first time.
  lemma NewPoolStep(a: Abstract, op: Op, i: nat, req: nat) returns (answer: int)
    requires Indexed(a) && Legal(a, op, req) && Safe(a, op)
    requires i !in a.pools && i in StepAbstract(a, op, req).0.pools
    ensures var v' := StepAbstract(a, op, req).0.pools[i];
            var v := View([], {}, [], 64);
            || v' == v
            || (v' == MallocView(v, ChunkSize(req), answer).0 && SystemAnswer(answer, v, ChunkSize(req)))
  {
    answer := if op.MallocOp? then op.answer else NULL;
  }

  lemma StepCarves(w: World, a: Abstract, op: Op, i: nat, req: nat, bound: nat)
    requires WInv(w, a, req) && Legal(a, op, req) && Safe(a, op)
    requires Carved(a, i, req) <= 2 * bound + 64
    requires InUse(StepAbstract(a, op, req).0, i) <= bound
    ensures Carved(StepAbstract(a, op, req).0, i, req) <= 2 * bound + 64
  {
    if i in a.pools {
      var mine, pop := StepOfPool(a, op, i, req);
      ViewOfPool(w, a, i, req);
      hide WInv, Legal, Safe, StepAbstract, Chunks, ViewOk;
      if mine {
        PoolBounds.StepBound(a.pools[i], pop, ChunkSize(req), bound);
      }
    } else if i in StepAbstract(a, op, req).0.pools {
      var answer := NewPoolStep(a, op, i, req);
      hide WInv, Legal, Safe, StepAbstract, ViewOk, MallocView, SystemAnswer;
      NewPoolCarves(answer, ChunkSize(req), bound);
    }
  }

  lemma NewPoolCarves(answer: int, size: int, bound: nat)
    requires PTR_SIZE <= size
    ensures var v := View([], {}, [], 64);
            && |Chunks(v.blocks, size)| == 0
            && (SystemAnswer(answer, v, size) && |MallocView(v, size, answer).0.live| <= bound ==>
                  |Chunks(MallocView(v, size, answer).0.blocks, size)| <= 2 * bound + 64)
  {
    var v := View([], {}, [], 64);
    assert ViewOk(v, size) && |Chunks(v.blocks, size)| == 0;
    if SystemAnswer(answer, v, size) && |MallocView(v, size, answer).0.live| <= bound {
      PoolBounds.StepBound(v, PoolBounds.MallocOp(answer), size, bound);
    }
  }

  // In every run of all threads, each pool carves at most twice its own peak plus 64.
  lemma {:induction false} RunCarves(w: World, a: Abstract, ops: seq<Op>, i: nat, req: nat, bound: nat)
    requires WInv(w, a, req) && LegalRun(a, ops, req) && SafeRun(a, ops, req)
    requires Carved(a, i, req) <= 2 * bound + 64 && PeakOf(a, ops, i, req) <= bound
    ensures Carved(RunAbstract(a, ops, req).0, i, req) <= 2 * bound + 64
    decreases |ops|
  {
    if ops != [] {
      hide WInv, Legal, Safe, Step, StepAbstract, Carved, InUse;
      StepRefines(w, a, ops[0], req);
      var a' := StepAbstract(a, ops[0], req).0;
      assert InUse(a', i) <= PeakOf(a', ops[1..], i, req);
      StepCarves(w, a, ops[0], i, req, bound);
      RunCarves(Step(w, ops[0], req).0, a', ops[1..], i, req, bound);
    }
  }

  // The bound from the first use on, for the pool of every thread.
  lemma EveryPoolBounded(m: Mem, ops: seq<Op>, i: nat, req: nat)
    requires req + TAG_SIZE < 0x1_0000_0000
    requires LegalRun(StartAbstract(), ops, req) && SafeRun(StartAbstract(), ops, req)
    ensures Carved(RunAbstract(StartAbstract(), ops, req).0, i, req)
         <= 2 * PeakOf(StartAbstract(), ops, i, req) + 64
  {
    StartOk(m, req);
    RunCarves(Start(m), StartAbstract(), ops, i, req, PeakOf(StartAbstract(), ops, i, req));
  }
}
