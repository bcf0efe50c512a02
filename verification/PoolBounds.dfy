// How many chunks a pool carves: exact counts, a bound by the peak number in use, and
// what Preallocate guarantees.
module PoolBounds {
  import opened Memory
  import opened Layout
  import opened Sequences
  import opened FreeList
  import opened Carving

  // ---------- counting ----------

  lemma HeadIsFresh(blocks: seq<Block>, size: int)
    requires Sane(blocks, size) && blocks != []
    ensures Fresh(blocks[0], blocks[1..], size) && Sane(blocks[1..], size)
  {
    forall k | 0 <= k < |blocks[1..]|
      ensures BlocksApart(blocks[0], blocks[1..][k], size)
    {
      assert blocks[1..][k] == blocks[k + 1];
    }
  }

  lemma HeadAddsCount(b: Block, rest: seq<Block>, size: int)
    requires Sane(rest, size) && Fresh(b, rest, size)
    ensures |Chunks([b] + rest, size)| == b.count + |Chunks(rest, size)|
  {
    var s := Ascending(b, size);
    AscendingDistinct(b, size);
    DistinctCount(s);
    forall c | c in s
      ensures c !in Chunks(rest, size)
    {
      FreshChunk(b, rest, size, c);
    }
    assert Elems(s) !! Chunks(rest, size);
    assert ([b] + rest)[1..] == rest;
  }

  // The chunks of k growths, summed growth by growth.
  function CarvedAfter(start: nat, k: nat): nat
  {
    if k == 0 then 0 else start * Pow2(k - 1) + CarvedAfter(start, k - 1)
  }

  lemma {:induction false} GeometricSum(start: nat, k: nat)
    ensures CarvedAfter(start, k) == start * (Pow2(k) - 1)
  {
    if k > 0 {
      GeometricSum(start, k - 1);
      var p := Pow2(k - 1);
      assert start * (2 * p - 1) == start * p + start * (p - 1);
    }
  }

  lemma {:induction false} ChunkCount(blocks: seq<Block>, size: int, start: nat)
    requires Sane(blocks, size) && Doubling(blocks, start)
    ensures |Chunks(blocks, size)| == CarvedAfter(start, |blocks|)
    decreases |blocks|
  {
    if blocks != [] {
      var (b, rest) := (blocks[0], blocks[1..]);
      HeadIsFresh(blocks, size);
      HeadAddsCount(b, rest, size);
      ChunkCount(rest, size, start);
      assert blocks == [b] + rest;
    }
  }

  // After k growths exactly start * (2^k - 1) chunks exist, and each is free or live.
  lemma CarvedExactly(v: View, size: int)
    requires ViewOk(v, size)
    ensures |v.free| + |v.live| == |Chunks(v.blocks, size)|
    ensures |Chunks(v.blocks, size)| == v.start * (Pow2(|v.blocks|) - 1)
    ensures |Chunks(v.blocks, size)| + v.start == NextCount(v)
  {
    ChunkCount(v.blocks, size, v.start);
    GeometricSum(v.start, |v.blocks|);
    DistinctCount(v.free);
    assert |Elems(v.free) + v.live| == |Elems(v.free)| + |v.live|;
    var p := Pow2(|v.blocks|);
    assert v.start * (p - 1) == v.start * p - v.start;
  }

  // A pool grows only when all but at most one of its chunks are in use.
  lemma GrowthIsNeeded(v: View, size: int)
    requires ViewOk(v, size)
    ensures NeedsGrowth(v) <==> |Chunks(v.blocks, size)| <= |v.live| + 1
  {
    CarvedExactly(v, size);
  }

  // ---------- runs of one pool ----------

  datatype PoolOp = MallocOp(answer: int) | FreeOp(c: int) | AppendOp(c: int)

  ghost predicate Allowed(v: View, op: PoolOp, size: int)
  {
    match op
    case MallocOp(answer) => v.start >= 2 && (NeedsGrowth(v) ==> SystemAnswer(answer, v, size))
    case FreeOp(c) => c in v.live
    case AppendOp(c) => c in v.live
  }

  function StepView(v: View, op: PoolOp, size: int): View
    requires op.MallocOp? ==> v.start >= 2
  {
    match op
    case MallocOp(answer) => MallocView(v, size, answer).0
    case FreeOp(c) => PushFront(v, c)
    case AppendOp(c) => PushBack(v, c)
  }

  ghost predicate AllowedRun(v: View, ops: seq<PoolOp>, size: int)
    decreases |ops|
  {
    ops == [] || (Allowed(v, ops[0], size) && AllowedRun(StepView(v, ops[0], size), ops[1..], size))
  }

  ghost function RunView(v: View, ops: seq<PoolOp>, size: int): View
    requires AllowedRun(v, ops, size)
    decreases |ops|
  {
    if ops == [] then v else RunView(StepView(v, ops[0], size), ops[1..], size)
  }

  // The largest number of chunks in use at any moment of the run.
  ghost function Peak(v: View, ops: seq<PoolOp>, size: int): nat
    requires AllowedRun(v, ops, size)
    decreases |ops|
  {
    var here := |v.live|;
    if ops == [] then here
    else
      var later := Peak(StepView(v, ops[0], size), ops[1..], size);
      if here > later then here else later
  }

  lemma StepViewOk(v: View, op: PoolOp, size: int)
    requires ViewOk(v, size) && Allowed(v, op, size)
    ensures ViewOk(StepView(v, op, size), size)
  {
    match op
    case MallocOp(answer) =>
      if !NeedsGrowth(v) {
        TakeFrontConserved(v, size);
      } else if answer != NULL {
        Pow2Positive(v);
        AddBlockOk(v, answer, size);
        TakeFrontConserved(AddBlock(v, answer, size), size);
      }
    case FreeOp(c) =>
      PushFrontConserved(v, size, c);
      LiveMeansCarved(v, size, c);
    case AppendOp(c) =>
      PushBackConserved(v, size, c);
      LiveMeansCarved(v, size, c);
  }

  lemma LiveMeansCarved(v: View, size: int, c: int)
    requires ViewOk(v, size) && c in v.live
    ensures v.blocks != []
  {
    assert c in Chunks(v.blocks, size);
  }

  // One step: if the pool grew, the new total is within twice the chunks now in use.
  lemma StepBound(v: View, op: PoolOp, size: int, bound: nat)
    requires ViewOk(v, size) && Allowed(v, op, size)
    requires |Chunks(v.blocks, size)| <= 2 * bound + 64
    requires |StepView(v, op, size).live| <= bound
    ensures |Chunks(StepView(v, op, size).blocks, size)| <= 2 * bound + 64
  {
    var w := StepView(v, op, size);
    StepViewOk(v, op, size);
    CarvedExactly(v, size);
    CarvedExactly(w, size);
    if w.blocks != v.blocks {
      GrowthIsNeeded(v, size);
      MallocAddsOne(v, op.answer, size);
      NextCountDoubles(v, w);
    }
  }

  lemma MallocAddsOne(v: View, answer: int, size: int)
    requires ViewOk(v, size) && v.start >= 2
    requires NeedsGrowth(v) ==> SystemAnswer(answer, v, size) && answer != NULL
    ensures |MallocView(v, size, answer).0.live| == |v.live| + 1
  {
    var u := if NeedsGrowth(v) then AddBlock(v, answer, size) else v;
    if NeedsGrowth(v) {
      Pow2Positive(v);
      AddBlockOk(v, answer, size);
    }
    assert u.free[0] in Elems(u.free);
  }

  // A purge-free run never carves more than twice the peak in use plus 64 chunks.
  lemma {:induction false} PeakBound(v: View, ops: seq<PoolOp>, size: int, bound: nat)
    requires ViewOk(v, size) && AllowedRun(v, ops, size) && Peak(v, ops, size) <= bound
    requires |Chunks(v.blocks, size)| <= 2 * bound + 64
    ensures ViewOk(RunView(v, ops, size), size)
    ensures |Chunks(RunView(v, ops, size).blocks, size)| <= 2 * bound + 64
    decreases |ops|
  {
    if ops != [] {
      var w := StepView(v, ops[0], size);
      StepViewOk(v, ops[0], size);
      assert |w.live| <= Peak(w, ops[1..], size);
      StepBound(v, ops[0], size, bound);
      PeakBound(w, ops[1..], size, bound);
    }
  }

  // The bound for a pool from its construction on.
  lemma CarvedBound(ops: seq<PoolOp>, size: int)
    requires PTR_SIZE <= size && AllowedRun(View([], {}, [], 64), ops, size)
    ensures var v := View([], {}, [], 64);
            |Chunks(RunView(v, ops, size).blocks, size)| <= 2 * Peak(v, ops, size) + 64
  {
    var v := View([], {}, [], 64);
    assert ViewOk(v, size);
    PeakBound(v, ops, size, Peak(v, ops, size));
  }

  // ---------- Preallocate ----------

  // Malloc |answers| times; the second part lists the chunks, null where malloc failed.
  function MallocMany(v: View, answers: seq<int>, size: int): (View, seq<int>)
    requires v.start >= 2
    decreases |answers|
  {
    if answers == [] then (v, [])
    else
      var (v1, c) := MallocView(v, size, answers[0]);
      var (v2, cs) := MallocMany(v1, answers[1..], size);
      (v2, [c] + cs)
  }

  function FreeMany(v: View, cs: seq<int>): View
    decreases |cs|
  {
    if cs == [] then v else FreeMany(PushFront(v, cs[0]), cs[1..])
  }

  // Every growth on the way is answered with a block.
  ghost predicate Answered(v: View, answers: seq<int>, size: int)
    requires v.start >= 2
    decreases |answers|
  {
    answers == [] ||
    ((NeedsGrowth(v) ==> answers[0] != NULL && SystemAnswer(answers[0], v, size))
     && Answered(MallocView(v, size, answers[0]).0, answers[1..], size))
  }

  lemma {:induction false} MallocManySpec(v: View, answers: seq<int>, size: int)
    requires ViewOk(v, size) && v.start >= 2 && Answered(v, answers, size)
    ensures var (w, cs) := MallocMany(v, answers, size);
            && ViewOk(w, size) && w.start == v.start
            && |cs| == |answers| && Distinct(cs) && Elems(cs) !! v.live
            && w.live == v.live + Elems(cs)
            && (answers != [] ==> |w.free| >= 1)
    decreases |answers|
  {
    hide ViewOk, MallocView, SystemAnswer, NeedsGrowth;
    if answers != [] {
      var op := MallocOp(answers[0]);
      StepViewOk(v, op, size);
      var (v1, c) := MallocView(v, size, answers[0]);
      MallocTakes(v, size, answers[0]);
      MallocManySpec(v1, answers[1..], size);
      var (w, cs) := MallocMany(v1, answers[1..], size);
      assert forall x :: x in cs ==> x in Elems(cs);
      DistinctJoin([c], cs);
      assert Elems([c] + cs) == {c} + Elems(cs);
    }
  }

  lemma MallocTakes(v: View, size: int, answer: int)
    requires ViewOk(v, size) && v.start >= 2
    requires NeedsGrowth(v) ==> answer != NULL && SystemAnswer(answer, v, size)
    ensures var (w, c) := MallocView(v, size, answer);
            w.live == v.live + {c} && c !in v.live && |w.free| >= 1 && w.start == v.start
  {
    var u := if NeedsGrowth(v) then AddBlock(v, answer, size) else v;
    if NeedsGrowth(v) {
      Pow2Positive(v);
      AddBlockOk(v, answer, size);
    }
    assert u.free[0] in Elems(u.free);
  }

  lemma {:induction false} FreeManySpec(v: View, cs: seq<int>, size: int)
    requires ViewOk(v, size) && Distinct(cs) && Elems(cs) <= v.live
    ensures var w := FreeMany(v, cs);
            && ViewOk(w, size) && w.live == v.live - Elems(cs) && |w.free| == |v.free| + |cs|
            && w.blocks == v.blocks && w.start == v.start
    decreases |cs|
  {
    if cs != [] {
      var (c, rest) := (cs[0], cs[1..]);
      assert cs == [c] + rest;
      assert c in Elems(cs);
      StepViewOk(v, FreeOp(c), size);
      assert Elems(cs) == {c} + Elems(rest);
      assert c !in Elems(rest);
      FreeManySpec(PushFront(v, c), rest, size);
    }
  }

  // With n+1 chunks free the next n mallocs do not grow the pool, whatever the system
  // would answer.
  lemma {:induction false} NoGrowth(v: View, answers: seq<int>, size: int)
    requires v.start >= 2 && |v.free| > |answers|
    ensures MallocMany(v, answers, size).0.blocks == v.blocks
    ensures |MallocMany(v, answers, size).1| == |answers|
    ensures NULL !in v.free ==> NULL !in MallocMany(v, answers, size).1
    decreases |answers|
  {
    if answers != [] {
      var (v1, c) := MallocView(v, size, answers[0]);
      assert v.free == [v.free[0]] + v1.free;
      NoGrowth(v1, answers[1..], size);
    }
  }

  // Preallocate(n): nothing changes hands, and the next n mallocs need no new block.
  lemma PreallocateSpec(v: View, answers: seq<int>, later: seq<int>, size: int)
    requires ViewOk(v, size) && v.start >= 2 && Answered(v, answers, size)
    requires |later| == |answers|
    ensures var (u, cs) := MallocMany(v, answers, size);
            var w := FreeMany(u, cs);
            && w.live == v.live && ViewOk(w, size) && w.start == v.start
            && MallocMany(w, later, size).0.blocks == w.blocks
  {
    MallocManySpec(v, answers, size);
    var (u, cs) := MallocMany(v, answers, size);
    FreeManySpec(u, cs, size);
    if answers != [] {
      NoGrowth(FreeMany(u, cs), later, size);
    }
  }
}
