// The imperative form of ObjectPool: the static array of per-thread pools, the ids the
// threads hold, and the tag written behind the user's bytes. The array entries are
// register records; what Pool's methods do to them is what module Pool proves.
module ObjectPools {
  import opened Memory
  import opened Sequences
  import opened FreeList
  import opened ObjectPool
  import opened PoolBounds
  import PoolRuns

  // Everything but thread t's own pool.
  ghost function Rest(a: Abstract, t: Thread): Abstract
  {
    var e := EnterAbstract(a, t);
    e.(pools := e.pools - {e.ids[t]})
  }

  lemma MallocOnOwnPool(a: Abstract, t: Thread, answer: int, req: nat)
    requires ReadyAbstract(a) && ReadyAbstract(MallocAbstract(a, t, answer, req).0)
    ensures var (a', c) := MallocAbstract(a, t, answer, req);
            && (PoolOf(a', t), c) == MallocView(PoolOf(a, t), ChunkSize(req), answer)
            && Rest(a', t) == Rest(a, t)
  {
    var e := EnterAbstract(a, t);
    var a' := MallocAbstract(a, t, answer, req).0;
    assert EnterAbstract(a', t) == a';
    assert a'.pools - {e.ids[t]} == e.pools - {e.ids[t]};
  }

  lemma HomeOf(w: World, a: Abstract, i: nat, c: int, req: nat)
    requires WInv(w, a, req) && i in a.pools && c in a.pools[i].live
    ensures Live(a, c) && Home(a, c) == i
  {
    PoolRuns.TagOfLive(w, a, i, c, req);
    TagIsHome(w, a, c, req);
  }

  lemma FreeAtHome(a: Abstract, t: Thread, c: int)
    requires ReadyAbstract(a) && t in a.ids && Live(a, c) && Home(a, c) == a.ids[t]
    ensures var a' := FreeAbstract(a, t, c);
            && ReadyAbstract(a') && t in a'.ids && Rest(a', t) == Rest(a, t)
            && PoolOf(a', t) == PushFront(PoolOf(a, t), c)
  {
    var a' := FreeAbstract(a, t, c);
    assert a'.pools - {a.ids[t]} == a.pools - {a.ids[t]};
  }

  // A chunk of the own pool goes to the front of the own pool.
  lemma FreeOnOwnPool(w: World, a: Abstract, t: Thread, c: int, req: nat)
    requires WInv(w, a, req) && ReadyAbstract(a) && t in a.ids && c in PoolOf(a, t).live
    ensures Live(a, c)
    ensures var a' := FreeAbstract(a, t, c);
            && ReadyAbstract(a') && t in a'.ids && Rest(a', t) == Rest(a, t)
            && PoolOf(a', t) == PushFront(PoolOf(a, t), c)
  {
    HomeOf(w, a, a.ids[t], c, req);
    FreeAtHome(a, t, c);
  }

  ghost predicate Good(w: World, a: Abstract, req: nat)
  {
    WInv(w, a, req) && Ready(w) && ReadyAbstract(a)
  }

  lemma GoodReady(w: World, a: Abstract, req: nat)
    requires Good(w, a, req)
    ensures Ready(w) && ReadyAbstract(a)
  {
  }

  lemma EnterGood(w: World, a: Abstract, t: Thread, place: int, req: nat)
    requires Good(w, a, req)
    ensures w.ids == a.ids && (HasSlot(a, t) ==> HasSlot(EnterAbstract(a, t), t))
    ensures var w' := Enter(w, t, place, req);
            && (Good(w', EnterAbstract(a, t), req) <==> HasSlot(a, t) && Placed(a.ids, t, place))
            && Ready(w') && (t in w'.ids <==> Placed(a.ids, t, place))
            && (t in w'.ids ==> w'.ids[t] in w'.pools && (w'.ids[t] <= MAX_THREAD_NUM <==> HasSlot(a, t)))
  {
    hide WInv;
    PoolRuns.SameIds(w, a, req);
    EnterKeeps(w, a, t, place, req);
    if HasSlot(a, t) && Placed(a.ids, t, place) {
      InvReady(Enter(w, t, place, req), EnterAbstract(a, t), req);
    }
  }

  lemma MallocGood(w: World, a: Abstract, t: Thread, place: int, answer: int, req: nat)
    requires Good(w, a, req) && ReadyAbstract(a) && AnswerLegal(a, t, answer, req)
    ensures Ready(w) && w.ids == a.ids && Ready(Enter(w, t, place, req))
    ensures var w1 := Enter(w, t, place, req);
            && (t in w1.ids <==> Placed(a.ids, t, place))
            && (t in w1.ids ==> MallocStep(w, t, place, answer, req) == MallocBy(w1, w1.ids[t], answer, req))
            && (t !in w1.ids ==> MallocStep(w, t, place, answer, req) == (w1, NULL))
    ensures var (w', c) := MallocStep(w, t, place, answer, req);
            var (a', c') := MallocAbstract(a, t, answer, req);
            && (t in w'.ids <==> Placed(a.ids, t, place))
            && (t in w'.ids ==> c == c' && (w'.ids[t] <= MAX_THREAD_NUM <==> HasSlot(a, t)))
            && (c == NULL <==> Starved(PoolOf(a, t), answer) || !Placed(a.ids, t, place))
            && (t in w'.ids && c == NULL ==> w'.mem == Store(w.mem, NULL + req, TAG_SIZE, w'.ids[t]))
            && (HasSlot(a, t) && c != NULL ==> Good(w', a', req) && ReadyAbstract(a') && HasSlot(a', t))
            && (PoolRuns.Defined(w, PoolRuns.MallocOp(t, place, answer), req) <==> HasSlot(a, t) && c != NULL)
  {
    hide AnswerLegal;
    EnterGood(w, a, t, place, req);
    MallocRefinesWorld(w, a, t, place, answer, req);
    var (w', c) := MallocStep(w, t, place, answer, req);
    var a' := MallocAbstract(a, t, answer, req).0;
    if HasSlot(a, t) && c != NULL {
      InvReady(w', a', req);
    }
  }

  lemma FreeGood(w: World, a: Abstract, t: Thread, place: int, c: int, req: nat)
    requires Good(w, a, req) && Live(a, c)
    ensures Ready(w) && ReadyAbstract(a) && Tag(w.mem, c, req) in w.pools
    ensures w.pools[Tag(w.mem, c, req)].tail != NULL
    ensures HasSlot(a, t) && Placed(a.ids, t, place) ==>
              && Good(FreeStep(w, t, place, c, req), FreeAbstract(a, t, c), req)
              && HasSlot(FreeAbstract(a, t, c), t)
  {
    FreeRefinesWorld(w, a, t, place, c, req);
    if HasSlot(a, t) && Placed(a.ids, t, place) {
      InvReady(FreeStep(w, t, place, c, req), FreeAbstract(a, t, c), req);
    }
  }

  // Thread t allocates once for each answer of the system.
  function Mallocs(t: Thread, place: int, answers: seq<int>): (ops: seq<PoolRuns.Op>)
    ensures |ops| == |answers|
    ensures forall k :: 0 <= k < |ops| ==> ops[k] == PoolRuns.MallocOp(t, place, answers[k])
  {
    if answers == [] then [] else [PoolRuns.MallocOp(t, place, answers[0])] + Mallocs(t, place, answers[1..])
  }

  // Every growth met by |answers| mallocs of thread t is answered with a block.
  ghost predicate AnsweredAll(a: Abstract, t: Thread, answers: seq<int>, req: nat)
    decreases |answers|
  {
    answers == [] ||
    (ReadyAbstract(a) && HasSlot(a, t) && AnswerOk(a, t, answers[0], req)
     && AnsweredAll(MallocAbstract(a, t, answers[0], req).0, t, answers[1..], req))
  }

  lemma Seated(a: Abstract, t: Thread)
    requires t in a.ids
    ensures HasSlot(a, t)
  {
  }

  lemma AnsweredFirst(a: Abstract, t: Thread, answers: seq<int>, req: nat)
    requires AnsweredAll(a, t, answers, req) && answers != []
    ensures HasSlot(a, t)
  {
  }

  // ---------- Preallocate, step by step ----------

  lemma PoolOfOk(w: World, a: Abstract, t: Thread, req: nat)
    requires Good(w, a, req) && HasSlot(a, t)
    ensures ReadyAbstract(a) && PoolOf(a, t).start >= 2 && ViewOk(PoolOf(a, t), ChunkSize(req))
    ensures NULL !in PoolOf(a, t).live
  {
    EnterKeeps(w, a, t, 1, req);
    var (w', a') := (Enter(w, t, 1, req), EnterAbstract(a, t));
    var i := a'.ids[t];
    assert PoolOk(w'.mem, w'.pools[i], a'.pools[i], req, i);
    forall c | c in a'.pools[i].live
      ensures c != NULL
    {
      FreeChunk(w'.pools[i], a'.pools[i], c);
    }
  }

  // a is what a0 has become after i of the mallocs, which returned `got`.
  ghost predicate Allocating(a0: Abstract, a: Abstract, t: Thread, place: int, answers: seq<int>, i: nat, got: seq<int>, req: nat)
  {
    && ReadyAbstract(a0) && ReadyAbstract(a)
    && i <= |answers| && |got| == i && (i > 0 ==> t in a.ids)
    && Rest(a, t) == Rest(a0, t)
    && PoolRuns.LegalRun(a, Mallocs(t, place, answers[i..]), req)
    && (AnsweredAll(a, t, answers[i..], req) ==> AnsweredAll(a0, t, answers, req))
    && var (v, later) := MallocMany(PoolOf(a, t), answers[i..], ChunkSize(req));
       MallocMany(PoolOf(a0, t), answers, ChunkSize(req)) == (v, got + later)
  }

  lemma AllocatingStart(a: Abstract, t: Thread, place: int, answers: seq<int>, req: nat)
    requires ReadyAbstract(a) && PoolRuns.LegalRun(a, Mallocs(t, place, answers), req)
    ensures Allocating(a, a, t, place, answers, 0, [], req)
  {
    assert answers[0..] == answers;
    var (v, later) := MallocMany(PoolOf(a, t), answers, ChunkSize(req));
    assert [] + later == later;
  }

  lemma AllocatingStep(a0: Abstract, a: Abstract, t: Thread, place: int, answers: seq<int>, i: nat, got: seq<int>, req: nat)
    requires Allocating(a0, a, t, place, answers, i, got, req) && i < |answers|
    requires ReadyAbstract(a) && HasSlot(a, t) && Placed(a.ids, t, place)
    requires !Starved(PoolOf(a, t), answers[i])
    requires ReadyAbstract(MallocAbstract(a, t, answers[i], req).0)
    ensures var (a', c) := MallocAbstract(a, t, answers[i], req);
            Allocating(a0, a', t, place, answers, i + 1, got + [c], req)
  {
    hide MallocView, AnswerLegal;
    var (a', c) := MallocAbstract(a, t, answers[i], req);
    MallocOnOwnPool(a, t, answers[i], req);
    assert answers[i..][0] == answers[i] && answers[i..][1..] == answers[i + 1..];
    assert Mallocs(t, place, answers[i..])[1..] == Mallocs(t, place, answers[i + 1..]);
    var later := MallocMany(PoolOf(a', t), answers[i + 1..], ChunkSize(req)).1;
    assert got + ([c] + later) == got + [c] + later;
  }

  lemma {:induction false} AnsweredOwn(a: Abstract, t: Thread, answers: seq<int>, req: nat)
    requires ReadyAbstract(a) && AnsweredAll(a, t, answers, req)
    ensures Answered(PoolOf(a, t), answers, ChunkSize(req))
    decreases |answers|
  {
    if answers != [] {
      hide MallocView, SystemAnswer;
      OwnAnswer(a, t, answers[0], req);
      var a' := MallocAbstract(a, t, answers[0], req).0;
      assert ReadyAbstract(a') by {
        ReadyAfter(a, t, answers[0], req);
      }
      MallocOnOwnPool(a, t, answers[0], req);
      AnsweredOwn(a', t, answers[1..], req);
    }
  }

  lemma OwnAnswer(a: Abstract, t: Thread, answer: int, req: nat)
    requires ReadyAbstract(a) && AnswerOk(a, t, answer, req)
    ensures var v := PoolOf(a, t);
            NeedsGrowth(v) ==> answer != NULL && SystemAnswer(answer, v, ChunkSize(req))
  {
  }

  lemma ReadyAfter(a: Abstract, t: Thread, answer: int, req: nat)
    requires ReadyAbstract(a)
    ensures ReadyAbstract(MallocAbstract(a, t, answer, req).0)
  {
  }

  lemma NextAnswer(a0: Abstract, a: Abstract, t: Thread, place: int, answers: seq<int>, i: nat, got: seq<int>, req: nat)
    requires Allocating(a0, a, t, place, answers, i, got, req) && i < |answers|
    ensures ReadyAbstract(a) && AnswerLegal(a, t, answers[i], req)
  {
    assert answers[i..][0] == answers[i];
  }

  lemma AllocatingEnd(a0: Abstract, a: Abstract, t: Thread, place: int, answers: seq<int>, got: seq<int>, req: nat)
    requires Allocating(a0, a, t, place, answers, |answers|, got, req)
    ensures ReadyAbstract(a0) && ReadyAbstract(a) && Rest(a, t) == Rest(a0, t)
    ensures AnsweredAll(a0, t, answers, req)
    ensures MallocMany(PoolOf(a0, t), answers, ChunkSize(req)) == (PoolOf(a, t), got)
    ensures answers != [] ==> t in a.ids
  {
    assert answers[|answers|..] == [];
    assert got + [] == got;
  }

  // After i of the mallocs the program is still sound, and has done what it records.
  ghost predicate Stage(w0: World, a0: Abstract, w: World, a: Abstract, t: Thread, place: int, answers: seq<int>,
                        i: nat, got: seq<int>, req: nat)
  {
    var ops := Mallocs(t, place, answers);
    && Good(w, a, req) && Allocating(a0, a, t, place, answers, i, got, req)
    && PoolRuns.DefinedRun(w0, ops[..i], req)
    && PoolRuns.Run(w0, ops[..i], req).0 == w
  }

  lemma StageStart(w: World, a: Abstract, t: Thread, place: int, answers: seq<int>, req: nat)
    requires Good(w, a, req) && PoolRuns.LegalRun(a, Mallocs(t, place, answers), req)
    ensures Stage(w, a, w, a, t, place, answers, 0, [], req)
  {
    AllocatingStart(a, t, place, answers, req);
    assert Mallocs(t, place, answers)[..0] == [];
    PoolRuns.NothingDefined(w, req);
  }

  // The next malloc either succeeds or ends the run.
  lemma StageStep(w0: World, a0: Abstract, w: World, a: Abstract, t: Thread, place: int, answers: seq<int>,
                  i: nat, got: seq<int>, req: nat)
    requires Stage(w0, a0, w, a, t, place, answers, i, got, req) && i < |answers|
    ensures Ready(w) && ReadyAbstract(a) && AnswerLegal(a, t, answers[i], req)
    ensures var (w', c) := MallocStep(w, t, place, answers[i], req);
            var a' := MallocAbstract(a, t, answers[i], req).0;
            if HasSlot(a, t) && c != NULL
            then Stage(w0, a0, w', a', t, place, answers, i + 1, got + [c], req)
            else PoolRuns.BreaksAt(w0, Mallocs(t, place, answers), i, req)
  {
    var ops := Mallocs(t, place, answers);
    hide Good, Allocating, AnswerLegal, MallocAbstract, HasSlot, Starved, MallocView, Enter, PoolOf, Mallocs,
      PoolRuns.DefinedRun, PoolRuns.Defined, PoolRuns.Run;
    NextAnswer(a0, a, t, place, answers, i, got, req);
    MallocGood(w, a, t, place, answers[i], req);
    PoolRuns.RunSnoc(w0, ops[..i], ops[i], req);
    PrefixStep(ops, i);
    if HasSlot(a, t) && MallocStep(w, t, place, answers[i], req).1 != NULL {
      AllocatingStep(a0, a, t, place, answers, i, got, req);
    }
  }

  lemma StageEnd(w0: World, a0: Abstract, w: World, a: Abstract, t: Thread, place: int, answers: seq<int>,
                 got: seq<int>, req: nat)
    requires Stage(w0, a0, w, a, t, place, answers, |answers|, got, req)
    ensures Good(w, a, req) && ReadyAbstract(a0) && ReadyAbstract(a)
    ensures PoolRuns.DefinedRun(w0, Mallocs(t, place, answers), req)
    ensures AnsweredAll(a0, t, answers, req) && Rest(a, t) == Rest(a0, t)
    ensures MallocMany(PoolOf(a0, t), answers, ChunkSize(req)) == (PoolOf(a, t), got)
    ensures answers != [] ==> t in a.ids
  {
    hide Good, Allocating, AnsweredAll, MallocMany, Rest, PoolOf, PoolRuns.DefinedRun, PoolRuns.Run;
    AllocatingEnd(a0, a, t, place, answers, got, req);
    var ops := Mallocs(t, place, answers);
    assert ops[..|answers|] == ops;
  }

  lemma NoLaterGrowth(w: World, a: Abstract, t: Thread, req: nat)
    requires Good(w, a, req)
    ensures ReadyAbstract(a)
    ensures forall later: seq<int> :: |later| == 0 ==>
              MallocMany(PoolOf(a, t), later, ChunkSize(req)).0.blocks == PoolOf(a, t).blocks
  {
  }

  lemma PreallocateResult(v: View, answers: seq<int>, size: int)
    requires ViewOk(v, size) && v.start >= 2 && Answered(v, answers, size)
    ensures var (u, cs) := MallocMany(v, answers, size);
            var w := FreeMany(u, cs);
            && Distinct(cs) && Elems(cs) <= u.live && w.live == v.live && w.start >= 2
            && forall later: seq<int> :: |later| == |answers| ==>
                 MallocMany(w, later, size).0.blocks == w.blocks
  {
    MallocManySpec(v, answers, size);
    var (u, cs) := MallocMany(v, answers, size);
    FreeManySpec(u, cs, size);
    forall later: seq<int> | |later| == |answers|
      ensures MallocMany(FreeMany(u, cs), later, size).0.blocks == FreeMany(u, cs).blocks
    {
      PreallocateSpec(v, answers, later, size);
    }
  }

  // i of the chunks cs, all taken from the own pool, have been given back since a1.
  ghost predicate Freeing(a1: Abstract, a: Abstract, t: Thread, cs: seq<int>, i: nat)
  {
    && ReadyAbstract(a1) && ReadyAbstract(a)
    && i <= |cs| && t in a.ids && Rest(a, t) == Rest(a1, t)
    && Distinct(cs) && Elems(cs[i..]) <= PoolOf(a, t).live
    && FreeMany(PoolOf(a, t), cs[i..]) == FreeMany(PoolOf(a1, t), cs)
  }

  lemma FreeingStart(a: Abstract, t: Thread, cs: seq<int>)
    requires ReadyAbstract(a) && t in a.ids && Distinct(cs) && Elems(cs) <= PoolOf(a, t).live
    ensures Freeing(a, a, t, cs, 0)
  {
    assert cs[0..] == cs;
  }

  lemma FreeingEnd(a1: Abstract, a: Abstract, t: Thread, cs: seq<int>)
    requires Freeing(a1, a, t, cs, |cs|)
    ensures ReadyAbstract(a1) && ReadyAbstract(a) && Rest(a, t) == Rest(a1, t)
    ensures PoolOf(a, t) == FreeMany(PoolOf(a1, t), cs)
  {
    assert cs[|cs|..] == [];
  }

  lemma FreeingStep(w: World, a1: Abstract, a: Abstract, t: Thread, cs: seq<int>, i: nat, req: nat)
    requires Good(w, a, req) && Freeing(a1, a, t, cs, i) && i < |cs|
    ensures Live(a, cs[i]) && cs[i] in PoolOf(a, t).live && t in a.ids
    ensures Freeing(a1, FreeAbstract(a, t, cs[i]), t, cs, i + 1)
  {
    hide WInv, Elems, Distinct, FreeAbstract, Rest, PoolOf;
    TailElems(cs, i);
    FreeOnOwnPool(w, a, t, cs[i], req);
  }

  // How Preallocate ends: it returns, or it writes its first chunk's address through the
  // null it got for a scratch array, or its malloc number `at` cannot be done. After a
  // fault the program has no defined behaviour.
  datatype Outcome = Returned(ret: bool) | NoScratch | Faulted(at: nat)

  class ObjectPools {
    const requestedSize: nat
    var mem: Mem
    var pools: map<nat, Regs>
    var threadIds: map<Thread, nat>
    var threadIdCounter: nat
    ghost var meaning: Abstract

    ghost function State(): World
      reads this
    {
      World(mem, pools, threadIds, threadIdCounter)
    }

    ghost predicate Valid()
      reads this
    {
      Good(State(), meaning, requestedSize)
    }

    constructor (initial: Mem, requestedSize: nat)
      requires requestedSize + TAG_SIZE < 0x1_0000_0000
      ensures Valid() && meaning == PoolRuns.StartAbstract()
      ensures mem == initial && this.requestedSize == requestedSize
    {
      this.requestedSize := requestedSize;
      mem := initial;
      pools, threadIds, threadIdCounter := map[], map[], 0;
      meaning := PoolRuns.StartAbstract();
      new;
      PoolRuns.StartOk(mem, requestedSize);
    }

    // object_pool(): the calling thread's pool, created on first use; place is the system's
    // answer to the request for the pool object. Without one the thread is left without a
    // pool; with one, its id is that of an array entry exactly if there was one left.
    method ObjectPool(t: Thread, place: int) returns (id: nat)
      requires Valid()
      modifies this
      ensures State() == Enter(old(State()), t, place, requestedSize)
      ensures meaning == EnterAbstract(old(meaning), t)
      ensures t in threadIds <==> Placed(old(meaning).ids, t, place)
      ensures t in threadIds ==> id == threadIds[t] && id in pools
      ensures t in threadIds ==> (id <= MAX_THREAD_NUM <==> HasSlot(old(meaning), t))
      ensures Valid() <==> HasSlot(old(meaning), t) && Placed(old(meaning).ids, t, place)
    {
      hide Good, HasSlot;
      EnterGood(State(), meaning, t, place, requestedSize);
      if t !in threadIds {
        threadIdCounter := threadIdCounter + 1;
        if place != NULL {
          threadIds := threadIds[t := threadIdCounter];
          pools := pools[threadIdCounter := NewPool(requestedSize)];
        }
      }
      id := if t in threadIds then threadIds[t] else threadIdCounter;
      meaning := EnterAbstract(meaning, t);
    }

    // Null stands also for the call of a thread that has got no pool object.
    method Malloc(t: Thread, place: int, answer: int) returns (c: int)
      requires Valid() && AnswerLegal(meaning, t, answer, requestedSize)
      modifies this
      ensures (State(), c) == MallocStep(old(State()), t, place, answer, requestedSize)
      ensures meaning == MallocAbstract(old(meaning), t, answer, requestedSize).0
      ensures t in threadIds <==> Placed(old(meaning).ids, t, place)
      ensures t in threadIds ==>
                && c == MallocAbstract(old(meaning), t, answer, requestedSize).1
                && (threadIds[t] <= MAX_THREAD_NUM <==> HasSlot(old(meaning), t))
      ensures c == NULL <==> Starved(PoolOf(old(meaning), t), answer) || !Placed(old(meaning).ids, t, place)
      ensures t in threadIds && c == NULL ==>
                mem == Store(old(mem), NULL + requestedSize, TAG_SIZE, threadIds[t])
      ensures HasSlot(old(meaning), t) && c != NULL ==> Valid() && HasSlot(meaning, t)
    {
      hide Good, AnswerLegal, HasSlot, Starved, PoolOf, Placed, Enter, EnterAbstract, MallocBy, MallocStep,
        MallocAbstract, PoolRuns.Defined;
      ghost var before, w := meaning, State();
      GoodReady(w, before, requestedSize);
      MallocGood(w, before, t, place, answer, requestedSize);
      var id := ObjectPool(t, place);
      if t in threadIds {
        c := TaggedMalloc(id, answer);
      } else {
        c := NULL;
      }
      meaning := MallocAbstract(before, t, answer, requestedSize).0;
    }

    // malloc(): the pool's own Malloc and the tag write.
    method TaggedMalloc(id: nat, answer: int) returns (c: int)
      requires id in pools && pools[id].nextSize >= 2
      modifies this`mem, this`pools
      ensures (State(), c) == MallocBy(old(State()), id, answer, requestedSize)
    {
      var (m, r, ret) := FreeList.Malloc(mem, pools[id], answer);
      mem := Store(m, ret + requestedSize, TAG_SIZE, id);
      pools := pools[id := r];
      c := ret;
    }

    method Free(t: Thread, place: int, c: int)
      requires Valid() && Live(meaning, c)
      modifies this
      ensures State() == FreeStep(old(State()), t, place, c, requestedSize)
      ensures meaning == FreeAbstract(old(meaning), t, c)
      ensures t in threadIds <==> Placed(old(meaning).ids, t, place)
      ensures HasSlot(old(meaning), t) && Placed(old(meaning).ids, t, place) ==>
                Valid() && HasSlot(meaning, t)
    {
      hide Good, Load, Push, Append, HasSlot, EnterAbstract, FreeAbstract;
      ghost var before, w := meaning, State();
      EnterGood(w, before, t, place, requestedSize);
      FreeGood(w, before, t, place, c, requestedSize);
      var own := ObjectPool(t, place);
      if t in threadIds {
        var id := Tag(mem, c, requestedSize);
        if id == own {
          var (m, r) := Push(mem, pools[id], c);
          mem, pools := m, pools[id := r];
        } else {
          var (m, r) := Append(mem, pools[id], c);
          mem, pools := m, pools[id := r];
        }
      }
      meaning := FreeAbstract(before, t, c);
    }

    // Allocate n chunks, then give them all back; scratch is the system's answer to the
    // request for the array of their addresses. Whatever the system answers, either all
    // goes well and true is returned, or the array is missing, or one of the mallocs cannot
    // be done: false is never returned.
    method Preallocate(t: Thread, n: int, scratch: int, place: int, answers: seq<int>)
      returns (out: Outcome)
      requires Valid() && |answers| == (if n > 0 then n else 0)
      requires PoolRuns.LegalRun(meaning, Mallocs(t, place, answers), requestedSize)
      modifies this
      ensures out.NoScratch? <==> n > 0 && scratch == NULL
      ensures out.Returned?
         <==> (n <= 0 || scratch != NULL)
              && PoolRuns.DefinedRun(old(State()), Mallocs(t, place, answers), requestedSize)
      ensures out.Faulted? ==>
                PoolRuns.BreaksAt(old(State()), Mallocs(t, place, answers), out.at, requestedSize)
      ensures out.Returned? ==>
                && out.ret && Valid()
                && (n <= 0 ==> meaning == old(meaning))
                && Rest(meaning, t) == Rest(old(meaning), t)
                && PoolOf(meaning, t).live == PoolOf(old(meaning), t).live
                && forall later: seq<int> :: |later| == |answers| ==>
                     MallocMany(PoolOf(meaning, t), later, ChunkSize(requestedSize)).0.blocks
                     == PoolOf(meaning, t).blocks
    {
      hide Good, AnsweredAll, Answered, ViewOk, MallocView, MallocMany, FreeMany, Rest, PoolOf, HasSlot,
        PoolRuns.LegalRun, PoolRuns.DefinedRun, PoolRuns.BreaksAt;
      ghost var w0, a0, size := State(), meaning, ChunkSize(requestedSize);
      GoodReady(w0, a0, requestedSize);
      if n <= 0 {
        NoLaterGrowth(w0, a0, t, requestedSize);
        PoolRuns.NothingDefined(w0, requestedSize);
        assert Mallocs(t, place, answers) == [];
        return Returned(true);
      }
      if scratch == NULL {
        return NoScratch;
      }
      var arr := new int[n];
      var filled := AllocateInto(t, place, arr, answers);
      if filled < n {
        PoolRuns.BreakEndsRun(w0, Mallocs(t, place, answers), filled, requestedSize);
        return Faulted(filled);
      }
      AnsweredFirst(a0, t, answers, requestedSize);
      PoolOfOk(w0, a0, t, requestedSize);
      AnsweredOwn(a0, t, answers, requestedSize);
      PreallocateResult(PoolOf(a0, t), answers, size);
      Seated(meaning, t);
      var ret := FreeBack(t, place, arr);
      out := Returned(ret);
    }

    // The first loop of Preallocate, up to its end or to the malloc that cannot be done.
    method AllocateInto(t: Thread, place: int, arr: array<int>, answers: seq<int>) returns (filled: nat)
      requires Valid() && arr.Length == |answers|
      requires PoolRuns.LegalRun(meaning, Mallocs(t, place, answers), requestedSize)
      modifies this, arr
      ensures filled <= |answers| && ReadyAbstract(old(meaning))
      ensures filled < |answers| ==>
                PoolRuns.BreaksAt(old(State()), Mallocs(t, place, answers), filled, requestedSize)
      ensures filled == |answers| ==>
                && Valid() && ReadyAbstract(meaning)
                && PoolRuns.DefinedRun(old(State()), Mallocs(t, place, answers), requestedSize)
                && AnsweredAll(old(meaning), t, answers, requestedSize)
                && Rest(meaning, t) == Rest(old(meaning), t)
                && MallocMany(PoolOf(old(meaning), t), answers, ChunkSize(requestedSize))
                   == (PoolOf(meaning, t), arr[..])
                && (answers != [] ==> t in meaning.ids)
    {
      hide Good, Stage, AnswerLegal, AnsweredAll, MallocMany, MallocAbstract, MallocStep, Rest, PoolOf, HasSlot,
        Starved, Mallocs, PoolRuns.LegalRun, PoolRuns.DefinedRun, PoolRuns.BreaksAt;
      ghost var w0, a0 := State(), meaning;
      GoodReady(w0, a0, requestedSize);
      StageStart(w0, a0, t, place, answers, requestedSize);
      filled := 0;
      while filled < arr.Length
        invariant filled <= arr.Length && Valid()
        invariant Stage(w0, a0, State(), meaning, t, place, answers, filled, arr[..filled], requestedSize)
      {
        var ok := AllocateNext(t, place, arr, filled, answers, w0, a0);
        if !ok {
          return;
        }
        filled := filled + 1;
      }
      assert arr[..arr.Length] == arr[..];
      StageEnd(w0, a0, State(), meaning, t, place, answers, arr[..], requestedSize);
    }

    // One round of it; false when the malloc cannot be done.
    method AllocateNext(t: Thread, place: int, arr: array<int>, i: nat, answers: seq<int>,
                        ghost w0: World, ghost a0: Abstract) returns (ok: bool)
      requires Valid() && i < arr.Length == |answers|
      requires Stage(w0, a0, State(), meaning, t, place, answers, i, arr[..i], requestedSize)
      modifies this, arr
      ensures ok ==>
                Valid() && Stage(w0, a0, State(), meaning, t, place, answers, i + 1, arr[..i + 1], requestedSize)
      ensures !ok ==> PoolRuns.BreaksAt(w0, Mallocs(t, place, answers), i, requestedSize)
    {
      hide *;
      ghost var got := arr[..i];
      StageStep(w0, a0, State(), meaning, t, place, answers, i, got, requestedSize);
      var c := Malloc(t, place, answers[i]);
      ok := c != NULL && threadIds[t] <= MAX_THREAD_NUM;
      arr[i] := c;
      assert arr[..i + 1] == got + [c];
    }

    // The second loop of Preallocate.
    method FreeBack(t: Thread, place: int, arr: array<int>) returns (ret: bool)
      requires Valid() && HasSlot(meaning, t) && t in meaning.ids
      requires ReadyAbstract(meaning)
      requires Distinct(arr[..]) && Elems(arr[..]) <= PoolOf(meaning, t).live
      modifies this
      ensures Valid() && HasSlot(meaning, t) && ret
      ensures ReadyAbstract(meaning) && Rest(meaning, t) == Rest(old(meaning), t)
      ensures PoolOf(meaning, t) == FreeMany(PoolOf(old(meaning), t), arr[..])
    {
      hide Good, Freeing, FreeMany, Rest, PoolOf, HasSlot, Live, FreeAbstract, FreeStep, Elems, Distinct;
      ghost var a1, cs := meaning, arr[..];
      FreeingStart(a1, t, cs);
      ret := true;
      for i := 0 to arr.Length
        invariant Valid() && HasSlot(meaning, t) && ret
        invariant Freeing(a1, meaning, t, cs, i)
      {
        PoolOfOk(State(), meaning, t, requestedSize);
        FreeingStep(State(), a1, meaning, t, cs, i, requestedSize);
        ret := ret && arr[i] != NULL;
        if arr[i] != NULL {
          Free(t, place, arr[i]);
        }
      }
      FreeingEnd(a1, meaning, t, cs);
    }
  }
}
