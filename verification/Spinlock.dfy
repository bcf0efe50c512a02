// The readers/writer lock: one flag, one counter, any number of threads, every
// interleaving of their atomic accesses.
module Spinlock {
  type Thread = nat

  // Where a thread stands: Draining is past the exchange and waits for the readers,
  // Writing is past Lock; Passed is past the test of lock_ in ReadLock but has not
  // incremented, Reading is past ReadLock.
  datatype Pc = Idle | Draining | Writing | Passed | Reading

  // `when` remembers the moments of a thread's last exchange (or test) and of its last
  // successful load of reader_ (or increment); it influences no step.
  datatype Moments = Moments(first: nat, second: nat)

  datatype State = State(lock: bool, reader: int, pc: map<Thread, Pc>, when: map<Thread, Moments>, clock: nat)

  // One atomic access each. An exchange that finds 1, a load of reader_ that finds
  // readers and a test that finds the lock taken leave the thread where it is.
  datatype Event =
    | Exchange(t: Thread)
    | LoadReaders(t: Thread)
    | Unlock(t: Thread)
    | TestLock(t: Thread)
    | Increment(t: Thread)
    | Decrement(t: Thread)

  function Place(s: State, t: Thread): Pc
  {
    if t in s.pc then s.pc[t] else Idle
  }

  function At(s: State, t: Thread): Moments
  {
    if t in s.when then s.when[t] else Moments(0, 0)
  }

  predicate Enabled(s: State, e: Event)
  {
    match e
    case Exchange(t) => Place(s, t).Idle?
    case LoadReaders(t) => Place(s, t).Draining?
    case Unlock(t) => Place(s, t).Writing?
    case TestLock(t) => Place(s, t).Idle?
    case Increment(t) => Place(s, t).Passed?
    case Decrement(t) => Place(s, t).Reading?
  }

  function Move(s: State, t: Thread, p: Pc, m: Moments): State
  {
    s.(pc := s.pc[t := p], when := s.when[t := m], clock := s.clock + 1)
  }

  function Apply(s: State, e: Event): State
    requires Enabled(s, e)
  {
    var now := s.clock;
    match e
    case Exchange(t) =>
      if s.lock then s.(clock := now + 1)
      else Move(s, t, Draining, Moments(now, 0)).(lock := true)
    case LoadReaders(t) =>
      if s.reader != 0 then s.(clock := now + 1)
      else Move(s, t, Writing, At(s, t).(second := now))
    case Unlock(t) => Move(s, t, Idle, At(s, t)).(lock := false)
    case TestLock(t) =>
      if s.lock then s.(clock := now + 1)
      else Move(s, t, Passed, Moments(now, 0))
    case Increment(t) => Move(s, t, Reading, At(s, t).(second := now)).(reader := s.reader + 1)
    case Decrement(t) => Move(s, t, Idle, At(s, t)).(reader := s.reader - 1)
  }

  ghost predicate Init(s: State)
  {
    !s.lock && s.reader == 0 && (forall t :: Place(s, t).Idle?)
  }

  ghost predicate IsRun(s: State, es: seq<Event>)
    decreases |es|
  {
    es == [] || (Enabled(s, es[0]) && IsRun(Apply(s, es[0]), es[1..]))
  }

  ghost function After(s: State, es: seq<Event>): State
    requires IsRun(s, es)
    decreases |es|
  {
    if es == [] then s else After(Apply(s, es[0]), es[1..])
  }

  // ---------- the invariant ----------

  predicate HasLock(p: Pc)
  {
    p.Draining? || p.Writing?
  }

  ghost function Readers(s: State): set<Thread>
  {
    set t | t in s.pc && s.pc[t].Reading?
  }

  ghost function PastTest(s: State): set<Thread>
  {
    set t | t in s.pc && s.pc[t].Passed?
  }

  // At most one thread is past the exchange, exactly while the flag is set.
  ghost predicate Owned(s: State)
  {
    && (forall t, u :: HasLock(Place(s, t)) && HasLock(Place(s, u)) ==> t == u)
    && (s.lock <==> exists t :: HasLock(Place(s, t)))
  }

  // Every moment remembered lies in the past.
  ghost predicate Timed(s: State)
  {
    forall t :: t in s.when ==> s.when[t].first < s.clock && s.when[t].second < s.clock
  }

  // A reader past its test while the lock is taken made the test before the exchange;
  // one inside together with a writer made its increment after the writer's last load.
  ghost predicate Overlaps(s: State)
  {
    forall r, w :: OverlapsFor(s, r, w)
  }

  ghost predicate OverlapsFor(s: State, r: Thread, w: Thread)
  {
    HasLock(Place(s, w)) && (Place(s, r).Passed? || Place(s, r).Reading?) ==>
      && At(s, r).first < At(s, w).first
      && (Place(s, w).Writing? && Place(s, r).Reading? ==> At(s, w).second < At(s, r).second)
  }

  ghost predicate Inv(s: State)
  {
    && s.pc.Keys == s.when.Keys
    && Owned(s) && s.reader == |Readers(s)| && Timed(s) && Overlaps(s)
  }

  lemma InitInv(s: State)
    requires Init(s) && s.when == map[] && s.pc == map[]
    ensures Inv(s)
  {
    assert Readers(s) == {};
  }

  lemma ReadersAfter(s: State, e: Event)
    requires Enabled(s, e)
    ensures Readers(Apply(s, e))
         == (match e
             case Increment(t) => Readers(s) + {t}
             case Decrement(t) => Readers(s) - {t}
             case _ => Readers(s))
    ensures PastTest(Apply(s, e))
         == (match e
             case Increment(t) => PastTest(s) - {t}
             case TestLock(t) => if s.lock then PastTest(s) else PastTest(s) + {t}
             case _ => PastTest(s))
  {
  }

  lemma OwnedKept(s: State, e: Event)
    requires Owned(s) && Enabled(s, e)
    ensures Owned(Apply(s, e))
  {
    var s' := Apply(s, e);
    assert forall u :: u != e.t ==> Place(s', u) == Place(s, u);
    if s'.lock {
      if e.Exchange? && !s.lock {
        assert HasLock(Place(s', e.t));
      } else {
        var u :| HasLock(Place(s, u));
        assert HasLock(Place(s', u));
      }
    }
  }

  // Only the thread of the event moves.
  lemma OthersStay(s: State, e: Event)
    requires Enabled(s, e)
    ensures var s' := Apply(s, e);
            forall u :: u != e.t ==> Place(s', u) == Place(s, u) && At(s', u) == At(s, u)
  {
  }

  lemma TimedKept(s: State, e: Event)
    requires Timed(s) && Enabled(s, e)
    ensures Timed(Apply(s, e))
  {
  }

  lemma TimedAt(s: State, t: Thread)
    requires Timed(s) && t in s.when
    ensures At(s, t).first < s.clock && At(s, t).second < s.clock
  {
  }

  lemma NoReadersSeen(s: State)
    requires s.reader == |Readers(s)| && s.reader == 0
    ensures forall r :: !Place(s, r).Reading?
  {
    assert Readers(s) == {};
    assert forall r :: Place(s, r).Reading? ==> r in Readers(s);
  }

  lemma OverlapsKept(s: State, e: Event)
    requires Inv(s) && Enabled(s, e)
    ensures Overlaps(Apply(s, e))
  {
    var s' := Apply(s, e);
    OthersStay(s, e);
    if e.LoadReaders? && s.reader == 0 {
      NoReadersSeen(s);
    }
    forall r, w
      ensures OverlapsFor(s', r, w)
    {
      assert OverlapsFor(s, r, w);
      if e.t == r || e.t == w {
        if r in s.when {
          TimedAt(s, r);
        }
        if w in s.when {
          TimedAt(s, w);
        }
        assert HasLock(Place(s, w)) ==> s.lock;
      }
    }
  }

  lemma StepKeeps(s: State, e: Event)
    requires Inv(s) && Enabled(s, e)
    ensures Inv(Apply(s, e))
  {
    CountKept(s, e);
    OwnedKept(s, e);
    TimedKept(s, e);
    OverlapsKept(s, e);
    hide Owned, Timed, Overlaps, Readers;
  }

  lemma CountKept(s: State, e: Event)
    requires s.reader == |Readers(s)| && Enabled(s, e)
    ensures Apply(s, e).reader == |Readers(Apply(s, e))|
  {
    ReadersAfter(s, e);
    assert e.Increment? ==> e.t !in Readers(s);
    assert e.Decrement? ==> e.t in Readers(s);
  }

  lemma {:induction false} RunKeeps(s: State, es: seq<Event>)
    requires Inv(s) && IsRun(s, es)
    ensures Inv(After(s, es))
    decreases |es|
  {
    if es != [] {
      StepKeeps(s, es[0]);
      RunKeeps(Apply(s, es[0]), es[1..]);
    }
  }

  // ---------- exclusion ----------

  // In every run at most one thread is past the exchange, and reader_ counts the readers
  // that are inside.
  lemma WritersExclude(s: State, es: seq<Event>, t: Thread, u: Thread)
    requires Inv(s) && IsRun(s, es)
    ensures var z := After(s, es);
            && (HasLock(Place(z, t)) && HasLock(Place(z, u)) ==> t == u)
            && (HasLock(Place(z, t)) ==> z.lock)
            && z.reader == |Readers(z)|
  {
    RunKeeps(s, es);
  }

  // The moments are positions in the run at which the thread did what they stand for.
  predicate RecordedFor(p: Pc, m: Moments, t: Thread, past: seq<Event>)
  {
    && (HasLock(p) ==> m.first < |past| && past[m.first] == Exchange(t))
    && (p.Writing? ==> m.first < m.second < |past| && past[m.second] == LoadReaders(t))
    && (p.Passed? || p.Reading? ==> m.first < |past| && past[m.first] == TestLock(t))
    && (p.Reading? ==> m.first < m.second < |past| && past[m.second] == Increment(t))
  }

  ghost predicate Recorded(s: State, past: seq<Event>)
  {
    s.clock == |past| && forall t :: RecordedFor(Place(s, t), At(s, t), t, past)
  }

  lemma RecordedStep(s: State, past: seq<Event>, e: Event)
    requires Recorded(s, past) && Enabled(s, e)
    ensures Recorded(Apply(s, e), past + [e])
  {
    var s' := Apply(s, e);
    forall t
      ensures RecordedFor(Place(s', t), At(s', t), t, past + [e])
    {
      assert RecordedFor(Place(s, t), At(s, t), t, past);
    }
  }

  lemma {:induction false} RunRecorded(s: State, past: seq<Event>, es: seq<Event>)
    requires Recorded(s, past) && IsRun(s, es)
    ensures Recorded(After(s, es), past + es)
    decreases |es|
  {
    hide Recorded;
    if es == [] {
      assert past + es == past;
    } else {
      RecordedStep(s, past, es[0]);
      RunRecorded(Apply(s, es[0]), past + [es[0]], es[1..]);
      assert past + [es[0]] + es[1..] == past + es;
    }
  }

  // A reader inside together with a writer passed its test before the writer's exchange
  // and incremented only after the writer had seen no readers.
  lemma OverlapExplained(s: State, es: seq<Event>, r: Thread, w: Thread)
    returns (test: nat, exchange: nat, load: nat, increment: nat)
    requires Init(s) && s.pc == map[] && s.when == map[] && s.clock == 0 && IsRun(s, es)
    requires Place(After(s, es), r).Reading? && Place(After(s, es), w).Writing?
    ensures test < exchange < load < increment < |es|
    ensures es[test] == TestLock(r) && es[exchange] == Exchange(w)
    ensures es[load] == LoadReaders(w) && es[increment] == Increment(r)
  {
    var z := After(s, es);
    InitInv(s);
    RunKeeps(s, es);
    RunRecorded(s, [], es);
    assert [] + es == es;
    assert OverlapsFor(z, r, w);
    assert RecordedFor(Place(z, r), At(z, r), r, es);
    assert RecordedFor(Place(z, w), At(z, w), w, es);
    test, increment := At(z, r).first, At(z, r).second;
    exchange, load := At(z, w).first, At(z, w).second;
  }

  // Such a run exists, so a reader and a writer can be inside together.
  lemma OverlapHappens(s: State, r: Thread, w: Thread)
    requires Init(s) && r != w
    ensures var es := [TestLock(r), Exchange(w), LoadReaders(w), Increment(r)];
            && IsRun(s, es)
            && Place(After(s, es), r).Reading? && Place(After(s, es), w).Writing?
  {
    assert [LoadReaders(w)] + [Increment(r)] == [LoadReaders(w), Increment(r)];
    assert [Exchange(w)] + [LoadReaders(w), Increment(r)] == [Exchange(w), LoadReaders(w), Increment(r)];
    assert [TestLock(r)] + [Exchange(w), LoadReaders(w), Increment(r)]
        == [TestLock(r), Exchange(w), LoadReaders(w), Increment(r)];
    assert Place(s, r).Idle? && Place(s, w).Idle?;
    var s1 := Apply(s, TestLock(r));
    assert Place(s1, w).Idle?;
    var s2 := Apply(s1, Exchange(w));
    var s3 := Apply(s2, LoadReaders(w));
    RunCons(s3, Increment(r), []);
    RunCons(s2, LoadReaders(w), [Increment(r)]);
    RunCons(s1, Exchange(w), [LoadReaders(w), Increment(r)]);
    RunCons(s, TestLock(r), [Exchange(w), LoadReaders(w), Increment(r)]);
  }

  lemma RunCons(s: State, e: Event, es: seq<Event>)
    requires Enabled(s, e) && IsRun(Apply(s, e), es)
    ensures IsRun(s, [e] + es) && After(s, [e] + es) == After(Apply(s, e), es)
  {
    assert ([e] + es)[1..] == es;
  }

  // When a writer has got in, it stays alone in every continuation exactly if no reader
  // was past its test at that moment.
  lemma ExclusionIff(s: State, w: Thread)
    requires Inv(s) && Place(s, w).Writing? && Readers(s) == {}
    ensures (forall es :: IsRun(s, es) && Unlock(w) !in es ==> Readers(After(s, es)) == {})
       <==> PastTest(s) == {}
  {
    if PastTest(s) != {} {
      var r :| r in PastTest(s);
      var es := [Increment(r)];
      assert es[1..] == [];
      assert IsRun(s, es) && Unlock(w) !in es;
      assert r in Readers(After(s, es));
    } else {
      forall es | IsRun(s, es) && Unlock(w) !in es
        ensures Readers(After(s, es)) == {}
      {
        StaysAlone(s, w, es);
      }
    }
  }

  lemma {:induction false} StaysAlone(s: State, w: Thread, es: seq<Event>)
    requires Inv(s) && Place(s, w).Writing? && Readers(s) == {} && PastTest(s) == {}
    requires IsRun(s, es) && Unlock(w) !in es
    ensures Readers(After(s, es)) == {}
    decreases |es|
  {
    if es != [] {
      var s1 := Apply(s, es[0]);
      StepKeeps(s, es[0]);
      ReadersAfter(s, es[0]);
      assert HasLock(Place(s, w));
      assert es[0].Unlock? ==> HasLock(Place(s, es[0].t));
      NoneEnters(s, es[0]);
      assert Place(s1, w).Writing?;
      StaysAlone(s1, w, es[1..]);
    }
  }

  lemma NoneEnters(s: State, e: Event)
    requires Readers(s) == {} && PastTest(s) == {} && Enabled(s, e)
    ensures !e.Increment? && !e.Decrement?
  {
    assert forall t :: Place(s, t).Passed? ==> t in PastTest(s);
    assert forall t :: Place(s, t).Reading? ==> t in Readers(s);
  }

  // ---------- if the test and the increment were one access ----------

  ghost predicate FusedEnabled(s: State, e: Event)
  {
    Enabled(s, e) && !e.Increment?
  }

  ghost function FusedApply(s: State, e: Event): State
    requires FusedEnabled(s, e)
  {
    if e.TestLock? && !s.lock then Apply(Apply(s, e), Increment(e.t)) else Apply(s, e)
  }

  ghost predicate IsFusedRun(s: State, es: seq<Event>)
    decreases |es|
  {
    es == [] || (FusedEnabled(s, es[0]) && IsFusedRun(FusedApply(s, es[0]), es[1..]))
  }

  ghost function FusedAfter(s: State, es: seq<Event>): State
    requires IsFusedRun(s, es)
    decreases |es|
  {
    if es == [] then s else FusedAfter(FusedApply(s, es[0]), es[1..])
  }

  ghost predicate Exclusive(s: State)
  {
    && PastTest(s) == {}
    && forall r, w :: Place(s, r).Reading? ==> !Place(s, w).Writing?
  }

  lemma FusedStepKeeps(s: State, e: Event)
    requires Inv(s) && Exclusive(s) && FusedEnabled(s, e)
    ensures Inv(FusedApply(s, e)) && Exclusive(FusedApply(s, e))
  {
    if e.TestLock? && !s.lock {
      FusedEnters(s, e.t);
    } else {
      hide Timed, Overlaps;
      StepKeeps(s, e);
      ReadersAfter(s, e);
      OthersStay(s, e);
      if e.LoadReaders? && s.reader == 0 {
        NoReadersSeen(s);
      }
    }
  }

  lemma FusedEnters(s: State, t: Thread)
    requires Inv(s) && Exclusive(s) && FusedEnabled(s, TestLock(t)) && !s.lock
    ensures Inv(FusedApply(s, TestLock(t))) && Exclusive(FusedApply(s, TestLock(t)))
  {
    hide Timed, Overlaps;
    var s1 := Apply(s, TestLock(t));
    StepKeeps(s, TestLock(t));
    ReadersAfter(s, TestLock(t));
    OthersStay(s, TestLock(t));
    StepKeeps(s1, Increment(t));
    ReadersAfter(s1, Increment(t));
    OthersStay(s1, Increment(t));
    OpenMeansNoWriter(s);
  }

  lemma OpenMeansNoWriter(s: State)
    requires Owned(s) && !s.lock
    ensures forall w :: !Place(s, w).Writing?
  {
    assert forall w :: Place(s, w).Writing? ==> HasLock(Place(s, w));
  }

  // Then readers and writers exclude each other in every run.
  lemma {:induction false} FusedExcludes(s: State, es: seq<Event>)
    requires Inv(s) && Exclusive(s) && IsFusedRun(s, es)
    ensures Exclusive(FusedAfter(s, es))
    decreases |es|
  {
    if es != [] {
      FusedStepKeeps(s, es[0]);
      FusedExcludes(FusedApply(s, es[0]), es[1..]);
    }
  }

  // ---------- a draining writer ----------

  // Two reader steps are still to come for each thread past its test, one for each inside.
  ghost function StepsLeft(s: State): nat
  {
    2 * |PastTest(s)| + |Readers(s)|
  }

  function ReaderSteps(es: seq<Event>): nat
  {
    if es == [] then 0
    else (if es[0].Increment? || es[0].Decrement? then 1 else 0) + ReaderSteps(es[1..])
  }

  lemma TakenLockDrains(s: State, e: Event)
    requires Enabled(s, e) && s.lock && !e.Unlock?
    ensures Apply(s, e).lock
    ensures StepsLeft(Apply(s, e)) == StepsLeft(s) - (if e.Increment? || e.Decrement? then 1 else 0)
    ensures PastTest(Apply(s, e)) <= PastTest(s)
    ensures Readers(Apply(s, e)) <= Readers(s) + PastTest(s)
  {
    ReadersAfter(s, e);
    assert e.Increment? ==> e.t in PastTest(s) && e.t !in Readers(s);
    assert e.Decrement? ==> e.t in Readers(s);
  }

  // While the lock is taken the readers make at most StepsLeft more steps in all, and no
  // reader gets past the test that was not past it before.
  lemma {:induction false} DrainBounded(s: State, es: seq<Event>)
    requires IsRun(s, es) && s.lock && forall i :: 0 <= i < |es| ==> !es[i].Unlock?
    ensures var z := After(s, es);
            && z.lock
            && ReaderSteps(es) + StepsLeft(z) == StepsLeft(s)
            && PastTest(z) <= PastTest(s)
            && Readers(z) <= Readers(s) + PastTest(s)
    decreases |es|
  {
    if es != [] {
      TakenLockDrains(s, es[0]);
      DrainBounded(Apply(s, es[0]), es[1..]);
    }
  }

  // Once those steps are made, the writer's next load lets it in.
  lemma DrainedWriterEnters(s: State, w: Thread)
    requires Inv(s) && Place(s, w).Draining?
    ensures Place(Apply(s, LoadReaders(w)), w).Writing? <==> Readers(s) == {}
    ensures StepsLeft(s) == 0 ==> Place(Apply(s, LoadReaders(w)), w).Writing?
  {
  }

  // ---------- what each access does ----------

  // What a thread may do next is decided by its place alone.
  lemma NextAccess(s: State, t: Thread)
    ensures Place(s, t).Idle? <==> Enabled(s, Exchange(t))
    ensures Place(s, t).Idle? <==> Enabled(s, TestLock(t))
    ensures Place(s, t).Draining? <==> Enabled(s, LoadReaders(t))
    ensures Place(s, t).Writing? <==> Enabled(s, Unlock(t))
    ensures Place(s, t).Passed? <==> Enabled(s, Increment(t))
    ensures Place(s, t).Reading? <==> Enabled(s, Decrement(t))
  {
  }

  // After an exchange the flag is set, whoever is inside, and the thread owns the lock
  // exactly if the flag was clear; the readers do not notice.
  lemma ExchangeEffect(s: State, t: Thread)
    requires Inv(s) && Enabled(s, Exchange(t))
    ensures var s' := Apply(s, Exchange(t));
            && s'.lock && (HasLock(Place(s', t)) <==> !s.lock)
            && (s.lock ==> Place(s', t).Idle?) && (!s.lock ==> Place(s', t).Draining?)
            && s'.reader == s.reader && Readers(s') == Readers(s) && PastTest(s') == PastTest(s)
  {
    ReadersAfter(s, Exchange(t));
  }

  // A draining writer gets in exactly if its load finds no reader, and unlocking clears
  // the flag.
  lemma WriterEffect(s: State, t: Thread)
    ensures Enabled(s, LoadReaders(t)) ==>
              var s' := Apply(s, LoadReaders(t));
              && (Place(s', t).Writing? <==> s.reader == 0) && (Place(s', t).Draining? <==> s.reader != 0)
              && s'.lock == s.lock && s'.reader == s.reader
    ensures Enabled(s, Unlock(t)) ==>
              var s' := Apply(s, Unlock(t));
              Place(s', t).Idle? && !s'.lock && s'.reader == s.reader
  {
  }

  // A reader gets past its test exactly if the flag is clear, then enters and leaves.
  lemma ReaderEffect(s: State, t: Thread)
    ensures Enabled(s, TestLock(t)) ==>
              var s' := Apply(s, TestLock(t));
              && (Place(s', t).Passed? <==> !s.lock) && (Place(s', t).Idle? <==> s.lock)
              && s'.lock == s.lock && s'.reader == s.reader
    ensures Enabled(s, Increment(t)) ==>
              var s' := Apply(s, Increment(t));
              Place(s', t).Reading? && s'.reader == s.reader + 1 && s'.lock == s.lock
    ensures Enabled(s, Decrement(t)) ==>
              var s' := Apply(s, Decrement(t));
              Place(s', t).Idle? && s'.reader == s.reader - 1 && s'.lock == s.lock
  {
  }

  // The flag after a run is what the last exchange or unlock left, and the counter has
  // gone up and down once for every reader that came and went.
  function FlagAfter(flag: bool, es: seq<Event>): bool
    decreases |es|
  {
    if es == [] then flag
    else FlagAfter(if es[0].Exchange? then true else if es[0].Unlock? then false else flag, es[1..])
  }

  function Entries(es: seq<Event>): int
  {
    if es == [] then 0
    else (if es[0].Increment? then 1 else if es[0].Decrement? then -1 else 0) + Entries(es[1..])
  }

  lemma {:induction false} RunAtomics(s: State, es: seq<Event>)
    requires IsRun(s, es)
    ensures After(s, es).lock == FlagAfter(s.lock, es)
    ensures After(s, es).reader == s.reader + Entries(es)
    decreases |es|
  {
    if es != [] {
      RunAtomics(Apply(s, es[0]), es[1..]);
    }
  }

  // From a won exchange to the unlock no reader gets past its test, and those that are
  // past it or inside make at most two steps and one step more.
  lemma DrainFromExchange(s: State, t: Thread, es: seq<Event>)
    requires Inv(s) && Enabled(s, Exchange(t)) && !s.lock
    requires IsRun(Apply(s, Exchange(t)), es) && forall i :: 0 <= i < |es| ==> !es[i].Unlock?
    ensures var z := After(Apply(s, Exchange(t)), es);
            && z.lock && HasLock(Place(Apply(s, Exchange(t)), t))
            && PastTest(z) <= PastTest(s) && Readers(z) <= Readers(s) + PastTest(s)
            && ReaderSteps(es) <= 2 * |PastTest(s)| + |Readers(s)|
  {
    ExchangeEffect(s, t);
    DrainBounded(Apply(s, Exchange(t)), es);
  }

  // The lock's two atomics, and its accesses in the order the code makes them. A spin
  // loop is any number of the rounds below.
  class SpinlockCells {
    var lock: int
    var reader: int
    ghost var state: State

    ghost predicate Valid()
      reads this
    {
      lock == (if state.lock then 1 else 0) && reader == state.reader && Inv(state)
    }

    constructor ()
      ensures Valid() && Init(state)
    {
      lock, reader := 0, 0;
      state := State(false, 0, map[], map[], 0);
      new;
      InitInv(state);
    }

    // lock_.exchange(1) == 0
    method Exchange(t: Thread) returns (won: bool)
      requires Valid() && Enabled(state, Event.Exchange(t))
      modifies this
      ensures Valid() && state == Apply(old(state), Event.Exchange(t))
      ensures lock == 1 && reader == old(reader)
      ensures won <==> old(lock) == 0
      ensures won <==> HasLock(Place(state, t))
    {
      StepKeeps(state, Event.Exchange(t));
      ExchangeEffect(state, t);
      won := lock == 0;
      lock := 1;
      state := Apply(state, Event.Exchange(t));
    }

    // reader_.load() == 0
    method LoadReaders(t: Thread) returns (none: bool)
      requires Valid() && Enabled(state, Event.LoadReaders(t))
      modifies this
      ensures Valid() && state == Apply(old(state), Event.LoadReaders(t))
      ensures none <==> Readers(old(state)) == {}
      ensures none <==> Place(state, t).Writing?
      ensures lock == old(lock) && reader == old(reader)
    {
      StepKeeps(state, Event.LoadReaders(t));
      none := reader == 0;
      state := Apply(state, Event.LoadReaders(t));
    }

    method Unlock(t: Thread)
      requires Valid() && Enabled(state, Event.Unlock(t))
      modifies this
      ensures Valid() && state == Apply(old(state), Event.Unlock(t))
      ensures lock == 0 && reader == old(reader) && Place(state, t).Idle?
    {
      StepKeeps(state, Event.Unlock(t));
      lock := 0;
      state := Apply(state, Event.Unlock(t));
    }

    // !lock_
    method Test(t: Thread) returns (open: bool)
      requires Valid() && Enabled(state, TestLock(t))
      modifies this
      ensures Valid() && state == Apply(old(state), TestLock(t))
      ensures open <==> old(lock) == 0
      ensures open <==> Place(state, t).Passed?
      ensures lock == old(lock) && reader == old(reader)
    {
      StepKeeps(state, TestLock(t));
      open := lock == 0;
      state := Apply(state, TestLock(t));
    }

    method Increment(t: Thread)
      requires Valid() && Enabled(state, Event.Increment(t))
      modifies this
      ensures Valid() && state == Apply(old(state), Event.Increment(t))
      ensures lock == old(lock) && reader == old(reader) + 1 && Place(state, t).Reading?
    {
      StepKeeps(state, Event.Increment(t));
      reader := reader + 1;
      state := Apply(state, Event.Increment(t));
    }

    method ReadUnlock(t: Thread)
      requires Valid() && Enabled(state, Decrement(t))
      modifies this
      ensures Valid() && state == Apply(old(state), Decrement(t))
      ensures lock == old(lock) && reader == old(reader) - 1 && Place(state, t).Idle?
    {
      StepKeeps(state, Decrement(t));
      reader := reader - 1;
      state := Apply(state, Decrement(t));
    }
  }
}
