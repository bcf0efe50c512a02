// What a sweep of the reaper does to every session, and which sweep evicts one.
module Sweeps {
  import opened Sequences
  import opened Sessions

  // The reaper is between the start of a sweep and its second loop.
  predicate MidSweep(st: State)
  {
    st.reaper.Sweeping? || st.reaper.Lowered?
  }

  // Endpoint e is still to be visited in the sweep under way.
  predicate Owed(st: State, e: Endpoint)
  {
    match st.reaper
    case Sweeping(todo) => e in todo
    case Lowered(_, todo) => e in todo
    case _ => false
  }

  predicate AboutToTest(st: State, e: Endpoint)
  {
    st.reaper.Lowered? && st.reaper.e == e
  }

  function Starts(es: seq<Event>): nat
  {
    if es == [] then 0 else (if es[0].StartSweep? then 1 else 0) + Starts(es[1..])
  }

  function Tests(es: seq<Event>, e: Endpoint): nat
  {
    if es == [] then 0 else (if es[0] == Test(e) then 1 else 0) + Tests(es[1..], e)
  }

  // ---------- a sweep visits the whole table ----------

  lemma {:induction false} RestOfSweep(st: State, es: seq<Event>, e: Endpoint)
    requires IsRun(st, es) && MidSweep(st) && Enabled(After(st, es), StartReaping)
    requires forall k :: 0 <= k < |es| ==> !es[k].StartReaping?
    requires AboutToTest(st, e) ==> !Owed(st, e)
    ensures Visits(es, e) == One(Owed(st, e))
    ensures Tests(es, e) == One(Owed(st, e)) + One(AboutToTest(st, e))
    decreases |es|
  {
    if es != [] {
      var st1 := Apply(st, es[0]);
      assert forall k :: 0 <= k < |es[1..]| ==> es[1..][k] == es[k + 1];
      assert !es[0].StartReaping?;
      SweepMoves(st, es[0], e);
      hide Apply, Enabled, Owed, AboutToTest, MidSweep;
      RestOfSweep(st1, es[1..], e);
    }
  }

  lemma SweepMoves(st: State, ev: Event, e: Endpoint)
    requires Enabled(st, ev) && MidSweep(st) && !ev.StartReaping?
    requires AboutToTest(st, e) ==> !Owed(st, e)
    ensures var st1 := Apply(st, ev);
            && MidSweep(st1) && (AboutToTest(st1, e) ==> !Owed(st1, e))
            && One(Owed(st, e)) == One(Owed(st1, e)) + (if ev.Visit? && ev.e == e then 1 else 0)
            && (One(Owed(st, e)) + One(AboutToTest(st, e))
                == One(Owed(st1, e)) + One(AboutToTest(st1, e)) + (if ev == Test(e) then 1 else 0))
  {
  }

  // In every sweep, whatever the workers do meanwhile, each endpoint in the table at its
  // start is visited and tested exactly once, and no other endpoint is.
  lemma SweepVisitsAll(st: State, es: seq<Event>, e: Endpoint)
    requires st.reaper.Sleeping? && IsRun(Apply(st, StartSweep), es)
    requires Enabled(After(Apply(st, StartSweep), es), StartReaping)
    requires forall k :: 0 <= k < |es| ==> !es[k].StartReaping?
    ensures Visits(es, e) == One(e in st.net.active)
    ensures Tests(es, e) == One(e in st.net.active)
  {
    RestOfSweep(Apply(st, StartSweep), es, e);
  }

  // ---------- credits of active sessions over runs ----------

  // While a session stays active, visits are sweeps: one for each that has started, but
  // for the one in which its turn is still to come.
  lemma {:induction false} ActiveAccount(st: State, es: seq<Event>, e: Endpoint, s: Sid)
    requires Inv(st) && IsRun(st, es) && e in st.net.active && st.net.active[e] == s
    requires InActive(After(st, es).net, s)
    ensures var z := After(st, es);
            && e in z.net.active && z.net.active[e] == s
            && Credit(z.net, s) == Credit(st.net, s) + Increments(es, s) - Visits(es, e)
            && Visits(es, e) + One(Owed(z, e)) == Starts(es) + One(Owed(st, e))
    decreases |es|
  {
    if es != [] {
      var st1 := Apply(st, es[0]);
      StepKeeps(st, es[0]);
      ActiveCredit(st, es[0], e, s);
      if s in st1.net.doomed {
        DoomedNotActive(st1, es[1..], s);
      } else {
        OwedStep(st, es[0], e);
        hide Inv, Apply, Enabled, Credit, Owed, InActive;
        ActiveAccount(st1, es[1..], e, s);
      }
    }
  }

  lemma OwedStep(st: State, ev: Event, e: Endpoint)
    requires Inv(st) && Enabled(st, ev) && e in st.net.active
    ensures (if ev == Visit(e) then 1 else 0) + One(Owed(Apply(st, ev), e))
         == (if ev.StartSweep? then 1 else 0) + One(Owed(st, e))
  {
  }

  // ---------- the sweep that evicts ----------

  // No worker raises the credit of s in the middle of a sweep.
  ghost predicate Quiet(st: State, es: seq<Event>, s: Sid)
    requires IsRun(st, es)
    decreases |es|
  {
    es == [] || (!(MidSweep(st) && es[0].Increment? && es[0].s == s) && Quiet(Apply(st, es[0]), es[1..], s))
  }

  // The session will outlive the sweep under way.
  predicate OutlivesThis(st: State, e: Endpoint, credit: int)
  {
    (Owed(st, e) ==> credit >= 0) && (AboutToTest(st, e) ==> credit >= -1)
  }

  // If a sweep starts at position k, the session has been credited before it at least as
  // often as there were sweeps before it.
  ghost predicate EnoughBefore(es: seq<Event>, k: nat, s: Sid, credit: int)
    requires k < |es|
  {
    es[k].StartSweep? ==> credit + Increments(es[..k], s) >= Starts(es[..k])
  }

  ghost predicate EnoughThroughout(es: seq<Event>, s: Sid, credit: int)
  {
    forall k :: 0 <= k < |es| ==> EnoughBefore(es, k, s, credit)
  }

  lemma BeforeShift(es: seq<Event>, k: nat, s: Sid, credit: int)
    requires 0 < k < |es|
    ensures EnoughBefore(es, k, s, credit)
       <==> EnoughBefore(es[1..], k - 1, s,
                         credit + (if es[0].Increment? && es[0].s == s then 1 else 0)
                         - (if es[0].StartSweep? then 1 else 0))
  {
    assert es[..k][1..] == es[1..][..k - 1];
  }

  // One event: what counts is the credit less the visit still owed.
  lemma DecidingStep(st: State, ev: Event, e: Endpoint, s: Sid)
    requires Inv(st) && Enabled(st, ev) && e in st.net.active && st.net.active[e] == s
    requires !(MidSweep(st) && ev.Increment? && ev.s == s)
    requires !(ev == Test(e) && Credit(st.net, s) < -1)
    ensures var (st1, c) := (Apply(st, ev), Credit(st.net, s));
            var c1 := Credit(st1.net, s);
            && e in st1.net.active && st1.net.active[e] == s
            && (c1 - One(Owed(st1, e))
                == c - One(Owed(st, e)) + (if ev.Increment? && ev.s == s then 1 else 0)
                   - (if ev.StartSweep? then 1 else 0))
            && (OutlivesThis(st1, e, c1)
                <==> OutlivesThis(st, e, c) && (ev.StartSweep? ==> c >= 0))
            && (ev.StartSweep? ==> !Owed(st, e) && !AboutToTest(st, e))
  {
    ActiveCredit(st, ev, e, s);
    OwedStep(st, ev, e);
    hide TablesOk, HeldOk, Credit, OnSyn, OnAck, ReapAt, AddCredit, Evict;
  }

  lemma {:induction false} SweepsDecide(st: State, es: seq<Event>, e: Endpoint, s: Sid)
    requires Inv(st) && IsRun(st, es) && e in st.net.active && st.net.active[e] == s
    requires Quiet(st, es, s) && !MidSweep(After(st, es))
    ensures InActive(After(st, es).net, s)
       <==> OutlivesThis(st, e, Credit(st.net, s))
            && EnoughThroughout(es, s, Credit(st.net, s) - One(Owed(st, e)))
    decreases |es|
  {
    var c := Credit(st.net, s);
    if es == [] {
      ActiveIs(st, e, s);
    } else {
      var (ev, rest) := (es[0], es[1..]);
      var st1 := Apply(st, ev);
      StepKeeps(st, ev);
      if ev == Test(e) && c < -1 {
        ActiveCredit(st, ev, e, s);
        DoomedNotActive(st1, rest, s);
      } else {
        DecidingStep(st, ev, e, s);
        hide Inv, Apply, Enabled, Credit, Owed, InActive, OutlivesThis, MidSweep, AboutToTest, EnoughThroughout;
        SweepsDecide(st1, rest, e, s);
        Shifted(es, s, c - One(Owed(st, e)), Credit(st1.net, s) - One(Owed(st1, e)));
      }
    }
  }

  lemma ActiveIs(st: State, e: Endpoint, s: Sid)
    requires Inv(st) && e in st.net.active && st.net.active[e] == s
    ensures InActive(st.net, s) && (!MidSweep(st) ==> OutlivesThis(st, e, Credit(st.net, s)))
  {
  }

  lemma Shifted(es: seq<Event>, s: Sid, d: int, d1: int)
    requires es != []
    requires d1 == d + (if es[0].Increment? && es[0].s == s then 1 else 0)
                   - (if es[0].StartSweep? then 1 else 0)
    ensures EnoughThroughout(es, s, d)
       <==> (es[0].StartSweep? ==> d >= 0) && EnoughThroughout(es[1..], s, d1)
  {
    assert es[..0] == [];
    assert EnoughBefore(es, 0, s, d) <==> (es[0].StartSweep? ==> d >= 0);
    forall k | 0 < k < |es|
      ensures EnoughBefore(es, k, s, d) <==> EnoughBefore(es[1..], k - 1, s, d1)
    {
      BeforeShift(es, k, s, d);
    }
    assert forall k :: 0 <= k < |es[1..]| ==>
      (EnoughBefore(es[1..], k, s, d1) <==> EnoughBefore(es, k + 1, s, d));
  }

  // With sweeps undisturbed: let m_j count the heartbeats and data datagrams of an active
  // session before the j-th sweep of a run. It is active at the end exactly if
  // credit + m_j >= j - 1 for every j; accepted with credit zero, it is evicted by the first
  // sweep with m_j <= j - 2 and by no other.
  lemma EvictedAtFirst(st: State, es: seq<Event>, e: Endpoint, s: Sid)
    requires Inv(st) && IsRun(st, es) && e in st.net.active && st.net.active[e] == s
    requires Quiet(st, es, s) && !MidSweep(st) && !MidSweep(After(st, es))
    ensures InActive(After(st, es).net, s) <==> EnoughThroughout(es, s, Credit(st.net, s))
  {
    SweepsDecide(st, es, e, s);
    ActiveIs(st, e, s);
  }

  // ---------- what one undisturbed sweep does ----------

  // The accesses of one sweep up to its last, with none of any worker in between.
  ghost predicate IsSweep(st: State, es: seq<Event>)
  {
    && st.reaper.Sleeping? && IsRun(st, es) && es != [] && es[0].StartSweep? && Starts(es) == 1
    && OnlyReaper(es) && Enabled(After(st, es), EndSweep)
  }

  // The reaper's accesses within one sweep.
  predicate OnlyReaper(es: seq<Event>)
  {
    forall k :: 0 <= k < |es| ==> ByReaper(es[k]) && !es[k].EndSweep?
  }

  lemma OnlyReaperTail(es: seq<Event>)
    requires OnlyReaper(es) && es != []
    ensures OnlyReaper(es[1..]) && ByReaper(es[0]) && !es[0].EndSweep?
  {
    assert forall k :: 0 <= k < |es[1..]| ==> es[1..][k] == es[k + 1];
  }

  // What the reaper never changes; it only removes from the active table.
  predicate Untouched(n: Net, z: Net)
  {
    && z.pending == n.pending && z.home == n.home && z.accepted == n.accepted
    && forall e :: e in z.active ==> e in n.active && z.active[e] == n.active[e]
  }

  lemma UntouchedStep(st: State, ev: Event)
    requires Inv(st) && Enabled(st, ev) && ByReaper(ev)
    ensures Untouched(st.net, Apply(st, ev).net) && Apply(st, ev).holding == st.holding
  {
  }

  lemma {:induction false} ReaperRun(st: State, es: seq<Event>, s: Sid)
    requires Inv(st) && IsRun(st, es) && OnlyReaper(es)
    ensures var z := After(st, es);
            Untouched(st.net, z.net) && z.holding == st.holding && Inv(z)
    ensures Increments(es, s) == 0 && EndSweeps(es) == 0 && Quiet(st, es, s)
    decreases |es|
  {
    if es != [] {
      hide Inv, Apply, Enabled, MidSweep;
      OnlyReaperTail(es);
      StepKeeps(st, es[0]);
      UntouchedStep(st, es[0]);
      ReaperRun(Apply(st, es[0]), es[1..], s);
    }
  }

  // A sweep disconnects a session of the vector only if its credit was -2 and its turn
  // still to come.
  lemma {:induction false} ReapedOnce(st: State, es: seq<Event>, s: Sid)
    requires Inv(st) && IsRun(st, es) && OnlyReaper(es) && s in st.net.doomed
    requires s in After(st, es).net.gone
    ensures Credit(st.net, s) == -2 && !Passed(st, s)
    decreases |es|
  {
    DoomedFacts(st, s);
    if es != [] {
      var (ev, st1) := (es[0], Apply(st, es[0]));
      OnlyReaperTail(es);
      StepKeeps(st, ev);
      DoomedOrGone(st, ev, s);
      if s in st1.net.doomed {
        CreditAndPassing(st, ev, s);
        hide Inv, Apply, Enabled, Passed, Credit;
        ReapedOnce(st1, es[1..], s);
      } else {
        GoneAtMinusTwo(st, ev, s);
      }
    }
  }

  lemma DoomedFacts(st: State, s: Sid)
    requires Inv(st) && s in st.net.doomed
    ensures Credit(st.net, s) >= -2 && s !in st.net.gone
  {
    PlacesExclude(st.net, s);
  }

  lemma GoneAtMinusTwo(st: State, ev: Event, s: Sid)
    requires Inv(st) && Enabled(st, ev) && s in st.net.doomed && s !in Apply(st, ev).net.doomed
    ensures Credit(st.net, s) == -2 && !Passed(st, s)
  {
    if ev.Reap? {
      RemoveAt(st.net.doomed, st.reaper.i);
      MinusThreeNotSkipped(st);
    }
  }

  lemma PassedAtEnd(st: State, s: Sid)
    requires Inv(st) && Enabled(st, EndSweep) && s in st.net.doomed
    ensures Passed(st, s) && Credit(st.net, s) >= -2
  {
    var k :| 0 <= k < |st.net.doomed| && st.net.doomed[k] == s;
  }

  lemma SameHolders(st: State, z: State, s: Sid)
    requires z.holding == st.holding
    ensures Holders(z, s) == Holders(st, s)
  {
  }

  // What is left of a sweep disconnects a session of the vector exactly if its credit is
  // -2, and lowers it by one otherwise.
  lemma RestReaps(st: State, es: seq<Event>, s: Sid)
    requires Inv(st) && IsRun(st, es) && OnlyReaper(es) && Enabled(After(st, es), EndSweep)
    requires s in st.net.doomed && !Passed(st, s)
    ensures var z := After(st, es);
            && (s in z.net.gone <==> Credit(st.net, s) == -2)
            && (s !in z.net.gone ==> s in z.net.doomed && Credit(z.net, s) == Credit(st.net, s) - 1)
  {
    hide Inv, Enabled, Passed, Credit, Holders;
    var z := After(st, es);
    ReaperRun(st, es, s);
    SameHolders(st, z, s);
    DebtRun(st, es, s);
    if s in z.net.gone {
      ReapedOnce(st, es, s);
    } else {
      PassedAtEnd(z, s);
    }
  }

  // An active session that a sweep evicts is disconnected by the same sweep.
  lemma {:induction false} EvictedIsGone(st: State, es: seq<Event>, e: Endpoint, s: Sid)
    requires Inv(st) && IsRun(st, es) && OnlyReaper(es) && Enabled(After(st, es), EndSweep)
    requires e in st.net.active && st.net.active[e] == s && !InActive(After(st, es).net, s)
    ensures s in After(st, es).net.gone
    decreases |es|
  {
    if es == [] {
      ActiveIs(st, e, s);
    } else {
      var st1 := Apply(st, es[0]);
      OnlyReaperTail(es);
      StepKeeps(st, es[0]);
      ActiveCredit(st, es[0], e, s);
      if s in st1.net.doomed {
        JustEvicted(st, es[0], e, s);
        RestReaps(st1, es[1..], s);
      } else {
        hide Inv, Apply, Enabled, Credit, InActive;
        EvictedIsGone(st1, es[1..], e, s);
      }
    }
  }

  lemma JustEvicted(st: State, ev: Event, e: Endpoint, s: Sid)
    requires Inv(st) && Enabled(st, ev) && e in st.net.active && st.net.active[e] == s
    requires s in Apply(st, ev).net.doomed
    ensures Credit(Apply(st, ev).net, s) == -2 && !Passed(Apply(st, ev), s)
  {
    ActiveIs(st, e, s);
    PlacesExclude(st.net, s);
    if ev.Reap? {
      RemoveAt(st.net.doomed, st.reaper.i);
    }
  }

  lemma SweptActive(st: State, es: seq<Event>, e: Endpoint)
    requires Inv(st) && IsSweep(st, es) && e in st.net.active
    ensures var (z, s) := (After(st, es), st.net.active[e]);
            && (e in z.net.active <==> Credit(st.net, s) != -1)
            && (e in z.net.active ==> z.net.active[e] == s && Credit(z.net, s) == Credit(st.net, s) - 1)
            && (e !in z.net.active ==> s in z.net.gone)
  {
    var (z, s) := (After(st, es), st.net.active[e]);
    ReaperRun(st, es, s);
    EvictedAtFirst(st, es, e, s);
    OneStart(es, s, Credit(st.net, s));
    StillKeyed(st, z, e, s);
    hide Inv, Apply, Enabled, Credit, InActive, EnoughThroughout, Untouched;
    if InActive(z.net, s) {
      ActiveAccount(st, es, e, s);
    } else {
      EvictedIsGone(st, es, e, s);
    }
  }

  lemma StillKeyed(st: State, z: State, e: Endpoint, s: Sid)
    requires Inv(st) && Inv(z) && Untouched(st.net, z.net) && e in st.net.active && st.net.active[e] == s
    ensures InActive(z.net, s) <==> e in z.net.active
    ensures st.reaper.Sleeping? ==> Credit(st.net, s) >= -1
  {
  }

  lemma OneStart(es: seq<Event>, s: Sid, credit: int)
    requires es != [] && es[0].StartSweep? && Starts(es) == 1
    ensures EnoughThroughout(es, s, credit) <==> credit >= 0
  {
    NoStarts(es[1..]);
    assert es[..0] == [];
    assert EnoughBefore(es, 0, s, credit) <==> credit >= 0;
    assert forall k :: 0 < k < |es| ==> es[k] == es[1..][k - 1];
  }

  lemma {:induction false} NoStarts(es: seq<Event>)
    requires Starts(es) == 0
    ensures forall k :: 0 <= k < |es| ==> !es[k].StartSweep?
  {
    if es != [] {
      NoStarts(es[1..]);
      assert forall k :: 0 < k < |es| ==> es[k] == es[1..][k - 1];
    }
  }

  // What becomes of each session: an active one with credit -1 is evicted and
  // disconnected, any other is lowered by one and stays; one that was evicted before is
  // disconnected at credit -2 and lowered by one otherwise.
  ghost predicate SweepResult(n: Net, z: Net)
  {
    && (forall e :: e in z.active ==>
          e in n.active && z.active[e] == n.active[e]
          && Credit(z, n.active[e]) == Credit(n, n.active[e]) - 1)
    && (forall e :: e in n.active ==>
          (e in z.active <==> Credit(n, n.active[e]) != -1) && (e !in z.active ==> n.active[e] in z.gone))
    && (forall s: Sid :: s in n.doomed ==>
          && (s in z.gone <==> Credit(n, s) == -2)
          && (s !in z.gone ==> s in z.doomed && Credit(z, s) == Credit(n, s) - 1))
  }

  // One undisturbed sweep, session by session; no worker loses its session and nothing
  // else changes.
  lemma WholeSweep(st: State, es: seq<Event>)
    requires Inv(st) && IsSweep(st, es)
    ensures var z := After(st, es);
            Inv(z) && Untouched(st.net, z.net) && z.holding == st.holding && SweepResult(st.net, z.net)
  {
    ReaperRun(st, es, 0);
    var z := After(st, es);
    forall e | e in st.net.active
      ensures var s := st.net.active[e];
              && (e in z.net.active <==> Credit(st.net, s) != -1)
              && (e in z.net.active ==> Credit(z.net, s) == Credit(st.net, s) - 1)
              && (e !in z.net.active ==> s in z.net.gone)
    {
      SweptActive(st, es, e);
    }
    forall s: Sid | s in st.net.doomed
      ensures (s in z.net.gone <==> Credit(st.net, s) == -2)
      ensures s !in z.net.gone ==> s in z.net.doomed && Credit(z.net, s) == Credit(st.net, s) - 1
    {
      RestReaps(st, es, s);
    }
  }
}
