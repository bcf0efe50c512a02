// The imperative form of SessionManager: its tables, the reaper's vector and the credit
// of each session, changed by the receive loop and by the sweep. Every method is a run of
// the state machine of module Sessions.
module SessionManager {
  import opened Memory
  import opened Sequences
  import opened Sessions
  import Packets
  import opened Receives
  import opened Sweeps

  lemma RunSnoc(st: State, es: seq<Event>, ev: Event)
    requires IsRun(st, es) && Enabled(After(st, es), ev)
    ensures IsRun(st, es + [ev]) && After(st, es + [ev]) == Apply(After(st, es), ev)
    decreases |es|
  {
    if es == [] {
      assert es + [ev] == [ev];
      assert [ev][1..] == [];
    } else {
      RunSnoc(Apply(st, es[0]), es[1..], ev);
      assert (es + [ev])[1..] == es[1..] + [ev];
    }
  }

  class SessionManager {
    var pendingSessions: map<Endpoint, Sid>
    var sessions: map<Endpoint, Sid>
    var isAlive: map<Sid, int>
    var disconnected: seq<int>
    var endpoints: seq<Endpoint>
    var posted: nat
    ghost var machine: State

    ghost predicate Matches(n: Net)
      reads this
    {
      && pendingSessions == n.pending && sessions == n.active && isAlive == n.credit
      && disconnected == n.doomed && endpoints == n.home
    }

    ghost function CreditOf(s: int): int
      reads this
    {
      if s >= 0 && s in isAlive then isAlive[s] else 0
    }

    ghost predicate Valid()
      reads this
    {
      Matches(machine.net) && Inv(machine)
    }

    constructor (workers: nat)
      ensures Valid() && machine == Start() && posted == workers
    {
      posted := workers;
      pendingSessions, sessions, isAlive := map[], map[], map[];
      disconnected, endpoints := [], [];
      machine := Start();
      new;
      StartInv();
    }

    // SYN: a new session, kept only if its endpoint is not yet a key.
    method OnSyn(e: Endpoint)
      requires Valid()
      modifies this`endpoints, this`isAlive, this`pendingSessions, this`machine
      ensures Valid() && machine == Apply(old(machine), Syn(e))
      ensures endpoints == old(endpoints) + [e] && isAlive == old(isAlive)[|old(endpoints)| := 0]
      ensures pendingSessions == (if e in old(pendingSessions) then old(pendingSessions)
                                  else old(pendingSessions)[e := |old(endpoints)|])
    {
      StepKeeps(machine, Syn(e));
      hide Inv;
      var s := |endpoints|;
      endpoints := endpoints + [e];
      isAlive := isAlive[s := 0];
      if e !in pendingSessions {
        pendingSessions := pendingSessions[e := s];
      }
      machine := Apply(machine, Syn(e));
    }

    // ACK: the pending session moves to the active table; false when there is none.
    method OnAck(e: Endpoint) returns (found: bool)
      requires Valid() && Enabled(machine, Ack(e))
      modifies this`pendingSessions, this`sessions, this`machine
      ensures Valid() && machine == Apply(old(machine), Ack(e))
      ensures found <==> e in old(pendingSessions)
      ensures pendingSessions == old(pendingSessions) - {e}
      ensures sessions == (if found && e !in old(sessions) then old(sessions)[e := old(pendingSessions)[e]]
                           else old(sessions))
    {
      PendingKnown(machine.net, e);
      StepKeeps(machine, Ack(e));
      hide Inv;
      found := e in pendingSessions;
      if found {
        var s := pendingSessions[e];
        pendingSessions := pendingSessions - {e};
        if endpoints[s] !in sessions {
          sessions := sessions[endpoints[s] := s];
        }
      }
      machine := Apply(machine, Ack(e));
    }

    // Heartbeat and data alike: look the session up, then raise its credit.
    method OnAlive(w: Worker, e: Endpoint) returns (found: bool, credit: int)
      requires Valid() && w !in machine.holding
      modifies this`isAlive, this`machine
      ensures Valid() && found == (e in old(machine).net.active)
      ensures found ==>
                var s := old(machine).net.active[e];
                && Enabled(old(machine), Lookup(w, e))
                && Enabled(Apply(old(machine), Lookup(w, e)), Increment(w, s))
                && machine == Apply(Apply(old(machine), Lookup(w, e)), Increment(w, s))
                && credit == Credit(machine.net, s) && credit > -2
      ensures found ==>
                && credit == old(CreditOf(sessions[e])) + 1
                && isAlive == old(isAlive)[sessions[e] := credit]
      ensures !found ==> machine == old(machine) && isAlive == old(isAlive)
    {
      found, credit := e in sessions, 0;
      if found {
        var s := sessions[e];
        ghost var held := Apply(machine, Lookup(w, e));
        StepKeeps(machine, Lookup(w, e));
        ActiveNotGone(machine, e);
        StepKeeps(held, Increment(w, s));
        DataGuardHolds(held, w, s);
        CreditKnown(machine, s);
        hide Inv;
        isAlive := isAlive[s := isAlive[s] + 1];
        credit := isAlive[s];
        machine := Apply(held, Increment(w, s));
      }
    }

    // One turn of the receive loop: a posted receive completes, with an error if `succ` is
    // false, and a new one is posted at the end of every turn that is not cut short.
    // `delivered` tells whether the packet handler is called.
    method OnDatagram(w: Worker, e: Endpoint, succ: bool, bytes: nat, buffer: seq<byte>)
      returns (kind: Packets.Kind, delivered: bool)
      requires Valid() && |buffer| == Packets.SOCKET_BUF_SIZE
      requires succ ==> Possible(Loop(machine, posted), Datagram(w, e, Packets.Classify(bytes, buffer)))
      requires !succ ==> Possible(Loop(machine, posted), Failed(w))
      modifies this
      ensures Valid() && kind == Packets.Classify(bytes, buffer)
      ensures Loop(machine, posted)
           == Take(Loop(old(machine), old(posted)), if succ then Datagram(w, e, kind) else Failed(w))
      ensures delivered <==> succ && Delivers(old(machine).net, Datagram(w, e, kind))
      ensures succ && (kind.Heartbeat? || kind.Data?) && e in old(sessions) ==>
                && isAlive == old(isAlive)[old(sessions)[e] := old(CreditOf(sessions[e])) + 1]
                && sessions == old(sessions) && pendingSessions == old(pendingSessions)
      ensures succ && kind.Syn? && e !in old(pendingSessions) ==>
                && pendingSessions == old(pendingSessions)[e := |old(endpoints)|]
                && endpoints == old(endpoints) + [e] && sessions == old(sessions)
      ensures succ && kind.Ack? && e in old(pendingSessions) && e !in old(sessions) ==>
                && sessions == old(sessions)[e := old(pendingSessions)[e]]
                && pendingSessions == old(pendingSessions) - {e} && isAlive == old(isAlive)
      ensures !succ || kind.TooShort? || kind.Other? ==>
                && sessions == old(sessions) && pendingSessions == old(pendingSessions)
                && isAlive == old(isAlive) && endpoints == old(endpoints)
      ensures disconnected == old(disconnected)
      ensures posted == old(posted) - (if || !succ || bytes < 4
                                          || (kind.Ack? && e !in old(pendingSessions))
                                          || ((kind.Heartbeat? || kind.Data?) && e !in old(sessions))
                                       then 1 else 0)
    {
      hide Inv, Apply;
      kind, delivered := Packets.Classify(bytes, buffer), false;
      posted := posted - 1;
      if !succ {
        return;
      }
      match kind {
        case TooShort =>
          return;
        case Syn =>
          OnSyn(e);
        case Ack =>
          var found := OnAck(e);
          if !found {
            return;
          }
        case Heartbeat =>
          var found, credit := OnAlive(w, e);
          if !found {
            return;
          }
        case Data =>
          var found, credit := OnAlive(w, e);
          if !found {
            return;
          }
          delivered := credit > -2;
        case Other =>
      }
      posted := posted + 1;
    }

    // The body of the sweep's first loop.
    method VisitAndTest(e: Endpoint)
      requires Valid() && Enabled(machine, Visit(e))
      modifies this`isAlive, this`disconnected, this`sessions, this`machine
      ensures Valid() && Enabled(Apply(old(machine), Visit(e)), Test(e))
      ensures machine == Apply(Apply(old(machine), Visit(e)), Test(e))
      ensures e in old(sessions) && isAlive == old(isAlive)[old(sessions)[e] := old(CreditOf(sessions[e])) - 1]
      ensures if old(CreditOf(sessions[e])) < 0
              then sessions == old(sessions) - {e} && disconnected == old(disconnected) + [old(sessions)[e]]
              else sessions == old(sessions) && disconnected == old(disconnected)
    {
      ghost var lowered := Apply(machine, Visit(e));
      VisitThenTest(machine, e);
      var s := sessions[e];
      CreditKnown(machine, s);
      hide Inv, ReapAt;
      isAlive := isAlive[s := isAlive[s] - 1];
      if isAlive[s] < -1 {
        disconnected := disconnected + [s];
        sessions := sessions - {e};
      }
      machine := Apply(lowered, Test(e));
    }

    // The body of the sweep's second loop.
    method ReapOne(i: nat) returns (next: nat)
      requires Valid() && Enabled(machine, Event.Reap) && machine.reaper == Reaping(i)
      modifies this`isAlive, this`disconnected, this`machine
      ensures Valid() && machine == Apply(old(machine), Event.Reap)
      ensures machine.reaper == Reaping(next) && machine.holding == old(machine).holding
      ensures next <= |disconnected| && |disconnected| - next < |old(disconnected)| - i
      ensures i < |old(disconnected)| && old(disconnected)[i] >= 0
      ensures isAlive == old(isAlive)[old(disconnected)[i] := old(CreditOf(disconnected[i])) - 1]
      ensures if old(CreditOf(disconnected[i])) == -2
              then next == i && disconnected == old(disconnected)[..i] + old(disconnected)[i + 1..]
              else next == i + 1 && disconnected == old(disconnected)
    {
      StepKeeps(machine, Event.Reap);
      var s := disconnected[i];
      CreditKnown(machine, s);
      hide Inv;
      isAlive := isAlive[s := isAlive[s] - 1];
      if isAlive[s] == -3 {
        disconnected := disconnected[..i] + disconnected[i + 1..];
        next := i;
      } else {
        next := i + 1;
      }
      machine := Apply(machine, Event.Reap);
    }

    // The first loop: every key of the table is visited and its session tested.
    method SweepTables(order: seq<Endpoint>) returns (ghost es: seq<Event>)
      requires Valid() && machine.reaper == Sweeping(Elems(order)) && Distinct(order)
      modifies this`isAlive, this`disconnected, this`sessions, this`machine
      ensures Valid() && machine.reaper == Sweeping({}) && machine.holding == old(machine).holding
      ensures IsRun(old(machine), es) && machine == After(old(machine), es) && EndSweeps(es) == 0
      ensures forall k :: 0 <= k < |es| ==> es[k].Visit? || es[k].Test?
    {
      hide Apply, Enabled, IsRun, After, Inv, Matches;
      ghost var start := machine;
      es := [];
      EmptyRun(start);
      assert order[0..] == order;
      for k := 0 to |order|
        invariant Valid() && IsRun(start, es) && machine == After(start, es) && Inv(start)
        invariant machine.reaper == Sweeping(Elems(order[k..]))
        invariant forall j :: 0 <= j < |es| ==> es[j].Visit? || es[j].Test?
        invariant EndSweeps(es) == 0 && machine.holding == start.holding
      {
        var e := order[k];
        TodoStep(machine, order, k);
        Note(start, es, Visit(e));
        es := es + [Visit(e)];
        VisitAndTest(e);
        Note(start, es, Test(e));
        es := es + [Test(e)];
      }
      assert order[|order|..] == [];
    }

    // The second loop: every session in the vector is lowered, and leaves it at -3.
    method SweepDisconnected() returns (ghost es: seq<Event>)
      requires Valid() && machine.reaper == Reaping(0)
      modifies this`isAlive, this`disconnected, this`machine
      ensures Valid() && machine.reaper == Reaping(|disconnected|)
      ensures machine.holding == old(machine).holding
      ensures IsRun(old(machine), es) && machine == After(old(machine), es) && EndSweeps(es) == 0
      ensures forall k :: 0 <= k < |es| ==> es[k].Reap?
    {
      hide Apply, IsRun, After, Inv;
      ghost var start := machine;
      es := [];
      EmptyRun(start);
      var i: nat := 0;
      while i < |disconnected|
        invariant 0 <= i <= |disconnected| && Inv(start)
        invariant Valid() && IsRun(start, es) && machine == After(start, es)
        invariant machine.reaper == Reaping(i)
        invariant forall k :: 0 <= k < |es| ==> es[k].Reap?
        invariant EndSweeps(es) == 0 && machine.holding == start.holding
        decreases |disconnected| - i
      {
        Note(start, es, Event.Reap);
        es := es + [Event.Reap];
        i := ReapOne(i);
      }
    }

    // One sweep of the reaper, undisturbed; `order` is the key order of the table. Every
    // session in the table is visited and tested once: at credit -1 it leaves the table and
    // is disconnected, else it loses one credit and stays. Those evicted before lose one
    // credit too, and are disconnected if it was -2.
    method Sweep(order: seq<Endpoint>) returns (ghost es: seq<Event>)
      requires Valid() && machine.reaper.Sleeping?
      requires Distinct(order) && Elems(order) == sessions.Keys
      modifies this`isAlive, this`disconnected, this`sessions, this`machine
      ensures Valid() && machine.reaper.Sleeping? && machine.holding == old(machine).holding
      ensures IsRun(old(machine), es) && machine == After(old(machine), es)
      ensures EndSweeps(es) == 1
      ensures forall e :: Visits(es, e) == One(e in old(sessions)) && Tests(es, e) == One(e in old(sessions))
      ensures forall e :: e in old(sessions) ==> (e in sessions <==> old(CreditOf(sessions[e])) != -1)
      ensures forall e :: e in sessions ==>
                && e in old(sessions) && sessions[e] == old(sessions)[e]
                && CreditOf(sessions[e]) == old(CreditOf(sessions[e])) - 1
      ensures forall e :: e in old(sessions) && e !in sessions ==> old(sessions)[e] in machine.net.gone
      ensures forall s: Sid :: s in old(disconnected) ==>
                && (s in machine.net.gone <==> old(CreditOf(s)) == -2)
                && (s !in machine.net.gone ==> s in disconnected && CreditOf(s) == old(CreditOf(s)) - 1)
    {
      hide IsRun, After, Inv, EndSweeps, Visits, Tests, Apply, Enabled;
      ghost var start := machine;
      Begin(start);
      ReaperTurns(machine);
      machine := Apply(machine, StartSweep);
      var first := SweepTables(order);
      RunJoin(start, [StartSweep], first);
      ReaperTurns(machine);
      Note(start, [StartSweep] + first, StartReaping);
      machine := Apply(machine, StartReaping);
      var second := SweepDisconnected();
      var upTo := [StartSweep] + first + [StartReaping];
      RunJoin(start, upTo, second);
      ReaperTurns(machine);
      Note(start, upTo + second, EndSweep);
      SweepMade(start, first, second);
      machine, es := Apply(machine, EndSweep), upTo + second + [EndSweep];
    }
  }

  // Where the reaper turns from one loop to the next.
  lemma ReaperTurns(m: State)
    ensures m.reaper.Sleeping? ==>
              Enabled(m, StartSweep) && Apply(m, StartSweep) == m.(reaper := Sweeping(m.net.active.Keys))
    ensures m.reaper == Sweeping({}) ==>
              Enabled(m, StartReaping) && Apply(m, StartReaping) == m.(reaper := Reaping(0))
    ensures m.reaper == Reaping(|m.net.doomed|) ==>
              Enabled(m, EndSweep) && Apply(m, EndSweep) == m.(reaper := Sleeping)
  {
  }

  // The record of a sweep's two loops is one whole sweep.
  lemma SweepMade(start: State, first: seq<Event>, second: seq<Event>)
    requires Inv(start) && start.reaper.Sleeping? && IsRun(Apply(start, StartSweep), first)
    requires Enabled(After(Apply(start, StartSweep), first), StartReaping)
    requires forall k :: 0 <= k < |first| ==> first[k].Visit? || first[k].Test?
    requires forall k :: 0 <= k < |second| ==> second[k].Reap?
    requires var body := [StartSweep] + first + [StartReaping] + second;
             IsRun(start, body) && Enabled(After(start, body), EndSweep)
    ensures var body := [StartSweep] + first + [StartReaping] + second;
            && SweepResult(start.net, After(start, body).net)
            && forall e ::
                 && Visits(body + [EndSweep], e) == One(e in start.net.active)
                 && Tests(body + [EndSweep], e) == One(e in start.net.active)
  {
    hide IsRun, After, Inv, Apply, Enabled;
    var body := [StartSweep] + first + [StartReaping] + second;
    SweepShape(first, second);
    assert IsSweep(start, body);
    WholeSweep(start, body);
    forall e: Endpoint
      ensures Visits(body + [EndSweep], e) == One(e in start.net.active)
      ensures Tests(body + [EndSweep], e) == One(e in start.net.active)
    {
      SweepVisitsAll(start, first, e);
      SweepCounts(first, second, e);
    }
  }

  lemma SweepShape(first: seq<Event>, second: seq<Event>)
    requires forall k :: 0 <= k < |first| ==> first[k].Visit? || first[k].Test?
    requires forall k :: 0 <= k < |second| ==> second[k].Reap?
    ensures var body := [StartSweep] + first + [StartReaping] + second;
            OnlyReaper(body) && body[0].StartSweep? && Starts(body) == 1
  {
    var body := [StartSweep] + first + [StartReaping] + second;
    var rest := body[1..];
    assert forall k :: 0 <= k < |rest| ==> !rest[k].StartSweep?;
    NoneStarts(rest);
  }

  lemma {:induction false} NoneStarts(es: seq<Event>)
    requires forall k :: 0 <= k < |es| ==> !es[k].StartSweep?
    ensures Starts(es) == 0
  {
    if es != [] {
      assert forall k :: 0 <= k < |es[1..]| ==> es[1..][k] == es[k + 1];
      NoneStarts(es[1..]);
    }
  }

  lemma SweepCounts(first: seq<Event>, second: seq<Event>, e: Endpoint)
    requires forall k :: 0 <= k < |second| ==> second[k].Reap?
    ensures var es := [StartSweep] + first + [StartReaping] + second + [EndSweep];
            Visits(es, e) == Visits(first, e) && Tests(es, e) == Tests(first, e)
  {
    var tail := [StartReaping] + second + [EndSweep];
    var es := [StartSweep] + first + [StartReaping] + second + [EndSweep];
    assert es == [StartSweep] + (first + tail);
    assert es[1..] == first + tail;
    CountsJoin(first, tail, e);
    NoCounts(tail, e);
  }

  lemma {:induction false} CountsJoin(es: seq<Event>, fs: seq<Event>, e: Endpoint)
    ensures Visits(es + fs, e) == Visits(es, e) + Visits(fs, e)
    ensures Tests(es + fs, e) == Tests(es, e) + Tests(fs, e)
    decreases |es|
  {
    if es == [] {
      assert es + fs == fs;
    } else {
      CountsJoin(es[1..], fs, e);
      assert (es + fs)[1..] == es[1..] + fs;
    }
  }

  lemma {:induction false} NoCounts(es: seq<Event>, e: Endpoint)
    requires forall k :: 0 <= k < |es| ==> !es[k].Visit? && !es[k].Test?
    ensures Visits(es, e) == 0 && Tests(es, e) == 0
  {
    if es != [] {
      assert forall k :: 0 <= k < |es[1..]| ==> es[1..][k] == es[k + 1];
      NoCounts(es[1..], e);
    }
  }

  lemma VisitThenTest(st: State, e: Endpoint)
    requires Inv(st) && Enabled(st, Visit(e))
    ensures var lowered := Apply(st, Visit(e));
            Enabled(lowered, Test(e)) && Inv(lowered) && Inv(Apply(lowered, Test(e)))
  {
    StepKeeps(st, Visit(e));
    StepKeeps(Apply(st, Visit(e)), Test(e));
  }

  lemma EmptyRun(st: State)
    ensures IsRun(st, []) && After(st, []) == st && EndSweeps([]) == 0
  {
  }

  lemma Begin(st: State)
    requires Inv(st) && st.reaper.Sleeping?
    ensures Enabled(st, StartSweep) && IsRun(st, [StartSweep])
    ensures After(st, [StartSweep]) == Apply(st, StartSweep)
    ensures EndSweeps([StartSweep]) == 0 && Inv(Apply(st, StartSweep))
  {
    assert [StartSweep][1..] == [];
    StepKeeps(st, StartSweep);
  }

  // Two runs one after the other make one run.
  lemma {:induction false} RunJoin(st: State, es: seq<Event>, fs: seq<Event>)
    requires IsRun(st, es) && IsRun(After(st, es), fs)
    ensures IsRun(st, es + fs) && After(st, es + fs) == After(After(st, es), fs)
    ensures EndSweeps(es + fs) == EndSweeps(es) + EndSweeps(fs)
    decreases |es|
  {
    if es == [] {
      assert es + fs == fs;
    } else {
      RunJoin(Apply(st, es[0]), es[1..], fs);
      assert (es + fs)[1..] == es[1..] + fs;
    }
  }

  // Appending an event the machine allows keeps the record of the run.
  lemma Note(start: State, es: seq<Event>, ev: Event)
    requires Inv(start) && IsRun(start, es) && Enabled(After(start, es), ev)
    ensures IsRun(start, es + [ev]) && After(start, es + [ev]) == Apply(After(start, es), ev)
    ensures Inv(After(start, es + [ev]))
    ensures EndSweeps(es + [ev]) == EndSweeps(es) + (if ev.EndSweep? then 1 else 0)
  {
    RunSnoc(start, es, ev);
    RunKeeps(start, es + [ev]);
    EndSweepsSnoc(es, ev);
  }

  lemma {:induction false} EndSweepsSnoc(es: seq<Event>, ev: Event)
    ensures EndSweeps(es + [ev]) == EndSweeps(es) + (if ev.EndSweep? then 1 else 0)
    decreases |es|
  {
    if es == [] {
      assert es + [ev] == [ev];
      assert [ev][1..] == [];
    } else {
      EndSweepsSnoc(es[1..], ev);
      assert (es + [ev])[1..] == es[1..] + [ev];
    }
  }

  // The k-th key is still to be visited, and the rest of the order is what remains.
  lemma TodoStep(st: State, order: seq<Endpoint>, k: nat)
    requires Inv(st) && k < |order| && Distinct(order)
    requires st.reaper == Sweeping(Elems(order[k..]))
    ensures Enabled(st, Visit(order[k])) && Enabled(Apply(st, Visit(order[k])), Test(order[k]))
    ensures var st' := Apply(Apply(st, Visit(order[k])), Test(order[k]));
            st'.reaper == Sweeping(Elems(order[k + 1..])) && st'.holding == st.holding
  {
    assert order[k..] == [order[k]] + order[k + 1..];
    assert order[k] in Elems(order[k..]);
    assert Elems(order[k + 1..]) == Elems(order[k..]) - {order[k]};
  }

  lemma PendingKnown(n: Net, e: Endpoint)
    requires TablesOk(n)
    ensures e in n.pending ==> n.pending[e] < |n.home| && n.home[n.pending[e]] == e
  {
  }

  lemma CreditKnown(st: State, s: int)
    requires Inv(st) && (s in st.net.doomed || exists e :: e in st.net.active && st.net.active[e] == s)
    ensures 0 <= s < |st.net.home| && s in st.net.credit && Credit(st.net, s) == st.net.credit[s]
  {
    if s in st.net.doomed {
      assert s >= 0;
      assert Places(st.net, s) >= 1;
    }
  }

  lemma ActiveNotGone(st: State, e: Endpoint)
    requires Inv(st) && e in st.net.active
    ensures st.net.active[e] !in st.net.gone
  {
    assert InActive(st.net, st.net.active[e]);
    PlacesExclude(st.net, st.net.active[e]);
  }
}
