// The UDP session tables: handshake by SYN and ACK, a credit that heartbeats and data
// raise, and a reaper that lowers it, evicts and finally disconnects. Handlers are one
// step for the tables; looking a session up and raising its credit are two, and so are
// the reaper's decrement and its test.
module Sessions {
  import opened Sequences

  type Endpoint = int
  type Worker = nat

  // Sessions are numbered in order of creation; home lists their endpoints.
  type Sid = nat

  // pending, active, doomed and credit are pending_sessions_, sessions_, the reaper's
  // vector and is_alive_. The rest is history: the accept handler's calls with the ACK's
  // source, the disconnect handler's calls, and the sessions an insert left out because
  // their endpoint was already a key.
  datatype Net = Net(
    pending: map<Endpoint, Sid>, active: map<Endpoint, Sid>, doomed: seq<int>, credit: map<Sid, int>,
    home: seq<Endpoint>, accepted: seq<(Sid, Endpoint)>, gone: seq<int>,
    droppedSyn: set<Sid>, droppedAck: set<Sid>)

  // The reaper sleeps, has still to visit the endpoints in todo, has lowered the credit
  // of one and not yet tested it, or stands at an index of its vector.
  datatype Reaper =
    | Sleeping
    | Sweeping(todo: set<Endpoint>)
    | Lowered(e: Endpoint, todo: set<Endpoint>)
    | Reaping(i: nat)

  datatype State = State(net: Net, reaper: Reaper, holding: map<Worker, Sid>)

  datatype Event =
    | Syn(e: Endpoint)
    | Ack(e: Endpoint)
    | Lookup(w: Worker, e: Endpoint)
    | Increment(w: Worker, s: Sid)
    | StartSweep
    | Visit(e: Endpoint)
    | Test(e: Endpoint)
    | StartReaping
    | Reap
    | EndSweep

  // ---------- what the handlers and the reaper do ----------

  function OnSyn(n: Net, e: Endpoint): Net
  {
    var s := |n.home|;
    var n1 := n.(home := n.home + [e], credit := n.credit[s := 0]);
    if e in n.pending then n1.(droppedSyn := n.droppedSyn + {s})
    else n1.(pending := n.pending[e := s])
  }

  function OnAck(n: Net, e: Endpoint): Net
  {
    if e !in n.pending then n
    else
      var s := n.pending[e];
      var key := if s < |n.home| then n.home[s] else e;
      var n1 := n.(pending := n.pending - {e}, accepted := n.accepted + [(s, e)]);
      if key in n.active then n1.(droppedAck := n.droppedAck + {s})
      else n1.(active := n.active[key := s])
  }

  function Credit(n: Net, s: int): int
  {
    if s >= 0 && s in n.credit then n.credit[s] else 0
  }

  function AddCredit(n: Net, s: int, d: int): Net
  {
    if s >= 0 then n.(credit := n.credit[s := Credit(n, s) + d]) else n
  }

  function Evict(n: Net, e: Endpoint): Net
    requires e in n.active
  {
    n.(doomed := n.doomed + [n.active[e]], active := n.active - {e})
  }

  // The second loop of the reaper at index i: lower, and disconnect at exactly -3.
  function ReapAt(n: Net, i: nat): (Net, nat)
    requires i < |n.doomed|
  {
    var s := n.doomed[i];
    var n1 := AddCredit(n, s, -1);
    if Credit(n1, s) == -3
    then (n1.(doomed := n.doomed[..i] + n.doomed[i + 1..], gone := n.gone + [s]), i)
    else (n1, i + 1)
  }

  // A worker inserts into sessions_ only while the reaper does not hold its lock.
  predicate Enabled(st: State, ev: Event)
  {
    match ev
    case Syn(e) => true
    case Ack(e) => st.reaper.Sleeping? || st.reaper.Reaping?
    case Lookup(w, e) => w !in st.holding
    case Increment(w, s) => w in st.holding && st.holding[w] == s
    case StartSweep => st.reaper.Sleeping?
    case Visit(e) => st.reaper.Sweeping? && e in st.reaper.todo && e in st.net.active
    case Test(e) => st.reaper.Lowered? && st.reaper.e == e && e in st.net.active
    case StartReaping => st.reaper.Sweeping? && st.reaper.todo == {}
    case Reap => st.reaper.Reaping? && st.reaper.i < |st.net.doomed|
    case EndSweep => st.reaper.Reaping? && st.reaper.i >= |st.net.doomed|
  }

  predicate ByReaper(ev: Event)
  {
    ev.StartSweep? || ev.Visit? || ev.Test? || ev.StartReaping? || ev.Reap? || ev.EndSweep?
  }

  function Apply(st: State, ev: Event): State
    requires Enabled(st, ev)
  {
    var n := st.net;
    match ev
    case Syn(e) => st.(net := OnSyn(n, e))
    case Ack(e) => st.(net := OnAck(n, e))
    case Lookup(w, e) =>
      if e in n.active then st.(holding := st.holding[w := n.active[e]]) else st
    case Increment(w, s) => st.(net := AddCredit(n, s, 1), holding := st.holding - {w})
    case StartSweep => st.(reaper := Sweeping(n.active.Keys))
    case Visit(e) =>
      st.(net := AddCredit(n, n.active[e], -1), reaper := Lowered(e, st.reaper.todo - {e}))
    case Test(e) =>
      var st1 := st.(reaper := Sweeping(st.reaper.todo));
      if Credit(n, n.active[e]) < -1 then st1.(net := Evict(n, e)) else st1
    case StartReaping => st.(reaper := Reaping(0))
    case Reap =>
      var (n1, i1) := ReapAt(n, st.reaper.i);
      st.(net := n1, reaper := Reaping(i1))
    case EndSweep => st.(reaper := Sleeping)
  }

  ghost predicate IsRun(st: State, es: seq<Event>)
    decreases |es|
  {
    es == [] || (Enabled(st, es[0]) && IsRun(Apply(st, es[0]), es[1..]))
  }

  ghost function After(st: State, es: seq<Event>): State
    requires IsRun(st, es)
    decreases |es|
  {
    if es == [] then st else After(Apply(st, es[0]), es[1..])
  }

  function Start(): State
  {
    State(Net(map[], map[], [], map[], [], [], [], {}, {}), Sleeping, map[])
  }

  // ---------- where a session is ----------

  predicate InPending(n: Net, s: Sid)
  {
    s < |n.home| && n.home[s] in n.pending && n.pending[n.home[s]] == s
  }

  predicate InActive(n: Net, s: Sid)
  {
    s < |n.home| && n.home[s] in n.active && n.active[n.home[s]] == s
  }

  function One(b: bool): nat
  {
    if b then 1 else 0
  }

  function Places(n: Net, s: Sid): nat
  {
    One(InPending(n, s)) + One(InActive(n, s)) + One(s in n.doomed) + One(s in n.gone)
    + One(s in n.droppedSyn) + One(s in n.droppedAck)
  }

  predicate WasAccepted(n: Net, s: Sid)
  {
    exists k :: 0 <= k < |n.accepted| && n.accepted[k].0 == s
  }

  // In the active table, or evicted from it, or disconnected.
  predicate Tracked(n: Net, s: Sid)
  {
    InActive(n, s) || s in n.doomed || s in n.gone
  }

  // A key is the endpoint of the session it leads to.
  ghost predicate Keyed(n: Net, m: map<Endpoint, Sid>)
  {
    forall e :: e in m ==> m[e] < |n.home| && n.home[m[e]] == e
  }

  // Every session created is in exactly one place, every other number in none.
  ghost predicate Conserved(n: Net)
  {
    && Keyed(n, n.pending) && Keyed(n, n.active)
    && (forall s: Sid :: s < |n.home| ==> s in n.credit)
    && (forall s: Sid :: s < |n.home| ==> Places(n, s) == 1)
    && (forall s: Sid :: s >= |n.home| ==> Places(n, s) == 0)
    && Distinct(n.doomed) && Distinct(n.gone)
    && (forall s :: s in n.doomed || s in n.gone ==> s >= 0)
  }

  // The accept handler ran once for each session that has left the pending table by an
  // ACK, and that ACK came from the endpoint whose SYN created the session.
  ghost predicate AcceptedOnce(n: Net)
  {
    && (forall j, k :: 0 <= j < k < |n.accepted| ==> n.accepted[j].0 != n.accepted[k].0)
    && (forall k :: 0 <= k < |n.accepted| ==>
          n.accepted[k].0 < |n.home| && n.home[n.accepted[k].0] == n.accepted[k].1)
    && (forall s: Sid :: WasAccepted(n, s) <==> Tracked(n, s) || s in n.droppedAck)
  }

  ghost predicate TablesOk(n: Net)
  {
    Conserved(n) && AcceptedOnce(n)
  }

  // What the credits and the reaper's position guarantee.
  ghost predicate CreditsOk(st: State)
  {
    var n := st.net;
    && (forall s: Sid :: InPending(n, s) ==> Credit(n, s) == 0)
    && (forall e :: e in n.active ==>
          Credit(n, n.active[e]) >= (if st.reaper.Lowered? && st.reaper.e == e then -2 else -1))
    && (forall s :: s in n.doomed ==> Credit(n, s) >= -2)
    && (st.reaper.Sweeping? ==> st.reaper.todo <= n.active.Keys)
    && (st.reaper.Lowered? ==>
          st.reaper.todo <= n.active.Keys && st.reaper.e in n.active && st.reaper.e !in st.reaper.todo)
    && (st.reaper.Reaping? ==> st.reaper.i <= |n.doomed|)
  }

  // A worker holds only sessions it found in the active table.
  ghost predicate HeldOk(st: State)
  {
    forall w :: w in st.holding ==> Tracked(st.net, st.holding[w])
  }

  ghost predicate Inv(st: State)
  {
    TablesOk(st.net) && CreditsOk(st) && HeldOk(st)
  }

  lemma StartInv()
    ensures Inv(Start())
  {
  }

  // ---------- the tables ----------

  lemma SynPlaces(n: Net, e: Endpoint, s: Sid)
    requires Conserved(n)
    ensures s != |n.home| ==>
              Places(OnSyn(n, e), s) == Places(n, s) && Tracked(OnSyn(n, e), s) == Tracked(n, s)
    ensures Places(OnSyn(n, e), |n.home|) == 1 && !Tracked(OnSyn(n, e), |n.home|)
    ensures !Tracked(n, |n.home|) && |n.home| !in n.droppedAck
  {
    assert Places(n, |n.home|) == 0;
  }

  lemma SynTables(n: Net, e: Endpoint)
    requires TablesOk(n)
    ensures TablesOk(OnSyn(n, e))
  {
    var n' := OnSyn(n, e);
    assert forall s: Sid :: WasAccepted(n', s) <==> WasAccepted(n, s);
    hide Places, Tracked;
    forall s: Sid
      ensures s != |n.home| ==> Places(n', s) == Places(n, s) && Tracked(n', s) == Tracked(n, s)
      ensures Places(n', |n.home|) == 1 && !Tracked(n', |n.home|)
      ensures !Tracked(n, |n.home|) && |n.home| !in n.droppedAck
    {
      SynPlaces(n, e, s);
    }
  }

  // The acknowledged session leaves the pending table for the active one, or is dropped;
  // every other session stays where it is.
  lemma AckPlaces(n: Net, e: Endpoint, s: Sid)
    requires Conserved(n) && e in n.pending
    ensures s != n.pending[e] ==>
              Places(OnAck(n, e), s) == Places(n, s) && InActive(OnAck(n, e), s) == InActive(n, s)
    ensures s == n.pending[e] ==>
              && Places(n, s) == 1 && Places(OnAck(n, e), s) == 1 && s < |n.home|
              && (InActive(OnAck(n, e), s) || s in OnAck(n, e).droppedAck) && !Tracked(n, s)
  {
    var s0 := n.pending[e];
    assert InPending(n, s0) && Places(n, s0) == 1;
  }

  lemma AckConserves(n: Net, e: Endpoint)
    requires Conserved(n) && e in n.pending
    ensures Conserved(OnAck(n, e))
  {
    var n' := OnAck(n, e);
    hide Places;
    forall s: Sid
      ensures Places(n', s) == Places(n, s)
    {
      AckPlaces(n, e, s);
    }
  }

  lemma AckAccepts(n: Net, e: Endpoint)
    requires TablesOk(n) && e in n.pending
    ensures AcceptedOnce(OnAck(n, e))
  {
    var n' := OnAck(n, e);
    var s0 := n.pending[e];
    AcceptedAfterAck(n, n', s0, e);
    AckPlaces(n, e, s0);
    NotYetAccepted(n, s0);
    hide Places, Conserved;
    forall s: Sid
      ensures WasAccepted(n', s) <==> Tracked(n', s) || s in n'.droppedAck
    {
      AckPlaces(n, e, s) by {
        assert Conserved(n);
      }
    }
  }

  lemma NotYetAccepted(n: Net, s: Sid)
    requires TablesOk(n) && InPending(n, s)
    ensures forall k :: 0 <= k < |n.accepted| ==> n.accepted[k].0 != s
  {
    assert Places(n, s) == 1;
    assert !WasAccepted(n, s);
  }

  lemma AckTables(n: Net, e: Endpoint)
    requires TablesOk(n)
    ensures TablesOk(OnAck(n, e))
  {
    if e in n.pending {
      AckConserves(n, e);
      AckAccepts(n, e);
    }
  }

  lemma AcceptedAfterAck(n: Net, n': Net, s0: Sid, e: Endpoint)
    requires n'.accepted == n.accepted + [(s0, e)]
    ensures forall s: Sid :: WasAccepted(n', s) <==> WasAccepted(n, s) || s == s0
  {
    forall s: Sid
      ensures WasAccepted(n', s) <==> WasAccepted(n, s) || s == s0
    {
      if WasAccepted(n, s) {
        var k :| 0 <= k < |n.accepted| && n.accepted[k].0 == s;
        assert n'.accepted[k].0 == s;
      }
      assert n'.accepted[|n.accepted|] == (s0, e);
    }
  }

  lemma CreditTables(n: Net, s0: int, d: int)
    requires TablesOk(n)
    ensures TablesOk(AddCredit(n, s0, d))
    ensures forall s: Sid :: Places(AddCredit(n, s0, d), s) == Places(n, s)
  {
    var n' := AddCredit(n, s0, d);
    assert forall s: Sid :: WasAccepted(n', s) <==> WasAccepted(n, s);
    assert forall s: Sid :: Places(n', s) == Places(n, s) && InActive(n', s) == InActive(n, s);
  }

  lemma EvictTables(n: Net, e: Endpoint)
    requires TablesOk(n) && e in n.active
    ensures TablesOk(Evict(n, e))
  {
    var n' := Evict(n, e);
    var s0 := n.active[e];
    assert InActive(n, s0) && Places(n, s0) == 1;
    assert n'.doomed[|n.doomed|] == s0;
    assert forall s :: s in n'.doomed <==> s in n.doomed || s == s0;
    forall s: Sid | s != s0
      ensures Places(n', s) == Places(n, s) && InActive(n', s) == InActive(n, s)
    {
    }
    assert Places(n', s0) == 1;
    assert forall s: Sid :: WasAccepted(n', s) <==> WasAccepted(n, s);
  }

  lemma RemoveAt(s: seq<int>, i: nat)
    requires Distinct(s) && i < |s|
    ensures var r := s[..i] + s[i + 1..];
            Distinct(r) && forall x :: x in r <==> x in s && x != s[i]
  {
    var r := s[..i] + s[i + 1..];
    assert forall k :: 0 <= k < |r| ==> r[k] == if k < i then s[k] else s[k + 1];
    forall x | x in s && x != s[i]
      ensures x in r
    {
      var k :| 0 <= k < |s| && s[k] == x;
      assert r[if k < i then k else k - 1] == x;
    }
  }

  lemma ReapTables(n: Net, i: nat)
    requires TablesOk(n) && i < |n.doomed|
    ensures TablesOk(ReapAt(n, i).0)
  {
    var s0 := n.doomed[i];
    var n1 := AddCredit(n, s0, -1);
    CreditTables(n, s0, -1);
    if Credit(n1, s0) == -3 {
      var n' := ReapAt(n, i).0;
      RemoveAt(n.doomed, i);
      assert Places(n, s0) == 1;
      assert n'.gone[|n.gone|] == s0;
      assert forall s :: s in n'.gone <==> s in n.gone || s == s0;
      forall s: Sid | s != s0
        ensures Places(n', s) == Places(n1, s) && InActive(n', s) == InActive(n1, s)
      {
      }
      assert Places(n', s0) == 1;
      assert forall s: Sid :: WasAccepted(n', s) <==> WasAccepted(n1, s);
    }
  }

  lemma TablesKept(st: State, ev: Event)
    requires TablesOk(st.net) && Enabled(st, ev)
    ensures TablesOk(Apply(st, ev).net)
  {
    hide TablesOk, OnSyn, OnAck, AddCredit, Evict, ReapAt;
    match ev
    case Syn(e) => SynTables(st.net, e);
    case Ack(e) => AckTables(st.net, e);
    case Lookup(_, _) =>
    case Increment(_, s) => CreditTables(st.net, s, 1);
    case StartSweep =>
    case Visit(e) => CreditTables(st.net, st.net.active[e], -1);
    case Test(e) => EvictTables(st.net, e);
    case StartReaping =>
    case Reap => ReapTables(st.net, st.reaper.i);
    case EndSweep =>
  }

  // ---------- credits ----------

  // The places exclude each other.
  lemma PlacesExclude(n: Net, s: Sid)
    requires Conserved(n)
    ensures InPending(n, s) ==> !InActive(n, s) && s !in n.doomed && s !in n.gone
    ensures InActive(n, s) ==> s !in n.doomed && s !in n.gone
    ensures s in n.doomed ==> s !in n.gone
  {
    assert Places(n, s) <= 1;
  }

  lemma ActiveApart(n: Net, e: Endpoint, f: Endpoint)
    requires Conserved(n) && e in n.active && f in n.active && e != f
    ensures n.active[e] != n.active[f]
    ensures InActive(n, n.active[e])
  {
  }

  lemma IncrementCredits(st: State, w: Worker, s0: Sid)
    requires Inv(st) && Enabled(st, Increment(w, s0))
    ensures CreditsOk(Apply(st, Increment(w, s0)))
  {
    var n' := Apply(st, Increment(w, s0)).net;
    PlacesExclude(st.net, s0);
    assert forall s: int :: s != s0 ==> Credit(n', s) == Credit(st.net, s);
    assert forall s: Sid :: InPending(n', s) == InPending(st.net, s);
  }

  lemma VisitCredits(st: State, e: Endpoint)
    requires Inv(st) && Enabled(st, Visit(e))
    ensures CreditsOk(Apply(st, Visit(e)))
  {
    var n := st.net;
    var st' := Apply(st, Visit(e));
    var s0 := n.active[e];
    assert InActive(n, s0);
    PlacesExclude(n, s0);
    assert forall s: int :: s != s0 ==> Credit(st'.net, s) == Credit(n, s);
    assert forall s: Sid :: InPending(st'.net, s) == InPending(n, s);
    forall f | f in n.active && f != e
      ensures n.active[f] != s0
    {
      ActiveApart(n, e, f);
    }
  }

  lemma ReapCredits(st: State)
    requires Inv(st) && Enabled(st, Reap)
    ensures CreditsOk(Apply(st, Reap))
  {
    var n := st.net;
    var i := st.reaper.i;
    var s0 := n.doomed[i];
    var n1 := AddCredit(n, s0, -1);
    var n' := Apply(st, Reap).net;
    assert s0 in n.doomed;
    RemoveAt(n.doomed, i);
    PlacesExclude(n, s0);
    assert forall s: int :: s != s0 ==> Credit(n', s) == Credit(n, s);
    assert forall s: Sid :: InPending(n', s) == InPending(n, s);
    assert forall e :: e in n.active ==> InActive(n, n.active[e]);
  }

  lemma SynCredits(st: State, e: Endpoint)
    requires Inv(st)
    ensures CreditsOk(Apply(st, Syn(e)))
  {
    var n := st.net;
    var n' := OnSyn(n, e);
    assert Places(n, |n.home|) == 0;
    hide AcceptedOnce, HeldOk, Places;
    assert forall s: Sid :: s != |n.home| ==> InPending(n', s) == InPending(n, s);
    assert forall f :: f in n.active ==> n.active[f] < |n.home|;
    assert forall s :: s in n.doomed ==> s != |n.home|;
    assert forall s: int :: s != |n.home| ==> Credit(n', s) == Credit(n, s);
  }

  lemma AckCredits(st: State, e: Endpoint)
    requires Inv(st) && Enabled(st, Ack(e))
    ensures CreditsOk(Apply(st, Ack(e)))
  {
    var n := st.net;
    hide AcceptedOnce, HeldOk, Places;
    if e in n.pending {
      assert InPending(n, n.pending[e]);
      assert forall s: Sid :: InPending(OnAck(n, e), s) ==> InPending(n, s);
    }
  }

  lemma TestCredits(st: State, e: Endpoint)
    requires Inv(st) && Enabled(st, Test(e))
    ensures CreditsOk(Apply(st, Test(e)))
  {
    hide AcceptedOnce, HeldOk, Places;
    assert forall s: Sid :: InPending(Apply(st, Test(e)).net, s) == InPending(st.net, s);
  }

  lemma CreditsKept(st: State, ev: Event)
    requires Inv(st) && Enabled(st, ev)
    ensures CreditsOk(Apply(st, ev))
  {
    match ev
    case Syn(e) => SynCredits(st, e);
    case Ack(e) => AckCredits(st, e);
    case Lookup(_, _) =>
    case Increment(w, s) => IncrementCredits(st, w, s);
    case StartSweep =>
    case Visit(e) => VisitCredits(st, e);
    case Test(e) => TestCredits(st, e);
    case StartReaping =>
    case Reap => ReapCredits(st);
    case EndSweep =>
  }

  // Once accepted into the active table a session is active, evicted or disconnected.
  lemma TrackedStays(st: State, ev: Event, s: Sid)
    requires TablesOk(st.net) && Enabled(st, ev) && Tracked(st.net, s)
    ensures Tracked(Apply(st, ev).net, s)
  {
    var n := st.net;
    if ev.Test? && s in n.doomed {
      var k :| 0 <= k < |n.doomed| && n.doomed[k] == s;
      assert Evict(n, ev.e).doomed[k] == s;
    } else if ev.Test? && InActive(n, s) && n.home[s] == ev.e {
      assert Evict(n, ev.e).doomed[|n.doomed|] == s;
    } else if ev.Reap? {
      RemoveAt(n.doomed, st.reaper.i);
      var n' := Apply(st, ev).net;
      if s in n.gone {
        var k :| 0 <= k < |n.gone| && n.gone[k] == s;
        assert n'.gone[k] == s;
      } else if s == n.doomed[st.reaper.i] && n' != AddCredit(n, s, -1) {
        assert n'.gone[|n.gone|] == s;
      }
    }
  }

  lemma StepKeeps(st: State, ev: Event)
    requires Inv(st) && Enabled(st, ev)
    ensures Inv(Apply(st, ev))
  {
    TablesKept(st, ev);
    CreditsKept(st, ev);
    var st' := Apply(st, ev);
    hide TablesOk, CreditsOk;
    forall w | w in st'.holding
      ensures Tracked(st'.net, st'.holding[w])
    {
      HeldStays(st, ev, w);
    }
  }

  lemma HeldStays(st: State, ev: Event, w: Worker)
    requires Inv(st) && Enabled(st, ev) && w in Apply(st, ev).holding
    ensures Tracked(Apply(st, ev).net, Apply(st, ev).holding[w])
  {
    if w in st.holding {
      TrackedStays(st, ev, st.holding[w]);
    } else {
      assert InActive(st.net, st.net.active[ev.e]);
    }
  }

  lemma {:induction false} RunKeeps(st: State, es: seq<Event>)
    requires Inv(st) && IsRun(st, es)
    ensures Inv(After(st, es))
    decreases |es|
  {
    if es != [] {
      StepKeeps(st, es[0]);
      RunKeeps(Apply(st, es[0]), es[1..]);
    }
  }

  // ---------- what each event does ----------

  // A SYN creates a session of its endpoint without credit; it is pending unless the
  // endpoint is a key already, and nothing else changes.
  lemma SynEffect(st: State, e: Endpoint)
    requires Inv(st)
    ensures Enabled(st, Syn(e))
    ensures var (n, st') := (st.net, Apply(st, Syn(e)));
            var (n', s) := (st'.net, |n.home|);
            && n'.home == n.home + [e] && n'.credit == n.credit[s := 0]
            && n'.pending == (if e in n.pending then n.pending else n.pending[e := s])
            && (InPending(n', s) <==> e !in n.pending)
            && n'.active == n.active && n'.doomed == n.doomed && n'.gone == n.gone
            && n'.accepted == n.accepted && st'.reaper == st.reaper && st'.holding == st.holding
  {
    assert Places(st.net, |st.net.home|) == 0;
  }

  // An ACK moves the endpoint's pending session, if there is one, to the active table
  // unless the endpoint is a key there, and calls the accept handler; nothing else changes.
  lemma AckEffect(st: State, e: Endpoint)
    requires Inv(st)
    ensures Enabled(st, Ack(e)) <==> st.reaper.Sleeping? || st.reaper.Reaping?
    ensures Enabled(st, Ack(e)) ==>
              var (n, st') := (st.net, Apply(st, Ack(e)));
              var n' := st'.net;
              && n'.pending == n.pending - {e}
              && n'.active == (if e in n.pending && e !in n.active then n.active[e := n.pending[e]]
                               else n.active)
              && n'.accepted == n.accepted + (if e in n.pending then [(n.pending[e], e)] else [])
              && n'.home == n.home && n'.credit == n.credit && n'.doomed == n.doomed && n'.gone == n.gone
              && st'.reaper == st.reaper && st'.holding == st.holding
  {
  }

  // A lookup that finds a session lets the worker raise its credit, and a raise raises
  // that credit by one, whatever the reaper has done; no table changes.
  lemma AliveEffect(st: State, w: Worker, e: Endpoint, s: Sid)
    requires Inv(st)
    ensures Enabled(st, Lookup(w, e)) <==> w !in st.holding
    ensures w !in st.holding ==>
              var st' := Apply(st, Lookup(w, e));
              && st'.net == st.net && st'.reaper == st.reaper
              && st'.holding == (if e in st.net.active then st.holding[w := st.net.active[e]]
                                 else st.holding)
    ensures w in st.holding && st.holding[w] == s ==>
              && Enabled(st, Increment(w, s))
              && var st' := Apply(st, Increment(w, s));
                 && st'.net.credit == st.net.credit[s := st.net.credit[s] + 1]
                 && st'.net.(credit := st.net.credit) == st.net
                 && st'.reaper == st.reaper && st'.holding == st.holding - {w}
  {
    if w in st.holding && st.holding[w] == s {
      TrackedKnown(st.net, s);
    }
  }

  lemma TrackedKnown(n: Net, s: Sid)
    requires Conserved(n) && Tracked(n, s)
    ensures s < |n.home| && s in n.credit
  {
    assert s < |n.home| || Places(n, s) == 0;
  }

  // The reaper's accesses: a sweep starts with every active endpoint to visit, a visit
  // lowers that session's credit by one, a test evicts from -2 down, and the second loop
  // starts at the front and ends behind the back.
  lemma ReaperEffect(st: State, ev: Event)
    requires Inv(st) && Enabled(st, ev) && ByReaper(ev)
    ensures var (n, st') := (st.net, Apply(st, ev));
            var n' := st'.net;
            && (ev.StartSweep? ==> n' == n && st'.reaper == Sweeping(n.active.Keys))
            && (ev.Visit? ==>
                  var s := n.active[ev.e];
                  && s in n.credit && n'.credit == n.credit[s := n.credit[s] - 1]
                  && n'.(credit := n.credit) == n
                  && st.reaper.Sweeping? && st'.reaper == Lowered(ev.e, st.reaper.todo - {ev.e}))
            && (ev.Test? ==>
                  var s := n.active[ev.e];
                  && st.reaper.Lowered? && st'.reaper == Sweeping(st.reaper.todo) && n'.credit == n.credit
                  && (Credit(n, s) < -1 ==> n'.active == n.active - {ev.e} && n'.doomed == n.doomed + [s])
                  && (Credit(n, s) >= -1 ==> n' == n))
            && (ev.StartReaping? ==> n' == n && st'.reaper == Reaping(0))
            && (ev.EndSweep? ==> n' == n && st'.reaper == Sleeping && st.reaper.i == |n.doomed|)
            && n'.pending == n.pending && n'.home == n.home && st'.holding == st.holding
  {
    if ev.Visit? {
      assert InActive(st.net, st.net.active[ev.e]);
      TrackedKnown(st.net, st.net.active[ev.e]);
    }
  }

  // One access of the second loop lowers the credit of the session it stands at by one;
  // at -3 the session leaves the vector and is disconnected, else the loop moves on.
  lemma ReapEffect(st: State)
    requires Inv(st) && Enabled(st, Reap)
    ensures var (n, st', i) := (st.net, Apply(st, Reap), st.reaper.i);
            var (n', s) := (st'.net, n.doomed[i]);
            && s in n.credit && n'.credit == n.credit[s := n.credit[s] - 1]
            && (n.credit[s] == -2 ==>
                  && n'.doomed == n.doomed[..i] + n.doomed[i + 1..] && n'.gone == n.gone + [s]
                  && st'.reaper == Reaping(i))
            && (n.credit[s] != -2 ==>
                  n'.doomed == n.doomed && n'.gone == n.gone && st'.reaper == Reaping(i + 1))
            && n'.active == n.active && n'.pending == n.pending && n'.home == n.home
            && n'.accepted == n.accepted && st'.holding == st.holding
  {
    assert st.net.doomed[st.reaper.i] in st.net.doomed;
    TrackedKnown(st.net, st.net.doomed[st.reaper.i]);
  }

  // ---------- every session is in one place ----------

  // At every moment a session ever created is in exactly one of the pending table, the
  // active table, the reaper's vector, the disconnected ones and the two kinds of drops;
  // table keys are the sessions' endpoints and no session is listed twice.
  lemma OnePlace(es: seq<Event>, s: Sid)
    requires IsRun(Start(), es)
    ensures var n := After(Start(), es).net;
            && Places(n, s) == One(s < |n.home|)
            && Keyed(n, n.pending) && Keyed(n, n.active) && Distinct(n.doomed) && Distinct(n.gone)
  {
    StartInv();
    RunKeeps(Start(), es);
  }

  // The accept handler is called at most once per session, and only on an ACK from the
  // endpoint whose SYN created it; the disconnect handler at most once, and only for an
  // accepted session.
  lemma HandlersOnce(es: seq<Event>)
    requires IsRun(Start(), es)
    ensures var n := After(Start(), es).net;
            && (forall j, k :: 0 <= j < k < |n.accepted| ==> n.accepted[j].0 != n.accepted[k].0)
            && (forall k :: 0 <= k < |n.accepted| ==>
                  n.accepted[k].0 < |n.home| && n.home[n.accepted[k].0] == n.accepted[k].1)
            && Distinct(n.gone)
            && (forall s: Sid :: s in n.gone ==> WasAccepted(n, s))
  {
    StartInv();
    RunKeeps(Start(), es);
  }

  // An accepted session is left out of the active table exactly when its endpoint is
  // already active at the ACK.
  lemma AckDropsIff(n: Net, e: Endpoint)
    requires TablesOk(n) && e in n.pending
    ensures var s := n.pending[e];
            && WasAccepted(OnAck(n, e), s)
            && (s in OnAck(n, e).droppedAck <==> e in n.active)
            && (InActive(OnAck(n, e), s) <==> e !in n.active)
  {
    var s := n.pending[e];
    assert InPending(n, s) && Places(n, s) == 1;
    AcceptedAfterAck(n, OnAck(n, e), s, e);
  }

  // Such a session is never disconnected.
  lemma {:induction false} DroppedForGood(st: State, es: seq<Event>, s: Sid)
    requires Inv(st) && IsRun(st, es) && s in st.net.droppedAck
    ensures var n := After(st, es).net; s in n.droppedAck && s !in n.gone
    decreases |es|
  {
    if es == [] {
      PlaceOfDropped(st.net, s);
    } else {
      StepKeeps(st, es[0]);
      DroppedForGood(Apply(st, es[0]), es[1..], s);
    }
  }

  lemma PlaceOfDropped(n: Net, s: Sid)
    requires Conserved(n) && s in n.droppedAck
    ensures s !in n.gone && s !in n.doomed
  {
    assert Places(n, s) <= 1;
  }

  // Two handshakes from one endpoint are enough: the second session is accepted and left
  // out.
  lemma DropHappens(e: Endpoint)
    ensures var es := [Syn(e), Ack(e), Syn(e), Ack(e)];
            && IsRun(Start(), es)
            && After(Start(), es).net.accepted == [(0, e), (1, e)]
            && 1 in After(Start(), es).net.droppedAck
  {
    var s1 := Apply(Start(), Syn(e));
    var s2 := Apply(s1, Ack(e));
    var s3 := Apply(s2, Syn(e));
    RunCons(s3, Ack(e), []);
    RunCons(s2, Syn(e), [Ack(e)]);
    RunCons(s1, Ack(e), [Syn(e), Ack(e)]);
    RunCons(Start(), Syn(e), [Ack(e), Syn(e), Ack(e)]);
  }

  lemma RunCons(st: State, ev: Event, es: seq<Event>)
    requires Enabled(st, ev) && IsRun(Apply(st, ev), es)
    ensures IsRun(st, [ev] + es) && After(st, [ev] + es) == After(Apply(st, ev), es)
  {
    assert ([ev] + es)[1..] == es;
  }

  // ---------- eviction and disconnection ----------

  // The test evicts exactly at credit -2; in-flight increments cannot make it miss.
  lemma EvictedAtMinusTwo(st: State, e: Endpoint)
    requires Inv(st) && Enabled(st, Test(e))
    ensures var s := st.net.active[e];
            && Credit(st.net, s) >= -2
            && (s in Apply(st, Test(e)).net.doomed <==> Credit(st.net, s) == -2)
            && (InActive(Apply(st, Test(e)).net, s) <==> Credit(st.net, s) >= -1)
  {
    var n := st.net;
    var s := n.active[e];
    assert InActive(n, s);
    PlacesExclude(n, s);
    assert Evict(n, e).doomed[|n.doomed|] == s;
  }

  // Before each decrement of the second phase the credit is at least -2, so the value -3
  // is met before anything lower, and meeting it is what disconnects.
  lemma MinusThreeNotSkipped(st: State)
    requires Inv(st) && Enabled(st, Reap)
    ensures var s := st.net.doomed[st.reaper.i];
            && Credit(st.net, s) >= -2
            && (s in Apply(st, Reap).net.gone <==> Credit(st.net, s) == -2)
            && (s in Apply(st, Reap).net.doomed <==> Credit(st.net, s) > -2)
  {
    var s := st.net.doomed[st.reaper.i];
    assert s in st.net.doomed;
    PlacesExclude(st.net, s);
    RemoveAt(st.net.doomed, st.reaper.i);
    var n' := Apply(st, Reap).net;
    assert Credit(st.net, s) == -2 ==> n'.gone[|st.net.gone|] == s;
  }

  // The guard of the data branch, increment > -2, holds for every session that has not
  // been disconnected.
  lemma DataGuardHolds(st: State, w: Worker, s: Sid)
    requires Inv(st) && Enabled(st, Increment(w, s)) && s !in st.net.gone
    ensures Credit(Apply(st, Increment(w, s)).net, s) > -2
  {
    assert Tracked(st.net, s);
  }

  ghost function Holders(st: State, s: Sid): set<Worker>
  {
    set w | w in st.holding && st.holding[w] == s
  }

  // How often the second phase can still pass an evicted session by: the increments in
  // flight, and those that came since its eviction and have not been used up.
  ghost function Debt(st: State, s: Sid): int
  {
    |Holders(st, s)| + Credit(st.net, s) + 2
  }

  predicate Before(s: seq<int>, i: int, x: int)
  {
    exists k :: 0 <= k < i && k < |s| && s[k] == x
  }

  // The session's place in the vector lies behind the reaper's index.
  predicate Passed(st: State, s: Sid)
  {
    st.reaper.Reaping? && Before(st.net.doomed, st.reaper.i, s)
  }

  lemma HoldersAfter(st: State, ev: Event, s: Sid)
    requires Enabled(st, ev) && Inv(st) && s in st.net.doomed
    ensures |Holders(Apply(st, ev), s)|
         == |Holders(st, s)| - (if ev.Increment? && ev.s == s then 1 else 0)
  {
    HoldingAfter(st, ev, s);
    var st' := Apply(st, ev);
    hide Inv, Apply, Enabled;
    if ev.Increment? && ev.s == s {
      assert Holders(st', s) == Holders(st, s) - {ev.w} && ev.w in Holders(st, s);
    } else {
      assert Holders(st', s) == Holders(st, s);
    }
  }

  lemma HoldingAfter(st: State, ev: Event, s: Sid)
    requires Enabled(st, ev) && Inv(st) && s in st.net.doomed
    ensures var st' := Apply(st, ev);
            forall w :: (w in st'.holding && st'.holding[w] == s)
                   <==> w in st.holding && st.holding[w] == s && !(ev.Increment? && ev.w == w)
    ensures ev.Increment? ==> ev.w in st.holding && st.holding[ev.w] == ev.s
  {
    LookupMisses(st, ev, s);
    hide Inv, OnSyn, OnAck, ReapAt, AddCredit, Evict;
  }

  // A lookup does not find an evicted session.
  lemma LookupMisses(st: State, ev: Event, s: Sid)
    requires Inv(st) && s in st.net.doomed
    ensures ev.Lookup? && ev.e in st.net.active ==> st.net.active[ev.e] != s
  {
    PlacesExclude(st.net, s);
  }

  function Removed(s: seq<int>, i: nat): seq<int>
    requires i < |s|
  {
    s[..i] + s[i + 1..]
  }

  lemma BeforeAfterRemoval(s: seq<int>, i: nat, x: int)
    requires Distinct(s) && i < |s| && x in s && x != s[i]
    ensures Before(Removed(s, i), i, x) <==> Before(s, i, x)
    ensures Before(s, i + 1, x) <==> Before(s, i, x)
  {
    var r := Removed(s, i);
    assert forall k :: 0 <= k < i ==> r[k] == s[k];
  }

  lemma ReapPassing(n: Net, i: nat, s: Sid)
    requires Distinct(n.doomed) && i < |n.doomed| && s in n.doomed && s in ReapAt(n, i).0.doomed
    requires forall x :: x in n.doomed ==> x >= 0
    ensures var (n', i') := ReapAt(n, i);
            Credit(n', s) + One(Before(n'.doomed, i', s)) == Credit(n, s) + One(Before(n.doomed, i, s))
  {
    var s0 := n.doomed[i];
    assert s0 in n.doomed;
    RemoveAt(n.doomed, i);
    if s0 == s {
      assert !Before(n.doomed, i, s);
      assert Before(n.doomed, i + 1, s);
    } else {
      BeforeAfterRemoval(n.doomed, i, s);
    }
  }

  // Each full sweep that passes an evicted session by uses up one unit of its debt, and
  // nothing else changes it.
  lemma DebtStep(st: State, ev: Event, s: Sid)
    requires Inv(st) && Enabled(st, ev) && s in st.net.doomed && s in Apply(st, ev).net.doomed
    ensures var st' := Apply(st, ev);
            (Debt(st', s) + One(Passed(st', s)) + (if ev.EndSweep? then 1 else 0)
             == Debt(st, s) + One(Passed(st, s)))
  {
    HoldersAfter(st, ev, s);
    CreditAndPassing(st, ev, s);
    hide Inv, Apply, Enabled, Holders, Passed, Credit;
  }

  lemma VisitsAnother(n: Net, e: Endpoint, s: Sid)
    requires Conserved(n) && e in n.active && s in n.doomed
    ensures n.active[e] != s
  {
    PlacesExclude(n, s);
  }

  lemma CreditAndPassing(st: State, ev: Event, s: Sid)
    requires Inv(st) && Enabled(st, ev) && s in st.net.doomed && s in Apply(st, ev).net.doomed
    ensures var st' := Apply(st, ev);
            (Credit(st'.net, s) + One(Passed(st', s)) + (if ev.EndSweep? then 1 else 0)
             == Credit(st.net, s) + One(Passed(st, s)) + (if ev.Increment? && ev.s == s then 1 else 0))
  {
    hide HeldOk, AcceptedOnce, CreditsOk, Keyed;
    var n := st.net;
    PlacesExclude(n, s);
    match ev
    case Syn(_) => assert Places(n, |n.home|) == 0;
    case Visit(e) => VisitsAnother(n, e, s);
    case Reap => ReapPassing(n, st.reaper.i, s);
    case EndSweep =>
      var k :| 0 <= k < |n.doomed| && n.doomed[k] == s;
    case _ =>
  }

  function EndSweeps(es: seq<Event>): nat
  {
    if es == [] then 0 else (if es[0].EndSweep? then 1 else 0) + EndSweeps(es[1..])
  }

  lemma DoomedOrGone(st: State, ev: Event, s: Sid)
    requires Inv(st) && Enabled(st, ev)
    ensures s in st.net.doomed ==> s in Apply(st, ev).net.doomed || s in Apply(st, ev).net.gone
    ensures s in st.net.gone ==> s in Apply(st, ev).net.gone
  {
    StepKeeps(st, ev);
    var (n, n') := (st.net, Apply(st, ev).net);
    if s in n.doomed || s in n.gone {
      TrackedStays(st, ev, s);
      PlacesExclude(n, s);
      PlacesExclude(n', s);
      NotReactivated(st, ev, s);
      if s in n.gone && ev.Reap? {
        var k :| 0 <= k < |n.gone| && n.gone[k] == s;
        assert n'.gone[k] == s;
      }
    }
  }

  lemma NotReactivated(st: State, ev: Event, s: Sid)
    requires Inv(st) && Enabled(st, ev) && (s in st.net.doomed || s in st.net.gone)
    ensures !InActive(Apply(st, ev).net, s)
  {
    PlacesExclude(st.net, s);
    if ev.Ack? && ev.e in st.net.pending {
      assert InPending(st.net, st.net.pending[ev.e]);
    }
  }

  lemma {:induction false} GoneStays(st: State, es: seq<Event>, s: Sid)
    requires Inv(st) && IsRun(st, es) && s in st.net.gone
    ensures s in After(st, es).net.gone
    decreases |es|
  {
    if es != [] {
      StepKeeps(st, es[0]);
      DoomedOrGone(st, es[0], s);
      GoneStays(Apply(st, es[0]), es[1..], s);
    }
  }

  lemma {:induction false} DebtRun(st: State, es: seq<Event>, s: Sid)
    requires Inv(st) && IsRun(st, es) && s in st.net.doomed
    ensures var z := After(st, es);
            s in z.net.gone
            || (s in z.net.doomed
                && EndSweeps(es) + Debt(z, s) + One(Passed(z, s)) == Debt(st, s) + One(Passed(st, s)))
    decreases |es|
  {
    if es != [] {
      var st1 := Apply(st, es[0]);
      StepKeeps(st, es[0]);
      DoomedOrGone(st, es[0], s);
      if s in st1.net.doomed {
        DebtStep(st, es[0], s);
        DebtRun(st1, es[1..], s);
      } else {
        GoneStays(st1, es[1..], s);
      }
    }
  }

  lemma DebtNotNegative(st: State, s: Sid)
    requires Inv(st) && s in st.net.doomed
    ensures Debt(st, s) >= 0
  {
  }

  // With q increments in flight at its eviction a session is disconnected by the end of
  // the q-th sweep after the evicting one, whatever else happens.
  lemma DisconnectedWithin(st: State, e: Endpoint, es: seq<Event>)
    requires Inv(st) && Enabled(st, Test(e)) && Credit(st.net, st.net.active[e]) < -1
    requires IsRun(Apply(st, Test(e)), es)
    requires EndSweeps(es) >= 1 + |Holders(st, st.net.active[e])|
    ensures st.net.active[e] in After(Apply(st, Test(e)), es).net.gone
  {
    var s := st.net.active[e];
    var st1 := Apply(st, Test(e));
    EvictedAtMinusTwo(st, e);
    StepKeeps(st, Test(e));
    assert Holders(st1, s) == Holders(st, s);
    DebtRun(st1, es, s);
    RunKeeps(st1, es);
    if s in After(st1, es).net.doomed {
      DebtNotNegative(After(st1, es), s);
    }
  }

  // ---------- after the disconnection ----------

  // The reaper is about to disconnect s.
  ghost predicate Disconnects(st: State, s: Sid)
  {
    Enabled(st, Event.Reap) && st.net.doomed[st.reaper.i] == s && Credit(st.net, s) == -2
  }

  lemma GoneNow(st: State, s: Sid)
    requires Inv(st) && Disconnects(st, s)
    ensures var st' := Apply(st, Event.Reap);
            && Inv(st') && s in st'.net.gone && Credit(st'.net, s) == -3
            && st'.holding == st.holding && Holders(st', s) == Holders(st, s)
  {
    StepKeeps(st, Event.Reap);
    MinusThreeNotSkipped(st);
    hide Inv;
    assert Holders(Apply(st, Event.Reap), s) == Holders(st, s);
  }

  lemma GoneUntracked(n: Net, s: Sid)
    requires Conserved(n) && s in n.gone
    ensures s < |n.home| && !InActive(n, s) && s !in n.doomed
    ensures forall e :: e in n.active ==> n.active[e] != s
  {
    assert Places(n, s) == 1;
  }

  // Nobody finds a disconnected session any more, and only increments still reach it.
  lemma GoneStep(st: State, ev: Event, s: Sid)
    requires Inv(st) && Enabled(st, ev) && s in st.net.gone
    ensures var st' := Apply(st, ev);
            && Holders(st', s) <= Holders(st, s)
            && Credit(st'.net, s) == Credit(st.net, s) + (if ev.Increment? && ev.s == s then 1 else 0)
  {
    GoneUntracked(st.net, s);
    hide CreditsOk, AcceptedOnce, HeldOk, Places, Conserved;
    match ev
    case Reap => assert st.net.doomed[st.reaper.i] in st.net.doomed;
    case _ =>
  }

  lemma {:induction false} GoneRun(st: State, es: seq<Event>, s: Sid)
    requires Inv(st) && IsRun(st, es) && s in st.net.gone
    ensures var z := After(st, es);
            && Inv(z) && s in z.net.gone
            && Holders(z, s) <= Holders(st, s)
            && Credit(z.net, s) == Credit(st.net, s) + Increments(es, s)
    decreases |es|
  {
    if es != [] {
      hide Inv, Apply, Enabled, Credit, Holders;
      StepKeeps(st, es[0]);
      DoomedOrGone(st, es[0], s);
      GoneStep(st, es[0], s);
      GoneRun(Apply(st, es[0]), es[1..], s);
    }
  }

  // Worker w raises the credit of s at the end of some continuation.
  ghost predicate Reaches(st: State, s: Sid, es: seq<Event>, w: Worker)
  {
    IsRun(st, es) && Enabled(After(st, es), Increment(w, s))
  }

  lemma HolderIff(st: State, s: Sid, w: Worker)
    ensures w in Holders(st, s) <==> Enabled(st, Increment(w, s))
  {
  }

  // An increment can still reach a session after its disconnection exactly if some worker
  // holds it at that moment.
  lemma LateIncrementIff(st: State, s: Sid)
    requires Inv(st) && Disconnects(st, s)
    ensures (exists es, w :: Reaches(Apply(st, Event.Reap), s, es, w)) <==> Holders(st, s) != {}
  {
    hide Inv, Apply, Enabled, Credit;
    GoneNow(st, s);
    var st' := Apply(st, Event.Reap);
    if es, w :| Reaches(st', s, es, w) {
      GoneRun(st', es, s);
      HolderIff(After(st', es), s, w);
    }
    if Holders(st, s) != {} {
      var w :| w in Holders(st, s);
      HolderIff(st', s, w);
      assert Reaches(st', s, [], w);
    }
  }

  // The guard of the data branch turns away exactly the first increment that comes after
  // the disconnection; the later ones pass it.
  lemma LateGuard(st: State, s: Sid, es: seq<Event>, w: Worker)
    requires Inv(st) && Disconnects(st, s) && Reaches(Apply(st, Event.Reap), s, es, w)
    ensures var z := After(Apply(st, Event.Reap), es);
            Credit(Apply(z, Increment(w, s)).net, s) > -2 <==> Increments(es, s) >= 1
  {
    GoneNow(st, s);
    var st' := Apply(st, Event.Reap);
    GoneRun(st', es, s);
    GoneStep(After(st', es), Increment(w, s), s);
  }

  // ---------- when a session is evicted ----------

  function Increments(es: seq<Event>, s: Sid): nat
  {
    if es == [] then 0
    else (if es[0].Increment? && es[0].s == s then 1 else 0) + Increments(es[1..], s)
  }

  function Visits(es: seq<Event>, e: Endpoint): nat
  {
    if es == [] then 0
    else (if es[0].Visit? && es[0].e == e then 1 else 0) + Visits(es[1..], e)
  }

  // At the test that ends its j-th visit the session has been credited at least j-1 times.
  ghost predicate EnoughAt(es: seq<Event>, k: nat, e: Endpoint, s: Sid, credit: int)
    requires k < |es|
  {
    es[k] == Test(e) ==> credit + Increments(es[..k], s) - Visits(es[..k], e) >= -1
  }

  function CreditChange(ev: Event, e: Endpoint, s: Sid): int
  {
    (if ev.Increment? && ev.s == s then 1 else 0) - (if ev == Visit(e) then 1 else 0)
  }

  lemma ActiveCredit(st: State, ev: Event, e: Endpoint, s: Sid)
    requires Inv(st) && Enabled(st, ev) && e in st.net.active && st.net.active[e] == s
    ensures var n' := Apply(st, ev).net;
            if ev == Test(e) && Credit(st.net, s) < -1 then s in n'.doomed
            else (e in n'.active && n'.active[e] == s
                  && Credit(n', s) == Credit(st.net, s) + CreditChange(ev, e, s))
  {
    var n := st.net;
    assert InActive(n, s);
    PlacesExclude(n, s);
    hide HeldOk, AcceptedOnce;
    match ev
    case Syn(_) => assert Places(n, |n.home|) == 0;
    case Visit(f) => if f != e { ActiveApart(n, e, f); }
    case Test(f) => if f == e { EvictedAtMinusTwo(st, e); }
    case Reap => assert n.doomed[st.reaper.i] in n.doomed;
    case _ =>
  }

  lemma {:induction false} DoomedNotActive(st: State, es: seq<Event>, s: Sid)
    requires Inv(st) && IsRun(st, es) && (s in st.net.doomed || s in st.net.gone)
    ensures !InActive(After(st, es).net, s)
    decreases |es|
  {
    if es == [] {
      PlacesExclude(st.net, s);
    } else {
      StepKeeps(st, es[0]);
      DoomedOrGone(st, es[0], s);
      DoomedNotActive(Apply(st, es[0]), es[1..], s);
    }
  }

  lemma EnoughShift(es: seq<Event>, k: nat, e: Endpoint, s: Sid, credit: int)
    requires 0 < k < |es|
    ensures EnoughAt(es, k, e, s, credit)
       <==> EnoughAt(es[1..], k - 1, e, s, credit + CreditChange(es[0], e, s))
  {
    assert es[..k][1..] == es[1..][..k - 1];
  }

  // An active session outlives a run exactly if at each of its tests, the j-th coming
  // after j visits, it has been credited at least j-1 times: it is evicted at the first j
  // with m_j <= j-2 and at no other.
  lemma {:induction false} SurvivesIff(st: State, es: seq<Event>, e: Endpoint, s: Sid)
    requires Inv(st) && IsRun(st, es) && e in st.net.active && st.net.active[e] == s
    ensures InActive(After(st, es).net, s)
       <==> forall k :: 0 <= k < |es| ==> EnoughAt(es, k, e, s, Credit(st.net, s))
    decreases |es|
  {
    var c := Credit(st.net, s);
    if es == [] {
      assert InActive(st.net, s);
    } else {
      hide Inv, Apply, Enabled, Credit, InActive;
      var (ev, rest) := (es[0], es[1..]);
      var st1 := Apply(st, ev);
      StepKeeps(st, ev);
      ActiveCredit(st, ev, e, s);
      assert es[..0] == [];
      assert EnoughAt(es, 0, e, s, c) <==> (ev == Test(e) ==> c >= -1);
      if ev == Test(e) && c < -1 {
        DoomedNotActive(st1, rest, s);
      } else {
        SurvivesIff(st1, rest, e, s);
        forall k | 0 < k < |es|
          ensures EnoughAt(es, k, e, s, c) <==> EnoughAt(rest, k - 1, e, s, Credit(st1.net, s))
        {
          EnoughShift(es, k, e, s, c);
        }
        assert forall k :: 0 <= k < |rest| ==>
          (EnoughAt(rest, k, e, s, Credit(st1.net, s)) <==> EnoughAt(es, k + 1, e, s, c));
      }
    }
  }
}
