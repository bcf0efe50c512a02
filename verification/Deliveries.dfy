// Delivered datagrams and the packet pool. Every delivered datagram starts a thread of its
// own, whose packet comes from the per-thread pools; its id is never given back.
module Deliveries {
  import opened Receives
  import Sessions
  import Packets
  import PoolRuns
  import PoolLimits
  import Memory
  import ObjectPool

  type Thread = ObjectPool.Thread

  // A turn of the loop, with the system's answers to the requests of the packet it may
  // build, or any other operation on the packet pool.
  datatype Moment = OfLoop(turn: Turn, place: int, answer: int) | OfPool(op: PoolRuns.Op)

  ghost function Delivered(l: Loop, ts: seq<Turn>): nat
    requires IsTurns(l, ts)
    decreases |ts|
  {
    if ts == [] then 0
    else (if Delivers(l.st.net, ts[0]) then 1 else 0) + Delivered(Take(l, ts[0]), ts[1..])
  }

  function Turns(ms: seq<Moment>): seq<Turn>
  {
    if ms == [] then []
    else (if ms[0].OfLoop? then [ms[0].turn] else []) + Turns(ms[1..])
  }

  // The operations on the packet pool; the k-th delivered datagram's thread is number k.
  ghost function History(l: Loop, ms: seq<Moment>, k: Thread): seq<PoolRuns.Op>
    requires IsTurns(l, Turns(ms))
    decreases |ms|
  {
    if ms == [] then []
    else if ms[0].OfPool? then
      assert Turns(ms) == Turns(ms[1..]);
      [ms[0].op] + History(l, ms[1..], k)
    else
      var rest := Turns(ms)[1..];
      assert rest == Turns(ms[1..]);
      var l' := Take(l, ms[0].turn);
      if Delivers(l.st.net, ms[0].turn)
      then [PoolRuns.MallocOp(k, ms[0].place, ms[0].answer)] + History(l', ms[1..], k + 1)
      else History(l', ms[1..], k)
  }

  function Between(k: nat, n: nat): (s: set<Thread>)
    ensures |s| == n && forall t: Thread :: t in s <==> k <= t < k + n
    decreases n
  {
    if n == 0 then {} else Between(k, n - 1) + {k + n - 1}
  }

  lemma {:induction false} HandlersTakePart(l: Loop, ms: seq<Moment>, k: Thread)
    requires IsTurns(l, Turns(ms))
    ensures Between(k, Delivered(l, Turns(ms))) <= PoolLimits.Users(History(l, ms, k))
    decreases |ms|
  {
    if ms != [] {
      hide Take, Possible, Delivers;
      if ms[0].OfPool? {
        assert Turns(ms) == Turns(ms[1..]);
        HandlersTakePart(l, ms[1..], k);
      } else {
        assert Turns(ms)[1..] == Turns(ms[1..]);
        var l' := Take(l, ms[0].turn);
        if Delivers(l.st.net, ms[0].turn) {
          HandlersTakePart(l', ms[1..], k + 1);
        } else {
          HandlersTakePart(l', ms[1..], k);
        }
      }
    }
  }

  // The packet pool survives at most 64 delivered datagrams, whatever its other users do
  // and whatever the system answers.
  lemma DeliveriesBounded(m: Memory.Mem, req: nat, l: Loop, ms: seq<Moment>)
    requires req + Memory.TAG_SIZE < 0x1_0000_0000 && IsTurns(l, Turns(ms))
    requires PoolRuns.LegalRun(PoolRuns.StartAbstract(), History(l, ms, 0), req)
    requires PoolRuns.DefinedRun(PoolRuns.Start(m), History(l, ms, 0), req)
    ensures Delivered(l, Turns(ms)) <= ObjectPool.MAX_THREAD_NUM
  {
    var ops := History(l, ms, 0);
    HandlersTakePart(l, ms, 0);
    PoolLimits.DefinedRunIff(m, ops, req);
    PoolLimits.FewerInSubset(Between(0, Delivered(l, Turns(ms))), PoolLimits.Users(ops));
  }

  function Repeat(t: Turn, n: nat): (ts: seq<Turn>)
    ensures |ts| == n
  {
    if n == 0 then [] else [t] + Repeat(t, n - 1)
  }

  lemma {:induction false} SessionDelivers(l: Loop, w: Sessions.Worker, e: Sessions.Endpoint, n: nat)
    requires Sessions.Inv(l.st) && l.posted > 0 && w !in l.st.holding && e in l.st.net.active
    ensures var ts := Repeat(Datagram(w, e, Packets.Data), n);
            IsTurns(l, ts) && Delivered(l, ts) == n
    decreases n
  {
    if n > 0 {
      var t := Datagram(w, e, Packets.Data);
      var ts := Repeat(t, n);
      StaysActive(l, w, e);
      assert ts[1..] == Repeat(t, n - 1);
      SessionDelivers(Take(l, t), w, e, n - 1);
    }
  }

  lemma StaysActive(l: Loop, w: Sessions.Worker, e: Sessions.Endpoint)
    requires Sessions.Inv(l.st) && l.posted > 0 && w !in l.st.holding && e in l.st.net.active
    ensures var t := Datagram(w, e, Packets.Data);
            && Possible(l, t) && Sessions.Inv(Take(l, t).st) && Take(l, t).posted == l.posted
            && w !in Take(l, t).st.holding && e in Take(l, t).st.net.active
  {
    TurnKeeps(l, Datagram(w, e, Packets.Data));
  }

  // A client that shakes hands and then sends heartbeats or data.
  function Client(w: Sessions.Worker, e: Sessions.Endpoint, kind: Packets.Kind, n: nat): seq<Turn>
  {
    [Datagram(w, e, Packets.Syn), Datagram(w, e, Packets.Ack)] + Repeat(Datagram(w, e, kind), n)
  }

  lemma {:induction false} SessionHeard(l: Loop, w: Sessions.Worker, e: Sessions.Endpoint,
                                        kind: Packets.Kind, n: nat)
    requires Sessions.Inv(l.st) && l.posted > 0 && w !in l.st.holding && e in l.st.net.active
    requires kind.Heartbeat? || kind.Data?
    ensures var (ts, s) := (Repeat(Datagram(w, e, kind), n), l.st.net.active[e]);
            && IsTurns(l, ts)
            && var z := AfterTurns(l, ts);
               && z.posted == l.posted && z.st.net.active == l.st.net.active
               && Sessions.Credit(z.st.net, s) == Sessions.Credit(l.st.net, s) + n
    decreases n
  {
    if n > 0 {
      var t := Datagram(w, e, kind);
      var ts := Repeat(t, n);
      AliveTurn(l, w, e, kind);
      CutShortIff(l.st.net, t);
      TurnKeeps(l, t);
      assert ts[1..] == Repeat(t, n - 1);
      hide Sessions.Inv, Handled, CutShort;
      SessionHeard(Take(l, t), w, e, kind, n - 1);
    }
  }

  // One client is enough: with a single receive posted, each of its heartbeats or data
  // datagrams raises its session's credit, and the receive is posted again every time.
  lemma OneClientHeard(w: Sessions.Worker, e: Sessions.Endpoint, kind: Packets.Kind, n: nat)
    requires kind.Heartbeat? || kind.Data?
    ensures var l := Loop(Sessions.Start(), 1);
            && IsTurns(l, Client(w, e, kind, n))
            && var z := AfterTurns(l, Client(w, e, kind, n));
               z.posted == 1 && z.st.net.active == map[e := 0] && Sessions.Credit(z.st.net, 0) == n
  {
    var l := Loop(Sessions.Start(), 1);
    var (syn, ack) := (Datagram(w, e, Packets.Syn), Datagram(w, e, Packets.Ack));
    var l1 := Take(l, syn);
    var l2 := Take(l1, ack);
    Sessions.StartInv();
    TurnKeeps(l, syn);
    TurnKeeps(l1, ack);
    var rest := Repeat(Datagram(w, e, kind), n);
    SessionHeard(l2, w, e, kind, n);
    AfterCons(l1, ack, rest);
    AfterCons(l, syn, [ack] + rest);
    assert [syn] + ([ack] + rest) == Client(w, e, kind, n);
  }

  lemma AfterCons(l: Loop, t: Turn, ts: seq<Turn>)
    requires Possible(l, t) && IsTurns(Take(l, t), ts)
    ensures IsTurns(l, [t] + ts) && AfterTurns(l, [t] + ts) == AfterTurns(Take(l, t), ts)
  {
    assert ([t] + ts)[1..] == ts;
  }

  // And each of its data datagrams is delivered.

  lemma OneClientDelivers(w: Sessions.Worker, e: Sessions.Endpoint, n: nat)
    ensures var l := Loop(Sessions.Start(), 1);
            IsTurns(l, Client(w, e, Packets.Data, n)) && Delivered(l, Client(w, e, Packets.Data, n)) == n
  {
    var l := Loop(Sessions.Start(), 1);
    var (syn, ack) := (Datagram(w, e, Packets.Syn), Datagram(w, e, Packets.Ack));
    var l1 := Take(l, syn);
    var l2 := Take(l1, ack);
    Sessions.StartInv();
    TurnKeeps(l, syn);
    TurnKeeps(l1, ack);
    var data := Repeat(Datagram(w, e, Packets.Data), n);
    SessionDelivers(l2, w, e, n);
    TurnCons(l1, ack, data);
    TurnCons(l, syn, [ack] + data);
    assert [syn] + ([ack] + data) == Client(w, e, Packets.Data, n);
  }

  lemma TurnCons(l: Loop, t: Turn, ts: seq<Turn>)
    requires Possible(l, t) && IsTurns(Take(l, t), ts)
    ensures IsTurns(l, [t] + ts)
    ensures Delivered(l, [t] + ts) == (if Delivers(l.st.net, t) then 1 else 0) + Delivered(Take(l, t), ts)
  {
    assert ([t] + ts)[1..] == ts;
  }
}
