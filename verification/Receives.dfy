// The receives posted on the socket. Each worker posts one at the start; a completion takes
// one, and the turn of the loop that handles it posts another, unless it is cut short.
module Receives {
  import opened Memory
  import opened Sessions
  import Packets

  datatype Loop = Loop(st: State, posted: nat)

  // A worker handles a datagram, or finds that a receive has failed, or the reaper makes
  // one of its accesses.
  datatype Turn =
    | Datagram(w: Worker, e: Endpoint, kind: Packets.Kind)
    | Failed(w: Worker)
    | Reaper(ev: Event)

  // The turns that end in `continue`.
  predicate CutShort(n: Net, t: Turn)
  {
    match t
    case Failed(_) => true
    case Reaper(_) => false
    case Datagram(_, e, kind) =>
      match kind
      case TooShort => true
      case Ack => e !in n.pending
      case Heartbeat => e !in n.active
      case Data => e !in n.active
      case _ => false
  }

  // The turns that hand a packet to the packet handler.
  predicate Delivers(n: Net, t: Turn)
  {
    t.Datagram? && t.kind.Data? && t.e in n.active
  }

  // What the completion of a receive reports when a datagram of these bytes arrives: one
  // larger than the buffer completes it with an error.
  function Arrival(w: Worker, e: Endpoint, wire: seq<byte>, buffered: seq<byte>): Turn
    requires |buffered| == Packets.SOCKET_BUF_SIZE
  {
    if |wire| > Packets.SOCKET_BUF_SIZE then Failed(w)
    else Datagram(w, e, Packets.Classify(|wire|, wire + buffered[|wire|..]))
  }

  // Of the packets that can be built, those with more than 508 body bytes, and no others,
  // fail the receive they meet.
  lemma OversizedFails(w: Worker, e: Endpoint, size: Packets.Short, packetType: Packets.Short,
                       body: seq<byte>, buffered: seq<byte>)
    requires Packets.Unsigned(size) <= Packets.MAX_PACKET_SIZE && |body| == Packets.Unsigned(size)
    requires |buffered| == Packets.SOCKET_BUF_SIZE
    ensures Arrival(w, e, Packets.Image(size, packetType, body), buffered) == Failed(w)
       <==> !(0 <= size <= 508)
  {
    Packets.FitsIff(size, packetType, body);
  }

  // A turn is cut short if its receive failed or brought fewer bytes than a header, if an
  // ACK's endpoint is not pending, or if a heartbeat's or data's endpoint is not active.
  lemma CutShortIff(n: Net, t: Turn)
    ensures CutShort(n, t)
       <==> t.Failed?
            || (t.Datagram? && t.kind.TooShort?)
            || (t.Datagram? && t.kind.Ack? && t.e !in n.pending)
            || (t.Datagram? && (t.kind.Heartbeat? || t.kind.Data?) && t.e !in n.active)
  {
  }

  predicate Possible(l: Loop, t: Turn)
  {
    match t
    case Datagram(w, e, kind) =>
      l.posted > 0 && w !in l.st.holding && (kind.Ack? ==> Enabled(l.st, Event.Ack(e)))
    case Failed(w) => l.posted > 0
    case Reaper(ev) => ByReaper(ev) && Enabled(l.st, ev)
  }

  // The tables after a datagram's handler.
  function Handled(st: State, w: Worker, e: Endpoint, kind: Packets.Kind): State
    requires w !in st.holding && (kind.Ack? ==> Enabled(st, Event.Ack(e)))
  {
    match kind
    case Syn => Apply(st, Event.Syn(e))
    case Ack => Apply(st, Event.Ack(e))
    case TooShort => st
    case Other => st
    case _ =>
      if e in st.net.active
      then Apply(Apply(st, Lookup(w, e)), Increment(w, st.net.active[e]))
      else st
  }

  function Take(l: Loop, t: Turn): Loop
    requires Possible(l, t)
  {
    var posted := if CutShort(l.st.net, t) then l.posted - 1 else l.posted;
    match t
    case Datagram(w, e, kind) => Loop(Handled(l.st, w, e, kind), posted)
    case Failed(_) => Loop(l.st, posted)
    case Reaper(ev) => Loop(Apply(l.st, ev), posted)
  }

  // A heartbeat or data from an active endpoint raises its session's credit by one and
  // leaves the tables alone; from any other endpoint it changes nothing.
  lemma AliveTurn(l: Loop, w: Worker, e: Endpoint, kind: Packets.Kind)
    requires Inv(l.st) && Possible(l, Datagram(w, e, kind)) && (kind.Heartbeat? || kind.Data?)
    ensures var (n, st') := (l.st.net, Take(l, Datagram(w, e, kind)).st);
            && (e in n.active ==>
                  var s := n.active[e];
                  && s in n.credit && st'.net.credit == n.credit[s := n.credit[s] + 1]
                  && st'.net.(credit := n.credit) == n)
            && (e !in n.active ==> st' == l.st)
            && st'.reaper == l.st.reaper && st'.holding == l.st.holding
  {
    if e in l.st.net.active {
      var held := Apply(l.st, Lookup(w, e));
      AliveEffect(l.st, w, e, l.st.net.active[e]);
      StepKeeps(l.st, Lookup(w, e));
      assert held.holding == l.st.holding[w := l.st.net.active[e]];
      AliveEffect(held, w, e, l.st.net.active[e]);
      assert InActive(l.st.net, l.st.net.active[e]);
      TrackedKnown(l.st.net, l.st.net.active[e]);
      assert l.st.holding[w := l.st.net.active[e]] - {w} == l.st.holding;
    }
  }

  // SYN and ACK turns are those events; the other turns of workers change no table.
  lemma OtherTurns(l: Loop, t: Turn)
    requires Possible(l, t)
    ensures t.Datagram? && t.kind.Syn? ==> Take(l, t).st == Apply(l.st, Event.Syn(t.e))
    ensures t.Datagram? && t.kind.Ack? ==> Take(l, t).st == Apply(l.st, Event.Ack(t.e))
    ensures t.Reaper? ==> Take(l, t).st == Apply(l.st, t.ev)
    ensures t.Failed? || (t.Datagram? && (t.kind.TooShort? || t.kind.Other?)) ==> Take(l, t).st == l.st
  {
  }

  ghost predicate IsTurns(l: Loop, ts: seq<Turn>)
    decreases |ts|
  {
    ts == [] || (Possible(l, ts[0]) && IsTurns(Take(l, ts[0]), ts[1..]))
  }

  ghost function AfterTurns(l: Loop, ts: seq<Turn>): Loop
    requires IsTurns(l, ts)
    decreases |ts|
  {
    if ts == [] then l else AfterTurns(Take(l, ts[0]), ts[1..])
  }

  // The number of turns cut short.
  ghost function Cuts(l: Loop, ts: seq<Turn>): nat
    requires IsTurns(l, ts)
    decreases |ts|
  {
    if ts == [] then 0
    else
      (if CutShort(l.st.net, ts[0]) then 1 else 0)
      + Cuts(Take(l, ts[0]), ts[1..])
  }

  // Every turn cut short costs a receive, and nothing brings one back.
  lemma {:induction false} PostedCount(l: Loop, ts: seq<Turn>)
    requires IsTurns(l, ts)
    ensures AfterTurns(l, ts).posted + Cuts(l, ts) == l.posted
    decreases |ts|
  {
    if ts != [] {
      hide Handled, CutShort;
      PostedCount(Take(l, ts[0]), ts[1..]);
    }
  }

  // No receive fails or comes short, acknowledges in vain, or claims a session that is not.
  ghost predicate NoneWasted(l: Loop, ts: seq<Turn>)
    requires IsTurns(l, ts)
    decreases |ts|
  {
    ts == [] ||
    (!ts[0].Failed?
     && (ts[0].Datagram? ==>
           && !ts[0].kind.TooShort?
           && (ts[0].kind.Ack? ==> ts[0].e in l.st.net.pending)
           && (ts[0].kind.Heartbeat? || ts[0].kind.Data? ==> ts[0].e in l.st.net.active))
     && NoneWasted(Take(l, ts[0]), ts[1..]))
  }

  // A run keeps all its receives exactly if none of them is wasted.
  lemma {:induction false} KeptIff(l: Loop, ts: seq<Turn>)
    requires IsTurns(l, ts)
    ensures AfterTurns(l, ts).posted == l.posted <==> NoneWasted(l, ts)
    ensures AfterTurns(l, ts).posted <= l.posted
    decreases |ts|
  {
    if ts != [] {
      CutShortIff(l.st.net, ts[0]);
      KeptIff(Take(l, ts[0]), ts[1..]);
    }
  }

  // A datagram can still be received exactly if fewer turns have been cut short, failed
  // receives included, than receives were posted at the start.
  lemma DeafIff(l: Loop, ts: seq<Turn>, w: Worker, e: Endpoint)
    requires IsTurns(l, ts) && w !in AfterTurns(l, ts).st.holding
    ensures Possible(AfterTurns(l, ts), Datagram(w, e, Packets.Heartbeat)) <==> Cuts(l, ts) < l.posted
  {
    PostedCount(l, ts);
  }

  // Once none is posted, no datagram is received in any continuation.
  lemma {:induction false} DeafForever(l: Loop, ts: seq<Turn>)
    requires l.posted == 0 && IsTurns(l, ts)
    ensures forall k :: 0 <= k < |ts| ==> ts[k].Reaper?
    decreases |ts|
  {
    if ts != [] {
      DeafForever(Take(l, ts[0]), ts[1..]);
      assert forall k :: 0 < k < |ts| ==> ts[k] == ts[1..][k - 1];
    }
  }

  function Strangers(w: Worker, e: Endpoint, n: nat): seq<Turn>
  {
    if n == 0 then [] else [Datagram(w, e, Packets.Heartbeat)] + Strangers(w, e, n - 1)
  }

  // As many heartbeats as there are posted receives, from an endpoint without a session,
  // deafen the server and change nothing else.
  lemma {:induction false} StrangersDeafen(l: Loop, w: Worker, e: Endpoint)
    requires w !in l.st.holding && e !in l.st.net.active
    ensures IsTurns(l, Strangers(w, e, l.posted))
    ensures AfterTurns(l, Strangers(w, e, l.posted)) == Loop(l.st, 0)
    decreases l.posted
  {
    if l.posted > 0 {
      var ts := Strangers(w, e, l.posted);
      StrangersDeafen(Take(l, ts[0]), w, e);
      assert ts[1..] == Strangers(w, e, l.posted - 1);
    }
  }

  // The datagrams of endpoint e that claim to belong to a session.
  function Claims(ts: seq<Turn>, e: Endpoint): nat
  {
    if ts == [] then 0
    else
      (if ts[0].Datagram? && ts[0].e == e && (ts[0].kind.Heartbeat? || ts[0].kind.Data?) then 1 else 0)
      + Claims(ts[1..], e)
  }

  predicate Acknowledges(t: Turn, e: Endpoint)
  {
    t.Datagram? && t.e == e && t.kind.Ack?
  }

  lemma StaysOut(l: Loop, t: Turn, e: Endpoint)
    requires Inv(l.st) && Possible(l, t) && e !in l.st.net.active && !Acknowledges(t, e)
    ensures e !in Take(l, t).st.net.active
  {
  }

  // An endpoint without a session, evicted for example, that goes on sending heartbeats or
  // data and does not shake hands anew, costs a receive with each of them, whatever else
  // happens; it cannot be heard more often than receives are posted.
  lemma {:induction false} ClaimsCost(l: Loop, ts: seq<Turn>, e: Endpoint)
    requires Inv(l.st) && IsTurns(l, ts) && e !in l.st.net.active
    requires forall k :: 0 <= k < |ts| ==> !Acknowledges(ts[k], e)
    ensures Claims(ts, e) <= Cuts(l, ts) && Claims(ts, e) <= l.posted
    decreases |ts|
  {
    if ts != [] {
      hide Inv, Take, Possible, Acknowledges;
      TurnKeeps(l, ts[0]);
      StaysOut(l, ts[0], e);
      assert forall k :: 0 <= k < |ts[1..]| ==> ts[1..][k] == ts[k + 1];
      ClaimsCost(Take(l, ts[0]), ts[1..], e);
    }
    PostedCount(l, ts);
  }

  // The tables stay sound through every run of the loop.
  lemma {:induction false} TurnsKeep(l: Loop, ts: seq<Turn>)
    requires Inv(l.st) && IsTurns(l, ts)
    ensures Inv(AfterTurns(l, ts).st)
    decreases |ts|
  {
    if ts != [] {
      TurnKeeps(l, ts[0]);
      hide Inv, Take, Possible;
      TurnsKeep(Take(l, ts[0]), ts[1..]);
    }
  }

  lemma TurnKeeps(l: Loop, t: Turn)
    requires Inv(l.st) && Possible(l, t)
    ensures Inv(Take(l, t).st)
  {
    hide Inv, OnSyn, OnAck, ReapAt;
    match t
    case Failed(_) =>
    case Reaper(ev) => StepKeeps(l.st, ev);
    case Datagram(w, e, kind) =>
      if kind.Syn? {
        StepKeeps(l.st, Event.Syn(e));
      } else if kind.Ack? {
        StepKeeps(l.st, Event.Ack(e));
      } else if (kind.Heartbeat? || kind.Data?) && e in l.st.net.active {
        StepKeeps(l.st, Lookup(w, e));
        StepKeeps(Apply(l.st, Lookup(w, e)), Increment(w, l.st.net.active[e]));
      }
  }
}
