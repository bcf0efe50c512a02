// The free list under concurrency: its owner tests, pops, pushes and grows at the head
// while any number of other threads append at the tail, one memory access at a time.
// Only link words matter here, so memory is one word per chunk.
module Appenders {
  import opened Sequences

  type Tid = nat

  const NULL := 0

  // Where the owner stands in Malloc, resize_and_malloc, segregate or free. A growth
  // carries the carved chunks in ascending order and, for the record, how many tail
  // updates there had been at its empty check and at its read of the tail.
  datatype Owner =
    | Idle
    | MayPop
    | SawEmpty(checked: nat)
    | HasBlock(block: seq<int>, checked: nat)
    | TestedTail(block: seq<int>, checked: nat, wasNull: bool)
    | WroteFirstTail(block: seq<int>, checked: nat)
    | Carving(block: seq<int>, left: nat, checked: nat, read: nat)
    | LinkedOwn(c: int)

  // Where another thread stands in free_append.
  datatype Appender = Waiting(c: int) | Locked(c: int) | Linked(c: int) | Stored(c: int)

  datatype Lock = Unlocked | HeldBy(t: Tid)

  // link, head, tail, the lock and the program counters are the program's; chain, live,
  // lost, chunks and tailUpdates record its history and influence no step.
  datatype State = State(
    link: int -> int, head: int, tail: int, lock: Lock,
    owner: Owner, appenders: map<Tid, Appender>,
    chain: seq<int>, live: set<int>, lost: set<int>, chunks: set<int>, tailUpdates: nat)

  datatype Event =
    | CheckEmpty
    | SystemFails
    | SystemGives(block: seq<int>)
    | TestTail
    | WriteFirstTail
    | WriteFirstLink
    | ReadTail
    | Carve
    | Publish
    | Pop
    | OwnLink(c: int)
    | OwnPush
    | AppendBegin(t: Tid, c: int)
    | AppendLock(t: Tid)
    | AppendLink(t: Tid)
    | AppendStore(t: Tid)
    | AppendUnlock(t: Tid)
    | UserWrite(c: int, v: int)

  function Set(f: int -> int, a: int, v: int): int -> int
  {
    (x: int) => if x == a then v else f(x)
  }

  function At(s: seq<int>, i: int): int
  {
    if 0 <= i < |s| then s[i] else NULL
  }

  function Last(s: seq<int>): int
  {
    At(s, |s| - 1)
  }

  function Pred(n: nat): nat
  {
    if n == 0 then 0 else n - 1
  }

  function DropFirst(s: seq<int>, k: int): seq<int>
  {
    if 0 <= k <= |s| then s[k..] else []
  }

  function TakeFirst(s: seq<int>, k: int): seq<int>
  {
    if 0 <= k <= |s| then s[..k] else []
  }

  // The new block's chunks as the system and the carving arithmetic give them.
  ghost predicate FreshBlock(s: State, block: seq<int>)
  {
    |block| >= 2 && Distinct(block) && NULL !in block && Elems(block) !! s.chunks
  }

  ghost predicate Enabled(s: State, e: Event)
  {
    match e
    case CheckEmpty => s.owner.Idle?
    case SystemFails => s.owner.SawEmpty?
    case SystemGives(block) => s.owner.SawEmpty? && FreshBlock(s, block)
    case TestTail => s.owner.HasBlock?
    case WriteFirstTail => s.owner.TestedTail? && s.owner.wasNull
    case WriteFirstLink => s.owner.WroteFirstTail?
    case ReadTail => s.owner.TestedTail? && !s.owner.wasNull
    case Carve => s.owner.Carving? && s.owner.left > 0
    case Publish => s.owner.Carving? && s.owner.left == 0
    case Pop => s.owner.MayPop?
    case OwnLink(c) => s.owner.Idle? && c in s.live
    case OwnPush => s.owner.LinkedOwn?
    case AppendBegin(t, c) => t !in s.appenders && c in s.live
    case AppendLock(t) => t in s.appenders && s.appenders[t].Waiting? && s.lock.Unlocked?
    case AppendLink(t) => t in s.appenders && s.appenders[t].Locked?
    case AppendStore(t) => t in s.appenders && s.appenders[t].Linked?
    case AppendUnlock(t) => t in s.appenders && s.appenders[t].Stored?
    case UserWrite(c, v) => c in s.live
  }

  ghost function OwnerStep(s: State, e: Event): State
    requires Enabled(s, e)
  {
    match e
    case CheckEmpty =>
      s.(owner := if s.head == s.tail then SawEmpty(s.tailUpdates) else MayPop)
    case SystemFails => s.(owner := Idle)
    case SystemGives(block) => s.(owner := HasBlock(block, s.owner.checked))
    case TestTail => s.(owner := TestedTail(s.owner.block, s.owner.checked, s.tail == NULL))
    case WriteFirstTail =>
      s.(tail := Last(s.owner.block), owner := WroteFirstTail(s.owner.block, s.owner.checked))
    case WriteFirstLink =>
      s.(link := Set(s.link, s.tail, NULL),
         owner := Carving(s.owner.block, Pred(|s.owner.block|), s.owner.checked, s.tailUpdates))
    case ReadTail =>
      s.(link := Set(s.link, Last(s.owner.block), s.tail),
         owner := Carving(s.owner.block, Pred(|s.owner.block|), s.owner.checked, s.tailUpdates))
    case Carve =>
      var j := s.owner.left;
      s.(link := Set(s.link, At(s.owner.block, j - 1), At(s.owner.block, j)), owner := s.owner.(left := j - 1))
    case Publish =>
      // Chunks before the one the growth read as the tail drop out of the list.
      var k := s.owner.read - s.owner.checked;
      s.(head := At(s.owner.block, 0), owner := MayPop,
         chain := s.owner.block + DropFirst(s.chain, k),
         lost := s.lost + Elems(TakeFirst(s.chain, k)),
         chunks := s.chunks + Elems(s.owner.block))
    case Pop =>
      s.(head := s.link(s.head), owner := Idle, chain := DropFirst(s.chain, 1), live := s.live + {s.head})
    case OwnLink(c) => s.(link := Set(s.link, c, s.head), owner := LinkedOwn(c), live := s.live - {c})
    case OwnPush => s.(head := s.owner.c, owner := Idle, chain := [s.owner.c] + s.chain)
    case _ => s
  }

  ghost function AppenderStep(s: State, e: Event): State
    requires Enabled(s, e)
  {
    match e
    case AppendBegin(t, c) => s.(appenders := s.appenders[t := Waiting(c)], live := s.live - {c})
    case AppendLock(t) => s.(appenders := s.appenders[t := Locked(s.appenders[t].c)], lock := HeldBy(t))
    case AppendLink(t) =>
      var c := s.appenders[t].c;
      s.(link := Set(s.link, s.tail, c), appenders := s.appenders[t := Linked(c)])
    case AppendStore(t) =>
      var c := s.appenders[t].c;
      s.(tail := c, appenders := s.appenders[t := Stored(c)],
         chain := s.chain + [c], tailUpdates := s.tailUpdates + 1)
    case AppendUnlock(t) => s.(appenders := s.appenders - {t}, lock := Unlocked)
    case UserWrite(c, v) => s.(link := Set(s.link, c, v))
    case _ => s
  }

  predicate ByOwner(e: Event)
  {
    match e
    case AppendBegin(_, _) => false
    case AppendLock(_) => false
    case AppendLink(_) => false
    case AppendStore(_) => false
    case AppendUnlock(_) => false
    case UserWrite(_, _) => false
    case _ => true
  }

  ghost function Apply(s: State, e: Event): State
    requires Enabled(s, e)
  {
    if ByOwner(e) then OwnerStep(s, e) else AppenderStep(s, e)
  }

  // ---------- the invariant ----------

  predicate Pending(a: Appender)
  {
    !a.Stored?
  }

  // The chunks being given back: out of users' hands, not yet in the list.
  ghost function InTransit(s: State): set<int>
  {
    (set t | t in s.appenders && Pending(s.appenders[t]) :: s.appenders[t].c)
    + (if s.owner.LinkedOwn? then {s.owner.c} else {})
  }

  // No chunk is being given back twice.
  ghost predicate TransitOnce(s: State)
  {
    && (forall t, u | t in s.appenders && u in s.appenders && t != u
            && Pending(s.appenders[t]) && Pending(s.appenders[u]) ::
          s.appenders[t].c != s.appenders[u].c)
    && (forall t | t in s.appenders && Pending(s.appenders[t]) && s.owner.LinkedOwn? ::
          s.appenders[t].c != s.owner.c)
  }

  // Every chunk is exactly one of live, being given back, in the list, or lost.
  ghost predicate Conserved(s: State)
  {
    && Distinct(s.chain)
    && s.live !! InTransit(s) !! Elems(s.chain) !! s.lost
    && s.live + InTransit(s) + Elems(s.chain) + s.lost == s.chunks
    && NULL !in s.chunks
  }

  ghost predicate LockOk(s: State)
  {
    && (s.lock.HeldBy? ==> s.lock.t in s.appenders)
    && (forall t :: t in s.appenders ==> (s.lock == HeldBy(t) <==> !s.appenders[t].Waiting?))
  }

  // Before the first block there is nothing to append and nothing in the list.
  ghost predicate EndsOk(s: State)
  {
    if s.chain == [] then
      && s.head == NULL && s.live == {} && s.appenders == map[] && !s.owner.MayPop? && !s.owner.LinkedOwn?
      && s.tail == (if s.owner.WroteFirstTail? || s.owner.Carving? then Last(s.owner.block) else NULL)
    else
      && s.head == s.chain[0] && s.tail == Last(s.chain)
      && !s.owner.WroteFirstTail?
  }

  // What the owner may rely on at its place in the code.
  ghost predicate OwnerOk(s: State)
  {
    match s.owner
    case Idle => true
    case MayPop => |s.chain| >= 2
    case LinkedOwn(c) => s.link(c) == s.head
    case SawEmpty(checked) => Window(s, checked)
    case HasBlock(block, checked) => FreshBlock(s, block) && Window(s, checked)
    case TestedTail(block, checked, wasNull) =>
      FreshBlock(s, block) && Window(s, checked) && (wasNull <==> s.chain == [])
    case WroteFirstTail(block, checked) =>
      FreshBlock(s, block) && Window(s, checked) && s.chain == []
    case Carving(block, left, checked, read) =>
      && FreshBlock(s, block) && left < |block| && checked <= read
      && Chained(s.link, block[left..])
      && (if s.chain == [] then read == checked && s.link(Last(block)) == NULL
          else read - checked < |s.chain| && s.link(Last(block)) == s.chain[read - checked])
  }

  // Since the empty check the list has grown by the tail updates and nothing else.
  ghost predicate Window(s: State, checked: nat)
  {
    checked <= s.tailUpdates
    && (if s.chain == [] then checked == s.tailUpdates else |s.chain| == 1 + s.tailUpdates - checked)
  }

  // A linked but not yet stored chunk hangs off the tail.
  ghost predicate LinkedOk(s: State)
  {
    forall t :: t in s.appenders && s.appenders[t].Linked? ==> s.link(s.tail) == s.appenders[t].c
  }

  ghost predicate Inv(s: State)
  {
    && TransitOnce(s) && Conserved(s) && LockOk(s)
    && Chained(s.link, s.chain) && EndsOk(s) && OwnerOk(s) && LinkedOk(s)
  }

  ghost predicate Init(s: State)
  {
    && s.head == NULL && s.tail == NULL && s.lock.Unlocked? && s.owner.Idle? && s.appenders == map[]
    && s.chain == [] && s.live == {} && s.lost == {} && s.chunks == {} && s.tailUpdates == 0
  }

  lemma InitInv(s: State)
    requires Init(s)
    ensures Inv(s)
  {
  }

  // ---------- preservation, event by event ----------

  lemma ChainMembers(s: State)
    requires Inv(s)
    ensures forall i :: 0 <= i < |s.chain| ==> s.chain[i] in Elems(s.chain) && s.chain[i] in s.chunks
    ensures forall t :: t in s.appenders && Pending(s.appenders[t]) ==> s.appenders[t].c in InTransit(s)
  {
    assert forall i :: 0 <= i < |s.chain| ==> s.chain[i] in Elems(s.chain);
  }

  lemma CheckKeeps(s: State, e: Event)
    requires Inv(s) && Enabled(s, e)
    requires e.CheckEmpty? || e.SystemFails? || e.SystemGives? || e.TestTail?
    ensures Inv(OwnerStep(s, e))
  {
    ChainMembers(s);
    var s' := OwnerStep(s, e);
    assert InTransit(s') == InTransit(s);
  }

  lemma FirstTailKeeps(s: State, e: Event)
    requires Inv(s) && Enabled(s, e) && (e.WriteFirstTail? || e.WriteFirstLink? || e.ReadTail?)
    ensures Inv(OwnerStep(s, e))
  {
    ChainMembers(s);
    var s' := OwnerStep(s, e);
    assert InTransit(s') == InTransit(s);
    assert Last(s.owner.block) in Elems(s.owner.block);
  }

  lemma ChainedDown(link: int -> int, b: seq<int>, j: nat)
    requires Distinct(b) && 0 < j < |b| && Chained(link, b[j..])
    ensures Chained(Set(link, b[j - 1], b[j]), b[j - 1..])
  {
    var (up, down) := (b[j..], b[j - 1..]);
    forall i | 0 <= i < |down| - 1
      ensures Set(link, b[j - 1], b[j])(down[i]) == down[i + 1]
    {
      if i > 0 {
        assert up[i - 1] == down[i] && up[i] == down[i + 1];
      }
    }
  }

  lemma ChainedFrame(link: int -> int, chain: seq<int>, a: int, v: int)
    requires Chained(link, chain) && a !in chain
    ensures Chained(Set(link, a, v), chain)
  {
  }

  lemma CarveLinks(s: State)
    requires Inv(s) && Enabled(s, Carve)
    ensures var s' := OwnerStep(s, Carve);
            && Chained(s'.link, s.chain) && Chained(s'.link, s.owner.block[s'.owner.left..])
            && (forall x :: x in s.chunks ==> s'.link(x) == s.link(x))
            && s'.link(Last(s.owner.block)) == s.link(Last(s.owner.block))
            && (s.chain != [] ==> forall i :: 0 <= i < |s.chain| ==> s.chain[i] in s.chunks)
            && (s.chain != [] ==> s.tail in s.chunks)
  {
    var (b, j) := (s.owner.block, s.owner.left);
    ChainMembers(s);
    assert forall i :: 0 <= i < |b| ==> b[i] in Elems(b);
    ChainedDown(s.link, b, j);
    ChainedFrame(s.link, s.chain, b[j - 1], b[j]);
  }

  lemma CarveKeeps(s: State)
    requires Inv(s) && Enabled(s, Carve)
    ensures Inv(OwnerStep(s, Carve))
  {
    hide Chained, Distinct, Elems, FreshBlock, Set;
    var s' := OwnerStep(s, Carve);
    CarveLinks(s);
    assert InTransit(s') == InTransit(s);
    assert FreshBlock(s', s'.owner.block) by {
      FreshBlockKept(s, s', s.owner.block);
    }
  }

  lemma FreshBlockKept(s: State, s': State, block: seq<int>)
    requires FreshBlock(s, block) && s'.chunks == s.chunks
    ensures FreshBlock(s', block)
  {
  }

  lemma ElemsSplit(s: seq<int>, k: nat)
    requires k <= |s| && Distinct(s)
    ensures Elems(s) == Elems(s[..k]) + Elems(s[k..])
    ensures Elems(s[..k]) !! Elems(s[k..])
    ensures Distinct(s[k..]) && Distinct(s[..k])
  {
    assert s == s[..k] + s[k..];
    ElemsJoin(s[..k], s[k..]);
  }

  // Publication: the new block replaces what the growth did not see at the tail.
  lemma PublishShape(s: State)
    requires Inv(s) && Enabled(s, Publish)
    ensures var k := s.owner.read - s.owner.checked;
            && 0 <= k <= |s.chain| && (s.chain != [] ==> k < |s.chain|)
            && OwnerStep(s, Publish).chain == s.owner.block + s.chain[k..]
            && OwnerStep(s, Publish).lost == s.lost + Elems(s.chain[..k])
  {
  }

  lemma PublishConserves(s: State)
    requires Inv(s) && Enabled(s, Publish)
    ensures Conserved(OwnerStep(s, Publish))
  {
    var s' := OwnerStep(s, Publish);
    var k := s.owner.read - s.owner.checked;
    PublishShape(s);
    ElemsSplit(s.chain, k);
    ElemsJoin(s.owner.block, s.chain[k..]);
    assert forall x :: x in s.owner.block ==> x in Elems(s.owner.block);
    assert forall x :: x in s.chain[k..] ==> x in Elems(s.chain[k..]);
    DistinctJoin(s.owner.block, s.chain[k..]);
    assert InTransit(s') == InTransit(s);
  }

  lemma PublishLinks(s: State)
    requires Inv(s) && Enabled(s, Publish)
    ensures Chained(s.link, OwnerStep(s, Publish).chain)
  {
    var k := s.owner.read - s.owner.checked;
    PublishShape(s);
    assert s.owner.block[0..] == s.owner.block;
    ChainedDrop(s.link, s.chain, k);
    ChainedJoin(s.link, s.owner.block, s.chain[k..]);
  }

  lemma PublishKeeps(s: State)
    requires Inv(s) && Enabled(s, Publish)
    ensures Inv(OwnerStep(s, Publish))
  {
    PublishShape(s);
    PublishConserves(s);
    PublishLinks(s);
    hide Conserved, Chained;
    var s' := OwnerStep(s, Publish);
    assert EndsOk(s');
  }

  lemma PopKeeps(s: State)
    requires Inv(s) && Enabled(s, Pop)
    ensures Inv(OwnerStep(s, Pop))
  {
    ChainMembers(s);
    var s' := OwnerStep(s, Pop);
    assert InTransit(s') == InTransit(s);
    assert s.chain == [s.chain[0]] + s'.chain;
    ElemsJoin([s.chain[0]], s'.chain);
    assert s.chain[0] !in Elems(s'.chain);
  }

  lemma OwnLinkKeeps(s: State, c: int)
    requires Inv(s) && Enabled(s, OwnLink(c))
    ensures Inv(OwnerStep(s, OwnLink(c)))
  {
    ChainMembers(s);
    var s' := OwnerStep(s, OwnLink(c));
    assert InTransit(s') == InTransit(s) + {c};
  }

  lemma OwnPushKeeps(s: State)
    requires Inv(s) && Enabled(s, OwnPush)
    ensures Inv(OwnerStep(s, OwnPush))
  {
    ChainMembers(s);
    var s' := OwnerStep(s, OwnPush);
    var c := s.owner.c;
    assert c in InTransit(s);
    assert InTransit(s') == InTransit(s) - {c};
    ElemsJoin([c], s.chain);
  }

  // How a thread's progress changes the set of chunks being given back.
  lemma TransitAfter(s: State, s': State, t: Tid, a: Appender)
    requires s'.owner == s.owner && s'.appenders == s.appenders[t := a] && TransitOnce(s)
    requires t in s.appenders ==> Pending(s.appenders[t]) && s.appenders[t].c == a.c
    requires t in s.appenders || Pending(a)
    ensures InTransit(s') == if Pending(a) then InTransit(s) + {a.c} else InTransit(s) - {a.c}
  {
    var after := if Pending(a) then InTransit(s) + {a.c} else InTransit(s) - {a.c};
    forall x | x in InTransit(s')
      ensures x in after
    {
      if u :| u in s'.appenders && Pending(s'.appenders[u]) && s'.appenders[u].c == x {
        assert u != t ==> s'.appenders[u] == s.appenders[u] && x in InTransit(s);
      }
    }
    forall x | x in after
      ensures x in InTransit(s')
    {
      if u :| u in s.appenders && Pending(s.appenders[u]) && s.appenders[u].c == x {
        assert s'.appenders[u] == if u == t then a else s.appenders[u];
      } else if x == a.c && Pending(a) {
        assert s'.appenders[t].c == x;
      }
    }
  }

  // t moves on with the same chunk, or starts with one that was in a user's hands.
  lemma TransitMoves(s: State, s': State, t: Tid, a: Appender)
    requires TransitOnce(s) && s'.owner == s.owner && s'.appenders == s.appenders[t := a]
    requires (t in s.appenders && Pending(s.appenders[t]) && s.appenders[t].c == a.c)
             || (t !in s.appenders && Pending(a) && a.c !in InTransit(s))
    ensures TransitOnce(s')
    ensures InTransit(s') == if Pending(a) then InTransit(s) + {a.c} else InTransit(s) - {a.c}
    ensures t in s.appenders ==> a.c in InTransit(s)
  {
    TransitAfter(s, s', t, a);
    assert forall u :: u in s.appenders && Pending(s.appenders[u]) ==> s.appenders[u].c in InTransit(s);
    assert forall u :: u in s.appenders && u != t ==> s'.appenders[u] == s.appenders[u];
  }

  // A write to a chunk word the owner is not using leaves the owner's place intact.
  lemma OwnerOkFrame(s: State, s': State, a: int, v: int)
    requires OwnerOk(s) && a in s.chunks && (s.owner.LinkedOwn? ==> a != s.owner.c)
    requires s'.link == Set(s.link, a, v)
    requires s'.owner == s.owner && s'.chain == s.chain && s'.chunks == s.chunks
    requires s'.tailUpdates == s.tailUpdates && s'.head == s.head
    ensures OwnerOk(s')
  {
    if s.owner.Carving? {
      var b := s.owner.block;
      assert forall i :: 0 <= i < |b| ==> b[i] in Elems(b);
      assert Last(b) == b[|b| - 1];
      ChainedFrame(s.link, b[s.owner.left..], a, v);
    }
  }

  lemma ChainedLast(link: int -> int, chain: seq<int>, v: int)
    requires Chained(link, chain) && Distinct(chain)
    ensures Chained(Set(link, Last(chain), v), chain)
  {
  }

  lemma LiveIsElsewhere(s: State, c: int)
    requires Conserved(s) && c in s.live
    ensures c in s.chunks && c !in InTransit(s) && c !in s.chain && c != NULL
    ensures EndsOk(s) ==> s.chain != []
    ensures s.owner.LinkedOwn? ==> c != s.owner.c
  {
    assert forall x :: x in s.chain ==> x in Elems(s.chain);
  }

  lemma TailIsElsewhere(s: State)
    requires Conserved(s) && EndsOk(s) && s.chain != []
    ensures s.tail in s.chunks && s.tail !in InTransit(s) && s.tail !in s.live
    ensures s.owner.LinkedOwn? ==> s.tail != s.owner.c
  {
    assert s.tail in Elems(s.chain);
  }

  lemma AppendBeginKeeps(s: State, t: Tid, c: int)
    requires Inv(s) && Enabled(s, AppendBegin(t, c))
    ensures Inv(AppenderStep(s, AppendBegin(t, c)))
  {
    var s' := AppenderStep(s, AppendBegin(t, c));
    LiveIsElsewhere(s, c);
    TransitMoves(s, s', t, Waiting(c));
    assert s'.live == s.live - {c} && s'.chain == s.chain && s'.lost == s.lost;
    assert Conserved(s');
    hide Conserved, TransitOnce, InTransit, Chained, Window;
    assert forall u :: u in s.appenders ==> s'.appenders[u] == s.appenders[u];
    assert OwnerOk(s');
  }

  lemma LockTransit(s: State, t: Tid)
    requires Inv(s) && Enabled(s, AppendLock(t))
    ensures var s' := AppenderStep(s, AppendLock(t)); TransitOnce(s') && Conserved(s')
  {
    var s' := AppenderStep(s, AppendLock(t));
    TransitMoves(s, s', t, Locked(s.appenders[t].c));
    hide InTransit, TransitOnce, Elems, Distinct;
    assert InTransit(s') == InTransit(s);
  }

  lemma AppendLockKeeps(s: State, t: Tid)
    requires Inv(s) && Enabled(s, AppendLock(t))
    ensures Inv(AppenderStep(s, AppendLock(t)))
  {
    hide Conserved, TransitOnce, InTransit, Chained, Window, FreshBlock;
    var s' := AppenderStep(s, AppendLock(t));
    LockTransit(s, t);
    assert forall u :: u in s.appenders && u != t ==> s'.appenders[u] == s.appenders[u];
    assert OwnerOk(s') by {
      SameOwnerOk(s, s');
    }
  }

  lemma SameOwnerOk(s: State, s': State)
    requires OwnerOk(s) && s'.link == s.link && s'.owner == s.owner && s'.chain == s.chain
    requires s'.chunks == s.chunks && s'.tailUpdates == s.tailUpdates && s'.head == s.head
    ensures OwnerOk(s')
  {
  }

  lemma AppendUnlockKeeps(s: State, t: Tid)
    requires Inv(s) && Enabled(s, AppendUnlock(t))
    ensures Inv(AppenderStep(s, AppendUnlock(t)))
  {
    var s' := AppenderStep(s, AppendUnlock(t));
    assert InTransit(s') == InTransit(s) by {
      forall u | u in s.appenders && Pending(s.appenders[u])
        ensures u in s'.appenders && s'.appenders[u] == s.appenders[u]
      {
      }
    }
    assert Conserved(s');
    assert TransitOnce(s');
    hide Conserved, TransitOnce, InTransit, Chained, Window;
    assert forall u :: u in s'.appenders ==> s'.appenders[u] == s.appenders[u];
    assert OwnerOk(s');
  }

  lemma AppendLinkKeeps(s: State, t: Tid)
    requires Inv(s) && Enabled(s, AppendLink(t))
    ensures Inv(AppenderStep(s, AppendLink(t)))
  {
    var s' := AppenderStep(s, AppendLink(t));
    var c := s.appenders[t].c;
    TransitMoves(s, s', t, Linked(c));
    assert InTransit(s') == InTransit(s);
    assert Conserved(s');
    TailIsElsewhere(s);
    OwnerOkFrame(s, s', s.tail, c);
    ChainedLast(s.link, s.chain, c);
    hide Conserved, TransitOnce, InTransit, Chained, OwnerOk, Distinct;
    assert forall u :: u in s.appenders && u != t ==> s'.appenders[u] == s.appenders[u];
  }

  lemma AppendStoreKeeps(s: State, t: Tid)
    requires Inv(s) && Enabled(s, AppendStore(t))
    ensures Inv(AppenderStep(s, AppendStore(t)))
  {
    var s' := AppenderStep(s, AppendStore(t));
    var c := s.appenders[t].c;
    TransitMoves(s, s', t, Stored(c));
    StoreConserves(s, s', c);
    assert s.chain != [] && s.link(Last(s.chain)) == c;
    ChainedJoin(s.link, s.chain, [c]);
    StoreOwnerOk(s, s', c);
    hide Conserved, TransitOnce, InTransit, Chained, OwnerOk, Distinct, Elems;
    assert forall u :: u in s.appenders && u != t ==> s'.appenders[u] == s.appenders[u];
    assert LinkedOk(s');
  }

  lemma StoreConserves(s: State, s': State, c: int)
    requires Conserved(s) && c in InTransit(s)
    requires s'.live == s.live && s'.lost == s.lost && s'.chunks == s.chunks
    requires s'.chain == s.chain + [c] && InTransit(s') == InTransit(s) - {c}
    ensures Conserved(s')
  {
    hide InTransit;
    ElemsJoin(s.chain, [c]);
    assert forall x :: x in s.chain ==> x in Elems(s.chain);
    DistinctJoin(s.chain, [c]);
  }

  // An append lengthens the list and the window alike.
  lemma StoreOwnerOk(s: State, s': State, c: int)
    requires OwnerOk(s) && s.chain != []
    requires s'.link == s.link && s'.owner == s.owner && s'.chunks == s.chunks && s'.head == s.head
    requires s'.chain == s.chain + [c] && s'.tailUpdates == s.tailUpdates + 1
    ensures OwnerOk(s')
  {
  }

  lemma UserWriteKeeps(s: State, c: int, v: int)
    requires Inv(s) && Enabled(s, UserWrite(c, v))
    ensures Inv(AppenderStep(s, UserWrite(c, v)))
  {
    var s' := AppenderStep(s, UserWrite(c, v));
    LiveIsElsewhere(s, c);
    TailIsElsewhere(s);
    assert InTransit(s') == InTransit(s);
    OwnerOkFrame(s, s', c, v);
    ChainedFrame(s.link, s.chain, c, v);
    hide InTransit, Chained, OwnerOk, Distinct, Elems;
  }

  // Whatever access happens next, by whichever thread, the invariant is kept.
  lemma StepKeeps(s: State, e: Event)
    requires Inv(s) && Enabled(s, e)
    ensures Inv(Apply(s, e))
  {
    hide Inv, Enabled, OwnerStep, AppenderStep;
    match e
    case CheckEmpty => CheckKeeps(s, e);
    case SystemFails => CheckKeeps(s, e);
    case SystemGives(_) => CheckKeeps(s, e);
    case TestTail => CheckKeeps(s, e);
    case WriteFirstTail => FirstTailKeeps(s, e);
    case WriteFirstLink => FirstTailKeeps(s, e);
    case ReadTail => FirstTailKeeps(s, e);
    case Carve => CarveKeeps(s);
    case Publish => PublishKeeps(s);
    case Pop => PopKeeps(s);
    case OwnLink(c) => OwnLinkKeeps(s, c);
    case OwnPush => OwnPushKeeps(s);
    case AppendBegin(t, c) => AppendBeginKeeps(s, t, c);
    case AppendLock(t) => AppendLockKeeps(s, t);
    case AppendLink(t) => AppendLinkKeeps(s, t);
    case AppendStore(t) => AppendStoreKeeps(s, t);
    case AppendUnlock(t) => AppendUnlockKeeps(s, t);
    case UserWrite(c, v) => UserWriteKeeps(s, c, v);
  }

  // ---------- runs ----------

  ghost predicate IsRun(s: State, es: seq<Event>)
    decreases |es|
  {
    es == [] || (Enabled(s, es[0]) && IsRun(Apply(s, es[0]), es[1..]))
  }

  ghost function After(s: State, es: seq<Event>): State
    requires IsRun(s, es)
    decreases |es|
  {
    if es == [] then s else After(Apply(s, es[0]), es[1..])
  }

  lemma {:induction false} RunKeeps(s: State, es: seq<Event>)
    requires Inv(s) && IsRun(s, es)
    ensures Inv(After(s, es))
    decreases |es|
  {
    if es != [] {
      StepKeeps(s, es[0]);
      RunKeeps(Apply(s, es[0]), es[1..]);
    }
  }

  function Follow(link: int -> int, a: int, n: nat): int
    decreases n
  {
    if n == 0 then a else Follow(link, link(a), n - 1)
  }

  lemma {:induction false} FollowChain(link: int -> int, chain: seq<int>, i: nat)
    requires Chained(link, chain) && i < |chain|
    ensures Follow(link, chain[0], i) == chain[i]
    decreases i
  {
    if i > 0 {
      ChainedDrop(link, chain, 1);
      FollowChain(link, chain[1..], i - 1);
    }
  }

  // At every moment of every run the links lead from head to tail through different
  // chunks, none of them in a user's hands or on its way back.
  lemma HeadReachesTail(s: State, es: seq<Event>)
    requires Init(s) && IsRun(s, es)
    ensures var z := After(s, es);
            && (z.chain == [] ==> z.head == NULL && z.live == {})
            && (z.chain != [] ==> Follow(z.link, z.head, |z.chain| - 1) == z.tail)
            && (forall i :: 0 <= i < |z.chain| ==>
                  var c := Follow(z.link, z.head, i);
                  c == z.chain[i] && c !in z.live && c !in InTransit(z) && c in z.chunks)
            && Distinct(z.chain)
  {
    InitInv(s);
    RunKeeps(s, es);
    var z := After(s, es);
    ChainMembers(z);
    forall i | 0 <= i < |z.chain|
      ensures Follow(z.link, z.head, i) == z.chain[i]
    {
      FollowChain(z.link, z.chain, i);
    }
  }

  // Every chunk ever published is in exactly one place, so the numbers add up.
  lemma CountsAddUp(s: State)
    requires Inv(s)
    ensures |s.chunks| == |s.live| + |InTransit(s)| + |s.chain| + |s.lost|
  {
    DistinctCount(s.chain);
    var (a, b, c) := (s.live, InTransit(s), Elems(s.chain));
    assert |a + b| == |a| + |b|;
    assert |a + b + c| == |a| + |b| + |c|;
  }

  // The assertion of free_append holds for every appender from its call to its return.
  lemma AppendersSeeATail(s: State, t: Tid)
    requires Inv(s) && t in s.appenders
    ensures s.tail != NULL
  {
    ChainMembers(s);
    assert s.appenders != map[];
    assert s.tail in s.chunks;
  }

  // ---------- what each access does ----------

  // The owner's free puts the chunk before the old list and gives it to nobody.
  lemma OwnPushEffect(s: State)
    requires Inv(s) && Enabled(s, OwnPush)
    ensures var (c, s') := (s.owner.c, Apply(s, OwnPush));
            && s'.head == c && s'.tail == s.tail
            && s'.chain == [c] + s.chain && s'.link == s.link
            && s'.live == s.live && s'.lost == s.lost && s'.chunks == s.chunks
            && c !in s'.live && c !in InTransit(s') && s'.owner.Idle?
  {
    StepKeeps(s, OwnPush);
    var c := s.owner.c;
    assert c in InTransit(s);
    assert c in Elems(Apply(s, OwnPush).chain);
  }

  // The list changes by a push at the front, a pop there, an append at the back, or a
  // publication, and by nothing else.
  lemma ListLaw(s: State, e: Event)
    requires Inv(s) && Enabled(s, e)
    ensures var s' := Apply(s, e);
            && (e.OwnPush? ==> s'.chain == [s.owner.c] + s.chain && s'.head == s.owner.c)
            && (e.AppendStore? ==>
                  s'.chain == s.chain + [s.appenders[e.t].c] && s'.tail == s.appenders[e.t].c)
            && (e.Pop? ==> s.chain == [s.head] + s'.chain)
            && (e.Publish? ==> s'.chain == s.owner.block + s.chain[s.owner.read - s.owner.checked..])
            && (!e.OwnPush? && !e.AppendStore? && !e.Pop? && !e.Publish? ==> s'.chain == s.chain)
            && (!e.OwnPush? && !e.Pop? && !e.Publish? ==> s'.head == s.head)
            && (!e.AppendStore? && !e.WriteFirstTail? ==> s'.tail == s.tail)
  {
    if e.Publish? {
      PublishShape(s);
    }
  }

  // Chunks become live by a pop and stop being live when they are given back.
  lemma LiveLaw(s: State, e: Event)
    requires Inv(s) && Enabled(s, e)
    ensures var s' := Apply(s, e);
            && (e.Pop? ==> s'.live == s.live + {s.head})
            && (e.OwnLink? || e.AppendBegin? ==> e.c in s.live && s'.live == s.live - {e.c})
            && (!e.Pop? && !e.OwnLink? && !e.AppendBegin? ==> s'.live == s.live)
            && s'.chunks == s.chunks + (if e.Publish? then Elems(s.owner.block) else {})
            && s'.tailUpdates == s.tailUpdates + (if e.AppendStore? then 1 else 0)
  {
  }

  // Every access of the owner takes it to the next place in its code.
  lemma OwnerLaw(s: State, e: Event)
    requires Enabled(s, e)
    ensures var (o, o') := (s.owner, Apply(s, e).owner);
            && (e.CheckEmpty? ==> o' == if s.head == s.tail then SawEmpty(s.tailUpdates) else MayPop)
            && (e.SystemFails? || e.Pop? || e.OwnPush? ==> o'.Idle?)
            && (e.SystemGives? ==> o' == HasBlock(e.block, o.checked))
            && (e.TestTail? ==> o' == TestedTail(o.block, o.checked, s.tail == NULL))
            && (e.WriteFirstTail? ==> o' == WroteFirstTail(o.block, o.checked))
            && (e.WriteFirstLink? || e.ReadTail? ==>
                  o' == Carving(o.block, Pred(|o.block|), o.checked, s.tailUpdates))
            && (e.Carve? ==> o.left == o'.left + 1 && o'.(left := o.left) == o)
            && (e.Publish? ==> o'.MayPop?)
            && (e.OwnLink? ==> o' == LinkedOwn(e.c))
            && (!ByOwner(e) ==> o' == o)
  {
  }

  // Every access of an appender takes it, and no other, to the next place in free_append;
  // the lock is held from its second to its last access.
  lemma AppenderLaw(s: State, e: Event)
    requires Enabled(s, e)
    ensures var s' := Apply(s, e);
            && (e.AppendBegin? ==> s'.appenders == s.appenders[e.t := Waiting(e.c)])
            && (e.AppendLock? ==>
                  s'.appenders == s.appenders[e.t := Locked(s.appenders[e.t].c)] && s'.lock == HeldBy(e.t))
            && (e.AppendLink? ==> s'.appenders == s.appenders[e.t := Linked(s.appenders[e.t].c)])
            && (e.AppendStore? ==> s'.appenders == s.appenders[e.t := Stored(s.appenders[e.t].c)])
            && (e.AppendUnlock? ==> s'.appenders == s.appenders - {e.t} && s'.lock == Unlocked)
            && (ByOwner(e) || e.UserWrite? ==> s'.appenders == s.appenders)
            && (!e.AppendLock? && !e.AppendUnlock? ==> s'.lock == s.lock)
  {
  }

  predicate WritesLink(e: Event)
  {
    e.OwnLink? || e.AppendLink? || e.UserWrite? || e.WriteFirstLink? || e.ReadTail? || e.Carve?
  }

  // Each access writes at most one link word, and this is what it writes.
  lemma LinkLaw(s: State, e: Event)
    requires Inv(s) && Enabled(s, e)
    ensures var link' := Apply(s, e).link;
            && (e.OwnLink? ==> link' == Set(s.link, e.c, s.head))
            && (e.AppendLink? ==> link' == Set(s.link, s.tail, s.appenders[e.t].c))
            && (e.UserWrite? ==> link' == Set(s.link, e.c, e.v))
            && (e.WriteFirstLink? ==> link' == Set(s.link, s.tail, NULL))
            && (e.ReadTail? ==> link' == Set(s.link, Last(s.owner.block), s.tail))
            && (e.Carve? ==>
                  link' == Set(s.link, s.owner.block[s.owner.left - 1], s.owner.block[s.owner.left]))
            && (!WritesLink(e) ==> link' == s.link)
  {
  }

  // Nobody is stuck: the owner can always go on, and so can every appender unless it waits
  // for the lock, whose holder can.
  lemma NobodyStuck(s: State, t: Tid)
    requires Inv(s)
    ensures exists e :: ByOwner(e) && Enabled(s, e)
    ensures t in s.appenders && !(s.appenders[t].Waiting? && s.lock.HeldBy?) ==>
              Enabled(s, AppendLock(t)) || Enabled(s, AppendLink(t)) || Enabled(s, AppendStore(t))
              || Enabled(s, AppendUnlock(t))
    ensures s.lock.HeldBy? ==>
              var u := s.lock.t;
              Enabled(s, AppendLink(u)) || Enabled(s, AppendStore(u)) || Enabled(s, AppendUnlock(u))
  {
    var e := match s.owner
      case Idle => CheckEmpty
      case MayPop => Pop
      case SawEmpty(_) => SystemFails
      case HasBlock(_, _) => TestTail
      case TestedTail(_, _, wasNull) => if wasNull then WriteFirstTail else ReadTail
      case WroteFirstTail(_, _) => WriteFirstLink
      case Carving(_, left, _, _) => if left > 0 then Carve else Publish
      case LinkedOwn(_) => OwnPush;
    assert ByOwner(e) && Enabled(s, e);
  }

  // ---------- what whole runs do ----------

  ghost predicate NeverHandsOut(s: State, es: seq<Event>, c: int)
    requires IsRun(s, es)
    decreases |es|
  {
    es == [] || (!HandsOut(s, es[0], c) && NeverHandsOut(Apply(s, es[0]), es[1..], c))
  }

  // A chunk that nobody has becomes somebody's by a pop and in no other way.
  lemma {:induction false} OnlyPopHandsOut(s: State, es: seq<Event>, c: int)
    requires Inv(s) && IsRun(s, es) && c !in s.live && NeverHandsOut(s, es, c)
    ensures c !in After(s, es).live
    decreases |es|
  {
    if es != [] {
      hide Inv, Apply, Enabled;
      LiveLaw(s, es[0]);
      StepKeeps(s, es[0]);
      OnlyPopHandsOut(Apply(s, es[0]), es[1..], c);
    }
  }

  function Pushes(es: seq<Event>): nat
  {
    if es == [] then 0 else (if es[0].OwnPush? then 1 else 0) + Pushes(es[1..])
  }

  function Pops(es: seq<Event>): nat
  {
    if es == [] then 0 else (if es[0].Pop? then 1 else 0) + Pops(es[1..])
  }

  lemma StepLength(s: State, e: Event)
    requires Inv(s) && Enabled(s, e)
    ensures var s' := Apply(s, e);
            (|s'.chain| + |s'.lost| + (if e.Pop? then 1 else 0) + |s.chunks|
             == |s.chain| + |s.lost| + (if e.OwnPush? || e.AppendStore? then 1 else 0) + |s'.chunks|)
  {
    ListLaw(s, e);
    LiveLaw(s, e);
    OnlyPublishLoses(s, e);
    if e.Publish? {
      PublishCounts(s);
    }
  }

  lemma PublishCounts(s: State)
    requires Inv(s) && Enabled(s, Publish)
    ensures |s.chunks + Elems(s.owner.block)| == |s.chunks| + |s.owner.block|
    ensures 0 <= s.owner.read - s.owner.checked <= |s.chain|
  {
    PublishShape(s);
    DistinctCount(s.owner.block);
    CountJoin(s.chunks, Elems(s.owner.block));
  }

  // Over every run the list grows by one with every push and every append, by the size of
  // every new block, and shrinks by one with every pop and by what growths lose.
  lemma {:induction false} LengthLaw(s: State, es: seq<Event>)
    requires Inv(s) && IsRun(s, es)
    ensures var z := After(s, es);
            (|z.chain| + |z.lost| + Pops(es) + |s.chunks|
             == |s.chain| + |s.lost| + Pushes(es) + Stores(es) + |z.chunks|)
    decreases |es|
  {
    if es != [] {
      hide Inv, Apply, Enabled;
      StepLength(s, es[0]);
      StepKeeps(s, es[0]);
      LengthLaw(Apply(s, es[0]), es[1..]);
    }
  }

  // ---------- nothing is handed out twice ----------

  predicate GivesBack(e: Event, c: int)
  {
    e == OwnLink(c) || (e.AppendBegin? && e.c == c)
  }

  // A pop that hands out c.
  ghost predicate HandsOut(s: State, e: Event, c: int)
  {
    e.Pop? && s.head == c
  }

  lemma StepKeepsLive(s: State, e: Event, c: int)
    requires Inv(s) && Enabled(s, e) && c in s.live && !GivesBack(e, c)
    ensures c in Apply(s, e).live && !HandsOut(s, e, c)
  {
    ChainMembers(s);
  }

  // Between two hand-outs of a chunk it has been given back.
  lemma {:induction false} NoSecondHandOut(s: State, es: seq<Event>, k: nat, c: int)
    requires Inv(s) && IsRun(s, es) && c in s.live && k < |es|
    requires forall i :: 0 <= i <= k ==> !GivesBack(es[i], c)
    ensures IsRun(s, es[..k]) && !HandsOut(After(s, es[..k]), es[k], c)
    decreases k
  {
    StepKeepsLive(s, es[0], c);
    if k > 0 {
      StepKeeps(s, es[0]);
      var rest := es[1..];
      assert forall i :: 0 <= i < |rest| ==> rest[i] == es[i + 1];
      NoSecondHandOut(Apply(s, es[0]), rest, k - 1, c);
      assert es[..k][1..] == rest[..k - 1];
    }
  }

  // A pop hands out the head, which nobody held, and it is live afterwards.
  lemma PopHandsOut(s: State)
    requires Inv(s) && Enabled(s, Pop)
    ensures s.head in s.chunks && s.head !in s.live && s.head in Apply(s, Pop).live
    ensures s.head != s.tail
  {
    ChainMembers(s);
  }

  // ---------- exactly what a growth loses ----------

  function Stores(es: seq<Event>): nat
  {
    if es == [] then 0 else (if es[0].AppendStore? then 1 else 0) + Stores(es[1..])
  }

  lemma PublishLoses(s: State)
    requires Inv(s) && Enabled(s, Publish)
    ensures s.lost <= OwnerStep(s, Publish).lost
    ensures |OwnerStep(s, Publish).lost| == |s.lost| + s.owner.read - s.owner.checked
  {
    hide Inv, Enabled, OwnerStep, Elems, Distinct;
    var k := LostPrefix(s);
    PrefixLost(s.chain, s.lost, k);
  }

  // The chunks a publication loses: the first k of a list apart from the lost ones.
  lemma LostPrefix(s: State) returns (k: nat)
    requires Inv(s) && Enabled(s, Publish)
    ensures k == s.owner.read - s.owner.checked && k <= |s.chain|
    ensures OwnerStep(s, Publish).lost == s.lost + Elems(s.chain[..k])
    ensures Distinct(s.chain) && Elems(s.chain) !! s.lost
  {
    k := s.owner.read - s.owner.checked;
    PublishShape(s);
  }

  lemma PrefixLost(chain: seq<int>, lost: set<int>, k: nat)
    requires k <= |chain| && Distinct(chain) && Elems(chain) !! lost
    ensures |lost + Elems(chain[..k])| == |lost| + k
  {
    ElemsSplit(chain, k);
    DistinctCount(chain[..k]);
    CountJoin(lost, Elems(chain[..k]));
  }

  lemma CountJoin(a: set<int>, b: set<int>)
    requires a !! b
    ensures a <= a + b && |a + b| == |a| + |b|
  {
  }

  // No step but the publication of a new block loses chunks, and lost ones stay lost.
  lemma OnlyPublishLoses(s: State, e: Event)
    requires Inv(s) && Enabled(s, e)
    ensures s.lost <= Apply(s, e).lost
    ensures |Apply(s, e).lost|
         == |s.lost| + if e.Publish? then s.owner.read - s.owner.checked else 0
  {
    if e.Publish? {
      PublishLoses(s);
    } else {
      hide Inv;
    }
  }

  predicate BeforeTailRead(o: Owner)
  {
    o.SawEmpty? || o.HasBlock? || o.TestedTail?
  }

  // Events that can happen between the empty check and the read of the tail.
  predicate InWindow(e: Event)
  {
    !e.CheckEmpty? && !e.SystemFails? && !e.WriteFirstTail? && !e.ReadTail?
  }

  lemma {:induction false} WindowKeepsCheck(s: State, es: seq<Event>)
    requires IsRun(s, es) && BeforeTailRead(s.owner)
    requires forall i :: 0 <= i < |es| ==> InWindow(es[i])
    ensures var z := After(s, es);
            && BeforeTailRead(z.owner) && z.owner.checked == s.owner.checked
            && z.tailUpdates == s.tailUpdates + Stores(es) && z.lost == s.lost
            && |z.chain| == |s.chain| + Stores(es)
    decreases |es|
  {
    if es != [] {
      WindowKeepsCheck(Apply(s, es[0]), es[1..]);
    }
  }

  lemma {:induction false} CarvingKeepsRead(s: State, es: seq<Event>)
    requires IsRun(s, es) && s.owner.Carving?
    requires forall i :: 0 <= i < |es| ==> !es[i].Publish?
    ensures var z := After(s, es);
            z.owner.Carving? && z.owner.checked == s.owner.checked && z.owner.read == s.owner.read
            && z.lost == s.lost
    decreases |es|
  {
    if es != [] {
      CarvingKeepsRead(Apply(s, es[0]), es[1..]);
    }
  }

  // The first growth of a pool meets no append until it is published.
  lemma {:induction false} FirstGrowthUndisturbed(s: State, es: seq<Event>)
    requires Inv(s) && IsRun(s, es) && s.chain == [] && (s.owner.WroteFirstTail? || s.owner.Carving?)
    requires forall i :: 0 <= i < |es| ==> !es[i].Publish?
    ensures After(s, es).chain == [] && After(s, es).lost == s.lost
    decreases |es|
  {
    if es != [] {
      StepKeeps(s, es[0]);
      StaysFirst(s, es[0]);
      FirstGrowthUndisturbed(Apply(s, es[0]), es[1..]);
    }
  }

  lemma StaysFirst(s: State, e: Event)
    requires Inv(s) && Enabled(s, e) && s.chain == [] && !e.Publish?
    requires s.owner.WroteFirstTail? || s.owner.Carving?
    ensures var s' := Apply(s, e);
            s'.chain == [] && s'.lost == s.lost && (s'.owner.WroteFirstTail? || s'.owner.Carving?)
  {
  }

  // The access that ends a growth's window: the read of the tail, or for the first block
  // of a pool the write of it.
  predicate EndsWindow(e: Event)
  {
    e.ReadTail? || e.WriteFirstTail?
  }

  // A growth loses exactly as many chunks as there were tail updates between its empty
  // check and its own access to the tail, whatever the other threads did before and
  // after. For the first growth that number is zero.
  lemma GrowthLoss(s0: State, mid: seq<Event>, e: Event, rest: seq<Event>)
    requires Inv(s0) && Enabled(s0, CheckEmpty) && s0.head == s0.tail && EndsWindow(e)
    requires var s1 := Apply(s0, CheckEmpty);
             IsRun(s1, mid) && (forall i :: 0 <= i < |mid| ==> InWindow(mid[i]))
             && var s2 := After(s1, mid);
                Enabled(s2, e)
                && var s3 := Apply(s2, e);
                   IsRun(s3, rest) && (forall i :: 0 <= i < |rest| ==> !rest[i].Publish?)
                   && Enabled(After(s3, rest), Publish)
    ensures var s4 := After(Apply(After(Apply(s0, CheckEmpty), mid), e), rest);
            |Apply(s4, Publish).lost| == |s0.lost| + Stores(mid)
    ensures e.WriteFirstTail? ==> Stores(mid) == 0
  {
    var s1 := Apply(s0, CheckEmpty);
    StepKeeps(s0, CheckEmpty);
    WindowKeepsCheck(s1, mid);
    RunKeeps(s1, mid);
    var s2 := After(s1, mid);
    var s3 := Apply(s2, e);
    StepKeeps(s2, e);
    RunKeeps(s3, rest);
    var s4 := After(s3, rest);
    if e.ReadTail? {
      CarvingKeepsRead(s3, rest);
    } else {
      FirstGrowthUndisturbed(s3, rest);
      PublishShape(s4);
    }
    OnlyPublishLoses(s4, Publish);
  }

  // ---------- a run that loses a chunk ----------

  lemma {:induction false} RunJoin(s: State, es: seq<Event>, fs: seq<Event>)
    requires IsRun(s, es) && IsRun(After(s, es), fs)
    ensures IsRun(s, es + fs) && After(s, es + fs) == After(After(s, es), fs)
    decreases |es|
  {
    if es == [] {
      assert es + fs == fs;
    } else {
      RunJoin(Apply(s, es[0]), es[1..], fs);
      assert (es + fs)[1..] == es[1..] + fs;
    }
  }

  lemma RunCons(s: State, e: Event, es: seq<Event>)
    requires Enabled(s, e) && IsRun(Apply(s, e), es)
    ensures IsRun(s, [e] + es) && After(s, [e] + es) == After(Apply(s, e), es)
  {
    assert ([e] + es)[1..] == es;
  }

  lemma Run4(s: State, a: Event, b: Event, c: Event, d: Event)
    requires Enabled(s, a) && Enabled(Apply(s, a), b)
    requires Enabled(Apply(Apply(s, a), b), c) && Enabled(Apply(Apply(Apply(s, a), b), c), d)
    ensures IsRun(s, [a, b, c, d])
    ensures After(s, [a, b, c, d]) == Apply(Apply(Apply(Apply(s, a), b), c), d)
  {
    hide Enabled, Apply;
    var (s1, s2, s3) := (Apply(s, a), Apply(Apply(s, a), b), Apply(Apply(Apply(s, a), b), c));
    RunCons(s3, d, []);
    RunCons(s2, c, [d]);
    RunCons(s1, b, [c, d]);
    RunCons(s, a, [b, c, d]);
    assert [d] + [] == [d] && [c] + [d] == [c, d] && [b] + [c, d] == [b, c, d];
    assert [a] + [b, c, d] == [a, b, c, d];
  }

  lemma OneStep(s: State, e: Event)
    requires Enabled(s, e)
    ensures IsRun(s, [e]) && After(s, [e]) == Apply(s, e)
  {
    assert [e][1..] == [];
  }

  // ---------- one operation at a time ----------

  // Uninterrupted, the accesses of an operation amount to the operation on the queue.

  lemma SoloMalloc(s: State)
    requires Inv(s) && s.owner.Idle? && |s.chain| >= 2
    ensures var es := [CheckEmpty, Pop];
            && IsRun(s, es)
            && var z := After(s, es);
               && z.chain == s.chain[1..] && z.live == s.live + {s.chain[0]} && z.owner.Idle?
               && z.lost == s.lost && z.appenders == s.appenders && z.lock == s.lock
  {
    assert s.chain[0] != s.chain[|s.chain| - 1];
    var s1 := Apply(s, CheckEmpty);
    RunCons(s1, Pop, []);
    RunCons(s, CheckEmpty, [Pop]);
    assert [CheckEmpty] + [Pop] == [CheckEmpty, Pop];
  }

  lemma SoloFree(s: State, c: int)
    requires Inv(s) && s.owner.Idle? && c in s.live
    ensures var es := [OwnLink(c), OwnPush];
            && IsRun(s, es)
            && var z := After(s, es);
               && z.chain == [c] + s.chain && z.live == s.live - {c} && z.owner.Idle?
               && z.lost == s.lost && z.appenders == s.appenders && z.lock == s.lock
  {
    var s1 := Apply(s, OwnLink(c));
    RunCons(s1, OwnPush, []);
    RunCons(s, OwnLink(c), [OwnPush]);
    assert [OwnLink(c)] + [OwnPush] == [OwnLink(c), OwnPush];
  }

  lemma SoloAppend(s: State, t: Tid, c: int)
    requires Inv(s) && s.lock.Unlocked? && t !in s.appenders && c in s.live
    ensures var es := [AppendBegin(t, c), AppendLock(t), AppendLink(t), AppendStore(t)] + [AppendUnlock(t)];
            && IsRun(s, es)
            && var z := After(s, es);
               && z.chain == s.chain + [c] && z.live == s.live - {c} && z.owner == s.owner
               && z.lost == s.lost && z.appenders == s.appenders && z.lock == s.lock
  {
    hide Inv, IsRun, After;
    var es := [AppendBegin(t, c), AppendLock(t), AppendLink(t), AppendStore(t)];
    Run4(s, AppendBegin(t, c), AppendLock(t), AppendLink(t), AppendStore(t));
    var z := After(s, es);
    assert z.appenders == s.appenders[t := Stored(c)];
    OneStep(z, AppendUnlock(t));
    RunJoin(s, es, [AppendUnlock(t)]);
    assert s.appenders[t := Stored(c)] - {t} == s.appenders;
  }

  function Carves(n: nat): seq<Event>
  {
    if n == 0 then [] else [Carve] + Carves(n - 1)
  }

  // Nothing but the links and the owner's place differs.
  predicate SameList(s: State, z: State)
  {
    && z.head == s.head && z.tail == s.tail && z.chain == s.chain && z.live == s.live
    && z.lost == s.lost && z.chunks == s.chunks && z.appenders == s.appenders && z.lock == s.lock
  }

  lemma {:induction false} CarvesRun(s: State)
    requires s.owner.Carving?
    ensures IsRun(s, Carves(s.owner.left))
    ensures var z := After(s, Carves(s.owner.left));
            SameList(s, z) && z.owner == s.owner.(left := 0)
    decreases s.owner.left
  {
    if s.owner.left > 0 {
      var s1 := Apply(s, Carve);
      CarvesRun(s1);
      RunCons(s, Carve, Carves(s1.owner.left));
    }
  }

  // A growth: the question to the system, the access to the tail, the carving, the new
  // head and the pop.
  function Growth(first: bool, block: seq<int>): seq<Event>
  {
    [CheckEmpty, SystemGives(block), TestTail, if first then WriteFirstTail else ReadTail]
    + (if first then [WriteFirstLink] else []) + Carves(Pred(|block|)) + [Publish, Pop]
  }

  lemma SoloGrowth(s: State, block: seq<int>)
    requires Inv(s) && s.owner.Idle? && |s.chain| <= 1 && FreshBlock(s, block)
    ensures var es := Growth(s.chain == [], block);
            && IsRun(s, es)
            && var z := After(s, es);
               && z.chain == block[1..] + s.chain && z.live == s.live + {block[0]} && z.owner.Idle?
               && z.lost == s.lost && z.chunks == s.chunks + Elems(block)
               && z.appenders == s.appenders && z.lock == s.lock
  {
    var first := s.chain == [];
    var a := [CheckEmpty, SystemGives(block), TestTail, if first then WriteFirstTail else ReadTail];
    var b := if first then [WriteFirstLink] else [];
    var (c, d) := (Carves(Pred(|block|)), [Publish, Pop]);
    GrowthAsks(s, block);
    var s1 := After(s, a + b);
    CarvesRun(s1);
    RunJoin(s, a + b, c);
    RunKeeps(s, a + b + c);
    GrowthEnds(After(s, a + b + c), s, block);
    RunJoin(s, a + b + c, d);
  }

  lemma GrowthAsks(s: State, block: seq<int>)
    requires Inv(s) && s.owner.Idle? && |s.chain| <= 1 && FreshBlock(s, block)
    ensures var es := [CheckEmpty, SystemGives(block), TestTail,
                       if s.chain == [] then WriteFirstTail else ReadTail]
                      + (if s.chain == [] then [WriteFirstLink] else []);
            && IsRun(s, es)
            && var z := After(s, es);
               && z.chain == s.chain && z.live == s.live && z.lost == s.lost && z.chunks == s.chunks
               && z.appenders == s.appenders && z.lock == s.lock
               && z.owner == Carving(block, |block| - 1, s.tailUpdates, s.tailUpdates)
  {
    var last := if s.chain == [] then WriteFirstTail else ReadTail;
    Run4(s, CheckEmpty, SystemGives(block), TestTail, last);
    var a := [CheckEmpty, SystemGives(block), TestTail, last];
    if s.chain == [] {
      RunCons(After(s, a), WriteFirstLink, []);
      assert [WriteFirstLink] + [] == [WriteFirstLink];
      RunJoin(s, a, [WriteFirstLink]);
    } else {
      assert a + [] == a;
    }
  }

  lemma GrowthEnds(z: State, s: State, block: seq<int>)
    requires Inv(z) && z.owner.Carving? && z.owner.left == 0 && z.owner.block == block && |block| >= 2
    requires z.owner.checked == z.owner.read && z.chain == s.chain
    ensures var es := [Publish, Pop];
            && IsRun(z, es)
            && var y := After(z, es);
               && y.chain == block[1..] + s.chain && y.live == z.live + {block[0]} && y.owner.Idle?
               && y.lost == z.lost && y.chunks == z.chunks + Elems(block)
               && y.appenders == z.appenders && y.lock == z.lock
  {
    var z1 := Apply(z, Publish);
    RunCons(z1, Pop, []);
    RunCons(z, Publish, [Pop]);
    assert [Publish] + [Pop] == [Publish, Pop];
    assert (block + s.chain)[1..] == block[1..] + s.chain;
  }

  // ---------- a run that loses a chunk, event by event ----------

  // The first growth, of chunks 1 and 2, and the pop of chunk 1.
  function AskFirst(): seq<Event>
  {
    [CheckEmpty, SystemGives([1, 2]), TestTail, WriteFirstTail]
  }

  function CarveFirst(): seq<Event>
  {
    [WriteFirstLink, Carve, Publish, Pop]
  }

  // The second growth, of chunks 3 and 4: after its empty check and before its read of
  // the tail, thread t gives chunk 1 back.
  function AppendInside(t: Tid): seq<Event>
  {
    [CheckEmpty, AppendBegin(t, 1), AppendLock(t), AppendLink(t)]
  }

  function AskAgain(t: Tid): seq<Event>
  {
    [AppendStore(t), SystemGives([3, 4]), TestTail, ReadTail]
  }

  function CarveAgain(t: Tid): seq<Event>
  {
    [Carve, AppendUnlock(t), Publish, Pop]
  }

  ghost predicate FirstAsked(s: State)
  {
    && s.head == NULL && s.tail == 2 && s.chain == [] && s.owner == WroteFirstTail([1, 2], 0)
    && s.lock.Unlocked? && s.live == {} && s.lost == {} && s.chunks == {} && s.appenders == map[]
    && s.tailUpdates == 0
  }

  // Chunk 1 is in a user's hands and chunk 2 is held back.
  ghost predicate OneHeldBack(s: State)
  {
    && s.head == 2 && s.tail == 2 && s.chain == [2] && s.owner.Idle? && s.lock.Unlocked?
    && s.live == {1} && s.lost == {} && s.chunks == {1, 2} && s.appenders == map[] && s.tailUpdates == 0
  }

  ghost predicate AppendLinked(s: State, t: Tid)
  {
    && s.head == 2 && s.tail == 2 && s.chain == [2] && s.owner == SawEmpty(0)
    && s.live == {} && s.lost == {} && s.chunks == {1, 2} && s.appenders == map[t := Linked(1)]
    && s.tailUpdates == 0
  }

  ghost predicate TailRead(s: State, t: Tid)
  {
    && s.head == 2 && s.tail == 1 && s.chain == [2, 1] && s.owner == Carving([3, 4], 1, 0, 1)
    && s.live == {} && s.lost == {} && s.chunks == {1, 2} && s.appenders == map[t := Stored(1)]
    && s.tailUpdates == 1
  }

  lemma AskFirstRuns(s: State)
    requires Init(s)
    ensures IsRun(s, AskFirst()) && FirstAsked(After(s, AskFirst()))
  {
    var s1 := Apply(s, CheckEmpty);
    assert Elems([1, 2]) == {1, 2};
    assert Enabled(s1, SystemGives([1, 2]));
    Run4(s, CheckEmpty, SystemGives([1, 2]), TestTail, WriteFirstTail);
  }

  lemma CarveFirstRuns(s: State)
    requires FirstAsked(s)
    ensures IsRun(s, CarveFirst()) && OneHeldBack(After(s, CarveFirst()))
  {
    assert Elems([1, 2]) == {1, 2} && Elems([]) == {};
    Run4(s, WriteFirstLink, Carve, Publish, Pop);
    assert [1, 2][1..] == [2];
  }

  lemma AppendInsideRuns(s: State, t: Tid)
    requires OneHeldBack(s)
    ensures IsRun(s, AppendInside(t)) && AppendLinked(After(s, AppendInside(t)), t)
  {
    Run4(s, CheckEmpty, AppendBegin(t, 1), AppendLock(t), AppendLink(t));
  }

  lemma AskAgainRuns(s: State, t: Tid)
    requires AppendLinked(s, t)
    ensures IsRun(s, AskAgain(t)) && TailRead(After(s, AskAgain(t)), t)
  {
    assert Elems([3, 4]) == {3, 4};
    assert Enabled(Apply(s, AppendStore(t)), SystemGives([3, 4]));
    Run4(s, AppendStore(t), SystemGives([3, 4]), TestTail, ReadTail);
  }

  lemma CarveAgainRuns(s: State, t: Tid)
    requires TailRead(s, t)
    ensures IsRun(s, CarveAgain(t))
    ensures var z := After(s, CarveAgain(t));
            z.live == {3} && z.chain == [4, 1] && z.lost == {2} && z.chunks == {1, 2, 3, 4}
  {
    assert Elems([3, 4]) == {3, 4} && Elems([2]) == {2};
    assert [2, 1][..1] == [2] && [2, 1][1..] == [1];
    Run4(s, Carve, AppendUnlock(t), Publish, Pop);
    assert ([3, 4] + [1])[1..] == [4, 1];
  }

  function LosingRun(t: Tid): seq<Event>
  {
    AskFirst() + CarveFirst() + AppendInside(t) + AskAgain(t) + CarveAgain(t)
  }

  // Such losses happen: one append between the empty check and the read of the tail costs
  // the chunk that was held back, for good.
  lemma LossHappens(s: State, t: Tid)
    requires Init(s)
    ensures IsRun(s, LosingRun(t))
    ensures var z := After(s, LosingRun(t));
            z.live == {3} && z.chain == [4, 1] && z.lost == {2} && z.chunks == {1, 2, 3, 4}
  {
    hide IsRun, After, AskFirst, CarveFirst, AppendInside, AskAgain, CarveAgain;
    var (a, b, c, d) := (AskFirst(), CarveFirst(), AppendInside(t), AskAgain(t));
    AskFirstRuns(s);
    CarveFirstRuns(After(s, a));
    RunJoin(s, a, b);
    AppendInsideRuns(After(s, a + b), t);
    RunJoin(s, a + b, c);
    AskAgainRuns(After(s, a + b + c), t);
    RunJoin(s, a + b + c, d);
    CarveAgainRuns(After(s, a + b + c + d), t);
    RunJoin(s, a + b + c + d, CarveAgain(t));
  }
}
