// A queue of tasks, a stop flag and any number of workers that take tasks under the
// lock. Each critical section is one step; running a task is not.
module ThreadPool {
  import opened Sequences

  type Worker = nat

  datatype Pc<T> = Looking | Running(task: T, ticket: nat) | Returned

  // queue, stop and pcs are the program's. `accepted` lists the tasks enqueued so far, a
  // task's ticket is its position there, `taken` counts those dispatched, and `ran` is
  // the log of tickets whose task has been run.
  datatype State<T> = State(
    queue: seq<T>, stop: bool, pcs: map<Worker, Pc<T>>, accepted: seq<T>, taken: nat, ran: seq<int>)

  datatype Event<T> = Enqueue(task: T) | Look(w: Worker) | Finish(w: Worker) | Stop

  predicate Enabled<T(!new)>(s: State<T>, e: Event<T>)
  {
    match e
    case Look(w) => w in s.pcs && s.pcs[w].Looking?
    case Finish(w) => w in s.pcs && s.pcs[w].Running?
    case _ => true
  }

  function Apply<T(!new)>(s: State<T>, e: Event<T>): State<T>
    requires Enabled(s, e)
  {
    match e
    case Enqueue(task) =>
      if s.stop then s
      else s.(queue := s.queue + [task], accepted := s.accepted + [task])
    case Look(w) =>
      if s.stop && s.queue == [] then s.(pcs := s.pcs[w := Returned])
      else if s.queue != [] then
        s.(queue := s.queue[1..], pcs := s.pcs[w := Running(s.queue[0], s.taken)], taken := s.taken + 1)
      else s
    case Finish(w) => s.(pcs := s.pcs[w := Looking], ran := s.ran + [s.pcs[w].ticket])
    case Stop => s.(stop := true)
  }

  ghost predicate IsRun<T(!new)>(s: State<T>, es: seq<Event<T>>)
    decreases |es|
  {
    es == [] || (Enabled(s, es[0]) && IsRun(Apply(s, es[0]), es[1..]))
  }

  ghost function After<T(!new)>(s: State<T>, es: seq<Event<T>>): State<T>
    requires IsRun(s, es)
    decreases |es|
  {
    if es == [] then s else After(Apply(s, es[0]), es[1..])
  }

  ghost function Start<T(!new)>(workers: set<Worker>): State<T>
  {
    State([], false, map w | w in workers :: Looking, [], 0, [])
  }

  // ---------- the invariant ----------

  ghost predicate Holds<T(!new)>(s: State<T>, w: Worker, i: nat)
  {
    w in s.pcs && s.pcs[w].Running? && s.pcs[w].ticket == i
  }

  // The queue is what has been accepted and not yet dispatched, in order.
  predicate InOrder<T(==, !new)>(s: State<T>)
  {
    s.taken <= |s.accepted| && s.queue == s.accepted[s.taken..]
  }

  // Each dispatched task is being run by one worker or has been run, once.
  ghost predicate Once<T(!new)>(s: State<T>)
  {
    && Distinct(s.ran)
    && (forall i :: i in s.ran ==> 0 <= i < s.taken)
    && (forall w :: w in s.pcs && s.pcs[w].Running? ==>
          s.pcs[w].ticket < s.taken <= |s.accepted| && s.pcs[w].ticket !in s.ran
          && s.pcs[w].task == s.accepted[s.pcs[w].ticket])
    && (forall v, w :: v in s.pcs && w in s.pcs && v != w && s.pcs[v].Running? && s.pcs[w].Running? ==>
          s.pcs[v].ticket != s.pcs[w].ticket)
    && (forall i: nat :: i < s.taken ==> i in s.ran || exists w :: Holds(s, w, i))
  }

  // Workers return only when there is nothing left and nothing can come.
  ghost predicate Drained<T(!new)>(s: State<T>)
  {
    forall w :: w in s.pcs && s.pcs[w].Returned? ==> s.stop && s.queue == []
  }

  ghost predicate Inv<T(!new)>(s: State<T>)
  {
    InOrder(s) && Once(s) && Drained(s)
  }

  lemma StartInv<T(!new)>(workers: set<Worker>)
    ensures Inv<T>(Start(workers))
  {
  }

  lemma OnceKept<T(!new)>(s: State<T>, e: Event<T>)
    requires Inv(s) && Enabled(s, e)
    ensures Once(Apply(s, e))
  {
    hide Drained;
    var s' := Apply(s, e);
    NoneForgotten(s, e);
    assert e.Finish? ==> s'.ran[|s.ran|] == s.pcs[e.w].ticket;
  }

  lemma NoneForgotten<T(!new)>(s: State<T>, e: Event<T>)
    requires Inv(s) && Enabled(s, e)
    ensures var s' := Apply(s, e);
            forall i: nat :: i < s'.taken ==> i in s'.ran || exists w :: Holds(s', w, i)
  {
    var s' := Apply(s, e);
    hide Distinct, Drained;
    forall i: nat | i < s'.taken
      ensures i in s'.ran || exists w :: Holds(s', w, i)
    {
      if i == s.taken {
        assert Holds(s', e.w, i);
      } else if i !in s.ran {
        var w :| Holds(s, w, i);
        if e.Finish? && w == e.w {
          assert s'.ran[|s.ran|] == i;
        } else {
          assert Holds(s', w, i);
        }
      } else {
        var k :| 0 <= k < |s.ran| && s.ran[k] == i;
        assert s'.ran[k] == i;
      }
    }
  }

  lemma StepKeeps<T(!new)>(s: State<T>, e: Event<T>)
    requires Inv(s) && Enabled(s, e)
    ensures Inv(Apply(s, e))
  {
    OnceKept(s, e);
    assert s.queue != [] ==> s.queue[0] == s.accepted[s.taken];
  }

  lemma {:induction false} RunKeeps<T(!new)>(s: State<T>, es: seq<Event<T>>)
    requires Inv(s) && IsRun(s, es)
    ensures Inv(After(s, es)) && After(s, es).pcs.Keys == s.pcs.Keys
    decreases |es|
  {
    if es != [] {
      StepKeeps(s, es[0]);
      RunKeeps(Apply(s, es[0]), es[1..]);
    }
  }

  // ---------- what each step does ----------

  // Stopping sets the flag and touches nothing else.
  lemma StopEffect<T(!new)>(s: State<T>)
    ensures Enabled(s, Stop)
    ensures var s' := Apply(s, Stop);
            && s'.stop && s'.queue == s.queue && s'.pcs == s.pcs
            && s'.accepted == s.accepted && s'.taken == s.taken && s'.ran == s.ran
  {
  }

  // Enqueuing adds at the back of an unstopped pool, and is refused by a stopped one.
  lemma EnqueueEffect<T(!new)>(s: State<T>, task: T)
    ensures Enabled(s, Enqueue(task))
    ensures var s' := Apply(s, Enqueue(task));
            && s'.queue == s.queue + (if s.stop then [] else [task])
            && s'.accepted == s.accepted + (if s.stop then [] else [task])
            && s'.stop == s.stop && s'.pcs == s.pcs && s'.taken == s.taken && s'.ran == s.ran
  {
  }

  // A worker with nothing to do takes the front of the queue, leaves a stopped empty pool,
  // or goes round; one that runs a task finishes that task.
  lemma WorkerEffect<T(!new)>(s: State<T>, w: Worker)
    requires w in s.pcs
    ensures Enabled(s, Look(w)) <==> s.pcs[w].Looking?
    ensures Enabled(s, Finish(w)) <==> s.pcs[w].Running?
    ensures s.pcs[w].Looking? ==>
              var s' := Apply(s, Look(w));
              && s'.stop == s.stop && s'.accepted == s.accepted && s'.ran == s.ran
              && (s.queue != [] ==>
                    && s.queue == [s'.pcs[w].task] + s'.queue && s'.pcs[w].Running?
                    && s'.taken == s.taken + 1)
              && (s.queue == [] ==> s'.queue == [] && s'.taken == s.taken)
              && (s.queue == [] && s.stop <==> s'.pcs[w].Returned?)
              && (s.queue == [] && !s.stop <==> s'.pcs[w].Looking?)
    ensures s.pcs[w].Running? ==>
              var s' := Apply(s, Finish(w));
              && s'.pcs[w].Looking? && s'.queue == s.queue && s'.stop == s.stop
              && s'.accepted == s.accepted && s'.taken == s.taken
              && s'.ran == s.ran + [s.pcs[w].ticket]
  {
    if s.queue != [] {
      assert s.queue == [s.queue[0]] + s.queue[1..];
    }
  }

  // ---------- what a run has accepted, dispatched and finished ----------

  // The tasks of the Enqueue events before the first Stop.
  function Offered<T(!new)>(es: seq<Event<T>>, stopped: bool): seq<T>
  {
    if es == [] then []
    else
      (if es[0].Enqueue? && !stopped then [es[0].task] else [])
      + Offered(es[1..], stopped || es[0].Stop?)
  }

  lemma {:induction false} AcceptedLaw<T(!new)>(s: State<T>, es: seq<Event<T>>)
    requires IsRun(s, es)
    ensures After(s, es).accepted == s.accepted + Offered(es, s.stop)
    ensures s.accepted <= After(s, es).accepted
    decreases |es|
  {
    if es != [] {
      hide Apply, Enabled;
      AcceptedStep(s, es[0]);
      AcceptedLaw(Apply(s, es[0]), es[1..]);
    }
  }

  lemma AcceptedStep<T(!new)>(s: State<T>, e: Event<T>)
    requires Enabled(s, e)
    ensures var s' := Apply(s, e);
            && s'.accepted == s.accepted + (if e.Enqueue? && !s.stop then [e.task] else [])
            && s'.stop == (s.stop || e.Stop?)
  {
  }

  // The tasks given to workers, in the order in which they were given.
  ghost function Dispatched<T(!new)>(s: State<T>, es: seq<Event<T>>): seq<T>
    requires IsRun(s, es)
    decreases |es|
  {
    if es == [] then []
    else
      (if es[0].Look? && Apply(s, es[0]).pcs[es[0].w].Running? then [Apply(s, es[0]).pcs[es[0].w].task]
       else [])
      + Dispatched(Apply(s, es[0]), es[1..])
  }

  // Over every run they are the oldest accepted tasks, in order of acceptance.
  lemma {:induction false} DispatchedInOrder<T(!new)>(s: State<T>, es: seq<Event<T>>)
    requires Inv(s) && IsRun(s, es)
    ensures var z := After(s, es);
            && s.taken <= z.taken <= |z.accepted|
            && Dispatched(s, es) == z.accepted[s.taken..z.taken]
    decreases |es|
  {
    if es != [] {
      hide Inv, Apply, Enabled;
      var s1 := Apply(s, es[0]);
      StepKeeps(s, es[0]);
      DispatchedInOrder(s1, es[1..]);
      AcceptedLaw(s1, es[1..]);
      DispatchStep(s, es[0]);
      var z := After(s1, es[1..]);
      assert z.accepted[s.taken..s1.taken] == s1.accepted[s.taken..s1.taken];
      PrefixSplit(z.accepted, s.taken, s1.taken, z.taken);
    } else {
      assert s.taken <= |s.accepted| && s.accepted[s.taken..s.taken] == [];
    }
  }

  lemma PrefixSplit<T>(s: seq<T>, i: nat, j: nat, k: nat)
    requires i <= j <= k <= |s|
    ensures s[i..k] == s[i..j] + s[j..k]
  {
  }

  lemma DispatchStep<T(!new)>(s: State<T>, e: Event<T>)
    requires Inv(s) && Enabled(s, e)
    ensures var s1 := Apply(s, e);
            && s.taken <= s1.taken <= |s1.accepted|
            && s1.accepted[s.taken..s1.taken]
               == (if e.Look? && s1.pcs[e.w].Running? then [s1.pcs[e.w].task] else [])
  {
    StepKeeps(s, e);
    if e.Look? && s.queue != [] {
      DispatchInOrder(s, e.w);
    }
  }

  // The tasks that workers have run to their end, in that order.
  ghost function Finished<T(!new)>(s: State<T>, es: seq<Event<T>>): seq<T>
    requires IsRun(s, es)
    decreases |es|
  {
    if es == [] then []
    else (if es[0].Finish? then [s.pcs[es[0].w].task] else []) + Finished(Apply(s, es[0]), es[1..])
  }

  // The k-th task got is the one the k-th entry of the log names.
  ghost predicate Logged<T(!new)>(got: seq<T>, all: seq<T>, log: seq<int>)
  {
    |got| == |log| && forall k :: 0 <= k < |log| ==> 0 <= log[k] < |all| && got[k] == all[log[k]]
  }

  lemma LoggedCons<T(!new)>(got: seq<T>, all: seq<T>, log: seq<int>, i: int)
    requires Logged(got, all, log) && 0 <= i < |all|
    ensures Logged([all[i]] + got, all, [i] + log)
  {
  }

  lemma LogTail(ran: seq<int>, i: int, later: seq<int>)
    requires ran + [i] <= later
    ensures ran <= later && later[|ran|..] == [i] + later[|ran| + 1..]
  {
    assert later[|ran|] == (ran + [i])[|ran|];
  }

  // The log of tickets says which accepted task each of them is.
  lemma {:induction false} FinishedLog<T(!new)>(s: State<T>, es: seq<Event<T>>)
    requires Inv(s) && IsRun(s, es)
    ensures var z := After(s, es);
            && s.ran <= z.ran
            && Logged(Finished(s, es), z.accepted, z.ran[|s.ran|..])
    decreases |es|
  {
    if es != [] {
      hide Inv, Apply, Enabled, Logged;
      var s1 := Apply(s, es[0]);
      StepKeeps(s, es[0]);
      FinishedLog(s1, es[1..]);
      AcceptedLaw(s1, es[1..]);
      FinishStep(s, es[0]);
      var z := After(s1, es[1..]);
      if es[0].Finish? {
        var i := s.pcs[es[0].w].ticket;
        LoggedCons(Finished(s1, es[1..]), z.accepted, z.ran[|s1.ran|..], i);
        LogTail(s.ran, i, z.ran);
      } else {
        assert [] + Finished(s1, es[1..]) == Finished(s1, es[1..]);
      }
    } else {
      assert s.ran[|s.ran|..] == [];
    }
  }

  lemma FinishStep<T(!new)>(s: State<T>, e: Event<T>)
    requires Inv(s) && Enabled(s, e)
    ensures !e.Finish? ==> Apply(s, e).ran == s.ran
    ensures e.Finish? ==>
              && e.w in s.pcs && s.pcs[e.w].Running?
              && var (i, s1) := (s.pcs[e.w].ticket, Apply(s, e));
                 s1.ran == s.ran + [i] && i < |s1.accepted| && s.pcs[e.w].task == s1.accepted[i]
  {
  }

  // ---------- order ----------

  // A worker that gets a task gets the oldest one not yet dispatched.
  lemma DispatchInOrder<T(!new)>(s: State<T>, w: Worker)
    requires Inv(s) && Enabled(s, Look(w)) && s.queue != []
    ensures s.taken < |s.accepted|
    ensures Apply(s, Look(w)).pcs[w] == Running(s.accepted[s.taken], s.taken)
  {
  }

  // ---------- shutdown ----------

  ghost predicate AllReturned<T(!new)>(s: State<T>)
  {
    forall w :: w in s.pcs ==> s.pcs[w].Returned?
  }

  // When all workers of a pool have returned, the tasks that ran are those of the Enqueue
  // events before the first Stop, each as often as it was enqueued.
  lemma DrainOnShutdown<T(!new)>(workers: set<Worker>, es: seq<Event<T>>)
    requires workers != {} && IsRun<T>(Start(workers), es) && AllReturned(After<T>(Start(workers), es))
    ensures var z := After<T>(Start(workers), es);
            && z.stop && z.queue == [] && z.accepted == Offered(es, false)
            && |z.ran| == |z.accepted| && Distinct(z.ran)
            && (forall i :: 0 <= i < |z.accepted| <==> i in z.ran)
            && multiset(Finished(Start(workers), es)) == multiset(Offered(es, false))
  {
    var s: State<T> := Start(workers);
    var z := After(s, es);
    StartInv<T>(workers);
    AllTicketsRun(workers, es);
    AcceptedLaw(s, es);
    FinishedLog(s, es);
    assert z.accepted == Offered(es, false) && z.ran[|s.ran|..] == z.ran;
    Permuted(Finished(s, es), z.accepted, z.ran);
  }

  lemma AllTicketsRun<T(!new)>(workers: set<Worker>, es: seq<Event<T>>)
    requires workers != {} && IsRun<T>(Start(workers), es) && AllReturned(After<T>(Start(workers), es))
    ensures var z := After<T>(Start(workers), es);
            && z.stop && z.queue == [] && |z.ran| == |z.accepted|
            && (forall i :: 0 <= i < |z.accepted| <==> i in z.ran)
            && Distinct(z.ran)
  {
    StartInv<T>(workers);
    RunKeeps<T>(Start(workers), es);
    var z := After<T>(Start(workers), es);
    var w :| w in workers;
    assert z.pcs[w].Returned?;
    forall i: nat | i < |z.accepted|
      ensures i in z.ran
    {
      assert !exists v :: Holds(z, v, i);
    }
    DistinctCount(z.ran);
    assert Elems(z.ran) == UpTo(|z.accepted|);
  }

  function Without<T>(s: seq<T>, k: nat): (r: seq<T>)
    requires k < |s|
    ensures |r| == |s| - 1 && forall j :: 0 <= j < |r| ==> r[j] == if j < k then s[j] else s[j + 1]
  {
    s[..k] + s[k + 1..]
  }

  lemma WithoutElem<T>(s: seq<T>, k: nat)
    requires k < |s|
    ensures multiset(s) == multiset(Without(s, k)) + multiset{s[k]}
  {
    assert s == s[..k] + [s[k]] + s[k + 1..];
  }

  lemma WithoutLargest(order: seq<int>, k: nat)
    requires k < |order| && Distinct(order) && order[k] == |order| - 1
    requires forall i :: 0 <= i < |order| <==> i in order
    ensures Distinct(Without(order, k))
    ensures forall i :: 0 <= i < |order| - 1 <==> i in Without(order, k)
  {
    var r := Without(order, k);
    forall i | 0 <= i < |order| - 1
      ensures i in r
    {
      assert i in order;
      var j :| 0 <= j < |order| && order[j] == i;
      assert r[if j < k then j else j - 1] == i;
    }
    forall j | 0 <= j < |r|
      ensures 0 <= r[j] < |order| - 1
    {
      assert order[if j < k then j else j + 1] in order;
    }
  }

  lemma LoggedWithout<T(!new)>(got: seq<T>, want: seq<T>, order: seq<int>, k: nat)
    requires Logged(got, want, order) && k < |order| == |want|
    requires forall i :: 0 <= i < |want| - 1 <==> i in Without(order, k)
    ensures Logged(Without(got, k), want[..|want| - 1], Without(order, k))
  {
    assert forall j :: 0 <= j < |order| - 1 ==> Without(order, k)[j] in Without(order, k);
  }

  // Picking every element of a sequence once, in any order, gives the same elements.
  lemma {:induction false} Permuted<T(!new)>(got: seq<T>, want: seq<T>, order: seq<int>)
    requires Logged(got, want, order) && |order| == |want| && Distinct(order)
    requires forall i :: 0 <= i < |want| <==> i in order
    ensures multiset(got) == multiset(want)
    decreases |want|
  {
    if want != [] {
      var k := PlaceOfLargest(got, want, order);
      hide Distinct, Logged;
      var n := |want| - 1;
      WithoutLargest(order, k);
      LoggedWithout(got, want, order, k);
      Permuted(Without(got, k), want[..n], Without(order, k));
      WithoutElem(got, k);
      assert want == want[..n] + [want[n]];
    }
  }

  lemma PlaceOfLargest<T(!new)>(got: seq<T>, want: seq<T>, order: seq<int>) returns (k: nat)
    requires Logged(got, want, order) && |order| == |want| > 0
    requires forall i :: 0 <= i < |want| <==> i in order
    ensures k < |got| == |order| && order[k] == |want| - 1 && got[k] == want[|want| - 1]
  {
    assert |want| - 1 in order;
    k :| 0 <= k < |order| && order[k] == |want| - 1;
  }

  ghost function UpTo(n: nat): (s: set<int>)
    ensures |s| == n && forall i :: i in s <==> 0 <= i < n
  {
    if n == 0 then {} else UpTo(n - 1) + {n - 1}
  }

  lemma RunCons<T(!new)>(s: State<T>, e: Event<T>, es: seq<Event<T>>)
    requires Enabled(s, e) && IsRun(Apply(s, e), es)
    ensures IsRun(s, [e] + es) && After(s, [e] + es) == After(Apply(s, e), es)
  {
    assert ([e] + es)[1..] == es;
  }

  // A pool without workers does not drain: its destructor leaves tasks behind.
  lemma NoWorkersNoDrain<T(!new)>(task: T)
    ensures var es := [Enqueue(task), Stop];
            && IsRun<T>(Start({}), es) && AllReturned(After<T>(Start({}), es))
            && After<T>(Start({}), es).queue == [task]
  {
    var s0: State<T> := Start({});
    RunCons(Apply(s0, Enqueue(task)), Stop, []);
    RunCons(s0, Enqueue(task), [Stop]);
    assert [Enqueue(task)] + [Stop] == [Enqueue(task), Stop];
  }

  // ---------- after stop ----------

  ghost function Active<T(!new)>(s: State<T>): set<Worker>
  {
    set w | w in s.pcs && !s.pcs[w].Returned?
  }

  function Looks<T(!new)>(es: seq<Event<T>>): nat
  {
    if es == [] then 0 else (if es[0].Look? then 1 else 0) + Looks(es[1..])
  }

  lemma StoppedStep<T(!new)>(s: State<T>, e: Event<T>)
    requires Enabled(s, e) && s.stop
    ensures var s' := Apply(s, e);
            && s'.stop && s'.accepted == s.accepted
            && |s'.queue| + |Active(s')| == |s.queue| + |Active(s)| - (if e.Look? then 1 else 0)
  {
    var s' := Apply(s, e);
    if e.Look? && s.queue == [] {
      assert e.w in Active(s);
      assert Active(s') == Active(s) - {e.w};
    } else {
      assert Active(s') == Active(s);
    }
  }

  // After stop nothing is accepted, every locked iteration takes a task or exits, and so
  // there are at most as many of them as queued tasks and active workers.
  lemma {:induction false} StoppedRun<T(!new)>(s: State<T>, es: seq<Event<T>>)
    requires IsRun(s, es) && s.stop
    ensures var z := After(s, es);
            && z.stop && z.accepted == s.accepted
            && Looks(es) + |z.queue| + |Active(z)| == |s.queue| + |Active(s)|
    decreases |es|
  {
    if es != [] {
      StoppedStep(s, es[0]);
      StoppedRun(Apply(s, es[0]), es[1..]);
    }
  }

  // ---------- the class ----------

  datatype Found<T> = Took(task: T) | Exit | Nothing

  class ThreadPool<T(!new)> {
    var tasks: seq<T>
    var stop: bool
    ghost var state: State<T>

    ghost predicate Valid()
      reads this
    {
      tasks == state.queue && stop == state.stop && Inv(state)
    }

    constructor (ghost workers: set<Worker>)
      ensures Valid() && state == Start(workers)
    {
      tasks, stop := [], false;
      state := Start(workers);
      new;
      StartInv<T>(workers);
    }

    // False stands for the exception thrown on a stopped pool.
    method Enqueue(task: T) returns (accepted: bool)
      requires Valid()
      modifies this
      ensures Valid() && state == Apply(old(state), Event.Enqueue(task))
      ensures accepted <==> !old(state).stop
      ensures accepted <==> state.accepted == old(state).accepted + [task]
      ensures stop == old(stop) && tasks == old(tasks) + (if old(stop) then [] else [task])
    {
      StepKeeps(state, Event.Enqueue(task));
      assert |state.accepted + [task]| > |state.accepted|;
      accepted := !stop;
      if accepted {
        tasks := tasks + [task];
      }
      state := Apply(state, Event.Enqueue(task));
    }

    // The critical section of the worker loop.
    method LockedIteration(w: Worker) returns (found: Found<T>)
      requires Valid() && Enabled(state, Look(w))
      modifies this
      ensures Valid() && state == Apply(old(state), Look(w))
      ensures found.Exit? <==> state.pcs[w].Returned?
      ensures found.Took? <==> state.pcs[w].Running?
      ensures found.Took? ==> found.task == old(state).accepted[old(state).taken]
      ensures found.Exit? <==> old(stop) && old(tasks) == []
      ensures found.Took? <==> old(tasks) != []
      ensures found.Took? ==> old(tasks) == [found.task] + tasks
      ensures stop == old(stop) && (!found.Took? ==> tasks == old(tasks))
    {
      StepKeeps(state, Look(w));
      found := Nothing;
      if stop && tasks == [] {
        found := Exit;
      } else if tasks != [] {
        found := Took(tasks[0]);
        tasks := tasks[1..];
      }
      state := Apply(state, Look(w));
    }

    method RequestStop()
      requires Valid()
      modifies this
      ensures Valid() && state == Apply(old(state), Stop)
      ensures stop && tasks == old(tasks) && state == old(state).(stop := true)
    {
      StepKeeps(state, Stop);
      stop := true;
      state := Apply(state, Stop);
    }
  }
}
