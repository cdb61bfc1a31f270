/**
 The task queue (taskq.c). Workers, dispatchers, preparers and waiters interleave; each region that holds one lock is
 one step. A unit of work is one call of nni_task_dispatch or nni_task_exec, numbered as the calls are made.
 */
module Taskq {
  datatype Task = Task(callback: bool, busy: int, prep: bool)

  datatype Phase =
    | Dispatching  // counted, not yet on the list
    | Queued
    | Running      // a worker runs the callback
    | Executing    // nni_task_exec runs the callback on the caller's thread

  datatype Unit = Unit(task: nat, phase: Phase)

  datatype State = State(
    tasks: map<nat, Task>,
    units: map<nat, Unit>,    // units that are not finished
    queue: seq<nat>,          // tq_tasks
    looking: nat,             // workers awake with no unit
    asleep: nat,              // workers waiting on tq_sched_cv
    waiting: map<nat, nat>,   // threads waiting on a task's condition variable
    made: nat,                // units so far
    dispatched: set<nat>,     // units that are to go through the list
    appended: seq<nat>,       // units in the order they were put on the list
    started: seq<nat>)        // units in the order workers started them

  datatype Step =
    | Prep(t: nat) | Abort(t: nat) | Dispatch(t: nat) | Exec(t: nat)
    | Append(u: nat) | Take | Done(u: nat) | Sleep | Wake
    | Await(w: nat, t: nat) | Recheck(w: nat) | Return(t: nat)

  /** nni_task_exec and the first half of nni_task_dispatch */
  ghost function Claim(k: Task): Task {
    if k.prep then k.(prep := false) else k.(busy := k.busy + 1)
  }

  /** Dropping the last unit wakes everyone who waits for the task. */
  ghost function Drop(s: State, t: nat): State
    requires t in s.tasks
  {
    var busy := s.tasks[t].busy - 1;
    s.(tasks := s.tasks[t := s.tasks[t].(busy := busy)],
       waiting := if busy == 0 then map w | w in s.waiting && s.waiting[w] != t :: s.waiting[w] else s.waiting)
  }

  /** A task is on the list, or on its way there. */
  ghost predicate Listed(s: State, t: nat) {
    exists u :: u in s.units && s.units[u].task == t && (s.units[u].phase.Queued? || s.units[u].phase.Dispatching?)
  }

  /** The callers' rules: no preparing twice, no dispatch of a task that is still listed. */
  ghost predicate Enabled(s: State, e: Step) {
    match e
    case Prep(t) => t in s.tasks && !s.tasks[t].prep
    case Abort(t) => t in s.tasks
    case Dispatch(t) => t in s.tasks && !Listed(s, t)
    case Exec(t) => t in s.tasks
    case Append(u) => u in s.units && s.units[u].phase.Dispatching?
    case Take => s.looking > 0 && s.queue != [] && s.queue[0] in s.units
    case Done(u) =>
      u in s.units && (s.units[u].phase.Running? || s.units[u].phase.Executing?) && s.units[u].task in s.tasks
    case Sleep => s.looking > 0 && s.queue == []
    case Wake => s.asleep > 0
    case Await(w, t) => t in s.tasks && w !in s.waiting && s.tasks[t].busy != 0
    case Recheck(w) => w in s.waiting
    case Return(t) => t in s.tasks && s.tasks[t].busy == 0
  }

  ghost function PrepTask(s: State, t: nat): State
    requires t in s.tasks
  {
    s.(tasks := s.tasks[t := s.tasks[t].(busy := s.tasks[t].busy + 1, prep := true)])
  }

  ghost function AbortTask(s: State, t: nat): State
    requires t in s.tasks
  {
    if s.tasks[t].prep then Drop(s.(tasks := s.tasks[t := s.tasks[t].(prep := false)]), t) else s
  }

  ghost function Begin(s: State, t: nat, phase: Phase): State
    requires t in s.tasks
  {
    s.(tasks := s.tasks[t := Claim(s.tasks[t])], units := s.units[s.made := Unit(t, phase)], made := s.made + 1)
  }

  ghost function DispatchTask(s: State, t: nat): State
    requires t in s.tasks
  {
    if s.tasks[t].callback then Begin(s, t, Dispatching).(dispatched := s.dispatched + {s.made})
    else Begin(s, t, Executing)
  }

  /** The second half of nni_task_dispatch: the list grows and one sleeping worker wakes. */
  ghost function AppendUnit(s: State, u: nat): State
    requires u in s.units
  {
    var t := s.(queue := s.queue + [u], appended := s.appended + [u],
                units := s.units[u := s.units[u].(phase := Queued)]);
    if s.asleep > 0 then t.(asleep := s.asleep - 1, looking := s.looking + 1) else t
  }

  ghost function TakeUnit(s: State): State
    requires s.looking > 0 && s.queue != [] && s.queue[0] in s.units
  {
    var u := s.queue[0];
    s.(queue := s.queue[1..], started := s.started + [u], looking := s.looking - 1,
       units := s.units[u := s.units[u].(phase := Running)])
  }

  /** The callback returned: a worker looks for more work, an nni_task_exec caller leaves. */
  ghost function FinishUnit(s: State, u: nat): State
    requires u in s.units && s.units[u].task in s.tasks
  {
    Drop(s.(units := s.units - {u}, looking := s.looking + if s.units[u].phase.Running? then 1 else 0), s.units[u].task)
  }

  ghost function Next(s: State, e: Step): State
    requires Enabled(s, e)
  {
    match e
    case Prep(t) => PrepTask(s, t)
    case Abort(t) => AbortTask(s, t)
    case Dispatch(t) => DispatchTask(s, t)
    case Exec(t) => Begin(s, t, Executing)
    case Append(u) => AppendUnit(s, u)
    case Take => TakeUnit(s)
    case Done(u) => FinishUnit(s, u)
    case Sleep => s.(looking := s.looking - 1, asleep := s.asleep + 1)
    case Wake => s.(looking := s.looking + 1, asleep := s.asleep - 1)
    case Await(w, t) => s.(waiting := s.waiting[w := t])
    case Recheck(w) => s.(waiting := s.waiting - {w})
    case Return(_) => s
  }

  ghost predicate Init(s: State) {
    && (forall t :: t in s.tasks ==> s.tasks[t].busy == 0 && !s.tasks[t].prep)
    && s.units == map[] && s.queue == [] && s.asleep == 0 && s.waiting == map[]
    && s.made == 0 && s.dispatched == {} && s.appended == [] && s.started == []
  }

  ghost predicate Run(s: State, es: seq<Step>, t: State)
    decreases |es|
  {
    if es == [] then t == s else Enabled(s, es[0]) && Run(Next(s, es[0]), es[1..], t)
  }

  // ---- what every step keeps ----

  ghost function Live(s: State, t: nat): set<nat> {
    set u | u in s.units && s.units[u].task == t
  }

  /** task_busy counts the preparation and the unfinished units. */
  ghost predicate Counted(s: State, t: nat)
    requires t in s.tasks
  {
    s.tasks[t].busy == (if s.tasks[t].prep then 1 else 0) + |Live(s, t)|
  }

  ghost predicate AllCounted(s: State) {
    && (forall t :: t in s.tasks ==> Counted(s, t))
    && (forall u :: u in s.units ==> s.units[u].task in s.tasks && u < s.made)
    && (forall w :: w in s.waiting ==> s.waiting[w] in s.tasks && s.tasks[s.waiting[w]].busy != 0)
  }

  ghost predicate Distinct(q: seq<nat>) {
    forall i, j :: 0 <= i < j < |q| ==> q[i] != q[j]
  }

  /** The list holds the appended units that have not started, in order; each unit was appended once. */
  ghost predicate InOrder(s: State) {
    && s.started + s.queue == s.appended
    && Distinct(s.appended)
    && (forall u :: u in s.appended ==> u in s.dispatched && u < s.made)
    && (forall u :: u in s.dispatched ==> u < s.made && (u in s.appended || u in s.units))
    && (forall u :: u in s.units && s.units[u].phase.Dispatching? ==> u in s.dispatched && u !in s.appended)
    && (forall u :: u in s.units && u in s.dispatched && u !in s.appended ==> s.units[u].phase.Dispatching?)
    && (forall u :: u in s.units ==> (s.units[u].phase.Queued? <==> u in s.queue))
    && (forall u :: u in s.queue ==> u in s.units)
    && (forall u :: u in s.units && s.units[u].phase.Running? ==> u in s.started)
  }

  /** A task has one list node: at most one of its units is listed. */
  ghost predicate OneListed(s: State) {
    forall u, v :: u in s.units && v in s.units && Clash(s.units[u], s.units[v]) ==> u == v
  }

  /** Two units that would share a list node. */
  ghost predicate Clash(k: Unit, m: Unit) {
    Lists(k) && Lists(m) && k.task == m.task
  }

  ghost predicate Lists(k: Unit) {
    k.phase.Queued? || k.phase.Dispatching?
  }

  ghost predicate WorkConserving(s: State) {
    s.asleep > 0 ==> |s.queue| <= s.looking
  }

  ghost predicate Inv(s: State) {
    AllCounted(s) && InOrder(s) && OneListed(s) && WorkConserving(s)
  }

  lemma BeginLive(s: State, t: nat, phase: Phase, r: nat)
    requires s.made !in s.units && t in s.tasks
    ensures |Live(Begin(s, t, phase), r)| == |Live(s, r)| + if r == t then 1 else 0
  {
    hide Claim;
    if r == t {
      assert Live(Begin(s, t, phase), r) == Live(s, r) + {s.made};
    } else {
      assert Live(Begin(s, t, phase), r) == Live(s, r);
    }
  }

  lemma BeginCounts(s: State, t: nat, phase: Phase)
    requires AllCounted(s) && t in s.tasks
    ensures AllCounted(Begin(s, t, phase))
  {
    hide Live;
    var n := Begin(s, t, phase);
    assert Counted(s, t);
    forall r | r in n.tasks ensures Counted(n, r) {
      assert Counted(s, r);
      BeginLive(s, t, phase, r);
    }
  }

  lemma AbortCounts(s: State, t: nat)
    requires AllCounted(s) && t in s.tasks
    ensures AllCounted(AbortTask(s, t))
  {
    var n := AbortTask(s, t);
    forall r | r in n.tasks ensures Counted(n, r) {
      assert Counted(s, r);
      assert Live(n, r) == Live(s, r);
    }
  }

  lemma FinishCounts(s: State, u: nat)
    requires AllCounted(s) && u in s.units && s.units[u].task in s.tasks
    ensures AllCounted(FinishUnit(s, u))
  {
    var n := FinishUnit(s, u);
    forall r | r in n.tasks ensures Counted(n, r) {
      assert Counted(s, r);
      assert Live(n, r) == Live(s, r) - {u};
    }
  }

  lemma RephaseCounts(s: State, n: State, u: nat, phase: Phase)
    requires AllCounted(s) && u in s.units && n.units == s.units[u := s.units[u].(phase := phase)]
    requires n.tasks == s.tasks && n.waiting == s.waiting && n.made == s.made
    ensures AllCounted(n)
  {
    forall r | r in n.tasks ensures Counted(n, r) {
      assert Counted(s, r);
      assert Live(n, r) == Live(s, r);
    }
  }

  /** Preparing keeps the count right if and only if the task was not prepared already. */
  lemma PrepCountsIff(s: State, t: nat)
    requires AllCounted(s) && t in s.tasks
    ensures AllCounted(PrepTask(s, t)) <==> !s.tasks[t].prep
  {
    var n := PrepTask(s, t);
    assert Counted(s, t);
    assert Counted(n, t) ==> !s.tasks[t].prep by { assert Live(n, t) == Live(s, t); }
    forall r | r in n.tasks ensures Counted(n, r) <==> r != t || !s.tasks[t].prep {
      assert Counted(s, r);
      assert Live(n, r) == Live(s, r);
    }
  }

  /** One preparation is counted; a second one, before anything is dispatched, is counted and forgotten. */
  lemma PrepTwiceBreaks(s: State, t: nat)
    requires Init(s) && t in s.tasks
    ensures exists es, n :: Run(s, es, n) && t in n.tasks && AllCounted(n) && !AllCounted(PrepTask(n, t))
  {
    hide AllCounted, Run, PrepTask;
    var n := Next(s, Prep(t));
    OneStep(s, Prep(t));
    assert Run(s, [Prep(t)], n);
    NothingYet(s);
    PrepCountsIff(s, t);
    Prepared(s, t);
    PrepCountsIff(n, t);
  }

  lemma OneStep(s: State, e: Step)
    requires Enabled(s, e)
    ensures Run(s, [e], Next(s, e))
  {
    hide Next, Enabled;
    assert [e][1..] == [];
    assert Run(Next(s, e), [], Next(s, e));
  }

  lemma NothingYet(s: State)
    requires Init(s)
    ensures AllCounted(s)
  {
    assert forall k :: k in s.tasks ==> Live(s, k) == {};
  }

  lemma Prepared(s: State, t: nat)
    requires t in s.tasks
    ensures t in PrepTask(s, t).tasks && PrepTask(s, t).tasks[t].prep
  {
  }

  lemma OtherCounts(s: State, n: State)
    requires AllCounted(s) && n.tasks == s.tasks && n.units == s.units && n.made == s.made
    requires forall w :: w in n.waiting ==> n.waiting[w] in s.tasks && s.tasks[n.waiting[w]].busy != 0
    ensures AllCounted(n)
  {
    forall r | r in n.tasks ensures Counted(n, r) {
      assert Counted(s, r);
      assert Live(n, r) == Live(s, r);
    }
  }

  lemma CountsKept(s: State, e: Step)
    requires AllCounted(s) && Enabled(s, e)
    ensures AllCounted(Next(s, e))
  {
    hide AllCounted, Live, Drop, Begin, PrepTask, AbortTask, FinishUnit;
    var n := Next(s, e);
    match e
    case Prep(t) => PrepCountsIff(s, t);
    case Abort(t) => AbortCounts(s, t);
    case Dispatch(t) => DispatchCounts(s, t);
    case Exec(t) => BeginCounts(s, t, Executing);
    case Append(u) => RephaseCounts(s, n, u, Queued);
    case Take => RephaseCounts(s, n, s.queue[0], Running);
    case Done(u) => FinishCounts(s, u);
    case _ => Waiters(s); OtherCounts(s, n);
  }

  lemma Waiters(s: State)
    requires AllCounted(s)
    ensures forall w :: w in s.waiting ==> s.waiting[w] in s.tasks && s.tasks[s.waiting[w]].busy != 0
  {
  }

  lemma DispatchCounts(s: State, t: nat)
    requires AllCounted(s) && t in s.tasks
    ensures AllCounted(DispatchTask(s, t))
  {
    hide AllCounted;
    var n := Begin(s, t, if s.tasks[t].callback then Dispatching else Executing);
    BeginCounts(s, t, if s.tasks[t].callback then Dispatching else Executing);
    Waiters(n);
    OtherCounts(n, DispatchTask(s, t));
  }

  lemma AppendOrder(s: State, u: nat)
    requires InOrder(s) && u in s.units && s.units[u].phase.Dispatching?
    ensures InOrder(AppendUnit(s, u))
  {
    var n := AppendUnit(s, u);
    assert n.started + n.queue == (s.started + s.queue) + [u];
  }

  lemma TakeOrder(s: State)
    requires InOrder(s) && s.looking > 0 && s.queue != [] && s.queue[0] in s.units
    ensures InOrder(TakeUnit(s))
  {
    var n := TakeUnit(s);
    var u := s.queue[0];
    assert s.queue == [u] + s.queue[1..];
    assert n.started + n.queue == s.started + s.queue;
    QueueTail(s);
  }

  /** The first listed unit is listed once. */
  lemma QueueTail(s: State)
    requires InOrder(s) && s.queue != []
    ensures s.queue[0] !in s.queue[1..]
  {
    var k := |s.started|;
    forall i | 0 <= i < |s.queue[1..]| ensures s.queue[1..][i] != s.queue[0] {
      assert s.appended[k] == s.queue[0] && s.appended[k + 1 + i] == s.queue[1..][i];
    }
  }

  lemma FinishOrder(s: State, u: nat)
    requires InOrder(s) && u in s.units && (s.units[u].phase.Running? || s.units[u].phase.Executing?)
    requires s.units[u].task in s.tasks
    ensures InOrder(FinishUnit(s, u))
  {
    var n := FinishUnit(s, u);
    assert s.units[u].phase.Running? ==> u in s.appended;
  }

  lemma FreshOrder(s: State)
    requires InOrder(s) && AllCounted(s)
    ensures s.made !in s.units && s.made !in s.appended && s.made !in s.dispatched
    ensures s.made !in s.queue && s.made !in s.started
  {
    hide Counted, Distinct;
    assert forall u :: u in s.started ==> u in s.started + s.queue;
  }

  lemma DispatchOrder(s: State, t: nat)
    requires InOrder(s) && AllCounted(s) && t in s.tasks && s.tasks[t].callback
    ensures InOrder(DispatchTask(s, t))
  {
    hide AllCounted, Distinct;
    FreshOrder(s);
  }

  lemma ExecOrder(s: State, t: nat)
    requires InOrder(s) && AllCounted(s) && t in s.tasks
    ensures InOrder(Begin(s, t, Executing))
  {
    hide AllCounted, Distinct;
    FreshOrder(s);
  }

  /** Without a callback, dispatching is executing. */
  lemma NoCallback(s: State, t: nat)
    requires t in s.tasks && !s.tasks[t].callback
    ensures DispatchTask(s, t) == Begin(s, t, Executing)
  {
  }

  lemma OrderKept(s: State, e: Step)
    requires Inv(s) && Enabled(s, e)
    ensures InOrder(Next(s, e))
  {
    hide AllCounted, OneListed, WorkConserving, Distinct, DispatchTask, Begin, AppendUnit, TakeUnit, FinishUnit;
    match e
    case Append(u) => AppendOrder(s, u);
    case Take => TakeOrder(s);
    case Done(u) => FinishOrder(s, u);
    case Dispatch(t) =>
      if s.tasks[t].callback {
        DispatchOrder(s, t);
      } else {
        ExecOrder(s, t);
        NoCallback(s, t);
      }
    case Exec(t) => ExecOrder(s, t);
    case _ =>
  }

  lemma ListedKept(s: State, e: Step)
    requires Inv(s) && Enabled(s, e)
    ensures OneListed(Next(s, e))
  {
    hide AllCounted, WorkConserving, Distinct, InOrder, Listed;
    var n := Next(s, e);
    FreshUnit(s);
    assert s.queue != [] ==> s.queue[0] in s.units && s.units[s.queue[0]].phase.Queued? by {
      if s.queue != [] { Heads(s); }
    }
    if e.Dispatch? { NotListed(s, e.t); }
    forall u, v | u in n.units && v in n.units && Clash(n.units[u], n.units[v]) ensures u == v {
      assert u in s.units ==> Lists(s.units[u]) && s.units[u].task == n.units[u].task;
      assert v in s.units ==> Lists(s.units[v]) && s.units[v].task == n.units[v].task;
    }
  }

  lemma FreshUnit(s: State)
    requires AllCounted(s)
    ensures s.made !in s.units
  {
  }

  lemma Heads(s: State)
    requires InOrder(s) && s.queue != []
    ensures s.queue[0] in s.units && s.units[s.queue[0]].phase.Queued?
  {
    assert s.queue[0] in s.queue;
  }

  lemma NotListed(s: State, t: nat)
    requires !Listed(s, t)
    ensures forall u :: u in s.units && Lists(s.units[u]) ==> s.units[u].task != t
  {
  }

  lemma ConservingKept(s: State, e: Step)
    requires Inv(s) && Enabled(s, e)
    ensures WorkConserving(Next(s, e))
  {
    hide AllCounted, InOrder, OneListed, Listed;
  }

  lemma {:induction false} RunKeeps(s: State, es: seq<Step>, t: State)
    requires Inv(s) && Run(s, es, t)
    ensures Inv(t)
    decreases |es|
  {
    hide AllCounted, InOrder, OneListed, WorkConserving, Enabled, Next;
    if es != [] {
      CountsKept(s, es[0]);
      OrderKept(s, es[0]);
      ListedKept(s, es[0]);
      ConservingKept(s, es[0]);
      RunKeeps(Next(s, es[0]), es[1..], t);
    }
  }

  lemma Reached(s: State, es: seq<Step>, t: State)
    requires Init(s) && Run(s, es, t)
    ensures Inv(t)
  {
    hide Run;
    assert forall k :: k in s.tasks ==> Live(s, k) == {};
    RunKeeps(s, es, t);
  }

  // ---- the promises ----

  /** nni_task_wait returns exactly when nothing of the task is prepared, being dispatched, queued or running. */
  lemma WaitSeesIdle(s: State, es: seq<Step>, n: State, t: nat)
    requires Init(s) && Run(s, es, n) && t in n.tasks
    ensures Enabled(n, Return(t)) <==> !n.tasks[t].prep && forall u :: u in n.units ==> n.units[u].task != t
    ensures n.tasks[t].busy >= 0
  {
    hide Run, Init;
    Reached(s, es, n);
    assert Counted(n, t);
    if Live(n, t) != {} {
      var u :| u in Live(n, t);
      assert n.units[u].task == t;
    }
    assert forall u :: u in n.units && n.units[u].task == t ==> u in Live(n, t);
  }

  /** A sleeping waiter has something to wait for: the wake-up at zero is never lost. */
  lemma NoWaiterForgotten(s: State, es: seq<Step>, n: State, w: nat)
    requires Init(s) && Run(s, es, n) && w in n.waiting
    ensures n.waiting[w] in n.tasks
    ensures n.tasks[n.waiting[w]].prep || exists u :: u in n.units && n.units[u].task == n.waiting[w]
  {
    hide Run, Init;
    Reached(s, es, n);
    var t := n.waiting[w];
    assert Counted(n, t);
    if !n.tasks[t].prep {
      assert Live(n, t) != {};
      var u :| u in Live(n, t);
      assert n.units[u].task == t;
    }
  }

  /** How often a unit occurs in a list. */
  ghost function Times(q: seq<nat>, u: nat): nat {
    multiset(q)[u]
  }

  lemma {:induction false} DistinctTimes(q: seq<nat>, u: nat)
    requires Distinct(q)
    ensures Times(q, u) == if u in q then 1 else 0
  {
    if q != [] {
      assert q == [q[0]] + q[1..];
      DistinctTimes(q[1..], u);
      assert q[0] !in q[1..];
    }
  }

  /**
   Every dispatch whose task has a callback is in exactly one place: on its way to the list, on it, or started by
   one worker, once. Units start in the order they were put on the list.
   */
  lemma EachDispatchOnce(s: State, es: seq<Step>, n: State, u: nat)
    requires Init(s) && Run(s, es, n) && u in n.dispatched
    ensures var coming := if u in n.units && n.units[u].phase.Dispatching? then 1 else 0;
            Times(n.started, u) + Times(n.queue, u) + coming == 1
    ensures n.started + n.queue == n.appended
  {
    hide Run, Init, AllCounted, OneListed, WorkConserving;
    Reached(s, es, n);
    DistinctTimes(n.appended, u);
    assert multiset(n.started + n.queue) == multiset(n.started) + multiset(n.queue);
  }

  /** When nothing is in flight, every dispatch has run its callback exactly once, in list order. */
  lemma AllDispatchesRan(s: State, es: seq<Step>, n: State)
    requires Init(s) && Run(s, es, n) && n.units == map[]
    ensures n.started == n.appended && n.queue == []
    ensures forall u :: u in n.dispatched ==> Times(n.started, u) == 1
    ensures forall u :: u in n.started ==> u in n.dispatched
  {
    hide Run, Init, AllCounted, OneListed, WorkConserving;
    Reached(s, es, n);
    if n.queue != [] {
      Heads(n);
      assert false;
    }
    forall u | u in n.dispatched ensures Times(n.started, u) == 1 { EachDispatchOnce(s, es, n, u); }
  }

  /** Waking one worker per dispatch is adequate: none sleeps while more units are listed than workers look. */
  lemma NoIdleWorker(s: State, es: seq<Step>, n: State)
    requires Init(s) && Run(s, es, n) && n.queue != []
    ensures n.asleep == 0 || (n.looking > 0 && Enabled(n, Take))
    ensures n.asleep > 0 ==> |n.queue| <= n.looking
  {
    hide Run, Init, AllCounted, OneListed;
    Reached(s, es, n);
    Heads(n);
  }

  /** Two listed units belong to two tasks, so the one list node in each task suffices. */
  lemma OneNodeEach(s: State, es: seq<Step>, n: State, i: nat, j: nat)
    requires Init(s) && Run(s, es, n) && i < j < |n.queue|
    ensures n.queue[i] in n.units && n.queue[j] in n.units
    ensures n.units[n.queue[i]].task != n.units[n.queue[j]].task
  {
    hide Run, Init, AllCounted, WorkConserving;
    Reached(s, es, n);
    var k := |n.started|;
    assert n.appended[k + i] == n.queue[i] && n.appended[k + j] == n.queue[j];
    assert n.queue[i] in n.queue && n.queue[j] in n.queue;
  }
}
