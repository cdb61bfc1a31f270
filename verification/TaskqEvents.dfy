/** What the events of a run say about the task queue (taskq.c): which units were made, and which of them are over. */
module TaskqEvents {
  import opened Taskq

  /** A call of nni_task_dispatch or nni_task_exec; listed: its callback is to run on a worker. */
  datatype Made = Made(task: nat, listed: bool)

  /** The units made, in order; those whose callback returned; and the tasks prepared since their last unit. */
  datatype Log = Log(units: seq<Made>, over: set<nat>, prepared: set<nat>)

  /** `callbacks` are the tasks that have one. */
  ghost function Note(l: Log, callbacks: set<nat>, e: Step): Log {
    match e
    case Prep(t) => l.(prepared := l.prepared + {t})
    case Abort(t) => l.(prepared := l.prepared - {t})
    case Dispatch(t) => l.(units := l.units + [Made(t, t in callbacks)], prepared := l.prepared - {t})
    case Exec(t) => l.(units := l.units + [Made(t, false)], prepared := l.prepared - {t})
    case Done(u) => l.(over := l.over + {u})
    case _ => l
  }

  ghost function NoteAll(l: Log, callbacks: set<nat>, es: seq<Step>): Log
    decreases |es|
  {
    if es == [] then l else NoteAll(Note(l, callbacks, es[0]), callbacks, es[1..])
  }

  ghost function Callbacks(s: State): set<nat> {
    set t | t in s.tasks && s.tasks[t].callback
  }

  ghost function Told(s: State, es: seq<Step>): Log {
    NoteAll(Log([], {}, {}), Callbacks(s), es)
  }

  ghost predicate UnitsAgree(s: State, l: Log) {
    && s.made == |l.units|
    && (forall u :: u in l.over ==> u < |l.units|)
    && (forall u: nat :: u in s.units <==> u < |l.units| && u !in l.over)
    && (forall u :: u in s.units ==>
          s.units[u].task == l.units[u].task && (s.units[u].phase.Executing? <==> !l.units[u].listed))
    && (forall u: nat :: u in s.dispatched <==> u < |l.units| && l.units[u].listed)
  }

  ghost predicate TasksAgree(s: State, l: Log, callbacks: set<nat>) {
    && Callbacks(s) == callbacks
    && forall t :: t in s.tasks ==> (s.tasks[t].prep <==> t in l.prepared)
  }

  lemma BeginUnits(s: State, t: nat, l: Log, phase: Phase, listed: bool, dispatched: set<nat>)
    requires UnitsAgree(s, l) && t in s.tasks && (phase.Executing? <==> !listed)
    requires dispatched == if listed then s.dispatched + {s.made} else s.dispatched
    ensures UnitsAgree(Begin(s, t, phase).(dispatched := dispatched), l.(units := l.units + [Made(t, listed)]))
  {
    hide Claim;
  }

  lemma FinishUnits(s: State, u: nat, l: Log)
    requires UnitsAgree(s, l) && u in s.units && s.units[u].task in s.tasks
    ensures UnitsAgree(FinishUnit(s, u), l.(over := l.over + {u}))
  {
  }

  lemma RephaseUnits(s: State, n: State, u: nat, phase: Phase, l: Log)
    requires UnitsAgree(s, l) && u in s.units && !s.units[u].phase.Executing? && !phase.Executing?
    requires n.units == s.units[u := s.units[u].(phase := phase)] && n.made == s.made && n.dispatched == s.dispatched
    ensures UnitsAgree(n, l)
  {
  }

  lemma PreparesOnly(l: Log, m: Log, s: State, n: State)
    requires UnitsAgree(s, l) && m.units == l.units && m.over == l.over
    requires n.units == s.units && n.made == s.made && n.dispatched == s.dispatched
    ensures UnitsAgree(n, m)
  {
  }

  lemma UnitsKept(s: State, e: Step, l: Log, callbacks: set<nat>)
    requires Inv(s) && Enabled(s, e) && UnitsAgree(s, l) && TasksAgree(s, l, callbacks)
    ensures UnitsAgree(Next(s, e), Note(l, callbacks, e))
  {
    hide Inv, UnitsAgree, Listed, Drop, Claim;
    var n, m := Next(s, e), Note(l, callbacks, e);
    match e
    case Dispatch(t) =>
      var listed := t in callbacks;
      var d := Log(l.units + [Made(t, listed)], l.over, l.prepared);
      BeginUnits(s, t, l, if listed then Dispatching else Executing, listed, n.dispatched);
      PreparesOnly(d, m, n, n);
    case Exec(t) =>
      BeginUnits(s, t, l, Executing, false, s.dispatched);
      PreparesOnly(Log(l.units + [Made(t, false)], l.over, l.prepared), m, n, n);
    case Append(u) => RephaseUnits(s, n, u, Queued, l);
    case Take =>
      HeadQueued(s);
      RephaseUnits(s, n, s.queue[0], Running, l);
    case Done(u) => FinishUnits(s, u, l);
    case Abort(t) => AbortUnits(s, t); PreparesOnly(l, m, s, n);
    case _ => PreparesOnly(l, m, s, n);
  }

  lemma HeadQueued(s: State)
    requires Inv(s) && s.queue != []
    ensures s.queue[0] in s.units && s.units[s.queue[0]].phase.Queued?
  {
    Heads(s);
  }

  lemma AbortUnits(s: State, t: nat)
    requires t in s.tasks
    ensures var n := AbortTask(s, t); n.units == s.units && n.made == s.made && n.dispatched == s.dispatched
  {
  }

  lemma TasksKept(s: State, e: Step, l: Log, callbacks: set<nat>)
    requires Enabled(s, e) && TasksAgree(s, l, callbacks)
    ensures TasksAgree(Next(s, e), Note(l, callbacks, e), callbacks)
  {
    hide Listed;
    var n := Next(s, e);
    forall t ensures t in Callbacks(n) <==> t in Callbacks(s) {}
  }

  lemma {:induction false} RunTells(s: State, es: seq<Step>, n: State, l: Log, callbacks: set<nat>)
    requires Inv(s) && Run(s, es, n) && UnitsAgree(s, l) && TasksAgree(s, l, callbacks)
    ensures Inv(n) && UnitsAgree(n, NoteAll(l, callbacks, es)) && TasksAgree(n, NoteAll(l, callbacks, es), callbacks)
    decreases |es|
  {
    hide Inv, UnitsAgree, TasksAgree, Enabled, Next, Note;
    if es != [] {
      UnitsKept(s, es[0], l, callbacks);
      TasksKept(s, es[0], l, callbacks);
      StepKeeps(s, es[0]);
      RunTells(Next(s, es[0]), es[1..], n, Note(l, callbacks, es[0]), callbacks);
    }
  }

  lemma StepKeeps(s: State, e: Step)
    requires Inv(s) && Enabled(s, e)
    ensures Inv(Next(s, e))
  {
    hide AllCounted, InOrder, OneListed, WorkConserving, Enabled, Next;
    CountsKept(s, e);
    OrderKept(s, e);
    ListedKept(s, e);
    ConservingKept(s, e);
  }

  lemma AtStart(s: State)
    requires Init(s)
    ensures Inv(s) && UnitsAgree(s, Log([], {}, {})) && TasksAgree(s, Log([], {}, {}), Callbacks(s))
  {
    assert Run(s, [], s);
    Reached(s, [], s);
  }

  /**
   Over every run: nni_task_wait may return exactly when the task is not prepared and every unit made for it is over;
   a call waiting to be dispatched, listed or running keeps it waiting.
   */
  lemma WaitMeansOver(s: State, es: seq<Step>, n: State, t: nat)
    requires Init(s) && Run(s, es, n) && t in n.tasks
    ensures var l := Told(s, es);
            Enabled(n, Return(t)) <==>
              t !in l.prepared && forall u :: 0 <= u < |l.units| && l.units[u].task == t ==> u in l.over
  {
    hide Inv, Run, NoteAll, Callbacks;
    AtStart(s);
    RunTells(s, es, n, Log([], {}, {}), Callbacks(s));
    WaitSeesIdle(s, es, n, t);
    var l := Told(s, es);
    assert forall u :: 0 <= u < |l.units| && u !in l.over ==> u in n.units;
  }

  /**
   Over every run: each dispatch of a task with a callback is on its way to the list, on it, or was started by one
   worker, once; the other units never enter the list; and a listed unit that is over was started.
   */
  lemma DispatchedOnce(s: State, es: seq<Step>, n: State, u: nat)
    requires Init(s) && Run(s, es, n) && u < |Told(s, es).units|
    ensures var coming := if u in n.units && n.units[u].phase.Dispatching? then 1 else 0;
            var listed := Told(s, es).units[u].listed;
            && Times(n.started, u) + Times(n.queue, u) + coming == (if listed then 1 else 0)
            && (listed && u in Told(s, es).over ==> Times(n.started, u) == 1)
    ensures u in n.units <==> u !in Told(s, es).over
  {
    hide Run, NoteAll, Callbacks, AllCounted, OneListed, WorkConserving, Distinct;
    AtStart(s);
    RunTells(s, es, n, Log([], {}, {}), Callbacks(s));
    if Told(s, es).units[u].listed {
      EachDispatchOnce(s, es, n, u);
      assert u in n.queue <==> u in multiset(n.queue);
    } else {
      assert u !in n.appended;
      assert u !in n.started + n.queue;
      assert multiset(n.started + n.queue) == multiset(n.started) + multiset(n.queue);
      assert u !in multiset(n.started + n.queue);
    }
  }

  // ---- workers ----

  ghost function AtWork(s: State): set<nat> {
    set u | u in s.units && s.units[u].phase.Running?
  }

  ghost function Workers(s: State): nat {
    s.looking + s.asleep + |AtWork(s)|
  }

  /** A unit moves from one phase to another, neither of them at work. */
  lemma SameWork(s: State, n: State, u: nat)
    requires forall v :: v != u ==> (v in n.units <==> v in s.units) && (v in s.units ==> n.units[v] == s.units[v])
    requires u in s.units ==> !s.units[u].phase.Running?
    requires u in n.units ==> !n.units[u].phase.Running?
    ensures AtWork(n) == AtWork(s)
  {
  }

  lemma StartsWork(s: State, n: State, u: nat)
    requires u in s.units && !s.units[u].phase.Running? && n.units == s.units[u := s.units[u].(phase := Running)]
    ensures |AtWork(n)| == |AtWork(s)| + 1
  {
    assert AtWork(n) == AtWork(s) + {u};
  }

  lemma EndsWork(s: State, n: State, u: nat)
    requires u in s.units && n.units == s.units - {u}
    ensures |AtWork(n)| == |AtWork(s)| - if s.units[u].phase.Running? then 1 else 0
  {
    assert AtWork(n) == AtWork(s) - {u};
  }

  lemma WorkersKept(s: State, e: Step)
    requires Inv(s) && Enabled(s, e)
    ensures Workers(Next(s, e)) == Workers(s)
  {
    hide Inv, AtWork, Listed, Claim;
    var n := Next(s, e);
    Unmade(s);
    match e
    case Take =>
      HeadQueued(s);
      StartsWork(s, n, s.queue[0]);
    case Done(u) => EndsWork(s, n, u);
    case Append(u) => SameWork(s, n, u);
    case _ => SameWork(s, n, s.made);
  }

  lemma Unmade(s: State)
    requires Inv(s)
    ensures s.made !in s.units
  {
    FreshUnit(s);
  }

  /** No worker is lost or invented: each looks for work, sleeps, or runs one callback. */
  lemma {:induction false} WorkersConserved(s: State, es: seq<Step>, n: State)
    requires Inv(s) && Run(s, es, n)
    ensures Workers(n) == Workers(s)
    decreases |es|
  {
    hide Inv, Enabled, Next, Workers;
    if es != [] {
      WorkersKept(s, es[0]);
      StepKeeps(s, es[0]);
      WorkersConserved(Next(s, es[0]), es[1..], n);
    }
  }
}
