/**
 Deadlines and results over every run of sleeps (aio.c), stated on the events: the deadline a sleep was given is the one
 it waits for, it is taken from the expire list once that has passed and not before, and it completes with the
 code it was cancelled with.
 */
module AioDeadlines {
  import opened ExpireQueue
  import opened AioSleep
  import opened AioRuns

  datatype Timer = Timer(deadline: nat, ok: bool)

  /**
   What the events say: the aio each call began on; of the operation on each aio, the timer it was given and the code it
   was aborted with; and the aios stopped or closed.
   */
  datatype History = History(owner: map<nat, nat>, timers: map<nat, Timer>, aborted: map<nat, int>, stopped: set<nat>)

  ghost function Note(h: History, e: Step): History {
    match e
    case Begin(c, a) => h.(owner := h.owner[c := a], timers := h.timers - {a}, aborted := h.aborted - {a})
    case Arm(c, deadline, ok) =>
      if c in h.owner then h.(timers := h.timers[h.owner[c] := Timer(deadline, ok)]) else h
    case Take(_, a, why) =>
      if why.Abort? then h.(aborted := h.aborted[a := why.rv]) else h.(stopped := h.stopped + {a})
    case _ => h
  }

  ghost function NoteAll(h: History, es: seq<Step>): History
    decreases |es|
  {
    if es == [] then h else NoteAll(Note(h, es[0]), es[1..])
  }

  ghost function Nothing(): History {
    History(map[], map[], map[], {})
  }

  ghost function Told(es: seq<Step>): History {
    NoteAll(Nothing(), es)
  }

  // ---- what every step keeps ----

  ghost predicate Owned(s: State, h: History, c: nat) {
    c in s.calls && (s.calls[c].Begun? || s.calls[c].Armed?) ==> c in h.owner && h.owner[c] == s.calls[c].aio
  }

  ghost predicate Has(x: Aio, h: History, a: nat) {
    a in h.timers && x.expire == h.timers[a].deadline && x.expireOk == h.timers[a].ok
  }

  /** The aio knows whether its operation was aborted, and with what. */
  ghost predicate Warned(x: Aio, h: History, a: nat) {
    (x.abort <==> a in h.aborted) && (x.abort ==> x.result == h.aborted[a])
  }

  /** Once armed, and for as long as the cancel function is registered, the aio has the timer of its operation. */
  ghost predicate Dated(s: State, h: History, a: nat)
    requires a in s.aios
  {
    && (s.aios[a].cancelFn ==> Has(s.aios[a], h, a))
    && (forall c :: OnAio(s, c, a) && s.calls[c].Armed? ==> Has(s.aios[a], h, a))
    && (forall c :: OnAio(s, c, a) && (s.calls[c].Begun? || s.calls[c].Armed?) ==> Warned(s.aios[a], h, a))
    && (s.aios[a].stop <==> a in h.stopped)
  }

  ghost predicate Agrees(s: State, h: History) {
    && (forall c :: Owned(s, h, c))
    && (forall a :: a in s.aios ==> Dated(s, h, a))
  }

  lemma OwnedCall(s: State, e: Step, h: History)
    requires Enabled(s, e) && CallsKnown(s) && CallStep(e) && Owned(s, h, e.c)
    ensures Owned(Next(s, e), Note(h, e), e.c)
  {
    hide ListKnown, Without;
  }

  lemma OwnedBegin(s: State, c: nat, a: nat, h: History)
    requires Enabled(s, Begin(c, a))
    ensures Owned(BeginStep(s, c, a), Note(h, Begin(c, a)), c)
  {
  }

  lemma OwnedTake(s: State, c: nat, a: nat, why: Why, h: History)
    requires Enabled(s, Take(c, a, why))
    ensures Owned(TakeStep(s, c, a, why), Note(h, Take(c, a, why)), c)
  {
    hide Without;
  }

  lemma OwnedQuiet(s: State, e: Step, h: History, c: nat)
    requires Enabled(s, e) && CallsKnown(s) && !CallStep(e) && !OneAioStep(e) && Owned(s, h, c)
    ensures Owned(Next(s, e), Note(h, e), c)
  {
    hide ListKnown, Without, Scan, Deadlines;
  }

  /** The calls of a step that works on one aio: all but its own stay. */
  lemma OwnedFrame(s: State, t: State, h: History, g: History, a: nat, d: nat, c: nat)
    requires Local(s, t, a, d) && Owned(s, h, c) && (t.calls == s.calls || c != d)
    requires c in h.owner ==> c in g.owner && g.owner[c] == h.owner[c]
    ensures Owned(t, g, c)
  {
  }

  lemma OwnedKeeps(s: State, e: Step, h: History, c: nat)
    requires Enabled(s, e) && CallsKnown(s) && Owned(s, h, c)
    ensures Owned(Next(s, e), Note(h, e), c)
  {
    hide Local, Owned, ListKnown, Without, BeginStep, TakeStep, ScheduleStep, CancelStep, FinishStep, DispatchStep;
    hide ExpireStep, TakeBatchStep;
    if CallStep(e) {
      CallStepLocal(s, e);
      if c == e.c {
        OwnedCall(s, e, h);
      } else {
        OwnedFrame(s, Next(s, e), h, Note(h, e), s.calls[e.c].aio, e.c, c);
      }
    } else if OneAioStep(e) {
      OneAioLocal(s, e);
      if e.Begin? && c == e.c {
        OwnedBegin(s, c, e.a, h);
      } else if e.Take? && c == e.c {
        OwnedTake(s, c, e.a, e.why, h);
      } else {
        OwnedFrame(s, Next(s, e), h, Note(h, e), e.a, CallOf(e), c);
      }
    } else {
      OwnedQuiet(s, e, h, c);
    }
  }

  ghost predicate SameNotes(h: History, g: History, b: nat) {
    && (b in g.timers <==> b in h.timers) && (b in h.timers ==> g.timers[b] == h.timers[b])
    && (b in g.aborted <==> b in h.aborted) && (b in h.aborted ==> g.aborted[b] == h.aborted[b])
    && (b in g.stopped <==> b in h.stopped)
  }

  /** A step that works on another aio. */
  lemma DatedFrame(s: State, t: State, h: History, g: History, b: nat)
    requires b in s.aios && SameView(s, t, b) && Dated(s, h, b)
    requires SameNotes(h, g, b)
    ensures b in t.aios && Dated(t, g, b)
  {
  }

  /** One call alone answers for the operation: the rest of the calls on its aio wait. */
  ghost predicate Alone(s: State, a: nat, c: nat) {
    forall d :: OnAio(s, d, a) && d != c ==> s.calls[d].Waiting?
  }

  lemma DatedArm(s: State, c: nat, deadline: nat, ok: bool, h: History)
    requires Enabled(s, Arm(c, deadline, ok)) && CallsKnown(s) && Alone(s, s.calls[c].aio, c)
    requires Dated(s, h, s.calls[c].aio) && Owned(s, h, c)
    ensures Dated(Next(s, Arm(c, deadline, ok)), Note(h, Arm(c, deadline, ok)), s.calls[c].aio)
  {
    assert OnAio(s, c, s.calls[c].aio);
  }

  lemma DatedSchedule(s: State, c: nat, h: History)
    requires Enabled(s, Schedule(c)) && CallsKnown(s) && Alone(s, s.calls[c].aio, c) && Dated(s, h, s.calls[c].aio)
    ensures Dated(ScheduleStep(s, c), h, s.calls[c].aio)
  {
    assert OnAio(s, c, s.calls[c].aio);
  }

  lemma DatedEnds(s: State, e: Step, h: History)
    requires Enabled(s, e) && CallsKnown(s) && (e.Cancel? || e.Finish? || e.Dispatch?)
    requires Alone(s, s.calls[e.c].aio, e.c) && !s.aios[s.calls[e.c].aio].cancelFn && Dated(s, h, s.calls[e.c].aio)
    ensures Dated(Next(s, e), h, s.calls[e.c].aio)
  {
    hide ListKnown, Without, Has, Warned;
  }

  lemma DatedCall(s: State, e: Step, h: History)
    requires Inv(s) && Enabled(s, e) && CallsKnown(s) && CallStep(e)
    requires Dated(s, h, s.calls[e.c].aio) && Owned(s, h, e.c)
    ensures Dated(Next(s, e), Note(h, e), s.calls[e.c].aio)
  {
    hide Inv, AioInv, Dated, Owned, ListKnown, BeginStep, TakeStep, ScheduleStep, CancelStep, FinishStep, DispatchStep;
    hide ExpireStep, TakeBatchStep;
    AioInvOf(s, s.calls[e.c].aio);
    HeldBy(s, s.calls[e.c].aio, InCall(e.c));
    match e {
      case Arm(c, deadline, ok) => DatedArm(s, c, deadline, ok, h);
      case Schedule(c) => DatedSchedule(s, c, h);
      case Cancel(_) => DatedEnds(s, e, h);
      case Finish(_) => DatedEnds(s, e, h);
      case Dispatch(_) => DatedEnds(s, e, h);
    }
  }

  lemma DatedBegin(s: State, c: nat, a: nat, h: History)
    requires Inv(s) && Enabled(s, Begin(c, a)) && Dated(s, h, a)
    ensures a in BeginStep(s, c, a).aios && Dated(BeginStep(s, c, a), Note(h, Begin(c, a)), a)
  {
    hide Inv, AioInv, ListKnown;
    MayBeginIdle(s, a);
  }

  lemma DatedTaken(s: State, c: nat, a: nat, why: Why, h: History)
    requires Enabled(s, Take(c, a, why)) && Dated(s, h, a) && s.aios[a].cancelFn && Alone(s, a, c)
    ensures a in TakeStep(s, c, a, why).aios && Dated(TakeStep(s, c, a, why), Note(h, Take(c, a, why)), a)
  {
    hide Without, ListKnown, Has, Warned;
  }

  lemma DatedUntaken(s: State, c: nat, a: nat, why: Why, h: History)
    requires Enabled(s, Take(c, a, why)) && Dated(s, h, a) && !s.aios[a].cancelFn
    ensures a in TakeStep(s, c, a, why).aios && Dated(TakeStep(s, c, a, why), Note(h, Take(c, a, why)), a)
  {
    hide Without, ListKnown;
  }

  lemma DatedTake(s: State, c: nat, a: nat, why: Why, h: History)
    requires Inv(s) && Enabled(s, Take(c, a, why)) && Dated(s, h, a)
    ensures a in TakeStep(s, c, a, why).aios && Dated(TakeStep(s, c, a, why), Note(h, Take(c, a, why)), a)
  {
    hide Inv, AioInv, Dated, TakeStep;
    if s.aios[a].cancelFn {
      AioInvOf(s, a);
      HeldBy(s, a, InAio);
      DatedTaken(s, c, a, why, h);
    } else {
      DatedUntaken(s, c, a, why, h);
    }
  }

  lemma DatedOne(s: State, e: Step, h: History)
    requires Inv(s) && Enabled(s, e) && CallsKnown(s) && OneAioStep(e) && Dated(s, h, e.a)
    ensures e.a in Next(s, e).aios && Dated(Next(s, e), Note(h, e), e.a)
  {
    hide Inv, ListKnown, BeginStep, TakeStep, ScheduleStep, CancelStep, FinishStep, DispatchStep, ExpireStep;
    hide TakeBatchStep;
    if e.Begin? {
      DatedBegin(s, e.c, e.a, h);
    } else if e.Take? {
      DatedTake(s, e.c, e.a, e.why, h);
    }
  }

  lemma DatedQuiet(s: State, e: Step, h: History, b: nat)
    requires Enabled(s, e) && CallsKnown(s) && !CallStep(e) && !OneAioStep(e) && b in s.aios && Dated(s, h, b)
    ensures b in Next(s, e).aios && Dated(Next(s, e), Note(h, e), b)
  {
    hide ListKnown, Without, Scan, Deadlines;
  }

  lemma DatedKeeps(s: State, e: Step, h: History, b: nat)
    requires Inv(s) && Enabled(s, e) && CallsKnown(s) && Agrees(s, h) && b in s.aios
    ensures b in Next(s, e).aios && Dated(Next(s, e), Note(h, e), b)
  {
    hide Inv, AioInv, Local, SameView, Next, Enabled, Dated;
    var t := Next(s, e);
    if CallStep(e) {
      CallInCalls(s, e);
      var a := s.calls[e.c].aio;
      CallStepLocal(s, e);
      LocalKeys(s, t, a, e.c);
      assert Owned(s, h, e.c);
      if a == b {
        DatedCall(s, e, h);
      } else {
        LocalFrame(s, t, a, e.c, b);
        NoteFrame(s, e, h, b);
        DatedFrame(s, t, h, Note(h, e), b);
      }
    } else if OneAioStep(e) {
      OneAioLocal(s, e);
      LocalKeys(s, t, e.a, CallOf(e));
      if e.a == b {
        DatedOne(s, e, h);
      } else {
        LocalFrame(s, t, e.a, CallOf(e), b);
        DatedFrame(s, t, h, Note(h, e), b);
      }
    } else {
      DatedQuiet(s, e, h, b);
    }
  }

  lemma CallInCalls(s: State, e: Step)
    requires Enabled(s, e) && CallsKnown(s) && CallStep(e)
    ensures e.c in s.calls && s.calls[e.c].aio in s.aios
  {
  }

  lemma NoteFrame(s: State, e: Step, h: History, b: nat)
    requires Enabled(s, e) && CallsKnown(s) && CallStep(e) && s.calls[e.c].aio != b && Owned(s, h, e.c)
    ensures SameNotes(h, Note(h, e), b)
  {
  }

  lemma StepAgrees(s: State, e: Step, h: History)
    requires Inv(s) && Enabled(s, e) && CallsKnown(s) && Agrees(s, h)
    ensures Agrees(Next(s, e), Note(h, e))
  {
    hide Inv, Next, Enabled, CallsKnown, Dated, Owned, Note;
    var t := Next(s, e);
    forall c ensures Owned(t, Note(h, e), c) {
      assert Owned(s, h, c);
      OwnedKeeps(s, e, h, c);
    }
    KeysStay(s, e);
    forall b | b in t.aios ensures Dated(t, Note(h, e), b) { DatedKeeps(s, e, h, b); }
  }

  lemma KeysStay(s: State, e: Step)
    requires Enabled(s, e) && CallsKnown(s)
    ensures Next(s, e).aios.Keys == s.aios.Keys
  {
    hide Local, Enabled, CallsKnown, Next;
    if CallStep(e) {
      CallInCalls(s, e);
      CallStepLocal(s, e);
      LocalKeys(s, Next(s, e), s.calls[e.c].aio, e.c);
    } else if OneAioStep(e) {
      OneAioLocal(s, e);
      LocalKeys(s, Next(s, e), e.a, CallOf(e));
    } else {
      QuietKeys(s, e);
    }
  }

  lemma QuietKeys(s: State, e: Step)
    requires Enabled(s, e) && CallsKnown(s) && !CallStep(e) && !OneAioStep(e)
    ensures Next(s, e).aios.Keys == s.aios.Keys
  {
    hide ListKnown, Scan, Deadlines;
  }

  lemma {:induction false} RunAgrees(s: State, es: seq<Step>, t: State, h: History)
    requires Inv(s) && Run(s, es, t) && Agrees(s, h)
    ensures Agrees(t, NoteAll(h, es))
    decreases |es|
  {
    hide Inv, Enabled, Next, CallsKnown, Agrees, Note;
    if es != [] {
      StepKeeps(s, es[0]);
      StepAgrees(s, es[0], h);
      RunAgrees(Next(s, es[0]), es[1..], t, Note(h, es[0]));
    }
  }

  lemma RunTold(s: State, es: seq<Step>, t: State)
    requires Init(s) && Run(s, es, t)
    ensures Inv(t) && Agrees(t, Told(es))
  {
    hide Inv, Run, NoteAll;
    InitKeeps(s);
    RunKeeps(s, es, t);
    RunAgrees(s, es, t, Nothing());
  }

  // ---- the deadline ----

  /**
   Over every run: a registered sleep waits for the deadline it was last armed with, and reports what it was armed to.
   Unless that is never, the expire thread has it, or has it listed and means to look again no later than that.
   */
  lemma WaitsForItsDeadline(s: State, es: seq<Step>, t: State, a: nat)
    requires Init(s) && Run(s, es, t) && a in t.aios && t.aios[a].cancelFn
    ensures a in Told(es).timers
    ensures var w := Told(es).timers[a];
            && t.aios[a].expire == w.deadline && t.aios[a].expireOk == w.ok
            && (w.deadline != NEVER ==> Pending(t, a) || (a in t.list && t.next <= w.deadline))
            && (w.deadline != NEVER && !Pending(t, a) && t.asleep ==> t.until <= w.deadline)
  {
    hide Inv, Run, NoteAll, Pending;
    RunTold(s, es, t);
    NeverOversleeps(s, es, t);
    assert Dated(t, Told(es), a);
  }

  /**
   Over every run: with the expire thread awake and idle, a registered sleep whose deadline has passed makes it scan,
   and the scan takes it unless the batch is full; one whose deadline has not passed is not taken.
   */
  lemma TakenWhenOverdue(s: State, es: seq<Step>, t: State, a: nat, now: nat)
    requires Init(s) && Run(s, es, t) && a in t.aios && t.aios[a].cancelFn && !t.asleep && t.batch == []
    ensures a in Told(es).timers
    ensures var d := Told(es).timers[a].deadline;
            && (d < now && d != NEVER ==> Enabled(t, Expire(now)))
            && (Enabled(t, Expire(now)) ==>
                  var u := ExpireStep(t, now);
                  && (d < now && d != NEVER && |u.batch| < BATCH ==> Pending(u, a))
                  && (now <= d ==> !Pending(u, a)))
  {
    hide Inv, AioInv, Run, NoteAll, Scan;
    WaitsForItsDeadline(s, es, t, a);
    InitKeeps(s);
    RunKeeps(s, es, t);
    ExpirerOf(t);
    ScanPartitions(t.list, Deadlines(t), now, BATCH);
    var r := Scan(t.list, Deadlines(t), now, BATCH);
    if a in r.keep && t.aios[a].expire < now { ScanTakesOverdue(t.list, Deadlines(t), now, BATCH, a); }
  }

  // ---- begin and schedule ----

  /** Over every run: an operation begins exactly on an aio never stopped or closed; else it is refused as cancelled. */
  lemma BeginsUnlessStopped(s: State, es: seq<Step>, t: State, c: nat, a: nat)
    requires Init(s) && Run(s, es, t) && Enabled(t, Begin(c, a))
    ensures var u := BeginStep(t, c, a);
            if a in Told(es).stopped then
              && u == t.(aios := u.aios)
              && u.aios[a] == t.aios[a].(result := ECANCELED, abort := false, cancelFn := false,
                                         expire := NEVER, sleep := false, expireOk := false)
            else u.aios[a].begun == t.aios[a].begun + 1 && c in u.calls && u.calls[c] == Begun(a)
  {
    hide Inv, Run, NoteAll;
    RunTold(s, es, t);
    assert Dated(t, Told(es), a);
  }

  /**
   Over every run: scheduling registers the cancel function exactly when the operation was not aborted and the aio not
   stopped or closed; else the caller completes it with the abort code, unless that is zero, or as closed.
   */
  lemma RegistersUnlessStopped(s: State, es: seq<Step>, t: State, c: nat)
    requires Init(s) && Run(s, es, t) && Enabled(t, Schedule(c))
    ensures c in Told(es).owner && Told(es).owner[c] in t.aios && CallsKnown(t)
    ensures var a := Told(es).owner[c];
            var h, u := Told(es), Next(t, Schedule(c));
            && t.calls[c] == Armed(a)
            && (u.aios[a].cancelFn <==> a !in h.aborted && a !in h.stopped)
            && (a in h.aborted && h.aborted[a] != 0 ==>
                  u == t.(calls := t.calls[c := Finishing(a, h.aborted[a], false)]))
            && (a !in h.aborted && a in h.stopped ==> u == t.(calls := t.calls[c := Finishing(a, ECLOSED, false)]))
  {
    hide Inv, AioInv, Run, NoteAll, ListKnown, Without, Scan;
    RunTold(s, es, t);
    ExpirerOf(t);
    assert Owned(t, Told(es), c);
    var a := t.calls[c].aio;
    assert Dated(t, Told(es), a) && OnAio(t, c, a);
    AioInvOf(t, a);
    HeldBy(t, a, InCall(c));
  }

  // ---- the result ----

  /** The three steps of a call that has taken the cancel function. */
  ghost function Completion(c: nat): seq<Step> {
    [Cancel(c), Finish(c), Dispatch(c)]
  }

  /** The call completes the operation, with the code it came with. */
  lemma CancelCompletes(s: State, c: nat)
    requires Inv(s) && c in s.calls && s.calls[c].Cancelling?
    ensures exists t :: Run(s, Completion(c), t) && CompletedWith(s, t, s.calls[c].aio, s.calls[c].rv)
  {
    hide Inv, AioInv, Without, ListKnown;
    var k := s.calls[c];
    ExpirerOf(s);
    AsleepWhileCancelled(s, c);
    var s1 := CancelStep(s, c);
    var s2 := FinishStep(s1, c);
    var s3 := DispatchStep(s2, c);
    ThreeSteps(s, s1, s2, s3, Cancel(c), Finish(c), Dispatch(c));
    assert CompletedWith(s, s3, k.aio, k.rv);
  }

  ghost predicate CompletedWith(s: State, t: State, a: nat, rv: int) {
    && a in s.aios && a in t.aios
    && t.aios[a] == s.aios[a].(result := rv, cancelFn := false, expire := NEVER, sleep := false,
                               finished := s.aios[a].finished + 1, queued := s.aios[a].queued + 1)
    && a !in t.list
  }

  lemma AsleepWhileCancelled(s: State, c: nat)
    requires Inv(s) && c in s.calls && s.calls[c].Cancelling?
    ensures s.calls[c].aio in s.aios && s.aios[s.calls[c].aio].sleep
  {
    hide AioInv;
    AioInvOf(s, s.calls[c].aio);
    AsleepOf(s, s.calls[c].aio, c);
  }

  lemma AsleepOf(s: State, a: nat, c: nat)
    requires a in s.aios && AioInv(s, a) && c in s.calls && s.calls[c].aio == a && s.calls[c].Cancelling?
    ensures s.aios[a].sleep
  {
  }

  lemma ThreeSteps(s0: State, s1: State, s2: State, s3: State, e0: Step, e1: Step, e2: Step)
    requires Enabled(s0, e0) && CallsKnown(s0) && s1 == Next(s0, e0)
    requires Enabled(s1, e1) && CallsKnown(s1) && s2 == Next(s1, e1)
    requires Enabled(s2, e2) && CallsKnown(s2) && s3 == Next(s2, e2)
    ensures Run(s0, [e0, e1, e2], s3)
  {
    hide Enabled, Next, CallsKnown;
    assert Run(s3, [], s3);
    assert [e0, e1, e2][1..] == [e1, e2] && [e1, e2][1..] == [e2] && [e2][1..] == [];
    assert Run(s2, [e2], s3);
    assert Run(s1, [e1, e2], s3);
  }

  /** An abort, stop or close of a registered sleep completes it, with its own code. */
  lemma TakeCompletes(s: State, es: seq<Step>, t: State, c: nat, a: nat, why: Why)
    requires Init(s) && Run(s, es, t) && Enabled(t, Take(c, a, why)) && t.aios[a].cancelFn
    ensures var rv := match why case Abort(rv) => rv case Stop => ECANCELED case Close => ECLOSED;
            var u := TakeStep(t, c, a, why);
            && (exists v :: Run(u, Completion(c), v) && CompletedWith(u, v, a, rv))
            && (why.Abort? || u.aios[a].stop)
  {
    hide Inv, Run, CompletedWith, Without;
    InitKeeps(s);
    RunKeeps(s, es, t);
    ExpirerOf(t);
    StepKeeps(t, Take(c, a, why));
    CancelCompletes(TakeStep(t, c, a, why), c);
  }

  /** The expire thread completes the entry it is at, as a success if it was armed so and else as timed out. */
  lemma TimeoutCompletes(s: State, es: seq<Step>, t: State)
    requires Init(s) && Run(s, es, t) && Enabled(t, TakeBatch) && t.aios[t.batch[0]].cancelFn
    ensures t.batch[0] in Told(es).timers
    ensures var rv := if Told(es).timers[t.batch[0]].ok then 0 else ETIMEDOUT;
            var u := TakeBatchStep(t);
            exists v :: Run(u, Completion(EXPIRER), v) && CompletedWith(u, v, t.batch[0], rv)
  {
    hide Inv, Run, CompletedWith, Without;
    InitKeeps(s);
    RunKeeps(s, es, t);
    ExpirerOf(t);
    WaitsForItsDeadline(s, es, t, t.batch[0]);
    StepKeeps(t, TakeBatch);
    CancelCompletes(TakeBatchStep(t), EXPIRER);
  }

  // ---- callbacks ----

  ghost function Count(es: seq<Step>, e: Step): nat {
    if es == [] then 0 else (if es[0] == e then 1 else 0) + Count(es[1..], e)
  }

  /** What the step `e` does to the callbacks of `a`. */
  ghost predicate Callbacks(x: Aio, y: Aio, e: Step, a: nat) {
    && y.finished - y.queued == x.finished - x.queued + (if e == RunTask(a) then 1 else 0)
    && y.running == x.running + (if e == RunTask(a) then 1 else 0) - (if e == EndTask(a) then 1 else 0)
  }

  lemma CallbacksCall(s: State, e: Step)
    requires Enabled(s, e) && CallsKnown(s) && CallStep(e)
    ensures s.calls[e.c].aio in Next(s, e).aios
    ensures Callbacks(s.aios[s.calls[e.c].aio], Next(s, e).aios[s.calls[e.c].aio], e, s.calls[e.c].aio)
  {
    hide ListKnown, Without, BeginStep, TakeStep, ScheduleStep, ExpireStep, TakeBatchStep;
    if e.Schedule? { CallbacksSchedule(s, e.c); }
  }

  lemma CallbacksSchedule(s: State, c: nat)
    requires Enabled(s, Schedule(c)) && CallsKnown(s)
    ensures s.calls[c].aio in ScheduleStep(s, c).aios
    ensures Callbacks(s.aios[s.calls[c].aio], ScheduleStep(s, c).aios[s.calls[c].aio], Schedule(c), s.calls[c].aio)
  {
  }

  lemma CallbacksTake(s: State, c: nat, a: nat, why: Why)
    requires Enabled(s, Take(c, a, why))
    ensures a in TakeStep(s, c, a, why).aios
    ensures Callbacks(s.aios[a], TakeStep(s, c, a, why).aios[a], Take(c, a, why), a)
  {
    hide Without;
  }

  lemma CallbacksOne(s: State, e: Step)
    requires Enabled(s, e) && CallsKnown(s) && OneAioStep(e)
    ensures e.a in Next(s, e).aios && Callbacks(s.aios[e.a], Next(s, e).aios[e.a], e, e.a)
  {
    hide ListKnown, Without, ScheduleStep, CancelStep, FinishStep, DispatchStep, TakeStep, ExpireStep, TakeBatchStep;
    if e.Take? { CallbacksTake(s, e.c, e.a, e.why); }
  }

  lemma CallbacksQuiet(s: State, e: Step, a: nat)
    requires Enabled(s, e) && CallsKnown(s) && !CallStep(e) && !OneAioStep(e) && a in s.aios
    ensures a in Next(s, e).aios && Callbacks(s.aios[a], Next(s, e).aios[a], e, a)
  {
    hide ListKnown, Scan, Deadlines, ScheduleStep, CancelStep, FinishStep, DispatchStep, TakeStep, BeginStep;
  }

  lemma CallbacksStep(s: State, e: Step, a: nat)
    requires Enabled(s, e) && CallsKnown(s) && a in s.aios
    ensures a in Next(s, e).aios && Callbacks(s.aios[a], Next(s, e).aios[a], e, a)
  {
    hide Local, Enabled, CallsKnown, Next;
    if CallStep(e) {
      CallInCalls(s, e);
      CallStepLocal(s, e);
      if s.calls[e.c].aio == a { CallbacksCall(s, e); } else { LocalOthers(s, Next(s, e), s.calls[e.c].aio, e.c, a); }
    } else if OneAioStep(e) {
      OneAioLocal(s, e);
      if e.a == a { CallbacksOne(s, e); } else { LocalOthers(s, Next(s, e), e.a, CallOf(e), a); }
    } else {
      CallbacksQuiet(s, e, a);
    }
  }

  lemma {:induction false} CallbacksFrom(s: State, es: seq<Step>, t: State, a: nat)
    requires Run(s, es, t) && a in s.aios
    ensures a in t.aios
    ensures t.aios[a].finished - t.aios[a].queued == s.aios[a].finished - s.aios[a].queued + Count(es, RunTask(a))
    ensures t.aios[a].running == s.aios[a].running + Count(es, RunTask(a)) - Count(es, EndTask(a))
    decreases |es|
  {
    hide Enabled, CallsKnown, Next;
    if es != [] {
      CallbacksStep(s, es[0], a);
      CallbacksFrom(Next(s, es[0]), es[1..], t, a);
    }
  }

  /** Over every run: each completion waits for its callback, or its callback has started, and then perhaps ended. */
  lemma CallbacksCounted(s: State, es: seq<Step>, t: State, a: nat)
    requires Init(s) && Run(s, es, t) && a in s.aios
    ensures a in t.aios
    ensures t.aios[a].finished == t.aios[a].queued + Count(es, RunTask(a))
    ensures Count(es, RunTask(a)) == t.aios[a].running + Count(es, EndTask(a))
  {
    hide Run, Count;
    CallbacksFrom(s, es, t, a);
  }
}
