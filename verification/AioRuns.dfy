/** What holds over every run of sleeps, cancellations and expirations (aio.c). */
module AioRuns {
  import opened ExpireQueue
  import opened AioSleep

  /** `es` is a run from `s` to `t`: any interleaving of enabled steps. */
  ghost predicate Run(s: State, es: seq<Step>, t: State)
    decreases |es|
  {
    if es == [] then t == s
    else Enabled(s, es[0]) && CallsKnown(s) && Run(Next(s, es[0]), es[1..], t)
  }

  lemma InitKeeps(s: State)
    requires Init(s)
    ensures Inv(s)
  {
  }

  lemma {:induction false} RunKeeps(s: State, es: seq<Step>, t: State)
    requires Inv(s) && Run(s, es, t)
    ensures Inv(t)
    decreases |es|
  {
    hide Inv, Enabled, Next, CallsKnown;
    if es != [] {
      StepKeeps(s, es[0]);
      RunKeeps(Next(s, es[0]), es[1..], t);
    }
  }

  /**
   A sleep that began is completed at most once, and until then exactly one of the aio, one caller or
   the expire thread answers for its completion.
   */
  lemma ExactlyOneHolder(s: State, es: seq<Step>, t: State, a: nat)
    requires Init(s) && Run(s, es, t) && a in t.aios
    ensures t.aios[a].finished <= t.aios[a].begun <= t.aios[a].finished + t.aios[a].lost + 1
    ensures Open(t, a) ==> exists h :: Holds(t, a, h) && forall g :: Holds(t, a, g) ==> g == h
    ensures !Open(t, a) ==> forall h :: !Holds(t, a, h)
  {
    InitKeeps(s);
    RunKeeps(s, es, t);
    AioInvOf(t, a);
    if Open(t, a) {
      var h :| Holds(t, a, h);
      assert forall g :: Holds(t, a, g) ==> g == h;
    }
  }

  /** The source's assertions and list discipline: no double registration, no stale cancel function. */
  lemma AssertionsHold(s: State, es: seq<Step>, t: State, a: nat)
    requires Init(s) && Run(s, es, t) && a in t.aios
    // nni_aio_begin: the aio is on no expire list
    ensures MayBegin(t, a) ==> a !in t.list && !t.aios[a].cancelFn
    // nni_aio_schedule: no cancel function is set, and the list node is free
    ensures forall c :: Enabled(t, Schedule(c)) && t.calls[c].aio == a ==> !t.aios[a].cancelFn && a !in t.list
    // nni_sleep_cancel: whoever runs it finds the sleep still on
    ensures forall c :: Enabled(t, Cancel(c)) && t.calls[c].aio == a ==> t.aios[a].sleep
  {
    InitKeeps(s);
    RunKeeps(s, es, t);
    AioInvOf(t, a);
    ExpirerOf(t);
    if MayBegin(t, a) { MayBeginIdle(t, a); }
    forall c | Enabled(t, Schedule(c)) && t.calls[c].aio == a ensures !t.aios[a].cancelFn && a !in t.list {
      HeldBy(t, a, InCall(c));
    }
  }

  /** A scheduled sleep is never forgotten, and the expire thread never naps past a deadline. */
  lemma NeverOversleeps(s: State, es: seq<Step>, t: State)
    requires Init(s) && Run(s, es, t)
    ensures forall a :: a in t.aios && t.aios[a].cancelFn && t.aios[a].expire != NEVER ==>
              a in t.list || Pending(t, a)
    ensures forall a :: a in t.list ==> a in t.aios && t.next <= t.aios[a].expire
    ensures t.asleep ==> forall a :: a in t.list ==> t.until <= t.aios[a].expire
  {
    hide Run, Init;
    InitKeeps(s);
    RunKeeps(s, es, t);
  }

  // ---- an abort code of zero ----

  /** Scheduling leaves the operation with nobody to complete it exactly when it was aborted with code zero. */
  lemma ScheduleLosesIff(s: State, c: nat)
    requires Inv(s) && Enabled(s, Schedule(c)) && CallsKnown(s)
    ensures var a := s.calls[c].aio;
            (forall h :: !Holds(Next(s, Schedule(c)), a, h)) <==> (s.aios[a].abort && s.aios[a].result == 0)
  {
    var a := s.calls[c].aio;
    var t := Next(s, Schedule(c));
    AioInvOf(s, a);
    HeldBy(s, a, InCall(c));
    ScheduleAio(s, c);
    if s.aios[a].abort && s.aios[a].result == 0 {
      assert !Open(t, a);
    } else {
      assert Open(t, a);
    }
  }

  ghost predicate ZeroAbort(e: Step) {
    e.Take? && e.why == Abort(0)
  }

  /** The operation on `a` was not lost, and is not about to be. */
  ghost predicate NotLost(s: State, a: nat)
    requires a in s.aios
  {
    && s.aios[a].lost == 0
    && forall c :: OnAio(s, c, a) && (s.calls[c].Begun? || s.calls[c].Armed?) ==>
         !(s.aios[a].abort && s.aios[a].result == 0)
  }

  lemma NotLostFrame(s: State, t: State, b: nat)
    requires b in s.aios && SameView(s, t, b) && NotLost(s, b)
    ensures NotLost(t, b)
  {
  }

  lemma NotLostCall(s: State, e: Step)
    requires Inv(s) && Enabled(s, e) && CallsKnown(s) && CallStep(e) && NotLost(s, s.calls[e.c].aio)
    ensures NotLost(Next(s, e), s.calls[e.c].aio)
  {
    hide Inv, AioInv;
    AioInvOf(s, s.calls[e.c].aio);
    HeldBy(s, s.calls[e.c].aio, InCall(e.c));
  }

  lemma NotLostOne(s: State, e: Step)
    requires Inv(s) && Enabled(s, e) && CallsKnown(s) && OneAioStep(e) && NotLost(s, e.a) && !ZeroAbort(e)
    ensures NotLost(Next(s, e), e.a)
  {
    hide Inv, AioInv, ListKnown, NotLost;
    if e.Begin? {
      NotLostBegin(s, e.c, e.a);
    } else if e.Take? {
      NotLostTake(s, e.c, e.a, e.why);
    } else {
      NotLostTask(s, e);
    }
  }

  lemma NotLostBegin(s: State, c: nat, a: nat)
    requires Inv(s) && Enabled(s, Begin(c, a)) && NotLost(s, a)
    ensures NotLost(BeginStep(s, c, a), a)
  {
    hide Inv, AioInv, ListKnown;
    MayBeginIdle(s, a);
  }

  lemma NotLostTake(s: State, c: nat, a: nat, why: Why)
    requires Enabled(s, Take(c, a, why)) && NotLost(s, a) && why != Abort(0)
    ensures NotLost(TakeStep(s, c, a, why), a)
  {
    hide ListKnown, Without;
  }

  lemma NotLostTask(s: State, e: Step)
    requires Enabled(s, e) && CallsKnown(s) && (e.RunTask? || e.EndTask?) && NotLost(s, e.a)
    ensures NotLost(Next(s, e), e.a)
  {
    hide ListKnown, Without, TakeStep, BeginStep;
  }

  lemma MayBeginIdle(s: State, a: nat)
    requires Inv(s) && MayBegin(s, a)
    ensures a !in s.list && !s.aios[a].cancelFn
    ensures forall c :: c in s.calls && s.calls[c].aio == a ==> s.calls[c].Waiting?
  {
    hide Inv, ExpirerInv;
    AioInvOf(s, a);
    assert forall h :: !Holds(s, a, h);
    NotHeld(s, a);
    assert !Holds(s, a, InAio);
  }

  lemma StepLosesNone(s: State, e: Step, b: nat)
    requires Inv(s) && Enabled(s, e) && CallsKnown(s) && !ZeroAbort(e) && b in s.aios && NotLost(s, b)
    ensures b in Next(s, e).aios && NotLost(Next(s, e), b)
  {
    hide Inv, AioInv, Local, SameView, Scan;
    var t := Next(s, e);
    if CallStep(e) {
      CallStepLocal(s, e);
      LocalKeys(s, t, s.calls[e.c].aio, e.c);
      if s.calls[e.c].aio == b {
        NotLostCall(s, e);
      } else {
        LocalFrame(s, t, s.calls[e.c].aio, e.c, b);
        NotLostFrame(s, t, b);
      }
    } else if OneAioStep(e) {
      OneAioLocal(s, e);
      LocalKeys(s, t, e.a, CallOf(e));
      if e.a == b {
        NotLostOne(s, e);
      } else {
        LocalFrame(s, t, e.a, CallOf(e), b);
        NotLostFrame(s, t, b);
      }
    }
  }

  lemma LocalKeys(s: State, t: State, a: nat, c: nat)
    requires Local(s, t, a, c)
    ensures t.aios.Keys == s.aios.Keys
  {
  }

  /** If no abort carries the code zero, no operation is ever lost. */
  lemma {:induction false} RunLosesNone(s: State, es: seq<Step>, t: State, a: nat)
    requires Inv(s) && Run(s, es, t) && a in s.aios && NotLost(s, a)
    requires forall i :: 0 <= i < |es| ==> !ZeroAbort(es[i])
    ensures a in t.aios && NotLost(t, a)
    decreases |es|
  {
    hide Inv, Enabled, Next, CallsKnown, NotLost, ZeroAbort;
    if es != [] {
      StepKeeps(s, es[0]);
      StepLosesNone(s, es[0], a);
      RunLosesNone(Next(s, es[0]), es[1..], t, a);
    }
  }

  /** In such runs every begun sleep is finished or has its one holder: begun = finished + (1 if held). */
  lemma NothingLost(s: State, es: seq<Step>, t: State, a: nat)
    requires Init(s) && Run(s, es, t) && a in s.aios
    requires forall i :: 0 <= i < |es| ==> !ZeroAbort(es[i])
    ensures a in t.aios
    ensures t.aios[a].begun == t.aios[a].finished + (if exists h :: Holds(t, a, h) then 1 else 0)
  {
    InitKeeps(s);
    RunLosesNone(s, es, t, a);
    RunKeeps(s, es, t);
    AioInvOf(t, a);
  }

  /** One abort with code zero, between begin and schedule, leaves a sleep that nobody will complete. */
  lemma ZeroAbortLoses()
    ensures exists s, es, t ::
              Init(s) && Run(s, es, t) && 7 in t.aios && t.aios[7].begun == 1 && t.aios[7].finished == 0 &&
              t.aios[7].busy == 1 && forall h :: !Holds(t, 7, h)
  {
    var x := Aio(false, false, false, 0, false, NEVER, false, 0, 0, 0, 0, 0, 0);
    var s0 := State(map[7 := x], map[], [], NEVER, [], false, false, 0);
    var es := [Begin(1, 7), Arm(1, 50, true), Take(2, 7, Abort(0)), Schedule(1)];
    var s1 := Next(s0, es[0]);
    var s2 := Next(s1, es[1]);
    var s3 := Next(s2, es[2]);
    var s4 := Next(s3, es[3]);
    FourSteps(s0, s1, s2, s3, s4, es);
  }

  lemma FourSteps(s0: State, s1: State, s2: State, s3: State, s4: State, es: seq<Step>)
    requires |es| == 4 && Enabled(s0, es[0]) && CallsKnown(s0) && s1 == Next(s0, es[0])
    requires Enabled(s1, es[1]) && CallsKnown(s1) && s2 == Next(s1, es[1])
    requires Enabled(s2, es[2]) && CallsKnown(s2) && s3 == Next(s2, es[2])
    requires Enabled(s3, es[3]) && CallsKnown(s3) && s4 == Next(s3, es[3])
    ensures Run(s0, es, s4)
  {
    hide Enabled, Next, CallsKnown;
    assert Run(s4, es[4..], s4);
    assert es[3..][1..] == es[4..] && es[2..][1..] == es[3..] && es[1..][1..] == es[2..];
    assert Run(s3, es[3..], s4);
    assert Run(s2, es[2..], s4);
    assert Run(s1, es[1..], s4);
  }

  // ---- stopping ----

  /** The aio is stopped and its task idle: what nni_aio_stop waits for. */
  ghost predicate Stopped(s: State, a: nat) {
    a in s.aios && s.aios[a].stop && s.aios[a].busy == 0
  }

  lemma StoppedIdle(s: State, a: nat)
    requires Inv(s) && Stopped(s, a)
    ensures s.aios[a].begun == s.aios[a].finished && s.aios[a].queued == 0 && s.aios[a].running == 0
    ensures forall h :: !Holds(s, a, h)
  {
    hide ExpirerInv;
    AioInvOf(s, a);
  }

  lemma StoppedStep(s: State, e: Step, a: nat)
    requires Inv(s) && Stopped(s, a) && Enabled(s, e) && CallsKnown(s)
    ensures Stopped(Next(s, e), a)
    ensures Next(s, e).aios[a].begun == s.aios[a].begun && Next(s, e).aios[a].finished == s.aios[a].finished
  {
    hide Inv, AioInv, Local, Scan, Holds, Next;
    StoppedIdle(s, a);
    if CallStep(e) {
      StoppedCall(s, e, a);
    } else if e.TakeBatch? {
      StoppedBatch(s, a);
    } else {
      StoppedOther(s, e, a);
    }
  }

  lemma StoppedCall(s: State, e: Step, a: nat)
    requires Stopped(s, a) && Enabled(s, e) && CallsKnown(s) && CallStep(e) && !Holds(s, a, InCall(e.c))
    ensures a in Next(s, e).aios && Next(s, e).aios[a] == s.aios[a]
  {
    hide Local, Next;
    CallStepLocal(s, e);
    CallHolds(s, e);
    LocalOthers(s, Next(s, e), s.calls[e.c].aio, e.c, a);
  }

  lemma CallHolds(s: State, e: Step)
    requires Enabled(s, e) && CallsKnown(s) && CallStep(e)
    ensures Holds(s, s.calls[e.c].aio, InCall(e.c))
  {
  }

  lemma StoppedBatch(s: State, a: nat)
    requires Stopped(s, a) && Enabled(s, TakeBatch) && CallsKnown(s) && !Holds(s, a, InAio)
    ensures a in Next(s, TakeBatch).aios && Next(s, TakeBatch).aios[a] == s.aios[a]
  {
  }

  lemma StoppedOther(s: State, e: Step, a: nat)
    requires Stopped(s, a) && s.aios[a].queued == 0 && s.aios[a].running == 0 && !Holds(s, a, InAio)
    requires Enabled(s, e) && CallsKnown(s) && !CallStep(e) && !e.TakeBatch?
    ensures Stopped(Next(s, e), a)
    ensures Next(s, e).aios[a].begun == s.aios[a].begun && Next(s, e).aios[a].finished == s.aios[a].finished
  {
    hide Scan, Without;
  }

  lemma LocalOthers(s: State, t: State, a: nat, c: nat, b: nat)
    requires Local(s, t, a, c) && b in s.aios && b != a
    ensures b in t.aios && t.aios[b] == s.aios[b]
  {
  }

  /** When nni_aio_stop returns, the aio is idle, and it stays idle: no later operation begins or completes. */
  lemma {:induction false} StopIsFinal(s: State, es: seq<Step>, t: State, a: nat)
    requires Inv(s) && Stopped(s, a) && Run(s, es, t)
    ensures Stopped(t, a)
    ensures t.aios[a].begun == s.aios[a].begun && t.aios[a].finished == s.aios[a].finished
    ensures t.aios[a].queued == 0 && t.aios[a].running == 0
    decreases |es|
  {
    hide Inv, Enabled, Next, CallsKnown;
    StoppedIdle(s, a);
    if es != [] {
      StepKeeps(s, es[0]);
      StoppedStep(s, es[0], a);
      StopIsFinal(Next(s, es[0]), es[1..], t, a);
    }
  }

  lemma StopReturns(s: State, c: nat)
    requires Inv(s) && Enabled(s, Waited(c)) && CallsKnown(s)
    ensures Stopped(Next(s, Waited(c)), s.calls[c].aio)
  {
    AioInvOf(s, s.calls[c].aio);
  }
}
