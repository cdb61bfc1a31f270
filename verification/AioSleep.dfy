/**
 Sleeping on an asynchronous operation (aio.c): nni_sleep_aio against nni_aio_abort, nni_aio_stop,
 nni_aio_close, the expire thread and the task threads. Every lock-held region is one atomic step;
 a run is any interleaving of steps of any number of callers.
 */
module AioSleep {
  import opened ExpireQueue

  const ETIMEDOUT := 5
  const ECLOSED := 7
  const ECANCELED := 20

  /** The fields of nni_aio a sleep uses, its task's counters, and three history counters. */
  datatype Aio = Aio(
    cancelFn: bool,  // a_cancel_fn is set (to nni_sleep_cancel)
    stop: bool,
    abort: bool,
    result: int,
    sleep: bool,
    expire: nat,
    expireOk: bool,
    busy: nat,       // task_busy
    queued: nat,     // dispatched, callback not yet started
    running: nat,    // callbacks in progress
    begun: nat,      // successful begins so far
    finished: nat,   // completions dispatched so far
    lost: nat)       // schedules that reported success without registering the cancel function

  /** Where a call in progress stands. Every one but Waiting answers for the completion of `aio`. */
  datatype Call =
    | Begun(aio: nat)                              // nni_sleep_aio, after nni_aio_begin
    | Armed(aio: nat)                              // ... after setting a_sleep and a_expire
    | Cancelling(aio: nat, rv: int, thenWait: bool)  // took the cancel function, has not entered it
    | Finishing(aio: nat, rv: int, thenWait: bool)   // about to enter nni_aio_finish_error
    | Dispatching(aio: nat, thenWait: bool)          // left nni_aio_finish_error, about to dispatch
    | Waiting(aio: nat)                            // nni_aio_stop, in nni_task_wait

  /** Call 0 is the cancel function run by the expire thread itself. */
  const EXPIRER: nat := 0

  datatype State = State(
    aios: map<nat, Aio>,
    calls: map<nat, Call>,
    list: seq<nat>,      // eq_list
    next: nat,           // eq_next
    batch: seq<nat>,     // expires[], from the entry being processed on
    taken: bool,         // the cancel function of batch[0] has been looked at
    asleep: bool,        // the expire thread waits on its condition variable...
    until: nat)          // ... until this time

  datatype Why = Abort(rv: int) | Stop | Close

  datatype Step =
    | Begin(c: nat, a: nat)
    | Arm(c: nat, deadline: nat, ok: bool)
    | Schedule(c: nat)
    | Take(c: nat, a: nat, why: Why)   // the lock-held region of abort, stop and close
    | Cancel(c: nat)                   // the lock-held region of nni_sleep_cancel
    | Finish(c: nat)                   // the lock-held region of nni_aio_finish_impl
    | Dispatch(c: nat)
    | Waited(c: nat)
    | RunTask(a: nat)
    | EndTask(a: nat)
    | Expire(now: nat)                 // the expire thread scans its list
    | Doze(now: nat)                   // the expire thread goes to sleep
    | Wake                             // its condition variable is signalled or times out
    | TakeBatch                        // it takes the cancel function of the next batch entry
    | NextBatch                        // it is done with that entry

  ghost function Deadlines(s: State): map<nat, nat> {
    map a | a in s.aios :: s.aios[a].expire
  }

  /** The listed operations are known ones, so a scan is defined. */
  ghost predicate ListKnown(s: State) {
    forall a :: a in s.list ==> a in s.aios
  }

  /** A caller may start an operation only on an aio whose previous callback has started. */
  ghost predicate MayBegin(s: State, a: nat) {
    a in s.aios && s.aios[a].begun == s.aios[a].finished && s.aios[a].queued == 0
  }

  ghost predicate Enabled(s: State, e: Step) {
    match e
    case Begin(c, a) => c != EXPIRER && c !in s.calls && MayBegin(s, a)
    case Arm(c, deadline, ok) => c in s.calls && s.calls[c].Begun? && deadline <= NEVER
    case Schedule(c) => c in s.calls && s.calls[c].Armed?
    case Take(c, a, why) => c != EXPIRER && c !in s.calls && a in s.aios
    case Cancel(c) => c in s.calls && s.calls[c].Cancelling?
    case Finish(c) => c in s.calls && s.calls[c].Finishing?
    case Dispatch(c) => c in s.calls && s.calls[c].Dispatching?
    case Waited(c) =>
      c in s.calls && s.calls[c].Waiting? && s.calls[c].aio in s.aios && s.aios[s.calls[c].aio].busy == 0
    case RunTask(a) => a in s.aios && s.aios[a].queued > 0
    case EndTask(a) => a in s.aios && s.aios[a].running > 0
    case Expire(now) => !s.asleep && s.batch == [] && now >= s.next && ListKnown(s)
    case Doze(now) => !s.asleep && s.batch == [] && now < s.next
    case Wake => s.asleep
    case TakeBatch => s.batch != [] && !s.taken && s.batch[0] in s.aios
    case NextBatch => s.batch != [] && s.taken && EXPIRER !in s.calls
  }

  /** The call `c` has returned, or goes on to wait for the task. */
  ghost function Leave(s: State, c: nat, thenWait: bool): State
    requires c in s.calls
  {
    s.(calls := if thenWait then s.calls[c := Waiting(s.calls[c].aio)] else s.calls - {c})
  }

  ghost function BeginStep(s: State, c: nat, a: nat): State
    requires a in s.aios
  {
    var x := s.aios[a].(result := 0, cancelFn := false, abort := false);
    if x.stop then
      s.(aios := s.aios[a := x.(result := ECANCELED, expire := NEVER, sleep := false, expireOk := false)])
    else
      s.(aios := s.aios[a := x.(busy := x.busy + 1, begun := x.begun + 1)], calls := s.calls[c := Begun(a)])
  }

  ghost function ScheduleStep(s: State, c: nat): State
    requires c in s.calls && s.calls[c].aio in s.aios
  {
    var a := s.calls[c].aio;
    var x := s.aios[a];
    if x.abort && x.result == 0 then
      // the abort code becomes the return value: zero reads as success
      s.(aios := s.aios[a := x.(lost := x.lost + 1)], calls := s.calls - {c})
    else if x.abort then
      s.(calls := s.calls[c := Finishing(a, x.result, false)])
    else if x.stop then
      s.(calls := s.calls[c := Finishing(a, ECLOSED, false)])
    else
      var t := s.(aios := s.aios[a := x.(cancelFn := true)], calls := s.calls - {c});
      if x.expire == NEVER then t
      else t.(list := s.list + [a], next := Min(s.next, x.expire), asleep := s.asleep && s.next <= x.expire)
  }

  ghost function TakeStep(s: State, c: nat, a: nat, why: Why): State
    requires a in s.aios
  {
    var x := s.aios[a];
    var y := x.(cancelFn := false, stop := x.stop || !why.Abort?);
    var z := if why.Abort? && !x.cancelFn then y.(abort := true, result := why.rv) else y;
    var rv := match why case Abort(rv) => rv case Stop => ECANCELED case Close => ECLOSED;
    var t := s.(aios := s.aios[a := z], list := Without(s.list, a));
    if x.cancelFn then t.(calls := s.calls[c := Cancelling(a, rv, why.Stop?)])
    else if why.Stop? then t.(calls := s.calls[c := Waiting(a)])
    else t
  }

  ghost function CancelStep(s: State, c: nat): State
    requires c in s.calls && s.calls[c].Cancelling? && s.calls[c].aio in s.aios
  {
    var k := s.calls[c];
    if !s.aios[k.aio].sleep then Leave(s, c, k.thenWait)
    else
      s.(aios := s.aios[k.aio := s.aios[k.aio].(sleep := false)],
         list := Without(s.list, k.aio),
         calls := s.calls[c := Finishing(k.aio, k.rv, k.thenWait)])
  }

  ghost function FinishStep(s: State, c: nat): State
    requires c in s.calls && s.calls[c].Finishing? && s.calls[c].aio in s.aios
  {
    var k := s.calls[c];
    s.(aios := s.aios[k.aio := s.aios[k.aio].(result := k.rv, cancelFn := false, expire := NEVER, sleep := false)],
       list := Without(s.list, k.aio),
       calls := s.calls[c := Dispatching(k.aio, k.thenWait)])
  }

  ghost function DispatchStep(s: State, c: nat): State
    requires c in s.calls && s.calls[c].Dispatching? && s.calls[c].aio in s.aios
  {
    var k := s.calls[c];
    var x := s.aios[k.aio];
    Leave(s, c, k.thenWait).(aios := s.aios[k.aio := x.(queued := x.queued + 1, finished := x.finished + 1)])
  }

  ghost function ExpireStep(s: State, now: nat): State
    requires ListKnown(s)
  {
    var r := Scan(s.list, Deadlines(s), now, BATCH);
    s.(list := r.keep, next := r.next, batch := r.batch, taken := false)
  }

  ghost function TakeBatchStep(s: State): State
    requires s.batch != [] && s.batch[0] in s.aios
  {
    var a := s.batch[0];
    var x := s.aios[a];
    if x.cancelFn then
      s.(aios := s.aios[a := x.(cancelFn := false)], taken := true,
         calls := s.calls[EXPIRER := Cancelling(a, if x.expireOk then 0 else ETIMEDOUT, false)])
    else s.(taken := true)
  }

  /** Every call in progress works on a known aio. */
  ghost predicate CallsKnown(s: State) {
    forall c :: c in s.calls ==> s.calls[c].aio in s.aios
  }

  ghost function Next(s: State, e: Step): State
    requires Enabled(s, e) && CallsKnown(s)
  {
    match e
    case Begin(c, a) => BeginStep(s, c, a)
    case Arm(c, deadline, ok) =>
      var a := s.calls[c].aio;
      s.(aios := s.aios[a := s.aios[a].(sleep := true, expire := deadline, expireOk := ok)],
         calls := s.calls[c := Armed(a)])
    case Schedule(c) => ScheduleStep(s, c)
    case Take(c, a, why) => TakeStep(s, c, a, why)
    case Cancel(c) => CancelStep(s, c)
    case Finish(c) => FinishStep(s, c)
    case Dispatch(c) => DispatchStep(s, c)
    case Waited(c) => s.(calls := s.calls - {c})
    case RunTask(a) =>
      var x := s.aios[a];
      s.(aios := s.aios[a := x.(queued := x.queued - 1, running := x.running + 1)])
    case EndTask(a) =>
      var x := s.aios[a];
      s.(aios := s.aios[a := x.(running := x.running - 1, busy := if x.busy > 0 then x.busy - 1 else 0)])
    case Expire(now) => ExpireStep(s, now)
    case Doze(now) => s.(asleep := true, until := s.next)
    case Wake => s.(asleep := false)
    case TakeBatch => TakeBatchStep(s)
    case NextBatch => s.(batch := s.batch[1..], taken := false)
  }

  ghost predicate Init(s: State) {
    && (forall a :: a in s.aios ==>
          s.aios[a] == Aio(false, false, false, 0, false, NEVER, false, 0, 0, 0, 0, 0, 0))
    && s.calls == map[] && s.list == [] && s.batch == [] && s.next == NEVER && !s.asleep
  }

  // ---- the invariant ----

  /** Who answers for the completion of the operation on `a`. */
  datatype Holder = InAio | InCall(c: nat)

  ghost predicate Holds(s: State, a: nat, h: Holder)
    requires a in s.aios
  {
    match h
    case InAio => s.aios[a].cancelFn
    case InCall(c) => c in s.calls && s.calls[c].aio == a && !s.calls[c].Waiting?
  }

  /** An operation on `a` has begun, is not finished and was not lost. */
  ghost predicate Open(s: State, a: nat)
    requires a in s.aios
  {
    s.aios[a].begun > s.aios[a].finished + s.aios[a].lost
  }

  /** `a` waits in the expire thread's batch for its cancel function to be taken. */
  ghost predicate Pending(s: State, a: nat) {
    if s.taken && s.batch != [] then a in s.batch[1..] else a in s.batch
  }

  /** The expire thread holds the cancel function it took from `a`, and has not entered it yet. */
  ghost predicate ExpirerHolds(s: State, a: nat) {
    EXPIRER in s.calls && s.calls[EXPIRER].Cancelling? && s.calls[EXPIRER].aio == a
  }

  ghost predicate Ownership(s: State, a: nat)
    requires a in s.aios
  {
    && s.aios[a].finished + s.aios[a].lost <= s.aios[a].begun <= s.aios[a].finished + s.aios[a].lost + 1
    && (Open(s, a) ==> exists h :: Holds(s, a, h))
    && (forall h :: Holds(s, a, h) ==> Open(s, a))
    && (forall h, h' :: Holds(s, a, h) && Holds(s, a, h') ==> h == h')
  }

  /** Whoever holds the cancel function of `a` finds a_sleep still set. */
  ghost predicate StillAsleep(s: State, a: nat)
    requires a in s.aios
  {
    && (s.aios[a].cancelFn ==> s.aios[a].sleep)
    && (forall c :: c in s.calls && s.calls[c].aio == a && (s.calls[c].Cancelling? || s.calls[c].Armed?) ==>
          s.aios[a].sleep)
  }

  /** A scheduled operation is on the expire list or in the batch; a listed one is scheduled. */
  ghost predicate Timed(s: State, a: nat)
    requires a in s.aios
  {
    && (a in s.list ==> (s.aios[a].cancelFn || ExpirerHolds(s, a)) && s.next <= s.aios[a].expire)
    && (s.aios[a].cancelFn && s.aios[a].expire != NEVER ==> a in s.list || Pending(s, a))
  }

  /** The call is an nni_aio_stop. */
  ghost predicate Stopping(k: Call) {
    k.Waiting? || (!k.Begun? && !k.Armed? && k.thenWait)
  }

  ghost predicate TaskCounts(s: State, a: nat)
    requires a in s.aios
  {
    var x := s.aios[a];
    && x.busy == (x.begun - x.finished) + x.queued + x.running
    && (forall c :: c in s.calls && s.calls[c].aio == a && Stopping(s.calls[c]) ==> x.stop)
  }

  ghost predicate AioInv(s: State, a: nat)
    requires a in s.aios
  {
    Ownership(s, a) && StillAsleep(s, a) && Timed(s, a) && TaskCounts(s, a)
  }

  /** The expire thread: what it holds is known, and a nap never outlasts eq_next. */
  ghost predicate ExpirerInv(s: State) {
    && CallsKnown(s) && ListKnown(s)
    && (forall a :: a in s.batch ==> a in s.aios)
    && (EXPIRER in s.calls ==> s.taken && s.batch != [] && s.calls[EXPIRER].aio == s.batch[0])
    && (s.asleep ==> s.until == s.next)
  }

  ghost predicate Inv(s: State) {
    ExpirerInv(s) && forall a :: a in s.aios ==> AioInv(s, a)
  }

  // ---- steps leave other operations alone ----

  ghost predicate OnAio(s: State, c: nat, a: nat) {
    c in s.calls && s.calls[c].aio == a
  }

  /** Nothing the invariant says about `b` can tell `t` from `s`. */
  ghost predicate SameView(s: State, t: State, b: nat)
    requires b in s.aios
  {
    && b in t.aios && t.aios[b] == s.aios[b]
    && (forall c :: OnAio(t, c, b) <==> OnAio(s, c, b))
    && (forall c :: OnAio(s, c, b) ==> t.calls[c] == s.calls[c])
    && (b in t.list <==> b in s.list)
    && (b in t.list ==> t.next <= s.aios[b].expire)
    && (Pending(s, b) && b !in s.list ==> Pending(t, b))
  }

  lemma Frame(s: State, t: State, b: nat)
    requires b in s.aios && AioInv(s, b) && SameView(s, t, b)
    ensures AioInv(t, b)
  {
    forall h ensures Holds(t, b, h) <==> Holds(s, b, h) {
      match h
      case InAio =>
      case InCall(c) => assert OnAio(t, c, b) <==> OnAio(s, c, b);
    }
    assert ExpirerHolds(t, b) <==> ExpirerHolds(s, b) by {
      assert OnAio(t, EXPIRER, b) <==> OnAio(s, EXPIRER, b);
    }
    assert forall c :: OnAio(t, c, b) ==> t.calls[c] == s.calls[c];
    FrameRest(s, t, b);
  }

  lemma FrameRest(s: State, t: State, b: nat)
    requires b in s.aios && AioInv(s, b) && SameView(s, t, b)
    requires ExpirerHolds(t, b) <==> ExpirerHolds(s, b)
    ensures StillAsleep(t, b) && TaskCounts(t, b) && Timed(t, b)
  {
    forall c | c in t.calls && t.calls[c].aio == b ensures c in s.calls && t.calls[c] == s.calls[c] {
      assert OnAio(t, c, b);
    }
  }

  // ---- the operation a step works on ----

  lemma OwnedBy(t: State, a: nat, h: Holder)
    requires a in t.aios && forall g :: Holds(t, a, g) <==> g == h
    requires t.aios[a].begun == t.aios[a].finished + t.aios[a].lost + 1
    ensures Ownership(t, a)
  {
    assert Holds(t, a, h);
  }

  /** Without a holder the operation is off the list, and only waiters refer to it. */
  lemma NotHeld(s: State, a: nat)
    requires a in s.aios && AioInv(s, a) && forall h :: !Holds(s, a, h)
    ensures a !in s.list
    ensures forall c :: c in s.calls && s.calls[c].aio == a ==> s.calls[c].Waiting?
  {
    forall c | c in s.calls && s.calls[c].aio == a ensures s.calls[c].Waiting? {
      assert !Holds(s, a, InCall(c));
    }
    assert !Holds(s, a, InAio) && !Holds(s, a, InCall(EXPIRER));
  }

  lemma BeginAio(s: State, c: nat, a: nat)
    requires Inv(s) && Enabled(s, Begin(c, a))
    ensures AioInv(BeginStep(s, c, a), a)
  {
    hide Inv, ExpirerInv;
    AioInvOf(s, a);
    var t := BeginStep(s, c, a);
    assert !Open(s, a);
    assert forall h :: !Holds(s, a, h);
    NotHeld(s, a);
    if s.aios[a].stop {
      forall g ensures !Holds(t, a, g) { assert !Holds(s, a, g); }
    } else {
      forall g ensures Holds(t, a, g) <==> g == InCall(c) { assert !Holds(s, a, g); }
      OwnedBy(t, a, InCall(c));
    }
  }

  lemma AioInvOf(s: State, a: nat)
    requires Inv(s) && a in s.aios
    ensures AioInv(s, a)
  {
  }

  /** With the holder known, the aio has no cancel function unless it is the holder, and no other call is active. */
  lemma HeldBy(s: State, a: nat, h: Holder)
    requires a in s.aios && AioInv(s, a) && Holds(s, a, h)
    ensures Open(s, a) && forall g :: Holds(s, a, g) <==> g == h
    ensures h != InAio ==> !s.aios[a].cancelFn
    ensures forall c :: c in s.calls && s.calls[c].aio == a && InCall(c) != h ==> s.calls[c].Waiting?
    ensures h != InAio && h != InCall(EXPIRER) ==> a !in s.list
  {
    forall c | c in s.calls && s.calls[c].aio == a && InCall(c) != h ensures s.calls[c].Waiting? {
      assert !Holds(s, a, InCall(c));
    }
    assert h != InAio ==> !Holds(s, a, InAio);
    assert h != InCall(EXPIRER) ==> !Holds(s, a, InCall(EXPIRER));
  }

  lemma ArmAio(s: State, c: nat, deadline: nat, ok: bool)
    requires Inv(s) && Enabled(s, Arm(c, deadline, ok)) && CallsKnown(s)
    ensures AioInv(Next(s, Arm(c, deadline, ok)), s.calls[c].aio)
  {
    hide Inv, ExpirerInv;
    var a := s.calls[c].aio;
    AioInvOf(s, a);
    ExpirerOf(s);
    HeldBy(s, a, InCall(c));
    var t := Next(s, Arm(c, deadline, ok));
    forall g ensures Holds(t, a, g) <==> g == InCall(c) { assert Holds(s, a, g) <==> g == InCall(c); }
    OwnedBy(t, a, InCall(c));
  }

  lemma ScheduleAio(s: State, c: nat)
    requires Inv(s) && Enabled(s, Schedule(c)) && CallsKnown(s)
    ensures AioInv(ScheduleStep(s, c), s.calls[c].aio)
  {
    hide Inv, ExpirerInv;
    var a := s.calls[c].aio;
    AioInvOf(s, a);
    ExpirerOf(s);
    HeldBy(s, a, InCall(c));
    var t := ScheduleStep(s, c);
    var x := s.aios[a];
    if x.abort && x.result == 0 {
      forall g ensures !Holds(t, a, g) { assert Holds(s, a, g) <==> g == InCall(c); }
    } else {
      var h := if x.abort || x.stop then InCall(c) else InAio;
      forall g ensures Holds(t, a, g) <==> g == h { assert Holds(s, a, g) <==> g == InCall(c); }
      OwnedBy(t, a, h);
    }
  }

  lemma TakeAio(s: State, c: nat, a: nat, why: Why)
    requires Inv(s) && Enabled(s, Take(c, a, why))
    ensures AioInv(TakeStep(s, c, a, why), a)
  {
    hide Inv, ExpirerInv;
    AioInvOf(s, a);
    var t := TakeStep(s, c, a, why);
    if s.aios[a].cancelFn {
      assert Holds(s, a, InAio);
      HeldBy(s, a, InAio);
      forall g ensures Holds(t, a, g) <==> g == InCall(c) { assert Holds(s, a, g) <==> g == InAio; }
      OwnedBy(t, a, InCall(c));
    } else {
      forall g ensures Holds(t, a, g) <==> Holds(s, a, g) {}
    }
  }

  lemma CancelAio(s: State, c: nat)
    requires Inv(s) && Enabled(s, Cancel(c)) && CallsKnown(s)
    ensures AioInv(CancelStep(s, c), s.calls[c].aio)
  {
    hide Inv, ExpirerInv;
    var a := s.calls[c].aio;
    AioInvOf(s, a);
    HeldBy(s, a, InCall(c));
    var t := CancelStep(s, c);
    forall g ensures Holds(t, a, g) <==> g == InCall(c) { assert Holds(s, a, g) <==> g == InCall(c); }
    OwnedBy(t, a, InCall(c));
  }

  lemma FinishAio(s: State, c: nat)
    requires Inv(s) && Enabled(s, Finish(c)) && CallsKnown(s)
    ensures AioInv(FinishStep(s, c), s.calls[c].aio)
  {
    hide Inv, ExpirerInv;
    var a := s.calls[c].aio;
    AioInvOf(s, a);
    HeldBy(s, a, InCall(c));
    var t := FinishStep(s, c);
    forall g ensures Holds(t, a, g) <==> g == InCall(c) { assert Holds(s, a, g) <==> g == InCall(c); }
    OwnedBy(t, a, InCall(c));
  }

  lemma DispatchAio(s: State, c: nat)
    requires Inv(s) && Enabled(s, Dispatch(c)) && CallsKnown(s)
    ensures AioInv(DispatchStep(s, c), s.calls[c].aio)
  {
    hide Inv, ExpirerInv;
    var a := s.calls[c].aio;
    AioInvOf(s, a);
    HeldBy(s, a, InCall(c));
    var t := DispatchStep(s, c);
    forall g ensures !Holds(t, a, g) { assert Holds(s, a, g) <==> g == InCall(c); }
  }

  lemma TakeBatchAio(s: State)
    requires Inv(s) && Enabled(s, TakeBatch)
    ensures AioInv(TakeBatchStep(s), s.batch[0])
  {
    hide Inv, ExpirerInv;
    var a := s.batch[0];
    AioInvOf(s, a);
    ExpirerOf(s);
    var t := TakeBatchStep(s);
    if s.aios[a].cancelFn {
      assert Holds(s, a, InAio);
      HeldBy(s, a, InAio);
      forall g ensures Holds(t, a, g) <==> g == InCall(EXPIRER) { assert Holds(s, a, g) <==> g == InAio; }
      OwnedBy(t, a, InCall(EXPIRER));
    } else {
      forall g ensures Holds(t, a, g) <==> Holds(s, a, g) {}
    }
  }

  lemma ExpirerOf(s: State)
    requires Inv(s)
    ensures CallsKnown(s) && ListKnown(s)
    ensures EXPIRER in s.calls ==> s.taken && s.batch != [] && s.calls[EXPIRER].aio == s.batch[0]
  {
  }

  lemma TaskAio(s: State, e: Step)
    requires Inv(s) && (e.RunTask? || e.EndTask?) && Enabled(s, e) && CallsKnown(s)
    ensures AioInv(Next(s, e), e.a)
  {
    hide Inv, ExpirerInv;
    AioInvOf(s, e.a);
    var t := Next(s, e);
    forall g ensures Holds(t, e.a, g) <==> Holds(s, e.a, g) {}
  }

  lemma ExpireAio(s: State, now: nat, b: nat)
    requires Inv(s) && Enabled(s, Expire(now)) && b in s.aios
    ensures AioInv(ExpireStep(s, now), b)
  {
    hide Inv, ExpirerInv, Scan;
    AioInvOf(s, b);
    ExpirerOf(s);
    ScanPartitions(s.list, Deadlines(s), now, BATCH);
    var t := ExpireStep(s, now);
    forall g ensures Holds(t, b, g) <==> Holds(s, b, g) {}
  }

  // ---- every step keeps the invariant ----

  lemma Touches(s: State, t: State, a: nat)
    requires Inv(s) && ExpirerInv(t) && t.aios.Keys == s.aios.Keys
    requires a in s.aios && AioInv(t, a)
    requires forall b :: b in s.aios && b != a ==> SameView(s, t, b)
    ensures Inv(t)
  {
    hide ExpirerInv, SameView, AioInv;
    forall b | b in t.aios ensures AioInv(t, b) {
      if b != a { Frame(s, t, b); }
    }
  }

  lemma TouchesNone(s: State, t: State)
    requires Inv(s) && ExpirerInv(t) && t.aios == s.aios
    requires forall b :: b in s.aios ==> SameView(s, t, b)
    ensures Inv(t)
  {
    hide ExpirerInv, SameView, AioInv;
    forall b | b in t.aios ensures AioInv(t, b) { Frame(s, t, b); }
  }

  ghost predicate CallLocal(s: State, t: State, a: nat, c: nat) {
    && (forall d :: d != c ==> (d in t.calls <==> d in s.calls))
    && (forall d :: d != c && d in s.calls ==> t.calls[d] == s.calls[d])
    && (c in s.calls ==> s.calls[c].aio == a)
    && (c in t.calls ==> t.calls[c].aio == a && (c == EXPIRER ==> c in s.calls))
  }

  /** The step from `s` to `t` works on the operation `a` alone, in the call `c`. */
  ghost predicate Local(s: State, t: State, a: nat, c: nat) {
    && a in s.aios && t.aios.Keys == s.aios.Keys
    && (forall b :: b in s.aios && b != a ==> t.aios[b] == s.aios[b])
    && (t.calls == s.calls || CallLocal(s, t, a, c))
    && (forall b :: b != a ==> (b in t.list <==> b in s.list))
    && t.batch == s.batch && t.taken == s.taken && t.next <= s.next
    && (t.asleep ==> s.asleep && t.until == s.until && t.next == s.next)
  }

  lemma LocalFrame(s: State, t: State, a: nat, c: nat, b: nat)
    requires Inv(s) && Local(s, t, a, c) && b in s.aios && b != a
    ensures SameView(s, t, b)
  {
    hide Inv, AioInv;
    CoveredOf(s, b);
  }

  lemma LocalExpirer(s: State, t: State, a: nat, c: nat)
    requires Inv(s) && Local(s, t, a, c)
    ensures ExpirerInv(t)
  {
    hide AioInv;
  }

  /** A local step that keeps the invariant of its own operation keeps the whole invariant. */
  lemma LocalKeeps(s: State, t: State, a: nat, c: nat)
    requires Inv(s) && Local(s, t, a, c) && a in t.aios && AioInv(t, a)
    ensures Inv(t)
  {
    hide AioInv, SameView, ExpirerInv;
    forall b | b in s.aios && b != a ensures SameView(s, t, b) { LocalFrame(s, t, a, c, b); }
    LocalExpirer(s, t, a, c);
    Touches(s, t, a);
  }

  /** eq_next covers a listed operation. */
  lemma CoveredOf(s: State, b: nat)
    requires Inv(s) && b in s.aios
    ensures b in s.list ==> s.next <= s.aios[b].expire
  {
    AioInvOf(s, b);
  }

  ghost predicate CallStep(e: Step) {
    e.Arm? || e.Schedule? || e.Cancel? || e.Finish? || e.Dispatch?
  }

  /** Changing the operation, its own call and its list node is local. */
  lemma ChangeIsLocal(s: State, t: State, a: nat, c: nat)
    requires c in s.calls && s.calls[c].aio == a && a in s.aios && a in t.aios
    requires t.aios == s.aios[a := t.aios[a]]
    requires t.calls == s.calls - {c} || (c in t.calls && t.calls == s.calls[c := t.calls[c]] && t.calls[c].aio == a)
    requires t.list == s.list || t.list == Without(s.list, a)
    requires t.batch == s.batch && t.taken == s.taken && t.next == s.next
    requires t.asleep == s.asleep && t.until == s.until
    ensures Local(s, t, a, c)
  {
  }

  lemma CallStepLocal(s: State, e: Step)
    requires Enabled(s, e) && CallsKnown(s) && CallStep(e)
    ensures Local(s, Next(s, e), s.calls[e.c].aio, e.c)
  {
    hide ScheduleStep, Without, ListKnown, Local;
    if e.Schedule? {
      ScheduleLocal(s, e.c);
    } else {
      ChangeIsLocal(s, Next(s, e), s.calls[e.c].aio, e.c);
    }
  }

  lemma ScheduleLocal(s: State, c: nat)
    requires c in s.calls && s.calls[c].aio in s.aios
    ensures Local(s, ScheduleStep(s, c), s.calls[c].aio, c)
  {
    var a, t := s.calls[c].aio, ScheduleStep(s, c);
    if t.list == s.list + [a] && t.next == Min(s.next, s.aios[a].expire) {
      AddIsLocal(s, t, a, c);
    } else {
      ChangeIsLocal(s, t, a, c);
    }
  }

  /** So is registering it with the expire thread. */
  lemma AddIsLocal(s: State, t: State, a: nat, c: nat)
    requires c in s.calls && s.calls[c].aio == a && a in s.aios && a in t.aios
    requires t.aios == s.aios[a := t.aios[a]] && t.calls == s.calls - {c} && t.list == s.list + [a]
    requires t.batch == s.batch && t.taken == s.taken && t.next <= s.next
    requires t.asleep ==> s.asleep && t.until == s.until && t.next == s.next
    ensures Local(s, t, a, c)
  {
  }

  lemma CallStepKeeps(s: State, e: Step)
    requires Inv(s) && Enabled(s, e) && CallsKnown(s) && CallStep(e)
    ensures Inv(Next(s, e))
  {
    hide AioInv, Local, ExpirerInv;
    match e {
      case Arm(c, deadline, ok) => ArmAio(s, c, deadline, ok);
      case Schedule(c) => ScheduleAio(s, c);
      case Cancel(c) => CancelAio(s, c);
      case Finish(c) => FinishAio(s, c);
      case Dispatch(c) => DispatchAio(s, c);
    }
    CallStepLocal(s, e);
    LocalKeeps(s, Next(s, e), s.calls[e.c].aio, e.c);
  }

  /** The other steps that work on one operation. */
  ghost predicate OneAioStep(e: Step) {
    e.Begin? || e.Take? || e.RunTask? || e.EndTask?
  }

  /** The call a step runs in; a task thread is none of the modelled calls. */
  ghost function CallOf(e: Step): nat
    requires OneAioStep(e)
  {
    if e.Begin? || e.Take? then e.c else EXPIRER
  }

  lemma OneAioLocal(s: State, e: Step)
    requires Enabled(s, e) && CallsKnown(s) && OneAioStep(e)
    ensures Local(s, Next(s, e), e.a, CallOf(e))
  {
    hide TakeStep, BeginStep, Without, ListKnown, Local;
    if e.Begin? {
      BeginLocal(s, e.c, e.a);
    } else if e.Take? {
      TakeLocal(s, e.c, e.a, e.why);
    } else {
      TaskLocal(s, Next(s, e), e.a);
    }
  }

  lemma BeginLocal(s: State, c: nat, a: nat)
    requires c != EXPIRER && c !in s.calls && a in s.aios
    ensures Local(s, BeginStep(s, c, a), a, c)
  {
  }

  lemma TaskLocal(s: State, t: State, a: nat)
    requires a in s.aios && a in t.aios && t == s.(aios := s.aios[a := t.aios[a]])
    ensures Local(s, t, a, EXPIRER)
  {
  }

  lemma TakeLocal(s: State, c: nat, a: nat, why: Why)
    requires c != EXPIRER && c !in s.calls && a in s.aios
    ensures Local(s, TakeStep(s, c, a, why), a, c)
  {
  }

  lemma OneAioKeeps(s: State, e: Step)
    requires Inv(s) && Enabled(s, e) && CallsKnown(s) && OneAioStep(e)
    ensures Inv(Next(s, e))
  {
    hide AioInv, ExpirerInv, Local;
    match e {
      case Begin(c, a) => BeginAio(s, c, a);
      case Take(c, a, why) => TakeAio(s, c, a, why);
      case RunTask(a) => TaskAio(s, e);
      case EndTask(a) => TaskAio(s, e);
    }
    OneAioLocal(s, e);
    LocalKeeps(s, Next(s, e), e.a, CallOf(e));
  }

  lemma ExpireKeeps(s: State, now: nat)
    requires Inv(s) && Enabled(s, Expire(now))
    ensures Inv(ExpireStep(s, now))
  {
    var t := ExpireStep(s, now);
    ScanPartitions(s.list, Deadlines(s), now, BATCH);
    forall b | b in t.aios ensures AioInv(t, b) { ExpireAio(s, now, b); }
  }

  lemma TakeBatchKeeps(s: State)
    requires Inv(s) && Enabled(s, TakeBatch)
    ensures Inv(TakeBatchStep(s))
  {
    hide AioInv, SameView;
    TakeBatchAio(s);
    forall b | b in s.aios && b != s.batch[0] ensures SameView(s, TakeBatchStep(s), b) { TakeBatchFrame(s, b); }
    Touches(s, TakeBatchStep(s), s.batch[0]);
  }

  lemma TakeBatchFrame(s: State, b: nat)
    requires Inv(s) && Enabled(s, TakeBatch) && b in s.aios && b != s.batch[0]
    ensures SameView(s, TakeBatchStep(s), b)
  {
    hide Inv, AioInv;
    ExpirerOf(s);
    CoveredOf(s, b);
  }

  lemma WaitedKeeps(s: State, c: nat)
    requires Inv(s) && Enabled(s, Waited(c)) && CallsKnown(s)
    ensures Inv(Next(s, Waited(c)))
  {
    hide AioInv;
    var t := Next(s, Waited(c));
    WaitedAio(s, c);
    forall b | b in s.aios && b != s.calls[c].aio ensures SameView(s, t, b) { CoveredOf(s, b); }
    Touches(s, t, s.calls[c].aio);
  }

  lemma QuietKeeps(s: State, e: Step)
    requires Inv(s) && Enabled(s, e) && CallsKnown(s) && (e.Doze? || e.Wake? || e.NextBatch?)
    ensures Inv(Next(s, e))
  {
    hide AioInv;
    var t := Next(s, e);
    forall b | b in s.aios ensures SameView(s, t, b) { CoveredOf(s, b); }
    TouchesNone(s, t);
  }

  lemma WaitedAio(s: State, c: nat)
    requires Inv(s) && Enabled(s, Waited(c)) && CallsKnown(s)
    ensures AioInv(Next(s, Waited(c)), s.calls[c].aio)
  {
    hide Inv, ExpirerInv;
    var a := s.calls[c].aio;
    AioInvOf(s, a);
    ExpirerOf(s);
    var t := Next(s, Waited(c));
    forall g ensures Holds(t, a, g) <==> Holds(s, a, g) {}
  }

  lemma StepKeeps(s: State, e: Step)
    requires Inv(s) && Enabled(s, e) && CallsKnown(s)
    ensures Inv(Next(s, e))
  {
    hide AioInv, ExpirerInv;
    match e {
      case Expire(now) => ExpireKeeps(s, now);
      case TakeBatch => TakeBatchKeeps(s);
      case Waited(c) => WaitedKeeps(s, c);
      case Doze(_) => QuietKeeps(s, e);
      case Wake => QuietKeeps(s, e);
      case NextBatch => QuietKeeps(s, e);
      case Begin(_, _) => OneAioKeeps(s, e);
      case Take(_, _, _) => OneAioKeeps(s, e);
      case RunTask(_) => OneAioKeeps(s, e);
      case EndTask(_) => OneAioKeeps(s, e);
      case _ => CallStepKeeps(s, e);
    }
  }
}
