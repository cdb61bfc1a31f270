/**
 The two pollables of a message queue (msgqueue.c). nni_msgq_run_notify sets them to what the queue can do;
 nni_msgq_close and nni_msgq_resize change the queue and do not call it.
 */
module MsgqNotify {
  import opened Wrappers
  import opened MsgqSpec
  import opened MsgqRuns

  /** Whether mq_sendable and mq_recvable are raised. */
  datatype Flags = Flags(send: bool, recv: bool)

  /** What the queue can do: take a message at once, give one at once. */
  ghost function Levels(q: Queue): Flags {
    Flags(|q.ring| < q.cap || q.getq != [], q.ring != [] || q.putq != [])
  }

  /** An operation, or a request for one of the pollables. */
  datatype Act = Do(e: Event) | Poll

  ghost function Apply(s: State, a: Act): State {
    if a.Do? then Step(s, a.e) else s
  }

  /** The act ends with nni_msgq_run_notify. */
  ghost predicate Notifies(q: Queue, a: Act) {
    match a
    case Poll => true
    case Do(Put(refused)) => !(refused.Some? && |q.ring| >= q.cap && q.getq == [])
    case Do(Get(refused)) => !(refused.Some? && q.ring == [] && q.putq == [])
    case Do(TryPutMsg) => !q.closed && (q.getq != [] || |q.ring| < q.cap)
    case Do(CancelOp(_, _)) => true
    case Do(CloseQueue) => false
    case Do(SetCap(_, _)) => false
  }

  ghost function Signal(s: State, f: Flags, a: Act): Flags {
    if Notifies(s.q, a) then Levels(Apply(s, a).q) else f
  }

  ghost function RunAll(s: State, acts: seq<Act>): State
    decreases |acts|
  {
    if acts == [] then s else RunAll(Apply(s, acts[0]), acts[1..])
  }

  ghost function Signals(s: State, f: Flags, acts: seq<Act>): Flags
    decreases |acts|
  {
    if acts == [] then f else Signals(Apply(s, acts[0]), Signal(s, f, acts[0]), acts[1..])
  }

  // ---- what changes unannounced ----

  /** A resize takes effect. */
  ghost predicate Resizes(s: State, a: Act) {
    a.Do? && a.e.SetCap? && (a.e.cap + 2 <= s.alloc || a.e.allocOk)
  }

  /** A close makes room, or takes the last readers away; a resize makes room or takes it, while no reader waits. */
  ghost predicate TurnsSend(s: State, a: Act) {
    || (a == Do(CloseQueue) && Levels(s.q).send != (s.q.cap > 0))
    || (Resizes(s, a) && s.q.getq == [] && (|s.q.ring| < s.q.cap) != (|s.q.ring| < a.e.cap))
  }

  /** A close empties the queue; a resize always leaves a message where there was one. */
  ghost predicate TurnsRecv(s: State, a: Act) {
    a == Do(CloseQueue) && Levels(s.q).recv
  }

  /** Which flags are behind the queue after a run: turned an odd number of times since the last notification. */
  ghost function Behind(s: State, acts: seq<Act>, was: Flags): Flags
    decreases |acts|
  {
    if acts == [] then was
    else Behind(Apply(s, acts[0]), acts[1..], BehindAfter(s, acts[0], was))
  }

  ghost function BehindAfter(s: State, a: Act, was: Flags): Flags {
    if Notifies(s.q, a) then Flags(false, false)
    else Flags(was.send != TurnsSend(s, a), was.recv != TurnsRecv(s, a))
  }

  lemma {:induction false} CloseReadersLists(q: Queue)
    ensures CloseReaders(q).getq == [] && CloseReaders(q).putq == q.putq
    ensures CloseReaders(q).ring == q.ring && CloseReaders(q).cap == q.cap
    decreases |q.getq|
  {
    if q.getq != [] { CloseReadersLists(Fail(q, q.getq[0], ECLOSED).(getq := q.getq[1..])); }
  }

  lemma {:induction false} CloseWritersLists(q: Queue)
    ensures CloseWriters(q).putq == [] && CloseWriters(q).getq == q.getq
    ensures CloseWriters(q).ring == q.ring && CloseWriters(q).cap == q.cap
    decreases |q.putq|
  {
    if q.putq != [] {
      CloseWritersLists(Fail(q, q.putq[0].op, ECLOSED).(putq := q.putq[1..], returned := q.returned + [q.putq[0].msg]));
    }
  }

  lemma ClosedLevels(q: Queue)
    ensures Levels(Close(q)) == Flags(q.cap > 0, false)
  {
    hide CloseReaders, CloseWriters;
    var p := q.(closed := true, ring := [], freed := q.freed + q.ring);
    CloseReadersLists(p);
    CloseWritersLists(CloseReaders(p));
  }

  lemma ResizedLevels(q: Queue, cap: nat)
    ensures Levels(Resize(q, cap)) == Flags(|q.ring| < cap || q.getq != [], Levels(q).recv)
  {
  }

  /** An act that does not notify turns exactly these. */
  lemma SilentTurns(s: State, a: Act)
    requires !Notifies(s.q, a)
    ensures var before, after := Levels(s.q), Levels(Apply(s, a).q);
            (after.send != before.send <==> TurnsSend(s, a)) && (after.recv != before.recv <==> TurnsRecv(s, a))
  {
    hide Close, Resize, RunPutq, RunGetq, Cancel;
    if a == Do(CloseQueue) {
      ClosedLevels(s.q);
    } else if a.Do? && a.e.SetCap? {
      ResizedLevels(s.q, a.e.cap);
    }
  }

  /** The flags differ from the queue exactly where they are behind. */
  ghost predicate Tracks(s: State, f: Flags, behind: Flags) {
    (f.send != Levels(s.q).send <==> behind.send) && (f.recv != Levels(s.q).recv <==> behind.recv)
  }

  lemma TracksKept(s: State, f: Flags, a: Act, behind: Flags)
    requires Tracks(s, f, behind)
    ensures Tracks(Apply(s, a), Signal(s, f, a), BehindAfter(s, a, behind))
  {
    hide Levels, Apply, TurnsSend, TurnsRecv, Notifies;
    if !Notifies(s.q, a) { SilentTurns(s, a); }
  }

  /**
   Over every run, started when the flags were right: a flag agrees with the queue if and only if the closes and
   resizes since the last notification have turned it an even number of times.
   */
  lemma {:induction false} AgreesIff(s: State, f: Flags, acts: seq<Act>, behind: Flags)
    requires Tracks(s, f, behind)
    ensures Tracks(RunAll(s, acts), Signals(s, f, acts), Behind(s, acts, behind))
    decreases |acts|
  {
    hide Tracks, Apply, Signal, BehindAfter;
    if acts != [] {
      TracksKept(s, f, acts[0], behind);
      AgreesIff(Apply(s, acts[0]), Signal(s, f, acts[0]), acts[1..], BehindAfter(s, acts[0], behind));
    }
  }

  /** A close that finds messages or writers leaves the queue readable with nothing to read. */
  lemma CloseStaysReadable(s: State)
    requires s.q.ring != [] || s.q.putq != []
    ensures var f := Levels(s.q);
            Signal(s, f, Do(CloseQueue)).recv && !Levels(Apply(s, Do(CloseQueue)).q).recv
  {
    hide Close;
    ClosedLevels(s.q);
  }

  /** A full queue without readers that grows has room, and is not marked sendable. */
  lemma GrownNotSendable(s: State, cap: nat)
    requires s.q.getq == [] && s.q.cap <= |s.q.ring| < cap
    ensures var f, a := Levels(s.q), Do(SetCap(cap, true));
            !Signal(s, f, a).send && Levels(Apply(s, a).q).send
  {
    hide Resize;
    ResizedLevels(s.q, cap);
  }

  /** The same from creation on, when neither pollable is raised, though the queue can take messages. */
  lemma AgreesSinceCreation(cap: nat, acts: seq<Act>)
    ensures Tracks(RunAll(Empty(cap), acts), Signals(Empty(cap), Flags(false, false), acts),
                   Behind(Empty(cap), acts, Flags(cap > 0, false)))
  {
    hide RunAll, Signals, Behind;
    AgreesIff(Empty(cap), Flags(false, false), acts, Flags(cap > 0, false));
  }

  lemma TwoActs(s: State, f: Flags, a: Act, b: Act)
    ensures RunAll(s, [a, b]) == Apply(Apply(s, a), b)
    ensures Signals(s, f, [a, b]) == Signal(Apply(s, a), Signal(s, f, a), b)
  {
    hide Apply, Signal;
    assert [a, b][1..] == [b] && [b][1..] == [];
    assert RunAll(Apply(s, a), [b]) == RunAll(Apply(Apply(s, a), b), []);
    assert Signals(Apply(s, a), Signal(s, f, a), [b])
        == Signals(Apply(Apply(s, a), b), Signal(Apply(s, a), Signal(s, f, a), b), []);
  }

  lemma FullQueue(f: Flags)
    ensures var s := Apply(Empty(1), Do(Put(None)));
            Looks(s, [0], [], 1, 1) && s.alloc == 3 && Signal(Empty(1), f, Do(Put(None))) == Flags(false, true)
  {
    hide RunPutq, RunGetq, AioPut, AioGet, Cancel, Close, Resize, TryPut;
    PutLooks(Empty(1), [], [], 0, 0, None);
  }

  /** One put on a queue of capacity one, then a close: readable, with nothing to read. */
  lemma ReadableAfterClose(f: Flags)
    ensures var acts := [Do(Put(None)), Do(CloseQueue)];
            Signals(Empty(1), f, acts).recv && !Levels(RunAll(Empty(1), acts).q).recv
  {
    hide Apply, RunAll, Signals, Signal;
    TwoActs(Empty(1), f, Do(Put(None)), Do(CloseQueue));
    FullQueue(f);
    CloseStaysReadable(Apply(Empty(1), Do(Put(None))));
  }

  /** One put on a queue of capacity one, then a resize to two: room, and not marked sendable. */
  lemma RoomAfterResize(f: Flags)
    ensures var acts := [Do(Put(None)), Do(SetCap(2, true))];
            !Signals(Empty(1), f, acts).send && Levels(RunAll(Empty(1), acts).q).send
  {
    hide Apply, RunAll, Signals, Signal;
    TwoActs(Empty(1), f, Do(Put(None)), Do(SetCap(2, true)));
    FullQueue(f);
    GrownNotSendable(Apply(Empty(1), Do(Put(None))), 2);
  }
}
