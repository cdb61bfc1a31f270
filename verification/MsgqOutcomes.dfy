/**
 What the completion of an operation on a message queue says (msgqueue.c): a put that succeeded has handed its message
 over, one that failed still has it, and an error has a cause.
 */
module MsgqOutcomes {
  import opened Wrappers
  import opened MsgqSpec
  import opened MsgqRuns

  // ---- what the events say ----

  ghost function NewPuts(s: State, e: Event): map<nat, nat> {
    if e.Put? then map[s.ops := s.msgs] else map[]
  }

  ghost function NewGets(s: State, e: Event): set<nat> {
    if e.Get? then {s.ops} else {}
  }

  /** The message of every put, by its operation. */
  ghost function Puts(s: State, es: seq<Event>): map<nat, nat>
    decreases |es|
  {
    if es == [] then map[]
    else NewPuts(s, es[0]) + Puts(Step(s, es[0]), es[1..])
  }

  /** The operations that are gets. */
  ghost function Gets(s: State, es: seq<Event>): set<nat>
    decreases |es|
  {
    if es == [] then {}
    else NewGets(s, es[0]) + Gets(Step(s, es[0]), es[1..])
  }

  /** An event that can fail an operation: its schedule was refused, it was cancelled, or the queue was closed. */
  ghost predicate Causes(s: State, ev: Event, op: nat, e: Error) {
    match ev
    case Put(refused) => op == s.ops && refused == Some(e)
    case Get(refused) => op == s.ops && refused == Some(e)
    case TryPutMsg => false
    case CancelOp(x, error) => x == op && error == e
    case CloseQueue => e == ECLOSED
    case SetCap(_, _) => false
  }

  ghost predicate Caused(s: State, es: seq<Event>, op: nat, e: Error)
    decreases |es|
  {
    es != [] && (Causes(s, es[0], op, e) || Caused(Step(s, es[0]), es[1..], op, e))
  }

  // ---- what every step keeps ----

  /** The queue has the message, or had it: delivered, in the ring, or freed. */
  ghost predicate HandedOver(q: Queue, m: nat) {
    m in Delivered(q.done) || m in q.ring || m in q.freed
  }

  ghost predicate WriterOk(puts: map<nat, nat>, w: Writer) {
    w.op in puts && puts[w.op] == w.msg
  }

  ghost predicate DoneOk(q: Queue, puts: map<nat, nat>, gets: set<nat>, d: Done) {
    match d.outcome
    case Sent => d.op in puts && HandedOver(q, puts[d.op])
    case Received(_) => d.op in gets
    case Failed(_) => d.op in gets || (d.op in puts && puts[d.op] in q.returned)
  }

  ghost predicate Outcomes(q: Queue, puts: map<nat, nat>, gets: set<nat>) {
    && (forall w :: w in q.putq ==> WriterOk(puts, w))
    && (forall x :: x in q.getq ==> x in gets)
    && (forall d :: d in q.done ==> DoneOk(q, puts, gets, d))
  }

  /** Nothing the queue had is given back, and failed writers keep their messages. */
  ghost predicate Keeps(q: Queue, p: Queue) {
    && (forall m :: HandedOver(q, m) ==> HandedOver(p, m))
    && (forall m :: m in q.returned ==> m in p.returned)
  }

  /** If the log grows by entries that are right, all of it stays right. */
  lemma LogGrows(q: Queue, p: Queue, puts: map<nat, nat>, gets: set<nat>, more: seq<Done>)
    requires Outcomes(q, puts, gets) && Keeps(q, p) && p.done == q.done + more
    requires (forall w :: w in p.putq ==> WriterOk(puts, w)) && (forall x :: x in p.getq ==> x in gets)
    requires forall d :: d in more ==> DoneOk(p, puts, gets, d)
    ensures Outcomes(p, puts, gets)
  {
    hide HandedOver, WriterOk;
    forall d | d in p.done ensures DoneOk(p, puts, gets, d) {
      if d in q.done { assert DoneOk(q, puts, gets, d); }
    }
  }

  lemma {:induction false} DeliveredGrows(done: seq<Done>, more: seq<Done>, m: nat)
    requires m in Delivered(done) || exists d :: d in more && d.outcome == Received(m)
    ensures m in Delivered(done + more)
    decreases |more|
  {
    hide Delivered, DoneOps;
    if more == [] {
      assert done + more == done;
    } else {
      var rest, d := more[..|more| - 1], more[|more| - 1];
      assert more == rest + [d] && done + more == done + rest + [d];
      DoneOne(done + rest, d);
      if d.outcome != Received(m) { DeliveredGrows(done, rest, m); }
    }
  }

  /** Messages move from the ring to the log, or are freed; none goes back. */
  lemma KeepsBy(q: Queue, p: Queue, more: seq<Done>)
    requires p.done == q.done + more
    requires forall m :: m in q.ring ==>
               m in p.ring || m in p.freed || exists d :: d in more && d.outcome == Received(m)
    requires (forall m :: m in q.freed ==> m in p.freed) && (forall m :: m in q.returned ==> m in p.returned)
    ensures Keeps(q, p)
  {
    hide Delivered;
    forall m | HandedOver(q, m) ensures HandedOver(p, m) {
      if m in Delivered(q.done) { DeliveredGrows(q.done, more, m); }
      if m in q.ring && m !in p.ring && m !in p.freed { DeliveredGrows(q.done, more, m); }
    }
  }

  lemma PutToReaderOk(q: Queue, puts: map<nat, nat>, gets: set<nat>)
    requires Outcomes(q, puts, gets) && q.putq != [] && q.getq != []
    ensures Outcomes(PutToReader(q), puts, gets)
  {
    hide Delivered;
    var p := PutToReader(q);
    var r, w := Done(q.getq[0], Received(q.putq[0].msg)), Done(q.putq[0].op, Sent);
    assert q.putq[0] in q.putq && q.getq[0] in q.getq;
    KeepsBy(q, p, [r, w]);
    assert r in [r, w];
    DeliveredGrows(q.done, [r, w], q.putq[0].msg);
    LogGrows(q, p, puts, gets, [r, w]);
  }

  lemma PutToRingOk(q: Queue, puts: map<nat, nat>, gets: set<nat>)
    requires Outcomes(q, puts, gets) && q.putq != []
    ensures Outcomes(PutToRing(q), puts, gets)
  {
    hide Delivered;
    var p := PutToRing(q);
    var w := Done(q.putq[0].op, Sent);
    assert q.putq[0] in q.putq;
    KeepsBy(q, p, [w]);
    assert q.putq[0].msg in p.ring;
    LogGrows(q, p, puts, gets, [w]);
  }

  lemma GetFromRingOk(q: Queue, puts: map<nat, nat>, gets: set<nat>)
    requires Outcomes(q, puts, gets) && q.getq != [] && q.ring != []
    ensures Outcomes(GetFromRing(q), puts, gets)
  {
    hide Delivered;
    var p := GetFromRing(q);
    var r := Done(q.getq[0], Received(q.ring[0]));
    assert q.getq[0] in q.getq && q.ring == [q.ring[0]] + q.ring[1..] && r in [r];
    KeepsBy(q, p, [r]);
    LogGrows(q, p, puts, gets, [r]);
  }

  lemma GetFromWriterOk(q: Queue, puts: map<nat, nat>, gets: set<nat>)
    requires Outcomes(q, puts, gets) && q.getq != [] && q.putq != []
    ensures Outcomes(GetFromWriter(q), puts, gets)
  {
    hide Delivered;
    var p := GetFromWriter(q);
    var w, r := Done(q.putq[0].op, Sent), Done(q.getq[0], Received(q.putq[0].msg));
    assert q.putq[0] in q.putq && q.getq[0] in q.getq && r in [w, r];
    KeepsBy(q, p, [w, r]);
    DeliveredGrows(q.done, [w, r], q.putq[0].msg);
    LogGrows(q, p, puts, gets, [w, r]);
  }

  lemma {:induction false} RunPutqOk(q: Queue, puts: map<nat, nat>, gets: set<nat>)
    requires Outcomes(q, puts, gets)
    ensures Outcomes(RunPutq(q), puts, gets)
    decreases |q.putq|
  {
    hide Outcomes;
    if q.putq != [] {
      if q.getq != [] {
        PutToReaderOk(q, puts, gets);
        RunPutqOk(PutToReader(q), puts, gets);
      } else if |q.ring| < q.cap {
        PutToRingOk(q, puts, gets);
        RunPutqOk(PutToRing(q), puts, gets);
      }
    }
  }

  lemma {:induction false} RunGetqOk(q: Queue, puts: map<nat, nat>, gets: set<nat>)
    requires Outcomes(q, puts, gets)
    ensures Outcomes(RunGetq(q), puts, gets)
    decreases |q.getq|
  {
    hide Outcomes;
    if q.getq != [] {
      if q.ring != [] {
        GetFromRingOk(q, puts, gets);
        RunGetqOk(GetFromRing(q), puts, gets);
      } else if q.putq != [] {
        GetFromWriterOk(q, puts, gets);
        RunGetqOk(GetFromWriter(q), puts, gets);
      }
    }
  }

  /** A reader that fails, or a writer that fails and keeps its message. */
  lemma FailOk(q: Queue, p: Queue, puts: map<nat, nat>, gets: set<nat>, d: Done)
    requires Outcomes(q, puts, gets) && d.outcome.Failed? && p.done == q.done + [d]
    requires d.op in gets || (d.op in puts && puts[d.op] in p.returned)
    requires p.ring == q.ring && p.freed == q.freed && forall m :: m in q.returned ==> m in p.returned
    requires (forall w :: w in p.putq ==> w in q.putq) && (forall x :: x in p.getq ==> x in q.getq)
    ensures Outcomes(p, puts, gets)
  {
    hide Delivered;
    KeepsBy(q, p, [d]);
    LogGrows(q, p, puts, gets, [d]);
  }

  lemma {:induction false} CloseReadersOk(q: Queue, puts: map<nat, nat>, gets: set<nat>)
    requires Outcomes(q, puts, gets)
    ensures Outcomes(CloseReaders(q), puts, gets)
    decreases |q.getq|
  {
    if q.getq != [] {
      var p := Fail(q, q.getq[0], ECLOSED).(getq := q.getq[1..]);
      assert q.getq[0] in q.getq;
      FailOk(q, p, puts, gets, Done(q.getq[0], Failed(ECLOSED)));
      CloseReadersOk(p, puts, gets);
    }
  }

  lemma {:induction false} CloseWritersOk(q: Queue, puts: map<nat, nat>, gets: set<nat>)
    requires Outcomes(q, puts, gets)
    ensures Outcomes(CloseWriters(q), puts, gets)
    decreases |q.putq|
  {
    if q.putq != [] {
      var w := q.putq[0];
      var p := Fail(q, w.op, ECLOSED).(putq := q.putq[1..], returned := q.returned + [w.msg]);
      assert w in q.putq && w.msg in p.returned;
      FailOk(q, p, puts, gets, Done(w.op, Failed(ECLOSED)));
      CloseWritersOk(p, puts, gets);
    }
  }

  lemma CloseOk(q: Queue, puts: map<nat, nat>, gets: set<nat>)
    requires Outcomes(q, puts, gets)
    ensures Outcomes(Close(q), puts, gets)
  {
    hide CloseReaders, CloseWriters;
    var p := q.(closed := true, ring := [], freed := q.freed + q.ring);
    assert p.done == q.done + [];
    KeepsBy(q, p, []);
    LogGrows(q, p, puts, gets, []);
    CloseReadersOk(p, puts, gets);
    CloseWritersOk(CloseReaders(p), puts, gets);
  }

  lemma ResizeOk(q: Queue, cap: nat, puts: map<nat, nat>, gets: set<nat>)
    requires Outcomes(q, puts, gets)
    ensures Outcomes(Resize(q, cap), puts, gets)
  {
    var p := Resize(q, cap);
    var n := if |q.ring| > cap + 1 then |q.ring| - (cap + 1) else 0;
    assert p.done == q.done + [] && q.ring == q.ring[..n] + q.ring[n..];
    KeepsBy(q, p, []);
    LogGrows(q, p, puts, gets, []);
  }

  lemma CancelOk(q: Queue, op: nat, e: Error, puts: map<nat, nat>, gets: set<nat>)
    requires Outcomes(q, puts, gets)
    ensures Outcomes(Cancel(q, op, e), puts, gets)
  {
    var i, j := WriterAt(q.putq, op), ReaderAt(q.getq, op);
    var p := Cancel(q, op, e);
    if i < |q.putq| {
      assert q.putq[i] in q.putq && q.putq[i].msg in p.returned;
      FailOk(q, p, puts, gets, Done(op, Failed(e)));
    } else if j < |q.getq| {
      assert q.getq[j] in q.getq;
      FailOk(q, p, puts, gets, Done(op, Failed(e)));
    }
  }

  lemma TryPutOk(q: Queue, msg: nat, puts: map<nat, nat>, gets: set<nat>)
    requires Outcomes(q, puts, gets)
    ensures Outcomes(TryPut(q, msg).0, puts, gets)
  {
    var p := TryPut(q, msg).0;
    if !q.closed && q.getq != [] {
      var r := Done(q.getq[0], Received(msg));
      assert q.getq[0] in q.getq;
      KeepsBy(q, p, [r]);
      LogGrows(q, p, puts, gets, [r]);
    } else {
      assert p.done == q.done + [];
      KeepsBy(q, p, []);
      LogGrows(q, p, puts, gets, []);
    }
  }

  // ---- every event ----

  /** The operations known so far, none of them both a put and a get. */
  ghost predicate Known(s: State, puts: map<nat, nat>, gets: set<nat>) {
    && Outcomes(s.q, puts, gets)
    && (forall x :: x in puts ==> x < s.ops && x !in gets)
    && (forall x :: x in gets ==> x < s.ops)
    && (forall x :: x in puts ==> puts[x] < s.msgs)
  }

  lemma MoreKnown(q: Queue, puts: map<nat, nat>, gets: set<nat>, op: nat, m: nat)
    requires Outcomes(q, puts, gets) && op !in puts
    ensures Outcomes(q, puts[op := m], gets) && Outcomes(q, puts, gets + {op})
  {
    hide HandedOver;
    forall d | d in q.done ensures DoneOk(q, puts[op := m], gets, d) && DoneOk(q, puts, gets + {op}, d) {
      assert DoneOk(q, puts, gets, d);
    }
    forall w | w in q.putq ensures WriterOk(puts[op := m], w) {
      assert WriterOk(puts, w);
    }
  }

  lemma PutOk(q: Queue, w: Writer, refused: Option<Error>, puts: map<nat, nat>, gets: set<nat>)
    requires Outcomes(q, puts, gets) && WriterOk(puts, w)
    ensures Outcomes(AioPut(q, w, refused), puts, gets)
  {
    if refused.Some? && |q.ring| >= q.cap && q.getq == [] {
      var p := AioPut(q, w, refused);
      assert w.msg in p.returned;
      FailOk(q, p, puts, gets, Done(w.op, Failed(refused.value)));
    } else {
      var p := q.(putq := q.putq + [w]);
      WaitsOk(q, p, puts, gets);
      RunPutqOk(p, puts, gets);
    }
  }

  lemma GetOk(q: Queue, op: nat, refused: Option<Error>, puts: map<nat, nat>, gets: set<nat>)
    requires Outcomes(q, puts, gets) && op in gets
    ensures Outcomes(AioGet(q, op, refused), puts, gets)
  {
    if refused.Some? && q.ring == [] && q.putq == [] {
      FailOk(q, AioGet(q, op, refused), puts, gets, Done(op, Failed(refused.value)));
    } else {
      var p := q.(getq := q.getq + [op]);
      WaitsOk(q, p, puts, gets);
      RunGetqOk(p, puts, gets);
    }
  }

  /** A wait list grows by an operation that belongs on it. */
  lemma WaitsOk(q: Queue, p: Queue, puts: map<nat, nat>, gets: set<nat>)
    requires Outcomes(q, puts, gets) && p == q.(putq := p.putq, getq := p.getq)
    requires (forall w :: w in p.putq ==> WriterOk(puts, w)) && (forall x :: x in p.getq ==> x in gets)
    ensures Outcomes(p, puts, gets)
  {
    hide Delivered, WriterOk;
    assert p.done == q.done + [];
    KeepsBy(q, p, []);
    LogGrows(q, p, puts, gets, []);
  }

  lemma StepOutcomes(s: State, e: Event, puts: map<nat, nat>, gets: set<nat>)
    requires Outcomes(s.q, puts, gets) && s.ops !in puts
    ensures Outcomes(Step(s, e).q, puts + NewPuts(s, e), gets + NewGets(s, e))
  {
    hide Outcomes, AioPut, AioGet, TryPut, Cancel, Close, Resize;
    MoreKnown(s.q, puts, gets, s.ops, s.msgs);
    match e {
      case Put(refused) =>
        assert puts + NewPuts(s, e) == puts[s.ops := s.msgs] && gets + NewGets(s, e) == gets;
        PutOk(s.q, Writer(s.ops, s.msgs), refused, puts[s.ops := s.msgs], gets);
      case Get(refused) =>
        assert puts + NewPuts(s, e) == puts;
        GetOk(s.q, s.ops, refused, puts, gets + {s.ops});
      case TryPutMsg =>
        assert puts + NewPuts(s, e) == puts && gets + NewGets(s, e) == gets;
        TryPutOk(s.q, s.msgs, puts, gets);
      case CancelOp(op, error) =>
        assert puts + NewPuts(s, e) == puts && gets + NewGets(s, e) == gets;
        CancelOk(s.q, op, error, puts, gets);
      case CloseQueue =>
        assert puts + NewPuts(s, e) == puts && gets + NewGets(s, e) == gets;
        CloseOk(s.q, puts, gets);
      case SetCap(cap, allocOk) =>
        assert puts + NewPuts(s, e) == puts && gets + NewGets(s, e) == gets;
        ResizeOk(s.q, cap, puts, gets);
    }
  }

  lemma StepNumbers(s: State, e: Event)
    ensures Step(s, e).ops == s.ops + if e.Put? || e.Get? then 1 else 0
    ensures s.msgs <= Step(s, e).msgs && (e.Put? ==> Step(s, e).msgs == s.msgs + 1)
  {
    hide AioPut, AioGet, TryPut, Cancel, Close, Resize;
  }

  lemma StepKnown(s: State, e: Event, puts: map<nat, nat>, gets: set<nat>)
    requires Known(s, puts, gets)
    ensures Known(Step(s, e), puts + NewPuts(s, e), gets + NewGets(s, e))
  {
    hide Outcomes, Step;
    StepOutcomes(s, e, puts, gets);
    StepNumbers(s, e);
  }

  lemma {:induction false} RunKnown(s: State, es: seq<Event>, puts: map<nat, nat>, gets: set<nat>)
    requires Known(s, puts, gets)
    ensures Known(Run(s, es), puts + Puts(s, es), gets + Gets(s, es))
    decreases |es|
  {
    hide Known, Step;
    if es == [] {
      assert puts + map[] == puts && gets + {} == gets;
    } else {
      var e, t := es[0], Step(s, es[0]);
      StepKnown(s, e, puts, gets);
      RunKnown(t, es[1..], puts + NewPuts(s, e), gets + NewGets(s, e));
      assert puts + NewPuts(s, e) + Puts(t, es[1..]) == puts + (NewPuts(s, e) + Puts(t, es[1..]));
      assert gets + NewGets(s, e) + Gets(t, es[1..]) == gets + (NewGets(s, e) + Gets(t, es[1..]));
    }
  }

  // ---- counting ----

  lemma {:induction false} InDone(done: seq<Done>, x: nat)
    ensures DoneOps(done)[x] > 0 <==> exists d :: d in done && d.op == x
    decreases |done|
  {
    hide DoneOps;
    if done == [] {
      NoDone();
    } else {
      var rest, d := done[..|done| - 1], done[|done| - 1];
      assert done == rest + [d];
      DoneOne(rest, d);
      InDone(rest, x);
    }
  }

  lemma NoDone()
    ensures DoneOps([]) == multiset{}
  {
  }

  lemma {:induction false} InPutq(putq: seq<Writer>, x: nat)
    ensures Ops(putq)[x] > 0 <==> exists w :: w in putq && w.op == x
    decreases |putq|
  {
    if putq != [] {
      assert putq == [putq[0]] + putq[1..];
      InPutq(putq[1..], x);
    }
  }

  lemma {:induction false} OnlyOnce(done: seq<Done>, d: Done, e: Done)
    requires d in done && e in done && d.op == e.op && DoneOps(done)[d.op] <= 1
    ensures d == e
    decreases |done|
  {
    hide DoneOps;
    var rest, last := done[..|done| - 1], done[|done| - 1];
    assert done == rest + [last];
    DoneOne(rest, last);
    if d != e {
      InDone(rest, d.op);
      if d != last && e != last { OnlyOnce(rest, d, e); }
    }
  }

  lemma {:induction false} InDelivered(done: seq<Done>, m: nat)
    ensures m in Delivered(done) <==> exists d :: d in done && d.outcome == Received(m)
    decreases |done|
  {
    hide Delivered, DoneOps;
    if done == [] {
      NoneDelivered();
    } else {
      var rest, d := done[..|done| - 1], done[|done| - 1];
      assert done == rest + [d];
      DoneOne(rest, d);
      InDelivered(rest, m);
    }
  }

  lemma NoneDelivered()
    ensures Delivered([]) == []
  {
  }

  lemma {:induction false} DeliveredOnce(done: seq<Done>, d: Done, e: Done, m: nat)
    requires d in done && e in done && d.outcome == e.outcome == Received(m) && multiset(Delivered(done))[m] <= 1
    ensures d == e
    decreases |done|
  {
    hide Delivered, DoneOps;
    var rest, last := done[..|done| - 1], done[|done| - 1];
    assert done == rest + [last];
    DoneOne(rest, last);
    if d != e {
      InDelivered(rest, m);
      if d != last && e != last { DeliveredOnce(rest, d, e, m); }
    }
  }

  // ---- what a completion says ----

  ghost predicate Completed(q: Queue, x: nat) {
    exists d :: d in q.done && d.op == x
  }

  ghost predicate CompletedFailed(q: Queue, x: nat) {
    exists e :: Done(x, Failed(e)) in q.done
  }

  /** Put `x` of message `m`: sent exactly if the queue took the message, failed exactly if the writer still has it. */
  ghost predicate PutOutcome(q: Queue, x: nat, m: nat) {
    && (Done(x, Sent) in q.done <==> HandedOver(q, m))
    && (CompletedFailed(q, x) <==> m in q.returned)
    && (!Completed(q, x) <==> Writer(x, m) in q.putq)
  }

  /** Get `x`: it waits, has received a message that nobody else received, or has failed. */
  ghost predicate GetOutcome(q: Queue, x: nat) {
    && (!Completed(q, x) <==> x in q.getq)
    && Done(x, Sent) !in q.done
    && forall m, y :: Done(x, Received(m)) in q.done && Done(y, Received(m)) in q.done ==> x == y
  }

  lemma PutWaits(q: Queue, puts: map<nat, nat>, gets: set<nat>, x: nat, w: Writer, ops: nat, msgs: nat)
    requires Outcomes(q, puts, gets) && x in puts
    requires w in q.putq && w.op == x && Accounted(q, ops, msgs, x) && Accounted(q, ops, msgs, puts[x])
    ensures PutOutcome(q, x, puts[x])
  {
    hide Delivered, DoneOps, Ops, Msgs;
    assert WriterOk(puts, w);
    InPutq(q.putq, x);
    InDone(q.done, x);
    var i :| 0 <= i < |q.putq| && q.putq[i] == w;
    assert Msgs(q.putq)[i] == puts[x];
    assert puts[x] in multiset(Msgs(q.putq));
  }

  lemma WriterCounts(q: Queue, w: Writer)
    requires w in q.putq
    ensures multiset(Msgs(q.putq))[w.msg] > 0
  {
    hide Msgs;
    var i :| 0 <= i < |q.putq| && q.putq[i] == w;
    assert Msgs(q.putq)[i] == w.msg;
    assert w.msg in Msgs(q.putq);
  }

  lemma PutDone(q: Queue, puts: map<nat, nat>, gets: set<nat>, x: nat, d: Done, ops: nat, msgs: nat)
    requires Outcomes(q, puts, gets) && x in puts && x !in gets
    requires d in q.done && d.op == x && Accounted(q, ops, msgs, x) && Accounted(q, ops, msgs, puts[x])
    ensures PutOutcome(q, x, puts[x])
  {
    hide Delivered, DoneOps, Ops, Msgs;
    var m := puts[x];
    InDone(q.done, x);
    assert DoneOk(q, puts, gets, d);
    forall e | e in q.done && e.op == x ensures e == d { OnlyOnce(q.done, d, e); }
    if Writer(x, m) in q.putq { WriterCounts(q, Writer(x, m)); }
    assert d.outcome.Sent? || d.outcome.Failed?;
    if d.outcome.Failed? { assert Done(x, Failed(d.outcome.error)) in q.done; }
  }

  lemma PutHas(q: Queue, puts: map<nat, nat>, gets: set<nat>, x: nat, ops: nat, msgs: nat)
    requires Outcomes(q, puts, gets) && x in puts && x !in gets && x < ops
    requires Accounted(q, ops, msgs, x) && Accounted(q, ops, msgs, puts[x])
    ensures PutOutcome(q, x, puts[x])
  {
    hide DoneOps, Ops, PutOutcome;
    InDone(q.done, x);
    InPutq(q.putq, x);
    assert x !in q.getq;
    if Ops(q.putq)[x] > 0 {
      var w :| w in q.putq && w.op == x;
      PutWaits(q, puts, gets, x, w, ops, msgs);
    } else {
      var d :| d in q.done && d.op == x;
      PutDone(q, puts, gets, x, d, ops, msgs);
    }
  }

  lemma GetHas(q: Queue, puts: map<nat, nat>, gets: set<nat>, x: nat, ops: nat, msgs: nat)
    requires Outcomes(q, puts, gets) && x in gets && x !in puts && x < ops
    requires forall y :: Accounted(q, ops, msgs, y)
    ensures GetOutcome(q, x)
  {
    hide Delivered, DoneOps, Ops, HandedOver;
    assert Accounted(q, ops, msgs, x);
    InDone(q.done, x);
    InPutq(q.putq, x);
    assert forall w :: w in q.putq ==> WriterOk(puts, w);
    assert Done(x, Sent) in q.done ==> DoneOk(q, puts, gets, Done(x, Sent));
    forall m, y | Done(x, Received(m)) in q.done && Done(y, Received(m)) in q.done ensures x == y {
      assert Accounted(q, ops, msgs, m);
      DeliveredOnce(q.done, Done(x, Received(m)), Done(y, Received(m)), m);
    }
  }

  /** Over every run: every put and every get has the outcome its message and the wait lists say. */
  lemma EveryOutcome(cap: nat, es: seq<Event>, x: nat)
    ensures var q := Run(Empty(cap), es).q;
            && (x in Puts(Empty(cap), es) ==> PutOutcome(q, x, Puts(Empty(cap), es)[x]))
            && (x in Gets(Empty(cap), es) ==> GetOutcome(q, x))
  {
    hide Run, Puts, Gets, Accounted, Outcomes, PutOutcome, GetOutcome;
    var s := Run(Empty(cap), es);
    var puts, gets := Puts(Empty(cap), es), Gets(Empty(cap), es);
    NothingKnown(cap);
    RunKnown(Empty(cap), es, map[], {});
    assert map[] + puts == puts && {} + gets == gets;
    forall y ensures Accounted(s.q, s.ops, s.msgs, y) { EveryRun(cap, es, y); }
    if x in puts { PutHas(s.q, puts, gets, x, s.ops, s.msgs); }
    if x in gets { GetHas(s.q, puts, gets, x, s.ops, s.msgs); }
  }

  lemma NothingKnown(cap: nat)
    ensures Known(Empty(cap), map[], {})
  {
  }

  // ---- every operation is a put or a get ----

  lemma {:induction false} OpsGrow(s: State, es: seq<Event>)
    ensures s.ops <= Run(s, es).ops
    decreases |es|
  {
    hide Step;
    if es != [] {
      StepNumbers(s, es[0]);
      OpsGrow(Step(s, es[0]), es[1..]);
    }
  }

  lemma {:induction false} EveryOperation(s: State, es: seq<Event>, x: nat)
    ensures x in Puts(s, es).Keys + Gets(s, es) <==> s.ops <= x < Run(s, es).ops
    decreases |es|
  {
    hide Step;
    if es != [] {
      var e, t := es[0], Step(s, es[0]);
      StepNumbers(s, e);
      EveryOperation(t, es[1..], x);
      assert x in Puts(s, es) <==> x in NewPuts(s, e) || x in Puts(t, es[1..]);
      OpsGrow(t, es[1..]);
    }
  }

  // ---- every error has a cause ----

  /** The failures in the log of `p` are those in the log of `q`, or satisfy `cause`. */
  ghost predicate OnlyFailures(q: Queue, p: Queue, cause: (nat, Error) -> bool) {
    forall x, e :: Done(x, Failed(e)) in p.done ==> Done(x, Failed(e)) in q.done || cause(x, e)
  }

  lemma {:induction false} RunPutqFails(q: Queue)
    ensures OnlyFailures(q, RunPutq(q), (x, e) => false)
    decreases |q.putq|
  {
    if q.putq != [] {
      if q.getq != [] {
        RunPutqFails(PutToReader(q));
      } else if |q.ring| < q.cap {
        RunPutqFails(PutToRing(q));
      }
    }
  }

  lemma {:induction false} RunGetqFails(q: Queue)
    ensures OnlyFailures(q, RunGetq(q), (x, e) => false)
    decreases |q.getq|
  {
    if q.getq != [] {
      if q.ring != [] {
        RunGetqFails(GetFromRing(q));
      } else if q.putq != [] {
        RunGetqFails(GetFromWriter(q));
      }
    }
  }

  lemma {:induction false} CloseReadersFails(q: Queue)
    ensures OnlyFailures(q, CloseReaders(q), (x, e) => e == ECLOSED)
    decreases |q.getq|
  {
    if q.getq != [] { CloseReadersFails(Fail(q, q.getq[0], ECLOSED).(getq := q.getq[1..])); }
  }

  lemma {:induction false} CloseWritersFails(q: Queue)
    ensures OnlyFailures(q, CloseWriters(q), (x, e) => e == ECLOSED)
    decreases |q.putq|
  {
    if q.putq != [] {
      CloseWritersFails(Fail(q, q.putq[0].op, ECLOSED).(putq := q.putq[1..], returned := q.returned + [q.putq[0].msg]));
    }
  }

  lemma StepFails(s: State, ev: Event)
    ensures OnlyFailures(s.q, Step(s, ev).q, (x: nat, e) => Causes(s, ev, x, e))
  {
    hide RunPutq, RunGetq, CloseReaders, CloseWriters;
    match ev {
      case Put(refused) => RunPutqFails(s.q.(putq := s.q.putq + [Writer(s.ops, s.msgs)]));
      case Get(refused) => RunGetqFails(s.q.(getq := s.q.getq + [s.ops]));
      case TryPutMsg =>
      case CancelOp(op, error) =>
      case CloseQueue =>
        var q := s.q.(closed := true, ring := [], freed := s.q.freed + s.q.ring);
        CloseReadersFails(q);
        CloseWritersFails(CloseReaders(q));
      case SetCap(cap, allocOk) =>
    }
  }

  lemma {:induction false} FailuresCaused(s: State, es: seq<Event>, x: nat, e: Error)
    requires Done(x, Failed(e)) in Run(s, es).q.done
    ensures Done(x, Failed(e)) in s.q.done || Caused(s, es, x, e)
    decreases |es|
  {
    hide Step, Causes;
    if es != [] {
      StepFails(s, es[0]);
      FailuresCaused(Step(s, es[0]), es[1..], x, e);
    }
  }

  /** An operation fails only with the error its schedule was refused with or it was cancelled with, or of a close. */
  lemma EveryFailure(cap: nat, es: seq<Event>, x: nat, e: Error)
    requires Done(x, Failed(e)) in Run(Empty(cap), es).q.done
    ensures Caused(Empty(cap), es, x, e)
  {
    hide Run;
    FailuresCaused(Empty(cap), es, x, e);
  }

  /** An operation that has begun and not completed waits on one of the lists. */
  lemma Waiting(q: Queue, ops: nat, msgs: nat, x: nat)
    requires Accounted(q, ops, msgs, x)
    ensures x < ops && !Completed(q, x) <==> x in q.getq || exists w :: w in q.putq && w.op == x
  {
    hide DoneOps, Ops, Delivered, Msgs;
    InDone(q.done, x);
    InPutq(q.putq, x);
  }

  /** Over every run: cancelling an operation that has not completed fails it with that error, and else does nothing. */
  lemma CancelFails(cap: nat, es: seq<Event>, x: nat, e: Error)
    ensures var s := Run(Empty(cap), es);
            var t := Step(s, CancelOp(x, e));
            if x < s.ops && !Completed(s.q, x) then t.q.done == s.q.done + [Done(x, Failed(e))] else t == s
  {
    hide Run, Accounted, Completed, AioPut, AioGet, TryPut, Close, Resize;
    var s := Run(Empty(cap), es);
    EveryRun(cap, es, x);
    Waiting(s.q, s.ops, s.msgs, x);
    var i := WriterAt(s.q.putq, x);
    assert i < |s.q.putq| ==> s.q.putq[i] in s.q.putq;
  }

  lemma {:induction false} CloseReadersLog(q: Queue, x: nat)
    ensures q.done <= CloseReaders(q).done && CloseReaders(q).putq == q.putq
    ensures x in q.getq ==> Done(x, Failed(ECLOSED)) in CloseReaders(q).done
    decreases |q.getq|
  {
    if q.getq != [] {
      var p := Fail(q, q.getq[0], ECLOSED).(getq := q.getq[1..]);
      assert q.getq == [q.getq[0]] + p.getq && p.done[|q.done|] == Done(q.getq[0], Failed(ECLOSED));
      CloseReadersLog(p, x);
    }
  }

  lemma {:induction false} CloseWritersLog(q: Queue, x: nat)
    ensures q.done <= CloseWriters(q).done
    ensures (exists w :: w in q.putq && w.op == x) ==> Done(x, Failed(ECLOSED)) in CloseWriters(q).done
    decreases |q.putq|
  {
    if q.putq != [] {
      var w := q.putq[0];
      var p := Fail(q, w.op, ECLOSED).(putq := q.putq[1..], returned := q.returned + [w.msg]);
      assert q.putq == [w] + p.putq && p.done[|q.done|] == Done(w.op, Failed(ECLOSED));
      CloseWritersLog(p, x);
    }
  }

  /** Over every run: closing fails with ECLOSED every operation that has not completed. */
  lemma CloseFails(cap: nat, es: seq<Event>, x: nat)
    requires var s := Run(Empty(cap), es); x < s.ops && !Completed(s.q, x)
    ensures Done(x, Failed(ECLOSED)) in Step(Run(Empty(cap), es), CloseQueue).q.done
  {
    hide Run, Accounted, Completed, AioPut, AioGet, TryPut, Cancel, Resize, CloseReaders, CloseWriters;
    var s := Run(Empty(cap), es);
    EveryRun(cap, es, x);
    Waiting(s.q, s.ops, s.msgs, x);
    var q := s.q.(closed := true, ring := [], freed := s.q.freed + s.q.ring);
    CloseReadersLog(q, x);
    CloseWritersLog(CloseReaders(q), x);
  }

  // ---- try-put ----

  /**
   A try-put succeeds exactly when the queue is open with a reader waiting or room in the ring, and then the queue has
   the message; it says ECLOSED exactly of a closed queue, and a failure leaves the queue as it was.
   */
  lemma TryPutResult(s: State)
    requires Inv(s)
    ensures var (p, r) := TryPut(s.q, s.msgs);
            && (r.None? <==> !s.q.closed && (s.q.getq != [] || |s.q.ring| < s.q.cap))
            && (r.None? <==> HandedOver(p, s.msgs))
            && (r == Some(ECLOSED) <==> s.q.closed)
            && (r.Some? ==> p == s.q && r.value in {ECLOSED, EAGAIN})
  {
    hide DoneOps, Ops, Msgs;
    NumbersOnce(s.msgs, s.msgs);
    assert AllMsgs(s.q)[s.msgs] == 0;
    if !s.q.closed && s.q.getq != [] {
      DoneOne(s.q.done, Done(s.q.getq[0], Received(s.msgs)));
    }
  }
}
