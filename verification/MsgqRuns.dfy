/**
 What holds over every run of one message queue (msgqueue.c). Operations are numbered as they begin and
 messages as they are handed to the queue, so numerical order is submission order.
 */
module MsgqRuns {
  import opened Wrappers
  import opened MsgqSpec

  datatype Event =
    | Put(refused: Option<Error>)
    | Get(refused: Option<Error>)
    | TryPutMsg
    | CancelOp(op: nat, error: Error)
    | CloseQueue
    | SetCap(cap: nat, allocOk: bool)  // allocOk: a larger array could be had, if one is needed

  /** The queue, how many operations have begun and messages been accepted so far, and the size of its array. */
  datatype State = State(q: Queue, ops: nat, msgs: nat, alloc: nat)

  ghost function Step(s: State, e: Event): State {
    match e
    case Put(refused) =>
      s.(q := AioPut(s.q, Writer(s.ops, s.msgs), refused), ops := s.ops + 1, msgs := s.msgs + 1)
    case Get(refused) => s.(q := AioGet(s.q, s.ops, refused), ops := s.ops + 1)
    case TryPutMsg =>
      var (q, r) := TryPut(s.q, s.msgs);
      if r.None? then s.(q := q, msgs := s.msgs + 1) else s
    case CancelOp(op, error) => s.(q := Cancel(s.q, op, error))
    case CloseQueue => s.(q := Close(s.q))
    case SetCap(cap, allocOk) =>
      if cap + 2 <= s.alloc then s.(q := Resize(s.q, cap))
      else if allocOk then s.(q := Resize(s.q, cap), alloc := cap + 2)
      else s
  }

  ghost function Run(s: State, es: seq<Event>): State
    decreases |es|
  {
    if es == [] then s else Run(Step(s, es[0]), es[1..])
  }

  ghost function Empty(cap: nat): State {
    State(Queue(cap, [], false, [], [], [], [], []), 0, 0, cap + 2)
  }

  // ---- what is counted ----

  ghost function Ops(putq: seq<Writer>): (r: multiset<nat>) {
    if putq == [] then multiset{} else multiset{putq[0].op} + Ops(putq[1..])
  }

  ghost function DoneOps(done: seq<Done>): multiset<nat> {
    if done == [] then multiset{} else DoneOps(done[..|done| - 1]) + multiset{done[|done| - 1].op}
  }

  /** The messages received, in order of completion. */
  ghost function Delivered(done: seq<Done>): seq<nat> {
    if done == [] then []
    else
      var d := done[|done| - 1];
      Delivered(done[..|done| - 1]) + if d.outcome.Received? then [d.outcome.msg] else []
  }

  lemma DoneOne(done: seq<Done>, d: Done)
    ensures DoneOps(done + [d]) == DoneOps(done) + multiset{d.op}
    ensures Delivered(done + [d]) == Delivered(done) + if d.outcome.Received? then [d.outcome.msg] else []
  {
    assert (done + [d])[..|done|] == done;
  }

  lemma DoneTwo(done: seq<Done>, d: Done, e: Done)
    ensures DoneOps(done + [d, e]) == DoneOps(done) + multiset{d.op} + multiset{e.op}
    ensures Delivered(done + [d, e]) == Delivered(done) + (if d.outcome.Received? then [d.outcome.msg] else [])
                                                       + (if e.outcome.Received? then [e.outcome.msg] else [])
  {
    assert done + [d, e] == (done + [d]) + [e];
    DoneOne(done, d);
    DoneOne(done + [d], e);
  }

  /** Every operation the queue knows of: completed, or on one of the two wait lists. */
  ghost function AllOps(q: Queue): multiset<nat> {
    DoneOps(q.done) + Ops(q.putq) + multiset(q.getq)
  }

  /** The messages delivered and still to be delivered, in the order the queue will have delivered them. */
  ghost function Line(q: Queue): seq<nat> {
    Delivered(q.done) + q.ring + Msgs(q.putq)
  }

  /** Every message the queue knows of. */
  ghost function AllMsgs(q: Queue): multiset<nat> {
    multiset(Line(q)) + multiset(q.returned) + multiset(q.freed)
  }

  // ---- the inner moves conserve everything and keep the line ----

  ghost predicate SameStock(p: Queue, q: Queue) {
    AllOps(p) == AllOps(q) && Line(p) == Line(q) && p.returned == q.returned && p.freed == q.freed
  }

  lemma MsgsSplit(putq: seq<Writer>)
    requires putq != []
    ensures Msgs(putq) == [putq[0].msg] + Msgs(putq[1..])
  {
  }

  lemma Regroup(d: seq<nat>, r: seq<nat>, m: nat, rest: seq<nat>)
    ensures d + (r + [m]) + rest == d + r + ([m] + rest)
    ensures (d + []) == d
  {
  }

  lemma HeadOut(getq: seq<nat>)
    requires getq != []
    ensures multiset(getq) == multiset{getq[0]} + multiset(getq[1..])
  {
    assert getq == [getq[0]] + getq[1..];
  }

  /** Both sides of a hand-off move from their lists to the log. */
  lemma HandOffSum(done: multiset<nat>, o: multiset<nat>, g: multiset<nat>, w: nat, r: nat)
    ensures done + multiset{r} + multiset{w} + o + g == done + (multiset{w} + o) + (multiset{r} + g)
    ensures done + multiset{w} + multiset{r} + o + g == done + (multiset{w} + o) + (multiset{r} + g)
  {
  }

  lemma HandOffLine(d: seq<nat>, ring: seq<nat>, m: nat, rest: seq<nat>)
    requires ring == []
    ensures d + [m] + [] + ring + rest == d + ring + ([m] + rest)
    ensures d + [] + [m] + ring + rest == d + ring + ([m] + rest)
  {
  }

  lemma PutToReaderStock(q: Queue)
    requires q.putq != [] && q.getq != [] && q.ring == []
    ensures SameStock(PutToReader(q), q)
  {
    hide Delivered, DoneOps, Msgs, Ops;
    DoneTwo(q.done, Done(q.getq[0], Received(q.putq[0].msg)), Done(q.putq[0].op, Sent));
    MsgsSplit(q.putq);
    OpsSplit(q.putq);
    HeadOut(q.getq);
    HandOffSum(DoneOps(q.done), Ops(q.putq[1..]), multiset(q.getq[1..]), q.putq[0].op, q.getq[0]);
    HandOffLine(Delivered(q.done), q.ring, q.putq[0].msg, Msgs(q.putq[1..]));
  }

  lemma OpsSplit(putq: seq<Writer>)
    requires putq != []
    ensures Ops(putq) == multiset{putq[0].op} + Ops(putq[1..])
  {
  }

  lemma PutToRingStock(q: Queue)
    requires q.putq != []
    ensures SameStock(PutToRing(q), q)
  {
    hide Delivered, DoneOps, Msgs;
    DoneOne(q.done, Done(q.putq[0].op, Sent));
    MsgsSplit(q.putq);
    Regroup(Delivered(q.done), q.ring, q.putq[0].msg, Msgs(q.putq[1..]));
  }

  lemma GetFromRingStock(q: Queue)
    requires q.getq != [] && q.ring != []
    ensures SameStock(GetFromRing(q), q)
  {
    hide Delivered, DoneOps, Msgs;
    DoneOne(q.done, Done(q.getq[0], Received(q.ring[0])));
    HeadOut(q.getq);
    assert Delivered(q.done) + [q.ring[0]] + q.ring[1..] == Delivered(q.done) + q.ring;
  }

  lemma GetFromWriterStock(q: Queue)
    requires q.getq != [] && q.putq != [] && q.ring == []
    ensures SameStock(GetFromWriter(q), q)
  {
    hide Delivered, DoneOps, Msgs, Ops;
    DoneTwo(q.done, Done(q.putq[0].op, Sent), Done(q.getq[0], Received(q.putq[0].msg)));
    MsgsSplit(q.putq);
    OpsSplit(q.putq);
    HeadOut(q.getq);
    HandOffSum(DoneOps(q.done), Ops(q.putq[1..]), multiset(q.getq[1..]), q.putq[0].op, q.getq[0]);
    HandOffLine(Delivered(q.done), q.ring, q.putq[0].msg, Msgs(q.putq[1..]));
  }

  lemma {:induction false} RunPutqStock(q: Queue)
    requires q.getq != [] ==> q.ring == [] && |q.putq| <= 1
    ensures SameStock(RunPutq(q), q)
    decreases |q.putq|
  {
    hide SameStock, PutToReader, PutToRing;
    StockRefl(q);
    if q.putq != [] {
      if q.getq != [] {
        PutToReaderStock(q);
        PutToReaderShape(q);
        assert RunPutq(PutToReader(q)) == PutToReader(q);
      } else if |q.ring| < q.cap {
        PutToRingStock(q);
        PutToRingShape(q);
        RunPutqStock(PutToRing(q));
        StockTrans(RunPutq(q), PutToRing(q), q);
      }
    }
  }

  lemma PutToReaderShape(q: Queue)
    requires q.putq != [] && q.getq != []
    ensures PutToReader(q).putq == q.putq[1..]
  {
  }

  lemma PutToRingShape(q: Queue)
    requires q.putq != []
    ensures PutToRing(q).putq == q.putq[1..] && PutToRing(q).getq == q.getq
  {
  }

  lemma StockRefl(q: Queue)
    ensures SameStock(q, q)
  {
  }

  lemma StockTrans(p: Queue, q: Queue, r: Queue)
    requires SameStock(p, q) && SameStock(q, r)
    ensures SameStock(p, r)
  {
  }

  lemma {:induction false} RunGetqStock(q: Queue)
    ensures SameStock(RunGetq(q), q)
    decreases |q.getq|
  {
    hide SameStock;
    StockRefl(q);
    if q.getq != [] {
      if q.ring != [] {
        GetFromRingStock(q);
        RunGetqStock(GetFromRing(q));
        StockTrans(RunGetq(q), GetFromRing(q), q);
      } else if q.putq != [] {
        GetFromWriterStock(q);
        RunGetqStock(GetFromWriter(q));
        StockTrans(RunGetq(q), GetFromWriter(q), q);
      }
    }
  }

  // ---- every event conserves operations and messages ----

  /** {0, ..., n - 1}, each once. */
  ghost function Numbers(n: nat): multiset<nat> {
    if n == 0 then multiset{} else Numbers(n - 1) + multiset{n - 1}
  }

  lemma {:induction false} NumbersOnce(n: nat, x: nat)
    ensures Numbers(n)[x] == if x < n then 1 else 0
  {
    if n > 0 { NumbersOnce(n - 1, x); }
  }

  ghost predicate Inv(s: State) {
    Settled(s.q) && AllOps(s.q) == Numbers(s.ops) && AllMsgs(s.q) == Numbers(s.msgs)
  }

  lemma NumbersNext(n: nat)
    ensures Numbers(n + 1) == Numbers(n) + multiset{n}
  {
  }

  lemma {:induction false} OpsAppend(putq: seq<Writer>, w: Writer)
    ensures Ops(putq + [w]) == Ops(putq) + multiset{w.op}
  {
    if putq == [] {
      assert [] + [w] == [w];
      assert [w][1..] == [];
    } else {
      assert (putq + [w])[1..] == putq[1..] + [w];
      OpsAppend(putq[1..], w);
    }
  }

  lemma {:induction false} OpsRemove(putq: seq<Writer>, i: nat)
    requires i < |putq|
    ensures Ops(putq) == Ops(putq[..i] + putq[i + 1..]) + multiset{putq[i].op}
  {
    if i == 0 {
      assert putq[..0] + putq[1..] == putq[1..];
    } else {
      var rest := putq[..i] + putq[i + 1..];
      assert rest[1..] == putq[1..][..i - 1] + putq[1..][i..];
      OpsRemove(putq[1..], i - 1);
    }
  }

  lemma MsgsAppend(putq: seq<Writer>, w: Writer)
    ensures Msgs(putq + [w]) == Msgs(putq) + [w.msg]
  {
  }

  lemma Append3(a: seq<nat>, b: seq<nat>, c: seq<nat>, x: nat)
    ensures a + b + (c + [x]) == a + b + c + [x]
  {
  }

  lemma AddWriter(q: Queue, w: Writer)
    ensures AllOps(q.(putq := q.putq + [w])) == AllOps(q) + multiset{w.op}
    ensures Line(q.(putq := q.putq + [w])) == Line(q) + [w.msg]
  {
    hide Delivered, DoneOps, Msgs, Ops;
    OpsAppend(q.putq, w);
    MsgsAppend(q.putq, w);
    Append3(Delivered(q.done), q.ring, Msgs(q.putq), w.msg);
  }

  lemma AddReader(q: Queue, op: nat)
    ensures AllOps(q.(getq := q.getq + [op])) == AllOps(q) + multiset{op}
    ensures Line(q.(getq := q.getq + [op])) == Line(q)
  {
    hide Delivered, DoneOps, Msgs, Ops;
  }

  lemma FailOne(q: Queue, op: nat, e: Error)
    ensures AllOps(Fail(q, op, e)) == AllOps(q) + multiset{op} && Line(Fail(q, op, e)) == Line(q)
  {
    hide Delivered, DoneOps, Msgs, Ops;
    DoneOne(q.done, Done(op, Failed(e)));
    assert Delivered(q.done) + [] == Delivered(q.done);
  }

  /** The line is the old one, with the new message behind it if it was taken in. */
  ghost predicate Extended(s: State, t: State) {
    Line(t.q) == Line(s.q) || (t.msgs == s.msgs + 1 && Line(t.q) == Line(s.q) + [s.msgs])
  }

  lemma FailLine(q: Queue, op: nat, e: Error, returned: seq<nat>)
    ensures Line(Fail(q, op, e).(returned := returned)) == Line(Fail(q, op, e))
    ensures AllOps(Fail(q, op, e).(returned := returned)) == AllOps(Fail(q, op, e))
  {
  }

  lemma GrowLine(q: Queue, p: Queue, x: nat)
    requires multiset(Line(p)) == multiset(Line(q)) + multiset{x} && p.returned == q.returned && p.freed == q.freed
    ensures AllMsgs(p) == AllMsgs(q) + multiset{x}
  {
  }

  lemma GrowReturned(q: Queue, p: Queue, x: nat)
    requires Line(p) == Line(q) && p.returned == q.returned + [x] && p.freed == q.freed
    ensures AllMsgs(p) == AllMsgs(q) + multiset{x}
  {
  }

  lemma PutRefused(q: Queue, w: Writer, e: Error)
    ensures var p := Fail(q, w.op, e).(returned := q.returned + [w.msg]);
            Line(p) == Line(q) && AllOps(p) == AllOps(q) + multiset{w.op} && AllMsgs(p) == AllMsgs(q) + multiset{w.msg}
  {
    hide Line, AllOps, AllMsgs;
    FailOne(q, w.op, e);
    FailLine(q, w.op, e, q.returned + [w.msg]);
    GrowReturned(q, Fail(q, w.op, e).(returned := q.returned + [w.msg]), w.msg);
  }

  lemma PutTaken(q: Queue, w: Writer)
    requires Settled(q)
    ensures var p := RunPutq(q.(putq := q.putq + [w]));
            && Settled(p) && Line(p) == Line(q) + [w.msg]
            && AllOps(p) == AllOps(q) + multiset{w.op} && AllMsgs(p) == AllMsgs(q) + multiset{w.msg}
  {
    hide Line, AllOps, AllMsgs, RunPutq;
    var p := q.(putq := q.putq + [w]);
    AddWriter(q, w);
    RunPutqStock(p);
    RunPutqSettles(p);
    GrowLine(q, RunPutq(p), w.msg);
  }

  lemma PutKeeps(s: State, refused: Option<Error>)
    requires Inv(s)
    ensures Inv(Step(s, Put(refused))) && Extended(s, Step(s, Put(refused)))
  {
    hide Line, AllOps, AllMsgs, Numbers, RunPutq, Fail, AioGet, Cancel, Close, Resize, TryPut;
    NumbersNext(s.ops);
    NumbersNext(s.msgs);
    var q, w := s.q, Writer(s.ops, s.msgs);
    if refused.Some? && |q.ring| >= q.cap && q.getq == [] {
      PutRefused(q, w, refused.value);
      FailShape(q, w.op, refused.value);
    } else {
      PutTaken(q, w);
    }
  }

  lemma FailShape(q: Queue, op: nat, e: Error)
    ensures Fail(q, op, e).getq == q.getq && Fail(q, op, e).ring == q.ring && Fail(q, op, e).putq == q.putq
  {
  }

  lemma GetKeeps(s: State, refused: Option<Error>)
    requires Inv(s)
    ensures Inv(Step(s, Get(refused))) && Extended(s, Step(s, Get(refused)))
  {
    hide Line, AllOps, Numbers, RunPutq, RunGetq, Cancel, Close, Resize, TryPut;
    NumbersNext(s.ops);
    NumbersNext(s.msgs);
    var q := s.q;
    if refused.Some? && q.ring == [] && q.putq == [] {
      FailOne(q, s.ops, refused.value);
    } else {
      var p := q.(getq := q.getq + [s.ops]);
      AddReader(q, s.ops);
      RunGetqStock(p);
      RunGetqSettles(p);
    }
  }

  /** The try-put enters the buffer ahead of writers that have been waiting longer. */
  ghost predicate Overtakes(q: Queue) {
    !q.closed && q.getq == [] && |q.ring| < q.cap && q.putq != []
  }

  lemma TryPutReader(q: Queue, msg: nat)
    requires Settled(q) && !q.closed && q.getq != []
    ensures AllOps(TryPut(q, msg).0) == AllOps(q) && Line(TryPut(q, msg).0) == Line(q) + [msg]
  {
    hide Delivered, DoneOps, Ops;
    DoneOne(q.done, Done(q.getq[0], Received(msg)));
    HeadOut(q.getq);
    assert Msgs([]) == [];
  }

  lemma TryPutRing(q: Queue, msg: nat)
    requires !q.closed && q.getq == [] && |q.ring| < q.cap
    ensures AllOps(TryPut(q, msg).0) == AllOps(q)
    ensures var n := |Delivered(q.done) + q.ring|;
            n <= |Line(q)| && Line(TryPut(q, msg).0) == Line(q)[..n] + [msg] + Line(q)[n..]
    ensures |Line(q)| == |Delivered(q.done) + q.ring| + |q.putq|
  {
    hide Delivered, DoneOps, Ops;
  }

  lemma Inserted(line: seq<nat>, n: nat, x: nat)
    requires n <= |line|
    ensures multiset(line[..n] + [x] + line[n..]) == multiset(line) + multiset{x}
    ensures n == |line| ==> line[..n] + [x] + line[n..] == line + [x]
  {
    assert line == line[..n] + line[n..];
  }

  lemma TryPutKeeps(s: State)
    requires Inv(s)
    ensures Inv(Step(s, TryPutMsg))
    ensures !Overtakes(s.q) ==> Extended(s, Step(s, TryPutMsg))
  {
    hide Line, AllOps, AllMsgs, Delivered, Numbers, AioPut, AioGet, Cancel, Close, Resize;
    NumbersNext(s.msgs);
    var q := s.q;
    if q.closed {
    } else if q.getq != [] {
      TryPutReader(q, s.msgs);
      GrowLine(q, TryPut(q, s.msgs).0, s.msgs);
    } else if |q.ring| < q.cap {
      TryPutRing(q, s.msgs);
      Inserted(Line(q), |Delivered(q.done) + q.ring|, s.msgs);
      GrowLine(q, TryPut(q, s.msgs).0, s.msgs);
    }
  }

  /** `t` has the line of `s` with one stretch taken out. */
  ghost predicate Shortened(s: State, t: State) {
    && t.msgs == s.msgs
    && exists i: nat, j: nat :: i <= j <= |Line(s.q)| && Line(t.q) == Line(s.q)[..i] + Line(s.q)[j..]
  }

  lemma CutOut(line: seq<nat>, i: nat, j: nat)
    requires i <= j <= |line|
    ensures multiset(line) == multiset(line[..i] + line[j..]) + multiset(line[i..j])
  {
    assert line == line[..i] + line[i..j] + line[j..];
  }

  lemma CancelWriter(q: Queue, op: nat, e: Error) returns (k: nat)
    requires WriterAt(q.putq, op) < |q.putq|
    ensures AllOps(Cancel(q, op, e)) == AllOps(q)
    ensures k < |Line(q)| && Line(Cancel(q, op, e)) == Line(q)[..k] + Line(q)[k + 1..]
    ensures Line(q)[k] == q.putq[WriterAt(q.putq, op)].msg
  {
    hide AllOps, Delivered, Msgs;
    CancelWriterOps(q, op, e);
    var i := WriterAt(q.putq, op);
    DoneOne(q.done, Done(op, Failed(e)));
    var front := Delivered(q.done) + q.ring;
    assert Delivered(q.done) + [] == Delivered(q.done);
    k := |front| + i;
    CutMsgs(front, q.putq, i);
  }

  lemma CancelWriterOps(q: Queue, op: nat, e: Error)
    requires WriterAt(q.putq, op) < |q.putq|
    ensures AllOps(Cancel(q, op, e)) == AllOps(q)
  {
    hide Delivered, DoneOps, Ops, Msgs;
    DoneOne(q.done, Done(op, Failed(e)));
    OpsRemove(q.putq, WriterAt(q.putq, op));
  }

  lemma CutMsgs(front: seq<nat>, putq: seq<Writer>, i: nat)
    requires i < |putq|
    ensures var line := front + Msgs(putq);
            var k := |front| + i;
            && line[k] == putq[i].msg
            && front + Msgs(putq[..i] + putq[i + 1..]) == line[..k] + line[k + 1..]
  {
  }

  lemma CancelReader(q: Queue, op: nat, e: Error)
    requires WriterAt(q.putq, op) == |q.putq| && ReaderAt(q.getq, op) < |q.getq|
    ensures AllOps(Cancel(q, op, e)) == AllOps(q) && Line(Cancel(q, op, e)) == Line(q)
  {
    hide Delivered, DoneOps, Ops, Msgs, WriterAt, ReaderAt;
    var j := ReaderAt(q.getq, op);
    DoneOne(q.done, Done(op, Failed(e)));
    OneReaderOut(q.getq, j);
    MovesOver(DoneOps(q.done), Ops(q.putq), multiset(q.getq[..j] + q.getq[j + 1..]), op);
    assert Delivered(q.done) + [] == Delivered(q.done);
  }

  lemma OneReaderOut(getq: seq<nat>, j: nat)
    requires j < |getq|
    ensures multiset(getq) == multiset(getq[..j] + getq[j + 1..]) + multiset{getq[j]}
  {
    assert getq == getq[..j] + [getq[j]] + getq[j + 1..];
  }

  lemma MovesOver(done: multiset<nat>, o: multiset<nat>, g: multiset<nat>, op: nat)
    ensures done + multiset{op} + o + g == done + o + (g + multiset{op})
  {
  }

  /** A cancelled writer keeps its message; the rest of the line closes up. */
  lemma CancelsWriter(s: State, op: nat, e: Error)
    requires Inv(s) && WriterAt(s.q.putq, op) < |s.q.putq|
    ensures Inv(s.(q := Cancel(s.q, op, e))) && Shortened(s, s.(q := Cancel(s.q, op, e)))
  {
    hide Line, AllOps, Numbers;
    var k := CancelWriter(s.q, op, e);
    CutOut(Line(s.q), k, k + 1);
    assert Line(s.q)[k..k + 1] == [s.q.putq[WriterAt(s.q.putq, op)].msg];
  }

  lemma CancelsOther(s: State, op: nat, e: Error)
    requires Inv(s) && WriterAt(s.q.putq, op) == |s.q.putq|
    ensures Inv(s.(q := Cancel(s.q, op, e))) && Shortened(s, s.(q := Cancel(s.q, op, e)))
  {
    hide Line, AllOps, Numbers;
    if ReaderAt(s.q.getq, op) < |s.q.getq| { CancelReader(s.q, op, e); }
    assert Line(s.q)[..0] + Line(s.q)[0..] == Line(s.q);
  }

  lemma CancelKeeps(s: State, op: nat, e: Error)
    requires Inv(s)
    ensures Inv(Step(s, CancelOp(op, e))) && Shortened(s, Step(s, CancelOp(op, e)))
  {
    hide Inv, Shortened, Cancel, AioPut, AioGet, Close, Resize, TryPut;
    if WriterAt(s.q.putq, op) < |s.q.putq| { CancelsWriter(s, op, e); } else { CancelsOther(s, op, e); }
  }

  // ---- close and resize ----

  lemma {:induction false} CloseReadersStock(q: Queue)
    ensures var p := CloseReaders(q);
            p == q.(getq := [], done := p.done) && AllOps(p) == AllOps(q) && Line(p) == Line(q)
    decreases |q.getq|
  {
    hide Line, AllOps;
    if q.getq != [] {
      var p := Fail(q, q.getq[0], ECLOSED).(getq := q.getq[1..]);
      CloseReader(q);
      CloseReadersStock(p);
    }
  }

  lemma CloseReader(q: Queue)
    requires q.getq != []
    ensures var p := Fail(q, q.getq[0], ECLOSED).(getq := q.getq[1..]);
            AllOps(p) == AllOps(q) && Line(p) == Line(q)
  {
    hide Delivered, DoneOps, Ops, Msgs;
    DoneOne(q.done, Done(q.getq[0], Failed(ECLOSED)));
    HeadOut(q.getq);
    assert Delivered(q.done) + [] == Delivered(q.done);
  }

  lemma CloseWriter(q: Queue)
    requires q.putq != []
    ensures var p := Fail(q, q.putq[0].op, ECLOSED).(putq := q.putq[1..], returned := q.returned + [q.putq[0].msg]);
            AllOps(p) == AllOps(q) && Delivered(p.done) == Delivered(q.done)
  {
    hide Delivered, DoneOps, Msgs;
    DoneOne(q.done, Done(q.putq[0].op, Failed(ECLOSED)));
  }

  lemma {:induction false} CloseWritersStock(q: Queue)
    ensures var p := CloseWriters(q);
            && p == q.(putq := [], done := p.done, returned := q.returned + Msgs(q.putq))
            && AllOps(p) == AllOps(q) && Delivered(p.done) == Delivered(q.done)
    decreases |q.putq|
  {
    hide AllOps, Delivered, Msgs;
    if q.putq != [] {
      var p := Fail(q, q.putq[0].op, ECLOSED).(putq := q.putq[1..], returned := q.returned + [q.putq[0].msg]);
      CloseWriter(q);
      CloseWritersStock(p);
      MsgsSplit(q.putq);
      assert q.returned + [q.putq[0].msg] + Msgs(q.putq[1..]) == q.returned + Msgs(q.putq);
    } else {
      NoMsgs();
      assert q.returned + [] == q.returned;
    }
  }

  lemma NoMsgs()
    ensures Msgs([]) == []
  {
  }

  /** Close fails every blocked operation and frees what was buffered; delivered messages stay delivered. */
  lemma CloseStock(q: Queue)
    ensures var p := Close(q);
            && p.getq == [] && p.putq == [] && p.ring == [] && p.closed
            && p.freed == q.freed + q.ring && p.returned == q.returned + Msgs(q.putq)
            && AllOps(p) == AllOps(q) && Line(p) == Delivered(q.done)
  {
    hide AllOps, Line;
    var r := q.(closed := true, ring := [], freed := q.freed + q.ring);
    CloseReadersStock(r);
    CloseWritersStock(CloseReaders(r));
    ClosedViews(q, r);
    ClosedLines(CloseReaders(r), Close(q), r);
  }

  lemma ClosedViews(q: Queue, r: Queue)
    requires r == q.(closed := true, ring := [], freed := q.freed + q.ring)
    ensures AllOps(r) == AllOps(q)
  {
  }

  lemma ClosedLines(m: Queue, p: Queue, r: Queue)
    requires Line(m) == Line(r) && m.putq == r.putq && m.ring == r.ring == p.ring == []
    requires p.putq == [] && Delivered(p.done) == Delivered(m.done)
    ensures Line(p) == Delivered(r.done)
  {
    hide Delivered, Msgs;
    NoMsgs();
    var d, e, w := Delivered(m.done), Delivered(r.done), Msgs(r.putq);
    assert d + [] + w == e + [] + w;
    assert (d + [] + w)[..|d|] == d && (e + [] + w)[..|e|] == e;
    assert d + [] + [] == d;
  }

  lemma CloseKeeps(s: State)
    requires Inv(s)
    ensures Inv(Step(s, CloseQueue)) && Shortened(s, Step(s, CloseQueue))
  {
    hide AllOps, Delivered, Numbers, Close, AioPut, AioGet, Cancel, Resize, TryPut, Msgs;
    var q, p := s.q, Close(s.q);
    var d := Delivered(q.done);
    CloseStock(q);
    assert Line(q)[..|d|] + Line(q)[|Line(q)|..] == d;
    assert multiset(Line(q)) == multiset(d) + multiset(q.ring) + multiset(Msgs(q.putq));
  }

  lemma CutRing(d: seq<nat>, ring: seq<nat>, w: seq<nat>, n: nat)
    requires n <= |ring|
    ensures var line := d + ring + w;
            && d + ring[n..] + w == line[..|d|] + line[|d| + n..]
            && line[|d|..|d| + n] == ring[..n]
  {
  }

  ghost function Excess(q: Queue, cap: nat): (n: nat)
    ensures n <= |q.ring|
  {
    if |q.ring| > cap + 1 then |q.ring| - (cap + 1) else 0
  }

  lemma ResizeLine(q: Queue, cap: nat)
    ensures var i, n := |Delivered(q.done)|, Excess(q, cap);
            && i + n <= |Line(q)|
            && Line(Resize(q, cap)) == Line(q)[..i] + Line(q)[i + n..]
            && Line(q)[i..i + n] == q.ring[..n]
  {
    hide Delivered, Msgs;
    CutRing(Delivered(q.done), q.ring, Msgs(q.putq), Excess(q, cap));
  }

  lemma ResizeStock(q: Queue, cap: nat) returns (i: nat, j: nat)
    ensures i <= j <= |Line(q)| && Line(Resize(q, cap)) == Line(q)[..i] + Line(q)[j..]
    ensures AllOps(Resize(q, cap)) == AllOps(q) && AllMsgs(Resize(q, cap)) == AllMsgs(q)
  {
    hide AllOps, AllMsgs, Line, Delivered, Excess, Resize;
    i := |Delivered(q.done)|;
    j := i + Excess(q, cap);
    ResizeLine(q, cap);
    ResizeLists(q, cap);
    MoveToFreed(q, Resize(q, cap), i, j);
  }

  lemma ResizeLists(q: Queue, cap: nat)
    ensures AllOps(Resize(q, cap)) == AllOps(q) && Resize(q, cap).returned == q.returned
    ensures Resize(q, cap).freed == q.freed + q.ring[..Excess(q, cap)]
  {
    hide DoneOps, Ops;
  }

  /** A stretch of the line moves to the freed messages. */
  lemma MoveToFreed(q: Queue, p: Queue, i: nat, j: nat)
    requires i <= j <= |Line(q)| && Line(p) == Line(q)[..i] + Line(q)[j..]
    requires p.returned == q.returned && p.freed == q.freed + Line(q)[i..j]
    ensures AllMsgs(p) == AllMsgs(q)
  {
    hide Line;
    CutOut(Line(q), i, j);
    Exchange(multiset(Line(p)), multiset(Line(q)[i..j]), multiset(q.returned), multiset(q.freed));
    assert multiset(p.freed) == multiset(q.freed) + multiset(Line(q)[i..j]);
  }

  lemma Exchange(a: multiset<nat>, x: multiset<nat>, r: multiset<nat>, f: multiset<nat>)
    ensures a + r + (f + x) == a + x + r + f
  {
  }

  lemma ResizeKeeps(s: State, cap: nat, allocOk: bool)
    requires Inv(s)
    ensures Inv(Step(s, SetCap(cap, allocOk))) && Shortened(s, Step(s, SetCap(cap, allocOk)))
  {
    hide AllOps, AllMsgs, Line, Numbers, Close, AioPut, AioGet, Cancel, TryPut;
    var i, j := ResizeStock(s.q, cap);
    assert Line(s.q)[..0] + Line(s.q)[0..] == Line(s.q);
  }

  lemma StepKeeps(s: State, e: Event)
    requires Inv(s)
    ensures Inv(Step(s, e))
    ensures !(e.TryPutMsg? && Overtakes(s.q)) ==> Extended(s, Step(s, e)) || Shortened(s, Step(s, e))
  {
    hide Inv, Step, Extended, Shortened, Overtakes;
    match e {
      case Put(refused) => PutKeeps(s, refused);
      case Get(refused) => GetKeeps(s, refused);
      case TryPutMsg => TryPutKeeps(s);
      case CancelOp(op, error) => CancelKeeps(s, op, error);
      case CloseQueue => CloseKeeps(s);
      case SetCap(cap, allocOk) => ResizeKeeps(s, cap, allocOk);
    }
  }

  lemma EmptyInv(cap: nat)
    ensures Inv(Empty(cap))
  {
  }

  lemma {:induction false} RunKeeps(s: State, es: seq<Event>)
    requires Inv(s)
    ensures Inv(Run(s, es))
    decreases |es|
  {
    hide Inv, Step;
    if es != [] {
      StepKeeps(s, es[0]);
      RunKeeps(Step(s, es[0]), es[1..]);
    }
  }

  /** Operation `x`, if it began, has completed or waits on one list, once; message `x`, if accepted, has one place. */
  ghost predicate Accounted(q: Queue, ops: nat, msgs: nat, x: nat) {
    && DoneOps(q.done)[x] + Ops(q.putq)[x] + multiset(q.getq)[x] == (if x < ops then 1 else 0)
    && multiset(Delivered(q.done))[x] + multiset(q.ring)[x] + multiset(Msgs(q.putq))[x]
       + multiset(q.returned)[x] + multiset(q.freed)[x] == (if x < msgs then 1 else 0)
  }

  /**
   Over every run: a blocked reader means an empty buffer and no blocked writer; each operation that began has
   completed or waits on exactly one list, once; and each accepted message is delivered, buffered, on its
   blocked writer's aio, left with its failed writer, or freed, once.
   */
  lemma EveryRun(cap: nat, es: seq<Event>, x: nat)
    ensures var s := Run(Empty(cap), es);
            Settled(s.q) && Accounted(s.q, s.ops, s.msgs, x)
  {
    hide Run, Delivered, DoneOps, Ops, Msgs, Numbers;
    var s := Run(Empty(cap), es);
    EmptyInv(cap);
    RunKeeps(Empty(cap), es);
    NumbersOnce(s.ops, x);
    NumbersOnce(s.msgs, x);
  }

  // ---- first in, first out ----

  ghost predicate Increasing(a: seq<nat>) {
    forall i, j :: 0 <= i < j < |a| ==> a[i] < a[j]
  }

  /** Delivered and waiting messages are in submission order. */
  ghost predicate InOrder(s: State) {
    Increasing(Line(s.q)) && forall i :: 0 <= i < |Line(s.q)| ==> Line(s.q)[i] < s.msgs
  }

  lemma ExtendedInOrder(s: State, t: State)
    requires InOrder(s) && Extended(s, t) && s.msgs <= t.msgs
    ensures InOrder(t)
  {
    hide Line;
  }

  lemma ShortenedInOrder(s: State, t: State)
    requires InOrder(s) && Shortened(s, t)
    ensures InOrder(t)
  {
    hide Line;
  }

  /** No try-put in the run overtakes a blocked writer. */
  ghost predicate Patient(s: State, es: seq<Event>)
    decreases |es|
  {
    es == [] || (!(es[0].TryPutMsg? && Overtakes(s.q)) && Patient(Step(s, es[0]), es[1..]))
  }

  lemma StepCounts(s: State, e: Event)
    ensures s.msgs <= Step(s, e).msgs
  {
  }

  lemma {:induction false} PatientRunInOrder(s: State, es: seq<Event>)
    requires Inv(s) && InOrder(s) && Patient(s, es)
    ensures InOrder(Run(s, es))
    decreases |es|
  {
    hide Inv, Step, InOrder, Extended, Shortened, Overtakes;
    if es != [] {
      var t := Step(s, es[0]);
      StepKeeps(s, es[0]);
      StepCounts(s, es[0]);
      if Extended(s, t) { ExtendedInOrder(s, t); } else { ShortenedInOrder(s, t); }
      PatientRunInOrder(t, es[1..]);
    }
  }

  /** In a run without overtaking, messages are received in the order they were submitted. */
  lemma FirstInFirstOut(cap: nat, es: seq<Event>)
    requires Patient(Empty(cap), es)
    ensures Increasing(Delivered(Run(Empty(cap), es).q.done))
    ensures Increasing(Line(Run(Empty(cap), es).q))
  {
    EmptyInv(cap);
    EmptyInOrder(cap);
    PatientRunInOrder(Empty(cap), es);
    var q := Run(Empty(cap), es).q;
    assert Delivered(q.done) == Line(q)[..|Delivered(q.done)|];
  }

  lemma InsertedBreaks(line: seq<nat>, n: nat, x: nat)
    requires n < |line| && line[n] < x
    ensures !Increasing(line[..n] + [x] + line[n..])
  {
    var t := line[..n] + [x] + line[n..];
    assert t[n] == x && t[n + 1] == line[n];
  }

  /** A try-put keeps the order exactly when it does not enter the buffer ahead of a blocked writer. */
  lemma TryPutOrderIff(s: State)
    requires Inv(s) && InOrder(s)
    ensures InOrder(Step(s, TryPutMsg)) <==> !Overtakes(s.q)
  {
    hide Inv, Line, AllOps, Increasing, Delivered, AioPut, AioGet, Cancel, Close, Resize, Extended;
    TryPutKeeps(s);
    if Overtakes(s.q) {
      TryPutRing(s.q, s.msgs);
      InsertedBreaks(Line(s.q), |Delivered(s.q.done) + s.q.ring|, s.msgs);
    } else {
      ExtendedInOrder(s, Step(s, TryPutMsg));
    }
  }

  lemma {:induction false} RunAppend(s: State, es: seq<Event>, e: Event)
    ensures Run(s, es + [e]) == Step(Run(s, es), e)
    decreases |es|
  {
    hide Step;
    if es == [] {
      assert [] + [e] == [e] && [e][1..] == [];
    } else {
      assert (es + [e])[1..] == es[1..] + [e];
      RunAppend(Step(s, es[0]), es[1..], e);
    }
  }

  /** What the example looks at. */
  ghost predicate Looks(s: State, ring: seq<nat>, putq: seq<Writer>, ops: nat, msgs: nat) {
    && s.q.cap == 1 && !s.q.closed && s.q.ring == ring && s.q.putq == putq && s.q.getq == []
    && s.ops == ops && s.msgs == msgs
  }

  lemma {:induction false} StaysOpen(q: Queue)
    ensures RunPutq(q).closed == q.closed
    decreases |q.putq|
  {
    if q.putq != [] {
      if q.getq != [] {
        StaysOpen(PutToReader(q));
      } else if |q.ring| < q.cap {
        StaysOpen(PutToRing(q));
      }
    }
  }

  lemma PutLooks(s: State, ring: seq<nat>, putq: seq<Writer>, ops: nat, msgs: nat, refused: Option<Error>)
    requires Looks(s, ring, putq, ops, msgs) && (refused.None? || |ring| < 1)
    ensures var all := putq + [Writer(ops, msgs)];
            var k := if |ring| < 1 then 1 else 0;
            Looks(Step(s, Put(refused)), ring + Msgs(all[..k]), all[k..], ops + 1, msgs + 1)
  {
    hide RunPutq, RunGetq, AioGet, TryPut, Cancel, Close, Resize, Msgs;
    RunPutqFills(s.q.(putq := putq + [Writer(ops, msgs)]));
    StaysOpen(s.q.(putq := putq + [Writer(ops, msgs)]));
  }

  lemma GetLooks(s: State, m: nat, putq: seq<Writer>, ops: nat, msgs: nat)
    requires Looks(s, [m], putq, ops, msgs)
    ensures Looks(Step(s, Get(None)), [], putq, ops + 1, msgs)
  {
    var p := s.q.(getq := s.q.getq + [ops]);
    assert RunGetq(p) == RunGetq(GetFromRing(p)) == GetFromRing(p);
  }

  /** Two puts and a get on a queue of capacity one: the ring has room, and the second writer still waits. */
  lemma WriterWaits()
    ensures var es := [Put(None)] + [Put(None)] + [Get(None)];
            Looks(Run(Empty(1), es), [], [Writer(1, 1)], 3, 2)
  {
    hide Step;
    var e1, e2 := [Put(None)], [Put(None)] + [Put(None)];
    var s0 := Empty(1);
    assert [] + [Put(None)] == e1;
    RunAppend(s0, [], Put(None));
    PutLooks(s0, [], [], 0, 0, None);
    var s1 := Run(s0, e1);
    assert Looks(s1, [0], [], 1, 1);
    RunAppend(s0, e1, Put(None));
    PutLooks(s1, [0], [], 1, 1, None);
    var s2 := Run(s0, e2);
    assert Looks(s2, [0], [Writer(1, 1)], 2, 2);
    RunAppend(s0, e2, Get(None));
    GetLooks(s2, 0, [Writer(1, 1)], 2, 2);
  }

  /** A reachable case: a put refused a place to wait is left waiting behind an earlier writer. */
  lemma RefusedPutStuck()
    ensures var s := Run(Empty(1), [Put(None)] + [Put(None)] + [Get(None)] + [Put(Some(ETIMEDOUT))]);
            s.q.putq == [Writer(3, 2)]
  {
    hide Step;
    var es := [Put(None)] + [Put(None)] + [Get(None)];
    WriterWaits();
    RunAppend(Empty(1), es, Put(Some(ETIMEDOUT)));
    PutLooks(Run(Empty(1), es), [], [Writer(1, 1)], 3, 2, Some(ETIMEDOUT));
  }

  lemma EmptyInOrder(cap: nat)
    ensures InOrder(Empty(cap))
  {
    assert Line(Empty(cap).q) == [];
  }

  lemma {:induction false} NoTryPutIsPatient(s: State, es: seq<Event>)
    requires forall i :: 0 <= i < |es| ==> !es[i].TryPutMsg?
    ensures Patient(s, es)
    decreases |es|
  {
    hide Step;
    if es != [] { NoTryPutIsPatient(Step(s, es[0]), es[1..]); }
  }

  /** A reachable case: a try-put overtakes that writer. */
  lemma TryPutOvertakes()
    ensures var es := [Put(None)] + [Put(None)] + [Get(None)];
            Overtakes(Run(Empty(1), es).q) && !InOrder(Run(Empty(1), es + [TryPutMsg]))
  {
    hide Step, Run, Inv, InOrder;
    var es := [Put(None)] + [Put(None)] + [Get(None)];
    WriterWaits();
    EmptyInv(1);
    EmptyInOrder(1);
    RunKeeps(Empty(1), es);
    NoTryPutIsPatient(Empty(1), es);
    PatientRunInOrder(Empty(1), es);
    RunAppend(Empty(1), es, TryPutMsg);
    TryPutOrderIff(Run(Empty(1), es));
  }
}
