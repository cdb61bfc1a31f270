/**
 The rendezvous message queue (msgqueue.c) as a value: the buffered messages, the blocked writers and
 readers, and a log of completions. Operations and messages are named by numbers.
 */
module MsgqSpec {
  import opened Wrappers

  /** A blocked writer: its operation, and the message still on its aio. */
  datatype Writer = Writer(op: nat, msg: nat)

  datatype Outcome = Sent | Received(msg: nat) | Failed(error: Error)
  datatype Done = Done(op: nat, outcome: Outcome)

  datatype Queue = Queue(
    cap: nat,
    ring: seq<nat>,
    closed: bool,
    putq: seq<Writer>,
    getq: seq<nat>,
    done: seq<Done>,      // completions, in order
    returned: seq<nat>,   // messages left on the aio of a writer that failed
    freed: seq<nat>)      // messages freed by close and by a shrinking resize

  // ---- nni_msgq_run_putq ----

  ghost function PutToReader(q: Queue): Queue
    requires q.putq != [] && q.getq != []
  {
    q.(putq := q.putq[1..], getq := q.getq[1..],
       done := q.done + [Done(q.getq[0], Received(q.putq[0].msg)), Done(q.putq[0].op, Sent)])
  }

  ghost function PutToRing(q: Queue): Queue
    requires q.putq != []
  {
    q.(putq := q.putq[1..], ring := q.ring + [q.putq[0].msg], done := q.done + [Done(q.putq[0].op, Sent)])
  }

  ghost function RunPutq(q: Queue): Queue
    decreases |q.putq|
  {
    if q.putq == [] then q
    else if q.getq != [] then RunPutq(PutToReader(q))
    else if |q.ring| < q.cap then RunPutq(PutToRing(q))
    else q
  }

  // ---- nni_msgq_run_getq ----

  ghost function GetFromRing(q: Queue): Queue
    requires q.getq != [] && q.ring != []
  {
    q.(getq := q.getq[1..], ring := q.ring[1..], done := q.done + [Done(q.getq[0], Received(q.ring[0]))])
  }

  ghost function GetFromWriter(q: Queue): Queue
    requires q.getq != [] && q.putq != []
  {
    q.(putq := q.putq[1..], getq := q.getq[1..],
       done := q.done + [Done(q.putq[0].op, Sent), Done(q.getq[0], Received(q.putq[0].msg))])
  }

  ghost function RunGetq(q: Queue): Queue
    decreases |q.getq|
  {
    if q.getq == [] then q
    else if q.ring != [] then RunGetq(GetFromRing(q))
    else if q.putq != [] then RunGetq(GetFromWriter(q))
    else q
  }

  // ---- the operations ----

  ghost function Fail(q: Queue, op: nat, e: Error): Queue {
    q.(done := q.done + [Done(op, Failed(e))])
  }

  /** nni_msgq_aio_put; `refused` is the error nni_aio_schedule returned, if any. */
  ghost function AioPut(q: Queue, w: Writer, refused: Option<Error>): Queue {
    if refused.Some? && |q.ring| >= q.cap && q.getq == [] then
      Fail(q, w.op, refused.value).(returned := q.returned + [w.msg])
    else
      RunPutq(q.(putq := q.putq + [w]))
  }

  /** nni_msgq_aio_get */
  ghost function AioGet(q: Queue, op: nat, refused: Option<Error>): Queue {
    if refused.Some? && q.ring == [] && q.putq == [] then Fail(q, op, refused.value)
    else RunGetq(q.(getq := q.getq + [op]))
  }

  /** nni_msgq_tryput */
  ghost function TryPut(q: Queue, msg: nat): (Queue, Option<Error>) {
    if q.closed then (q, Some(ECLOSED))
    else if q.getq != [] then
      (q.(getq := q.getq[1..], done := q.done + [Done(q.getq[0], Received(msg))]), None)
    else if |q.ring| < q.cap then (q.(ring := q.ring + [msg]), None)
    else (q, Some(EAGAIN))
  }

  /** The position of an operation on a wait list, or the list's length. */
  function WriterAt(putq: seq<Writer>, op: nat): (i: nat)
    ensures i <= |putq| && (i < |putq| ==> putq[i].op == op)
    ensures i == |putq| <==> forall j :: 0 <= j < |putq| ==> putq[j].op != op
  {
    if putq == [] then 0 else if putq[0].op == op then 0 else 1 + WriterAt(putq[1..], op)
  }

  function ReaderAt(getq: seq<nat>, op: nat): (i: nat)
    ensures i <= |getq| && (i < |getq| ==> getq[i] == op)
    ensures i == |getq| <==> op !in getq
  {
    if getq == [] then 0 else if getq[0] == op then 0 else 1 + ReaderAt(getq[1..], op)
  }

  /** nni_msgq_cancel: the operation leaves whichever list it is on. */
  ghost function Cancel(q: Queue, op: nat, e: Error): Queue {
    var i := WriterAt(q.putq, op);
    var j := ReaderAt(q.getq, op);
    if i < |q.putq| then
      Fail(q, op, e).(putq := q.putq[..i] + q.putq[i + 1..], returned := q.returned + [q.putq[i].msg])
    else if j < |q.getq| then
      Fail(q, op, e).(getq := q.getq[..j] + q.getq[j + 1..])
    else q
  }

  ghost function CloseReaders(q: Queue): Queue
    decreases |q.getq|
  {
    if q.getq == [] then q
    else CloseReaders(Fail(q, q.getq[0], ECLOSED).(getq := q.getq[1..]))
  }

  ghost function CloseWriters(q: Queue): Queue
    decreases |q.putq|
  {
    if q.putq == [] then q
    else CloseWriters(Fail(q, q.putq[0].op, ECLOSED).(putq := q.putq[1..], returned := q.returned + [q.putq[0].msg]))
  }

  /** nni_msgq_close */
  ghost function Close(q: Queue): Queue {
    CloseWriters(CloseReaders(q.(closed := true, ring := [], freed := q.freed + q.ring)))
  }

  /** nni_msgq_resize: the oldest messages beyond cap + 1 are dropped. */
  ghost function Resize(q: Queue, cap: nat): Queue {
    var n := if |q.ring| > cap + 1 then |q.ring| - (cap + 1) else 0;
    q.(cap := cap, ring := q.ring[n..], freed := q.freed + q.ring[..n])
  }

  // ---- what a blocked reader means ----

  /** A blocked reader means an empty buffer and no blocked writer. */
  ghost predicate Settled(q: Queue) {
    q.getq != [] ==> q.ring == [] && q.putq == []
  }

  lemma {:induction false} RunPutqSettles(q: Queue)
    requires |q.getq| > 0 ==> q.ring == [] && |q.putq| <= 1
    ensures Settled(RunPutq(q))
    ensures RunPutq(q).putq != [] ==> RunPutq(q).getq == [] && |RunPutq(q).ring| >= RunPutq(q).cap
    decreases |q.putq|
  {
    if q.putq != [] {
      if q.getq != [] {
        RunPutqSettles(PutToReader(q));
      } else if |q.ring| < q.cap {
        RunPutqSettles(PutToRing(q));
      }
    }
  }

  lemma {:induction false} RunGetqSettles(q: Queue)
    ensures Settled(RunGetq(q))
    decreases |q.getq|
  {
    if q.getq != [] {
      if q.ring != [] {
        RunGetqSettles(GetFromRing(q));
      } else if q.putq != [] {
        RunGetqSettles(GetFromWriter(q));
      }
    }
  }

  /** The first writer and the next `k` enter the buffer one after the other. */
  lemma OneMore(putq: seq<Writer>, ring: seq<nat>, k: nat)
    requires k < |putq|
    ensures putq[1..][k..] == putq[k + 1..]
    ensures ring + [putq[0].msg] + Msgs(putq[1..][..k]) == ring + Msgs(putq[..k + 1])
  {
    assert Msgs(putq[..k + 1]) == [putq[0].msg] + Msgs(putq[1..][..k]);
  }

  /** With no reader blocked, the run moves writers into the buffer until it is full. */
  lemma {:induction false} RunPutqFills(q: Queue)
    requires q.getq == []
    ensures var room := if |q.ring| < q.cap then q.cap - |q.ring| else 0;
            var k := if |q.putq| < room then |q.putq| else room;
            && RunPutq(q).putq == q.putq[k..]
            && RunPutq(q).ring == q.ring + Msgs(q.putq[..k])
            && RunPutq(q).getq == [] && RunPutq(q).cap == q.cap
    decreases |q.putq|
  {
    hide Msgs;
    if q.putq != [] && |q.ring| < q.cap {
      var p := PutToRing(q);
      RunPutqFills(p);
      var room := p.cap - |p.ring|;
      OneMore(q.putq, q.ring, if |p.putq| < room then |p.putq| else room);
    } else {
      assert q.putq[0..] == q.putq;
      assert q.ring + Msgs(q.putq[..0]) == q.ring;
    }
  }

  ghost function Msgs(putq: seq<Writer>): (r: seq<nat>)
    ensures |r| == |putq| && forall i :: 0 <= i < |r| ==> r[i] == putq[i].msg
  {
    seq(|putq|, i requires 0 <= i < |putq| => putq[i].msg)
  }

  /** A get whose schedule failed completes at once, one way or the other. */
  lemma RefusedGetCompletes(q: Queue, op: nat, e: Error)
    requires Settled(q)
    ensures AioGet(q, op, Some(e)).getq == q.getq
    ensures AioGet(q, op, Some(e)).done ==
              if q.ring != [] then q.done + [Done(op, Received(q.ring[0]))]
              else if q.putq != [] then q.done + [Done(q.putq[0].op, Sent), Done(op, Received(q.putq[0].msg))]
              else q.done + [Done(op, Failed(e))]
  {
    if q.ring != [] || q.putq != [] {
      var p := q.(getq := q.getq + [op]);
      assert p.getq == [op];
      var r := if q.ring != [] then GetFromRing(p) else GetFromWriter(p);
      assert r.getq == [];
      assert RunGetq(p) == RunGetq(r) == r;
    }
  }

  /** A put whose schedule failed is left waiting exactly when earlier writers take all the room there is. */
  lemma RefusedPutStuckIff(q: Queue, w: Writer, e: Error)
    requires Settled(q)
    requires forall i :: 0 <= i < |q.putq| ==> q.putq[i].op != w.op
    ensures (exists v :: v in AioPut(q, w, Some(e)).putq && v.op == w.op)
       <==> (q.getq == [] && |q.ring| < q.cap <= |q.ring| + |q.putq|)
  {
    var p := q.(putq := q.putq + [w]);
    var r := AioPut(q, w, Some(e));
    if q.getq == [] && |q.ring| >= q.cap {
    } else if q.getq != [] {
      assert p.putq == [w];
      assert RunPutq(PutToReader(p)).putq == [];
    } else {
      RunPutqFills(p);
      var room := q.cap - |q.ring|;
      if |q.putq| < room {
        assert r.putq == [];
      } else {
        assert r.putq[|r.putq| - 1] == w;
      }
    }
  }
}
