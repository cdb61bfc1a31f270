/**
 Where the ring of a message queue starts in its array (msgqueue.c), over a run, and which runs keep that index inside
 the array: the loop of nni_msgq_resize that drops messages wraps it one step too late.
 */
module MsgqIndex {
  import opened Wrappers
  import opened MsgqSpec
  import opened MsgqRuns

  /** mq_get and mq_alloc */
  datatype Pos = Pos(get: nat, alloc: nat)

  ghost predicate PosOk(s: State, p: Pos) {
    p.alloc == s.alloc && s.q.cap + 2 <= p.alloc && |s.q.ring| <= s.q.cap + 1 && p.get < p.alloc
  }

  /** The index `n` messages further on. */
  ghost function Advance(p: Pos, n: nat): Pos {
    p.(get := if p.get + n < p.alloc then p.get + n else p.get + n - p.alloc)
  }

  lemma AdvanceMore(p: Pos, n: nat)
    requires p.get < p.alloc && n < p.alloc
    ensures Advance(p, 0) == p && Advance(Advance(p, n), 1) == Advance(p, n + 1)
  {
  }

  /** What the event does to the index: messages that leave the ring leave at its front. */
  ghost function PosStep(s: State, p: Pos, e: Event): Pos {
    var n := |s.q.ring| - |Step(s, e).q.ring|;
    if e.SetCap? then
      if e.cap + 2 <= s.alloc then p.(get := p.get + Excess(s.q, e.cap))
      else if e.allocOk then Pos(0, e.cap + 2)
      else p
    else if n > 0 then Advance(p, n) else p
  }

  /** The event does not drop messages up to the end of the array. */
  ghost predicate StaysIn(s: State, p: Pos, e: Event) {
    e.SetCap? && Excess(s.q, e.cap) > 0 ==> p.get + Excess(s.q, e.cap) < p.alloc
  }

  ghost predicate InBounds(s: State, p: Pos, es: seq<Event>)
    decreases |es|
  {
    es == [] || (StaysIn(s, p, es[0]) && InBounds(Step(s, es[0]), PosStep(s, p, es[0]), es[1..]))
  }

  ghost function Start(cap: nat): Pos {
    Pos(0, cap + 2)
  }

  // ---- the index while messages are dropped ----

  /** The ring index after the source has dropped `n` messages: it wraps one step too late. */
  function DropIndex(get: nat, n: nat, alloc: nat): nat {
    if n == 0 then get
    else
      var g := DropIndex(get, n - 1, alloc) + 1;
      if g > alloc then 0 else g
  }

  lemma {:induction false} DropIndexAt(get: nat, n: nat, alloc: nat)
    requires get < alloc && get + n <= alloc
    ensures DropIndex(get, n, alloc) == get + n
  {
    if n > 0 { DropIndexAt(get, n - 1, alloc); }
  }

  /** Every index used while dropping, and the final one, is inside the array exactly when none reaches its end. */
  lemma DropIndexIff(get: nat, n: nat, alloc: nat)
    requires get < alloc && n <= alloc
    ensures (forall i: nat :: i <= n ==> DropIndex(get, i, alloc) < alloc) <==> get + n < alloc
  {
    if get + n < alloc {
      forall i: nat | i <= n ensures DropIndex(get, i, alloc) < alloc { DropIndexAt(get, i, alloc); }
    } else {
      DropIndexAt(get, alloc - get, alloc);
      assert alloc - get <= n;
    }
  }

  // ---- what the events do to the ring ----

  lemma {:induction false} PutRing(q: Queue)
    ensures |RunPutq(q).ring| >= |q.ring| && RunPutq(q).cap == q.cap
    ensures |RunPutq(q).ring| == |q.ring| || |RunPutq(q).ring| <= q.cap
    decreases |q.putq|
  {
    if q.putq != [] {
      if q.getq != [] {
        PutRing(PutToReader(q));
      } else if |q.ring| < q.cap {
        PutRing(PutToRing(q));
      }
    }
  }

  lemma {:induction false} GetRing(q: Queue)
    ensures |RunGetq(q).ring| <= |q.ring| && RunGetq(q).cap == q.cap
    decreases |q.getq|
  {
    if q.getq != [] {
      if q.ring != [] {
        GetRing(GetFromRing(q));
      } else if q.putq != [] {
        GetRing(GetFromWriter(q));
      }
    }
  }

  lemma {:induction false} CloseReadersRing(q: Queue)
    ensures CloseReaders(q).ring == q.ring && CloseReaders(q).cap == q.cap
    decreases |q.getq|
  {
    if q.getq != [] { CloseReadersRing(Fail(q, q.getq[0], ECLOSED).(getq := q.getq[1..])); }
  }

  lemma {:induction false} CloseWritersRing(q: Queue)
    ensures CloseWriters(q).ring == q.ring && CloseWriters(q).cap == q.cap
    decreases |q.putq|
  {
    if q.putq != [] {
      CloseWritersRing(Fail(q, q.putq[0].op, ECLOSED).(putq := q.putq[1..], returned := q.returned + [q.putq[0].msg]));
    }
  }

  lemma CloseRing(q: Queue)
    ensures Close(q).ring == [] && Close(q).cap == q.cap
  {
    hide CloseReaders, CloseWriters;
    var p := q.(closed := true, ring := [], freed := q.freed + q.ring);
    CloseReadersRing(p);
    CloseWritersRing(CloseReaders(p));
  }

  /** In bounds, an event leaves the index inside the array and the ring within it. */
  lemma PosKept(s: State, p: Pos, e: Event)
    requires PosOk(s, p) && StaysIn(s, p, e)
    ensures PosOk(Step(s, e), PosStep(s, p, e))
  {
    hide RunPutq, RunGetq, Close;
    match e
    case Put(_) => PutRing(s.q.(putq := s.q.putq + [Writer(s.ops, s.msgs)]));
    case Get(_) => GetRing(s.q.(getq := s.q.getq + [s.ops]));
    case CloseQueue => CloseRing(s.q);
    case _ =>
  }

  // ---- a run that leaves the array ----

  /** A queue of capacity three: `n` messages from index `g` on, nobody waiting. */
  ghost predicate Shape(s: State, p: Pos, n: nat, g: nat) {
    s.q.cap == 3 && |s.q.ring| == n && s.q.putq == [] && s.q.getq == [] && p == Pos(g, 5)
  }

  lemma PutShape(s: State, p: Pos, n: nat, g: nat)
    requires Shape(s, p, n, g) && n < 3
    ensures Shape(Step(s, Put(None)), PosStep(s, p, Put(None)), n + 1, g)
  {
    hide RunGetq, AioGet, TryPut, Cancel, Close;
    var q := s.q.(putq := s.q.putq + [Writer(s.ops, s.msgs)]);
    assert RunPutq(q) == RunPutq(PutToRing(q)) == PutToRing(q);
  }

  lemma GetShape(s: State, p: Pos, n: nat, g: nat)
    requires Shape(s, p, n, g) && n > 0 && g < 4
    ensures Shape(Step(s, Get(None)), PosStep(s, p, Get(None)), n - 1, g + 1)
  {
    hide RunPutq, AioPut, TryPut, Cancel, Close;
    var q := s.q.(getq := s.q.getq + [s.ops]);
    assert RunGetq(q) == RunGetq(GetFromRing(q)) == GetFromRing(q);
  }

  lemma Leaves(s: State, p: Pos, es: seq<Event>)
    requires es != [] && !StaysIn(s, p, es[0])
    ensures !InBounds(s, p, es)
  {
  }

  lemma Earlier(s: State, p: Pos, e: Event, es: seq<Event>) returns (all: seq<Event>)
    requires !InBounds(Step(s, e), PosStep(s, p, e), es)
    ensures all == [e] + es && !InBounds(s, p, all)
  {
    hide Step, PosStep;
    all := [e] + es;
    assert all[1..] == es;
  }

  /**
   A queue of capacity three, four messages put and taken, three more put, then shrunk to capacity one: the array has
   five cells, the ring starts in the last, and dropping one message takes the index out.
   */
  lemma ResizeEscapes() returns (es: seq<Event>)
    ensures !InBounds(Empty(3), Start(3), es) && forall i :: 0 <= i < |es| - 1 ==> !es[i].SetCap?
  {
    hide Step, PosStep, InBounds;
    var put, get := Put(None), Get(None);
    var s0, p0 := Empty(3), Start(3);
    PutShape(s0, p0, 0, 0);
    var s1, p1 := Step(s0, put), PosStep(s0, p0, put);
    GetShape(s1, p1, 1, 0);
    var s2, p2 := Step(s1, get), PosStep(s1, p1, get);
    PutShape(s2, p2, 0, 1);
    var s3, p3 := Step(s2, put), PosStep(s2, p2, put);
    GetShape(s3, p3, 1, 1);
    var s4, p4 := Step(s3, get), PosStep(s3, p3, get);
    PutShape(s4, p4, 0, 2);
    var s5, p5 := Step(s4, put), PosStep(s4, p4, put);
    GetShape(s5, p5, 1, 2);
    var s6, p6 := Step(s5, get), PosStep(s5, p5, get);
    PutShape(s6, p6, 0, 3);
    var s7, p7 := Step(s6, put), PosStep(s6, p6, put);
    GetShape(s7, p7, 1, 3);
    var s8, p8 := Step(s7, get), PosStep(s7, p7, get);
    PutShape(s8, p8, 0, 4);
    var s9, p9 := Step(s8, put), PosStep(s8, p8, put);
    PutShape(s9, p9, 1, 4);
    var s10, p10 := Step(s9, put), PosStep(s9, p9, put);
    PutShape(s10, p10, 2, 4);
    var s11, p11 := Step(s10, put), PosStep(s10, p10, put);
    Leaves(s11, p11, [SetCap(1, true)]);
    es := [SetCap(1, true)];
    es := Earlier(s10, p10, put, es);
    es := Earlier(s9, p9, put, es);
    es := Earlier(s8, p8, put, es);
    es := Earlier(s7, p7, get, es);
    es := Earlier(s6, p6, put, es);
    es := Earlier(s5, p5, get, es);
    es := Earlier(s4, p4, put, es);
    es := Earlier(s3, p3, get, es);
    es := Earlier(s2, p2, put, es);
    es := Earlier(s1, p1, get, es);
    es := Earlier(s0, p0, put, es);
  }
}
