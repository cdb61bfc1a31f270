/** The message queue object (msgqueue.c): a ring buffer and two lists of blocked operations. */
module Msgq {
  import opened Wrappers
  import opened MsgqSpec
  import opened MsgqIndex
  import MsgqRuns
  import MsgqOutcomes

  /** `len` entries of a ring of size |a|, from position `get` on. */
  ghost function Window(a: seq<nat>, get: nat, len: nat): (w: seq<nat>)
    requires get < |a| && len <= |a|
    ensures |w| == len
  {
    if get + len <= |a| then a[get..get + len] else a[get..] + a[..get + len - |a|]
  }

  ghost function Wrap(i: nat, alloc: nat): nat {
    if i < alloc then i else i - alloc
  }

  lemma WindowAt(a: seq<nat>, get: nat, len: nat, i: nat)
    requires get < |a| && len <= |a| && i < len
    ensures Window(a, get, len)[i] == a[Wrap(get + i, |a|)]
  {
  }

  lemma WindowPush(a: seq<nat>, get: nat, len: nat, x: nat)
    requires get < |a| && len < |a|
    ensures Window(a[Wrap(get + len, |a|) := x], get, len + 1) == Window(a, get, len) + [x]
  {
  }

  lemma WindowPop(a: seq<nat>, get: nat, len: nat)
    requires get < |a| && 0 < len <= |a|
    ensures Window(a, Wrap(get + 1, |a|), len - 1) == Window(a, get, len)[1..]
    ensures Window(a, get, len)[0] == a[get]
  {
  }

  /** The queue after its `n` oldest messages have been freed. */
  ghost function Drained(q: MsgqSpec.Queue, n: nat): (p: MsgqSpec.Queue)
    requires n <= |q.ring|
    ensures |p.ring| == |q.ring| - n
  {
    q.(ring := q.ring[n..], freed := q.freed + q.ring[..n])
  }

  lemma DrainedNext(q: MsgqSpec.Queue, n: nat)
    requires n < |q.ring|
    ensures var p := Drained(q, n);
            Drained(q, n + 1) == p.(ring := p.ring[1..], freed := p.freed + [p.ring[0]])
  {
    assert q.ring[n..][1..] == q.ring[n + 1..];
    assert q.ring[..n] + [q.ring[n]] == q.ring[..n + 1];
  }

  lemma DrainedEnds(q: MsgqSpec.Queue)
    ensures Drained(q, 0) == q
    ensures Drained(q, |q.ring|) == q.(ring := [], freed := q.freed + q.ring)
  {
    assert q.ring[..|q.ring|] == q.ring;
  }

  lemma DroppedIsResized(q: MsgqSpec.Queue, n: nat, cap: nat)
    requires n <= |q.ring| && |q.ring| - n <= cap + 1 && (n > 0 ==> |q.ring| - n >= cap + 1)
    ensures Drained(q, n) == MsgqSpec.Resize(q, cap).(cap := q.cap)
  {
  }

  /** How a resize ends: Escaped when its index has left the array. */
  datatype Outcome = Resized | NoMemory | Escaped

  // What closing does to the first blocked operation.

  lemma OneReader(q: MsgqSpec.Queue)
    requires q.getq != []
    ensures CloseReaders(q) == CloseReaders(Fail(q, q.getq[0], ECLOSED).(getq := q.getq[1..]))
  {
  }

  lemma OneWriter(q: MsgqSpec.Queue)
    requires q.getq == [] && q.putq != []
    ensures var p := Fail(q, q.putq[0].op, ECLOSED).(putq := q.putq[1..], returned := q.returned + [q.putq[0].msg]);
            CloseWriters(CloseReaders(q)) == CloseWriters(CloseReaders(p))
  {
  }

  lemma NoneLeft(q: MsgqSpec.Queue)
    requires q.getq == [] && q.putq == []
    ensures CloseWriters(CloseReaders(q)) == q
  {
  }

  class Queue {
    var cap: nat
    var len: nat
    var get: nat
    var put: nat
    var closed: bool
    var msgs: array<nat>
    var putq: seq<Writer>
    var getq: seq<nat>
    ghost var done: seq<Done>
    ghost var returned: seq<nat>
    ghost var freed: seq<nat>

    ghost predicate Valid()
      reads this, msgs
    {
      && cap + 2 <= msgs.Length
      && len <= cap + 1
      && get < msgs.Length
      && put == Wrap(get + len, msgs.Length)
    }

    ghost function Abs(): MsgqSpec.Queue
      requires Valid()
      reads this, msgs
    {
      MsgqSpec.Queue(cap, Window(msgs[..], get, len), closed, putq, getq, done, returned, freed)
    }

    /** Where the ring starts in its array. */
    ghost function Where(): Pos
      reads this
    {
      Pos(get, msgs.Length)
    }

    constructor (cap: nat)
      ensures Valid() && fresh(msgs) && Where() == Start(cap)
      ensures Abs() == MsgqSpec.Queue(cap, [], false, [], [], [], [], [])
    {
      this.cap, len, get, put, closed := cap, 0, 0, 0, false;
      msgs := new nat[cap + 2];
      putq, getq := [], [];
      done, returned, freed := [], [], [];
    }

    /** Append to the ring. */
    method Push(msg: nat)
      requires Valid() && len < cap
      modifies this`put, this`len, msgs
      ensures Valid()
      ensures Abs() == old(Abs()).(ring := old(Abs()).ring + [msg])
    {
      WindowPush(msgs[..], get, len, msg);
      msgs[put] := msg;
      put := put + 1;
      if put == msgs.Length { put := 0; }
      len := len + 1;
    }

    /** Take the oldest message off the ring. */
    method Pop() returns (msg: nat)
      requires Valid() && len > 0
      modifies this`get, this`len
      ensures Valid() && Where() == Advance(old(Where()), 1)
      ensures msg == old(Abs()).ring[0]
      ensures Abs() == old(Abs()).(ring := old(Abs()).ring[1..])
    {
      WindowPop(msgs[..], get, len);
      msg := msgs[get];
      get := get + 1;
      if get == msgs.Length { get := 0; }
      len := len - 1;
    }

    /** nni_msgq_run_putq */
    method RunPutq()
      requires Valid()
      modifies this`putq, this`getq, this`done, this`put, this`len, msgs
      ensures Valid() && Abs() == MsgqSpec.RunPutq(old(Abs()))
    {
      hide Window, Wrap;
      while putq != []
        invariant Valid()
        invariant MsgqSpec.RunPutq(Abs()) == MsgqSpec.RunPutq(old(Abs()))
        invariant cap == old(cap) && get == old(get) && msgs == old(msgs)
        decreases |putq|
      {
        var w := putq[0];
        if getq != [] {
          var r := getq[0];
          putq, getq := putq[1..], getq[1..];
          done := done + [Done(r, Received(w.msg)), Done(w.op, Sent)];
          continue;
        }
        if len < cap {
          ghost var q := Abs();
          putq := putq[1..];
          Push(w.msg);
          done := done + [Done(w.op, Sent)];
          assert Abs() == PutToRing(q);
          continue;
        }
        break;
      }
    }

    /** The first waiting reader gets the oldest message. */
    method ServeFromRing()
      requires Valid() && len > 0 && getq != []
      modifies this`getq, this`done, this`get, this`len
      ensures Valid() && Abs() == GetFromRing(old(Abs()))
      ensures len == old(len) - 1 && getq == old(getq)[1..] && Where() == Advance(old(Where()), 1)
    {
      hide Window, Wrap, Advance;
      var r := getq[0];
      var msg := Pop();
      getq := getq[1..];
      done := done + [Done(r, Received(msg))];
    }

    /** nni_msgq_run_getq */
    method RunGetq()
      requires Valid()
      modifies this`putq, this`getq, this`done, this`get, this`len
      ensures Valid() && Abs() == MsgqSpec.RunGetq(old(Abs()))
      ensures len <= old(len) && Where() == Advance(old(Where()), old(len) - len)
    {
      hide Window, Wrap, Advance;
      AdvanceMore(Where(), 0);
      while getq != []
        invariant Valid() && cap == old(cap)
        invariant len <= old(len) && Where() == Advance(old(Where()), old(len) - len)
        invariant MsgqSpec.RunGetq(Abs()) == MsgqSpec.RunGetq(old(Abs()))
        decreases |getq|
      {
        var r := getq[0];
        if len != 0 {
          AdvanceMore(old(Where()), old(len) - len);
          ServeFromRing();
          continue;
        }
        if putq != [] {
          var w := putq[0];
          putq := putq[1..];
          getq := getq[1..];
          done := done + [Done(w.op, Sent), Done(r, Received(w.msg))];
          continue;
        }
        break;
      }
    }

    /** nni_msgq_aio_put, after a successful nni_aio_begin */
    method AioPut(w: Writer, refused: Option<Error>)
      requires Valid()
      modifies this`putq, this`getq, this`done, this`returned, this`put, this`len, msgs
      ensures Valid() && Abs() == MsgqSpec.AioPut(old(Abs()), w, refused)
    {
      if refused.Some? && len >= cap && getq == [] {
        done := done + [Done(w.op, Failed(refused.value))];
        returned := returned + [w.msg];
        return;
      }
      putq := putq + [w];
      RunPutq();
    }

    /** nni_msgq_aio_get, after a successful nni_aio_begin */
    method AioGet(op: nat, refused: Option<Error>)
      requires Valid()
      modifies this`putq, this`getq, this`done, this`get, this`len
      ensures Valid() && Abs() == MsgqSpec.AioGet(old(Abs()), op, refused)
      ensures len <= old(len) && Where() == Advance(old(Where()), old(len) - len)
    {
      if refused.Some? && len == 0 && putq == [] {
        done := done + [Done(op, Failed(refused.value))];
        return;
      }
      getq := getq + [op];
      RunGetq();
    }

    /** nni_msgq_tryput */
    method TryPut(msg: nat) returns (r: Option<Error>)
      requires Valid()
      modifies this`getq, this`done, this`put, this`len, msgs
      ensures Valid() && (Abs(), r) == MsgqSpec.TryPut(old(Abs()), msg)
    {
      if closed { return Some(ECLOSED); }
      if getq != [] {
        done := done + [Done(getq[0], Received(msg))];
        getq := getq[1..];
        return None;
      }
      if len < cap {
        Push(msg);
        return None;
      }
      return Some(EAGAIN);
    }

    /** nni_msgq_cancel */
    method Cancel(op: nat, e: Error)
      requires Valid()
      modifies this`putq, this`getq, this`done, this`returned
      ensures Valid() && Abs() == MsgqSpec.Cancel(old(Abs()), op, e)
    {
      hide Window, Wrap;
      var i, j := WriterAt(putq, op), ReaderAt(getq, op);
      if i < |putq| {
        returned := returned + [putq[i].msg];
        putq := putq[..i] + putq[i + 1..];
        done := done + [Done(op, Failed(e))];
      } else if j < |getq| {
        getq := getq[..j] + getq[j + 1..];
        done := done + [Done(op, Failed(e))];
      }
    }

    /** Free the buffered messages. */
    method DrainRing()
      requires Valid()
      modifies this`freed, this`get, this`len
      ensures Valid() && Abs() == old(Abs()).(ring := [], freed := old(Abs()).freed + old(Abs()).ring)
      ensures Where() == Advance(old(Where()), old(len))
    {
      hide Window, Wrap, Drained;
      ghost var q := Abs();
      ghost var n: nat := 0;
      DrainedEnds(q);
      while len > 0
        invariant Valid() && n <= |q.ring| && Abs() == Drained(q, n)
        invariant len == old(len) - n && Where() == Advance(old(Where()), n)
        decreases len
      {
        DrainedNext(q, n);
        var msg := Pop();
        freed := freed + [msg];
        n := n + 1;
      }
    }

    /** Fail every blocked operation, readers first. */
    method FailAll()
      requires Valid()
      modifies this`putq, this`getq, this`done, this`returned
      ensures Valid() && Abs() == CloseWriters(CloseReaders(old(Abs())))
    {
      hide Window, Wrap, CloseReaders, CloseWriters;
      while getq != [] || putq != []
        invariant Valid()
        invariant CloseWriters(CloseReaders(Abs())) == CloseWriters(CloseReaders(old(Abs())))
        decreases |getq| + |putq|
      {
        ghost var q := Abs();
        if getq != [] {
          done := done + [Done(getq[0], Failed(ECLOSED))];
          getq := getq[1..];
          assert Abs() == Fail(q, q.getq[0], ECLOSED).(getq := q.getq[1..]);
          OneReader(q);
        } else {
          done := done + [Done(putq[0].op, Failed(ECLOSED))];
          returned := returned + [putq[0].msg];
          putq := putq[1..];
          ghost var f := Fail(q, q.putq[0].op, ECLOSED);
          assert Abs() == f.(putq := q.putq[1..], returned := q.returned + [q.putq[0].msg]);
          OneWriter(q);
        }
      }
      NoneLeft(Abs());
    }

    /** nni_msgq_close */
    method Close()
      requires Valid()
      modifies this`closed, this`putq, this`getq, this`done, this`returned, this`freed, this`get, this`len
      ensures Valid() && Abs() == MsgqSpec.Close(old(Abs())) && Where() == Advance(old(Where()), old(len))
    {
      hide Window, Wrap, CloseReaders, CloseWriters;
      closed := true;
      DrainRing();
      FailAll();
    }

    /** The new array of a growing resize: the messages copied to its front, in order. */
    method Copied(alloc: nat) returns (a: array<nat>)
      requires Valid() && len < alloc
      ensures fresh(a) && a.Length == alloc && a[..len] == Abs().ring
    {
      a := new nat[alloc];
      ghost var ring := Abs().ring;
      var oldget, n := get, 0;
      while n < len
        invariant n <= len && oldget == Wrap(get + n, msgs.Length)
        invariant fresh(a) && a.Length == alloc && Abs().ring == ring
        invariant forall i :: 0 <= i < n ==> a[i] == ring[i]
      {
        WindowAt(msgs[..], get, len, n);
        a[n] := msgs[oldget];
        oldget := oldget + 1;
        if oldget == msgs.Length { oldget := 0; }
        n := n + 1;
      }
    }

    /**
     nni_msgq_resize. The loop that drops messages tests `get > alloc` where the index wraps at `get == alloc`; the
     model stops at the moment the index leaves the array.
     */
    method Resize(newCap: nat, allocOk: bool) returns (r: Outcome)
      requires Valid()
      modifies this`cap, this`len, this`get, this`put, this`msgs, this`freed
      ensures r.NoMemory? <==> newCap + 2 > old(msgs.Length) && !allocOk
      ensures r.Escaped? <==> old(len) > newCap + 1 && old(get) + (old(len) - (newCap + 1)) >= old(msgs.Length)
      ensures r.Escaped? ==> msgs == old(msgs) && get == msgs.Length
      ensures !r.Escaped? ==> Valid() && (msgs == old(msgs) || fresh(msgs))
      ensures r.NoMemory? ==> Abs() == old(Abs()) && Where() == old(Where())
      ensures r.Resized? ==> Abs() == MsgqSpec.Resize(old(Abs()), newCap)
      ensures r.Resized? ==>
                Where() == if newCap + 2 > old(msgs.Length) then Start(newCap)
                           else Pos(old(get) + (old(len) - len), old(msgs.Length))
    {
      var alloc := newCap + 2;
      if alloc > msgs.Length && !allocOk { return NoMemory; }
      var inside := DropOldest(newCap);
      if !inside { return Escaped; }
      if alloc <= msgs.Length {
        cap := newCap;
        return Resized;
      }
      msgs := Copied(alloc);
      get, put, cap := 0, len, newCap;
      return Resized;
    }

    /** The dropping loop of nni_msgq_resize, up to the point where its index leaves the array. */
    method DropOldest(newCap: nat) returns (inside: bool)
      requires Valid()
      modifies this`get, this`len, this`freed
      ensures inside <==> (old(len) > newCap + 1 ==> old(get) + (old(len) - (newCap + 1)) < msgs.Length)
      ensures inside ==> Valid() && len <= newCap + 1 && len <= old(len) && get == old(get) + (old(len) - len)
      ensures inside ==> Abs() == MsgqSpec.Resize(old(Abs()), newCap).(cap := cap)
      ensures !inside ==> get == msgs.Length
    {
      hide Window, Wrap, Drained;
      ghost var q := Abs();
      ghost var n: nat := 0;
      DrainedEnds(q);
      while len > newCap + 1
        invariant Valid() && n <= |q.ring| && Abs() == Drained(q, n) && get == old(get) + n && len == old(len) - n
        invariant n > 0 ==> len >= newCap + 1
      {
        DropIndexAt(get, 1, msgs.Length);
        if DropIndex(get, 1, msgs.Length) == msgs.Length {
          get := DropIndex(get, 1, msgs.Length);
          return false;
        }
        DrainedNext(q, n);
        var msg := Drop();
        freed := freed + [msg];
        n := n + 1;
      }
      DroppedIsResized(q, n, newCap);
      return true;
    }

    /** One round of that loop. */
    method Drop() returns (msg: nat)
      requires Valid() && len > 0 && get + 1 < msgs.Length
      modifies this`get, this`len
      ensures Valid() && get == old(get) + 1
      ensures msg == old(Abs()).ring[0]
      ensures Abs() == old(Abs()).(ring := old(Abs()).ring[1..])
    {
      WindowPop(msgs[..], get, len);
      msg := msgs[get];
      DropIndexAt(get, 1, msgs.Length);
      get := DropIndex(get, 1, msgs.Length);
      len := len - 1;
    }
  }

  // ---- runs of the object ----

  /**
   Any run of operations on one queue object. It follows the specification exactly as long as no resize drops up to
   the end of the array; then no operation or message is lost or served twice and, if no try-put overtakes a waiting
   writer, messages are delivered in the order they were put.
   */
  method Drive(cap: nat, es: seq<MsgqRuns.Event>) returns (q: Queue, ops: nat, msgs: nat, inside: bool)
    ensures inside <==> InBounds(MsgqRuns.Empty(cap), Start(cap), es)
    ensures inside ==> q.Valid()
    ensures inside ==> MsgqRuns.State(q.Abs(), ops, msgs, q.msgs.Length) == MsgqRuns.Run(MsgqRuns.Empty(cap), es)
    ensures inside ==> Settled(q.Abs()) && forall x: nat :: MsgqRuns.Accounted(q.Abs(), ops, msgs, x)
    ensures inside && MsgqRuns.Patient(MsgqRuns.Empty(cap), es) ==> MsgqRuns.Increasing(MsgqRuns.Delivered(q.done))
    ensures inside ==> Outcomes(cap, es, q.Abs())
  {
    hide Window, Wrap, InBounds, Outcomes;
    hide MsgqRuns.Run, MsgqRuns.Step, MsgqRuns.Accounted, MsgqRuns.Patient, MsgqRuns.Increasing;
    q := new Queue(cap);
    ghost var s, p := MsgqRuns.Empty(cap), Start(cap);
    var i := 0;
    ops, msgs := 0, 0;
    assert es[0..] == es;
    while i < |es|
      invariant i <= |es| && q.Valid() && fresh(q) && fresh(q.msgs)
      invariant q.Abs() == s.q && q.Where() == p && ops == s.ops && msgs == s.msgs && q.msgs.Length == s.alloc
      invariant InBounds(s, p, es[i..]) <==> InBounds(MsgqRuns.Empty(cap), Start(cap), es)
      invariant MsgqRuns.Run(s, es[i..]) == MsgqRuns.Run(MsgqRuns.Empty(cap), es)
    {
      Unrolled(s, p, es, i);
      inside, ops, msgs := Do(q, es[i], s, ops, msgs);
      if !inside { return; }
      s, p := MsgqRuns.Step(s, es[i]), PosStep(s, p, es[i]);
      i := i + 1;
    }
    assert es[i..] == [];
    AtEnd(s, p);
    inside := true;
    forall x: nat ensures Settled(s.q) && MsgqRuns.Accounted(s.q, s.ops, s.msgs, x) { MsgqRuns.EveryRun(cap, es, x); }
    MsgqRuns.EveryRun(cap, es, 0);
    if MsgqRuns.Patient(MsgqRuns.Empty(cap), es) { MsgqRuns.FirstInFirstOut(cap, es); }
    OutcomesHold(cap, es);
  }

  /** What the completions in the log of `q`, driven by `es`, say. */
  ghost predicate Outcomes(cap: nat, es: seq<MsgqRuns.Event>, q: MsgqSpec.Queue) {
    var puts, gets := MsgqOutcomes.Puts(MsgqRuns.Empty(cap), es), MsgqOutcomes.Gets(MsgqRuns.Empty(cap), es);
    && (forall x :: x in puts ==> MsgqOutcomes.PutOutcome(q, x, puts[x]))
    && (forall x :: x in gets ==> MsgqOutcomes.GetOutcome(q, x))
    && (forall x, e :: Done(x, Failed(e)) in q.done ==> MsgqOutcomes.Caused(MsgqRuns.Empty(cap), es, x, e))
  }

  lemma OutcomesHold(cap: nat, es: seq<MsgqRuns.Event>)
    ensures Outcomes(cap, es, MsgqRuns.Run(MsgqRuns.Empty(cap), es).q)
  {
    hide MsgqRuns.Run, MsgqOutcomes.PutOutcome, MsgqOutcomes.GetOutcome;
    hide MsgqOutcomes.Puts, MsgqOutcomes.Gets, MsgqOutcomes.Caused;
    var q := MsgqRuns.Run(MsgqRuns.Empty(cap), es).q;
    var puts, gets := MsgqOutcomes.Puts(MsgqRuns.Empty(cap), es), MsgqOutcomes.Gets(MsgqRuns.Empty(cap), es);
    forall x | x in puts ensures MsgqOutcomes.PutOutcome(q, x, puts[x]) { MsgqOutcomes.EveryOutcome(cap, es, x); }
    forall x | x in gets ensures MsgqOutcomes.GetOutcome(q, x) { MsgqOutcomes.EveryOutcome(cap, es, x); }
    forall x, e | Done(x, Failed(e)) in q.done ensures MsgqOutcomes.Caused(MsgqRuns.Empty(cap), es, x, e) {
      MsgqOutcomes.EveryFailure(cap, es, x, e);
    }
  }

  lemma Unrolled(s: MsgqRuns.State, p: Pos, es: seq<MsgqRuns.Event>, i: nat)
    requires i < |es|
    ensures MsgqRuns.Run(s, es[i..]) == MsgqRuns.Run(MsgqRuns.Step(s, es[i]), es[i + 1..])
    ensures InBounds(s, p, es[i..]) <==>
              StaysIn(s, p, es[i]) && InBounds(MsgqRuns.Step(s, es[i]), PosStep(s, p, es[i]), es[i + 1..])
  {
    hide MsgqRuns.Step, StaysIn, PosStep;
    assert es[i..][0] == es[i] && es[i..][1..] == es[i + 1..];
  }

  lemma AtEnd(s: MsgqRuns.State, p: Pos)
    ensures MsgqRuns.Run(s, []) == s && InBounds(s, p, [])
  {
  }

  /** One event. */
  method Do(q: Queue, e: MsgqRuns.Event, ghost s: MsgqRuns.State, ops: nat, msgs: nat)
    returns (inside: bool, ops': nat, msgs': nat)
    requires q.Valid() && q.Abs() == s.q && ops == s.ops && msgs == s.msgs && q.msgs.Length == s.alloc
    modifies q, q.msgs
    ensures q.msgs == old(q.msgs) || fresh(q.msgs)
    ensures inside <==> StaysIn(s, old(q.Where()), e)
    ensures inside ==> q.Valid() && q.Abs() == MsgqRuns.Step(s, e).q
    ensures inside ==> q.Where() == PosStep(s, old(q.Where()), e) && q.msgs.Length == MsgqRuns.Step(s, e).alloc
    ensures inside ==> ops' == MsgqRuns.Step(s, e).ops && msgs' == MsgqRuns.Step(s, e).msgs
  {
    hide Window, Wrap, MsgqSpec.RunPutq, MsgqSpec.RunGetq, MsgqSpec.Close, MsgqSpec.Cancel;
    inside, ops', msgs' := true, ops, msgs;
    match e
    case Put(refused) =>
      PutRing(s.q.(putq := s.q.putq + [Writer(s.ops, s.msgs)]));
      q.AioPut(Writer(ops, msgs), refused);
      ops', msgs' := ops + 1, msgs + 1;
    case Get(refused) =>
      q.AioGet(ops, refused);
      ops' := ops + 1;
    case TryPutMsg =>
      var r := q.TryPut(msgs);
      if r.None? { msgs' := msgs + 1; }
    case CancelOp(op, error) =>
      q.Cancel(op, error);
    case CloseQueue =>
      CloseRing(s.q);
      q.Close();
    case SetCap(cap, allocOk) =>
      var r := q.Resize(cap, allocOk);
      inside := !r.Escaped?;
  }
}
