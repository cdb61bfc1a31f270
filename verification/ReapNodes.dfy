/**
 The deferred reaper at the level of its pointers (reap.c): rl_nodes, the rn_next inside each item and the worker's
 node. A node is named by its item. The calls of nni_reap are served as the module Reap says exactly as long as no
 item is queued again while it is still queued or in the worker's batch, because its one rn_next is overwritten.
 */
module ReapNodes {
  import opened Wrappers
  import R = Reap

  datatype Worker =
    | Looking(left: nat)
    | Calling(left: nat, list: nat, node: Option<nat>)  // the next node of the detached list
    | Parked
    | Exited

  datatype State = State(
    chain: seq<nat>,                // reap_list
    heads: map<nat, Option<nat>>,   // rl_nodes
    next: map<nat, Option<nat>>,    // rn_next
    empty: bool,
    exit: bool,
    reaped: bool,
    worker: Worker,
    woken: bool,
    queued: seq<nat>,               // the item of every nni_reap call
    calls: seq<nat>)                // the item of every rl_func call

  datatype Step = Reap(list: nat, item: nat) | Look | Call | Relock | Unpark | Fini | DrainReturns

  ghost predicate Unlocked(s: State) {
    !s.worker.Looking?
  }

  ghost predicate Enabled(s: State, e: Step) {
    match e
    case Reap(_, _) => Unlocked(s)
    case Look => s.worker.Looking? && s.worker.left <= |s.chain| && forall l :: l in s.chain ==> l in s.heads
    case Call => s.worker.Calling? && s.worker.node.Some?
    case Relock => s.worker.Calling? && s.worker.node.None? && s.worker.left > 0
    case Unpark => s.worker.Parked?
    case Fini => Unlocked(s)
    case DrainReturns => Unlocked(s) && s.empty
  }

  ghost function HeadOf(s: State, l: nat): Option<nat> {
    if l in s.heads then s.heads[l] else None
  }

  ghost function NextOf(s: State, item: nat): Option<nat> {
    if item in s.next then s.next[item] else None
  }

  /** nni_reap */
  ghost function Queue(s: State, l: nat, item: nat): State {
    s.(chain := if l in s.heads then s.chain else [l] + s.chain,
       next := s.next[item := HeadOf(s, l)],
       heads := s.heads[l := Some(item)],
       empty := false,
       woken := s.woken || s.worker.Parked?,
       queued := s.queued + [item])
  }

  ghost function Detach(s: State, l: nat): State
    requires s.worker.Looking? && l in s.heads
  {
    s.(reaped := true, heads := s.heads[l := None], worker := Calling(s.worker.left, l, s.heads[l]))
  }

  ghost function LookOnce(s: State): State
    requires Enabled(s, Look)
  {
    var left := s.worker.left;
    if left == 0 then
      if s.reaped then s.(reaped := false, worker := Looking(|s.chain|))
      else s.(empty := true, woken := false, worker := if s.exit then Exited else Parked)
    else
      var l := s.chain[|s.chain| - left];
      if s.heads[l].None? then s.(worker := Looking(left - 1)) else Detach(s, l)
  }

  /** rn_next is read before rl_func is called, so rl_func may queue the item again. */
  ghost function CallOnce(s: State): State
    requires Enabled(s, Call)
  {
    var item := s.worker.node.value;
    s.(worker := s.worker.(node := NextOf(s, item)), calls := s.calls + [item])
  }

  ghost function Next(s: State, e: Step): State
    requires Enabled(s, e)
  {
    match e
    case Reap(l, item) => Queue(s, l, item)
    case Look => LookOnce(s)
    case Call => CallOnce(s)
    case Relock => s.(worker := Looking(s.worker.left - 1))
    case Unpark => s.(woken := false, reaped := false, worker := Looking(|s.chain|))
    case Fini => s.(exit := true, woken := s.woken || s.worker.Parked?)
    case DrainReturns => s
  }

  ghost predicate Init(s: State) {
    && s.chain == [] && s.heads == map[] && !s.empty && !s.exit && s.worker.Parked? && s.woken
    && s.queued == [] && s.calls == []
  }

  ghost predicate Run(s: State, es: seq<Step>, t: State)
    decreases |es|
  {
    if es == [] then t == s else Enabled(s, es[0]) && Run(Next(s, es[0]), es[1..], t)
  }

  // ---- the rule for callers ----

  /** The item was queued more often than rl_func has been called for it. */
  ghost predicate Waiting(s: State, item: nat) {
    multiset(s.queued)[item] > multiset(s.calls)[item]
  }

  /** The item does not wait, or its rn_next happens to be what the call writes into it. */
  ghost predicate Safe(s: State, e: Step) {
    e.Reap? ==> !Waiting(s, e.item) || (e.item in s.next && s.next[e.item] == HeadOf(s, e.list))
  }

  ghost predicate Careful(s: State, es: seq<Step>)
    decreases |es|
  {
    es == [] || (Enabled(s, es[0]) && Safe(s, es[0]) && Careful(Next(s, es[0]), es[1..]))
  }

  // ---- what the pointers stand for ----

  /** Following rn_next from `p` meets exactly the items `xs`, in order. */
  ghost predicate Path(next: map<nat, Option<nat>>, p: Option<nat>, xs: seq<nat>)
    decreases |xs|
  {
    if xs == [] then p.None? else p == Some(xs[0]) && xs[0] in next && Path(next, next[xs[0]], xs[1..])
  }

  lemma {:induction false} PathElsewhere(next: map<nat, Option<nat>>, p: Option<nat>, xs: seq<nat>,
                                         x: nat, v: Option<nat>)
    requires x !in xs && Path(next, p, xs)
    ensures Path(next[x := v], p, xs)
    decreases |xs|
  {
    if xs != [] { PathElsewhere(next, next[xs[0]], xs[1..], x, v); }
  }

  lemma {:induction false} PathAt(next: map<nat, Option<nat>>, p: Option<nat>, xs: seq<nat>, i: nat)
    requires Path(next, p, xs) && i < |xs|
    ensures xs[i] in next && next[xs[i]] == if i + 1 < |xs| then Some(xs[i + 1]) else None
    decreases |xs|
  {
    if i > 0 {
      PathAt(next, next[xs[0]], xs[1..], i - 1);
    } else {
      assert Path(next, next[xs[0]], xs[1..]);
    }
  }

  /** The items of some tickets. */
  ghost function Items(queued: seq<nat>, q: seq<nat>): (r: seq<nat>)
    ensures |r| == |q|
  {
    seq(|q|, i requires 0 <= i < |q| => if q[i] < |queued| then queued[q[i]] else 0)
  }

  lemma ItemsLater(queued: seq<nat>, item: nat, q: seq<nat>)
    requires forall t :: t in q ==> t < |queued|
    ensures Items(queued + [item], q) == Items(queued, q)
  {
    forall i | 0 <= i < |q| ensures Items(queued + [item], q)[i] == Items(queued, q)[i] { assert q[i] in q; }
  }

  lemma ItemsJoin(queued: seq<nat>, a: seq<nat>, b: seq<nat>)
    ensures Items(queued, a + b) == Items(queued, a) + Items(queued, b)
  {
  }

  ghost predicate SameWorker(w: Worker, v: R.Worker) {
    match w
    case Looking(left) => v == R.Looking(left)
    case Calling(left, list, _) => v.Calling? && v.left == left && v.list == list
    case Parked => v.Parked?
    case Exited => v.Exited?
  }

  ghost predicate SameControl(s: State, h: R.State) {
    && s.chain == h.chain && s.empty == h.empty && s.exit == h.exit && s.reaped == h.reaped && s.woken == h.woken
    && SameWorker(s.worker, h.worker) && |s.queued| == h.made
    && (forall l :: l in s.heads <==> l in h.nodes)
  }

  /** Every list, and the batch, is what the pointers lead to; and rl_func was called for the tickets done. */
  ghost predicate SameNodes(s: State, h: R.State) {
    && (forall l :: l in s.heads && l in h.nodes ==> Path(s.next, s.heads[l], Items(s.queued, h.nodes[l])))
    && (s.worker.Calling? ==> Path(s.next, s.worker.node, Items(s.queued, R.Batch(h))))
    && s.calls == Items(s.queued, h.done)
  }

  ghost predicate Same(s: State, h: R.State) {
    SameControl(s, h) && SameNodes(s, h)
  }

  // ---- what waits ----

  /** The tickets on the lists of a chain, one list after the other. */
  ghost function Flat(chain: seq<nat>, nodes: map<nat, seq<nat>>): seq<nat> {
    if chain == [] then []
    else (if chain[0] in nodes then nodes[chain[0]] else []) + Flat(chain[1..], nodes)
  }

  lemma {:induction false} FlatIsQueued(chain: seq<nat>, nodes: map<nat, seq<nat>>)
    ensures multiset(Flat(chain, nodes)) == R.Queued(chain, nodes)
  {
    if chain != [] { FlatIsQueued(chain[1..], nodes); }
  }

  lemma {:induction false} FlatMember(chain: seq<nat>, nodes: map<nat, seq<nat>>, t: nat)
    ensures t in Flat(chain, nodes) <==> exists l :: l in chain && l in nodes && t in nodes[l]
  {
    if chain != [] {
      FlatMember(chain[1..], nodes, t);
      assert chain == [chain[0]] + chain[1..];
    }
  }

  ghost function UpTo(n: nat): seq<nat> {
    seq(n, i requires 0 <= i < n => i)
  }

  lemma {:induction false} UpToTickets(n: nat)
    ensures multiset(UpTo(n)) == R.Tickets(n)
  {
    if n > 0 {
      UpToTickets(n - 1);
      assert UpTo(n) == UpTo(n - 1) + [n - 1];
    }
  }

  /** The items of the same tickets in another order. */
  lemma {:induction false} ItemsPermuted(queued: seq<nat>, a: seq<nat>, b: seq<nat>)
    requires multiset(a) == multiset(b)
    ensures multiset(Items(queued, a)) == multiset(Items(queued, b))
    decreases |a|
  {
    if a == [] {
      assert |multiset(b)| == |b| && |multiset(a)| == 0;
      assert b == [];
    } else {
      assert a[0] in multiset(a) && a[0] in b;
      var i :| 0 <= i < |b| && b[i] == a[0];
      var rest := b[..i] + b[i + 1..];
      OneOut(queued, b, i);
      OneOut(queued, a, 0);
      assert a[..0] + a[1..] == a[1..];
      R.Cancel(multiset(a[1..]), multiset(rest), multiset{a[0]});
      ItemsPermuted(queued, a[1..], rest);
    }
  }

  ghost function ItemOf(queued: seq<nat>, t: nat): nat {
    if t < |queued| then queued[t] else 0
  }

  lemma OneOut(queued: seq<nat>, b: seq<nat>, i: nat)
    requires i < |b|
    ensures multiset(b) == multiset(b[..i] + b[i + 1..]) + multiset{b[i]}
    ensures multiset(Items(queued, b)) == multiset(Items(queued, b[..i] + b[i + 1..])) + multiset{ItemOf(queued, b[i])}
  {
    OutOf(b, i);
    OutOf(Items(queued, b), i);
    var r := Items(queued, b);
    assert r[..i] + r[i + 1..] == Items(queued, b[..i] + b[i + 1..]);
  }

  lemma OutOf(b: seq<nat>, i: nat)
    requires i < |b|
    ensures multiset(b) == multiset(b[..i] + b[i + 1..]) + multiset{b[i]}
  {
    assert b == b[..i] + [b[i]] + b[i + 1..];
  }

  /** The tickets that are queued or in the batch. */
  ghost function Held(h: R.State): seq<nat> {
    Flat(h.chain, h.nodes) + R.Batch(h)
  }

  /** Every item queued waits, or rl_func was called for it: as often as it was queued. */
  lemma ItemsAccounted(s: State, h: R.State)
    requires Same(s, h) && R.Inv(h)
    ensures multiset(s.queued) == multiset(Items(s.queued, Held(h))) + multiset(s.calls)
  {
    hide SameControl, R.Chained, R.AtHome, R.Quiet, R.NewestFirst, Flat, R.Queued, Path, Items;
    var all := Held(h) + h.done;
    FlatIsQueued(h.chain, h.nodes);
    UpToTickets(h.made);
    Sums(Flat(h.chain, h.nodes), R.Batch(h), h.done);
    MadeAll(s, h);
    ItemsPermuted(s.queued, all, UpTo(h.made));
    ItemsJoin(s.queued, Held(h), h.done);
  }

  lemma Sums(a: seq<nat>, b: seq<nat>, c: seq<nat>)
    ensures multiset(a + b + c) == multiset(a) + multiset(b) + multiset(c)
  {
  }

  lemma MadeAll(s: State, h: R.State)
    requires SameControl(s, h)
    ensures Items(s.queued, UpTo(h.made)) == s.queued
  {
  }

  /** An item waits exactly when one of its tickets is queued or in the batch. */
  lemma WaitingIff(s: State, h: R.State, item: nat)
    requires Same(s, h) && R.Inv(h)
    ensures Waiting(s, item) <==> item in Items(s.queued, Held(h))
  {
    hide Same, R.Inv, Items, Held;
    ItemsAccounted(s, h);
  }

  // ---- queuing ----

  lemma TicketsKnown(h: R.State)
    requires R.Inv(h)
    ensures forall l, t :: l in h.nodes && t in h.nodes[l] ==> t < h.made
    ensures forall t :: t in R.Batch(h) ==> t < h.made
    ensures forall t :: t in h.done ==> t < h.made
  {
    hide R.Chained, R.Placed, R.Quiet;
  }

  lemma QueueControl(s: State, h: R.State, l: nat, item: nat)
    requires SameControl(s, h)
    ensures SameControl(Queue(s, l, item), R.Queue(h, l))
  {
  }

  /** The lists and the batch, read through the longer history. */
  lemma QueueItems(s: State, h: R.State, l: nat, item: nat)
    requires Same(s, h) && R.Inv(h)
    ensures var q, g := s.queued + [item], R.Queue(h, l);
            && Items(q, g.done) == Items(s.queued, h.done) && Items(q, R.Batch(g)) == Items(s.queued, R.Batch(h))
            && (forall m :: m in h.nodes && m != l ==> Items(q, g.nodes[m]) == Items(s.queued, h.nodes[m]))
            && Items(q, g.nodes[l]) == [item] + if l in h.nodes then Items(s.queued, h.nodes[l]) else []
  {
    hide SameNodes, R.Inv, Items;
    TicketsKnown(h);
    ItemsLater(s.queued, item, h.done);
    ItemsLater(s.queued, item, R.Batch(h));
    forall m | m in h.nodes ensures Items(s.queued + [item], h.nodes[m]) == Items(s.queued, h.nodes[m]) {
      ItemsLater(s.queued, item, h.nodes[m]);
    }
    var rest := if l in h.nodes then h.nodes[l] else [];
    ItemsJoin(s.queued + [item], [h.made], rest);
    Newest(s.queued, item);
    Newest(s.queued + [item], item);
  }

  lemma Newest(queued: seq<nat>, item: nat)
    ensures Items(queued + [item], [|queued|]) == [item] && Items(queued, []) == []
  {
  }

  lemma QueueKeeps(s: State, h: R.State, l: nat, item: nat)
    requires Same(s, h) && R.Inv(h)
    requires forall m :: m in h.nodes ==> item !in Items(s.queued, h.nodes[m])
    requires item !in Items(s.queued, R.Batch(h))
    ensures SameNodes(Queue(s, l, item), R.Queue(h, l))
  {
    hide R.Inv, Items, Path;
    var n, g := Queue(s, l, item), R.Queue(h, l);
    QueueItems(s, h, l, item);
    forall m | m in h.nodes ensures Path(n.next, s.heads[m], Items(s.queued, h.nodes[m])) {
      PathElsewhere(s.next, s.heads[m], Items(s.queued, h.nodes[m]), item, HeadOf(s, l));
    }
    if s.worker.Calling? {
      PathElsewhere(s.next, s.worker.node, Items(s.queued, R.Batch(h)), item, HeadOf(s, l));
    }
    PathFront(n.next, item, HeadOf(s, l), if l in h.nodes then Items(s.queued, h.nodes[l]) else []);
  }

  lemma PathFront(next: map<nat, Option<nat>>, item: nat, p: Option<nat>, xs: seq<nat>)
    requires item in next && next[item] == p
    ensures Path(next, Some(item), [item] + xs) <==> Path(next, p, xs)
    ensures Path(next, None, [])
  {
    assert ([item] + xs)[1..] == xs;
  }

  /** If the call writes what is there already, no pointer changes but rl_nodes. */
  lemma QueueSameNext(s: State, h: R.State, l: nat, item: nat)
    requires Same(s, h) && R.Inv(h) && item in s.next && s.next[item] == HeadOf(s, l)
    ensures SameNodes(Queue(s, l, item), R.Queue(h, l))
  {
    hide R.Inv, Items, Path;
    var n, g := Queue(s, l, item), R.Queue(h, l);
    assert n.next == s.next;
    QueueItems(s, h, l, item);
    PathFront(n.next, item, HeadOf(s, l), if l in h.nodes then Items(s.queued, h.nodes[l]) else []);
  }

  /** A waiting item keeps its rn_next only if the call writes what is there already. */
  lemma QueueBreaks(s: State, h: R.State, l: nat, item: nat, m: Option<nat>)
    requires Same(s, h) && R.Inv(h) && SameNodes(Queue(s, l, item), R.Queue(h, l))
    requires m.Some? ==> m.value in h.nodes && item in Items(s.queued, h.nodes[m.value])
    requires m.None? ==> s.worker.Calling? && item in Items(s.queued, R.Batch(h))
    ensures item in s.next && s.next[item] == HeadOf(s, l)
  {
    hide R.Inv, Items, Path;
    var n, g := Queue(s, l, item), R.Queue(h, l);
    QueueItems(s, h, l, item);
    var xs := if m.Some? then Items(s.queued, h.nodes[m.value]) else Items(s.queued, R.Batch(h));
    var i :| 0 <= i < |xs| && xs[i] == item;
    PathAt(s.next, if m.Some? then s.heads[m.value] else s.worker.node, xs, i);
    if m == Some(l) {
      assert ([item] + xs)[i + 1] == item;
      PathAt(n.next, n.heads[l], [item] + xs, i + 1);
    } else if m.Some? {
      assert n.heads[m.value] == s.heads[m.value];
      PathAt(n.next, n.heads[m.value], xs, i);
    } else {
      PathAt(n.next, n.worker.node, xs, i);
    }
  }

  /** Where a waiting item is. */
  lemma WaitingWhere(s: State, h: R.State, item: nat)
    requires Same(s, h) && R.Inv(h)
    ensures Waiting(s, item) <==>
              (exists m :: m in h.nodes && item in Items(s.queued, h.nodes[m])) || item in Items(s.queued, R.Batch(h))
  {
    hide R.Placed, R.AtHome, R.Quiet, R.NewestFirst, Path, R.Distinct;
    WaitingIff(s, h, item);
    ItemsJoin(s.queued, Flat(h.chain, h.nodes), R.Batch(h));
    var flat := Flat(h.chain, h.nodes);
    if item in Items(s.queued, flat) {
      var i :| 0 <= i < |flat| && Items(s.queued, flat)[i] == item;
      FlatMember(h.chain, h.nodes, flat[i]);
      var l :| l in h.chain && l in h.nodes && flat[i] in h.nodes[l];
      var j :| 0 <= j < |h.nodes[l]| && h.nodes[l][j] == flat[i];
      assert Items(s.queued, h.nodes[l])[j] == item;
    }
    forall m | m in h.nodes && item in Items(s.queued, h.nodes[m]) ensures item in Items(s.queued, flat) {
      var j :| 0 <= j < |h.nodes[m]| && Items(s.queued, h.nodes[m])[j] == item;
      FlatMember(h.chain, h.nodes, h.nodes[m][j]);
      var i :| 0 <= i < |flat| && flat[i] == h.nodes[m][j];
      assert Items(s.queued, flat)[i] == item;
    }
  }

  /** After nni_reap the pointers still lead to the tickets that wait if and only if the call was safe. */
  lemma QueueIff(s: State, h: R.State, l: nat, item: nat)
    requires Same(s, h) && R.Inv(h)
    ensures Same(Queue(s, l, item), R.Queue(h, l)) <==> Safe(s, Reap(l, item))
  {
    hide R.Inv, Items, Path, Queue, SameNodes, Waiting;
    WaitingWhere(s, h, item);
    QueueControl(s, h, l, item);
    if item in s.next && s.next[item] == HeadOf(s, l) {
      QueueSameNext(s, h, l, item);
    } else if !Waiting(s, item) {
      QueueKeeps(s, h, l, item);
    } else if SameNodes(Queue(s, l, item), R.Queue(h, l)) {
      if item in Items(s.queued, R.Batch(h)) {
        BatchOf(s, h, item);
        QueueBreaks(s, h, l, item, None);
      } else {
        var m :| m in h.nodes && item in Items(s.queued, h.nodes[m]);
        QueueBreaks(s, h, l, item, Some(m));
      }
    }
  }

  lemma BatchOf(s: State, h: R.State, item: nat)
    requires SameControl(s, h) && item in Items(s.queued, R.Batch(h))
    ensures s.worker.Calling?
  {
  }

  // ---- every step ----

  ghost function Up(e: Step): R.Step {
    match e
    case Reap(l, _) => R.Reap(l)
    case Look => R.Look
    case Call => R.Call
    case Relock => R.Relock
    case Unpark => R.Unpark
    case Fini => R.Fini
    case DrainReturns => R.DrainReturns
  }

  lemma NoneIsEmpty(next: map<nat, Option<nat>>, p: Option<nat>, queued: seq<nat>, q: seq<nat>)
    requires Path(next, p, Items(queued, q))
    ensures p.None? <==> q == []
  {
  }

  lemma SameEnabled(s: State, h: R.State, e: Step)
    requires Same(s, h) && Enabled(s, e)
    ensures R.Enabled(h, Up(e))
  {
    hide Items, Path;
    if s.worker.Calling? { NoneIsEmpty(s.next, s.worker.node, s.queued, R.Batch(h)); }
  }

  lemma DetachSame(s: State, h: R.State, l: nat)
    requires Same(s, h) && s.worker.Looking? && h.worker.Looking? && l in s.heads && l in h.nodes
    ensures Same(Detach(s, l), R.Detach(h, l))
  {
    hide Items, Path;
    Newest(s.queued, 0);
    NoPath(s.next);
  }

  lemma HeadTells(s: State, h: R.State, l: nat)
    requires SameNodes(s, h) && l in s.heads && l in h.nodes
    ensures s.heads[l].None? <==> h.nodes[l] == []
  {
    hide Items, Path;
    NoneIsEmpty(s.next, s.heads[l], s.queued, h.nodes[l]);
  }

  lemma EndSame(s: State, h: R.State)
    requires Same(s, h) && Enabled(s, Look) && R.Enabled(h, R.Look) && s.worker.left == 0
    ensures Same(LookOnce(s), R.LookOnce(h))
  {
    hide SameNodes, Detach, R.Detach;
    MovedSame(s, h, LookOnce(s), R.LookOnce(h));
  }

  lemma ListSame(s: State, h: R.State)
    requires Same(s, h) && Enabled(s, Look) && R.Enabled(h, R.Look) && s.worker.left > 0
    ensures Same(LookOnce(s), R.LookOnce(h))
  {
    hide SameNodes, Detach, R.Detach;
    var l := s.chain[|s.chain| - s.worker.left];
    assert l in s.chain;
    HeadTells(s, h, l);
    if s.heads[l].Some? { DetachSame(s, h, l); } else { MovedSame(s, h, LookOnce(s), R.LookOnce(h)); }
  }

  lemma LookSame(s: State, h: R.State)
    requires Same(s, h) && Enabled(s, Look) && R.Enabled(h, R.Look)
    ensures Same(LookOnce(s), R.LookOnce(h))
  {
    hide Same, LookOnce, R.LookOnce;
    if s.worker.left == 0 { EndSame(s, h); } else { ListSame(s, h); }
  }

  /** The worker moved, and nothing else. */
  lemma MovedSame(s: State, h: R.State, t: State, g: R.State)
    requires SameNodes(s, h) && !t.worker.Calling?
    requires t.heads == s.heads && t.next == s.next && t.queued == s.queued && t.calls == s.calls
    requires g.nodes == h.nodes && g.done == h.done
    ensures SameNodes(t, g)
  {
    hide Items, Path;
  }

  lemma NoPath(next: map<nat, Option<nat>>)
    ensures Path(next, None, [])
  {
  }

  lemma CallSame(s: State, h: R.State)
    requires Same(s, h) && Enabled(s, Call) && R.Enabled(h, R.Call)
    ensures Same(CallOnce(s), R.CallOnce(h))
  {
    var b := h.worker.batch;
    var xs := Items(s.queued, b);
    assert xs[1..] == Items(s.queued, b[1..]);
    ItemsJoin(s.queued, h.done, [b[0]]);
    assert Items(s.queued, [b[0]]) == [xs[0]];
  }

  lemma StepSame(s: State, h: R.State, e: Step)
    requires Same(s, h) && R.Inv(h) && Enabled(s, e) && Safe(s, e)
    ensures R.Enabled(h, Up(e)) && Same(Next(s, e), R.Next(h, Up(e)))
  {
    hide Items, Path, R.Inv, LookOnce, R.LookOnce, CallOnce, R.CallOnce, Queue, R.Queue, Safe;
    SameEnabled(s, h, e);
    match e
    case Reap(l, item) => QueueIff(s, h, l, item);
    case Look => LookSame(s, h);
    case Call => CallSame(s, h);
    case _ =>
  }

  /** A careful run is a run of tickets. */
  lemma {:induction false} RunSame(s: State, h: R.State, es: seq<Step>, t: State) returns (us: seq<R.Step>, g: R.State)
    requires Same(s, h) && R.Inv(h) && Run(s, es, t) && Careful(s, es)
    ensures R.Run(h, us, g) && R.Inv(g) && Same(t, g)
    decreases |es|
  {
    hide Same, R.Inv, Enabled, R.Enabled, Next, R.Next, Safe;
    if es == [] {
      us, g := [], h;
    } else {
      StepSame(s, h, es[0]);
      R.StepKeeps(h, Up(es[0]));
      var rest, last := RunSame(Next(s, es[0]), R.Next(h, Up(es[0])), es[1..], t);
      us, g := [Up(es[0])] + rest, last;
      assert us[1..] == rest;
    }
  }

  ghost function Start(s: State): R.State {
    R.State([], map[], false, false, s.reaped, R.Parked, true, 0, map[], [], map[])
  }

  lemma StartSame(s: State)
    requires Init(s)
    ensures R.Init(Start(s)) && R.Inv(Start(s)) && Same(s, Start(s))
  {
    R.InitInv(Start(s));
    assert Items(s.queued, []) == [];
  }

  // ---- the promises, for the pointers ----

  /** The item of every nni_reap call among the events. */
  ghost function Asked(es: seq<Step>): seq<nat> {
    if es == [] then [] else (if es[0].Reap? then [es[0].item] else []) + Asked(es[1..])
  }

  lemma {:induction false} QueuedAsAsked(s: State, es: seq<Step>, t: State)
    requires Run(s, es, t)
    ensures t.queued == s.queued + Asked(es)
    decreases |es|
  {
    hide Enabled, Next;
    if es == [] {
      assert s.queued + [] == s.queued;
    } else {
      QueuedOne(s, es[0]);
      QueuedAsAsked(Next(s, es[0]), es[1..], t);
      Joined(s.queued, if es[0].Reap? then [es[0].item] else [], Asked(es[1..]));
    }
  }

  lemma Joined(a: seq<nat>, b: seq<nat>, c: seq<nat>)
    ensures a + b + c == a + (b + c)
  {
  }

  lemma QueuedOne(s: State, e: Step)
    requires Enabled(s, e)
    ensures Next(s, e).queued == s.queued + if e.Reap? then [e.item] else []
  {
    hide LookOnce;
    assert s.queued + [] == s.queued;
    if e.Look? { LookQueues(s); }
  }

  lemma LookQueues(s: State)
    requires Enabled(s, Look)
    ensures LookOnce(s).queued == s.queued
  {
  }

  /** In a careful run rl_func is called for an item at most as often as the item was queued. */
  lemma ServedAtMostOnce(s: State, es: seq<Step>, t: State)
    requires Init(s) && Run(s, es, t) && Careful(s, es)
    ensures multiset(t.calls) <= multiset(Asked(es))
  {
    hide Run, Careful, Same, R.Inv, Items, Held, Asked;
    QueuedAsAsked(s, es, t);
    assert [] + Asked(es) == Asked(es);
    StartSame(s);
    var _, g := RunSame(s, Start(s), es, t);
    ItemsAccounted(t, g);
  }

  /** ... and when nni_reap_drain can return, exactly as often, with every list and the worker's hand empty. */
  lemma DrainServedAll(s: State, es: seq<Step>, t: State)
    requires Init(s) && Run(s, es, t) && Careful(s, es) && Enabled(t, DrainReturns)
    ensures multiset(t.calls) == multiset(Asked(es))
    ensures (forall l :: l in t.heads ==> t.heads[l].None?) && (t.worker.Parked? || t.worker.Exited?)
  {
    hide Run, Careful, R.Run, R.Chained, R.Placed, R.AtHome, R.NewestFirst, Items, Path, Asked;
    QueuedAsAsked(s, es, t);
    assert [] + Asked(es) == Asked(es);
    StartSame(s);
    var us, g := RunSame(s, Start(s), es, t);
    R.DrainMeansDone(Start(s), us, g);
    ItemsAccounted(t, g);
    FlatEmpty(g.chain, g.nodes);
    Newest(t.queued, 0);
    assert Held(g) == [];
    forall l | l in t.heads ensures t.heads[l].None? { NoneIsEmpty(t.next, t.heads[l], t.queued, g.nodes[l]); }
  }

  lemma {:induction false} FlatEmpty(chain: seq<nat>, nodes: map<nat, seq<nat>>)
    requires forall l :: l in nodes ==> nodes[l] == []
    ensures Flat(chain, nodes) == []
  {
    if chain != [] { FlatEmpty(chain[1..], nodes); }
  }

  /** rl_func may queue the item it is called for: once no other call for it is waiting, that is safe. */
  lemma RequeueIsSafe(s: State, l: nat)
    requires Enabled(s, Call) && multiset(s.queued)[s.worker.node.value] == multiset(s.calls)[s.worker.node.value] + 1
    ensures Safe(CallOnce(s), Reap(l, s.worker.node.value))
  {
    var x := s.worker.node.value;
    assert multiset(s.calls + [x])[x] == multiset(s.calls)[x] + 1;
  }

  // ---- queuing an item that heads its own list ----

  /** A node whose rn_next is itself is called for as long as one likes. */
  lemma {:induction false} CalledForEver(s: State, n: nat) returns (es: seq<Step>, t: State)
    requires s.worker.Calling? && s.worker.node.Some? && NextOf(s, s.worker.node.value) == s.worker.node
    ensures Run(s, es, t) && |t.calls| == |s.calls| + n && t.queued == s.queued && t.worker == s.worker
    decreases n
  {
    if n == 0 {
      es, t := [], s;
    } else {
      var rest, last := CalledForEver(CallOnce(s), n - 1);
      es, t := [Call] + rest, last;
      assert es[1..] == rest;
    }
  }

  lemma Then(s: State, e: Step, es: seq<Step>, t: State) returns (all: seq<Step>)
    requires Enabled(s, e) && Run(Next(s, e), es, t)
    ensures all == [e] + es && Run(s, all, t)
  {
    hide Next, Enabled;
    all := [e] + es;
    assert all[1..] == es;
  }

  /** Two calls of nni_reap for one item, and rl_func is called any number of times. */
  lemma QueuedTwice(s: State, n: nat) returns (es: seq<Step>, t: State)
    requires Init(s)
    ensures Run(s, es, t) && t.queued == [7, 7] && |t.calls| == n
  {
    hide Run;
    var s1 := Next(s, Reap(0, 7));
    var s2 := Next(s1, Reap(0, 7));
    assert s2.next[7] == Some(7) && s2.queued == [7, 7] && s2.chain == [0];
    var s3 := Next(s2, Unpark);
    var s4 := Next(s3, Look);
    es, t := CalledForEver(s4, n);
    es := Then(s3, Look, es, t);
    es := Then(s2, Unpark, es, t);
    es := Then(s1, Reap(0, 7), es, t);
    es := Then(s, Reap(0, 7), es, t);
  }
}
