/**
 The deferred reaper (reap.c). A call of nni_reap takes a ticket; the one worker detaches a list's nodes under the
 lock and calls rl_func for each without it, while other threads, and rl_func itself, go on calling nni_reap.
 */
module Reap {
  /** Where the worker stands. It holds the lock exactly while it is looking. */
  datatype Worker =
    | Looking(left: nat)                               // lists of this pass not looked at yet
    | Calling(left: nat, list: nat, batch: seq<nat>)   // the detached nodes not yet handed to rl_func
    | Parked                                           // waiting on reap_work_cv
    | Exited

  datatype State = State(
    chain: seq<nat>,             // reap_list, in rl_next order: a list stands before those that were there first
    nodes: map<nat, seq<nat>>,   // rl_nodes of each list in the chain
    empty: bool,                 // reap_empty
    exit: bool,                  // reap_exit
    reaped: bool,                // the worker's local variable
    worker: Worker,
    woken: bool,                 // a wake-up of reap_work_cv has not been consumed
    made: nat,                   // tickets are numbered as they are taken
    home: map<nat, nat>,         // the list each ticket was queued on
    done: seq<nat>,              // tickets in the order rl_func was called
    ran: map<nat, nat>)          // the list whose rl_func was called for a ticket

  datatype Step = Reap(list: nat) | Look | Call | Relock | Unpark | Fini | DrainReturns

  ghost predicate Unlocked(s: State) {
    !s.worker.Looking?
  }

  ghost predicate Enabled(s: State, e: Step) {
    match e
    case Reap(_) => Unlocked(s)
    case Look => s.worker.Looking? && s.worker.left <= |s.chain| && forall l :: l in s.chain ==> l in s.nodes
    case Call => s.worker.Calling? && s.worker.batch != []
    case Relock => s.worker.Calling? && s.worker.batch == [] && s.worker.left > 0
    case Unpark => s.worker.Parked?
    case Fini => Unlocked(s)
    case DrainReturns => Unlocked(s) && s.empty
  }

  /** nni_reap: a list joins the front of the chain when first used, a node the front of its list. */
  ghost function Queue(s: State, l: nat): State {
    var rest := if l in s.nodes then s.nodes[l] else [];
    s.(chain := if l in s.nodes then s.chain else [l] + s.chain,
       nodes := s.nodes[l := [s.made] + rest],
       empty := false,
       woken := s.woken || s.worker.Parked?,
       made := s.made + 1,
       home := s.home[s.made := l])
  }

  ghost function Detach(s: State, l: nat): State
    requires s.worker.Looking? && l in s.nodes
  {
    s.(reaped := true, nodes := s.nodes[l := []], worker := Calling(s.worker.left, l, s.nodes[l]))
  }

  /** One turn of the worker under the lock: look at a list, or end the pass. */
  ghost function LookOnce(s: State): State
    requires Enabled(s, Look)
  {
    var left := s.worker.left;
    if left == 0 then
      if s.reaped then s.(reaped := false, worker := Looking(|s.chain|))
      else s.(empty := true, woken := false, worker := if s.exit then Exited else Parked)
    else
      var l := s.chain[|s.chain| - left];
      if s.nodes[l] == [] then s.(worker := Looking(left - 1))
      else Detach(s, l)
  }

  ghost function CallOnce(s: State): State
    requires Enabled(s, Call)
  {
    var t := s.worker.batch[0];
    s.(worker := s.worker.(batch := s.worker.batch[1..]), done := s.done + [t], ran := s.ran[t := s.worker.list])
  }

  ghost function Next(s: State, e: Step): State
    requires Enabled(s, e)
  {
    match e
    case Reap(l) => Queue(s, l)
    case Look => LookOnce(s)
    case Call => CallOnce(s)
    case Relock => s.(worker := Looking(s.worker.left - 1))
    case Unpark => s.(woken := false, reaped := false, worker := Looking(|s.chain|))
    case Fini => s.(exit := true, woken := s.woken || s.worker.Parked?)
    case DrainReturns => s
  }

  /** reap_empty starts out false, and the worker is about to take the lock. */
  ghost predicate Init(s: State) {
    && s.chain == [] && s.nodes == map[] && !s.empty && !s.exit && s.worker.Parked? && s.woken
    && s.made == 0 && s.home == map[] && s.done == [] && s.ran == map[]
  }

  ghost predicate Run(s: State, es: seq<Step>, t: State)
    decreases |es|
  {
    if es == [] then t == s else Enabled(s, es[0]) && Run(Next(s, es[0]), es[1..], t)
  }

  // ---- where the tickets are ----

  ghost function Batch(s: State): seq<nat> {
    if s.worker.Calling? then s.worker.batch else []
  }

  /** The tickets queued on the lists of a chain. */
  ghost function Queued(chain: seq<nat>, nodes: map<nat, seq<nat>>): multiset<nat> {
    if chain == [] then multiset{}
    else (if chain[0] in nodes then multiset(nodes[chain[0]]) else multiset{}) + Queued(chain[1..], nodes)
  }

  ghost function Tickets(n: nat): multiset<nat> {
    if n == 0 then multiset{} else Tickets(n - 1) + multiset{n - 1}
  }

  ghost predicate Distinct(q: seq<nat>) {
    forall i, j :: 0 <= i < j < |q| ==> q[i] != q[j]
  }

  ghost predicate Chained(s: State) {
    && Distinct(s.chain)
    && (forall l :: l in s.chain <==> l in s.nodes)
    && (s.worker.Looking? ==> s.worker.left <= |s.chain|)
    && (s.worker.Calling? ==> 0 < s.worker.left <= |s.chain|)
  }

  /** Every ticket is in exactly one place: on a list, in the worker's batch, or done. */
  ghost predicate Placed(s: State) {
    Queued(s.chain, s.nodes) + multiset(Batch(s)) + multiset(s.done) == Tickets(s.made)
  }

  ghost predicate AtHome(s: State) {
    && (forall t: nat :: t in s.home <==> t < s.made)
    && (forall l, t :: l in s.nodes && t in s.nodes[l] ==> t in s.home && s.home[t] == l)
    && (s.worker.Calling? ==> forall t :: t in s.worker.batch ==> t in s.home && s.home[t] == s.worker.list)
    && (forall t :: t in s.done ==> t in s.home && t in s.ran && s.ran[t] == s.home[t])
  }

  ghost predicate AllEmpty(s: State) {
    forall l :: l in s.nodes ==> s.nodes[l] == []
  }

  /** A pass that has found nothing has found nothing: the lists it has looked at are still empty. */
  ghost predicate LookedAtEmpty(s: State) {
    s.worker.Looking? && !s.reaped && s.worker.left <= |s.chain| ==>
      forall i :: 0 <= i < |s.chain| - s.worker.left ==> s.chain[i] in s.nodes && s.nodes[s.chain[i]] == []
  }

  ghost predicate Quiet(s: State) {
    && (s.empty ==> AllEmpty(s) && !s.worker.Calling?)
    && (s.worker.Calling? ==> s.reaped)
    && LookedAtEmpty(s)
    && (s.worker.Parked? && !AllEmpty(s) ==> s.woken)
  }

  /** A list holds the newest ticket first; so does a batch. */
  ghost predicate Falling(q: seq<nat>, bound: nat) {
    (forall i :: 0 <= i < |q| ==> q[i] < bound) && forall i, j :: 0 <= i < j < |q| ==> q[j] < q[i]
  }

  ghost predicate NewestFirst(s: State) {
    && (forall l :: l in s.nodes ==> Falling(s.nodes[l], s.made))
    && Falling(Batch(s), s.made)
    && (s.worker.Calling? ==> Newer(s))
  }

  /** What is queued on the list of the batch came after all that is in the batch. */
  ghost predicate Newer(s: State)
    requires s.worker.Calling?
  {
    s.worker.list in s.nodes ==> forall t, u :: t in s.worker.batch && u in s.nodes[s.worker.list] ==> t < u
  }

  ghost predicate Inv(s: State) {
    Chained(s) && Placed(s) && AtHome(s) && Quiet(s) && NewestFirst(s)
  }

  lemma {:induction false} QueuedElsewhere(chain: seq<nat>, nodes: map<nat, seq<nat>>, l: nat, q: seq<nat>)
    requires l !in chain
    ensures Queued(chain, nodes[l := q]) == Queued(chain, nodes)
  {
    if chain != [] { QueuedElsewhere(chain[1..], nodes, l, q); }
  }

  /** Replacing one list's nodes replaces their tickets in the total. */
  lemma {:induction false} QueuedAt(chain: seq<nat>, nodes: map<nat, seq<nat>>, l: nat, q: seq<nat>)
    requires Distinct(chain) && l in chain && l in nodes
    ensures Queued(chain, nodes[l := q]) + multiset(nodes[l]) == Queued(chain, nodes) + multiset(q)
  {
    var n := nodes[l := q];
    var rest := Queued(chain[1..], nodes);
    if chain[0] == l {
      assert l !in chain[1..];
      QueuedElsewhere(chain[1..], nodes, l, q);
      assert Queued(chain, n) == multiset(q) + rest && Queued(chain, nodes) == multiset(nodes[l]) + rest;
    } else {
      QueuedAt(chain[1..], nodes, l, q);
      var head := if chain[0] in nodes then multiset(nodes[chain[0]]) else multiset{};
      assert Queued(chain, n) == head + Queued(chain[1..], n) && Queued(chain, nodes) == head + rest;
      assert (head + Queued(chain[1..], n)) + multiset(nodes[l]) == head + (Queued(chain[1..], n) + multiset(nodes[l]));
    }
  }

  lemma {:induction false} QueuedEmpty(chain: seq<nat>, nodes: map<nat, seq<nat>>)
    requires forall l :: l in nodes ==> nodes[l] == []
    ensures Queued(chain, nodes) == multiset{}
  {
    if chain != [] { QueuedEmpty(chain[1..], nodes); }
  }

  lemma {:induction false} TicketOnce(n: nat, t: nat)
    ensures Tickets(n)[t] == if t < n then 1 else 0
  {
    if n > 0 { TicketOnce(n - 1, t); }
  }

  // ---- what every step keeps ----

  lemma QueueChained(s: State, l: nat)
    requires Chained(s) && Unlocked(s)
    ensures Chained(Queue(s, l))
  {
  }

  lemma QueueTotal(s: State, l: nat)
    requires Chained(s)
    ensures Queued(Queue(s, l).chain, Queue(s, l).nodes) == Queued(s.chain, s.nodes) + multiset{s.made}
  {
    if l in s.nodes {
      QueuedAt(s.chain, s.nodes, l, [s.made] + s.nodes[l]);
      assert multiset([s.made] + s.nodes[l]) == multiset{s.made} + multiset(s.nodes[l]);
      var now := Queued(s.chain, s.nodes[l := [s.made] + s.nodes[l]]);
      Cancel(now, Queued(s.chain, s.nodes) + multiset{s.made}, multiset(s.nodes[l]));
    } else {
      QueueNew(s.chain, s.nodes, l, s.made);
    }
  }

  lemma QueueNew(chain: seq<nat>, nodes: map<nat, seq<nat>>, l: nat, t: nat)
    requires l !in chain
    ensures Queued([l] + chain, nodes[l := [t] + []]) == Queued(chain, nodes) + multiset{t}
  {
    QueuedElsewhere(chain, nodes, l, [t] + []);
    assert ([l] + chain)[1..] == chain;
    assert [t] + [] == [t];
  }

  lemma Cancel(a: multiset<nat>, b: multiset<nat>, c: multiset<nat>)
    requires a + c == b + c
    ensures a == b
  {
    assert (a + c) - c == a && (b + c) - c == b;
  }

  lemma QueuePlaced(s: State, l: nat)
    requires Chained(s) && Placed(s)
    ensures Placed(Queue(s, l))
  {
    hide Queued, Chained;
    QueueTotal(s, l);
    assert Batch(Queue(s, l)) == Batch(s);
  }

  lemma QueueAtHome(s: State, l: nat)
    requires AtHome(s)
    ensures AtHome(Queue(s, l))
  {
    var t := Queue(s, l);
    forall k, x | k in t.nodes && x in t.nodes[k] ensures x in t.home && t.home[x] == k {
      if k != l || x != s.made { assert k in s.nodes && x in s.nodes[k] && x in s.home; }
    }
  }

  lemma QueueQuiet(s: State, l: nat)
    requires Quiet(s) && Unlocked(s)
    ensures Quiet(Queue(s, l))
  {
  }

  lemma QueueFalling(s: State, l: nat)
    requires NewestFirst(s)
    ensures NewestFirst(Queue(s, l))
  {
    hide Falling;
    var t := Queue(s, l);
    forall k | k in t.nodes ensures Falling(t.nodes[k], t.made) {
      NothingFalls(s.made);
      FallsLater(if k in s.nodes then s.nodes[k] else [], s.made);
    }
    FallsLater(Batch(s), s.made);
    if s.worker.Calling? { StillNewer(s, l); }
  }

  lemma FallsLater(q: seq<nat>, bound: nat)
    requires Falling(q, bound)
    ensures Falling(q, bound + 1) && Falling([bound] + q, bound + 1)
  {
  }

  lemma StillNewer(s: State, l: nat)
    requires s.worker.Calling? && Newer(s) && Falling(s.worker.batch, s.made)
    ensures Newer(Queue(s, l))
  {
    var t := Queue(s, l);
    if s.worker.list == l {
      forall x, u | x in t.worker.batch && u in t.nodes[l] ensures x < u {
        assert x in s.worker.batch;
        if u != s.made { assert l in s.nodes && u in s.nodes[l]; }
      }
    }
  }

  lemma DetachPlaced(s: State, l: nat)
    requires Chained(s) && Placed(s) && s.worker.Looking? && l in s.nodes
    ensures Placed(Detach(s, l))
  {
    hide Tickets, Distinct;
    QueuedAt(s.chain, s.nodes, l, []);
  }

  lemma DetachAtHome(s: State, l: nat)
    requires AtHome(s) && s.worker.Looking? && l in s.nodes
    ensures AtHome(Detach(s, l))
  {
    var t := Detach(s, l);
    forall k, x | k in t.nodes && x in t.nodes[k] ensures x in t.home && t.home[x] == k {
      assert k in s.nodes && x in s.nodes[k];
    }
  }

  lemma DetachFalling(s: State, l: nat)
    requires NewestFirst(s) && s.worker.Looking? && l in s.nodes
    ensures NewestFirst(Detach(s, l))
  {
    hide Falling;
    NothingFalls(s.made);
  }

  /** The worker moved, and nothing else. */
  lemma OnlyMoved(s: State, t: State)
    requires Placed(s) && AtHome(s) && NewestFirst(s) && !s.worker.Calling? && !t.worker.Calling?
    requires t.chain == s.chain && t.nodes == s.nodes && t.made == s.made
    requires t.home == s.home && t.done == s.done && t.ran == s.ran
    ensures Placed(t) && AtHome(t) && NewestFirst(t)
  {
    hide Queued, Tickets, Falling;
  }

  lemma LookPlaces(s: State)
    requires Inv(s) && Enabled(s, Look)
    ensures Placed(LookOnce(s)) && AtHome(LookOnce(s)) && NewestFirst(LookOnce(s))
  {
    hide Placed, AtHome, NewestFirst, Quiet, Chained, Detach;
    var i := |s.chain| - s.worker.left;
    assert s.worker.left > 0 ==> s.chain[i] in s.chain;
    if s.worker.left > 0 && s.nodes[s.chain[i]] != [] {
      DetachPlaced(s, s.chain[i]);
      DetachAtHome(s, s.chain[i]);
      DetachFalling(s, s.chain[i]);
    } else {
      OnlyMoved(s, LookOnce(s));
    }
  }

  lemma LookChained(s: State)
    requires Chained(s) && Enabled(s, Look)
    ensures Chained(LookOnce(s))
  {
    hide Distinct, Detach;
    var i := |s.chain| - s.worker.left;
    assert s.worker.left > 0 ==> s.chain[i] in s.chain;
    if s.worker.left > 0 && s.nodes[s.chain[i]] != [] { DetachChained(s, s.chain[i]); }
  }

  lemma DetachChained(s: State, l: nat)
    requires Chained(s) && s.worker.Looking? && s.worker.left > 0 && l in s.nodes
    ensures Chained(Detach(s, l))
  {
    hide Distinct;
  }

  lemma NothingFalls(bound: nat)
    ensures Falling([], bound)
  {
  }

  lemma LookQuiet(s: State)
    requires Quiet(s) && Chained(s) && Enabled(s, Look)
    ensures Quiet(LookOnce(s))
  {
    hide Quiet, Chained, LookOnce;
    if s.worker.left == 0 { EndQuiet(s); } else { ListQuiet(s); }
  }

  lemma EndQuiet(s: State)
    requires Quiet(s) && Chained(s) && Enabled(s, Look) && s.worker.left == 0
    ensures Quiet(LookOnce(s))
  {
    hide Distinct, Detach;
    if !s.reaped { PassFoundNothing(s); }
  }

  lemma ListQuiet(s: State)
    requires Quiet(s) && Chained(s) && Enabled(s, Look) && s.worker.left > 0
    ensures Quiet(LookOnce(s))
  {
    hide Distinct;
  }

  lemma LookKeeps(s: State)
    requires Inv(s) && Enabled(s, Look)
    ensures Inv(LookOnce(s))
  {
    hide Chained, Placed, AtHome, Quiet, NewestFirst, LookOnce;
    LookPlaces(s);
    LookChained(s);
    LookQuiet(s);
  }

  /** At the end of a pass that found nothing every list is empty. */
  lemma PassFoundNothing(s: State)
    requires Chained(s) && LookedAtEmpty(s) && s.worker == Looking(0) && !s.reaped
    ensures AllEmpty(s)
  {
    forall l | l in s.nodes ensures s.nodes[l] == [] {
      var i :| 0 <= i < |s.chain| && s.chain[i] == l;
    }
  }

  lemma CallPlaced(s: State)
    requires Placed(s) && Enabled(s, Call)
    ensures Placed(CallOnce(s))
  {
    hide Queued, Tickets;
    var b := s.worker.batch;
    assert b == [b[0]] + b[1..];
    assert multiset(b) == multiset{b[0]} + multiset(b[1..]);
  }

  lemma CallAtHome(s: State)
    requires AtHome(s) && Enabled(s, Call)
    ensures AtHome(CallOnce(s))
  {
    var b := s.worker.batch;
    assert b[0] in b;
    assert forall t :: t in b[1..] ==> t in b;
  }

  lemma CallKeeps(s: State)
    requires Inv(s) && Enabled(s, Call)
    ensures Inv(CallOnce(s))
  {
    hide Placed, AtHome, NewestFirst, Distinct;
    CallPlaced(s);
    CallAtHome(s);
    CallFalling(s);
  }

  lemma CallFalling(s: State)
    requires NewestFirst(s) && Enabled(s, Call)
    ensures NewestFirst(CallOnce(s))
  {
    hide Falling;
    assert forall t :: t in s.worker.batch[1..] ==> t in s.worker.batch;
    TailFalls(s.worker.batch, s.made);
  }

  lemma TailFalls(q: seq<nat>, bound: nat)
    requires q != [] && Falling(q, bound)
    ensures Falling(q[1..], bound)
  {
  }

  lemma StepKeeps(s: State, e: Step)
    requires Inv(s) && Enabled(s, e)
    ensures Inv(Next(s, e))
  {
    hide Distinct, LookOnce, CallOnce, Queue, Placed, AtHome, NewestFirst;
    match e
    case Reap(l) => QueueChained(s, l); QueuePlaced(s, l); QueueAtHome(s, l); QueueFalling(s, l); QueueQuiet(s, l);
    case Look => LookKeeps(s);
    case Call => CallKeeps(s);
    case Relock => Idle(s); OnlyMoved(s.(worker := Parked), Next(s, e));
    case Unpark => OnlyMoved(s, Next(s, e));
    case Fini => Finishing(s);
    case DrainReturns =>
  }

  /** Between two batches the worker has nothing in hand. */
  lemma Idle(s: State)
    requires Placed(s) && AtHome(s) && NewestFirst(s) && Batch(s) == []
    ensures Placed(s.(worker := Parked)) && AtHome(s.(worker := Parked)) && NewestFirst(s.(worker := Parked))
  {
    hide Queued, Tickets, Falling;
  }

  lemma Finishing(s: State)
    requires Placed(s) && AtHome(s) && NewestFirst(s) && Unlocked(s)
    ensures var t := Next(s, Fini); Placed(t) && AtHome(t) && NewestFirst(t)
  {
  }

  lemma {:induction false} RunKeeps(s: State, es: seq<Step>, t: State)
    requires Inv(s) && Run(s, es, t)
    ensures Inv(t)
    decreases |es|
  {
    hide Inv, Enabled, Next;
    if es != [] {
      StepKeeps(s, es[0]);
      RunKeeps(Next(s, es[0]), es[1..], t);
    }
  }

  lemma InitInv(s: State)
    requires Init(s)
    ensures Inv(s)
  {
  }

  // ---- the promises ----

  ghost function Times(q: seq<nat>, t: nat): nat {
    multiset(q)[t]
  }

  /** Each nni_reap call is pending, in the worker's batch or done, in one of them and once. */
  lemma EachInOnePlace(s: State, es: seq<Step>, n: State, t: nat)
    requires Init(s) && Run(s, es, n) && t < n.made
    ensures Queued(n.chain, n.nodes)[t] + Times(Batch(n), t) + Times(n.done, t) == 1
    ensures t in n.done ==> t in n.home && t in n.ran && n.ran[t] == n.home[t]
  {
    hide Run, Init, Queued, Chained, Quiet, NewestFirst;
    InitInv(s);
    RunKeeps(s, es, n);
    TicketOnce(n.made, t);
  }

  /** When nni_reap_drain can return, no list has a node, the worker holds none, and every call was served once. */
  lemma DrainMeansDone(s: State, es: seq<Step>, n: State)
    requires Init(s) && Run(s, es, n) && Enabled(n, DrainReturns)
    ensures AllEmpty(n) && (n.worker.Parked? || n.worker.Exited?)
    ensures forall t: nat :: t < n.made ==> Times(n.done, t) == 1
    ensures multiset(n.done) == Tickets(n.made)
  {
    hide Run, Init, Queued, Chained, NewestFirst, AtHome;
    InitInv(s);
    RunKeeps(s, es, n);
    QueuedEmpty(n.chain, n.nodes);
    forall t: nat | t < n.made ensures Times(n.done, t) == 1 { TicketOnce(n.made, t); }
  }

  /** No wake-up is lost: the worker does not wait while a list has nodes, unless it has been woken. */
  lemma NeverForgotten(s: State, es: seq<Step>, n: State)
    requires Init(s) && Run(s, es, n) && n.worker.Parked? && !n.woken
    ensures AllEmpty(n) && n.empty && Enabled(n, DrainReturns)
  {
    hide Run, Queued, Chained, NewestFirst, AtHome, Placed;
    InitInv(s);
    RunKeeps(s, es, n);
    ParkedKeeps(s, es, n);
  }

  /** After the first park, reap_empty tells whether a list has nodes. */
  ghost predicate ParkedEmpty(s: State) {
    s.worker.Parked? && !s.woken ==> s.empty
  }

  lemma {:induction false} ParkedKeeps(s: State, es: seq<Step>, t: State)
    requires ParkedEmpty(s) && Run(s, es, t)
    ensures ParkedEmpty(t)
    decreases |es|
  {
    if es != [] { ParkedKeeps(Next(s, es[0]), es[1..], t); }
  }

  /**
   A batch is served newest first, and whatever is queued on its list meanwhile, by rl_func or anyone else, is newer
   than all of it: it waits for the next batch, although it goes to the front of the list.
   */
  lemma BatchOrder(s: State, es: seq<Step>, n: State)
    requires Init(s) && Run(s, es, n) && n.worker.Calling?
    ensures forall i, j :: 0 <= i < j < |n.worker.batch| ==> n.worker.batch[j] < n.worker.batch[i]
    ensures n.worker.list in n.nodes ==>
              forall t, u :: t in n.worker.batch && u in n.nodes[n.worker.list] ==> t < u
    ensures forall l, i, j :: l in n.nodes && 0 <= i < j < |n.nodes[l]| ==> n.nodes[l][j] < n.nodes[l][i]
  {
    hide Run, Init, Chained, Placed, AtHome, Quiet;
    InitInv(s);
    RunKeeps(s, es, n);
    assert Falling(Batch(n), n.made);
    forall l, i, j | l in n.nodes && 0 <= i < j < |n.nodes[l]| ensures n.nodes[l][j] < n.nodes[l][i] {
      assert Falling(n.nodes[l], n.made);
    }
  }

  /** Until it exits, the worker always has a step to take. */
  lemma WorkerNeverStuck(s: State, es: seq<Step>, n: State)
    requires Init(s) && Run(s, es, n) && !n.worker.Exited?
    ensures Enabled(n, Look) || Enabled(n, Call) || Enabled(n, Relock) || Enabled(n, Unpark)
  {
    hide Run, Init, Placed, AtHome, NewestFirst, Quiet;
    InitInv(s);
    RunKeeps(s, es, n);
  }

  // ---- stated on the events ----

  /** The list of every nni_reap call, in order. */
  ghost function Lists(es: seq<Step>): seq<nat> {
    if es == [] then [] else (if es[0].Reap? then [es[0].list] else []) + Lists(es[1..])
  }

  lemma {:induction false} HomeStays(s: State, es: seq<Step>, n: State, t: nat)
    requires Run(s, es, n) && t in s.home && t < s.made
    ensures t in n.home && n.home[t] == s.home[t]
    decreases |es|
  {
    hide Enabled, Next;
    if es != [] {
      StepLists(s, es[0]);
      HomeStays(Next(s, es[0]), es[1..], n, t);
    }
  }

  lemma {:induction false} RunCounts(s: State, es: seq<Step>, n: State)
    requires Run(s, es, n)
    ensures n.made == s.made + |Lists(es)|
    decreases |es|
  {
    hide Enabled, Next;
    if es != [] {
      StepLists(s, es[0]);
      RunCounts(Next(s, es[0]), es[1..], n);
    }
  }

  /** The list of a call: that of the first event, if it is a call, or of one of the rest. */
  lemma ListsAt(es: seq<Step>, i: nat)
    requires es != [] && i < |Lists(es)|
    ensures es[0].Reap? && i == 0 ==> Lists(es)[i] == es[0].list
    ensures es[0].Reap? && i > 0 ==> i - 1 < |Lists(es[1..])| && Lists(es)[i] == Lists(es[1..])[i - 1]
    ensures !es[0].Reap? ==> Lists(es) == Lists(es[1..])
  {
  }

  lemma {:induction false} RunLists(s: State, es: seq<Step>, n: State, i: nat)
    requires Run(s, es, n) && i < |Lists(es)|
    ensures s.made + i in n.home && n.home[s.made + i] == Lists(es)[i]
    decreases |es|
  {
    if es == [] {
      assert false;
    } else {
      FirstThen(s, es, n);
      hide Enabled, Next, Run, Lists;
      var m := Next(s, es[0]);
      StepLists(s, es[0]);
      ListsAt(es, i);
      if es[0].Reap? && i == 0 {
        HomeStays(m, es[1..], n, s.made);
      } else {
        RunLists(m, es[1..], n, if es[0].Reap? then i - 1 else i);
      }
    }
  }

  lemma FirstThen(s: State, es: seq<Step>, n: State)
    requires Run(s, es, n) && es != []
    ensures Enabled(s, es[0]) && Run(Next(s, es[0]), es[1..], n)
  {
  }

  lemma StepLists(s: State, e: Step)
    requires Enabled(s, e)
    ensures var n := Next(s, e);
            if e.Reap? then n.made == s.made + 1 && n.home == s.home[s.made := e.list]
            else n.made == s.made && n.home == s.home
  {
    hide LookOnce;
    if e.Look? { LookLists(s); }
  }

  lemma LookLists(s: State)
    requires Enabled(s, Look)
    ensures LookOnce(s).made == s.made && LookOnce(s).home == s.home
  {
    hide Detach;
    var i := |s.chain| - s.worker.left;
    assert s.worker.left > 0 ==> s.chain[i] in s.chain;
    if s.worker.left > 0 && s.nodes[s.chain[i]] != [] { DetachLists(s, s.chain[i]); }
  }

  lemma DetachLists(s: State, l: nat)
    requires s.worker.Looking? && l in s.nodes
    ensures Detach(s, l).made == s.made && Detach(s, l).home == s.home
  {
  }

  /** Over every run: the call of nni_reap number `t` has one place, and is served by the rl_func of its own list. */
  lemma ServedByItsList(s: State, es: seq<Step>, n: State, t: nat)
    requires Init(s) && Run(s, es, n) && t < |Lists(es)|
    ensures Queued(n.chain, n.nodes)[t] + Times(Batch(n), t) + Times(n.done, t) == 1
    ensures t in n.done ==> t in n.ran && n.ran[t] == Lists(es)[t]
    ensures forall l :: l in n.nodes && t in n.nodes[l] ==> l == Lists(es)[t]
    ensures n.worker.Calling? && t in n.worker.batch ==> n.worker.list == Lists(es)[t]
  {
    hide Run, Queued, Chained, Quiet, NewestFirst, Placed, Lists;
    InitInv(s);
    RunKeeps(s, es, n);
    RunCounts(s, es, n);
    RunLists(s, es, n, t);
    EachInOnePlace(s, es, n, t);
  }

  /** The worker has exited, or was told to, only after nni_reap_sys_fini; and once told it is not left waiting. */
  ghost predicate Told(s: State, told: bool) {
    (s.exit <==> told) && (s.worker.Exited? ==> told) && (s.worker.Parked? && !s.woken ==> !told)
  }

  lemma TellKeeps(s: State, e: Step, told: bool)
    requires Enabled(s, e) && Told(s, told)
    ensures Told(Next(s, e), told || e.Fini?)
  {
  }

  lemma {:induction false} RunTells(s: State, es: seq<Step>, n: State, told: bool)
    requires Run(s, es, n) && Told(s, told)
    ensures Told(n, told || Fini in es)
    decreases |es|
  {
    hide Enabled, Next, Told;
    if es != [] {
      assert Fini in es <==> es[0].Fini? || Fini in es[1..] by { assert es == [es[0]] + es[1..]; }
      TellKeeps(s, es[0], told);
      RunTells(Next(s, es[0]), es[1..], n, told || es[0].Fini?);
    }
  }

  /** Over every run: the worker exits only if told to, and does not go on waiting once told. */
  lemma ExitsWhenTold(s: State, es: seq<Step>, n: State)
    requires Init(s) && Run(s, es, n)
    ensures n.worker.Exited? ==> Fini in es
    ensures n.worker.Parked? && Fini in es ==> n.woken
    ensures Enabled(n, Look) && n.worker.left == 0 && !n.reaped ==> (Next(n, Look).worker.Exited? <==> Fini in es)
  {
    hide Run, Enabled, Detach;
    RunTells(s, es, n, false);
  }
}
