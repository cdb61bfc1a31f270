/** The intrusive doubly linked list (list.c): a ring of nodes through a list head. */
module RingList {

  class Node {
    var next: Node?
    var prev: Node?

    /** A node on no list. */
    constructor ()
      ensures Detached()
    {
      next, prev := null, null;
    }

    ghost predicate Detached()
      reads this
    {
      next == null && prev == null
    }
  }

  ghost function Succ(i: nat, n: nat): nat
    requires i < n
  {
    if i + 1 == n then 0 else i + 1
  }

  ghost function NodeAt(ring: seq<Node>, i: nat): Node
    requires i < |ring|
  {
    ring[i]
  }

  ghost predicate Distinct(ring: seq<Node>) {
    forall i, j :: 0 <= i < j < |ring| ==> ring[i] != ring[j]
  }

  /** Following `next` goes once around the ring, and `prev` is its inverse. */
  ghost predicate Linked(ring: seq<Node>)
    reads ring
  {
    forall i: nat :: i < |ring| ==> LinkAt(ring, i)
  }

  ghost predicate LinkAt(ring: seq<Node>, i: nat)
    requires i < |ring|
    reads ring
  {
    ring[i].next == ring[Succ(i, |ring|)] && ring[Succ(i, |ring|)].prev == ring[i]
  }

  /** The list with head `head` holds exactly `items`, in order. */
  ghost predicate IsList(head: Node, items: seq<Node>)
    reads head, items
  {
    Distinct([head] + items) && Linked([head] + items)
  }

  /** nni_list_init_offset */
  method Init(head: Node)
    modifies head
    ensures IsList(head, [])
  {
    head.next := head;
    head.prev := head;
    assert LinkAt([head] + [], 0);
  }

  /** nni_list_first */
  method First(head: Node, ghost items: seq<Node>) returns (r: Node?)
    requires IsList(head, items)
    ensures r == if items == [] then null else items[0]
  {
    assert LinkAt([head] + items, 0);
    r := head.next;
    if r == head { r := null; }
  }

  /** nni_list_last */
  method Last(head: Node, ghost items: seq<Node>) returns (r: Node?)
    requires IsList(head, items)
    ensures r == if items == [] then null else items[|items| - 1]
  {
    ghost var ring := [head] + items;
    assert LinkAt(ring, |items|);
    r := head.prev;
    if r == head { r := null; }
  }

  /** nni_list_next: the item after items[k]. */
  method Next(head: Node, node: Node, ghost items: seq<Node>, ghost k: nat) returns (r: Node?)
    requires IsList(head, items) && k < |items| && items[k] == node
    ensures r == if k + 1 < |items| then items[k + 1] else null
  {
    ghost var ring := [head] + items;
    assert LinkAt(ring, k + 1);
    assert k + 2 < |ring| ==> ring[0] != ring[k + 2];
    r := node.next;
    if r == head || r == null { r := null; }
  }

  /** nni_list_prev: the item before items[k]. */
  method Prev(head: Node, node: Node, ghost items: seq<Node>, ghost k: nat) returns (r: Node?)
    requires IsList(head, items) && k < |items| && items[k] == node
    ensures r == if k > 0 then items[k - 1] else null
  {
    ghost var ring := [head] + items;
    assert LinkAt(ring, k);
    assert k > 0 ==> ring[0] != ring[k];
    r := node.prev;
    if r == head || r == null { r := null; }
  }

  /** The neighbours between which items[..k] ends and items[k..] begins. */
  ghost function Before(head: Node, items: seq<Node>, k: nat): Node
    requires k <= |items|
  {
    if k == 0 then head else items[k - 1]
  }

  ghost function After(head: Node, items: seq<Node>, k: nat): Node
    requires k <= |items|
  {
    if k == |items| then head else items[k]
  }

  lemma OnRing(head: Node, items: seq<Node>, k: nat)
    requires k <= |items|
    ensures Before(head, items, k) in [head] + items && After(head, items, k) in [head] + items
  {
    var ring := [head] + items;
    assert ring[k] == Before(head, items, k) && (k < |items| ==> ring[k + 1] == items[k]);
  }

  lemma RingStep(head: Node, items: seq<Node>, k: nat)
    requires IsList(head, items) && k <= |items|
    ensures Before(head, items, k).next == After(head, items, k)
    ensures After(head, items, k).prev == Before(head, items, k)
  {
    var ring := [head] + items;
    assert LinkAt(ring, k);
  }

  // ---- rings as values: the nodes, their next fields and their prev fields ----

  ghost function Nexts(ring: seq<Node>): seq<Node?>
    reads ring
  {
    seq(|ring|, i requires 0 <= i < |ring| reads ring => ring[i].next)
  }

  ghost function Prevs(ring: seq<Node>): seq<Node?>
    reads ring
  {
    seq(|ring|, i requires 0 <= i < |ring| reads ring => ring[i].prev)
  }

  ghost predicate LinkedBy(ring: seq<Node>, next: seq<Node?>, prev: seq<Node?>) {
    && |next| == |prev| == |ring|
    && forall i: nat :: i < |ring| ==> LinkBy(ring, next, prev, i)
  }

  ghost predicate LinkBy(ring: seq<Node>, next: seq<Node?>, prev: seq<Node?>, i: nat)
    requires |next| == |prev| == |ring| && i < |ring|
  {
    next[i] == ring[Succ(i, |ring|)] && prev[Succ(i, |ring|)] == ring[i]
  }

  lemma LinkedByFields(ring: seq<Node>)
    ensures Linked(ring) <==> LinkedBy(ring, Nexts(ring), Prevs(ring))
  {
    var nx, pv := Nexts(ring), Prevs(ring);
    forall i: nat | i < |ring| ensures LinkAt(ring, i) <==> LinkBy(ring, nx, pv, i) {}
  }

  /** A sequence with one more element after position k. */
  ghost function Grown<T>(s: seq<T>, k: nat, x: T): (r: seq<T>)
    requires k < |s|
    ensures |r| == |s| + 1
    ensures forall i :: 0 <= i < |r| ==> r[i] == if i <= k then s[i] else if i == k + 1 then x else s[i - 1]
  {
    s[..k + 1] + [x] + s[k + 1..]
  }

  lemma GrownLinks(ring: seq<Node>, next: seq<Node?>, prev: seq<Node?>, k: nat, node: Node)
    requires k < |ring| && LinkedBy(ring, next, prev)
    ensures LinkedBy(Grown(ring, k, node),
                     Grown(next[k := node], k, ring[Succ(k, |ring|)]),
                     Grown(prev[Succ(k, |ring|) := node], k, ring[k]))
  {
    var n, j := |ring|, Succ(k, |ring|);
    var r, nx, pv := Grown(ring, k, node), Grown(next[k := node], k, ring[j]), Grown(prev[j := node], k, ring[k]);
    forall i: nat | i < n + 1 ensures LinkBy(r, nx, pv, i) {
      if i < k {
        assert LinkBy(ring, next, prev, i);
      } else if i > k + 1 {
        assert LinkBy(ring, next, prev, i - 1);
      }
    }
  }

  lemma GrownFields(ring: seq<Node>, k: nat, node: Node)
    requires k < |ring|
    ensures Nexts(Grown(ring, k, node)) == Grown(Nexts(ring), k, node.next)
    ensures Prevs(Grown(ring, k, node)) == Grown(Prevs(ring), k, node.prev)
  {
    var r := Grown(ring, k, node);
    forall i | 0 <= i < |r|
      ensures Nexts(r)[i] == Grown(Nexts(ring), k, node.next)[i] && Prevs(r)[i] == Grown(Prevs(ring), k, node.prev)[i]
    {}
  }

  lemma GrownItems(head: Node, items: seq<Node>, k: nat, node: Node)
    requires k <= |items|
    ensures [head] + (items[..k] + [node] + items[k..]) == Grown([head] + items, k, node)
  {
  }

  lemma GrownDistinct(ring: seq<Node>, k: nat, node: Node)
    requires k < |ring| && Distinct(ring) && node !in ring
    ensures Distinct(Grown(ring, k, node))
  {
  }

  lemma At(ring: seq<Node>, i: nat, j: nat)
    requires Distinct(ring) && i < |ring| && j < |ring|
    ensures ring[i] == ring[j] <==> i == j
  {
  }

  /** node->ln_next->ln_prev = node; node->ln_prev->ln_next = node; */
  method Splice(node: Node, ghost ring: seq<Node>, ghost k: nat)
    requires k < |ring| && Distinct(ring) && Linked(ring) && node !in ring
    requires node.prev == ring[k] && node.next == ring[Succ(k, |ring|)]
    modifies NodeAt(ring, k)`next, NodeAt(ring, Succ(k, |ring|))`prev
    ensures Distinct(Grown(ring, k, node)) && Linked(Grown(ring, k, node))
  {
    hide Distinct, Grown, Linked, LinkedBy;
    ghost var j := Succ(k, |ring|);
    ghost var nx, pv := Nexts(ring), Prevs(ring);
    LinkedByFields(ring);
    GrownDistinct(ring, k, node);
    node.next.prev := node;
    node.prev.next := node;
    forall i | 0 <= i < |ring| ensures Nexts(ring)[i] == nx[k := node][i] { At(ring, i, k); }
    assert Nexts(ring) == nx[k := node];
    forall i | 0 <= i < |ring| ensures Prevs(ring)[i] == pv[j := node][i] { At(ring, i, j); }
    assert Prevs(ring) == pv[j := node];
    GrownLinks(ring, nx, pv, k, node);
    GrownFields(ring, k, node);
    LinkedByFields(Grown(ring, k, node));
  }

  // ---- other lists ----

  /** Two rings that share a node share them all; here, the first one's head. */
  lemma {:induction false} SharesHead(ring: seq<Node>, other: seq<Node>, i: nat)
    requires Linked(ring) && Linked(other) && i < |ring| && ring[i] in other
    ensures ring[0] in other
    decreases |ring| - i
  {
    var j :| 0 <= j < |other| && other[j] == ring[i];
    assert LinkAt(ring, i) && LinkAt(other, j);
    if i + 1 < |ring| { SharesHead(ring, other, i + 1); }
  }

  lemma {:induction false} SharesAll(ring: seq<Node>, other: seq<Node>, i: nat)
    requires Linked(ring) && Linked(other) && i < |ring| && ring[0] in other
    ensures ring[i] in other
  {
    if i > 0 {
      SharesAll(ring, other, i - 1);
      var j :| 0 <= j < |other| && other[j] == ring[i - 1];
      assert LinkAt(ring, i - 1) && LinkAt(other, j);
    }
  }

  /** Lists with the head of one not on the other have no node in common. */
  lemma Apart(head: Node, items: seq<Node>, other: Node, others: seq<Node>)
    requires IsList(head, items) && IsList(other, others) && head !in [other] + others
    ensures forall n :: n in [head] + items ==> n !in [other] + others
  {
    var ring, away := [head] + items, [other] + others;
    forall n | n in ring ensures n !in away {
      var i :| 0 <= i < |ring| && ring[i] == n;
      if n in away { SharesHead(ring, away, i); }
    }
  }

  /** nni_list_append */
  method Append(head: Node, node: Node, ghost items: seq<Node>)
    requires IsList(head, items) && node.Detached()
    modifies node, Before(head, items, |items|)`next, head`prev
    ensures IsList(head, items + [node])
    ensures forall h: Node, xs: seq<Node> ::
              old(allocated(h)) && old(allocated(xs)) && old(IsList(h, xs)) && head !in [h] + xs ==> IsList(h, xs)
  {
    forall h: Node, xs: seq<Node> | IsList(h, xs) && head !in [h] + xs
      ensures node !in [h] + xs && forall n :: n in [head] + items ==> n !in [h] + xs
    {
      NotOn(h, xs, node);
      Apart(head, items, h, xs);
    }
    NotOn(head, items, node);
    RingStep(head, items, |items|);
    OnRing(head, items, |items|);
    node.prev := head.prev;
    node.next := head;
    GrownItems(head, items, |items|, node);
    assert items[..|items|] + [node] + items[|items|..] == items + [node];
    Splice(node, [head] + items, |items|);
  }

  /** nni_list_prepend */
  method Prepend(head: Node, node: Node, ghost items: seq<Node>)
    requires IsList(head, items) && node.Detached()
    modifies node, After(head, items, 0)`prev, head`next
    ensures IsList(head, [node] + items)
    ensures forall h: Node, xs: seq<Node> ::
              old(allocated(h)) && old(allocated(xs)) && old(IsList(h, xs)) && head !in [h] + xs ==> IsList(h, xs)
  {
    forall h: Node, xs: seq<Node> | IsList(h, xs) && head !in [h] + xs
      ensures node !in [h] + xs && forall n :: n in [head] + items ==> n !in [h] + xs
    {
      NotOn(h, xs, node);
      Apart(head, items, h, xs);
    }
    NotOn(head, items, node);
    RingStep(head, items, 0);
    OnRing(head, items, 0);
    node.next := head.next;
    node.prev := head;
    GrownItems(head, items, 0, node);
    assert items[..0] + [node] + items[0..] == [node] + items;
    Splice(node, [head] + items, 0);
  }

  /** nni_list_insert_before */
  method InsertBefore(node: Node, before: Node, ghost head: Node, ghost items: seq<Node>, ghost k: nat)
    requires IsList(head, items) && node.Detached() && k < |items| && items[k] == before
    modifies node, Before(head, items, k)`next, before`prev
    ensures IsList(head, items[..k] + [node] + items[k..])
    ensures forall h: Node, xs: seq<Node> ::
              old(allocated(h)) && old(allocated(xs)) && old(IsList(h, xs)) && head !in [h] + xs ==> IsList(h, xs)
  {
    forall h: Node, xs: seq<Node> | IsList(h, xs) && head !in [h] + xs
      ensures node !in [h] + xs && forall n :: n in [head] + items ==> n !in [h] + xs
    {
      NotOn(h, xs, node);
      Apart(head, items, h, xs);
    }
    NotOn(head, items, node);
    RingStep(head, items, k);
    OnRing(head, items, k);
    node.next := before;
    node.prev := before.prev;
    GrownItems(head, items, k, node);
    Splice(node, [head] + items, k);
  }

  /** nni_list_insert_after */
  method InsertAfter(node: Node, after: Node, ghost head: Node, ghost items: seq<Node>, ghost k: nat)
    requires IsList(head, items) && node.Detached() && k < |items| && items[k] == after
    modifies node, after`next, After(head, items, k + 1)`prev
    ensures IsList(head, items[..k + 1] + [node] + items[k + 1..])
    ensures forall h: Node, xs: seq<Node> ::
              old(allocated(h)) && old(allocated(xs)) && old(IsList(h, xs)) && head !in [h] + xs ==> IsList(h, xs)
  {
    forall h: Node, xs: seq<Node> | IsList(h, xs) && head !in [h] + xs
      ensures node !in [h] + xs && forall n :: n in [head] + items ==> n !in [h] + xs
    {
      NotOn(h, xs, node);
      Apart(head, items, h, xs);
    }
    NotOn(head, items, node);
    RingStep(head, items, k + 1);
    OnRing(head, items, k + 1);
    node.prev := after;
    node.next := after.next;
    GrownItems(head, items, k + 1, node);
    Splice(node, [head] + items, k + 1);
  }

  /** A detached node is on no list. */
  lemma NotOn(head: Node, items: seq<Node>, node: Node)
    requires IsList(head, items) && node.Detached()
    ensures node !in [head] + items
  {
    var ring := [head] + items;
    forall i: nat | i < |ring| ensures ring[i] != node { assert LinkAt(ring, i); }
  }

  /** A sequence without the element at position k + 1. */
  ghost function Shrunk<T>(s: seq<T>, k: nat): (r: seq<T>)
    requires k + 1 < |s|
    ensures |r| == |s| - 1
    ensures forall i :: 0 <= i < |r| ==> r[i] == if i <= k then s[i] else s[i + 1]
  {
    s[..k + 1] + s[k + 2..]
  }

  lemma ShrunkLinks(ring: seq<Node>, next: seq<Node?>, prev: seq<Node?>, k: nat)
    requires k + 1 < |ring| && LinkedBy(ring, next, prev)
    ensures var j := Succ(k + 1, |ring|);
            LinkedBy(Shrunk(ring, k), Shrunk(next[k := ring[j]], k), Shrunk(prev[j := ring[k]], k))
  {
    var n, j := |ring|, Succ(k + 1, |ring|);
    var r, nx, pv := Shrunk(ring, k), Shrunk(next[k := ring[j]], k), Shrunk(prev[j := ring[k]], k);
    forall i: nat | i < n - 1 ensures LinkBy(r, nx, pv, i) {
      if i < k {
        assert LinkBy(ring, next, prev, i);
      } else if i > k {
        assert LinkBy(ring, next, prev, i + 1);
      }
    }
  }

  lemma ShrunkFields(ring: seq<Node>, k: nat, next: seq<Node?>, prev: seq<Node?>)
    requires k + 1 < |ring| == |next| == |prev|
    requires forall i :: 0 <= i < |ring| && i != k + 1 ==> ring[i].next == next[i] && ring[i].prev == prev[i]
    ensures Nexts(Shrunk(ring, k)) == Shrunk(next, k) && Prevs(Shrunk(ring, k)) == Shrunk(prev, k)
  {
    var r := Shrunk(ring, k);
    forall i | 0 <= i < |r| ensures Nexts(r)[i] == Shrunk(next, k)[i] && Prevs(r)[i] == Shrunk(prev, k)[i] {}
  }

  /** nni_list_remove and the active branch of nni_list_node_remove */
  method Unlink(node: Node, ghost ring: seq<Node>, ghost k: nat)
    requires Distinct(ring) && Linked(ring) && k + 1 < |ring| && ring[k + 1] == node
    modifies node, NodeAt(ring, k)`next, NodeAt(ring, Succ(k + 1, |ring|))`prev
    ensures Distinct(Shrunk(ring, k)) && Linked(Shrunk(ring, k)) && node.Detached() && node !in Shrunk(ring, k)
  {
    hide Distinct, Shrunk, LinkedBy;
    ghost var j := Succ(k + 1, |ring|);
    ghost var nx, pv := Nexts(ring), Prevs(ring);
    LinkedByFields(ring);
    ShrunkDistinct(ring, k);
    assert LinkAt(ring, k) && LinkAt(ring, k + 1);
    At(ring, k, k + 1);
    At(ring, j, k + 1);
    node.prev.next := node.next;
    node.next.prev := node.prev;
    node.next := null;
    node.prev := null;
    forall i | 0 <= i < |ring| && i != k + 1
      ensures ring[i].next == nx[k := ring[j]][i] && ring[i].prev == pv[j := ring[k]][i]
    {
      At(ring, i, k);
      At(ring, i, j);
      At(ring, i, k + 1);
    }
    ShrunkLinks(ring, nx, pv, k);
    ShrunkFields(ring, k, nx[k := ring[j]], pv[j := ring[k]]);
    LinkedByFields(Shrunk(ring, k));
  }

  lemma ShrunkDistinct(ring: seq<Node>, k: nat)
    requires k + 1 < |ring| && Distinct(ring)
    ensures Distinct(Shrunk(ring, k)) && ring[k + 1] !in Shrunk(ring, k)
  {
  }

  /** A list that does not hold one of the items has no node in common with the others either. */
  lemma NoneShares(head: Node, items: seq<Node>, k: nat)
    requires IsList(head, items) && k < |items|
    ensures forall h: Node, xs: seq<Node> | IsList(h, xs) && items[k] !in [h] + xs ::
              forall n :: n in [head] + items ==> n !in [h] + xs
  {
    forall h: Node, xs: seq<Node> | IsList(h, xs) && items[k] !in [h] + xs
      ensures forall n :: n in [head] + items ==> n !in [h] + xs
    {
      if head in [h] + xs { SharesAll([head] + items, [h] + xs, k + 1); }
      Apart(head, items, h, xs);
    }
  }

  /**
   nni_list_node_remove, given only the node: it leaves whichever list holds it, here the `k`-th item of `items`,
   and a detached node stays as it is. Every list that does not hold the node is unchanged.
   */
  method NodeRemove(node: Node, ghost head: Node, ghost items: seq<Node>, ghost k: nat)
    requires node.next != null ==> IsList(head, items) && k < |items| && items[k] == node
    requires node.next == null ==> node.Detached()
    modifies if node.next == null then {} else {node, node.prev, node.next}
    ensures node.Detached()
    ensures old(node.next) != null ==>
              IsList(head, items[..k] + items[k + 1..]) && node !in [head] + items[..k] + items[k + 1..]
    ensures forall h: Node, xs: seq<Node> ::
              old(allocated(h)) && old(allocated(xs)) && old(IsList(h, xs)) && node !in [h] + xs ==> IsList(h, xs)
  {
    hide Distinct, Linked;
    if node.next != null {
      ghost var ring := [head] + items;
      NoneShares(head, items, k);
      RingStep(head, items, k);
      RingStep(head, items, k + 1);
      OnRing(head, items, k);
      OnRing(head, items, k + 1);
      assert Shrunk(ring, k) == [head] + (items[..k] + items[k + 1..]);
      assert [head] + items[..k] + items[k + 1..] == [head] + (items[..k] + items[k + 1..]);
      Unlink(node, ring, k);
    }
  }

  /** Where a node is before it moves: on no list, on the target itself, or on a list the target's head is not on. */
  ghost predicate Movable(node: Node, head: Node, items: seq<Node>, from: Node, others: seq<Node>, k: nat)
    reads node, from, others
  {
    if node.next == null then node.Detached()
    else
      && IsList(from, others) && k < |others| && others[k] == node
      && (head !in [from] + others || (from == head && others == items))
  }

  /** nni_aio_list_append: an item moves from wherever it is to the end of a list; all other lists stay. */
  method MoveTo(head: Node, node: Node, ghost items: seq<Node>, ghost from: Node, ghost others: seq<Node>, ghost k: nat)
    requires IsList(head, items) && Movable(node, head, items, from, others, k)
    modifies node, if node.next == null then {} else {node.prev, node.next}
    modifies head`prev, Before(head, items, |items|)`next
    ensures old(node.next) == null ==> IsList(head, items + [node])
    ensures old(node.next) != null && from == head ==> IsList(head, items[..k] + items[k + 1..] + [node])
    ensures old(node.next) != null && from != head ==>
              IsList(head, items + [node]) && IsList(from, others[..k] + others[k + 1..])
    ensures forall h: Node, xs: seq<Node> ::
              && old(allocated(h)) && old(allocated(xs)) && old(IsList(h, xs)) && head !in [h] + xs && node !in [h] + xs
              ==> IsList(h, xs)
  {
    hide Distinct, Linked;
    ghost var left := items;
    if node.next != null {
      if from == head {
        left := items[..k] + items[k + 1..];
        RingStep(head, items, k);
        assert Before(head, left, |left|) == if k + 1 == |items| then node.prev else Before(head, items, |items|);
      } else {
        Apart(head, items, from, others);
        assert node in [from] + others;
      }
    }
    NodeRemove(node, from, others, k);
    assert IsList(head, left);
    Append(head, node, left);
  }
}
