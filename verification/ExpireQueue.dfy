/** The expiration queue of aio.c: its list of waiting operations, and the batch scan of the expire thread. */
module ExpireQueue {

  // NNI_TIME_NEVER and NNI_EXPIRE_BATCH
  const NEVER: nat := 0xffff_ffff_ffff_ffff
  const BATCH: nat := 100

  /** What a scan does with the list: the batch it takes, what it leaves, and the new eq_next. */
  datatype Scanned = Scanned(batch: seq<nat>, keep: seq<nat>, next: nat)

  function Min(x: nat, y: nat): nat {
    if x < y then x else y
  }

  /** One pass over the list at time `now`, with room for `room` more expired operations. */
  ghost function Scan(list: seq<nat>, expire: map<nat, nat>, now: nat, room: nat): (r: Scanned)
    requires forall a :: a in list ==> a in expire
    ensures r.next <= NEVER
  {
    if list == [] then Scanned([], [], NEVER)
    else if expire[list[0]] < now && room > 0 then
      var r := Scan(list[1..], expire, now, room - 1);
      r.(batch := [list[0]] + r.batch)
    else
      var r := Scan(list[1..], expire, now, room);
      r.(keep := [list[0]] + r.keep, next := Min(expire[list[0]], r.next))
  }

  /** No operation is lost or invented, only overdue ones are taken, and eq_next covers all that stay. */
  lemma {:induction false} ScanPartitions(list: seq<nat>, expire: map<nat, nat>, now: nat, room: nat)
    requires forall a :: a in list ==> a in expire
    ensures var r := Scan(list, expire, now, room);
            && multiset(list) == multiset(r.batch) + multiset(r.keep)
            && (forall a :: a in list <==> a in r.batch || a in r.keep)
            && |r.batch| <= room
            && (forall a :: a in r.batch ==> a in list && expire[a] < now)
            && (forall a :: a in r.keep ==> a in list && r.next <= expire[a])
  {
    hide Scan;
    ScanCounts(list, expire, now, room);
    ScanDeadlines(list, expire, now, room);
    SameMembers(list, Scan(list, expire, now, room).batch, Scan(list, expire, now, room).keep);
  }

  lemma SameMembers(list: seq<nat>, batch: seq<nat>, keep: seq<nat>)
    requires multiset(list) == multiset(batch) + multiset(keep)
    ensures forall a :: a in list <==> a in batch || a in keep
  {
    forall a ensures a in list <==> a in batch || a in keep {
      assert a in list <==> a in multiset(list);
      assert a in batch <==> a in multiset(batch);
      assert a in keep <==> a in multiset(keep);
    }
  }

  lemma {:induction false} ScanCounts(list: seq<nat>, expire: map<nat, nat>, now: nat, room: nat)
    requires forall a :: a in list ==> a in expire
    ensures var r := Scan(list, expire, now, room);
            multiset(list) == multiset(r.batch) + multiset(r.keep) && |r.batch| <= room
  {
    if list != [] {
      assert list == [list[0]] + list[1..];
      var overdue := expire[list[0]] < now && room > 0;
      ScanCounts(list[1..], expire, now, if overdue then room - 1 else room);
    }
  }

  lemma {:induction false} ScanDeadlines(list: seq<nat>, expire: map<nat, nat>, now: nat, room: nat)
    requires forall a :: a in list ==> a in expire
    ensures var r := Scan(list, expire, now, room);
            && (forall a :: a in r.batch ==> a in list && expire[a] < now)
            && (forall a :: a in r.keep ==> a in list && r.next <= expire[a])
  {
    if list != [] {
      assert list == [list[0]] + list[1..];
      var overdue := expire[list[0]] < now && room > 0;
      ScanDeadlines(list[1..], expire, now, if overdue then room - 1 else room);
    }
  }

  /** An overdue operation stays behind only when the batch is full. */
  lemma {:induction false} ScanTakesOverdue(list: seq<nat>, expire: map<nat, nat>, now: nat, room: nat, a: nat)
    requires forall a :: a in list ==> a in expire
    requires a in Scan(list, expire, now, room).keep && a in list && expire[a] < now
    ensures |Scan(list, expire, now, room).batch| == room
  {
    var overdue := expire[list[0]] < now && room > 0;
    var rest := Scan(list[1..], expire, now, if overdue then room - 1 else room);
    if a in rest.keep {
      ScanPartitions(list[1..], expire, now, if overdue then room - 1 else room);
      ScanTakesOverdue(list[1..], expire, now, if overdue then room - 1 else room, a);
    } else {
      ScanPartitions(list[1..], expire, now, room);
    }
  }

  /** eq_next is not too early either: it is the deadline of an operation that stays, or never. */
  lemma {:induction false} ScanNext(list: seq<nat>, expire: map<nat, nat>, now: nat, room: nat)
    requires forall a :: a in list ==> a in expire
    ensures var r := Scan(list, expire, now, room);
            r.next == NEVER || exists a :: a in r.keep && a in expire && r.next == expire[a]
  {
    if list != [] {
      var overdue := expire[list[0]] < now && room > 0;
      var rest := Scan(list[1..], expire, now, if overdue then room - 1 else room);
      ScanNext(list[1..], expire, now, if overdue then room - 1 else room);
      if !overdue {
        var r := Scan(list, expire, now, room);
        assert list[0] in r.keep && forall a :: a in rest.keep ==> a in r.keep;
      }
    }
  }

  /** A scan in progress: `done` so far, `r` for the rest of the list. */
  ghost function Glue(done: Scanned, r: Scanned): Scanned {
    Scanned(done.batch + r.batch, done.keep + r.keep, Min(done.next, r.next))
  }

  /** The operation at position `at` is taken ... */
  lemma GlueTaken(list: seq<nat>, at: nat, expire: map<nat, nat>, now: nat, room: nat, done: Scanned)
    requires forall a :: a in list ==> a in expire
    requires at < |list| && expire[list[at]] < now && room > 0
    ensures Glue(done, Scan(list[at..], expire, now, room))
         == Glue(done.(batch := done.batch + [list[at]]), Scan(list[at + 1..], expire, now, room - 1))
  {
    assert list[at..][0] == list[at] && list[at..][1..] == list[at + 1..];
    var r := Scan(list[at + 1..], expire, now, room - 1);
    assert done.batch + ([list[at]] + r.batch) == done.batch + [list[at]] + r.batch;
  }

  /** ... or stays. */
  lemma GlueKept(list: seq<nat>, at: nat, expire: map<nat, nat>, now: nat, room: nat, done: Scanned)
    requires forall a :: a in list ==> a in expire
    requires at < |list| && !(expire[list[at]] < now && room > 0)
    ensures Glue(done, Scan(list[at..], expire, now, room))
         == Glue(done.(keep := done.keep + [list[at]], next := Min(done.next, expire[list[at]])),
                 Scan(list[at + 1..], expire, now, room))
  {
    assert list[at..][0] == list[at] && list[at..][1..] == list[at + 1..];
    var r := Scan(list[at + 1..], expire, now, room);
    assert done.keep + ([list[at]] + r.keep) == done.keep + [list[at]] + r.keep;
  }

  lemma GlueEnds(expire: map<nat, nat>, now: nat, room: nat, done: Scanned)
    requires done.next <= NEVER
    ensures Glue(done, Scan([], expire, now, room)) == done
    ensures forall r: Scanned :: r.next <= NEVER ==> Glue(Scanned([], [], NEVER), r) == r
  {
  }

  /** The list without `a` (nni_list_node_remove). */
  function Without(list: seq<nat>, a: nat): (r: seq<nat>)
    ensures a !in r
    ensures forall b :: b != a ==> (b in r <==> b in list)
  {
    if list == [] then []
    else if list[0] == a then Without(list[1..], a)
    else [list[0]] + Without(list[1..], a)
  }

  class Queue {
    var list: seq<nat>
    var next: nat
    var expire: map<nat, nat>  // a_expire of every operation

    /** eq_next is at most the deadline of every listed operation. */
    ghost predicate Covered()
      reads this
    {
      forall a :: a in list ==> a in expire && next <= expire[a]
    }

    constructor (expire: map<nat, nat>)
      ensures Covered() && list == [] && next == NEVER && this.expire == expire
    {
      list, next, this.expire := [], NEVER, expire;
    }

    /** nni_aio_expire_add; the result says whether the expire thread was woken. */
    method Add(a: nat) returns (woken: bool)
      requires Covered() && a !in list && a in expire
      modifies this`list, this`next
      ensures Covered() && list == old(list) + [a]
      ensures woken == (expire[a] < old(next)) && next == Min(expire[a], old(next))
    {
      list := list + [a];
      woken := next > expire[a];
      if woken { next := expire[a]; }
    }

    /** nni_aio_expire_rm leaves eq_next alone. */
    method Remove(a: nat)
      requires Covered()
      modifies this`list
      ensures Covered() && list == Without(old(list), a)
    {
      list := Without(list, a);
    }

    /** The scan of nni_aio_expire_loop: move up to a batch of overdue operations off the list. */
    method Collect(now: nat) returns (batch: seq<nat>)
      requires Covered()
      modifies this`list, this`next
      ensures Covered()
      ensures Scanned(batch, list, next) == Scan(old(list), expire, now, BATCH)
    {
      hide Scan, Glue;
      ghost var was := list;
      batch, next := [], NEVER;
      assert was[0..] == was;
      GlueEnds(expire, now, BATCH, Scanned([], [], NEVER));
      var aios, kept, at := list, [], 0;
      while at < |aios|
        invariant at <= |aios| && aios == was && list == kept + aios[at..] && |batch| <= BATCH && next <= NEVER
        invariant forall a :: a in was ==> a in expire
        invariant Scan(was, expire, now, BATCH)
               == Glue(Scanned(batch, kept, next), Scan(was[at..], expire, now, BATCH - |batch|))
      {
        var a := aios[at];
        ghost var done := Scanned(batch, kept, next);
        if expire[a] < now && |batch| < BATCH {
          GlueTaken(was, at, expire, now, BATCH - |batch|, done);
          batch := batch + [a];
          list := kept + aios[at + 1..];
        } else {
          GlueKept(was, at, expire, now, BATCH - |batch|, done);
          if expire[a] < next { next := expire[a]; }
          assert kept + aios[at..] == kept + [a] + aios[at + 1..];
          kept := kept + [a];
        }
        at := at + 1;
      }
      GlueEnds(expire, now, BATCH - |batch|, Scanned(batch, kept, next));
      ScanPartitions(was, expire, now, BATCH);
    }
  }
}
