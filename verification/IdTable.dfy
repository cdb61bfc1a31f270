/**
 The identifier table as a value: what its cells mean, and what placing and removing a key do to them.
 A cell's `skips` counts the stored keys whose probe path passes over the cell before reaching their own.
 */
module IdTable {
  import opened Wrappers
  import opened Bits
  import opened Probe

  datatype Entry<V> = Entry(key: nat, skips: int, val: Option<V>)

  type Table<V> = seq<Entry<V>>

  /** Does the probe path from `home` to `slot` pass over cell `c` before it arrives? */
  ghost predicate PassesOver(cap: nat, home: nat, slot: nat, c: nat)
    requires IsPow2(cap) && home < cap && slot < cap && c < cap
  {
    Dist(cap, home, c) < Dist(cap, home, slot)
  }

  ghost function HomeOf(cap: nat, id: nat): (h: nat)
    requires IsPow2(cap)
    ensures h < cap && h == Home(cap, id)
  {
    HomeInRange(cap, id);
    Home(cap, id)
  }

  predicate Occupied<V>(s: Table<V>, i: nat) {
    i < |s| && s[i].val.Some?
  }

  /** The cells whose keys pass over cell `c`. */
  ghost function Passers<V>(s: Table<V>, c: nat): set<nat>
    requires IsPow2(|s|) && c < |s|
  {
    set i: nat | i < |s| && Occupied(s, i) && PassesOver(|s|, HomeOf(|s|, s[i].key), i, c)
  }

  ghost function Cells<V>(s: Table<V>): set<nat> {
    set i: nat | i < |s| && Occupied(s, i)
  }

  ghost function SkipSum<V>(s: Table<V>): int {
    if s == [] then 0 else s[0].skips + SkipSum(s[1..])
  }

  ghost predicate SkipsExact<V>(s: Table<V>)
    requires IsPow2(|s|)
  {
    forall c: nat :: c < |s| ==> s[c].skips == |Passers(s, c)|
  }

  ghost predicate KeysDistinct<V>(s: Table<V>) {
    forall i: nat, j: nat :: Occupied(s, i) && Occupied(s, j) && s[i].key == s[j].key ==> i == j
  }

  ghost predicate TableOk<V>(s: Table<V>) {
    IsPow2(|s|) && SkipsExact(s) && KeysDistinct(s)
  }

  lemma TableSize<V>(s: Table<V>)
    requires TableOk(s)
    ensures IsPow2(|s|) && |s| >= 1
  {
  }

  ghost predicate HasKey<V>(s: Table<V>, id: nat) {
    exists i: nat :: Occupied(s, i) && s[i].key == id
  }

  /** The table stores exactly the bindings of `m`. */
  ghost predicate Represents<V>(s: Table<V>, m: map<nat, V>) {
    && (forall i: nat :: Occupied(s, i) ==> s[i].key in m && m[s[i].key] == s[i].val.value)
    && (forall id :: id in m ==> HasKey(s, id))
  }

  // ---- looking a key up ----

  /** A key further along the probe path than `c` keeps the skip counter of `c` above zero. */
  lemma PassedCellHasSkips<V>(s: Table<V>, slot: nat, c: nat)
    requires TableOk(s) && Occupied(s, slot) && c < |s|
    requires PassesOver(|s|, HomeOf(|s|, s[slot].key), slot, c)
    ensures s[c].skips >= 1
  {
    assert slot in Passers(s, c);
  }

  /** Stopping at a cell with no skips is sound: none of the cells further along can hold the key. */
  lemma EarlyStop<V>(s: Table<V>, id: nat, n: nat)
    requires TableOk(s) && n < |s|
    requires forall i: nat :: i <= n ==>
               var c := Walk(|s|, HomeOf(|s|, id), i); !(Occupied(s, c) && s[c].key == id)
    requires var c := Walk(|s|, HomeOf(|s|, id), n); c < |s| && s[c].skips == 0
    ensures !HasKey(s, id)
  {
    if HasKey(s, id) {
      var slot: nat :| Occupied(s, slot) && s[slot].key == id;
      var h := HomeOf(|s|, id);
      DistOfWalk(|s|, h, n);
      PassedCellHasSkips(s, slot, Walk(|s|, h, n));
      assert false;
    }
  }

  /** A whole round without meeting the key proves its absence. */
  lemma WholeRound<V>(s: Table<V>, id: nat)
    requires TableOk(s)
    requires forall i: nat :: i < |s| ==>
               var c := Walk(|s|, HomeOf(|s|, id), i); !(Occupied(s, c) && s[c].key == id)
    ensures !HasKey(s, id)
  {
    if HasKey(s, id) {
      var slot: nat :| Occupied(s, slot) && s[slot].key == id;
      var n := Dist(|s|, HomeOf(|s|, id), slot);
      assert false;
    }
  }

  // ---- walking over cells ----

  /** Add `d` to the skip counters of the first `n` cells on the probe path from `home`. */
  ghost function Bump<V>(s: Table<V>, home: nat, n: nat, d: int): (t: Table<V>)
    requires IsPow2(|s|) && home < |s|
    ensures |t| == |s|
  {
    seq(|s|, c requires 0 <= c < |s| =>
      if Dist(|s|, home, c) < n then s[c].(skips := s[c].skips + d) else s[c])
  }

  lemma BumpNone<V>(s: Table<V>, home: nat, d: int)
    requires IsPow2(|s|) && home < |s|
    ensures Bump(s, home, 0, d) == s
  {
  }

  lemma BumpOneMore<V>(s: Table<V>, home: nat, n: nat, d: int)
    requires IsPow2(|s|) && home < |s| && n < |s|
    ensures var c := Walk(|s|, home, n);
            && c < |s|
            && Bump(s, home, n, d)[c] == s[c]
            && Bump(s, home, n + 1, d) == Bump(s, home, n, d)[c := s[c].(skips := s[c].skips + d)]
  {
    DistOfWalk(|s|, home, n);
    var c := Walk(|s|, home, n);
    var t, u := Bump(s, home, n, d), Bump(s, home, n + 1, d);
    forall j: nat | j < |s| && j != c ensures u[j] == t[j] {
      assert Walk(|s|, home, Dist(|s|, home, j)) == j;
    }
    assert u == t[c := u[c]];
  }

  lemma {:induction false} SkipSumUpdate<V>(s: Table<V>, c: nat, e: Entry<V>)
    requires c < |s|
    ensures SkipSum(s[c := e]) == SkipSum(s) - s[c].skips + e.skips
  {
    if c == 0 {
      assert s[c := e][1..] == s[1..];
    } else {
      assert s[c := e][1..] == s[1..][c - 1 := e];
      SkipSumUpdate(s[1..], c - 1, e);
    }
  }

  lemma {:induction false} BumpSum<V>(s: Table<V>, home: nat, n: nat, d: int)
    requires IsPow2(|s|) && home < |s| && n <= |s|
    ensures SkipSum(Bump(s, home, n, d)) == SkipSum(s) + n * d
  {
    if n == 0 {
      BumpNone(s, home, d);
    } else {
      BumpSum(s, home, n - 1, d);
      BumpOneMore(s, home, n - 1, d);
      var c := Walk(|s|, home, n - 1);
      SkipSumUpdate(Bump(s, home, n - 1, d), c, s[c].(skips := s[c].skips + d));
      assert n * d == (n - 1) * d + d;
    }
  }

  // ---- placing and removing ----

  /** The table after storing `id` in cell `slot`, one skip recorded on each cell passed on the way. */
  ghost function Placed<V>(s: Table<V>, id: nat, v: V, slot: nat): (t: Table<V>)
    requires IsPow2(|s|) && slot < |s|
    ensures |t| == |s|
  {
    var h := HomeOf(|s|, id);
    Bump(s, h, Dist(|s|, h, slot), 1)[slot := Entry(id, s[slot].skips, Some(v))]
  }

  /** The table after clearing cell `slot`, the skips its key left on the way taken back. */
  ghost function Removed<V>(s: Table<V>, slot: nat): (t: Table<V>)
    requires IsPow2(|s|) && slot < |s|
    ensures |t| == |s|
  {
    var h := HomeOf(|s|, s[slot].key);
    Bump(s, h, Dist(|s|, h, slot), -1)[slot := Entry(0, s[slot].skips, None)]
  }

  /** `t` differs from `s` in key and value only at `slot`. */
  ghost predicate SameElsewhere<V>(s: Table<V>, t: Table<V>, slot: nat) {
    && |t| == |s|
    && forall i: nat :: i < |s| && i != slot ==> t[i].key == s[i].key && t[i].val == s[i].val
  }

  /** The key path at a cell, as a set: {slot} if the key stored at `slot` passes over `c`. */
  ghost function Own<V>(s: Table<V>, slot: nat, c: nat): set<nat>
    requires IsPow2(|s|) && slot < |s| && c < |s|
  {
    if PassesOver(|s|, HomeOf(|s|, s[slot].key), slot, c) then {slot} else {}
  }

  lemma PassersChange<V>(s: Table<V>, t: Table<V>, slot: nat, c: nat)
    requires IsPow2(|s|) && SameElsewhere(s, t, slot) && c < |s|
    requires slot < |s| && !Occupied(s, slot) && Occupied(t, slot)
    ensures Passers(t, c) == Passers(s, c) + Own(t, slot, c)
    ensures slot !in Passers(s, c)
  {
    forall i: nat | i < |s| && i != slot ensures i in Passers(t, c) <==> i in Passers(s, c) {
      assert Occupied(s, i) <==> Occupied(t, i);
    }
    assert slot in Passers(t, c) <==> PassesOver(|t|, HomeOf(|t|, t[slot].key), slot, c);
  }

  lemma PlacedAt<V>(s: Table<V>, id: nat, v: V, slot: nat)
    requires IsPow2(|s|) && slot < |s|
    ensures var t := Placed(s, id, v, slot);
            && SameElsewhere(s, t, slot)
            && t[slot] == Entry(id, s[slot].skips, Some(v))
            && forall c: nat :: c < |s| ==> t[c].skips == s[c].skips + |Own(t, slot, c)|
  {
  }

  /** Storing a new key keeps every skip counter exact. */
  lemma PlacedOk<V>(s: Table<V>, id: nat, v: V, slot: nat)
    requires TableOk(s) && slot < |s| && !Occupied(s, slot) && !HasKey(s, id)
    ensures TableOk(Placed(s, id, v, slot))
    ensures Cells(Placed(s, id, v, slot)) == Cells(s) + {slot} && slot !in Cells(s)
  {
    var t := Placed(s, id, v, slot);
    PlacedAt(s, id, v, slot);
    ChangedSkips(s, t, slot);
    ChangedCells(s, t, slot);
    forall i: nat, j: nat | Occupied(t, i) && Occupied(t, j) && t[i].key == t[j].key ensures i == j {
      assert i != slot ==> Occupied(s, i);
      assert j != slot ==> Occupied(s, j);
    }
  }

  lemma PassersCount<V>(s: Table<V>, t: Table<V>, slot: nat, c: nat)
    requires IsPow2(|s|) && SameElsewhere(s, t, slot) && c < |s|
    requires slot < |s| && !Occupied(s, slot) && Occupied(t, slot)
    ensures |Passers(t, c)| == |Passers(s, c)| + |Own(t, slot, c)|
  {
    PassersChange(s, t, slot, c);
    assert Passers(s, c) !! Own(t, slot, c);
  }

  lemma ChangedSkips<V>(s: Table<V>, t: Table<V>, slot: nat)
    requires IsPow2(|s|) && SameElsewhere(s, t, slot)
    requires slot < |s| && !Occupied(s, slot) && Occupied(t, slot)
    requires forall c: nat :: c < |s| ==> t[c].skips == s[c].skips + |Own(t, slot, c)|
    ensures SkipsExact(s) <==> SkipsExact(t)
  {
    forall c: nat | c < |s|
      ensures s[c].skips == |Passers(s, c)| <==> t[c].skips == |Passers(t, c)|
    {
      PassersCount(s, t, slot, c);
    }
  }

  lemma ChangedCells<V>(s: Table<V>, t: Table<V>, slot: nat)
    requires SameElsewhere(s, t, slot)
    requires slot < |s| && !Occupied(s, slot) && Occupied(t, slot)
    ensures Cells(t) == Cells(s) + {slot} && slot !in Cells(s)
  {
    forall i: nat | i < |s| && i != slot ensures Occupied(t, i) <==> Occupied(s, i) {}
  }

  lemma PlacedSum<V>(s: Table<V>, id: nat, v: V, slot: nat)
    requires IsPow2(|s|) && slot < |s|
    ensures SkipSum(Placed(s, id, v, slot)) == SkipSum(s) + Dist(|s|, HomeOf(|s|, id), slot)
  {
    var h := HomeOf(|s|, id);
    var n := Dist(|s|, h, slot);
    BumpSum(s, h, n, 1);
    SkipSumUpdate(Bump(s, h, n, 1), slot, Entry(id, s[slot].skips, Some(v)));
  }

  lemma PlacedRepresents<V>(s: Table<V>, t: Table<V>, m: map<nat, V>, slot: nat)
    requires SameElsewhere(s, t, slot) && slot < |s| && !Occupied(s, slot) && Occupied(t, slot)
    requires Represents(s, m) && !HasKey(s, t[slot].key)
    ensures Represents(t, m[t[slot].key := t[slot].val.value])
  {
    var m' := m[t[slot].key := t[slot].val.value];
    forall i: nat | Occupied(t, i) ensures t[i].key in m' && m'[t[i].key] == t[i].val.value {
      assert i != slot ==> Occupied(s, i);
    }
    forall k | k in m' ensures HasKey(t, k) {
      if k != t[slot].key {
        var i: nat :| Occupied(s, i) && s[i].key == k;
        assert Occupied(t, i) && t[i].key == k;
      }
    }
  }

  lemma RemovedAt<V>(s: Table<V>, slot: nat)
    requires IsPow2(|s|) && slot < |s|
    ensures var t := Removed(s, slot);
            && SameElsewhere(t, s, slot)
            && t[slot] == Entry(0, s[slot].skips, None)
            && forall c: nat :: c < |s| ==> s[c].skips == t[c].skips + |Own(s, slot, c)|
  {
  }

  /** Removing a key keeps every skip counter exact. */
  lemma RemovedOk<V>(s: Table<V>, slot: nat)
    requires TableOk(s) && Occupied(s, slot)
    ensures TableOk(Removed(s, slot))
    ensures Cells(Removed(s, slot)) == Cells(s) - {slot} && slot in Cells(s)
  {
    var t := Removed(s, slot);
    RemovedAt(s, slot);
    ChangedSkips(t, s, slot);
    ChangedCells(t, s, slot);
    forall i: nat, j: nat | Occupied(t, i) && Occupied(t, j) && t[i].key == t[j].key ensures i == j {
      assert Occupied(s, i) && Occupied(s, j);
    }
  }

  lemma RemovedSum<V>(s: Table<V>, slot: nat)
    requires IsPow2(|s|) && slot < |s|
    ensures SkipSum(Removed(s, slot)) == SkipSum(s) - Dist(|s|, HomeOf(|s|, s[slot].key), slot)
  {
    var h := HomeOf(|s|, s[slot].key);
    var n := Dist(|s|, h, slot);
    BumpSum(s, h, n, -1);
    SkipSumUpdate(Bump(s, h, n, -1), slot, Entry(0, s[slot].skips, None));
  }

  lemma RemovedRepresents<V>(s: Table<V>, t: Table<V>, m: map<nat, V>, slot: nat)
    requires SameElsewhere(t, s, slot) && slot < |s| && Occupied(s, slot) && !Occupied(t, slot)
    requires Represents(s, m) && KeysDistinct(s)
    ensures Represents(t, m - {s[slot].key})
  {
    forall i: nat | Occupied(t, i)
      ensures t[i].key in m && t[i].key != s[slot].key && m[t[i].key] == t[i].val.value
    {
      assert Occupied(s, i);
    }
    forall k | k in m - {s[slot].key} ensures HasKey(t, k) {
      var i: nat :| Occupied(s, i) && s[i].key == k;
      assert Occupied(t, i) && t[i].key == k;
    }
  }

  lemma OverwritePassers<V>(s: Table<V>, t: Table<V>, c: nat)
    requires IsPow2(|s|) && |t| == |s| && c < |s|
    requires forall i: nat :: i < |s| ==> t[i].key == s[i].key && t[i].val.Some? == s[i].val.Some?
    ensures Passers(t, c) == Passers(s, c)
  {
    forall i: nat | i < |s| ensures i in Passers(t, c) <==> i in Passers(s, c) {
      assert Occupied(s, i) <==> Occupied(t, i);
    }
  }

  lemma OverwriteSkips<V>(s: Table<V>, t: Table<V>)
    requires IsPow2(|s|) && |t| == |s| && SkipsExact(s)
    requires forall i: nat :: i < |s| ==>
               t[i].key == s[i].key && t[i].skips == s[i].skips && t[i].val.Some? == s[i].val.Some?
    ensures SkipsExact(t)
  {
    forall c: nat | c < |t| ensures t[c].skips == |Passers(t, c)| {
      OverwritePassers(s, t, c);
    }
  }

  lemma OverwriteRepresents<V>(s: Table<V>, t: Table<V>, m: map<nat, V>, slot: nat, v: V)
    requires Occupied(s, slot) && Represents(s, m) && KeysDistinct(s)
    requires t == s[slot := s[slot].(val := Some(v))]
    ensures Represents(t, m[s[slot].key := v]) && KeysDistinct(t) && Cells(t) == Cells(s)
  {
    assert forall i: nat :: Occupied(t, i) <==> Occupied(s, i);
    forall k | k in m[s[slot].key := v] ensures HasKey(t, k) {
      var i: nat :| Occupied(s, i) && s[i].key == k;
      assert Occupied(t, i) && t[i].key == k;
    }
  }

  /** Overwriting the value of a stored key changes no counter. */
  lemma AccountOverwritten<V>(s: Table<V>, t: Table<V>, m: map<nat, V>, count: int, load: int, slot: nat, v: V)
    requires Accounted(s, m, count, load) && Occupied(s, slot)
    requires t == s[slot := s[slot].(val := Some(v))]
    ensures Accounted(t, m[s[slot].key := v], count, load)
  {
    hide SkipsExact, Represents, KeysDistinct, SkipSum, Cells;
    StoredKey(s, m, slot);
    OverwriteSkips(s, t);
    OverwriteRepresents(s, t, m, slot, v);
    SkipSumUpdate(s, slot, s[slot].(val := Some(v)));
    assert m[s[slot].key := v].Keys == m.Keys;
  }

  lemma Untouched<V>(s: Table<V>)
    requires IsPow2(|s|)
    requires forall c: nat :: c < |s| ==> s[c] == Entry(0, 0, None)
    ensures TableOk(s) && Represents(s, map[]) && Cells(s) == {} && SkipSum(s) == 0
  {
    forall c: nat | c < |s| ensures s[c].skips == |Passers(s, c)| {
      assert Passers(s, c) == {};
    }
    ZeroSum(s);
  }

  lemma {:induction false} ZeroSum<V>(s: Table<V>)
    requires forall c: nat :: c < |s| ==> s[c].skips == 0
    ensures SkipSum(s) == 0
  {
    if s != [] { ZeroSum(s[1..]); }
  }

  /** With fewer keys than cells the probe finds a free cell. */
  lemma FreeCellExists<V>(s: Table<V>, home: nat)
    requires TableOk(s) && home < |s| && |Cells(s)| < |s|
    ensures exists n: nat :: n < |s| && !Occupied(s, Walk(|s|, home, n))
  {
    if forall c: nat :: c < |s| ==> Occupied(s, c) {
      SubsetSize(Upto(|s|), Cells(s));
      assert false;
    }
    var c: nat :| c < |s| && !Occupied(s, c);
    assert !Occupied(s, Walk(|s|, home, Dist(|s|, home, c)));
  }

  // ---- the counters kept beside the table ----

  /** The table stores `m`; `count` keys are stored, by `load` hash operations. */
  ghost predicate Accounted<V>(s: Table<V>, m: map<nat, V>, count: int, load: int) {
    && TableOk(s)
    && Represents(s, m)
    && count == |m| == |Cells(s)|
    && load == count + SkipSum(s)
  }

  lemma {:induction false} SkipSumNonNegative<V>(s: Table<V>)
    requires forall c: nat :: c < |s| ==> s[c].skips >= 0
    ensures SkipSum(s) >= 0
  {
    if s != [] { SkipSumNonNegative(s[1..]); }
  }

  lemma Parts<V>(s: Table<V>, m: map<nat, V>, count: int, load: int)
    requires Accounted(s, m, count, load)
    ensures IsPow2(|s|) && TableOk(s) && KeysDistinct(s) && Represents(s, m)
    ensures count == |m| == |Cells(s)| && count <= load
  {
    SkipSumNonNegative(s);
  }

  lemma AccountPlaced<V>(s: Table<V>, m: map<nat, V>, count: int, load: int, id: nat, v: V, slot: nat)
    requires Accounted(s, m, count, load) && slot < |s| && !Occupied(s, slot) && !HasKey(s, id)
    ensures Accounted(Placed(s, id, v, slot), m[id := v], count + 1,
                      load + Dist(|s|, HomeOf(|s|, id), slot) + 1)
  {
    hide TableOk, HasKey, Represents, Placed, SkipSum, Cells, HomeOf, Dist;
    Parts(s, m, count, load);
    PlacedAt(s, id, v, slot);
    PlacedOk(s, id, v, slot);
    PlacedSum(s, id, v, slot);
    PlacedRepresents(s, Placed(s, id, v, slot), m, slot);
    KeyIffStored(s, m, id);
  }

  lemma AccountRemoved<V>(s: Table<V>, m: map<nat, V>, count: int, load: int, slot: nat)
    requires Accounted(s, m, count, load) && Occupied(s, slot)
    ensures Accounted(Removed(s, slot), m - {s[slot].key}, count - 1,
                      load - Dist(|s|, HomeOf(|s|, s[slot].key), slot) - 1)
  {
    hide TableOk, HasKey, Represents, Removed, SkipSum, Cells, HomeOf, Dist, KeysDistinct;
    Parts(s, m, count, load);
    RemovedAt(s, slot);
    RemovedOk(s, slot);
    RemovedSum(s, slot);
    RemovedRepresents(s, Removed(s, slot), m, slot);
    var k := s[slot].key;
    StoredKey(s, m, slot);
    assert m.Keys == (m - {k}).Keys + {k};
  }

  lemma StoredKey<V>(s: Table<V>, m: map<nat, V>, slot: nat)
    requires Represents(s, m) && Occupied(s, slot)
    ensures s[slot].key in m && m[s[slot].key] == s[slot].val.value
  {
  }

  lemma FreshAccounted<V>(s: Table<V>)
    requires IsPow2(|s|)
    requires forall c: nat :: c < |s| ==> s[c] == Entry(0, 0, None)
    ensures Accounted(s, map[], 0, 0)
  {
    Untouched(s);
  }

  /** The bindings stored in the first `n` cells. */
  ghost function Taken<V>(s: Table<V>, n: nat): map<nat, V>
    requires n <= |s|
  {
    if n == 0 then map[]
    else if s[n - 1].val.Some? then Taken(s, n - 1)[s[n - 1].key := s[n - 1].val.value]
    else Taken(s, n - 1)
  }

  lemma {:induction false} TakenFrom<V>(s: Table<V>, n: nat, id: nat)
    requires n <= |s| && KeysDistinct(s)
    ensures id in Taken(s, n) <==> exists i: nat :: i < n && Occupied(s, i) && s[i].key == id
    ensures forall i: nat :: i < n && Occupied(s, i) && s[i].key == id ==>
              id in Taken(s, n) && Taken(s, n)[id] == s[i].val.value
  {
    if n > 0 {
      TakenFrom(s, n - 1, id);
      assert s[n - 1].val.Some? <==> Occupied(s, n - 1);
    }
  }

  lemma TakenNext<V>(s: Table<V>, n: nat, m: map<nat, V>)
    requires n < |s| && KeysDistinct(s) && Occupied(s, n) && Represents(s, m)
    ensures s[n].key !in Taken(s, n) && |Taken(s, n)| < |m|
  {
    TakenFrom(s, n, s[n].key);
    forall id | id in Taken(s, n) ensures id in m.Keys { TakenFrom(s, n, id); }
    SubsetSize(Taken(s, n).Keys, m.Keys);
    assert s[n].key in m.Keys;
  }

  lemma TakenAll<V>(s: Table<V>, m: map<nat, V>)
    requires KeysDistinct(s) && Represents(s, m)
    ensures Taken(s, |s|) == m
  {
    forall id ensures id in Taken(s, |s|) <==> id in m { TakenFrom(s, |s|, id); }
    forall id | id in m ensures Taken(s, |s|)[id] == m[id] { TakenFrom(s, |s|, id); }
  }

  lemma KeyIffStored<V>(s: Table<V>, m: map<nat, V>, id: nat)
    requires Represents(s, m)
    ensures id in m <==> HasKey(s, id)
  {
  }

  // ---- a full visit ----

  /** The bindings met by visiting the cells from `c` on, in cell order. */
  ghost function VisitFrom<V>(s: Table<V>, c: nat): seq<(nat, V)>
    requires c <= |s|
    decreases |s| - c
  {
    if c == |s| then []
    else if s[c].val.Some? then [(s[c].key, s[c].val.value)] + VisitFrom(s, c + 1)
    else VisitFrom(s, c + 1)
  }

  lemma {:induction false} VisitMember<V>(s: Table<V>, c: nat, k: nat) returns (i: nat)
    requires c <= |s| && k < |VisitFrom(s, c)|
    ensures c <= i && Occupied(s, i) && VisitFrom(s, c)[k] == (s[i].key, s[i].val.value)
    ensures forall k': nat :: k < k' < |VisitFrom(s, c)| ==> VisitFrom(s, c)[k'] in VisitFrom(s, i + 1)
    decreases |s| - c
  {
    if s[c].val.Some? && k == 0 {
      i := c;
    } else {
      var rest := VisitFrom(s, c + 1);
      var d := if s[c].val.Some? then 1 else 0;
      i := VisitMember(s, c + 1, k - d);
      forall k': nat | k < k' < |VisitFrom(s, c)| ensures VisitFrom(s, c)[k'] in VisitFrom(s, i + 1) {
        assert VisitFrom(s, c)[k'] == rest[k' - d];
      }
    }
  }

  lemma {:induction false} VisitComplete<V>(s: Table<V>, c: nat, i: nat)
    requires c <= i && Occupied(s, i)
    ensures (s[i].key, s[i].val.value) in VisitFrom(s, c)
    decreases i - c
  {
    if c < i { VisitComplete(s, c + 1, i); }
  }

  /** A full visit yields every binding of the map, and each key once. */
  lemma VisitAgrees<V>(s: Table<V>, m: map<nat, V>)
    requires KeysDistinct(s) && Represents(s, m)
    ensures forall b: (nat, V) :: b in VisitFrom(s, 0) <==> b.0 in m && m[b.0] == b.1
    ensures forall j: nat, k: nat :: j < k < |VisitFrom(s, 0)| ==> VisitFrom(s, 0)[j].0 != VisitFrom(s, 0)[k].0
  {
    var w := VisitFrom(s, 0);
    forall b: (nat, V) ensures b in w <==> b.0 in m && m[b.0] == b.1 {
      if b in w {
        var k: nat :| k < |w| && w[k] == b;
        var i := VisitMember(s, 0, k);
      }
      if b.0 in m && m[b.0] == b.1 {
        var i: nat :| Occupied(s, i) && s[i].key == b.0;
        VisitComplete(s, 0, i);
      }
    }
    forall j: nat, k: nat | j < k < |w| ensures w[j].0 != w[k].0 {
      var i := VisitMember(s, 0, j);
      var rest := VisitFrom(s, i + 1);
      assert VisitFrom(s, 0)[k] in rest;
      var q: nat :| q < |rest| && rest[q] == w[k];
      var i2 := VisitMember(s, i + 1, q);
    }
  }
}
