/** The identifier map (idhash.c): an open-addressed table under a round-robin identifier allocator. */
module IdMap {
  import opened Wrappers
  import opened Bits
  import opened Probe
  import opened IdTable

  /** The capacity a resize settles on: the least power of two, 8 or more, with room for twice the keys. */
  ghost predicate FittingCap(cap: nat, count: nat) {
    IsPow2(cap) && cap >= 8 && count * 2 <= cap && (cap == 8 || cap < count * 4)
  }

  lemma DoubledPow2(cap: nat)
    requires IsPow2(cap)
    ensures IsPow2(2 * cap)
  {
    var k: nat :| cap == Pow2(k);
    assert 2 * cap == Pow2(k + 1);
  }

  lemma EightIsPow2()
    ensures IsPow2(8)
  {
    assert Pow2(0) == 1 && Pow2(1) == 2 && Pow2(2) == 4 && Pow2(3) == 8;
  }

  /** The identifier `t` places after `x` in the cyclic order of [lo, hi]. */
  ghost function Cyclic(lo: nat, hi: nat, x: nat, t: nat): nat {
    if t == 0 then x
    else
      var y := Cyclic(lo, hi, x, t - 1);
      if y + 1 > hi then lo else y + 1
  }

  lemma {:induction false} CyclicClosed(lo: nat, hi: nat, x: nat, t: nat)
    requires lo <= x <= hi && t <= hi - lo + 1
    ensures Cyclic(lo, hi, x, t) == if x + t <= hi then x + t else lo + (x + t - hi - 1)
  {
    if t > 0 { CyclicClosed(lo, hi, x, t - 1); }
  }

  /** The identifiers of [lo, hi], as a set. */
  ghost function Range(lo: nat, hi: nat): (r: set<nat>)
    requires lo <= hi + 1
    ensures |r| == hi + 1 - lo
    ensures forall i: nat :: i in r <==> lo <= i <= hi
    decreases hi + 1 - lo
  {
    if lo > hi then {} else {lo} + Range(lo + 1, hi)
  }

  /** Pigeonhole: the cyclic search cannot try every identifier of the range in vain. */
  lemma SearchEnds<V>(lo: nat, hi: nat, x: nat, m: map<nat, V>)
    requires lo <= x <= hi && |m| <= hi - lo
    ensures exists t: nat :: t <= hi - lo && Cyclic(lo, hi, x, t) !in m
  {
    if forall t: nat :: t <= hi - lo ==> Cyclic(lo, hi, x, t) in m {
      forall id: nat | lo <= id <= hi ensures id in m.Keys {
        var t := if id >= x then id - x else id - lo + (hi - x + 1);
        CyclicClosed(lo, hi, x, t);
        assert Cyclic(lo, hi, x, t) == id;
      }
      SubsetSize(Range(lo, hi), m.Keys);
      assert false;
    }
  }

  /** `id` is the first identifier not in `m`, in cyclic order from `x`. */
  ghost predicate FirstFree<V>(lo: nat, hi: nat, x: nat, m: map<nat, V>, id: nat) {
    exists t: nat ::
      && t <= hi - lo
      && id == Cyclic(lo, hi, x, t) && id !in m
      && forall i: nat :: i < t ==> Cyclic(lo, hi, x, i) in m
  }

  /** The same on the identifiers themselves: all from `x` up to `id`, going on at `lo` after `hi`, are in use. */
  ghost predicate FirstAround<V>(lo: nat, hi: nat, x: nat, m: map<nat, V>, id: nat) {
    && lo <= id <= hi && id !in m
    && forall i :: lo <= i <= hi && (if x <= id then x <= i < id else x <= i || i < id) ==> i in m
  }

  lemma Around<V>(lo: nat, hi: nat, x: nat, m: map<nat, V>, id: nat)
    requires lo <= x <= hi && lo <= id <= hi && FirstFree(lo, hi, x, m, id)
    ensures FirstAround(lo, hi, x, m, id)
  {
    hide Cyclic;
    var t: nat :|
      t <= hi - lo && id == Cyclic(lo, hi, x, t) && id !in m && forall i: nat :: i < t ==> Cyclic(lo, hi, x, i) in m;
    CyclicClosed(lo, hi, x, t);
    forall i | lo <= i <= hi && (if x <= id then x <= i < id else x <= i || i < id) ensures i in m {
      var k := if i >= x then i - x else i - lo + (hi - x + 1);
      CyclicClosed(lo, hi, x, k);
      assert k < t && Cyclic(lo, hi, x, k) == i;
    }
  }

  lemma FromStart<V>(lo: nat, hi: nat, m: map<nat, V>, id: nat)
    requires lo <= hi && FirstAround(lo, hi, lo, m, id)
    ensures id !in m && forall i :: lo <= i < id ==> i in m
  {
  }

  class Map<V> {
    var entries: array<Entry<V>>
    var count: nat
    var load: nat
    var minLoad: nat
    var maxLoad: nat
    const minVal: nat
    const maxVal: nat
    const random: bool
    var dynVal: nat
    ghost var model: map<nat, V>

    ghost predicate Valid()
      reads this, entries
    {
      && 1 <= minVal < maxVal < 0xffff_ffff_ffff_ffff
      && (dynVal == 0 || minVal <= dynVal <= maxVal)
      && if entries.Length == 0 then
           count == 0 && load == 0 && minLoad == 0 && maxLoad == 0 && model == map[]
         else
           && entries.Length >= 8
           && Accounted(entries[..], model, count, load)
           && (if entries.Length > 8
               then minLoad == entries.Length / 8 && maxLoad == entries.Length * 2 / 3
               else minLoad == 0 && maxLoad == 5)
    }

    constructor (lo: nat, hi: nat, randomize: bool)
      requires (if lo == 0 then 1 else lo) < (if hi == 0 then 0xffff_ffff else hi) < 0xffff_ffff_ffff_ffff
      ensures Valid() && model == map[] && dynVal == 0 && fresh(entries)
      ensures minVal == (if lo == 0 then 1 else lo) && maxVal == (if hi == 0 then 0xffff_ffff else hi)
      ensures random == randomize
    {
      minVal := if lo == 0 then 1 else lo;
      maxVal := if hi == 0 then 0xffff_ffff else hi;
      random := randomize;
      entries := new Entry<V>[0];
      count, load, minLoad, maxLoad, dynVal := 0, 0, 0, 0, 0;
      model := map[];
    }

    /** id_find: the cell that holds `id`, if any does. */
    method Find(id: nat) returns (r: Option<nat>)
      requires Valid()
      ensures r.Some? ==> Occupied(entries[..], r.value) && entries[r.value].key == id
      ensures r.Some? ==> id in model && entries[r.value].val == Some(model[id])
      ensures r.None? ==> id !in model
    {
      hide Accounted, TableOk, Represents, HasKey, HomeOf, And, IsPow2;
      if entries.Length > 0 { Parts(entries[..], model, count, load); }
      if count == 0 { return None; }
      var cap := entries.Length;
      ghost var s := entries[..];
      ghost var h := HomeOf(cap, id);
      KeyIffStored(s, model, id);
      var index := Home(cap, id);
      var start := index;
      ghost var n: nat := 0;
      while true
        invariant n < cap && index < cap && index == Walk(cap, h, n)
        invariant forall i: nat :: i < n ==> var c := Walk(cap, h, i); !(Occupied(s, c) && s[c].key == id)
        decreases cap - n
      {
        if entries[index].key == id && entries[index].val.Some? {
          StoredKey(s, model, index);
          return Some(index);
        }
        if entries[index].skips == 0 {
          EarlyStop(s, id, n);
          return None;
        }
        NextInRange(cap, index);
        index := Next(cap, index);
        n := n + 1;
        if n == cap { ReturnsHome(cap, h); } else { NoEarlyReturn(cap, h, n); }
        if index == start { break; }
      }
      WholeRound(s, id);
      return None;
    }

    /** nni_id_get */
    method Get(id: nat) returns (r: Option<V>)
      requires Valid()
      ensures r == if id in model then Some(model[id]) else None
    {
      var index := Find(id);
      if index.None? { return None; }
      r := entries[index.value].val;
    }

    /** The insertion loop: walk from the home cell to the first free one, recording each skip. */
    static method Place(a: array<Entry<V>>, id: nat, v: V) returns (hashes: nat, slot: nat)
      requires TableOk(a[..]) && !HasKey(a[..], id) && |Cells(a[..])| < a.Length
      modifies a
      ensures slot < a.Length && !Occupied(old(a[..]), slot)
      ensures a[..] == Placed(old(a[..]), id, v, slot)
      ensures hashes == Dist(a.Length, HomeOf(a.Length, id), slot) + 1
      ensures forall i: nat :: i < hashes - 1 ==> Occupied(old(a[..]), Walk(a.Length, HomeOf(a.Length, id), i))
    {
      hide TableOk, HasKey, Cells, Bump, Dist, And, IsPow2;
      TableSize(a[..]);
      var cap := a.Length;
      ghost var s := a[..];
      ghost var h := HomeOf(cap, id);
      FreeCellExists(s, h);
      ghost var free: nat :| free < cap && !Occupied(s, Walk(cap, h, free));
      BumpNone(s, h, 1);
      hashes, slot := 0, Home(cap, id);
      while true
        invariant hashes <= free && slot < cap && slot == Walk(cap, h, hashes)
        invariant a[..] == Bump(s, h, hashes, 1)
        invariant forall i: nat :: i < hashes ==> Occupied(s, Walk(cap, h, i))
        decreases free - hashes
      {
        BumpOneMore(s, h, hashes, 1);
        DistOfWalk(cap, h, hashes);
        assert a[slot] == a[..][slot] == s[slot];
        hashes := hashes + 1;
        if a[slot].val.None? {
          a[slot] := Entry(id, a[slot].skips, Some(v));
          return;
        }
        a[slot] := a[slot].(skips := a[slot].skips + 1);
        NextInRange(cap, slot);
        slot := Next(cap, slot);
      }
    }

    /** id_resize: rehash into a table of a fitting size, when the load left its bounds. */
    method Resize(registerOk: bool, allocOk: bool) returns (r: Option<Error>)
      requires Valid()
      modifies this`entries, this`load, this`minLoad, this`maxLoad
      ensures Valid()
      ensures entries == old(entries) || fresh(entries)
      ensures entries == old(entries) ==> load == old(load)
      ensures r == None || r == Some(ENOMEM)
      ensures r.Some? ==> entries == old(entries)
      ensures r.None? ==> count < entries.Length
      ensures r.None? && (old(load) >= old(maxLoad) || old(load) < old(minLoad)) ==> FittingCap(entries.Length, count)
      ensures old(minLoad) <= old(load) < old(maxLoad) ==> r.None? && entries == old(entries)
      ensures registerOk && allocOk ==> r.None?
    {
      hide Accounted, TableOk, Represents, Cells, KeysDistinct, IsPow2;
      if entries.Length > 0 { Parts(entries[..], model, count, load); }
      if load < maxLoad && load >= minLoad {
        return None;
      }
      if !registerOk { return Some(ENOMEM); }
      var newCap := FitCap(count);
      if newCap == entries.Length { return None; }
      if !allocOk { return Some(ENOMEM); }
      var a, n := Rehash(newCap);
      entries := a;
      load := n;
      if newCap > 8 {
        minLoad, maxLoad := newCap / 8, newCap * 2 / 3;
      } else {
        minLoad, maxLoad := 0, 5;
      }
      return None;
    }

    static method FitCap(count: nat) returns (newCap: nat)
      ensures FittingCap(newCap, count)
    {
      newCap := 8;
      EightIsPow2();
      while newCap < count * 2
        invariant IsPow2(newCap) && newCap >= 8 && (newCap == 8 || newCap < count * 4)
      {
        DoubledPow2(newCap);
        newCap := newCap * 2;
      }
    }

    /** The rehash loop: place every stored binding into a new table. */
    method Rehash(newCap: nat) returns (a: array<Entry<V>>, n: nat)
      requires Valid() && FittingCap(newCap, count)
      ensures fresh(a) && a.Length == newCap
      ensures Accounted(a[..], model, count, n)
    {
      hide Accounted, TableOk, Represents, KeysDistinct, IsPow2, Cells;
      a := new Entry<V>[newCap](_ => Entry(0, 0, None));
      n := 0;
      ghost var s := entries[..];
      FreshAccounted(a[..]);
      if entries.Length > 0 { Parts(s, model, count, load); }
      for i := 0 to entries.Length
        invariant a.Length == newCap && fresh(a) && entries[..] == s
        invariant Accounted(a[..], Taken(s, i), |Taken(s, i)|, n)
        invariant forall c: nat :: c < newCap && !Occupied(a[..], c) ==> a[c].skips == 0
      {
        if entries[i].val.Some? {
          TakenNext(s, i, model);
          n := RehashOne(a, entries[i].key, entries[i].val.value, n, Taken(s, i));
        }
      }
      if entries.Length > 0 { TakenAll(s, model); }
    }

    static method RehashOne(a: array<Entry<V>>, key: nat, v: V, n: nat, ghost m: map<nat, V>)
      returns (n': nat)
      requires Accounted(a[..], m, |m|, n) && key !in m && |m| < a.Length
      requires forall c: nat :: c < a.Length && !Occupied(a[..], c) ==> a[c].skips == 0
      modifies a
      ensures Accounted(a[..], m[key := v], |m[key := v]|, n')
      ensures forall c: nat :: c < a.Length && !Occupied(a[..], c) ==> a[c].skips == 0
    {
      hide Accounted, TableOk, Represents, HasKey;
      ghost var s := a[..];
      Parts(s, m, |m|, n);
      KeyIffStored(s, m, key);
      var hashes, slot := Place(a, key, v);
      assert a[slot].skips == 0;  // the cell was hit for the first time
      AccountPlaced(s, m, |m|, n, key, v, slot);
      forall c: nat | c < a.Length && !Occupied(a[..], c) ensures a[c].skips == 0 {
        ghost var h := HomeOf(a.Length, key);
        assert Walk(a.Length, h, Dist(a.Length, h, c)) == c;
      }
      n' := n + hashes;
    }

    /** nni_id_set */
    method Set(id: nat, v: V, registerOk: bool, allocOk: bool) returns (r: Option<Error>)
      requires Valid()
      modifies this`entries, this`count, this`load, this`minLoad, this`maxLoad, this`model, entries
      ensures Valid()
      ensures entries == old(entries) || fresh(entries)
      ensures r == None || r == Some(ENOMEM)
      ensures r.None? ==> model == old(model)[id := v]
      ensures r.Some? ==> model == old(model)
      ensures registerOk && allocOk ==> r.None?
    {
      hide Accounted, TableOk, Represents, Cells, KeysDistinct, IsPow2, FittingCap, HasKey, Placed, HomeOf, Dist;
      var rv := Resize(registerOk, allocOk);
      if rv.Some? { return Some(ENOMEM); }
      Parts(entries[..], model, count, load);
      ghost var s := entries[..];
      KeyIffStored(s, model, id);
      var index := Find(id);
      if index.Some? {
        Overwrite(id, v, index.value);
        return None;
      }
      var hashes, slot := Place(entries, id, v);
      AccountPlaced(s, model, count, load, id, v, slot);
      load := load + hashes;
      count := count + 1;
      model := model[id := v];
      return None;
    }

    /** The key is stored: only its value changes. */
    method Overwrite(id: nat, v: V, i: nat)
      requires Valid() && i < entries.Length && Occupied(entries[..], i) && entries[i].key == id
      modifies this`model, entries
      ensures Valid() && model == old(model)[id := v]
    {
      hide Accounted, TableOk, Represents, Cells, KeysDistinct, IsPow2, FittingCap, HasKey, HomeOf, Dist;
      ghost var s := entries[..];
      entries[i] := entries[i].(val := Some(v));
      AccountOverwritten(s, entries[..], model, count, load, i, v);
      model := model[id := v];
    }

    /** The removal loop: walk from the home cell to the key's own, taking each skip back. */
    static method Unplace(a: array<Entry<V>>, id: nat, index: nat) returns (hashes: nat)
      requires TableOk(a[..]) && Occupied(a[..], index) && a[index].key == id
      modifies a
      ensures a[..] == Removed(old(a[..]), index)
      ensures hashes == Dist(a.Length, HomeOf(a.Length, id), index) + 1
    {
      hide TableOk, Bump, And, IsPow2;
      TableSize(a[..]);
      var cap := a.Length;
      ghost var s := a[..];
      ghost var h := HomeOf(cap, id);
      ghost var d := Dist(cap, h, index);
      BumpNone(s, h, -1);
      var probe := Home(cap, id);
      hashes := 0;
      while true
        invariant hashes <= d && probe < cap && probe == Walk(cap, h, hashes)
        invariant a[..] == Bump(s, h, hashes, -1)
        decreases d - hashes
      {
        BumpOneMore(s, h, hashes, -1);
        DistOfWalk(cap, h, hashes);
        assert a[probe] == a[..][probe] == s[probe];
        hashes := hashes + 1;
        if probe == index {
          a[probe] := Entry(0, a[probe].skips, None);
          return;
        }
        PassedCellHasSkips(s, index, probe);
        assert a[probe].skips > 0;  // the assertion of the source
        a[probe] := a[probe].(skips := a[probe].skips - 1);
        NextInRange(cap, probe);
        probe := Next(cap, probe);
      }
    }

    /** nni_id_remove */
    method Remove(id: nat, registerOk: bool, allocOk: bool) returns (r: Option<Error>)
      requires Valid()
      modifies this`entries, this`count, this`load, this`minLoad, this`maxLoad, this`model, entries
      ensures Valid()
      ensures entries == old(entries) || fresh(entries)
      ensures r == if id in old(model) then None else Some(ENOENT)
      ensures model == old(model) - {id}
    {
      hide Accounted, TableOk, Represents, Cells, KeysDistinct, IsPow2, FittingCap, HasKey, Removed, HomeOf, Dist;
      var index := Find(id);
      if index.None? { return Some(ENOENT); }
      ghost var s := entries[..];
      Parts(s, model, count, load);
      var hashes := Unplace(entries, id, index.value);
      AccountRemoved(s, model, count, load, index.value);
      Parts(entries[..], model - {id}, count - 1, load - hashes);
      load := load - hashes;
      count := count - 1;
      model := model - {id};
      var _ := Resize(registerOk, allocOk);
      return None;
    }

    /** nni_id_count */
    method Count() returns (n: nat)
      requires Valid()
      ensures n == |model|
    {
      n := count;
    }

    /** nni_id_alloc; `entropy` is the random number the source draws when it first places its cursor. */
    method Alloc(v: V, entropy: nat, registerOk: bool, allocOk: bool) returns (r: Result<nat>)
      requires Valid()
      modifies this`entries, this`count, this`load, this`minLoad, this`maxLoad, this`model, this`dynVal, entries
      ensures Valid()
      ensures entries == old(entries) || fresh(entries)
      ensures |old(model)| > maxVal - minVal ==> r == Err(ENOMEM) && model == old(model) && dynVal == old(dynVal)
      ensures r.Err? ==> r.error == ENOMEM && model == old(model)
      ensures r.Ok? ==>
                && minVal <= r.value <= maxVal
                && model == old(model)[r.value := v]
                && dynVal == (if r.value == maxVal then minVal else r.value + 1)
      // a cursor that was used goes on; a random one starts anywhere in the range, any other at its beginning
      ensures r.Ok? && old(dynVal) != 0 ==> FirstAround(minVal, maxVal, old(dynVal), old(model), r.value)
      ensures r.Ok? && old(dynVal) == 0 && random ==>
                FirstAround(minVal, maxVal, minVal + entropy % (maxVal - minVal + 1), old(model), r.value)
      ensures r.Ok? && old(dynVal) == 0 && !random ==>
                r.value !in old(model) && forall i :: minVal <= i < r.value ==> i in old(model)
      ensures |old(model)| <= maxVal - minVal && registerOk && allocOk ==> r.Ok?
    {
      hide Accounted, FirstAround;
      if entries.Length > 0 { Parts(entries[..], model, count, load); }
      if count > maxVal - minVal {
        return Err(ENOMEM);
      }
      var id := Search(entropy);
      var rv := Set(id, v, registerOk, allocOk);
      if rv.None? { return Ok(id); }
      return Err(ENOMEM);
    }

    /** The first free identifier from the cursor on, which is placed if it was not. */
    method Search(entropy: nat) returns (id: nat)
      requires Valid() && |model| <= maxVal - minVal
      modifies this`dynVal
      ensures Valid() && minVal <= id <= maxVal && dynVal == if id == maxVal then minVal else id + 1
      ensures old(dynVal) != 0 ==> FirstAround(minVal, maxVal, old(dynVal), model, id)
      ensures old(dynVal) == 0 && random ==>
                FirstAround(minVal, maxVal, minVal + entropy % (maxVal - minVal + 1), model, id)
      ensures old(dynVal) == 0 && !random ==> id !in model && forall i :: minVal <= i < id ==> i in model
    {
      hide Accounted, FirstAround;
      PlaceCursor(entropy);
      ghost var x := dynVal;
      id := Advance();
      if x == minVal { FromStart(minVal, maxVal, model, id); }
    }

    /** Where the first search starts. */
    method PlaceCursor(entropy: nat)
      requires Valid()
      modifies this`dynVal
      ensures Valid() && minVal <= dynVal <= maxVal
      ensures old(dynVal) != 0 ==> dynVal == old(dynVal)
      ensures old(dynVal) == 0 && random ==> dynVal == minVal + entropy % (maxVal - minVal + 1)
      ensures old(dynVal) == 0 && !random ==> dynVal == minVal
    {
      hide Accounted;
      if dynVal == 0 {
        if random {
          dynVal := entropy % (maxVal - minVal + 1) + minVal;
        } else {
          dynVal := minVal;
        }
      }
    }

    /** The search, said on the identifiers. */
    method Advance() returns (id: nat)
      requires Valid() && dynVal != 0 && |model| <= maxVal - minVal
      modifies this`dynVal
      ensures Valid() && FirstAround(minVal, maxVal, old(dynVal), model, id) && minVal <= id <= maxVal
      ensures dynVal == if id == maxVal then minVal else id + 1
    {
      hide Accounted, FirstAround, FirstFree, Cyclic;
      ghost var x := dynVal;
      id := NextFree();
      Around(minVal, maxVal, x, model, id);
      CyclicClosed(minVal, maxVal, id, 1);
    }

    /** The search loop: advance the cursor past the first identifier not in use. */
    method NextFree() returns (id: nat)
      requires Valid() && dynVal != 0 && |model| <= maxVal - minVal
      modifies this`dynVal
      ensures Valid()
      ensures minVal <= id <= maxVal && FirstFree(minVal, maxVal, old(dynVal), model, id)
      ensures dynVal == Cyclic(minVal, maxVal, id, 1)
    {
      hide Accounted;
      ghost var x := dynVal;
      SearchEnds(minVal, maxVal, x, model);
      ghost var free: nat :| free <= maxVal - minVal && Cyclic(minVal, maxVal, x, free) !in model;
      ghost var t: nat := 0;
      while true
        invariant Valid() && t <= free && dynVal == Cyclic(minVal, maxVal, x, t) && minVal <= dynVal <= maxVal
        invariant forall i: nat :: i < t ==> Cyclic(minVal, maxVal, x, i) in model
        decreases free - t
      {
        id := dynVal;
        dynVal := dynVal + 1;
        if dynVal > maxVal { dynVal := minVal; }
        var index := Find(id);
        if index.None? { return; }
        t := t + 1;
      }
    }

    /** nni_id_visit: the next binding at or after the cursor, and the cursor past it. */
    method Visit(cursor: nat) returns (r: Option<(nat, V)>, next: nat)
      requires Valid()
      ensures cursor > entries.Length ==> r.None? && next == cursor
      ensures cursor <= entries.Length ==> cursor <= next <= entries.Length
      ensures cursor <= entries.Length && r.None? ==> VisitFrom(entries[..], cursor) == [] && next == entries.Length
      ensures cursor <= entries.Length && r.Some? ==>
                cursor < next && VisitFrom(entries[..], cursor) == [r.value] + VisitFrom(entries[..], next)
    {
      hide Accounted;
      ghost var s := entries[..];
      var index := cursor;
      while index < entries.Length
        invariant cursor <= index && (cursor <= entries.Length ==> index <= entries.Length)
        invariant cursor > entries.Length ==> index == cursor
        invariant cursor <= entries.Length ==> VisitFrom(s, cursor) == VisitFrom(s, index)
      {
        if entries[index].val.Some? {
          return Some((entries[index].key, entries[index].val.value)), index + 1;
        }
        index := index + 1;
      }
      return None, index;
    }

    /** nni_id_map_fini */
    method Fini()
      requires Valid()
      modifies this`entries, this`count, this`load, this`minLoad, this`maxLoad, this`model
      ensures Valid() && model == map[] && fresh(entries)
    {
      hide Accounted;
      entries := new Entry<V>[0];
      count, load, minLoad, maxLoad := 0, 0, 0, 0;
      model := map[];
    }
  }

  /** Exactly the first `k` identifiers of the range are in use, and the cursor stands behind them. */
  ghost predicate Filled<V>(m: Map<V>, k: nat)
    reads m
  {
    && !m.random && |m.model| == k && (forall i :: i in m.model <==> m.minVal <= i < m.minVal + k)
    && m.dynVal == (if k == 0 then 0 else if m.minVal + k > m.maxVal then m.minVal else m.minVal + k)
  }

  method AllocNext<V>(m: Map<V>, k: nat, v: V) returns (id: nat)
    requires m.Valid() && Filled(m, k) && m.minVal + k <= m.maxVal
    modifies m, m.entries
    ensures m.Valid() && Filled(m, k + 1) && (m.entries == old(m.entries) || fresh(m.entries))
    ensures id == m.minVal + k && m.model == old(m.model)[id := v]
  {
    hide FirstAround, Accounted;
    ghost var before := m.model;
    var r := m.Alloc(v, 0, true, true);
    id := r.value;
    Following(m.minVal, m.maxVal, k, before, id);
    assert m.model.Keys == before.Keys + {id};
  }

  /** Allocations on a new map that is not random return the identifiers of its range in order. */
  method AllocInOrder<V>(lo: nat, hi: nat, vs: seq<V>) returns (m: Map<V>, ids: seq<nat>)
    requires (if lo == 0 then 1 else lo) < (if hi == 0 then 0xffff_ffff else hi) < 0xffff_ffff_ffff_ffff
    requires |vs| <= (if hi == 0 then 0xffff_ffff else hi) - (if lo == 0 then 1 else lo) + 1
    ensures |ids| == |vs| && forall i :: 0 <= i < |vs| ==> ids[i] == (if lo == 0 then 1 else lo) + i
    ensures m.Valid() && |m.model| == |vs|
    ensures forall i :: 0 <= i < |vs| ==> ids[i] in m.model && m.model[ids[i]] == vs[i]
  {
    hide Accounted;
    m := new Map<V>(lo, hi, false);
    ids := [];
    while |ids| < |vs|
      invariant |ids| <= |vs| && m.Valid() && fresh(m) && fresh(m.entries) && Filled(m, |ids|)
      invariant m.minVal == (if lo == 0 then 1 else lo) && m.maxVal == (if hi == 0 then 0xffff_ffff else hi)
      invariant forall i :: 0 <= i < |ids| ==> ids[i] == m.minVal + i && m.model[ids[i]] == vs[i]
      decreases |vs| - |ids|
    {
      var id := AllocNext(m, |ids|, vs[|ids|]);
      ids := ids + [id];
    }
  }

  lemma Following<V>(lo: nat, hi: nat, k: nat, m: map<nat, V>, id: nat)
    requires lo + k <= hi && lo <= id <= hi && forall i :: i in m <==> lo <= i < lo + k
    requires if k == 0 then id !in m && forall i :: lo <= i < id ==> i in m else FirstAround(lo, hi, lo + k, m, id)
    ensures id == lo + k
  {
    assert lo + k !in m;
    assert k > 0 && id < lo + k ==> id in m;
  }
}
