/** Message bodies (message.c): a window of bytes in a buffer with headroom and tailroom. */
module Chunk {
  import opened Wrappers
  import opened Bits

  type Byte = bv8

  const ZERO: Byte := 0

  /** Round up to a multiple of eight: (x + 7) & ~7. */
  function RoundUp8(x: nat): nat {
    (x + 7) / 8 * 8
  }

  /** nni_chunk_insert moves the body instead of using headroom or growing. */
  predicate Rebalances(cap: nat, ptr: nat, len: nat, n: nat) {
    n > ptr && len + n + 8 <= cap
  }

  function Shift(cap: nat, len: nat, n: nat): nat
    requires len + n <= cap
  {
    RoundUp8((cap - (len + n)) / 2)
  }

  /** Half of the free room goes before the window, rounded up to a multiple of eight, and that fits. */
  lemma ShiftFits(cap: nat, len: nat, n: nat)
    requires len + n + 8 <= cap
    ensures var shift, half := Shift(cap, len, n), (cap - (len + n)) / 2;
            && half <= shift < half + 8 && shift % 8 == 0
            && 8 <= shift && shift + len + n <= cap
  {
    var half := (cap - (len + n)) / 2;
    assert half <= RoundUp8(half) <= half + 7;
  }

  /** `data` written over `s` from position `at` on. */
  ghost function Written(s: seq<Byte>, at: nat, data: seq<Byte>): (t: seq<Byte>)
    requires at + |data| <= |s|
    ensures |t| == |s|
  {
    s[..at] + data + s[at + |data|..]
  }

  lemma WrittenSlice(s: seq<Byte>, at: nat, data: seq<Byte>, lo: nat, hi: nat)
    requires at + |data| <= |s| && lo <= hi <= |s|
    ensures lo == at && hi == at + |data| ==> Written(s, at, data)[lo..hi] == data
    ensures hi <= at || at + |data| <= lo ==> Written(s, at, data)[lo..hi] == s[lo..hi]
  {
    var w := Written(s, at, data);
    forall i | lo <= i < hi ensures w[i] == if at <= i < at + |data| then data[i - at] else s[i] {
      WrittenAt(s, at, data, i);
    }
    if lo == at && hi == at + |data| {
      assert w[lo..hi] == data;
    } else if hi <= at || at + |data| <= lo {
      assert w[lo..hi] == s[lo..hi];
    }
  }

  /** memcpy into a buffer */
  method MemCpy(a: array<Byte>, at: nat, data: seq<Byte>)
    requires at + |data| <= a.Length
    modifies a
    ensures a[..] == Written(old(a[..]), at, data)
  {
    forall i | 0 <= i < |data| { a[at + i] := data[i]; }
  }

  /** memmove within a buffer */
  method MemMove(a: array<Byte>, to: nat, from: nat, n: nat)
    requires to + n <= a.Length && from + n <= a.Length
    modifies a
    ensures a[..] == Written(old(a[..]), to, old(a[from..from + n]))
  {
    forall i | 0 <= i < n { a[to + i] := a[from + i]; }
  }

  /** memmove, then memcpy to the same place */
  method MoveThenWrite(a: array<Byte>, to: nat, from: nat, n: nat, data: seq<Byte>)
    requires to + n <= a.Length && from + n <= a.Length && to + |data| <= a.Length
    modifies a
    ensures a[..] == Written(Written(old(a[..]), to, old(a[..])[from..from + n]), to, data)
  {
    hide Written;
    SliceOf(a, from, from + n);
    MemMove(a, to, from, n);
    MemCpy(a, to, data);
  }

  lemma SliceOf(a: array<Byte>, lo: nat, hi: nat)
    requires lo <= hi <= a.Length
    ensures a[lo..hi] == a[..][lo..hi]
  {
  }

  lemma Joined(s: seq<Byte>, lo: nat, mid: nat, hi: nat)
    requires lo <= mid <= hi <= |s|
    ensures s[lo..hi] == s[lo..mid] + s[mid..hi]
  {
  }

  lemma PrependedSlice(b: seq<Byte>, ptr: nat, len: nat, data: seq<Byte>)
    requires |data| <= ptr && ptr + len <= |b|
    ensures Written(b, ptr - |data|, data)[ptr - |data|..ptr + len] == data + b[ptr..ptr + len]
  {
    hide Written;
    var at := ptr - |data|;
    var w := Written(b, at, data);
    WrittenSlice(b, at, data, at, ptr);
    WrittenSlice(b, at, data, ptr, ptr + len);
    Joined(w, at, ptr, ptr + len);
  }

  class Chunk {
    var buf: array<Byte>  // ch_buf; its length is ch_cap
    var ptr: nat          // ch_ptr - ch_buf
    var len: nat          // ch_len

    /** The data window lies inside the buffer. */
    ghost predicate Valid()
      reads this
    {
      ptr < buf.Length && ptr + len <= buf.Length
    }

    ghost function Body(): (b: seq<Byte>)
      requires Valid()
      reads this, buf
      ensures |b| == len
    {
      buf[ptr..ptr + len]
    }

    /** The chunk of a message that nni_msg_alloc has just made: `size` zero bytes. */
    constructor (size: nat)
      ensures Valid() && fresh(buf)
      ensures |Body()| == size && forall i :: 0 <= i < size ==> Body()[i] == ZERO
      ensures ptr == (if size < 1024 || And(size, size - 1) != 0 then 32 else 0)
      ensures buf.Length == (if size < 1024 || And(size, size - 1) != 0 then size + 64 else size)
    {
      if size < 1024 || And(size, size - 1) != 0 {
        buf := new Byte[size + 64](_ => ZERO);
        ptr := 32;
      } else {
        buf := new Byte[size](_ => ZERO);
        ptr := 0;
      }
      len := size;
    }

    /** nni_chunk_grow: at least `size` bytes from the data on, and `head` bytes before it. */
    method Grow(size: nat, head: nat, allocOk: bool) returns (ok: bool)
      requires Valid()
      modifies this`buf, this`ptr
      ensures Valid() && Body() == old(Body())
      ensures buf == old(buf) || fresh(buf)
      ensures ok ==> buf.Length - ptr >= size && ptr >= head && ptr >= old(ptr)
      ensures ok ==> buf.Length - ptr >= old(buf.Length - ptr)
      ensures ok ==> if head > old(ptr) then ptr == head && fresh(buf) else ptr == old(ptr)
      ensures !ok ==> buf == old(buf) && ptr == old(ptr)
      ensures ok <==> allocOk || (size <= old(buf.Length - ptr) && head <= old(ptr))
      ensures size <= old(buf.Length - ptr) && head <= old(ptr) ==> buf == old(buf)
    {
      hide Written;
      var newsz := if size < len then len else size;
      var want := if head < ptr then ptr else head;
      if newsz + want <= buf.Length && want <= ptr {
        return true;
      }
      if newsz < buf.Length - ptr { newsz := buf.Length - ptr; }
      if !allocOk { return false; }
      buf := CopyAt(newsz + want, want);
      ptr := want;
      return true;
    }

    /** A new buffer with the body at position `at`. */
    method CopyAt(size: nat, at: nat) returns (newbuf: array<Byte>)
      requires Valid() && at + len <= size
      ensures fresh(newbuf) && newbuf.Length == size && newbuf[at..at + len] == Body()
    {
      hide Written;
      newbuf := new Byte[size](_ => ZERO);
      ghost var blank, body := newbuf[..], Body();
      MemCpy(newbuf, at, buf[ptr..ptr + len]);
      WrittenSlice(blank, at, body, at, at + len);
      SliceOf(newbuf, at, at + len);
    }

    /** nni_chunk_append */
    method Append(data: seq<Byte>, allocOk: bool) returns (ok: bool)
      requires Valid()
      modifies this`buf, this`ptr, this`len, buf
      ensures Valid() && (buf == old(buf) || fresh(buf))
      ensures Body() == if ok then old(Body()) + data else old(Body())
      ensures ok <==> allocOk || old(len) + |data| <= old(buf.Length - ptr)
      ensures old(len) + |data| <= old(buf.Length - ptr) ==> buf == old(buf) && ptr == old(ptr)
    {
      hide Written;
      if data == [] { return true; }
      ok := Grow(|data| + len, 0, allocOk);
      if ok { WriteTail(data); }
    }

    /** Write into the tailroom. */
    method WriteTail(data: seq<Byte>)
      requires Valid() && ptr + len + |data| <= buf.Length
      modifies this`len, buf
      ensures Valid() && Body() == old(Body()) + data
    {
      hide Written;
      var at := ptr + len;
      ghost var b := buf[..];
      SliceOf(buf, ptr, at);
      MemCpy(buf, at, data);
      len := len + |data|;
      WrittenSlice(b, at, data, ptr, at);
      WrittenSlice(b, at, data, at, at + |data|);
      Joined(buf[..], ptr, at, at + |data|);
      SliceOf(buf, ptr, ptr + len);
    }

    /** nni_chunk_append without data: the window grows over whatever the tailroom holds. */
    method Extend(n: nat, allocOk: bool) returns (ok: bool)
      requires Valid()
      modifies this`buf, this`ptr, this`len
      ensures Valid() && (buf == old(buf) || fresh(buf))
      ensures ok ==> len == old(len) + n && Body()[..old(len)] == old(Body())
      ensures !ok ==> Body() == old(Body())
      ensures ok <==> allocOk || old(len) + n <= old(buf.Length - ptr)
    {
      if n == 0 { return true; }
      ok := Grow(n + len, 0, allocOk);
      if !ok { return false; }
      len := len + n;
      SliceOf(buf, ptr, ptr + len);
      SliceOf(buf, ptr, ptr + old(len));
      SliceSlice(buf[..], ptr, ptr + len, 0, old(len));
    }

    /** nni_chunk_trim */
    method Trim(n: nat) returns (ok: bool)
      requires Valid()
      modifies this`ptr, this`len
      ensures Valid() && ok == (n <= old(len))
      ensures Body() == if ok then old(Body())[n..] else old(Body())
      ensures ptr == if n < old(len) then old(ptr) + n else old(ptr)
    {
      if len < n { return false; }
      len := len - n;
      if len != 0 { ptr := ptr + n; }
      return true;
    }

    /** nni_chunk_chop */
    method Chop(n: nat) returns (ok: bool)
      requires Valid()
      modifies this`len
      ensures Valid() && ok == (n <= old(len))
      ensures Body() == if ok then old(Body())[..old(len) - n] else old(Body())
    {
      if len < n { return false; }
      len := len - n;
      return true;
    }

    /** nni_chunk_dup: same size, headroom and capacity, in storage of its own. */
    method Dup(allocOk: bool) returns (r: Result<Chunk>)
      requires Valid()
      ensures !allocOk ==> r == Err(ENOMEM)
      ensures allocOk ==>
                && r.Ok? && fresh(r.value) && fresh(r.value.buf) && r.value.Valid() && r.value.Body() == Body()
                && r.value.ptr == ptr && r.value.buf.Length == buf.Length
    {
      if !allocOk { return Err(ENOMEM); }
      var d := new Chunk(0);
      d.buf := CopyAt(buf.Length, ptr);
      d.ptr, d.len := ptr, len;
      return Ok(d);
    }

    /** nni_msg_realloc */
    method Realloc(size: nat, allocOk: bool) returns (ok: bool)
      requires Valid()
      modifies this`buf, this`ptr, this`len
      ensures Valid() && (buf == old(buf) || fresh(buf))
      ensures ok ==> len == size
      ensures ok && size >= old(len) ==> Body()[..old(len)] == old(Body())
      ensures ok && size < old(len) ==> Body() == old(Body())[..size]
      ensures !ok ==> Body() == old(Body())
      ensures ok <==> allocOk || size <= old(buf.Length - ptr)
    {
      if len < size {
        ok := Extend(size - len, allocOk);
      } else {
        ok := Chop(len - size);
      }
    }

    /** nni_msg_reserve: the bytes stay, and as many as asked for fit without another allocation. */
    method Reserve(capacity: nat, allocOk: bool) returns (ok: bool)
      requires Valid()
      modifies this`buf, this`ptr
      ensures Valid() && Body() == old(Body()) && (buf == old(buf) || fresh(buf))
      ensures ok ==> buf.Length - ptr >= capacity && ptr == old(ptr)
      ensures ok <==> allocOk || capacity <= old(buf.Length - ptr)
    {
      ok := Grow(capacity, 0, allocOk);
    }

    /**
     nni_chunk_insert. Where it uses headroom or grows it prepends; where it rebalances, the body is moved to
     the front of the new window and the inserted bytes then overwrite its beginning.
     */
    method Insert(data: seq<Byte>, allocOk: bool) returns (ok: bool)
      requires Valid()
      modifies this`buf, this`ptr, this`len, buf
      ensures Valid() && (buf == old(buf) || fresh(buf))
      ensures !ok ==> Body() == old(Body())
      ensures ok ==> len == old(len) + |data| && Body()[..|data|] == data
      ensures ok && !Rebalances(old(buf.Length), old(ptr), old(len), |data|) ==> Body() == data + old(Body())
      ensures ok && Rebalances(old(buf.Length), old(ptr), old(len), |data|) ==>
                && buf == old(buf) && ptr == Shift(buf.Length, old(len), |data|)
                && buf[..] == Rebalanced(old(buf[..]), old(ptr), old(len), data)
                && (|data| <= old(len) ==> Body()[|data|..old(len)] == old(Body())[|data|..])
      ensures |data| <= old(ptr) ==> buf == old(buf) && ptr == old(ptr) - |data|
      ensures ok <==> allocOk || |data| <= old(ptr) || Rebalances(old(buf.Length), old(ptr), old(len), |data|)
    {
      hide Written;
      var n := |data|;
      if n > ptr && len + n + 8 <= buf.Length {
        InsertRebalancing(data);
        return true;
      }
      if n > ptr {
        ok := Grow(0, n, allocOk);
        if !ok { return false; }
      }
      Prepend(data);
      return true;
    }

    /** Write into the headroom. */
    method Prepend(data: seq<Byte>)
      requires Valid() && |data| <= ptr
      modifies this`ptr, this`len, buf
      ensures Valid() && Body() == data + old(Body()) && ptr == old(ptr) - |data|
    {
      hide Written;
      ghost var b := buf[..];
      SliceOf(buf, ptr, ptr + len);
      PrependedSlice(b, ptr, len, data);
      ptr, len := ptr - |data|, len + |data|;
      MemCpy(buf, ptr, data);
      SliceOf(buf, ptr, ptr + len);
    }

    /** The branch of nni_chunk_insert that splits the free room between head and tail. */
    method InsertRebalancing(data: seq<Byte>)
      requires Valid() && Rebalances(buf.Length, ptr, len, |data|)
      modifies this`ptr, this`len, buf
      ensures Valid() && len == old(len) + |data|
      ensures buf[..] == Rebalanced(old(buf[..]), old(ptr), old(len), data)
      ensures ptr == Shift(buf.Length, old(len), |data|)
      ensures Body()[..|data|] == data
      ensures |data| <= old(len) ==> Body()[|data|..old(len)] == old(Body())[|data|..]
    {
      hide Shift, Written, Rebalanced, RoundUp8;
      ghost var b, p, n := buf[..], ptr, len;
      SliceOf(buf, ptr, ptr + len);
      RebalancedBody(b, p, n, data);
      Rebalance(data);
      SliceOf(buf, ptr, ptr + len);
    }

    /** The two writes of that branch. */
    method Rebalance(data: seq<Byte>)
      requires Valid() && Rebalances(buf.Length, ptr, len, |data|)
      modifies this`ptr, this`len, buf
      ensures Valid() && len == old(len) + |data| && ptr == Shift(buf.Length, old(len), |data|)
      ensures buf[..] == Rebalanced(old(buf[..]), old(ptr), old(len), data)
    {
      hide Shift, Written, Rebalanced, RoundUp8;
      ShiftFits(buf.Length, len, |data|);
      RebalancedIs(buf[..], ptr, len, data);
      var shift := Shift(buf.Length, len, |data|);
      MoveThenWrite(buf, shift, ptr, len, data);
      ptr, len := shift, len + |data|;
    }
  }

  /** The buffer after the rebalancing branch: first the body is moved, then the data is written at the same place. */
  ghost function Rebalanced(b: seq<Byte>, ptr: nat, len: nat, data: seq<Byte>): (r: seq<Byte>)
    requires ptr + len <= |b| && Rebalances(|b|, ptr, len, |data|)
    ensures |r| == |b|
  {
    ShiftFits(|b|, len, |data|);
    var shift := Shift(|b|, len, |data|);
    Written(Written(b, shift, b[ptr..ptr + len]), shift, data)
  }

  lemma RebalancedIs(b: seq<Byte>, ptr: nat, len: nat, data: seq<Byte>)
    requires ptr + len <= |b| && Rebalances(|b|, ptr, len, |data|)
    ensures var at := Shift(|b|, len, |data|);
            && at + len <= |b| && at + |data| <= |b|
            && Rebalanced(b, ptr, len, data) == Written(Written(b, at, b[ptr..ptr + len]), at, data)
  {
    hide Written;
    ShiftFits(|b|, len, |data|);
  }

  lemma RebalancedBody(b: seq<Byte>, ptr: nat, len: nat, data: seq<Byte>)
    requires ptr + len <= |b| && Rebalances(|b|, ptr, len, |data|)
    ensures var at := Shift(|b|, len, |data|);
            && at + len + |data| <= |b|
            && Rebalanced(b, ptr, len, data)[at..at + len + |data|][..|data|] == data
            && (|data| <= len ==>
                  Rebalanced(b, ptr, len, data)[at..at + len + |data|][|data|..len] == b[ptr..ptr + len][|data|..])
  {
    hide Shift, Written;
    ShiftFits(|b|, len, |data|);
    var at, n := Shift(|b|, len, |data|), |data|;
    var body := b[ptr..ptr + len];
    var moved := Written(b, at, body);
    var r := Written(moved, at, data);
    WrittenSlice(moved, at, data, at, at + n);
    SliceSlice(r, at, at + len + n, 0, n);
    if n <= len {
      WrittenSlice(b, at, body, at, at + len);
      WrittenSlice(moved, at, data, at + n, at + len);
      SliceSlice(r, at, at + len + n, n, len);
      SliceSlice(moved, at, at + len, n, len);
    }
  }

  lemma SliceSlice(s: seq<Byte>, lo: nat, hi: nat, i: nat, j: nat)
    requires lo <= hi <= |s| && i <= j <= hi - lo
    ensures s[lo..hi][i..j] == s[lo + i..lo + j]
  {
    var a, b := s[lo..hi][i..j], s[lo + i..lo + j];
    forall k | 0 <= k < j - i ensures a[k] == b[k] {
      assert a[k] == s[lo..hi][i + k] == s[lo + i + k];
    }
    assert a == b;
  }

  lemma WrittenAt(s: seq<Byte>, at: nat, data: seq<Byte>, i: nat)
    requires at + |data| <= |s| && i < |s|
    ensures Written(s, at, data)[i] == if at <= i < at + |data| then data[i - at] else s[i]
  {
  }

  /** The byte right after the inserted ones. */
  lemma RebalancedAfter(b: seq<Byte>, ptr: nat, len: nat, data: seq<Byte>)
    requires ptr + len <= |b| && Rebalances(|b|, ptr, len, |data|) && len > 0
    ensures var at := Shift(|b|, len, |data|) + |data|;
            at < |b| && Rebalanced(b, ptr, len, data)[at] == if |data| < len then b[ptr + |data|] else b[at]
  {
    hide Shift, Written;
    ShiftFits(|b|, len, |data|);
    var at := Shift(|b|, len, |data|);
    var body := b[ptr..ptr + len];
    WrittenAt(b, at, body, at + |data|);
    WrittenAt(Written(b, at, body), at, data, at + |data|);
  }

  /** In that branch the result is the data followed by the old body. */
  ghost predicate RebalancePrepends(b: seq<Byte>, ptr: nat, len: nat, data: seq<Byte>)
    requires ptr + len <= |b| && Rebalances(|b|, ptr, len, |data|)
  {
    ShiftFits(|b|, len, |data|);
    var shift := Shift(|b|, len, |data|);
    Rebalanced(b, ptr, len, data)[shift..shift + len + |data|] == data + b[ptr..ptr + len]
  }

  /**
   For a chunk whose shape takes the rebalancing branch, insertion prepends whatever the bytes are exactly when
   the body is empty. (In every other shape Insert prepends.)
   */
  lemma RebalancePrependsIff(cap: nat, ptr: nat, len: nat, n: nat)
    requires ptr + len <= cap && Rebalances(cap, ptr, len, n)
    ensures (forall b: seq<Byte>, data: seq<Byte> :: |b| == cap && |data| == n ==> RebalancePrepends(b, ptr, len, data))
       <==> len == 0
  {
    if len == 0 {
      forall b: seq<Byte>, data: seq<Byte> | |b| == cap && |data| == n ensures RebalancePrepends(b, ptr, len, data) {
        ShiftFits(cap, len, n);
      }
    } else {
      var b := seq(cap, i => if i == ptr then 1 else ZERO);
      var data := seq(n, i => ZERO);
      ShiftFits(cap, len, n);
      var shift := Shift(cap, len, n);
      var r := Rebalanced(b, ptr, len, data);
      RebalancedAfter(b, ptr, len, data);
      assert r[shift..shift + len + n][n] == ZERO;
      assert (data + b[ptr..ptr + len])[n] == b[ptr] == 1;
      assert !RebalancePrepends(b, ptr, len, data);
    }
  }

  /** nni_msg_alloc */
  method MsgAlloc(size: nat, allocOk: bool) returns (r: Result<Chunk>)
    ensures size > 0x0fff_ffff_ffff_ffff ==> r == Err(EMSGSIZE)
    ensures size <= 0x0fff_ffff_ffff_ffff && !allocOk ==> r == Err(ENOMEM)
    ensures size <= 0x0fff_ffff_ffff_ffff && allocOk ==>
              && r.Ok? && fresh(r.value) && fresh(r.value.buf) && r.value.Valid()
              && |r.value.Body()| == size && (forall i :: 0 <= i < size ==> r.value.Body()[i] == ZERO)
              && (size < 1024 ==> r.value.ptr == 32 && r.value.buf.Length == size + 64)
  {
    if size > 0x0fff_ffff_ffff_ffff { return Err(EMSGSIZE); }
    if !allocOk { return Err(ENOMEM); }
    var c := new Chunk(size);
    return Ok(c);
  }

  /** The message has to be copied: it is shared, or the header does not fit into its buffer. */
  predicate Copies(cap: nat, len: nat, n: nat, shared: bool) {
    cap < len + n || shared
  }

  /**
   nni_msg_pull_up: merge the header into the body, copying the message when it is shared or has no room. The
   result of nni_msg_insert is ignored there, so the header is lost if growing fails.
   */
  method PullUp(m: Chunk, header: seq<Byte>, shared: bool, allocOk: bool) returns (r: Option<Chunk>)
    requires m.Valid()
    modifies m`buf, m`ptr, m`len, m.buf
    ensures r.Some? ==> r.value.Valid()
    ensures Copies(old(m.buf.Length), old(m.len), |header|, shared) ==>
              if allocOk && old(m.len) + |header| <= 0x0fff_ffff_ffff_ffff
              then r.Some? && fresh(r.value) && r.value.Body() == header + old(m.Body()) else r.None?
    ensures !Copies(old(m.buf.Length), old(m.len), |header|, shared) ==> r == Some(m)
    ensures (&& !Copies(old(m.buf.Length), old(m.len), |header|, shared)
             && Rebalances(old(m.buf.Length), old(m.ptr), old(m.len), |header|))
            ==> m.buf[..] == Rebalanced(old(m.buf[..]), old(m.ptr), old(m.len), header) &&
                m.ptr == Shift(old(m.buf.Length), old(m.len), |header|) && m.len == old(m.len) + |header|
    ensures (&& !Copies(old(m.buf.Length), old(m.len), |header|, shared)
             && !Rebalances(old(m.buf.Length), old(m.ptr), old(m.len), |header|))
            ==> m.Body() == if allocOk || |header| <= old(m.ptr) then header + old(m.Body()) else old(m.Body())
  {
    hide Rebalanced, Shift, Written;
    if m.buf.Length - m.len < |header| || shared {
      var a := MsgAlloc(m.len + |header|, allocOk);
      if a.Err? { return None; }
      var c := a.value;
      ghost var n := c.len;
      var b := header + m.buf[m.ptr..m.ptr + m.len];
      ghost var blank := c.buf[..];
      MemCpy(c.buf, c.ptr, b);
      WrittenSlice(blank, c.ptr, b, c.ptr, c.ptr + n);
      SliceOf(c.buf, c.ptr, c.ptr + n);
      return Some(c);
    }
    var _ := m.Insert(header, allocOk);
    return Some(m);
  }

  /** A message of 100 bytes: one byte inserted is prepended, forty more then overwrite it. */
  method InsertOverwrites() returns (c: Chunk, one: seq<Byte>, forty: seq<Byte>, body: seq<Byte>)
    ensures |one| == 1 && |forty| == 40 && |body| == 101 && body[..1] == one && c.Valid() && |c.Body()| == 141
    ensures c.Body() != forty + body
  {
    hide Rebalanced, Shift, Written;
    var a := MsgAlloc(100, true);
    c := a.value;
    ghost var zeros := c.Body();
    one, forty := [1], seq(40, _ => ZERO);
    var _ := c.Insert(one, true);
    body := c.buf[c.ptr..c.ptr + c.len];
    assert body == one + zeros;
    ghost var was := c.Body();
    var _ := c.Insert(forty, true);
    assert c.Body()[40..101][0] == was[40..][0] == ZERO;
    assert (forty + body)[40] == 1;
  }

  /** A message of 100 bytes and one more in front: the start of the two runs below. */
  method Marked() returns (c: Chunk, body: seq<Byte>)
    ensures fresh(c) && fresh(c.buf) && c.Valid() && c.Body() == body
    ensures |body| == 101 && body[0] == 1 && body[40] == ZERO
    ensures c.ptr == 31 && c.buf.Length == 164
  {
    hide Rebalanced, Shift, Written;
    var a := MsgAlloc(100, true);
    c := a.value;
    ghost var zeros := c.Body();
    var _ := c.Insert([1], true);
    body := c.buf[c.ptr..c.ptr + c.len];
    assert body == [1] + zeros;
  }

  /** A header of forty bytes: the merge takes the rebalancing branch and overwrites the body. */
  method PullUpOverwrites() returns (r: Option<Chunk>, header: seq<Byte>, body: seq<Byte>)
    ensures |header| == 40 && |body| == 101 && r.Some? && r.value.Valid() && r.value.Body() != header + body
  {
    hide Rebalanced, Shift, Written;
    var c;
    c, body := Marked();
    header := seq(40, _ => ZERO);
    ghost var b := c.buf[..];
    SliceOf(c.buf, 31, 132);
    RebalancedBody(b, 31, 101, header);
    r := PullUp(c, header, false, true);
    SliceOf(c.buf, c.ptr, c.ptr + c.len);
    assert c.Body()[40..101] == body[40..];
    assert c.Body()[40] == c.Body()[40..101][0] == body[40..][0];
    assert (header + body)[40] == 1;
  }

  /** A header of sixty bytes and no memory: the message comes back as it was, and the header is gone. */
  method PullUpLosesHeader() returns (r: Option<Chunk>, header: seq<Byte>, body: seq<Byte>)
    ensures |header| == 60 && |body| == 101 && r.Some? && r.value.Valid() && r.value.Body() == body
  {
    hide Rebalanced, Shift, Written;
    var c;
    c, body := Marked();
    header := seq(60, _ => ZERO);
    r := PullUp(c, header, false, false);
  }
}
