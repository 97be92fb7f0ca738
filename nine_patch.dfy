/** graphics/NinePatchBuilder.java: stretch masks edited in place, the
    boundary extraction that turns a mask into nine-patch divisions, the
    serialised chunk written into a big-endian ByteBuffer, and the static
    cache in front of build. */
module NinePatch {
  import opened JavaLang

  /** A byte as the unsigned bit pattern stored in the buffer. */
  type u8 = x: int | 0 <= x < 256

  /** A Java (byte) cast, as the bit pattern it leaves. */
  function ToByte(x: int): (b: u8)
    ensures (x - b) % 256 == 0
  {
    x % 256
  }

  // ------------------------------------------------------------ big-endian words

  /** The four bytes ByteBuffer.putInt writes for v (big-endian, two's complement). */
  function IntBytes(v: int): (b: seq<u8>)
    ensures |b| == 4
  {
    var u := v % TWO_32;
    var q1 := u / 256;
    var q2 := q1 / 256;
    [q2 / 256, q2 % 256, q1 % 256, u % 256]
  }

  /** ByteBuffer.getInt: the int held in four big-endian bytes. */
  function DecodeInt(b: seq<u8>): int32
    requires |b| == 4
  {
    Wrap32(((b[0] as int * 256 + b[1]) * 256 + b[2]) * 256 + b[3])
  }

  /** Reading back a written int gives the int, wrapped to 32 bits. */
  lemma DecodeIntBytes(v: int)
    ensures DecodeInt(IntBytes(v)) == Wrap32(v)
  {
    var u := v % TWO_32;
    var q1 := u / 256;
    var q2 := q1 / 256;
    assert u == q1 * 256 + u % 256;
    assert q1 == q2 * 256 + q1 % 256;
    assert q2 == (q2 / 256) * 256 + q2 % 256;
    assert (v - u) % TWO_32 == 0;
  }

  /** The bytes of successive putInt calls. */
  function Words(vs: seq<int>): (b: seq<u8>)
    ensures |b| == 4 * |vs|
  {
    if vs == [] then [] else Words(vs[..|vs| - 1]) + IntBytes(vs[|vs| - 1])
  }

  function Ones(n: nat): (s: seq<int>)
    ensures |s| == n && forall i :: 0 <= i < n ==> s[i] == 1
  {
    seq(n, _ => 1)
  }

  function Zeros(n: nat): (s: seq<u8>)
    ensures |s| == n && forall i :: 0 <= i < n ==> s[i] == 0
  {
    seq(n, _ => 0)
  }

  function ZeroInts(n: nat): (s: seq<int>)
    ensures |s| == n && forall i :: 0 <= i < n ==> s[i] == 0
  {
    seq(n, _ => 0)
  }

  // ------------------------------------------------------------ ByteBuffer

  /** java.nio.ByteBuffer as used here: a zero-filled backing array written
      from position onwards. */
  class ByteBuffer {
    const hb: array<u8>
    var position: nat

    ghost predicate Valid()
      reads this, hb
    {
      && position <= hb.Length
      && forall i :: position <= i < hb.Length ==> hb[i] == 0
    }

    /** ByteBuffer.allocate. */
    constructor Allocate(capacity: nat)
      ensures Valid() && fresh(hb)
      ensures hb.Length == capacity && position == 0
    {
      hb := new u8[capacity](_ => 0);
      position := 0;
    }

    /** ByteBuffer.put(byte), with room left (which the caller here always has). */
    method Put(b: u8)
      requires Valid() && position < hb.Length
      modifies this, hb
      ensures Valid()
      ensures position == old(position) + 1
      ensures hb[..position] == old(hb[..position]) + [b]
    {
      hb[position] := b;
      position := position + 1;
    }

    /** ByteBuffer.putInt, big-endian. */
    method PutInt(v: int)
      requires Valid() && position + 4 <= hb.Length
      modifies this, hb
      ensures Valid()
      ensures position == old(position) + 4
      ensures hb[..position] == old(hb[..position]) + IntBytes(v)
    {
      var b := IntBytes(v);
      Put(b[0]);
      Put(b[1]);
      Put(b[2]);
      Put(b[3]);
      assert b == [b[0], b[1], b[2], b[3]];
    }
  }

  // ------------------------------------------------------------ masks and boundaries

  /** Every mask entry is 0 or 1: the only values the builder stores. Both
      are cached Integer boxes, so the source's reference comparison of two
      entries agrees with comparing their values. */
  ghost predicate IsMask(d: seq<int>)
  {
    forall i :: 0 <= i < |d| ==> d[i] == 0 || d[i] == 1
  }

  /** The indices x >= 1 where the mask changes value, in increasing order;
      there are fewer of them than mask entries. */
  function Boundaries(d: seq<int>): (b: seq<int>)
    ensures d == [] || |b| <= |d| - 1
    decreases |d|
  {
    if |d| < 2 then []
    else if d[|d| - 1] != d[|d| - 2] then Boundaries(d[..|d| - 1]) + [|d| - 1]
    else Boundaries(d[..|d| - 1])
  }

  /** The divisions the source derives from the boundaries: the k-th entry
      is the boundary itself for even k and one less for odd k. */
  function Marks(t: seq<int>): (m: seq<int>)
    ensures |m| == |t|
    ensures forall k :: 0 <= k < |t| ==> t[k] - 1 <= m[k] <= t[k]
    ensures forall k :: 0 <= k < |t| && k % 2 == 0 ==> m[k] == t[k]
  {
    seq(|t|, k requires 0 <= k < |t| => t[k] - k % 2)
  }

  /** Boundaries holds exactly the change points, each once, ascending. */
  lemma {:induction false} BoundariesSpec(d: seq<int>)
    ensures forall x :: x in Boundaries(d) <==> 1 <= x < |d| && d[x] != d[x - 1]
    ensures forall i, j :: 0 <= i < j < |Boundaries(d)| ==> Boundaries(d)[i] < Boundaries(d)[j]
    ensures forall k :: 0 <= k < |Boundaries(d)| ==> 1 <= Boundaries(d)[k] < |d|
  {
    BoundariesRange(d);
    BoundariesAscending(d);
    BoundariesMembers(d);
  }

  lemma {:induction false} BoundariesRange(d: seq<int>)
    ensures forall k :: 0 <= k < |Boundaries(d)| ==> 1 <= Boundaries(d)[k] < |d|
    decreases |d|
  {
    if |d| >= 2 {
      BoundariesRange(d[..|d| - 1]);
    }
  }

  lemma {:induction false} BoundariesAscending(d: seq<int>)
    ensures forall i, j :: 0 <= i < j < |Boundaries(d)| ==> Boundaries(d)[i] < Boundaries(d)[j]
    decreases |d|
  {
    if |d| >= 2 {
      var init := d[..|d| - 1];
      BoundariesAscending(init);
      BoundariesRange(init);
    }
  }

  lemma {:induction false} BoundariesMembers(d: seq<int>)
    ensures forall x :: x in Boundaries(d) <==> 1 <= x < |d| && d[x] != d[x - 1]
    decreases |d|
  {
    if |d| >= 2 {
      var init := d[..|d| - 1];
      BoundariesMembers(init);
      BoundariesRange(init);
      forall x
        ensures x in Boundaries(d) <==> 1 <= x < |d| && d[x] != d[x - 1]
      {
        if 1 <= x < |init| {
          assert init[x] == d[x] && init[x - 1] == d[x - 1];
        }
      }
    } else {
      assert Boundaries(d) == [];
    }
  }

  /** One more mask entry adds its index as a boundary exactly when it
      differs from the entry before it. */
  lemma BoundariesStep(d: seq<int>)
    requires |d| >= 2
    ensures Boundaries(d) == Boundaries(d[..|d| - 1]) + (if d[|d| - 1] != d[|d| - 2] then [|d| - 1] else [])
  {
  }

  /** One more boundary adds one division, adjusted by its position. */
  lemma MarksSnoc(t: seq<int>, v: int)
    ensures Marks(t + [v]) == Marks(t) + [v - |t| % 2]
  {
    assert forall k :: 0 <= k < |t| ==> (t + [v])[k] == t[k];
  }

  /** Divisions taken from ascending boundaries are non-negative and non-decreasing. */
  lemma MarksOrdered(t: seq<int>)
    requires forall i, j :: 0 <= i < j < |t| ==> t[i] < t[j]
    requires forall k :: 0 <= k < |t| ==> 1 <= t[k]
    ensures forall i, j :: 0 <= i <= j < |t| ==> 0 <= Marks(t)[i] <= Marks(t)[j]
  {
    forall i, j | 0 <= i <= j < |t|
      ensures 0 <= Marks(t)[i] <= Marks(t)[j]
    {
      if i < j {
        assert t[i] < t[j];
      }
    }
  }

  /** A mask of zeros with the ones [s, e) strictly inside it has the two
      boundaries s and e, and the divisions s and e - 1: the second division
      stops one short of the stretch's end. */
  lemma SingleStretch(d: seq<int>, s: int, e: int)
    requires 1 <= s < e < |d|
    requires forall i :: 0 <= i < |d| ==> d[i] == (if s <= i < e then 1 else 0)
    ensures Boundaries(d) == [s, e]
    ensures Marks(Boundaries(d)) == [s, e - 1]
  {
    StretchPrefix(d, s, e, |d|);
    assert d[..|d|] == d;
  }

  lemma {:induction false} StretchPrefix(d: seq<int>, s: int, e: int, n: nat)
    requires 1 <= s < e < |d| && n <= |d|
    requires forall i :: 0 <= i < |d| ==> d[i] == (if s <= i < e then 1 else 0)
    ensures Boundaries(d[..n]) == if n <= s then [] else if n <= e then [s] else [s, e]
    decreases n
  {
    if n >= 2 {
      StretchPrefix(d, s, e, n - 1);
      assert d[..n][..n - 1] == d[..n - 1];
    }
  }

  // ------------------------------------------------------------ chunk layout

  /** The number of regions prepareChunk declares. */
  function RegionCount(segX: seq<int>, segY: seq<int>): nat
  {
    Max(1, |segX|) * Max(1, |segY|)
  }

  /** The allocated size: 32 + (dX + dY) * 8 + r * 4. */
  function Capacity(dX: nat, dY: nat, r: nat): nat
  {
    32 + (dX + dY) * 8 + r * 4
  }

  /** Header: deserialised flag, division and region counts as bytes, two
      zero words, the four padding words and a zero word. */
  function ChunkHeader(dX: nat, dY: nat, r: int, padding: seq<int>): (h: seq<u8>)
    requires |padding| == 4
    ensures |h| == 32
  {
    [1, ToByte(dX * 2), ToByte(dY * 2), ToByte(r)]
      + IntBytes(0) + IntBytes(0) + Words(padding) + IntBytes(0)
  }

  /** Everything prepareChunk puts into the buffer, in order, for masks of
      lengths dX and dY, the divisions seg (written for both directions)
      and r regions. */
  function ChunkWritten(dX: nat, dY: nat, seg: seq<int>, r: nat, padding: seq<int>): seq<u8>
    requires |padding| == 4
  {
    ChunkHeader(dX, dY, r, padding) + Words(seg) + Words(seg) + Words(Ones(r))
  }

  /** The written bytes followed by the zeros left in the allocated buffer:
      with no more divisions than mask entries everything fits. */
  function ChunkOf(dX: nat, dY: nat, seg: seq<int>, r: nat, padding: seq<int>): (c: seq<u8>)
    requires |padding| == 4 && |seg| <= dX
    ensures |c| == Capacity(dX, dY, r) && |c| % 4 == 0
    ensures |ChunkWritten(dX, dY, seg, r, padding)| <= |c|
  {
    ChunkWritten(dX, dY, seg, r, padding) + Zeros(8 * (dX + dY - |seg|))
  }

  /** The array prepareChunk returns for the masks dataX and dataY.
      getSegments reads dataX for both directions, so the same divisions
      appear twice. */
  function Chunk(dataX: seq<int>, dataY: seq<int>, padding: seq<int>): (c: seq<u8>)
    requires |padding| == 4
    ensures 32 <= |c| && |c| % 4 == 0
  {
    var seg := Marks(Boundaries(dataX));
    ChunkOf(|dataX|, |dataY|, seg, RegionCount(seg, seg), padding)
  }

  // ------------------------------------------------------------ the chunk in int arithmetic

  /** r as prepareChunk computes it: the product wraps to 32 bits. */
  function IntRegions(seg: seq<int>): int32
  {
    Wrap32(Max(1, |seg|) * Max(1, |seg|))
  }

  /** The capacity prepareChunk passes to allocate: 32 + (dX + dY) * 8 + r * 4
      with every operation wrapping to 32 bits. */
  function IntCapacity(dX: nat, dY: nat, r: int32): int32
  {
    Wrap32(Wrap32(32 + Wrap32(Wrap32(dX + dY) * 8)) + Wrap32(r * 4))
  }

  /** The exact capacity of the masks' chunk fits in an int. */
  predicate ChunkFits(dataX: seq<int>, dataY: seq<int>)
  {
    var seg := Marks(Boundaries(dataX));
    Capacity(|dataX|, |dataY|, RegionCount(seg, seg)) <= INT_MAX
  }

  /** The bytes prepareChunk puts: the header with r as its region byte,
      the divisions twice and n ones. */
  function ChunkBytes(dX: nat, dY: nat, seg: seq<int>, r: int, n: nat, padding: seq<int>): (b: seq<u8>)
    requires |padding| == 4
    ensures |b| == 32 + 8 * |seg| + 4 * n
  {
    ChunkHeader(dX, dY, r, padding) + Words(seg) + Words(seg) + Words(Ones(n))
  }

  /** What prepareChunk returns, or throws, for the masks dataX and dataY
      and the padding array (None while it is null). allocate refuses a
      negative capacity; the four byte puts and two zero words fill twelve
      bytes before the first padding put reads the array; and a buffer too
      small for everything written overflows at the put that reaches its
      end. Otherwise the buffer holds the written bytes and zeros up to the
      capacity. Whenever the exact capacity fits in an int this is the
      chunk, or NullPointerException for a null padding array. */
  function ChunkResult(dataX: seq<int>, dataY: seq<int>, padding: Option<seq<int>>): (c: Result<seq<u8>>)
    requires padding.Some? ==> |padding.value| == 4
    ensures ChunkFits(dataX, dataY) ==> (padding == None <==> c == Throws(NullPointer))
    ensures ChunkFits(dataX, dataY) && padding.Some? ==> c == Ok(Chunk(dataX, dataY, padding.value))
    ensures c.Ok? ==> padding.Some? && |c.value| == IntCapacity(|dataX|, |dataY|, IntRegions(Marks(Boundaries(dataX))))
    ensures c.Throws? ==> c.exc in {IllegalArgument, BufferOverflow, NullPointer}
  {
    var seg := Marks(Boundaries(dataX));
    var r := IntRegions(seg);
    var capacity := IntCapacity(|dataX|, |dataY|, r);
    var n := Max(0, r);
    if capacity < 0 then Throws(IllegalArgument)
    else if capacity < 12 then Throws(BufferOverflow)
    else if padding == None then Throws(NullPointer)
    else if capacity < 32 + 8 * |seg| + 4 * n then Throws(BufferOverflow)
    else Ok(ChunkBytes(|dataX|, |dataY|, seg, r, n, padding.value) + Zeros(capacity - (32 + 8 * |seg| + 4 * n)))
  }

  /** The chunk ChunkResult gives when nothing fails. */
  lemma ChunkResultOk(dataX: seq<int>, dataY: seq<int>, padding: seq<int>)
    requires |padding| == 4
    requires var seg := Marks(Boundaries(dataX));
             var capacity := IntCapacity(|dataX|, |dataY|, IntRegions(seg));
             32 + 8 * |seg| + 4 * Max(0, IntRegions(seg)) <= capacity
    ensures var seg := Marks(Boundaries(dataX));
            var r := IntRegions(seg);
            var n := Max(0, r);
            var written := ChunkBytes(|dataX|, |dataY|, seg, r, n, padding);
            ChunkResult(dataX, dataY, Some(padding))
              == Ok(written + Zeros(IntCapacity(|dataX|, |dataY|, r) - |written|))
  {
  }

  /** From 23170 divisions on, r * 4 alone fills an int, so with masks of
      fewer than 2^28 entries in all the capacity wraps to a negative value
      and allocate throws IllegalArgumentException. */
  lemma ManyDivisionsOverflow(dataX: seq<int>, dataY: seq<int>, padding: Option<seq<int>>)
    requires padding.Some? ==> |padding.value| == 4
    requires |Marks(Boundaries(dataX))| == 23170 && |dataX| + |dataY| < 0x1000_0000
    ensures !ChunkFits(dataX, dataY)
    ensures ChunkResult(dataX, dataY, padding) == Throws(IllegalArgument)
  {
    var seg := Marks(Boundaries(dataX));
    assert IntRegions(seg) == 536848900;
    assert |dataX| >= 23171;
  }

  // ------------------------------------------------------------ reading a chunk back

  /** The ints a run of bytes holds, read with successive getInt calls. */
  function DecodeWords(b: seq<u8>): (vs: seq<int32>)
    requires |b| % 4 == 0
    ensures |vs| == |b| / 4
    decreases |b|
  {
    if b == [] then [] else DecodeWords(b[..|b| - 4]) + [DecodeInt(b[|b| - 4..])]
  }

  /** Each value as the int it becomes once written. */
  function WrapAll(vs: seq<int>): (ws: seq<int32>)
    ensures |ws| == |vs| && forall k :: 0 <= k < |vs| ==> ws[k] == Wrap32(vs[k])
  {
    seq(|vs|, k requires 0 <= k < |vs| => Wrap32(vs[k]))
  }

  lemma {:induction false} WordsAppend(a: seq<int>, b: seq<int>)
    ensures Words(a + b) == Words(a) + Words(b)
    decreases |b|
  {
    if b != [] {
      var b' := b[..|b| - 1];
      assert (a + b)[..|a + b| - 1] == a + b';
      assert (a + b)[|a + b| - 1] == b[|b| - 1];
      WordsAppend(a, b');
      assert Words(a + b) == Words(a + b') + IntBytes(b[|b| - 1]);
    } else {
      assert a + b == a;
    }
  }

  lemma {:induction false} DecodeWordsAppend(a: seq<u8>, b: seq<u8>)
    requires |a| % 4 == 0 && |b| % 4 == 0
    ensures DecodeWords(a + b) == DecodeWords(a) + DecodeWords(b)
    decreases |b|
  {
    if b != [] {
      var b' := b[..|b| - 4];
      assert (a + b)[..|a + b| - 4] == a + b';
      assert (a + b)[|a + b| - 4..] == b[|b| - 4..];
      DecodeWordsAppend(a, b');
      assert DecodeWords(a + b) == DecodeWords(a + b') + [DecodeInt(b[|b| - 4..])];
    } else {
      assert a + b == a;
    }
  }

  /** Four bytes read back as one int. */
  lemma DecodeOneWord(b: seq<u8>)
    requires |b| == 4
    ensures DecodeWords(b) == [DecodeInt(b)]
  {
    assert b[..0] == [] && b[0..] == b;
  }

  /** Reading back what successive putInt calls wrote gives the values, each
      wrapped to 32 bits. */
  lemma {:induction false} DecodeWordsWords(vs: seq<int>)
    ensures DecodeWords(Words(vs)) == WrapAll(vs)
    decreases |vs|
  {
    if vs != [] {
      var init, last := vs[..|vs| - 1], vs[|vs| - 1];
      assert Words(vs) == Words(init) + IntBytes(last);
      DecodeWordsAppend(Words(init), IntBytes(last));
      DecodeOneWord(IntBytes(last));
      DecodeIntBytes(last);
      DecodeWordsWords(init);
      WrapAllSnoc(vs);
    }
  }

  lemma WrapAllSnoc(vs: seq<int>)
    requires vs != []
    ensures WrapAll(vs) == WrapAll(vs[..|vs| - 1]) + [Wrap32(vs[|vs| - 1])]
  {
  }

  /** The ints a chunk holds after its four leading bytes: two zeros, the
      padding, a zero, the divisions twice over, r ones, and then zeros up
      to the capacity. */
  function ChunkFields(dX: nat, dY: nat, seg: seq<int>, r: nat, padding: seq<int>): seq<int>
    requires |seg| <= dX
  {
    [0, 0] + padding + [0] + seg + seg + Ones(r) + ZeroInts(2 * (dX + dY - |seg|))
  }

  /** The chunk is its four leading bytes followed by the fields written as words. */
  lemma ChunkIsWords(dX: nat, dY: nat, seg: seq<int>, r: nat, padding: seq<int>)
    requires |padding| == 4 && |seg| <= dX
    ensures ChunkOf(dX, dY, seg, r, padding)
              == [1, ToByte(dX * 2), ToByte(dY * 2), ToByte(r)] + Words(ChunkFields(dX, dY, seg, r, padding))
  {
    var m := 2 * (dX + dY - |seg|);
    var zs := ZeroInts(m);
    var hd: seq<u8> := [1, ToByte(dX * 2), ToByte(dY * 2), ToByte(r)];
    var f1 := [0, 0] + padding + [0];
    HeaderIsWords(dX, dY, r, padding);
    ZeroWords(m);
    Reassoc6(hd, Words(f1), Words(seg), Words(seg), Words(Ones(r)), Words(zs));
    WordsAppend5(f1, seg, seg, Ones(r), zs);
  }

  lemma HeaderIsWords(dX: nat, dY: nat, r: nat, padding: seq<int>)
    requires |padding| == 4
    ensures ChunkHeader(dX, dY, r, padding) == [1, ToByte(dX * 2), ToByte(dY * 2), ToByte(r)] + Words([0, 0] + padding + [0])
  {
    var hd: seq<u8> := [1, ToByte(dX * 2), ToByte(dY * 2), ToByte(r)];
    var i0 := IntBytes(0);
    HeaderWords(padding);
    Reassoc(hd, i0, i0, Words(padding), i0);
  }

  lemma Reassoc<T>(a: seq<T>, b: seq<T>, c: seq<T>, d: seq<T>, e: seq<T>)
    ensures a + b + c + d + e == a + (b + c + d + e)
  {
  }

  lemma Reassoc6<T>(a: seq<T>, b: seq<T>, c: seq<T>, d: seq<T>, e: seq<T>, f: seq<T>)
    ensures (a + b) + c + d + e + f == a + (b + c + d + e + f)
  {
  }

  lemma WordsAppend5(a: seq<int>, b: seq<int>, c: seq<int>, d: seq<int>, e: seq<int>)
    ensures Words(a + b + c + d + e) == Words(a) + Words(b) + Words(c) + Words(d) + Words(e)
  {
    WordsAppend(a + b + c + d, e);
    WordsAppend(a + b + c, d);
    WordsAppend(a + b, c);
    WordsAppend(a, b);
  }

  /** The header's words after its four leading bytes. */
  lemma HeaderWords(padding: seq<int>)
    ensures Words([0, 0] + padding + [0]) == IntBytes(0) + IntBytes(0) + Words(padding) + IntBytes(0)
  {
    WordsAppend([0, 0] + padding, [0]);
    WordsAppend([0, 0], padding);
    assert [0, 0][..1] == [0] && [0][..0] == [];
  }

  lemma {:induction false} ZeroWords(m: nat)
    ensures Words(ZeroInts(m)) == Zeros(4 * m)
    decreases m
  {
    if m > 0 {
      assert ZeroInts(m)[..m - 1] == ZeroInts(m - 1);
      ZeroWords(m - 1);
    }
  }

  lemma SplitAfter<T>(a: seq<T>, b: seq<T>)
    ensures (a + b)[..|a|] == a && (a + b)[|a|..] == b
  {
  }

  /** Reading a chunk back: the leading bytes hold the flag and the three
      counts, and the ints after them are the fields, each wrapped to 32 bits. */
  lemma ChunkDecodes(dX: nat, dY: nat, seg: seq<int>, r: nat, padding: seq<int>)
    requires |padding| == 4 && |seg| <= dX
    ensures var c := ChunkOf(dX, dY, seg, r, padding);
            && c[..4] == [1, ToByte(dX * 2), ToByte(dY * 2), ToByte(r)]
            && DecodeWords(c[4..]) == WrapAll(ChunkFields(dX, dY, seg, r, padding))
  {
    var hd: seq<u8> := [1, ToByte(dX * 2), ToByte(dY * 2), ToByte(r)];
    var f := ChunkFields(dX, dY, seg, r, padding);
    ChunkIsWords(dX, dY, seg, r, padding);
    SplitAfter(hd, Words(f));
    DecodeWordsWords(f);
  }

  /** Wrapping the fields changes only the padding when the divisions are ints. */
  lemma FieldsWrapped(dX: nat, dY: nat, seg: seq<int>, r: nat, padding: seq<int>)
    requires |seg| <= dX && forall k :: 0 <= k < |seg| ==> IsInt(seg[k])
    ensures WrapAll(ChunkFields(dX, dY, seg, r, padding))
              == [0, 0] + WrapAll(padding) + [0] + seg + seg + Ones(r) + ZeroInts(2 * (dX + dY - |seg|))
  {
    var f := ChunkFields(dX, dY, seg, r, padding);
    var g := [0, 0] + WrapAll(padding) + [0] + seg + seg + Ones(r) + ZeroInts(2 * (dX + dY - |seg|));
    forall k | 0 <= k < |f|
      ensures WrapAll(f)[k] == g[k]
    {
      if k >= |padding| + 3 {
        assert IsInt(f[k]);
      }
    }
  }

  /** The chunk of a builder read back, for seg the divisions of dataX and
      any region count r (Chunk uses RegionCount(seg, seg)): the leading
      bytes hold the flag and the mask lengths and region count as bytes;
      then come two zeros, the padding wrapped to 32 bits, a zero, the
      divisions twice, r ones and zeros up to the allocated size. */
  lemma ChunkReadsBack(dataX: seq<int>, dataY: seq<int>, padding: seq<int>, seg: seq<int>, r: nat)
    requires |padding| == 4 && |dataX| <= INT_MAX && seg == Marks(Boundaries(dataX))
    ensures |seg| <= |dataX|
    ensures var c := ChunkOf(|dataX|, |dataY|, seg, r, padding);
            && |c| == Capacity(|dataX|, |dataY|, r)
            && c[..4] == [1, ToByte(|dataX| * 2), ToByte(|dataY| * 2), ToByte(r)]
            && DecodeWords(c[4..]) == [0, 0] + WrapAll(padding) + [0] + seg + seg + Ones(r)
                                        + ZeroInts(2 * (|dataX| + |dataY| - |seg|))
  {
    ChunkSegmentsAreInts(dataX);
    ChunkDecodes(|dataX|, |dataY|, seg, r, padding);
    FieldsWrapped(|dataX|, |dataY|, seg, r, padding);
  }

  /** Divisions lie in 0..|dataX| - 1, so they are ints and decode to themselves. */
  lemma ChunkSegmentsAreInts(dataX: seq<int>)
    requires |dataX| <= INT_MAX
    ensures forall k :: 0 <= k < |Marks(Boundaries(dataX))| ==> IsInt(Marks(Boundaries(dataX))[k])
  {
    BoundariesRange(dataX);
  }

  /** A buffer holding the written bytes, and zeros after them up to the
      capacity, is the chunk. */
  lemma Assembled(b: seq<u8>, pos: nat, dX: nat, dY: nat, seg: seq<int>, r: nat, padding: seq<int>)
    requires |padding| == 4 && |seg| <= dX
    requires pos <= |b| == Capacity(dX, dY, r)
    requires b[..pos] == ChunkWritten(dX, dY, seg, r, padding)
    requires forall i :: pos <= i < |b| ==> b[i] == 0
    ensures b == ChunkOf(dX, dY, seg, r, padding)
  {
    PrefixThenZeros(b, pos);
  }

  /** A sequence that is zero from pos on is its prefix followed by zeros. */
  lemma PrefixThenZeros(b: seq<u8>, pos: nat)
    requires pos <= |b| && forall i :: pos <= i < |b| ==> b[i] == 0
    ensures b == b[..pos] + Zeros(|b| - pos)
  {
    assert b[pos..] == Zeros(|b| - pos);
    assert b == b[..pos] + b[pos..];
  }

  /** The header puts of prepareChunk. */
  method PutHeader(buffer: ByteBuffer, dX: nat, dY: nat, r: int, padding: seq<int>)
    requires buffer.Valid() && buffer.position == 0 && 32 <= buffer.hb.Length && |padding| == 4
    modifies buffer, buffer.hb
    ensures buffer.Valid() && buffer.position == 32
    ensures buffer.hb[..buffer.position] == ChunkHeader(dX, dY, r, padding)
  {
    buffer.Put(1);
    buffer.Put(ToByte(dX * 2));
    buffer.Put(ToByte(dY * 2));
    buffer.Put(ToByte(r));
    buffer.PutInt(0);
    buffer.PutInt(0);
    PutWords(buffer, padding);
    buffer.PutInt(0);
  }

  /** allocate and the puts of prepareChunk, into a buffer with room for
      them: the written bytes followed by zeros up to the capacity. */
  method WriteChunk(capacity: nat, dX: nat, dY: nat, seg: seq<int>, r: int, n: nat, padding: seq<int>)
    returns (chunk: array<u8>)
    requires |padding| == 4 && 32 + 8 * |seg| + 4 * n <= capacity
    ensures fresh(chunk)
    ensures var written := ChunkBytes(dX, dY, seg, r, n, padding);
            chunk[..] == written + Zeros(capacity - |written|)
  {
    var buffer := new ByteBuffer.Allocate(capacity);
    PutHeader(buffer, dX, dY, r, padding);
    PutWords(buffer, seg);
    PutWords(buffer, seg);
    PutWords(buffer, Ones(n));
    chunk := buffer.hb;
    assert chunk[..buffer.position] == ChunkBytes(dX, dY, seg, r, n, padding);
    PrefixThenZeros(chunk[..], buffer.position);
  }

  /** One putInt per value, in order. */
  method PutWords(buffer: ByteBuffer, vs: seq<int>)
    requires buffer.Valid() && buffer.position + 4 * |vs| <= buffer.hb.Length
    modifies buffer, buffer.hb
    ensures buffer.Valid() && buffer.position == old(buffer.position) + 4 * |vs|
    ensures buffer.hb[..buffer.position] == old(buffer.hb[..buffer.position]) + Words(vs)
  {
    ghost var start := buffer.hb[..buffer.position];
    var i := 0;
    while i < |vs|
      invariant 0 <= i <= |vs|
      invariant buffer.Valid() && buffer.position == old(buffer.position) + 4 * i
      invariant buffer.hb[..buffer.position] == start + Words(vs[..i])
    {
      assert vs[..i + 1][..i] == vs[..i];
      buffer.PutInt(vs[i]);
      i := i + 1;
    }
    assert vs[..i] == vs;
  }

  // ------------------------------------------------------------ drawables and cache

  /** An android.graphics.Bitmap, identified by the allocation that made it. */
  datatype Bitmap = Bitmap(id: nat, width: int, height: int)

  /** The drawables build distinguishes. A container's children array may
      hold null entries. */
  datatype Drawable =
    | NinePatchDrawable(bitmap: Bitmap, chunk: seq<u8>, name: string)
    | BitmapDrawable(source: Bitmap)
    | ContainerDrawable(containerId: nat, children: seq<Option<Drawable>>)
    | OtherDrawable(otherId: nat)

  /** Keys of the static cache: the map is typed Object and build looks it
      up with both bitmaps and drawables. */
  datatype CacheKey = BitmapKey(bitmap: Bitmap) | DrawableKey(drawable: Drawable)

  /** The static HashMap shared by every builder. */
  class DrawableCache {
    var entries: map<CacheKey, Drawable>

    /** Only bitmaps are ever stored as keys, so a drawable is never found;
        the values are nine-patch drawables, as the map's type says. */
    ghost predicate Valid()
      reads this
    {
      forall k :: k in entries ==> k.BitmapKey? && entries[k].NinePatchDrawable?
    }

    constructor ()
      ensures entries == map[] && Valid()
    {
      entries := map[];
    }
  }

  /** Source of fresh identities, standing for the Java heap. */
  class Allocator {
    var next: nat

    constructor ()
      ensures next == 0
    {
      next := 0;
    }
  }

  /** The name a build gives its drawable: the configured one, or
      "NinePatch@" and the chunk's hash code when it is null or empty. */
  function ResolvedName(srcName: Option<string>, chunkHash: int): (n: string)
    ensures srcName.Some? && srcName.value != "" ==> n == srcName.value
    ensures srcName == None || srcName == Some("") ==> StartsWith(n, "NinePatch@")
  {
    if srcName.None? || srcName.value == "" then "NinePatch@" + IntToString(chunkHash) else srcName.value
  }

  class NinePatchBuilder {
    var dataX: seq<int>
    var dataY: seq<int>
    var srcName: Option<string>
    /** The padding array: null (None) as the constructor leaves it, for
        no method allocates it. Some(p) stands for an allocated array, p
        holding its four values as prepareChunk scales them to the bitmap. */
    var padding: Option<seq<int>>
    const cache: DrawableCache
    const heap: Allocator

    ghost predicate Valid()
      reads this, cache
    {
      && IsMask(dataX) && IsMask(dataY) && cache.Valid() && cache != heap as object
      && (padding.Some? ==> |padding.value| == 4)
    }

    constructor (cache: DrawableCache, heap: Allocator)
      requires cache.Valid()
      ensures Valid()
      ensures dataX == [] && dataY == [] && srcName == None && padding == None
      ensures this.cache == cache && this.heap == heap
    {
      dataX := [];
      dataY := [];
      srcName := None;
      padding := None;
      this.cache := cache;
      this.heap := heap;
    }

    /** addSegment: sets entries s..e-1 to 1, appending where the list is
        too short. A start beyond the end appends e - s ones at the end
        instead of writing at index s. A negative start throws before
        anything changes. */
    static method AddSegment(segments: seq<int>, s: int, e: int) returns (r: Result<seq<int>>)
      ensures s >= e ==> r == Ok(segments)
      ensures s < e && s < 0 ==> r == Throws(IndexOutOfBounds)
      ensures 0 <= s <= |segments| && s < e ==>
                && r.Ok?
                && |r.value| == Max(|segments|, e)
                && (forall i :: 0 <= i < |r.value| ==> r.value[i] == if s <= i < e then 1 else segments[i])
      ensures 0 <= |segments| < s < e ==> r == Ok(segments + Ones(e - s))
      ensures IsMask(segments) && r.Ok? ==> IsMask(r.value)
      ensures r == AddSegmentResult(segments, s, e)
    {
      var cur := segments;
      var i := s;
      while i < e
        invariant s <= i && (s < e ==> i <= e)
        invariant s < 0 || s >= e ==> i == s
        invariant i == s ==> cur == segments
        invariant 0 <= s <= |segments| ==>
                    && |cur| == Max(|segments|, i)
                    && (forall k :: 0 <= k < |cur| ==> cur[k] == if s <= k < i then 1 else segments[k])
        invariant |segments| < s ==> cur == segments + Ones(i - s)
        invariant IsMask(segments) ==> IsMask(cur)
      {
        if |cur| > i {
          if i < 0 {
            return Throws(IndexOutOfBounds);
          }
          cur := cur[i := 1];
        } else {
          cur := cur + [1];
        }
        i := i + 1;
      }
      if 0 <= s <= |segments| && s < e {
        assert cur == AddSegmentResult(segments, s, e).value;
      }
      return Ok(cur);
    }

    /** removeSegment: sets entries s..min(e, size)-1 to 0; the length and
        every other entry stay. A negative start throws. */
    static method RemoveSegment(segments: seq<int>, s: int, e: int) returns (r: Result<seq<int>>)
      ensures s < e && s < 0 ==> r == Throws(IndexOutOfBounds)
      ensures s >= 0 || s >= e ==>
                && r.Ok?
                && |r.value| == |segments|
                && (forall i :: 0 <= i < |segments| ==> r.value[i] == if s <= i < e then 0 else segments[i])
      ensures IsMask(segments) && r.Ok? ==> IsMask(r.value)
      ensures r == RemoveSegmentResult(segments, s, e)
    {
      var cur := segments;
      var i := s;
      while i < e && |cur| > i
        invariant s <= i && |cur| == |segments|
        invariant s < 0 || s >= e ==> i == s
        invariant forall k :: 0 <= k < |cur| ==> cur[k] == if s <= k < i then 0 else segments[k]
        invariant s < e ==> i <= e
        invariant IsMask(segments) ==> IsMask(cur)
      {
        if i < 0 {
          return Throws(IndexOutOfBounds);
        }
        cur := cur[i := 0];
        i := i + 1;
      }
      if !(s < e && s < 0) {
        assert cur == RemoveSegmentResult(segments, s, e).value;
      }
      return Ok(cur);
    }

    method AddSegmentX(s: int, e: int) returns (r: Result<()>)
      requires Valid()
      modifies this`dataX
      ensures Valid()
      ensures r.Ok? <==> !(s < e && s < 0)
      ensures var a := AddSegmentResult(old(dataX), s, e); a.Ok? ==> dataX == a.value
      ensures r.Throws? ==> dataX == old(dataX)
    {
      var a := AddSegment(dataX, s, e);
      if a.Ok? {
        dataX := a.value;
        r := Ok(());
      } else {
        r := Throws(a.exc);
      }
    }

    method AddSegmentY(s: int, e: int) returns (r: Result<()>)
      requires Valid()
      modifies this`dataY
      ensures Valid()
      ensures r.Ok? <==> !(s < e && s < 0)
      ensures var a := AddSegmentResult(old(dataY), s, e); a.Ok? ==> dataY == a.value
      ensures r.Throws? ==> dataY == old(dataY)
    {
      var a := AddSegment(dataY, s, e);
      if a.Ok? {
        dataY := a.value;
        r := Ok(());
      } else {
        r := Throws(a.exc);
      }
    }

    method RemoveSegmentX(s: int, e: int) returns (r: Result<()>)
      requires Valid()
      modifies this`dataX
      ensures Valid()
      ensures r.Ok? <==> !(s < e && s < 0)
      ensures var a := RemoveSegmentResult(old(dataX), s, e); a.Ok? ==> dataX == a.value
      ensures r.Throws? ==> dataX == old(dataX)
    {
      var a := RemoveSegment(dataX, s, e);
      if a.Ok? {
        dataX := a.value;
        r := Ok(());
      } else {
        r := Throws(a.exc);
      }
    }

    method RemoveSegmentY(s: int, e: int) returns (r: Result<()>)
      requires Valid()
      modifies this`dataY
      ensures Valid()
      ensures r.Ok? <==> !(s < e && s < 0)
      ensures var a := RemoveSegmentResult(old(dataY), s, e); a.Ok? ==> dataY == a.value
      ensures r.Throws? ==> dataY == old(dataY)
    {
      var a := RemoveSegment(dataY, s, e);
      if a.Ok? {
        dataY := a.value;
        r := Ok(());
      } else {
        r := Throws(a.exc);
      }
    }

    /** getSegments: the divisions of dataX, whichever list it is given. */
    method GetSegments(data: seq<int>) returns (pos: seq<int>)
      ensures pos == Marks(Boundaries(dataX))
      ensures forall i, j :: 0 <= i <= j < |pos| ==> 0 <= pos[i] <= pos[j]
      ensures dataX == [] || |pos| <= |dataX| - 1
    {
      pos := [];
      var x := 1;
      while x < |dataX|
        invariant 1 <= x && (dataX == [] || x <= |dataX|)
        invariant pos == Marks(Boundaries(dataX[..if dataX == [] then 0 else x]))
      {
        var d := dataX[..x + 1];
        assert d[..|d| - 1] == dataX[..x];
        BoundariesStep(d);
        if dataX[x] != dataX[x - 1] {
          MarksSnoc(Boundaries(dataX[..x]), x);
          pos := pos + [x - |pos| % 2];
        }
        x := x + 1;
      }
      assert dataX[..if dataX == [] then 0 else x] == dataX;
      BoundariesSpec(dataX);
      MarksOrdered(Boundaries(dataX));
    }

    /** What prepareChunk gives for the current masks and padding array. */
    function PreparedChunk(): Result<seq<u8>>
      reads this
      requires padding.Some? ==> |padding.value| == 4
    {
      ChunkResult(dataX, dataY, padding)
    }

    /** prepareChunk, in int arithmetic: the region count and the capacity
        wrap to 32 bits. allocate refuses a negative capacity. The header
        puts come first, and the first padding put dereferences the padding
        array, so a null one throws NullPointerException unless the buffer
        overflowed before it. A put past the capacity throws
        BufferOverflowException; the buffer is local, so which put it is
        does not matter and the model decides it before writing. */
    method PrepareChunk() returns (r: Result<array<u8>>)
      requires Valid()
      ensures var c := ChunkResult(dataX, dataY, padding);
              && (c.Throws? ==> r == Throws(c.exc))
              && (c.Ok? ==> r.Ok? && fresh(r.value) && r.value[..] == c.value)
    {
      var segmentsX := GetSegments(dataX);
      var segmentsY := GetSegments(dataY);
      var dX, dY := |dataX|, |dataY|;
      var regions := Wrap32(Max(1, |segmentsX|) * Max(1, |segmentsY|));
      var capacity := IntCapacity(dX, dY, regions);
      assert regions == IntRegions(segmentsX);
      if capacity < 0 {
        return Throws(IllegalArgument);
      }
      if capacity < 12 {
        return Throws(BufferOverflow);
      }
      if padding == None {
        return Throws(NullPointer);
      }
      var ones := Max(0, regions);
      if capacity < 32 + 8 * |segmentsX| + 4 * ones {
        return Throws(BufferOverflow);
      }
      var chunk := WriteChunk(capacity, dX, dY, segmentsX, regions, ones, padding.value);
      ChunkResultOk(dataX, dataY, padding.value);
      r := Ok(chunk);
    }

    /** build(Bitmap): the cached drawable when the bitmap was built before.
        Otherwise whatever prepareChunk throws (NullPointerException while
        the padding array is null) is thrown before the name or the cache
        change; when it succeeds the result is a new nine-patch drawable
        over the chunk, named after srcName (set to "NinePatch@" + hash when null or
        empty) and cached. */
    method BuildBitmap(source: Bitmap, chunkHash: int) returns (r: Result<Drawable>)
      requires Valid()
      modifies this`srcName, cache
      ensures Valid()
      ensures BitmapKey(source) in old(cache.entries) ==>
                r == Ok(old(cache.entries[BitmapKey(source)]))
                && cache.entries == old(cache.entries) && srcName == old(srcName)
      ensures BitmapKey(source) !in old(cache.entries) && PreparedChunk().Throws? ==>
                r == Throws(PreparedChunk().exc) && cache.entries == old(cache.entries) && srcName == old(srcName)
      ensures BitmapKey(source) !in old(cache.entries) && PreparedChunk().Ok? ==>
                && srcName == Some(ResolvedName(old(srcName), chunkHash))
                && r == Ok(NinePatchDrawable(source, PreparedChunk().value, srcName.value))
                && cache.entries == old(cache.entries)[BitmapKey(source) := r.value]
    {
      if BitmapKey(source) in cache.entries {
        return Ok(cache.entries[BitmapKey(source)]);
      }
      var chunk := PrepareChunk();
      if chunk.Throws? {
        return Throws(chunk.exc);
      }
      if srcName.None? || srcName.value == "" {
        srcName := Some("NinePatch@" + IntToString(chunkHash));
      }
      var d := NinePatchDrawable(source, chunk.value[..], srcName.value);
      cache.entries := cache.entries[BitmapKey(source) := d];
      r := Ok(d);
    }

    /** build(Drawable, width, height). Its opening cache lookup uses the
        drawable as key; only bitmaps are ever stored (Valid), so it never
        hits and is not repeated here. A nine-patch is returned as it is; a
        bitmap drawable is built from its bitmap; a container is rebuilt
        child by child (falling back to rasterising when that throws, as
        the source's catch does); any other drawable is drawn into a new
        width x height bitmap, which createBitmap refuses for a
        non-positive size. Every bitmap built goes through build(Bitmap),
        which on a cache miss throws whatever prepareChunk throws. */
    method Build(source: Drawable, width: int, height: int, chunkHash: int)
      returns (r: Result<Drawable>)
      requires Valid()
      modifies this`srcName, cache, heap
      ensures Valid()
      ensures source.NinePatchDrawable? ==> r == Ok(source) && cache.entries == old(cache.entries)
      ensures source.BitmapDrawable? && (BitmapKey(source.source) in old(cache.entries) || PreparedChunk().Ok?) ==>
                r.Ok? && BitmapKey(source.source) in cache.entries && r.value == cache.entries[BitmapKey(source.source)]
      ensures source.BitmapDrawable? && BitmapKey(source.source) !in old(cache.entries) && PreparedChunk().Throws? ==>
                r == Throws(PreparedChunk().exc) && cache.entries == old(cache.entries)
      ensures source.OtherDrawable? && (width <= 0 || height <= 0) ==>
                r == Throws(IllegalArgument) && cache.entries == old(cache.entries)
      ensures source.OtherDrawable? && width > 0 && height > 0 ==>
                var key := BitmapKey(Bitmap(old(heap.next), width, height));
                && (key in old(cache.entries) || PreparedChunk().Ok? ==> key in cache.entries && r == Ok(cache.entries[key]))
                && (key !in old(cache.entries) && PreparedChunk().Throws? ==>
                      r == Throws(PreparedChunk().exc) && cache.entries == old(cache.entries))
      ensures source.ContainerDrawable? && r.Ok? && r.value.ContainerDrawable? ==> |r.value.children| == |source.children|
      ensures old(cache.entries).Keys <= cache.entries.Keys
      decreases source
    {
      match source {
        case NinePatchDrawable(_, _, _) =>
          return Ok(source);
        case BitmapDrawable(b) =>
          r := BuildBitmap(b, chunkHash);
        case ContainerDrawable(_, children) =>
          var built: seq<Option<Drawable>> := [];
          var failed := false;
          var i := 0;
          while i < |children| && !failed
            invariant 0 <= i <= |children| && Valid()
            invariant !failed ==> |built| == i
            invariant old(cache.entries).Keys <= cache.entries.Keys
          {
            match children[i] {
              case None =>
                failed := true;
              case Some(child) =>
                var c := Build(child, width, height, chunkHash);
                if c.Ok? {
                  built := built + [Some(c.value)];
                } else {
                  failed := true;
                }
            }
            i := i + 1;
          }
          if !failed {
            var id := heap.next;
            heap.next := heap.next + 1;
            return Ok(ContainerDrawable(id, built));
          }
          r := Rasterise(width, height, chunkHash);
        case OtherDrawable(_) =>
          r := Rasterise(width, height, chunkHash);
      }
    }

    /** Draws a drawable into a new width x height bitmap and builds that;
        createBitmap refuses a non-positive size, and build(Bitmap) throws
        on a cache miss whatever prepareChunk throws. */
    method Rasterise(width: int, height: int, chunkHash: int) returns (r: Result<Drawable>)
      requires Valid()
      modifies this`srcName, cache, heap
      ensures Valid()
      ensures width <= 0 || height <= 0 ==> r == Throws(IllegalArgument) && cache.entries == old(cache.entries)
      ensures width > 0 && height > 0 ==>
                && heap.next == old(heap.next) + 1
                && var key := BitmapKey(Bitmap(old(heap.next), width, height));
                && (key in old(cache.entries) || PreparedChunk().Ok? ==> key in cache.entries && r == Ok(cache.entries[key]))
                && (key !in old(cache.entries) && PreparedChunk().Throws? ==>
                      r == Throws(PreparedChunk().exc) && cache.entries == old(cache.entries))
      ensures old(cache.entries).Keys <= cache.entries.Keys
    {
      if width <= 0 || height <= 0 {
        return Throws(IllegalArgument);
      }
      var bmp := Bitmap(heap.next, width, height);
      heap.next := heap.next + 1;
      r := BuildBitmap(bmp, chunkHash);
    }

    /** reset: empties both masks, then zeroes the padding array, which
        throws NullPointerException while it is null, before the name is
        forgotten. With an allocated array the name is forgotten and the
        builder itself is returned. */
    method Reset() returns (r: Result<NinePatchBuilder>)
      requires Valid()
      modifies this`dataX, this`dataY, this`srcName, this`padding
      ensures Valid()
      ensures dataX == [] && dataY == []
      ensures old(padding) == None ==> r == Throws(NullPointer) && padding == None && srcName == old(srcName)
      ensures old(padding).Some? ==> r == Ok(this) && padding == Some([0, 0, 0, 0]) && srcName == None
    {
      dataX := [];
      dataY := [];
      if padding == None {
        return Throws(NullPointer);
      }
      padding := Some([0, 0, 0, 0]);
      srcName := None;
      r := Ok(this);
    }

    /** setName: returns this builder. */
    method SetName(name: Option<string>) returns (self: NinePatchBuilder)
      modifies this`srcName
      ensures self == this && srcName == name
    {
      srcName := name;
      return this;
    }
  }

  /** The padding array is never allocated, so on any new builder a build
      of a bitmap the cache does not hold throws NullPointerException. */
  method NewBuilderCannotBuild(source: Bitmap, chunkHash: int) returns (r: Result<Drawable>)
    ensures r == Throws(NullPointer)
  {
    var cache := new DrawableCache();
    var heap := new Allocator();
    var builder := new NinePatchBuilder(cache, heap);
    assert ChunkFits([], []) by {
      assert Boundaries([]) == [] && Marks([]) == [];
    }
    r := builder.BuildBitmap(source, chunkHash);
  }

  /** The mask addSegment leaves, as a value. */
  function AddSegmentResult(segments: seq<int>, s: int, e: int): Result<seq<int>>
  {
    if s >= e then Ok(segments)
    else if s < 0 then Throws(IndexOutOfBounds)
    else if s <= |segments| then
      Ok(seq(Max(|segments|, e), i requires 0 <= i < Max(|segments|, e) => if s <= i < e then 1 else segments[i]))
    else Ok(segments + Ones(e - s))
  }

  /** The mask removeSegment leaves, as a value. */
  function RemoveSegmentResult(segments: seq<int>, s: int, e: int): Result<seq<int>>
  {
    if s < e && s < 0 then Throws(IndexOutOfBounds)
    else Ok(seq(|segments|, i requires 0 <= i < |segments| => if s <= i < e then 0 else segments[i]))
  }
}
