/**
 * The packing functions of convert.c on a real buffer. Each one packs or unpacks
 * depending on the message's mode, and once something did not fit, the position
 * stays one past the end.
 */
module Convert {
  import opened Basics
  import opened Wire
  import opened Messages

  datatype Mode = Pack | Unpack

  // ---- What packing leaves behind ----

  /** From p0, `enc` was written if it fits before end; otherwise the position is end + 1. */
  ghost predicate Wrote(d0: Bytes, p0: nat, d1: Bytes, p1: nat, end: nat, enc: Bytes) {
    && |d1| == |d0| && end <= |d0|
    && (forall i :: 0 <= i < |d0| && (i < p0 || end <= i) ==> d1[i] == d0[i])
    && (if p0 + |enc| <= end then
          p1 == p0 + |enc| && d1[p0..p1] == enc && (forall i :: p1 <= i < |d0| ==> d1[i] == d0[i])
        else p1 == end + 1)
  }

  lemma WroteThen(d0: Bytes, p0: nat, d1: Bytes, p1: nat, d2: Bytes, p2: nat, end: nat, a: Bytes, b: Bytes)
    requires Wrote(d0, p0, d1, p1, end, a) && Wrote(d1, p1, d2, p2, end, b)
    ensures Wrote(d0, p0, d2, p2, end, a + b)
  {
    if p0 + |a| + |b| <= end {
      assert d2[p0..p2] == a + b by {
        assert d2[p0..p2] == d2[p0..p1] + d2[p1..p2];
        assert d2[p0..p1] == d1[p0..p1];
      }
    }
  }

  /** From p0, the bytes up to end gave g; otherwise the position is end + 1. */
  ghost predicate Took<T>(d: Bytes, p0: nat, p1: nat, end: nat, g: Got<T>, v: T) {
    && end <= |d|
    && (if p0 <= end && g.Got? then p1 == p0 + g.n && v == g.v else p1 == end + 1)
  }

  /** The bytes still to be read. */
  function Left(d: Bytes, p: nat, end: nat): Bytes
    requires end <= |d|
  {
    if p <= end then d[p..end] else []
  }

  lemma SliceSlice(d: Bytes, p: nat, end: nat, a: nat, b: nat)
    requires p <= end <= |d| && a <= b && p + b <= end
    ensures Left(d, p, end)[a..b] == d[p + a..p + b]
  {
  }

  /** The 16-bit word at position p. */
  function Word(d: Bytes, p: nat): nat
    requires p + 2 <= |d|
  {
    d[p] + 256 * (d[p + 1] as int)
  }

  lemma LeftWord(d: Bytes, p: nat, end: nat)
    requires p + 2 <= end <= |d|
    ensures |Left(d, p, end)| >= 2 && U16(Left(d, p, end)) == Word(d, p) && UnLE(Left(d, p, end)[..2]) == Word(d, p)
  {
    U16IsUnLE(Left(d, p, end));
  }

  /** The string from position p up to q, as a C program reads it. */
  function TextBetween(d: Bytes, p: nat, q: nat): Bytes {
    if p + 2 <= q <= |d| then UpToNul(d[p + 2..q]) else []
  }

  /** Unpacking a 16-bit word. */
  lemma WordTaken(d: Bytes, p0: nat, p1: nat, end: nat, len: nat)
    requires end <= |d| && Took(d, p0, p1, end, DecInt(2, Left(d, p0, end)), len)
    ensures if p0 + 2 <= end then p1 == p0 + 2 && len == Word(d, p0) else p1 == end + 1
  {
    if p0 + 2 <= end { LeftWord(d, p0, end); }
  }

  /** Unpacking a string: its length word, then its characters. */
  lemma StringTook(d: Bytes, p0: nat, p1: nat, end: nat, r: Bytes)
    requires end <= |d|
    requires if p0 + 2 <= end && p0 + 2 + Word(d, p0) <= end
      then p1 == p0 + 2 + Word(d, p0) && r == TextBetween(d, p0, p1) else p1 == end + 1
    ensures Took(d, p0, p1, end, DecText(Left(d, p0, end)), r)
  {
    if p0 + 2 <= end {
      LeftWord(d, p0, end);
      if p0 + 2 + Word(d, p0) <= end {
        SliceSlice(d, p0, end, 2, 2 + Word(d, p0));
      }
    }
  }

  lemma LE4(v: nat)
    ensures LE(v, 1) == [v % 256]
    ensures LE(v, 2) == [v % 256, v / 256 % 256]
    ensures LE(v, 4) == [v % 256, v / 256 % 256, v / 65536 % 256, v / 16777216 % 256]
  {
    assert v / 256 / 256 == v / 65536 && v / 65536 / 256 == v / 16777216;
    assert LE(v, 4) == [v % 256] + ([v / 256 % 256] + ([v / 256 / 256 % 256] + ([v / 256 / 256 / 256 % 256] + [])));
  }

  lemma UnLE4(bs: Bytes)
    ensures |bs| == 1 ==> UnLE(bs) == bs[0]
    ensures |bs| == 2 ==> UnLE(bs) == bs[0] + 256 * (bs[1] as int)
    ensures |bs| == 4 ==> UnLE(bs) == bs[0] + 256 * (bs[1] as int) + 65536 * (bs[2] as int) + 16777216 * (bs[3] as int)
  {
    if |bs| == 4 {
      assert UnLE(bs) == bs[0] + 256 * UnLE(bs[1..]);
      assert UnLE(bs[1..]) == bs[1] + 256 * UnLE(bs[1..][1..]);
      assert bs[1..][1..] == bs[2..];
      assert UnLE(bs[2..]) == bs[2] + 256 * UnLE(bs[2..][1..]);
      assert bs[2..][1..] == [bs[3]];
    }
  }

  class Msg {
    const data: array<byte>
    var pos: nat
    var end: nat
    const size: nat
    var mode: Mode

    ghost predicate Valid()
      reads this
    {
      size == data.Length && end <= size && pos <= end + 1
    }

    constructor (data: array<byte>, mode: Mode)
      ensures Valid() && this.data == data && pos == 0 && end == data.Length && this.mode == mode && size == data.Length
    {
      this.data := data;
      this.size := data.Length;
      this.mode := mode;
      pos, end := 0, data.Length;
    }

    predicate Available(n: nat)
      reads this
    {
      pos <= end && n <= end - pos
    }

    method Skip(n: nat)
      requires Valid()
      modifies this`pos
      ensures Valid() && pos == if old(Available(n)) then old(pos) + n else end + 1
    {
      if Available(n) { pos := pos + n; } else { pos := end + 1; }
    }

    /** The packing switch of ixp_puint, with its fall-through. */
    method StoreInt(n: nat, val: nat)
      requires Valid() && (n == 1 || n == 2 || n == 4) && Available(n)
      modifies data
      ensures data[pos..pos + n] == LE(val, n)
      ensures forall i :: 0 <= i < data.Length && (i < pos || pos + n <= i) ==> data[i] == old(data[i])
    {
      LE4(val);
      if n == 4 {
        data[pos + 3] := val / 16777216 % 256;
        data[pos + 2] := val / 65536 % 256;
      }
      if n >= 2 {
        data[pos + 1] := val / 256 % 256;
      }
      data[pos] := val % 256;
    }

    /** The unpacking switch of ixp_puint. */
    method LoadInt(n: nat) returns (r: nat)
      requires Valid() && (n == 1 || n == 2 || n == 4) && Available(n)
      ensures r == UnLE(data[pos..pos + n])
    {
      r := 0;
      if n == 4 {
        r := r + 16777216 * (data[pos + 3] as int);
        r := r + 65536 * (data[pos + 2] as int);
      }
      if n >= 2 {
        r := r + 256 * (data[pos + 1] as int);
      }
      r := r + data[pos];
      UnLE4(data[pos..pos + n]);
    }

    /** ixp_puint. */
    method PUint(n: nat, val: nat) returns (r: nat)
      requires Valid() && (n == 1 || n == 2 || n == 4)
      modifies this`pos, data
      ensures Valid()
      ensures mode.Pack? ==> r == val && Wrote(old(data[..]), old(pos), data[..], pos, end, LE(val, n))
      ensures mode.Unpack? ==> data[..] == old(data[..])
      ensures mode.Unpack? ==> Took(data[..], old(pos), pos, end, DecInt(n, Left(data[..], old(pos), end)), r)
    {
      r := val;
      if Available(n) {
        match mode
        case Pack =>
          StoreInt(n, val);
        case Unpack =>
          r := LoadInt(n);
          assert Left(data[..], pos, end)[..n] == data[pos..pos + n];
      }
      Skip(n);
    }

    /** ixp_pu64: the low word, then the high word. */
    method PU64(val: nat) returns (r: nat)
      requires Valid()
      modifies this`pos, data
      ensures Valid()
      ensures mode.Pack? ==> r == val && Wrote(old(data[..]), old(pos), data[..], pos, end, LE(val, 8))
      ensures mode.Unpack? ==> data[..] == old(data[..])
      ensures mode.Unpack? ==> Took(data[..], old(pos), pos, end, DecInt(8, Left(data[..], old(pos), end)), r)
    {
      var p := pos;
      LESplit(val);
      ghost var d0 := data[..];
      var vl := PUint(4, val % 4294967296);
      ghost var d1, p1 := data[..], pos;
      var vb := PUint(4, val / 4294967296);
      r := vl + 4294967296 * vb;
      if mode.Pack? {
        WroteThen(d0, p, d1, p1, data[..], pos, end, LE(val % 4294967296, 4), LE(val / 4294967296, 4));
      } else if p + 8 <= end {
        ghost var bs := Left(data[..], p, end);
        UnLESplit(bs[..8]);
        assert bs[..8][..4] == bs[..4] && bs[..8][4..] == Left(data[..], p1, end)[..4];
      }
    }

    /** ixp_pdata. */
    method PData(d: Bytes, len: nat) returns (r: Bytes)
      requires Valid() && (mode.Pack? ==> len <= |d|)
      modifies this`pos, data
      ensures Valid()
      ensures mode.Pack? ==> r == d && Wrote(old(data[..]), old(pos), data[..], pos, end, d[..len])
      ensures mode.Unpack? ==> data[..] == old(data[..])
      ensures mode.Unpack? ==> pos == (if old(Available(len)) then old(pos) + len else end + 1)
      ensures mode.Unpack? && old(Available(len)) ==> r == data[old(pos)..old(pos) + len]
    {
      r := d;
      if Available(len) {
        if mode.Unpack? {
          r := data[pos..pos + len];
        } else {
          forall i | 0 <= i < len {
            data[pos + i] := d[i];
          }
          assert data[pos..pos + len] == d[..len];
        }
      }
      Skip(len);
    }

    /** ixp_pstring. */
    method PString(s: Bytes) returns (r: Bytes)
      requires Valid()
      modifies this`pos, data
      ensures Valid()
      ensures mode.Pack? ==> r == s && Wrote(old(data[..]), old(pos), data[..], pos, end, EncText(s))
      ensures mode.Unpack? ==> data[..] == old(data[..])
      ensures mode.Unpack? ==> Took(data[..], old(pos), pos, end, DecText(Left(data[..], old(pos), end)), r)
    {
      r := s;
      var len := 0;
      if mode.Pack? {
        len := Len16(s);
      }
      ghost var d0, p0 := data[..], pos;
      len := PUint(2, len);
      ghost var d1, p1 := data[..], pos;
      if mode.Pack? {
        StringParts(d0, p0, d1, p1, end, s);
      } else {
        WordTaken(d0, p0, p1, end, len);
      }
      if pos > end {
        if mode.Unpack? { StringTook(d0, p0, pos, end, r); }
        return;
      }
      var t := PData(s, len);
      if mode.Pack? {
        WroteThen(d0, p0, d1, p1, data[..], pos, end, LE(Len16(s), 2), s[..Len16(s)]);
      } else {
        r := UpToNul(t);
        StringTook(d0, p0, pos, end, r);
      }
    }
  }

  /** Packing: a length that did not fit settles the whole string. */
  lemma StringParts(d0: Bytes, p0: nat, d1: Bytes, p1: nat, end: nat, s: Bytes)
    requires Wrote(d0, p0, d1, p1, end, LE(Len16(s), 2))
    ensures p1 > end ==> Wrote(d0, p0, d1, p1, end, EncText(s))
  {
    if p1 > end { TooLong(d0, p0, d1, p1, end, LE(Len16(s), 2), s[..Len16(s)]); }
  }

  /** Once the first part did not fit, the whole does not. */
  lemma TooLong(d0: Bytes, p0: nat, d1: Bytes, p1: nat, end: nat, a: Bytes, b: Bytes)
    requires Wrote(d0, p0, d1, p1, end, a) && p1 > end
    ensures Wrote(d0, p0, d1, p1, end, a + b)
  {
  }

  /** v without its n low bytes. */
  function High(v: nat, n: nat): nat {
    if n == 0 then v else High(v / 256, n - 1)
  }

  lemma {:induction false} LEAppend(v: nat, n: nat, m: nat)
    ensures LE(v, n + m) == LE(v, n) + LE(High(v, n), m)
  {
    if n > 0 {
      LEAppend(v / 256, n - 1, m);
      assert LE(v, n + m) == [v % 256] + LE(v / 256, n - 1 + m);
    }
  }

  lemma CutWord(v: nat)
    ensures v % 4294967296 % 256 == v % 256 && v % 4294967296 / 256 == v / 256 % 16777216
  {
  }

  lemma CutThree(v: nat)
    ensures v % 16777216 % 256 == v % 256 && v % 16777216 / 256 == v / 256 % 65536
  {
  }

  lemma CutTwo(v: nat)
    ensures v % 65536 % 256 == v % 256 && v % 65536 / 256 == v / 256 % 256
  {
  }

  /** Only the low 32 bits matter to four bytes. */
  lemma LowWord(v: nat)
    ensures LE(v % 4294967296, 4) == LE(v, 4)
  {
    CutWord(v);
    CutThree(v / 256);
    CutTwo(v / 256 / 256);
    assert LE(v / 256 % 16777216, 3) == [v / 256 % 256] + LE(v / 256 / 256 % 65536, 2);
    assert LE(v / 256 / 256 % 65536, 2) == [v / 256 / 256 % 256] + LE(v / 256 / 256 / 256 % 256, 1);
    assert LE(v / 256, 3) == [v / 256 % 256] + LE(v / 256 / 256, 2);
    assert LE(v / 256 / 256, 2) == [v / 256 / 256 % 256] + LE(v / 256 / 256 / 256, 1);
    LE4(v / 256 / 256 / 256 % 256);
    LE4(v / 256 / 256 / 256);
  }

  lemma LESplit(v: nat)
    ensures LE(v, 8) == LE(v % 4294967296, 4) + LE(v / 4294967296, 4)
  {
    LEAppend(v, 4, 4);
    assert High(v, 4) == High(v / 256, 3) == High(v / 256 / 256, 2) == High(v / 256 / 256 / 256, 1);
    assert v / 256 / 256 / 256 / 256 == v / 4294967296;
    LowWord(v);
  }

  lemma {:induction false} UnLEAppend(a: Bytes, b: Bytes)
    ensures UnLE(a + b) == UnLE(a) + Pow256(|a|) * UnLE(b)
  {
    if a == [] {
      assert a + b == b;
    } else {
      assert (a + b)[1..] == a[1..] + b;
      UnLEAppend(a[1..], b);
      MulAssoc(256, Pow256(|a| - 1), UnLE(b));
    }
  }

  lemma MulAssoc(a: int, b: int, c: int)
    ensures a * (b * c) == (a * b) * c
  {
  }

  lemma UnLESplit(bs: Bytes)
    requires |bs| == 8
    ensures UnLE(bs) == UnLE(bs[..4]) + 4294967296 * UnLE(bs[4..])
  {
    assert bs == bs[..4] + bs[4..];
    assert Pow256(4) == 256 * (256 * (256 * (256 * 1)));
    UnLEAppend(bs[..4], bs[4..]);
  }
}
