/** The array packers of convert.c: qids, and strings with their two-pass decoder. */
module ConvertArrays {
  import opened Basics
  import opened Wire
  import opened Messages
  import opened Convert

  /** ixp_pqid. */
  method PQid(msg: Msg, q: Qid) returns (r: Qid)
    requires msg.Valid()
    modifies msg`pos, msg.data
    ensures msg.Valid()
    ensures msg.mode.Pack? ==> r == q && Wrote(old(msg.data[..]), old(msg.pos), msg.data[..], msg.pos, msg.end, EncQid(q))
    ensures msg.mode.Unpack? ==> msg.data[..] == old(msg.data[..])
    ensures msg.mode.Unpack? ==> Took(msg.data[..], old(msg.pos), msg.pos, msg.end, OneQid(Left(msg.data[..], old(msg.pos), msg.end)), r)
  {
    ghost var d0, p0 := msg.data[..], msg.pos;
    var t := msg.PUint(1, q.typ);
    ghost var d1, p1 := msg.data[..], msg.pos;
    var v := msg.PUint(4, q.version);
    ghost var d2, p2 := msg.data[..], msg.pos;
    var p := msg.PU64(q.path);
    r := Qid(t, v, p);
    if msg.mode.Pack? {
      WroteThen(d0, p0, d1, p1, d2, p2, msg.end, LE(q.typ, 1), LE(q.version, 4));
      WroteThen(d0, p0, d2, p2, msg.data[..], msg.pos, msg.end, LE(q.typ, 1) + LE(q.version, 4), LE(q.path, 8));
    } else if p0 + 13 <= msg.end {
      QidSlices(d0, p0, msg.end);
    }
  }

  function OneQid(bs: Bytes): Got<Qid> {
    if |bs| < 13 then Short else Got(DecQid(bs), 13)
  }

  lemma QidSlices(d: Bytes, p: nat, end: nat)
    requires end <= |d| && p + 13 <= end
    ensures var bs := Left(d, p, end);
      && bs[..1] == Left(d, p, end)[..1]
      && bs[1..5] == Left(d, p + 1, end)[..4] && bs[5..13] == Left(d, p + 5, end)[..8]
  {
  }

  /** What the whole gives, when the part already read gave acc over used bytes. */
  function Then<T>(acc: seq<T>, used: nat, g: Got<seq<T>>): Got<seq<T>> {
    match g
    case Short => Short
    case Got(v, n) => Got(acc + v, used + n)
  }

  lemma {:induction false} EncQidsSnoc(qs: seq<Qid>, q: Qid)
    ensures EncQids(qs + [q]) == EncQids(qs) + EncQid(q)
  {
    if qs == [] {
      assert qs + [q] == [q];
      assert [q][1..] == [];
    } else {
      assert (qs + [q])[1..] == qs[1..] + [q];
      EncQidsSnoc(qs[1..], q);
    }
  }

  /** ixp_pqids. */
  method PQids(msg: Msg, qs: seq<Qid>, max: nat) returns (r: seq<Qid>)
    requires msg.Valid()
    modifies msg`pos, msg.data
    ensures msg.Valid()
    ensures msg.mode.Pack? ==> r == qs
    ensures msg.mode.Pack? && |qs| <= max ==>
      Wrote(old(msg.data[..]), old(msg.pos), msg.data[..], msg.pos, msg.end, LE(|qs|, 2) + EncQids(qs))
    ensures msg.mode.Pack? && |qs| > max ==> msg.pos == msg.end + 1
    ensures msg.mode.Unpack? ==> msg.data[..] == old(msg.data[..])
    ensures msg.mode.Unpack? ==>
      Took(msg.data[..], old(msg.pos), msg.pos, msg.end, Dec(Qids(max), Left(msg.data[..], old(msg.pos), msg.end)), QidsV(r))
  {
    r := qs;
    ghost var d0, p0 := msg.data[..], msg.pos;
    if msg.pos + 2 <= msg.end { LeftWord(d0, p0, msg.end); }
    var num := msg.PUint(2, |qs|);
    if msg.pos > msg.end {
      if msg.mode.Pack? && |qs| <= max { TooLong(d0, p0, msg.data[..], msg.pos, msg.end, LE(|qs|, 2), EncQids(qs)); }
      return;
    }
    if num > max {
      msg.pos := msg.end + 1;
      return;
    }
    if msg.mode.Pack? {
      PackQids(msg, qs, d0, p0);
    } else {
      assert Left(d0, p0, msg.end)[2..] == Left(d0, msg.pos, msg.end);
      r := UnpackQids(msg, num);
    }
  }

  method PackQids(msg: Msg, qs: seq<Qid>, ghost d0: Bytes, ghost p0: nat)
    requires msg.Valid() && msg.mode.Pack? && Wrote(d0, p0, msg.data[..], msg.pos, msg.end, LE(|qs|, 2))
    modifies msg`pos, msg.data
    ensures msg.Valid() && Wrote(d0, p0, msg.data[..], msg.pos, msg.end, LE(|qs|, 2) + EncQids(qs))
  {
    assert LE(|qs|, 2) + EncQids(qs[..0]) == LE(|qs|, 2);
    for i := 0 to |qs|
      invariant msg.Valid() && Wrote(d0, p0, msg.data[..], msg.pos, msg.end, LE(|qs|, 2) + EncQids(qs[..i]))
    {
      ghost var d1, p1 := msg.data[..], msg.pos;
      var q := PQid(msg, qs[i]);
      WroteThen(d0, p0, d1, p1, msg.data[..], msg.pos, msg.end, LE(|qs|, 2) + EncQids(qs[..i]), EncQid(qs[i]));
      assert qs[..i + 1] == qs[..i] + [qs[i]];
      EncQidsSnoc(qs[..i], qs[i]);
      assert LE(|qs|, 2) + EncQids(qs[..i]) + EncQid(qs[i]) == LE(|qs|, 2) + EncQids(qs[..i + 1]);
    }
    assert qs[..|qs|] == qs;
  }

  lemma LeftAfter(d: Bytes, p: nat, end: nat, n: nat)
    requires end <= |d| && p + n <= end
    ensures Left(d, p, end)[n..] == Left(d, p + n, end) && Left(d, p, end)[..n] == d[p..p + n]
  {
  }

  /** With acc read between p0 and p, and k qids to go. */
  ghost predicate QidsSoFar(total: Got<seq<Qid>>, acc: seq<Qid>, d: Bytes, p0: nat, p: nat, end: nat, k: nat) {
    && end <= |d|
    && if p > end then total.Short? else p0 <= p && total == Then(acc, p - p0, DecQids(k, Left(d, p, end)))
  }

  lemma QidsTurn(total: Got<seq<Qid>>, acc: seq<Qid>, d: Bytes, p0: nat, p: nat, p': nat, end: nat, k: nat, q: Qid)
    requires k > 0 && QidsSoFar(total, acc, d, p0, p, end, k) && Took(d, p, p', end, OneQid(Left(d, p, end)), q)
    ensures QidsSoFar(total, acc + [q], d, p0, p', end, k - 1)
  {
    if p + 13 <= end {
      LeftAfter(d, p, end, 13);
      var t := DecQids(k - 1, Left(d, p', end));
      if t.Got? { assert acc + ([q] + t.v) == (acc + [q]) + t.v; }
    }
  }

  method UnpackQids(msg: Msg, num: nat) returns (r: seq<Qid>)
    requires msg.Valid() && msg.mode.Unpack? && msg.pos <= msg.end
    modifies msg`pos, msg.data
    ensures msg.Valid() && msg.data[..] == old(msg.data[..])
    ensures Took(msg.data[..], old(msg.pos), msg.pos, msg.end, DecQids(num, Left(msg.data[..], old(msg.pos), msg.end)), r)
  {
    ghost var d, p0, end := msg.data[..], msg.pos, msg.end;
    ghost var total := DecQids(num, Left(d, p0, end));
    r := [];
    assert total.Got? ==> r + total.v == total.v;
    for i := 0 to num
      invariant msg.Valid() && msg.data[..] == d && (msg.pos <= end || msg.pos == end + 1)
      invariant QidsSoFar(total, r, d, p0, msg.pos, end, num - i)
    {
      ghost var p := msg.pos;
      var q := PQid(msg, Qid(0, 0, 0));
      QidsTurn(total, r, d, p0, p, msg.pos, end, num - i, q);
      r := r + [q];
    }
    assert r + [] == r;
  }

  // ---- Strings ----

  lemma {:induction false} EncTextsSnoc(ss: seq<Bytes>, s: Bytes)
    ensures EncTexts(ss + [s]) == EncTexts(ss) + EncText(s)
  {
    if ss == [] {
      assert ss + [s] == [s];
      assert [s][1..] == [];
    } else {
      assert (ss + [s])[1..] == ss[1..] + [s];
      EncTextsSnoc(ss[1..], s);
    }
  }

  /** Where the string at p ends, or end + 1 when it does not fit. */
  function Hop(d: Bytes, p: nat, end: nat): (q: nat)
    requires end <= |d|
    ensures q <= end ==> p + 2 <= q
  {
    if p + 2 <= end && p + 2 + Word(d, p) <= end then p + 2 + Word(d, p) else end + 1
  }

  /** The position after k strings from p on. */
  function Pos(d: Bytes, p: nat, end: nat, k: nat): (q: nat)
    requires end <= |d|
    ensures q <= end ==> p + 2 * k <= q
  {
    if k == 0 then p else Hop(d, Pos(d, p, end, k - 1), end)
  }

  /** The first k strings from p on. */
  function TextsFrom(d: Bytes, p: nat, end: nat, k: nat): (r: seq<Bytes>)
    requires end <= |d|
    ensures |r| == k
  {
    if k == 0 then [] else
    TextsFrom(d, p, end, k - 1) + [TextBetween(d, Pos(d, p, end, k - 1), Pos(d, p, end, k))]
  }

  lemma {:induction false} PosGrow(d: Bytes, p: nat, end: nat, i: nat, k: nat)
    requires end <= |d| && i <= k && Pos(d, p, end, k) <= end
    ensures Pos(d, p, end, i) + 2 * (k - i) <= Pos(d, p, end, k)
    decreases k - i
  {
    if i < k {
      PosGrow(d, p, end, i, k - 1);
    }
  }

  lemma {:induction false} PosStuck(d: Bytes, p: nat, end: nat, i: nat, k: nat)
    requires end <= |d| && i <= k && Pos(d, p, end, i) > end
    ensures Pos(d, p, end, k) > end
    decreases k
  {
    if i < k {
      PosStuck(d, p, end, i, k - 1);
    }
  }

  /** Counting from the second string on. */
  lemma {:induction false} FromSecond(d: Bytes, p: nat, end: nat, k: nat)
    requires end <= |d|
    ensures Pos(d, p, end, k + 1) == Pos(d, Hop(d, p, end), end, k)
    ensures TextsFrom(d, p, end, k + 1) == [TextBetween(d, p, Hop(d, p, end))] + TextsFrom(d, Hop(d, p, end), end, k)
  {
    assert Pos(d, p, end, 0) == p;
    if k > 0 {
      FromSecond(d, p, end, k - 1);
    }
  }

  /** One string decoded. */
  lemma TextHere(d: Bytes, p: nat, end: nat)
    requires p <= end <= |d|
    ensures var q := Hop(d, p, end);
      && DecText(Left(d, p, end)) == (if q <= end then Got(TextBetween(d, p, q), q - p) else Short)
      && (q <= end ==> Left(d, p, end)[q - p..] == Left(d, q, end))
  {
    if p + 2 <= end {
      LeftWord(d, p, end);
      var len := Word(d, p);
      if p + 2 + len <= end {
        SliceSlice(d, p, end, 2, 2 + len);
        LeftAfter(d, p, end, 2 + len);
      }
    }
  }

  /** What hopping over num strings from p on should decode to. */
  function Hopped(d: Bytes, p: nat, end: nat, num: nat): Got<seq<Bytes>>
    requires end <= |d|
  {
    var q := Pos(d, p, end, num);
    if p <= q <= end then Got(TextsFrom(d, p, end, num), q - p) else Short
  }

  /** A decoded string of n bytes in front of what follows it. */
  function Cons(s: Bytes, n: nat, g: Got<seq<Bytes>>): Got<seq<Bytes>> {
    match g
    case Short => Short
    case Got(ss, m) => Got([s] + ss, n + m)
  }

  lemma HopsCons(d: Bytes, p: nat, end: nat, num: nat)
    requires p <= end <= |d| && num > 0
    ensures var h := Hop(d, p, end);
      Hopped(d, p, end, num) == if h > end then Short else Cons(TextBetween(d, p, h), h - p, Hopped(d, h, end, num - 1))
  {
    FromSecond(d, p, end, num - 1);
    if Hop(d, p, end) > end {
      PosStuck(d, p, end, 1, num);
    }
  }

  lemma TextsCons(num: nat, bs: Bytes)
    requires num > 0
    ensures DecText(bs).Short? ==> DecTexts(num, bs) == Short
    ensures DecText(bs).Got? ==> DecTexts(num, bs) == Cons(DecText(bs).v, DecText(bs).n, DecTexts(num - 1, bs[DecText(bs).n..]))
  {
  }

  lemma TextsConsHere(d: Bytes, p: nat, end: nat, num: nat)
    requires p <= end <= |d| && num > 0
    ensures var h := Hop(d, p, end);
      DecTexts(num, Left(d, p, end)) ==
        if h > end then Short else Cons(TextBetween(d, p, h), h - p, DecTexts(num - 1, Left(d, h, end)))
  {
    TextHere(d, p, end);
    TextsCons(num, Left(d, p, end));
  }

  lemma NoHops(d: Bytes, p: nat, end: nat)
    requires p <= end <= |d|
    ensures DecTexts(0, Left(d, p, end)) == Hopped(d, p, end, 0)
  {
    assert TextsFrom(d, p, end, 0) == [];
  }

  lemma OneHop(d: Bytes, p: nat, end: nat, num: nat)
    requires p <= end <= |d| && num > 0
    requires Hop(d, p, end) <= end ==>
      DecTexts(num - 1, Left(d, Hop(d, p, end), end)) == Hopped(d, Hop(d, p, end), end, num - 1)
    ensures DecTexts(num, Left(d, p, end)) == Hopped(d, p, end, num)
  {
    HopsCons(d, p, end, num);
    TextsConsHere(d, p, end, num);
  }

  /** Hopping along gives what decoding gives. */
  lemma {:induction false} HopsDecode(d: Bytes, p: nat, end: nat, num: nat)
    requires p <= end <= |d|
    ensures DecTexts(num, Left(d, p, end)) == Hopped(d, p, end, num)
    decreases num
  {
    if num == 0 {
      NoHops(d, p, end);
    } else {
      if Hop(d, p, end) <= end {
        HopsDecode(d, Hop(d, p, end), end, num - 1);
      }
      OneHop(d, p, end, num);
    }
  }

  /** ixp_pstrings. */
  method PStrings(msg: Msg, ss: seq<Bytes>, max: nat) returns (r: seq<Bytes>)
    requires msg.Valid()
    modifies msg`pos, msg.data
    ensures msg.Valid()
    ensures msg.mode.Pack? ==> r == ss
    ensures msg.mode.Pack? && |ss| <= max ==>
      Wrote(old(msg.data[..]), old(msg.pos), msg.data[..], msg.pos, msg.end, LE(|ss|, 2) + EncTexts(ss))
    ensures msg.mode.Pack? && |ss| > max ==> msg.pos == msg.end + 1
    ensures msg.mode.Unpack? ==> msg.data[..] == old(msg.data[..])
    ensures msg.mode.Unpack? ==>
      Took(msg.data[..], old(msg.pos), msg.pos, msg.end, Dec(Texts(max), Left(msg.data[..], old(msg.pos), msg.end)), TextsV(r))
  {
    r := ss;
    ghost var d0, p0 := msg.data[..], msg.pos;
    if msg.pos + 2 <= msg.end { LeftWord(d0, p0, msg.end); }
    var num := msg.PUint(2, |ss|);
    if msg.pos > msg.end {
      if msg.mode.Pack? && |ss| <= max { TooLong(d0, p0, msg.data[..], msg.pos, msg.end, LE(|ss|, 2), EncTexts(ss)); }
      return;
    }
    if num > max {
      msg.pos := msg.end + 1;
      return;
    }
    if msg.mode.Pack? {
      PackTexts(msg, ss, d0, p0);
    } else {
      assert Left(d0, p0, msg.end)[2..] == Left(d0, msg.pos, msg.end);
      var start := msg.pos;
      HopsDecode(d0, start, msg.end, num);
      var ok, size := MeasureTexts(msg, num);
      if ok {
        msg.pos := start;
        var buf := new byte[size + num];
        r := CopyTexts(msg, num, buf);
      }
    }
  }

  method PackTexts(msg: Msg, ss: seq<Bytes>, ghost d0: Bytes, ghost p0: nat)
    requires msg.Valid() && msg.mode.Pack? && Wrote(d0, p0, msg.data[..], msg.pos, msg.end, LE(|ss|, 2))
    modifies msg`pos, msg.data
    ensures msg.Valid() && Wrote(d0, p0, msg.data[..], msg.pos, msg.end, LE(|ss|, 2) + EncTexts(ss))
  {
    assert LE(|ss|, 2) + EncTexts(ss[..0]) == LE(|ss|, 2);
    for i := 0 to |ss|
      invariant msg.Valid() && Wrote(d0, p0, msg.data[..], msg.pos, msg.end, LE(|ss|, 2) + EncTexts(ss[..i]))
    {
      ghost var d1, p1 := msg.data[..], msg.pos;
      PackText(msg, ss[i]);
      WroteThen(d0, p0, d1, p1, msg.data[..], msg.pos, msg.end, LE(|ss|, 2) + EncTexts(ss[..i]), EncText(ss[i]));
      assert ss[..i + 1] == ss[..i] + [ss[i]];
      EncTextsSnoc(ss[..i], ss[i]);
      assert LE(|ss|, 2) + EncTexts(ss[..i]) + EncText(ss[i]) == LE(|ss|, 2) + EncTexts(ss[..i + 1]);
    }
    assert ss[..|ss|] == ss;
  }

  /** One turn of the packing loop: the length, then the characters. */
  method PackText(msg: Msg, s: Bytes)
    requires msg.Valid() && msg.mode.Pack?
    modifies msg`pos, msg.data
    ensures msg.Valid() && Wrote(old(msg.data[..]), old(msg.pos), msg.data[..], msg.pos, msg.end, EncText(s))
  {
    ghost var d0, p0 := msg.data[..], msg.pos;
    var len := msg.PUint(2, Len16(s));
    ghost var d1, p1 := msg.data[..], msg.pos;
    var t := msg.PData(s, len);
    WroteThen(d0, p0, d1, p1, msg.data[..], msg.pos, msg.end, LE(Len16(s), 2), s[..Len16(s)]);
  }

  /** A string's length, from a message whose bytes are d. */
  method TakeLen(msg: Msg, ghost d: Bytes) returns (len: nat)
    requires msg.Valid() && msg.mode.Unpack? && msg.pos <= msg.end && msg.data[..] == d
    modifies msg`pos, msg.data
    ensures msg.Valid() && msg.data[..] == d
    ensures old(msg.pos) + 2 <= msg.end ==> msg.pos == old(msg.pos) + 2 && len == Word(d, old(msg.pos))
    ensures old(msg.pos) + 2 > msg.end ==> msg.pos == msg.end + 1
  {
    len := msg.PUint(2, 0);
    WordTaken(d, old(msg.pos), msg.pos, msg.end, len);
  }

  /** The first pass: do all strings lie before the end, and how long are they together? */
  method MeasureTexts(msg: Msg, num: nat) returns (ok: bool, size: nat)
    requires msg.Valid() && msg.mode.Unpack? && msg.pos <= msg.end
    modifies msg`pos, msg.data
    ensures msg.Valid() && msg.data[..] == old(msg.data[..])
    ensures msg.pos == Pos(msg.data[..], old(msg.pos), msg.end, num) && (ok <==> msg.pos <= msg.end)
    ensures ok ==> old(msg.pos) + size + 2 * num == msg.pos
  {
    ghost var d, p0 := msg.data[..], msg.pos;
    size := 0;
    for i := 0 to num
      invariant msg.Valid() && msg.data[..] == d && msg.pos <= msg.end
      invariant msg.pos == Pos(d, p0, msg.end, i) && p0 + size + 2 * i == msg.pos
    {
      var len := TakeLen(msg, d);
      msg.Skip(len);
      size := size + len;
      assert msg.pos == Pos(d, p0, msg.end, i + 1);
      if msg.pos > msg.end {
        PosStuck(d, p0, msg.end, i + 1, num);
        assert Pos(d, p0, msg.end, num) == msg.end + 1;
        return false, size;
      }
    }
    ok := true;
  }

  /** The second pass at string i: at position p of the message, with s bytes of the buffer used and r collected. */
  ghost predicate CopySoFar(d: Bytes, p0: nat, end: nat, i: nat, num: nat, size: nat, p: nat, s: nat, r: seq<Bytes>) {
    && end <= |d| && i <= num && Pos(d, p0, end, num) <= end && p0 + size + num == Pos(d, p0, end, num)
    && p == Pos(d, p0, end, i) && p0 + s + i == p && r == TextsFrom(d, p0, end, i)
  }

  /** The next string lies before the end, and there is room for it and a NUL. */
  lemma CopyRoom(d: Bytes, p0: nat, end: nat, i: nat, num: nat, size: nat, p: nat, s: nat, r: seq<Bytes>)
    requires CopySoFar(d, p0, end, i, num, size, p, s, r) && i < num
    ensures p + 2 <= end && p + 2 + Word(d, p) <= end && s + Word(d, p) < size
    ensures CopySoFar(d, p0, end, i + 1, num, size, p + 2 + Word(d, p), s + Word(d, p) + 1,
                      r + [TextBetween(d, p, p + 2 + Word(d, p))])
  {
    PosGrow(d, p0, end, i, num);
    PosGrow(d, p0, end, i + 1, num);
    assert Pos(d, p0, end, i + 1) == Hop(d, Pos(d, p0, end, i), end);
  }

  /**
   * The second pass: no more bounds checks on the message, and every string goes
   * into one buffer, each followed by a NUL. That it never reads
   * past the end nor writes past the buffer is what the first pass established.
   */
  method CopyTexts(msg: Msg, num: nat, buf: array<byte>) returns (r: seq<Bytes>)
    requires msg.Valid() && msg.mode.Unpack? && msg.pos <= msg.end && buf != msg.data
    requires Pos(msg.data[..], msg.pos, msg.end, num) <= msg.end
    requires msg.pos + buf.Length + num == Pos(msg.data[..], msg.pos, msg.end, num)
    modifies msg`pos, msg.data, buf
    ensures msg.Valid() && msg.data[..] == old(msg.data[..])
    ensures msg.pos == Pos(msg.data[..], old(msg.pos), msg.end, num)
    ensures r == TextsFrom(msg.data[..], old(msg.pos), msg.end, num)
  {
    ghost var d, p0, end := msg.data[..], msg.pos, msg.end;
    var s: nat := 0;
    r := [];
    for i := 0 to num
      invariant msg.Valid() && msg.data[..] == d && msg.pos <= end
      invariant CopySoFar(d, p0, end, i, num, buf.Length, msg.pos, s, r)
    {
      CopyRoom(d, p0, end, i, num, buf.Length, msg.pos, s, r);
      var str;
      str, s := CopyNext(msg, buf, s, d);
      r := r + [str];
    }
  }

  /** The next string, to buf[s..]. */
  method CopyNext(msg: Msg, buf: array<byte>, s: nat, ghost d: Bytes) returns (str: Bytes, s': nat)
    requires msg.Valid() && msg.mode.Unpack? && msg.data[..] == d && buf != msg.data
    requires msg.pos + 2 <= msg.end && msg.pos + 2 + Word(d, msg.pos) <= msg.end && s + Word(d, msg.pos) < buf.Length
    modifies msg`pos, msg.data, buf
    ensures msg.Valid() && msg.data[..] == d
    ensures msg.pos == old(msg.pos) + 2 + Word(d, old(msg.pos)) && s' == s + Word(d, old(msg.pos)) + 1
    ensures str == TextBetween(d, old(msg.pos), msg.pos)
  {
    var len := TakeLen(msg, d);
    str := CopyOne(msg, buf, s, len);
    s' := s + len + 1;
  }

  /** memcpy one string and terminate it; what a C program then reads there. */
  method CopyOne(msg: Msg, buf: array<byte>, s: nat, len: nat) returns (str: Bytes)
    requires msg.Valid() && msg.pos + len <= msg.end && s + len < buf.Length && buf != msg.data
    modifies msg`pos, buf
    ensures msg.Valid() && msg.pos == old(msg.pos) + len && msg.data[..] == old(msg.data[..])
    ensures str == UpToNul(msg.data[..][old(msg.pos)..msg.pos])
  {
    forall k | 0 <= k < len {
      buf[s + k] := msg.data[msg.pos + k];
    }
    buf[s + len] := 0;
    assert buf[s..s + len] == msg.data[..][msg.pos..msg.pos + len];
    str := UpToNul(buf[s..s + len]);
    msg.pos := msg.pos + len;
  }
}
