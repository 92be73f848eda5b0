/**
 * The 9P2000 wire format as values: what packing a message produces and what
 * unpacking reads back. A message body is a sequence of fields whose kinds are
 * fixed by the message type.
 */
module Wire {
  import opened Basics

  type byte = x: int | 0 <= x < 256
  type Bytes = seq<byte>

  // ---- Little-endian integers ----

  function Pow256(n: nat): (p: nat)
    ensures p > 0
  {
    if n == 0 then 1 else 256 * Pow256(n - 1)
  }

  function LE(v: nat, n: nat): (r: Bytes)
    ensures |r| == n
  {
    if n == 0 then [] else [v % 256] + LE(v / 256, n - 1)
  }

  function UnLE(bs: Bytes): (v: nat)
    ensures v < Pow256(|bs|)
  {
    if bs == [] then 0 else bs[0] + 256 * UnLE(bs[1..])
  }

  lemma {:induction false} UnLERound(v: nat, n: nat)
    requires v < Pow256(n)
    ensures UnLE(LE(v, n)) == v
  {
    if n > 0 {
      UnLERound(v / 256, n - 1);
      assert LE(v, n)[1..] == LE(v / 256, n - 1);
    }
  }

  /** A 16-bit count or length at the front of bs. */
  function U16(bs: Bytes): (v: nat)
    requires |bs| >= 2
    ensures v < 65536
  {
    bs[0] + 256 * (bs[1] as int)
  }

  lemma U16IsUnLE(bs: Bytes)
    requires |bs| >= 2
    ensures UnLE(bs[..2]) == U16(bs)
  {
    assert bs[..2] == [bs[0]] + [bs[1]];
    assert UnLE(bs[..2]) == bs[0] + 256 * UnLE(bs[..2][1..]);
    assert bs[..2][1..] == [bs[1]];
  }

  lemma U16Round(x: nat, rest: Bytes)
    requires x < 65536
    ensures U16(LE(x, 2) + rest) == x
  {
    assert LE(x, 2) == [x % 256] + ([x / 256 % 256] + LE(x / 256 / 256, 0));
  }

  // ---- Fields ----

  datatype Qid = Qid(typ: nat, version: nat, path: nat)

  datatype Kind =
    | Int(n: nat)        // an n-byte unsigned integer
    | Text               // a 16-bit length and a string
    | Texts(max: nat)    // a 16-bit count and that many strings
    | Qids(max: nat)     // a 16-bit count and that many qids
    | Blob(n: nat)       // an n-byte count and raw data

  datatype Val =
    | IntV(v: nat)
    | TextV(s: Bytes)
    | TextsV(ss: seq<Bytes>)
    | QidsV(qs: seq<Qid>)
    | BlobV(d: Bytes)

  /** A string's length as it is stored: strlen in a uint16_t. */
  function Len16(s: Bytes): nat {
    |s| % 65536
  }

  function EncText(s: Bytes): Bytes {
    LE(Len16(s), 2) + s[..Len16(s)]
  }

  function EncTexts(ss: seq<Bytes>): Bytes {
    if ss == [] then [] else EncText(ss[0]) + EncTexts(ss[1..])
  }

  function EncQid(q: Qid): (r: Bytes)
    ensures |r| == 13
  {
    LE(q.typ, 1) + LE(q.version, 4) + LE(q.path, 8)
  }

  function EncQids(qs: seq<Qid>): (r: Bytes)
    ensures |r| == 13 * |qs|
  {
    if qs == [] then [] else EncQid(qs[0]) + EncQids(qs[1..])
  }

  /** The value is one the field can carry. */
  ghost predicate Fits(k: Kind, v: Val) {
    match k
    case Int(n) => v.IntV? && v.v < Pow256(n)
    case Text => v.TextV? && FitsText(v.s)
    case Texts(max) => v.TextsV? && |v.ss| <= max < 65536 && forall i :: 0 <= i < |v.ss| ==> FitsText(v.ss[i])
    case Qids(max) => v.QidsV? && |v.qs| <= max < 65536 && forall i :: 0 <= i < |v.qs| ==> FitsQid(v.qs[i])
    case Blob(n) => v.BlobV? && |v.d| < Pow256(n)
  }

  /** A C string that a 16-bit length can count. */
  ghost predicate FitsText(s: Bytes) {
    |s| < 65536 && forall i :: 0 <= i < |s| ==> s[i] != 0
  }

  ghost predicate FitsQid(q: Qid) {
    q.typ < Pow256(1) && q.version < Pow256(4) && q.path < Pow256(8)
  }

  function Enc(k: Kind, v: Val): Bytes {
    match v
    case IntV(x) => LE(x, if k.Int? then k.n else 0)
    case TextV(s) => EncText(s)
    case TextsV(ss) => LE(|ss|, 2) + EncTexts(ss)
    case QidsV(qs) => LE(|qs|, 2) + EncQids(qs)
    case BlobV(d) => LE(|d|, if k.Blob? then k.n else 0) + d
  }

  function EncAll(ks: seq<Kind>, vs: seq<Val>): Bytes
    requires |ks| == |vs|
  {
    if ks == [] then [] else Enc(ks[0], vs[0]) + EncAll(ks[1..], vs[1..])
  }

  // ---- Reading back ----

  /** A value and how many bytes it took, or the bytes ran out (or a count was too large). */
  datatype Got<+T> = Short | Got(v: T, n: nat)

  /** The C string in a received byte string: everything before the first NUL. */
  function UpToNul(s: Bytes): (r: Bytes)
    ensures |r| <= |s| && (forall i :: 0 <= i < |r| ==> r[i] != 0)
    ensures (forall i :: 0 <= i < |s| ==> s[i] != 0) ==> r == s
  {
    if s == [] || s[0] == 0 then [] else [s[0]] + UpToNul(s[1..])
  }

  function DecInt(n: nat, bs: Bytes): (r: Got<nat>)
    ensures r.Got? ==> r.n == n <= |bs|
  {
    if |bs| < n then Short else Got(UnLE(bs[..n]), n)
  }

  function DecText(bs: Bytes): (r: Got<Bytes>)
    ensures r.Got? ==> 2 <= r.n <= |bs|
  {
    if |bs| < 2 then Short
    else
      var len := U16(bs);
      if |bs| < 2 + len then Short else Got(UpToNul(bs[2..2 + len]), 2 + len)
  }

  function DecTexts(num: nat, bs: Bytes): (r: Got<seq<Bytes>>)
    ensures r.Got? ==> r.n <= |bs| && |r.v| == num
    decreases num
  {
    if num == 0 then Got([], 0)
    else
      match DecText(bs)
      case Short => Short
      case Got(s, n) =>
        match DecTexts(num - 1, bs[n..])
        case Short => Short
        case Got(ss, m) => Got([s] + ss, n + m)
  }

  function DecQid(bs: Bytes): Qid
    requires |bs| >= 13
  {
    Qid(UnLE(bs[..1]), UnLE(bs[1..5]), UnLE(bs[5..13]))
  }

  function DecQids(num: nat, bs: Bytes): (r: Got<seq<Qid>>)
    ensures r.Got? ==> r.n <= |bs| && |r.v| == num
    decreases num
  {
    if num == 0 then Got([], 0)
    else if |bs| < 13 then Short
    else
      match DecQids(num - 1, bs[13..])
      case Short => Short
      case Got(qs, m) => Got([DecQid(bs)] + qs, 13 + m)
  }

  function Dec(k: Kind, bs: Bytes): (r: Got<Val>)
    ensures r.Got? ==> r.n <= |bs|
  {
    match k
    case Int(n) => (match DecInt(n, bs) case Short => Short case Got(v, m) => Got(IntV(v), m))
    case Text => (match DecText(bs) case Short => Short case Got(s, m) => Got(TextV(s), m))
    case Texts(max) =>
      if |bs| < 2 || U16(bs) > max then Short
      else (match DecTexts(U16(bs), bs[2..]) case Short => Short case Got(ss, m) => Got(TextsV(ss), 2 + m))
    case Qids(max) =>
      if |bs| < 2 || U16(bs) > max then Short
      else (match DecQids(U16(bs), bs[2..]) case Short => Short case Got(qs, m) => Got(QidsV(qs), 2 + m))
    case Blob(n) =>
      if |bs| < n then Short
      else
        var len := UnLE(bs[..n]);
        if |bs| < n + len then Short else Got(BlobV(bs[n..n + len]), n + len)
  }

  function DecAll(ks: seq<Kind>, bs: Bytes): (r: Got<seq<Val>>)
    ensures r.Got? ==> r.n <= |bs| && |r.v| == |ks|
    decreases |ks|
  {
    if ks == [] then Got([], 0)
    else
      match Dec(ks[0], bs)
      case Short => Short
      case Got(v, n) =>
        match DecAll(ks[1..], bs[n..])
        case Short => Short
        case Got(vs, m) => Got([v] + vs, n + m)
  }

  // ---- Round trips ----

  lemma TextRound(s: Bytes, rest: Bytes)
    requires FitsText(s)
    ensures DecText(EncText(s) + rest) == Got(s, 2 + |s|) && |EncText(s)| == 2 + |s|
  {
    U16Round(|s|, s + rest);
    var bs := EncText(s) + rest;
    assert bs == LE(|s|, 2) + (s + rest);
    assert bs[2..2 + |s|] == s;
  }

  lemma {:induction false} TextsRound(ss: seq<Bytes>, rest: Bytes)
    requires forall i :: 0 <= i < |ss| ==> FitsText(ss[i])
    ensures DecTexts(|ss|, EncTexts(ss) + rest) == Got(ss, |EncTexts(ss)|)
  {
    if ss != [] {
      var more := EncTexts(ss[1..]) + rest;
      assert EncTexts(ss) + rest == EncText(ss[0]) + more;
      TextRound(ss[0], more);
      assert (EncText(ss[0]) + more)[2 + |ss[0]|..] == more;
      TextsRound(ss[1..], rest);
      assert ss == [ss[0]] + ss[1..];
    }
  }

  lemma QidRound(q: Qid, rest: Bytes)
    requires FitsQid(q)
    ensures DecQid(EncQid(q) + rest) == q
  {
    var bs := EncQid(q) + rest;
    assert bs[..1] == LE(q.typ, 1) && bs[1..5] == LE(q.version, 4) && bs[5..13] == LE(q.path, 8);
    UnLERound(q.typ, 1);
    UnLERound(q.version, 4);
    UnLERound(q.path, 8);
  }

  lemma {:induction false} QidsRound(qs: seq<Qid>, rest: Bytes)
    requires forall i :: 0 <= i < |qs| ==> FitsQid(qs[i])
    ensures DecQids(|qs|, EncQids(qs) + rest) == Got(qs, |EncQids(qs)|)
  {
    if qs != [] {
      var more := EncQids(qs[1..]) + rest;
      assert EncQids(qs) + rest == EncQid(qs[0]) + more;
      QidRound(qs[0], more);
      assert (EncQid(qs[0]) + more)[13..] == more;
      QidsRound(qs[1..], rest);
      assert qs == [qs[0]] + qs[1..];
    }
  }

  lemma CountRound(n: nat, x: nat, body: Bytes, rest: Bytes)
    requires x < Pow256(n)
    ensures var bs := LE(x, n) + body + rest; UnLE(bs[..n]) == x && bs[n..] == body + rest
  {
    UnLERound(x, n);
    var bs := LE(x, n) + body + rest;
    assert bs[..n] == LE(x, n);
  }

  /** One field: unpacking what was packed gives the value and its exact length. */
  lemma FieldRound(k: Kind, v: Val, rest: Bytes)
    requires Fits(k, v)
    ensures Dec(k, Enc(k, v) + rest) == Got(v, |Enc(k, v)|)
  {
    match k
    case Int(n) =>
      CountRound(n, v.v, [], rest);
      assert LE(v.v, n) + [] + rest == Enc(k, v) + rest;
    case Text => TextRound(v.s, rest);
    case Texts(max) =>
      CountRound(2, |v.ss|, EncTexts(v.ss), rest);
      U16IsUnLE(Enc(k, v) + rest);
      TextsRound(v.ss, rest);
    case Qids(max) =>
      CountRound(2, |v.qs|, EncQids(v.qs), rest);
      U16IsUnLE(Enc(k, v) + rest);
      QidsRound(v.qs, rest);
    case Blob(n) =>
      CountRound(n, |v.d|, v.d, rest);
      var bs := Enc(k, v) + rest;
      assert bs[n..n + |v.d|] == v.d;
  }

  ghost predicate FitsAll(ks: seq<Kind>, vs: seq<Val>) {
    |ks| == |vs| && forall i :: 0 <= i < |ks| ==> Fits(ks[i], vs[i])
  }

  lemma {:induction false} AllRound(ks: seq<Kind>, vs: seq<Val>, rest: Bytes)
    requires FitsAll(ks, vs)
    ensures DecAll(ks, EncAll(ks, vs) + rest) == Got(vs, |EncAll(ks, vs)|)
    decreases |ks|
  {
    if ks != [] {
      var more := EncAll(ks[1..], vs[1..]) + rest;
      assert EncAll(ks, vs) + rest == Enc(ks[0], vs[0]) + more;
      FieldRound(ks[0], vs[0], more);
      assert (Enc(ks[0], vs[0]) + more)[|Enc(ks[0], vs[0])|..] == more;
      AllRound(ks[1..], vs[1..], rest);
      assert vs == [vs[0]] + vs[1..];
    }
  }

  // ---- Truncated messages ----

  /** What was read stays read when more bytes follow. */
  lemma TextExtend(bs: Bytes, more: Bytes)
    requires DecText(bs).Got?
    ensures DecText(bs + more) == DecText(bs)
  {
    var len := U16(bs);
    assert (bs + more)[2..2 + len] == bs[2..2 + len];
  }

  lemma {:induction false} TextsExtend(num: nat, bs: Bytes, more: Bytes)
    requires DecTexts(num, bs).Got?
    ensures DecTexts(num, bs + more) == DecTexts(num, bs)
    decreases num
  {
    if num > 0 {
      TextExtend(bs, more);
      var n := DecText(bs).n;
      assert (bs + more)[n..] == bs[n..] + more;
      TextsExtend(num - 1, bs[n..], more);
    }
  }

  lemma {:induction false} QidsExtend(num: nat, bs: Bytes, more: Bytes)
    requires DecQids(num, bs).Got?
    ensures DecQids(num, bs + more) == DecQids(num, bs)
    decreases num
  {
    if num > 0 {
      assert (bs + more)[..1] == bs[..1] && (bs + more)[1..5] == bs[1..5] && (bs + more)[5..13] == bs[5..13];
      assert (bs + more)[13..] == bs[13..] + more;
      QidsExtend(num - 1, bs[13..], more);
    }
  }

  lemma TextsFieldExtend(max: nat, bs: Bytes, more: Bytes)
    requires Dec(Texts(max), bs).Got?
    ensures Dec(Texts(max), bs + more) == Dec(Texts(max), bs)
  {
    assert (bs + more)[2..] == bs[2..] + more;
    TextsExtend(U16(bs), bs[2..], more);
  }

  lemma QidsFieldExtend(max: nat, bs: Bytes, more: Bytes)
    requires Dec(Qids(max), bs).Got?
    ensures Dec(Qids(max), bs + more) == Dec(Qids(max), bs)
  {
    assert (bs + more)[2..] == bs[2..] + more;
    QidsExtend(U16(bs), bs[2..], more);
  }

  lemma BlobFieldExtend(n: nat, bs: Bytes, more: Bytes)
    requires Dec(Blob(n), bs).Got?
    ensures Dec(Blob(n), bs + more) == Dec(Blob(n), bs)
  {
    assert (bs + more)[..n] == bs[..n];
    var len := UnLE(bs[..n]);
    assert (bs + more)[n..n + len] == bs[n..n + len];
  }

  lemma FieldExtend(k: Kind, bs: Bytes, more: Bytes)
    requires Dec(k, bs).Got?
    ensures Dec(k, bs + more) == Dec(k, bs)
  {
    match k
    case Int(n) => assert (bs + more)[..n] == bs[..n];
    case Text => TextExtend(bs, more);
    case Texts(max) => TextsFieldExtend(max, bs, more);
    case Qids(max) => QidsFieldExtend(max, bs, more);
    case Blob(n) => BlobFieldExtend(n, bs, more);
  }

  lemma {:induction false} AllExtend(ks: seq<Kind>, bs: Bytes, more: Bytes)
    requires DecAll(ks, bs).Got?
    ensures DecAll(ks, bs + more) == DecAll(ks, bs)
    decreases |ks|
  {
    if ks != [] {
      FieldExtend(ks[0], bs, more);
      var n := Dec(ks[0], bs).n;
      assert (bs + more)[n..] == bs[n..] + more;
      AllExtend(ks[1..], bs[n..], more);
    }
  }

  /** No strict prefix of an encoding can be read. */
  lemma PrefixRejected(ks: seq<Kind>, vs: seq<Val>, cut: nat)
    requires FitsAll(ks, vs) && cut < |EncAll(ks, vs)|
    ensures DecAll(ks, EncAll(ks, vs)[..cut]).Short?
  {
    var e := EncAll(ks, vs);
    if DecAll(ks, e[..cut]).Got? {
      AllExtend(ks, e[..cut], e[cut..]);
      assert e[..cut] + e[cut..] == e + [];
      AllRound(ks, vs, []);
    }
  }
}
