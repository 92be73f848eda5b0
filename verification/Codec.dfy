/**
 * message.c on a real buffer: one routine that packs or unpacks a message field by
 * field, and the two entry points around it.
 */
module Codec {
  import opened Basics
  import opened Wire
  import opened Messages
  import opened Convert
  import opened ConvertArrays

  /** The value has the C type of the field. */
  ghost predicate Shaped(k: Kind, v: Val) {
    match k
    case Int(n) => v.IntV?
    case Text => v.TextV?
    case Texts(max) => v.TextsV? && |v.ss| <= max
    case Qids(max) => v.QidsV? && |v.qs| <= max
    case Blob(n) => v.BlobV?
  }

  /** The field kinds the packing functions exist for. */
  predicate Known(k: Kind) {
    match k
    case Int(n) => n == 1 || n == 2 || n == 4 || n == 8
    case Blob(n) => n == 2 || n == 4
    case _ => true
  }

  ghost predicate ShapedAll(ks: seq<Kind>, vs: seq<Val>) {
    |ks| == |vs| && forall i :: 0 <= i < |ks| ==> Shaped(ks[i], vs[i])
  }

  predicate KnownAll(ks: seq<Kind>) {
    forall i :: 0 <= i < |ks| ==> Known(ks[i])
  }

  // ---- One field ----

  /** A count and that many raw bytes. */
  method PBlob(msg: Msg, n: nat, d: Bytes) returns (r: Bytes)
    requires msg.Valid() && (n == 2 || n == 4)
    modifies msg`pos, msg.data
    ensures msg.Valid()
    ensures msg.mode.Pack? ==> r == d && Wrote(old(msg.data[..]), old(msg.pos), msg.data[..], msg.pos, msg.end, LE(|d|, n) + d)
    ensures msg.mode.Unpack? ==> msg.data[..] == old(msg.data[..])
    ensures msg.mode.Unpack? ==>
      Took(msg.data[..], old(msg.pos), msg.pos, msg.end, Dec(Blob(n), Left(msg.data[..], old(msg.pos), msg.end)), BlobV(r))
  {
    ghost var d0, p0 := msg.data[..], msg.pos;
    var len := msg.PUint(n, |d|);
    ghost var d1, p1 := msg.data[..], msg.pos;
    if msg.mode.Pack? {
      r := msg.PData(d, len);
      WroteThen(d0, p0, d1, p1, msg.data[..], msg.pos, msg.end, LE(|d|, n), d[..len]);
      assert d[..|d|] == d;
    } else {
      r := msg.PData(d, len);
      BlobTook(d0, p0, p1, msg.pos, msg.end, n, len, r);
    }
  }

  lemma BlobTook(d: Bytes, p0: nat, p1: nat, p2: nat, end: nat, n: nat, len: nat, r: Bytes)
    requires end <= |d| && n > 0 && Took(d, p0, p1, end, DecInt(n, Left(d, p0, end)), len)
    requires if p1 + len <= end then p2 == p1 + len && r == d[p1..p2] else p2 == end + 1
    ensures Took(d, p0, p2, end, Dec(Blob(n), Left(d, p0, end)), BlobV(r))
  {
    if p0 + n <= end && p0 + n + len <= end {
      SliceSlice(d, p0, end, n, n + len);
    }
  }

  method PInt(msg: Msg, n: nat, v: nat) returns (r: nat)
    requires msg.Valid() && Known(Int(n))
    modifies msg`pos, msg.data
    ensures msg.Valid()
    ensures msg.mode.Pack? ==> r == v && Wrote(old(msg.data[..]), old(msg.pos), msg.data[..], msg.pos, msg.end, LE(v, n))
    ensures msg.mode.Unpack? ==> msg.data[..] == old(msg.data[..])
    ensures msg.mode.Unpack? ==>
      Took(msg.data[..], old(msg.pos), msg.pos, msg.end, DecInt(n, Left(msg.data[..], old(msg.pos), msg.end)), r)
  {
    if n == 8 {
      r := msg.PU64(v);
    } else {
      r := msg.PUint(n, v);
    }
  }

  /** The packing function for a field of kind k. */
  method PField(msg: Msg, k: Kind, v: Val) returns (r: Val)
    requires msg.Valid() && Known(k) && Shaped(k, v)
    modifies msg`pos, msg.data
    ensures msg.Valid()
    ensures msg.mode.Pack? ==> r == v && Wrote(old(msg.data[..]), old(msg.pos), msg.data[..], msg.pos, msg.end, Enc(k, v))
    ensures msg.mode.Unpack? ==> msg.data[..] == old(msg.data[..])
    ensures msg.mode.Unpack? ==>
      Took(msg.data[..], old(msg.pos), msg.pos, msg.end, Dec(k, Left(msg.data[..], old(msg.pos), msg.end)), r)
  {
    match k
    case Int(n) =>
      var x := PInt(msg, n, v.v);
      r := IntV(x);
    case Text =>
      var s := msg.PString(v.s);
      r := TextV(s);
    case Texts(max) =>
      var ss := PStrings(msg, v.ss, max);
      r := TextsV(ss);
    case Qids(max) =>
      var qs := PQids(msg, v.qs, max);
      r := QidsV(qs);
    case Blob(n) =>
      var d := PBlob(msg, n, v.d);
      r := BlobV(d);
  }

  // ---- All fields ----

  lemma AllCons(ks: seq<Kind>, bs: Bytes, rest: Bytes)
    requires ks != []
    requires Dec(ks[0], bs).Got? ==> bs[Dec(ks[0], bs).n..] == rest
    ensures DecAll(ks, bs) == ConsVal(Dec(ks[0], bs), DecAll(ks[1..], rest))
  {
  }

  /** A field decoded in front of the rest. */
  function ConsVal(g: Got<Val>, h: Got<seq<Val>>): Got<seq<Val>> {
    if g.Got? && h.Got? then Got([g.v] + h.v, g.n + h.n) else Short
  }

  lemma TookPair(d: Bytes, p0: nat, p1: nat, p2: nat, end: nat, g: Got<Val>, h: Got<seq<Val>>, v: Val, vs: seq<Val>)
    requires Took(d, p0, p1, end, g, v) && Took(d, p1, p2, end, h, vs)
    requires p0 <= end && g.Got? ==> p0 + g.n <= end
    ensures Took(d, p0, p2, end, ConsVal(g, h), [v] + vs)
  {
  }

  lemma TookThen(d: Bytes, p0: nat, p1: nat, p2: nat, end: nat, ks: seq<Kind>, v: Val, vs: seq<Val>)
    requires end <= |d| && ks != []
    requires Took(d, p0, p1, end, Dec(ks[0], Left(d, p0, end)), v)
    requires Took(d, p1, p2, end, DecAll(ks[1..], Left(d, p1, end)), vs)
    ensures Took(d, p0, p2, end, DecAll(ks, Left(d, p0, end)), [v] + vs)
  {
    TookPair(d, p0, p1, p2, end, Dec(ks[0], Left(d, p0, end)), DecAll(ks[1..], Left(d, p1, end)), v, vs);
    if p0 <= end {
      var g := Dec(ks[0], Left(d, p0, end));
      if g.Got? { LeftAfter(d, p0, end, g.n); }
      AllCons(ks, Left(d, p0, end), Left(d, p1, end));
    }
  }

  /** The fields of a message, one after the other; once one does not fit, none that follows does. */
  method PFields(msg: Msg, ks: seq<Kind>, vs: seq<Val>) returns (r: seq<Val>)
    requires msg.Valid() && KnownAll(ks) && ShapedAll(ks, vs)
    modifies msg`pos, msg.data
    ensures msg.Valid()
    ensures msg.mode.Pack? ==> r == vs
    ensures msg.mode.Pack? ==> Wrote(old(msg.data[..]), old(msg.pos), msg.data[..], msg.pos, msg.end, EncAll(ks, vs))
    ensures msg.mode.Unpack? ==> msg.data[..] == old(msg.data[..])
    ensures msg.mode.Unpack? ==>
      Took(msg.data[..], old(msg.pos), msg.pos, msg.end, DecAll(ks, Left(msg.data[..], old(msg.pos), msg.end)), r)
    decreases |ks|
  {
    if ks == [] {
      r := [];
      assert vs == [];
      return;
    }
    ghost var d0, p0 := msg.data[..], msg.pos;
    var v := PField(msg, ks[0], vs[0]);
    ghost var d1, p1 := msg.data[..], msg.pos;
    var rest := PFields(msg, ks[1..], vs[1..]);
    r := [v] + rest;
    if msg.mode.Pack? {
      WroteThen(d0, p0, d1, p1, msg.data[..], msg.pos, msg.end, Enc(ks[0], vs[0]), EncAll(ks[1..], vs[1..]));
      assert vs == [vs[0]] + vs[1..];
    } else {
      TookThen(d0, p0, p1, msg.pos, msg.end, ks, v, rest);
    }
  }

  /** A structure whose fields nobody has set yet. */
  function Blank(k: Kind): (v: Val)
    ensures Shaped(k, v)
  {
    match k
    case Int(_) => IntV(0)
    case Text => TextV([])
    case Texts(_) => TextsV([])
    case Qids(_) => QidsV([])
    case Blob(_) => BlobV([])
  }

  function Blanks(ks: seq<Kind>): (vs: seq<Val>)
    ensures ShapedAll(ks, vs)
  {
    seq(|ks|, i requires 0 <= i < |ks| => Blank(ks[i]))
  }

  lemma FormatKnown(t: nat)
    ensures KnownAll(Format(t))
  {
  }

  // ---- Whole messages ----

  /** Every member of the body has its C type, and the type is one the body belongs to. */
  ghost predicate Typed(f: Fcall) {
    ShapedAll(Format(TypeOf(f.body)), Vals(f.body, 0))
  }

  lemma TypedAnyJunk(f: Fcall, junk: nat)
    requires Typed(f)
    ensures ShapedAll(Format(TypeOf(f.body)), Vals(f.body, junk))
  {
    var vs, vs' := Vals(f.body, 0), Vals(f.body, junk);
    assert forall i :: 0 <= i < |vs| ==> vs'[i] == vs[i] || (vs'[i].IntV? && vs[i].IntV?);
  }

  lemma OkTyped(f: Fcall)
    requires Ok(f)
    ensures Typed(f)
  {
    BodyFaithful(f.body, 0);
    var ks, vs := Format(TypeOf(f.body)), Vals(f.body, 0);
    assert forall i :: 0 <= i < |ks| ==> Fits(ks[i], vs[i]);
  }

  /** Type and tag, then the body. */
  lemma PayloadTook(d: Bytes, p0: nat, p1: nat, p2: nat, p3: nat, end: nat, t: nat, tag: nat, ks: seq<Kind>, vs: seq<Val>)
    requires end <= |d|
    requires Took(d, p0, p1, end, DecInt(1, Left(d, p0, end)), t)
    requires Took(d, p1, p2, end, DecInt(2, Left(d, p1, end)), tag)
    requires Took(d, p2, p3, end, DecAll(ks, Left(d, p2, end)), vs)
    requires ks == Format(t)
    ensures Took(d, p0, p3, end, DecPayload(Left(d, p0, end)), Fcall(tag, BodyOf(t, vs)))
  {
    if p0 + 3 <= end {
      SliceSlice(d, p0, end, 0, 1);
      SliceSlice(d, p0, end, 1, 3);
      SliceSlice(d, p1, end, 0, 2);
      LeftAfter(d, p0, end, 3);
    }
  }

  /** ixp_pfcall. */
  method PFcall(msg: Msg, f: Fcall, junk: nat) returns (r: Fcall)
    requires msg.Valid() && (msg.mode.Pack? ==> Typed(f))
    modifies msg`pos, msg.data
    ensures msg.Valid()
    ensures msg.mode.Pack? ==> Wrote(old(msg.data[..]), old(msg.pos), msg.data[..], msg.pos, msg.end, Payload(f, junk))
    ensures msg.mode.Unpack? ==> msg.data[..] == old(msg.data[..])
    ensures msg.mode.Unpack? ==>
      Took(msg.data[..], old(msg.pos), msg.pos, msg.end, DecPayload(Left(msg.data[..], old(msg.pos), msg.end)), r)
  {
    ghost var d0, p0 := msg.data[..], msg.pos;
    var t := msg.PUint(1, TypeOf(f.body));
    ghost var d1, p1 := msg.data[..], msg.pos;
    var tag := msg.PUint(2, f.tag);
    ghost var d2, p2 := msg.data[..], msg.pos;
    FormatKnown(t);
    if msg.mode.Pack? {
      TypedAnyJunk(f, junk);
      var vs := PFields(msg, Format(t), Vals(f.body, junk));
      WroteThen(d0, p0, d1, p1, d2, p2, msg.end, LE(t, 1), LE(tag, 2));
      WroteThen(d0, p0, d2, p2, msg.data[..], msg.pos, msg.end, LE(t, 1) + LE(tag, 2), EncAll(Format(t), vs));
      r := f;
    } else {
      var vs := PFields(msg, Format(t), Blanks(Format(t)));
      r := Fcall(tag, BodyOf(t, vs));
      PayloadTook(d0, p0, p1, p2, msg.pos, msg.end, t, tag, Format(t), vs);
    }
  }

  /** ixp_pstat, packing. */
  method PackStat(msg: Msg, st: Stat)
    requires msg.Valid() && msg.mode.Pack?
    modifies msg`pos, msg.data
    ensures msg.Valid() && Wrote(old(msg.data[..]), old(msg.pos), msg.data[..], msg.pos, msg.end, EncAll(StatFormat(), StatVals(st)))
  {
    var vs := PFields(msg, StatFormat(), StatVals(st));
  }

  /** ixp_pstat, unpacking; the stat's own size is read and dropped. */
  method UnpackStat(msg: Msg) returns (st: Stat)
    requires msg.Valid() && msg.mode.Unpack?
    modifies msg`pos, msg.data
    ensures msg.Valid() && msg.data[..] == old(msg.data[..])
    ensures Took(msg.data[..], old(msg.pos), msg.pos, msg.end, DecStat(Left(msg.data[..], old(msg.pos), msg.end)), st)
  {
    var vs := PFields(msg, StatFormat(), Blanks(StatFormat()));
    st := StatOf(vs, 0);
  }

  function DecStat(bs: Bytes): (r: Got<Stat>)
    ensures r.Got? ==> r.n <= |bs|
  {
    match DecAll(StatFormat(), bs)
    case Short => Short
    case Got(vs, n) => Got(StatOf(vs, 0), n)
  }

  /**
   * ixp_fcall2msg: packing succeeds exactly when the encoding fits the buffer, and
   * then the message is that encoding and the result its length.
   */
  method Fcall2Msg(msg: Msg, f: Fcall, junk: nat) returns (n: nat)
    requires msg.Valid() && Typed(f)
    modifies msg`pos, msg`end, msg`mode, msg.data
    ensures msg.Valid()
    ensures n > 0 <==> |Encode(f, junk)| <= msg.size
    ensures n > 0 ==> n == |Encode(f, junk)| == msg.end && msg.pos == 0 && msg.data[..n] == Encode(f, junk)
    ensures n > 0 ==> msg.data[n..] == old(msg.data[..])[n..]
  {
    if msg.size < 4 {
      return 0;
    }
    msg.end := msg.size;
    msg.pos := 4;
    msg.mode := Pack;
    ghost var d0 := msg.data[..];
    var r := PFcall(msg, f, junk);
    if msg.pos > msg.end {
      return 0;
    }
    ghost var d1, p1 := msg.data[..], msg.pos;
    msg.end := msg.pos;
    n := msg.end;
    msg.pos := 0;
    var size := msg.PUint(4, n);
    Joined(d0, d1, msg.data[..], n, LE(n, 4), Payload(f, junk));
    msg.pos := 0;
  }

  /** A length in front of a payload. */
  lemma Joined(d0: Bytes, d1: Bytes, d2: Bytes, n: nat, len: Bytes, body: Bytes)
    requires |len| == 4 && n == 4 + |body| <= |d0|
    requires Wrote(d0, 4, d1, n, |d0|, body) && Wrote(d1, 0, d2, 4, n, len)
    ensures d2[..n] == len + body && d2[n..] == d0[n..]
  {
    assert d2[..n] == d2[0..4] + d2[4..n];
    assert d2[4..n] == d1[4..n];
  }

  /** ixp_msg2fcall: what the bytes up to the message's end decode to, and how many it took; 0 when they do not. */
  method Msg2Fcall(msg: Msg) returns (n: nat, f: Fcall)
    requires msg.Valid()
    modifies msg`pos, msg`mode, msg.data
    ensures msg.Valid() && msg.data[..] == old(msg.data[..])
    ensures n == 0 <==> Decode(msg.data[..msg.end]).Short?
    ensures n > 0 ==> Decode(msg.data[..msg.end]) == Got(f, n)
  {
    f := Fcall(0, Bare(0));
    if msg.size < 4 || msg.end < 4 {
      return 0, f;
    }
    msg.pos := 4;
    msg.mode := Unpack;
    ghost var d := msg.data[..];
    f := PFcall(msg, f, 0);
    assert Left(d, 4, msg.end) == msg.data[..msg.end][4..];
    if msg.pos > msg.end {
      return 0, f;
    }
    n := msg.pos;
  }
}
