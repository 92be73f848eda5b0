/** The 9P2000 messages: their bodies, field by field, and their encodings. */
module Messages {
  import opened Basics
  import opened Wire

  datatype Stat = Stat(typ: nat, dev: nat, qid: Qid, mode: nat, atime: nat, mtime: nat, length: nat,
                       name: Bytes, uid: Bytes, gid: Bytes, muid: Bytes)

  datatype Body =
    | TVersion(msize: nat, version: Bytes)
    | RVersion(msize: nat, version: Bytes)
    | TAuth(afid: nat, uname: Bytes, aname: Bytes)
    | RAuth(aqid: Qid)
    | TAttach(fid: nat, afid: nat, uname: Bytes, aname: Bytes)
    | RAttach(qid: Qid)
    | RError(ename: Bytes)
    | TFlush(oldtag: nat)
    | TWalk(fid: nat, newfid: nat, wname: seq<Bytes>)
    | RWalk(wqid: seq<Qid>)
    | TOpen(fid: nat, omode: nat)
    | ROpen(qid: Qid, iounit: nat)
    | TCreate(fid: nat, name: Bytes, perm: nat, omode: nat)
    | RCreate(qid: Qid, iounit: nat)
    | TRead(fid: nat, offset: nat, count: nat)
    | RRead(data: Bytes)
    | TWrite(fid: nat, offset: nat, data: Bytes)
    | RWrite(count: nat)
    | TClunk(fid: nat)
    | TRemove(fid: nat)
    | TStat(fid: nat)
    | RStat(stat: Bytes)
    | TWStat(fid: nat, st: Stat)
    | Bare(typ: nat)      // RFlush, RClunk, RRemove, RWStat, and types ixp_pfcall does not know

  datatype Fcall = Fcall(tag: nat, body: Body)

  function TypeOf(b: Body): nat {
    match b
    case TVersion(_, _) => 100
    case RVersion(_, _) => 101
    case TAuth(_, _, _) => 102
    case RAuth(_) => 103
    case TAttach(_, _, _, _) => 104
    case RAttach(_) => 105
    case RError(_) => 107
    case TFlush(_) => 108
    case TWalk(_, _, _) => 110
    case RWalk(_) => 111
    case TOpen(_, _) => 112
    case ROpen(_, _) => 113
    case TCreate(_, _, _, _) => 114
    case RCreate(_, _) => 115
    case TRead(_, _, _) => 116
    case RRead(_) => 117
    case TWrite(_, _, _) => 118
    case RWrite(_) => 119
    case TClunk(_) => 120
    case TRemove(_) => 122
    case TStat(_) => 124
    case RStat(_) => 125
    case TWStat(_, _) => 126
    case Bare(typ) => typ
  }

  const MAX_WELEM: nat := 16

  function QidFormat(): seq<Kind> {
    [Int(1), Int(4), Int(8)]
  }

  /** The fields ixp_pstat packs, its own size first. */
  function StatFormat(): seq<Kind> {
    [Int(2), Int(2), Int(4), Int(1), Int(4), Int(8), Int(4), Int(4), Int(4), Int(8), Text, Text, Text, Text]
  }

  /** The fields ixp_pfcall packs after type and tag. */
  function Format(t: nat): seq<Kind> {
    if t == 100 || t == 101 then [Int(4), Text]
    else if t == 102 then [Int(4), Text, Text]
    else if t == 103 || t == 105 then QidFormat()
    else if t == 104 then [Int(4), Int(4), Text, Text]
    else if t == 107 then [Text]
    else if t == 108 then [Int(2)]
    else if t == 110 then [Int(4), Int(4), Texts(MAX_WELEM)]
    else if t == 111 then [Qids(MAX_WELEM)]
    else if t == 112 then [Int(4), Int(1)]
    else if t == 113 || t == 115 then [Int(1), Int(4), Int(8), Int(4)]
    else if t == 114 then [Int(4), Text, Int(4), Int(1)]
    else if t == 116 then [Int(4), Int(8), Int(4)]
    else if t == 117 then [Blob(4)]
    else if t == 118 then [Int(4), Int(8), Blob(4)]
    else if t == 119 || t == 120 || t == 122 || t == 124 then [Int(4)]
    else if t == 125 then [Blob(2)]
    else if t == 126 then [Int(4), Int(2)] + StatFormat()
    else []
  }

  /** ixp_sizeof_stat, before it is cut to 16 bits: the bytes ixp_pstat writes. */
  function StatLength(st: Stat): nat {
    49 + |st.name| + |st.uid| + |st.gid| + |st.muid|
  }

  function SizeofStat(st: Stat): nat {
    StatLength(st) % 65536
  }

  function QidVals(q: Qid): seq<Val> {
    [IntV(q.typ), IntV(q.version), IntV(q.path)]
  }

  function StatVals(st: Stat): seq<Val> {
    [IntV((SizeofStat(st) + 65534) % 65536), IntV(st.typ), IntV(st.dev), IntV(st.qid.typ), IntV(st.qid.version), IntV(st.qid.path),
     IntV(st.mode), IntV(st.atime), IntV(st.mtime), IntV(st.length),
     TextV(st.name), TextV(st.uid), TextV(st.gid), TextV(st.muid)]
  }

  /** The values of a body's fields; `junk` is the uninitialised outer size of a packed TWStat. */
  function Vals(b: Body, junk: nat): seq<Val> {
    match b
    case TVersion(m, v) => [IntV(m), TextV(v)]
    case RVersion(m, v) => [IntV(m), TextV(v)]
    case TAuth(a, u, n) => [IntV(a), TextV(u), TextV(n)]
    case RAuth(q) => QidVals(q)
    case TAttach(f, a, u, n) => [IntV(f), IntV(a), TextV(u), TextV(n)]
    case RAttach(q) => QidVals(q)
    case RError(e) => [TextV(e)]
    case TFlush(t) => [IntV(t)]
    case TWalk(f, n, w) => [IntV(f), IntV(n), TextsV(w)]
    case RWalk(qs) => [QidsV(qs)]
    case TOpen(f, m) => [IntV(f), IntV(m)]
    case ROpen(q, io) => QidVals(q) + [IntV(io)]
    case TCreate(f, n, p, m) => [IntV(f), TextV(n), IntV(p), IntV(m)]
    case RCreate(q, io) => QidVals(q) + [IntV(io)]
    case TRead(f, o, c) => [IntV(f), IntV(o), IntV(c)]
    case RRead(d) => [BlobV(d)]
    case TWrite(f, o, d) => [IntV(f), IntV(o), BlobV(d)]
    case RWrite(c) => [IntV(c)]
    case TClunk(f) => [IntV(f)]
    case TRemove(f) => [IntV(f)]
    case TStat(f) => [IntV(f)]
    case RStat(s) => [BlobV(s)]
    case TWStat(f, st) => [IntV(f), IntV(junk)] + StatVals(st)
    case Bare(_) => []
  }

  // ---- Building a body from unpacked fields ----

  function N(vs: seq<Val>, i: nat): nat {
    if i < |vs| && vs[i].IntV? then vs[i].v else 0
  }

  function S(vs: seq<Val>, i: nat): Bytes {
    if i < |vs| && vs[i].TextV? then vs[i].s else []
  }

  function D(vs: seq<Val>, i: nat): Bytes {
    if i < |vs| && vs[i].BlobV? then vs[i].d else []
  }

  function Q(vs: seq<Val>, i: nat): Qid {
    Qid(N(vs, i), N(vs, i + 1), N(vs, i + 2))
  }

  function StatOf(vs: seq<Val>, i: nat): Stat {
    Stat(N(vs, i + 1), N(vs, i + 2), Q(vs, i + 3), N(vs, i + 6), N(vs, i + 7), N(vs, i + 8), N(vs, i + 9),
         S(vs, i + 10), S(vs, i + 11), S(vs, i + 12), S(vs, i + 13))
  }

  function BodyOf(t: nat, vs: seq<Val>): Body {
    if t == 100 then TVersion(N(vs, 0), S(vs, 1))
    else if t == 101 then RVersion(N(vs, 0), S(vs, 1))
    else if t == 102 then TAuth(N(vs, 0), S(vs, 1), S(vs, 2))
    else if t == 103 then RAuth(Q(vs, 0))
    else if t == 104 then TAttach(N(vs, 0), N(vs, 1), S(vs, 2), S(vs, 3))
    else if t == 105 then RAttach(Q(vs, 0))
    else if t == 107 then RError(S(vs, 0))
    else if t == 108 then TFlush(N(vs, 0))
    else if t == 110 then TWalk(N(vs, 0), N(vs, 1), if |vs| == 3 && vs[2].TextsV? then vs[2].ss else [])
    else if t == 111 then RWalk(if |vs| == 1 && vs[0].QidsV? then vs[0].qs else [])
    else if t == 112 then TOpen(N(vs, 0), N(vs, 1))
    else if t == 113 then ROpen(Q(vs, 0), N(vs, 3))
    else if t == 114 then TCreate(N(vs, 0), S(vs, 1), N(vs, 2), N(vs, 3))
    else if t == 115 then RCreate(Q(vs, 0), N(vs, 3))
    else if t == 116 then TRead(N(vs, 0), N(vs, 1), N(vs, 2))
    else if t == 117 then RRead(D(vs, 0))
    else if t == 118 then TWrite(N(vs, 0), N(vs, 1), D(vs, 2))
    else if t == 119 then RWrite(N(vs, 0))
    else if t == 120 then TClunk(N(vs, 0))
    else if t == 122 then TRemove(N(vs, 0))
    else if t == 124 then TStat(N(vs, 0))
    else if t == 125 then RStat(D(vs, 0))
    else if t == 126 then TWStat(N(vs, 0), StatOf(vs, 2))
    else Bare(t)
  }

  // ---- Well-formed messages ----

  ghost predicate U(n: nat, v: nat) {
    v < Pow256(n)
  }

  ghost predicate StatOk(st: Stat) {
    && U(2, st.typ) && U(4, st.dev) && FitsQid(st.qid) && U(4, st.mode) && U(4, st.atime) && U(4, st.mtime) && U(8, st.length)
    && FitsText(st.name) && FitsText(st.uid) && FitsText(st.gid) && FitsText(st.muid)
  }

  /** The body's members have the widths their C types and the protocol give them. */
  ghost predicate BodyOk(b: Body) {
    match b
    case TVersion(m, v) => U(4, m) && FitsText(v)
    case RVersion(m, v) => U(4, m) && FitsText(v)
    case TAuth(a, u, n) => U(4, a) && FitsText(u) && FitsText(n)
    case RAuth(q) => FitsQid(q)
    case TAttach(f, a, u, n) => U(4, f) && U(4, a) && FitsText(u) && FitsText(n)
    case RAttach(q) => FitsQid(q)
    case RError(e) => FitsText(e)
    case TFlush(t) => U(2, t)
    case TWalk(f, n, w) => U(4, f) && U(4, n) && |w| <= MAX_WELEM && forall i :: 0 <= i < |w| ==> FitsText(w[i])
    case RWalk(qs) => |qs| <= MAX_WELEM && forall i :: 0 <= i < |qs| ==> FitsQid(qs[i])
    case TOpen(f, m) => U(4, f) && U(1, m)
    case ROpen(q, io) => FitsQid(q) && U(4, io)
    case TCreate(f, n, p, m) => U(4, f) && FitsText(n) && U(4, p) && U(1, m)
    case RCreate(q, io) => FitsQid(q) && U(4, io)
    case TRead(f, o, c) => U(4, f) && U(8, o) && U(4, c)
    case RRead(d) => U(4, |d|)
    case TWrite(f, o, d) => U(4, f) && U(8, o) && U(4, |d|)
    case RWrite(c) => U(4, c)
    case TClunk(f) => U(4, f)
    case TRemove(f) => U(4, f)
    case TStat(f) => U(4, f)
    case RStat(s) => U(2, |s|)
    case TWStat(f, st) => U(4, f) && StatOk(st)
    case Bare(t) => U(1, t) && !(100 <= t <= 105) && t != 107 && t != 108 && !(110 <= t <= 120) && t != 122 && !(124 <= t <= 126)
  }

  ghost predicate Ok(f: Fcall) {
    U(2, f.tag) && BodyOk(f.body)
  }

  // ---- Encoding and decoding ----

  /** What ixp_pfcall packs. */
  function Payload(f: Fcall, junk: nat): Bytes {
    var t := TypeOf(f.body);
    var vs := Vals(f.body, junk);
    LE(t, 1) + LE(f.tag, 2) + (if |Format(t)| == |vs| then EncAll(Format(t), vs) else [])
  }

  /** What ixp_fcall2msg leaves in the buffer: the total length, then the payload. */
  function Encode(f: Fcall, junk: nat): Bytes {
    LE(4 + |Payload(f, junk)|, 4) + Payload(f, junk)
  }

  /** What ixp_pfcall unpacks. */
  function DecPayload(bs: Bytes): (r: Got<Fcall>)
    ensures r.Got? ==> 3 <= r.n <= |bs|
  {
    if |bs| < 3 then Short
    else
      var t := UnLE(bs[..1]);
      match DecAll(Format(t), bs[3..])
      case Short => Short
      case Got(vs, n) => Got(Fcall(UnLE(bs[1..3]), BodyOf(t, vs)), 3 + n)
  }

  /** ixp_msg2fcall on the bytes up to msg->end: the length prefix is skipped, not checked. */
  function Decode(bs: Bytes): Got<Fcall> {
    if |bs| < 4 then Short
    else
      match DecPayload(bs[4..])
      case Short => Short
      case Got(f, n) => Got(f, 4 + n)
  }

  // The three lemmas below take the message types in groups.

  predicate SetupType(b: Body) {
    b.TVersion? || b.RVersion? || b.TAuth? || b.RAuth? || b.TAttach? || b.RAttach? || b.RError? || b.TFlush?
  }

  predicate FileType(b: Body) {
    b.TWalk? || b.RWalk? || b.TOpen? || b.ROpen? || b.TCreate? || b.RCreate? || b.TRead? || b.RRead?
  }

  /** The fields of a body have the kinds of its type, fit them, and give the body back. */
  ghost predicate Faithful(b: Body, junk: nat) {
    && FitsAll(Format(TypeOf(b)), Vals(b, junk)) && TypeOf(b) < 256
    && BodyOf(TypeOf(b), Vals(b, junk)) == b
  }

  lemma AuthFaithful(b: Body, junk: nat)
    requires BodyOk(b) && (b.TAuth? || b.RAuth? || b.TAttach? || b.RAttach?)
    ensures Faithful(b, junk)
  {
  }

  lemma SetupFaithful(b: Body, junk: nat)
    requires BodyOk(b) && SetupType(b)
    ensures Faithful(b, junk)
  {
    if b.TAuth? || b.RAuth? || b.TAttach? || b.RAttach? {
      AuthFaithful(b, junk);
    }
  }

  lemma WalkFaithful(b: Body, junk: nat)
    requires BodyOk(b) && (b.TWalk? || b.RWalk?)
    ensures Faithful(b, junk)
  {
  }

  lemma ReadFaithful(b: Body, junk: nat)
    requires BodyOk(b) && (b.TRead? || b.RRead?)
    ensures Faithful(b, junk)
  {
  }

  lemma FileFaithful(b: Body, junk: nat)
    requires BodyOk(b) && FileType(b)
    ensures Faithful(b, junk)
  {
    if b.TWalk? || b.RWalk? {
      WalkFaithful(b, junk);
    } else if b.TRead? || b.RRead? {
      ReadFaithful(b, junk);
    }
  }

  lemma StatFits(st: Stat)
    requires StatOk(st)
    ensures FitsAll(StatFormat(), StatVals(st))
  {
    assert Pow256(2) == 65536;
  }

  lemma FitsAppend(ks: seq<Kind>, vs: seq<Val>, ks': seq<Kind>, vs': seq<Val>)
    requires FitsAll(ks, vs) && FitsAll(ks', vs')
    ensures FitsAll(ks + ks', vs + vs')
  {
  }

  lemma StatBack(pre: seq<Val>, st: Stat)
    ensures StatOf(pre + StatVals(st), |pre|) == st
  {
    var vs := pre + StatVals(st);
    assert forall i :: 0 <= i < 14 ==> vs[|pre| + i] == StatVals(st)[i];
  }

  lemma WStatFaithful(f: nat, st: Stat, junk: nat)
    requires BodyOk(TWStat(f, st)) && junk < 65536
    ensures Faithful(TWStat(f, st), junk)
  {
    hide FitsText, StatVals, StatFormat, StatOf;
    StatFits(st);
    assert Pow256(2) == 65536;
    var pre := [IntV(f), IntV(junk)];
    assert FitsAll([Int(4), Int(2)], pre);
    FitsAppend([Int(4), Int(2)], pre, StatFormat(), StatVals(st));
    StatBack(pre, st);
  }

  lemma BodyFaithful(b: Body, junk: nat)
    requires BodyOk(b) && junk < 65536
    ensures Faithful(b, junk)
  {
    if SetupType(b) {
      SetupFaithful(b, junk);
    } else if FileType(b) {
      FileFaithful(b, junk);
    } else if b.TWStat? {
      WStatFaithful(b.fid, b.st, junk);
    } else {
      assert Pow256(1) == 256;
    }
  }

  lemma Slices(a: Bytes, b: Bytes, c: Bytes, rest: Bytes)
    requires |a| == 1 && |b| == 2
    ensures var bs := a + b + c + rest; bs[..1] == a && bs[1..3] == b && bs[3..] == c + rest
  {
  }

  lemma FramedRound(t: nat, tag: nat, ks: seq<Kind>, vs: seq<Val>, rest: Bytes)
    requires t < 256 && tag < Pow256(2) && FitsAll(ks, vs)
    ensures var bs := LE(t, 1) + LE(tag, 2) + EncAll(ks, vs) + rest;
      && UnLE(bs[..1]) == t && UnLE(bs[1..3]) == tag
      && DecAll(ks, bs[3..]) == Got(vs, |EncAll(ks, vs)|)
  {
    assert Pow256(1) == 256;
    UnLERound(t, 1);
    UnLERound(tag, 2);
    Slices(LE(t, 1), LE(tag, 2), EncAll(ks, vs), rest);
    AllRound(ks, vs, rest);
  }

  lemma PayloadRound(f: Fcall, junk: nat, rest: Bytes)
    requires Ok(f) && junk < 65536
    ensures DecPayload(Payload(f, junk) + rest) == Got(f, |Payload(f, junk)|)
  {
    BodyFaithful(f.body, junk);
    FramedRound(TypeOf(f.body), f.tag, Format(TypeOf(f.body)), Vals(f.body, junk), rest);
  }

  /** Every message type: unpacking a packed message gives it back, with its exact length. */
  lemma MessageRound(f: Fcall, junk: nat, rest: Bytes)
    requires Ok(f) && junk < 65536
    ensures Decode(Encode(f, junk) + rest) == Got(f, |Encode(f, junk)|)
  {
    var bs := Encode(f, junk) + rest;
    assert bs[4..] == Payload(f, junk) + rest;
    PayloadRound(f, junk, rest);
  }

  /** Every strict prefix of a packed message is rejected. */
  lemma TruncatedRejected(f: Fcall, junk: nat, cut: nat)
    requires Ok(f) && junk < 65536 && cut < |Encode(f, junk)|
    ensures Decode(Encode(f, junk)[..cut]).Short?
  {
    if cut >= 7 {
      var t := TypeOf(f.body);
      var vs := Vals(f.body, junk);
      BodyFaithful(f.body, junk);
      UnLERound(t, 1);
      var bs := Encode(f, junk)[..cut];
      assert bs[4..][..1] == LE(t, 1);
      assert bs[4..][3..] == EncAll(Format(t), vs)[..cut - 7];
      PrefixRejected(Format(t), vs, cut - 7);
    }
  }

  // ---- Exactly the messages that survive ----

  lemma {:induction false} TextsFit(num: nat, bs: Bytes)
    requires DecTexts(num, bs).Got?
    ensures forall i :: 0 <= i < num ==> FitsText(DecTexts(num, bs).v[i])
    decreases num
  {
    if num > 0 {
      TextsFit(num - 1, bs[DecText(bs).n..]);
    }
  }

  lemma {:induction false} QidsFit(num: nat, bs: Bytes)
    requires DecQids(num, bs).Got?
    ensures forall i :: 0 <= i < num ==> FitsQid(DecQids(num, bs).v[i])
    decreases num
  {
    if num > 0 {
      QidsFit(num - 1, bs[13..]);
    }
  }

  /** What is unpacked from a field fits it. */
  lemma FieldFits(k: Kind, bs: Bytes)
    requires Dec(k, bs).Got? && (k.Texts? || k.Qids? ==> k.max < 65536)
    ensures Fits(k, Dec(k, bs).v)
  {
    match k
    case Texts(_) => TextsFit(U16(bs), bs[2..]);
    case Qids(_) => QidsFit(U16(bs), bs[2..]);
    case _ =>
  }

  lemma {:induction false} FieldsFit(ks: seq<Kind>, bs: Bytes)
    requires DecAll(ks, bs).Got? && forall i :: 0 <= i < |ks| && (ks[i].Texts? || ks[i].Qids?) ==> ks[i].max < 65536
    ensures FitsAll(ks, DecAll(ks, bs).v)
    decreases |ks|
  {
    if ks != [] {
      FieldFits(ks[0], bs);
      FieldsFit(ks[1..], bs[Dec(ks[0], bs).n..]);
      var vs := DecAll(ks, bs).v;
      forall i | 0 <= i < |ks| ensures Fits(ks[i], vs[i]) {
        if i > 0 { assert ks[i] == ks[1..][i - 1]; }
      }
    }
  }

  lemma SetupFits(t: nat, vs: seq<Val>)
    requires 100 <= t <= 108 && t != 106 && FitsAll(Format(t), vs)
    ensures BodyOk(BodyOf(t, vs))
  {
    hide Pow256, FitsText;
    assert forall i :: 0 <= i < |vs| ==> Fits(Format(t)[i], vs[i]);
  }

  lemma FileFits(t: nat, vs: seq<Val>)
    requires 110 <= t <= 115 && FitsAll(Format(t), vs)
    ensures BodyOk(BodyOf(t, vs))
  {
    hide Pow256, FitsText;
    assert forall i :: 0 <= i < |vs| ==> Fits(Format(t)[i], vs[i]);
  }

  lemma TransferFits(t: nat, vs: seq<Val>)
    requires 116 <= t <= 125 && t != 121 && t != 123 && FitsAll(Format(t), vs)
    ensures BodyOk(BodyOf(t, vs))
  {
    hide Pow256, FitsText;
    assert forall i :: 0 <= i < |vs| ==> Fits(Format(t)[i], vs[i]);
  }

  lemma WStatFits(vs: seq<Val>)
    requires FitsAll(Format(126), vs)
    ensures BodyOk(BodyOf(126, vs))
  {
    hide Pow256, FitsText;
    var ks := Format(126);
    assert ks == [Int(4), Int(2)] + StatFormat();
    assert forall i :: 0 <= i < |vs| ==> Fits(ks[i], vs[i]);
    assert ks[3] == Int(2) && ks[4] == Int(4) && ks[5] == Int(1) && ks[6] == Int(4) && ks[7] == Int(8);
    assert ks[8] == Int(4) && ks[9] == Int(4) && ks[10] == Int(4) && ks[11] == Int(8);
    assert ks[12] == Text && ks[13] == Text && ks[14] == Text && ks[15] == Text;
  }

  /** Fields of the right kinds make a well-formed body, whatever the type number. */
  lemma BodyFits(t: nat, vs: seq<Val>)
    requires t < 256 && FitsAll(Format(t), vs)
    ensures BodyOk(BodyOf(t, vs))
  {
    if t == 126 {
      WStatFits(vs);
    } else if 100 <= t <= 108 && t != 106 {
      SetupFits(t, vs);
    } else if 110 <= t <= 115 {
      FileFits(t, vs);
    } else if 116 <= t <= 125 && t != 121 && t != 123 {
      TransferFits(t, vs);
    } else {
      assert Pow256(1) == 256;
    }
  }

  /** Type, tag and body of an unpacked message. */
  lemma DecodedParts(bs: Bytes)
    requires Decode(bs).Got?
    ensures |bs| >= 7
    ensures var t := UnLE(bs[4..][..1]);
      && DecAll(Format(t), bs[4..][3..]).Got?
      && Decode(bs).v == Fcall(UnLE(bs[4..][1..3]), BodyOf(t, DecAll(Format(t), bs[4..][3..]).v))
  {
    hide DecAll, Format, BodyOf, UnLE;
  }

  lemma CountsBounded(t: nat)
    ensures forall i :: 0 <= i < |Format(t)| && (Format(t)[i].Texts? || Format(t)[i].Qids?) ==> Format(t)[i].max < 65536
  {
  }

  /** Whatever bytes come in, a message that is unpacked from them is well-formed. */
  lemma DecodedOk(bs: Bytes)
    requires Decode(bs).Got?
    ensures Ok(Decode(bs).v)
  {
    hide Decode, DecAll, Format, BodyOf, BodyOk;
    DecodedParts(bs);
    var p := bs[4..];
    var t := UnLE(p[..1]);
    assert Pow256(1) == 256;
    CountsBounded(t);
    FieldsFit(Format(t), p[3..]);
    BodyFits(t, DecAll(Format(t), p[3..]).v);
  }

  /** A message survives packing and unpacking if and only if it is well-formed. */
  lemma RoundIff(f: Fcall, junk: nat, rest: Bytes)
    requires junk < 65536
    ensures Decode(Encode(f, junk) + rest) == Got(f, |Encode(f, junk)|) <==> Ok(f)
  {
    if Ok(f) {
      MessageRound(f, junk, rest);
    }
    if Decode(Encode(f, junk) + rest) == Got(f, |Encode(f, junk)|) {
      DecodedOk(Encode(f, junk) + rest);
    }
  }

  // ---- Sixteen names ----

  /** A Twalk of up to sixteen names comes through. */
  lemma NamesRound(tag: nat, fid: nat, newfid: nat, wname: seq<Bytes>, junk: nat, rest: Bytes)
    requires tag < 0x1_0000 && fid < 0x1_0000_0000 && newfid < 0x1_0000_0000 && |wname| <= 16 && junk < 65536
    requires forall i :: 0 <= i < |wname| ==> |wname[i]| < 0x1_0000 && 0 !in wname[i]
    ensures var f := Fcall(tag, TWalk(fid, newfid, wname));
      Ok(f) && Decode(Encode(f, junk) + rest) == Got(f, |Encode(f, junk)|)
  {
    assert Pow256(2) == 0x1_0000 && Pow256(4) == 0x1_0000_0000;
    MessageRound(Fcall(tag, TWalk(fid, newfid, wname)), junk, rest);
  }

  /** So does an Rwalk of up to sixteen qids. */
  lemma QidsReplyRound(tag: nat, wqid: seq<Qid>, junk: nat, rest: Bytes)
    requires tag < 0x1_0000 && |wqid| <= 16 && junk < 65536
    requires forall i :: 0 <= i < |wqid| ==>
      wqid[i].typ < 0x100 && wqid[i].version < 0x1_0000_0000 && wqid[i].path < 0x1_0000_0000_0000_0000
    ensures var f := Fcall(tag, RWalk(wqid));
      Ok(f) && Decode(Encode(f, junk) + rest) == Got(f, |Encode(f, junk)|)
  {
    assert Pow256(1) == 0x100 && Pow256(2) == 0x1_0000 && Pow256(4) == 0x1_0000_0000 && Pow256(8) == 0x1_0000_0000_0000_0000;
    MessageRound(Fcall(tag, RWalk(wqid)), junk, rest);
  }

  /** A first field that cannot be read spoils the message. */
  lemma FirstShort(ks: seq<Kind>, bs: Bytes)
    requires ks != [] && Dec(ks[0], bs).Short?
    ensures DecAll(ks, bs).Short?
  {
  }

  /** A fixed-width field in front of one that cannot be read. */
  lemma LaterShort(n: nat, ks: seq<Kind>, bs: Bytes)
    requires |bs| >= n && DecAll(ks, bs[n..]).Short?
    ensures DecAll([Int(n)] + ks, bs).Short?
  {
    assert ([Int(n)] + ks)[1..] == ks;
  }

  lemma MessageShort(bs: Bytes)
    requires |bs| >= 7 && DecAll(Format(bs[4]), bs[7..]).Short?
    ensures Decode(bs).Short?
  {
    hide DecAll, Format;
    assert bs[4..][..1] == [bs[4]] && bs[4..][3..] == bs[7..];
    assert UnLE([bs[4]]) == bs[4] + 256 * UnLE([bs[4]][1..]);
  }

  /** A Twalk that counts seventeen names or more, and an Rwalk that counts so many qids, is rejected. */
  lemma SeventeenRejected(bs: Bytes)
    requires || (|bs| >= 17 && bs[4] == 110 && U16(bs[15..]) >= 17)
             || (|bs| >= 9 && bs[4] == 111 && U16(bs[7..]) >= 17)
    ensures Decode(bs).Short?
  {
    hide DecAll, Decode;
    if bs[4] == 110 {
      var last := bs[15..];
      FirstShort([Texts(16)], last);
      assert bs[11..][4..] == last && bs[7..][4..] == bs[11..];
      LaterShort(4, [Texts(16)], bs[11..]);
      LaterShort(4, [Int(4)] + [Texts(16)], bs[7..]);
      assert Format(110) == [Int(4)] + ([Int(4)] + [Texts(16)]);
    } else {
      FirstShort([Qids(16)], bs[7..]);
    }
    MessageShort(bs);
  }
}
