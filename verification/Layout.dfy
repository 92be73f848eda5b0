/**
 * The byte layout of the messages as section intro(5) of the Plan 9 manual lists
 * them, written out message by message, and the proof that what ixp_pfcall packs is
 * that layout. The codec's own tables of types and fields are not used in the layout.
 */
module Layout {
  import opened Wire
  import opened Messages

  function Num1(v: nat): Bytes { LE(v, 1) }
  function Num2(v: nat): Bytes { LE(v, 2) }
  function Num4(v: nat): Bytes { LE(v, 4) }
  function Num8(v: nat): Bytes { LE(v, 8) }

  /** Numbers are little-endian: the least significant byte comes first. */
  lemma LittleEndian(v: nat)
    ensures Num1(v) == [v % 0x100]
    ensures Num2(v) == [v % 0x100, v / 0x100 % 0x100]
    ensures Num4(v) == [v % 0x100, v / 0x100 % 0x100, v / 0x1_0000 % 0x100, v / 0x100_0000 % 0x100]
    ensures Num8(v) == Num4(v) + Num4(v / 0x1_0000_0000)
  {
    FirstByte(v, 0);
    FirstByte(v, 1);
    FirstByte(v / 0x100, 0);
    FourBytes(v, 0);
    FourBytes(v, 4);
  }

  lemma FirstByte(v: nat, n: nat)
    ensures LE(v, n + 1) == [v % 0x100] + LE(v / 0x100, n) && LE(v, 0) == []
  {
  }

  lemma FourBytes(v: nat, n: nat)
    ensures LE(v, n + 4) == [v % 0x100, v / 0x100 % 0x100, v / 0x1_0000 % 0x100, v / 0x100_0000 % 0x100] + LE(v / 0x1_0000_0000, n)
    ensures LE(v, 4) == [v % 0x100, v / 0x100 % 0x100, v / 0x1_0000 % 0x100, v / 0x100_0000 % 0x100]
  {
    hide LE;
    FirstByte(v, n + 3);
    FirstByte(v / 0x100, n + 2);
    FirstByte(v / 0x1_0000, n + 1);
    FirstByte(v / 0x100_0000, n);
    FirstByte(v, 3);
    FirstByte(v / 0x100, 2);
    FirstByte(v / 0x1_0000, 1);
    FirstByte(v / 0x100_0000, 0);
    FirstByte(v / 0x1_0000_0000, 0);
    assert v / 0x100 / 0x100 == v / 0x1_0000 && v / 0x1_0000 / 0x100 == v / 0x100_0000 && v / 0x100_0000 / 0x100 == v / 0x1_0000_0000;
  }

  /** A string: its length in two bytes, then its characters. */
  function Str(s: Bytes): Bytes { Num2(|s|) + s }

  function Strs(ss: seq<Bytes>): Bytes {
    if ss == [] then [] else Str(ss[0]) + Strs(ss[1..])
  }

  /** A qid: type, version and path. */
  function Qid13(q: Qid): Bytes { Num1(q.typ) + Num4(q.version) + Num8(q.path) }

  function Qids13(qs: seq<Qid>): Bytes {
    if qs == [] then [] else Qid13(qs[0]) + Qids13(qs[1..])
  }

  /** A machine-independent directory entry, stat(5); its size does not count the size field itself. */
  function Entry(st: Stat): Bytes {
    var size := 47 + |st.name| + |st.uid| + |st.gid| + |st.muid|;
    (Num2(size) + Num2(st.typ) + Num4(st.dev)) + Qid13(st.qid)
    + (Num4(st.mode) + Num4(st.atime) + Num4(st.mtime) + Num8(st.length))
    + (Str(st.name) + Str(st.uid) + Str(st.gid) + Str(st.muid))
  }

  /** The type number of a message and its parameters. */
  function Manual(b: Body, junk: nat): (nat, Bytes) {
    match b
    case TVersion(msize, version) => (100, Num4(msize) + Str(version))
    case RVersion(msize, version) => (101, Num4(msize) + Str(version))
    case TAuth(afid, uname, aname) => (102, Num4(afid) + Str(uname) + Str(aname))
    case RAuth(aqid) => (103, Qid13(aqid))
    case TAttach(fid, afid, uname, aname) => (104, Num4(fid) + Num4(afid) + Str(uname) + Str(aname))
    case RAttach(qid) => (105, Qid13(qid))
    case RError(ename) => (107, Str(ename))
    case TFlush(oldtag) => (108, Num2(oldtag))
    case TWalk(fid, newfid, wname) => (110, Num4(fid) + Num4(newfid) + (Num2(|wname|) + Strs(wname)))
    case RWalk(wqid) => (111, Num2(|wqid|) + Qids13(wqid))
    case TOpen(fid, mode) => (112, Num4(fid) + Num1(mode))
    case ROpen(qid, iounit) => (113, Qid13(qid) + Num4(iounit))
    case TCreate(fid, name, perm, mode) => (114, Num4(fid) + Str(name) + Num4(perm) + Num1(mode))
    case RCreate(qid, iounit) => (115, Qid13(qid) + Num4(iounit))
    case TRead(fid, offset, count) => (116, Num4(fid) + Num8(offset) + Num4(count))
    case RRead(data) => (117, Num4(|data|) + data)
    case TWrite(fid, offset, data) => (118, Num4(fid) + Num8(offset) + (Num4(|data|) + data))
    case RWrite(count) => (119, Num4(count))
    case TClunk(fid) => (120, Num4(fid))
    case TRemove(fid) => (122, Num4(fid))
    case TStat(fid) => (124, Num4(fid))
    case RStat(stat) => (125, Num2(|stat|) + stat)
    case TWStat(fid, st) => (126, Num4(fid) + Num2(junk) + Entry(st))
    case Bare(typ) => (typ, [])
  }

  // ---- Lists of fields, spelled out ----

  lemma {:induction false} EncAllAppend(ks: seq<Kind>, vs: seq<Val>, ks': seq<Kind>, vs': seq<Val>)
    requires |ks| == |vs| && |ks'| == |vs'|
    ensures EncAll(ks + ks', vs + vs') == EncAll(ks, vs) + EncAll(ks', vs')
    decreases |ks|
  {
    if ks == [] {
      assert ks + ks' == ks' && vs + vs' == vs';
    } else {
      assert (ks + ks')[1..] == ks[1..] + ks' && (vs + vs')[1..] == vs[1..] + vs';
      EncAllAppend(ks[1..], vs[1..], ks', vs');
      assert Enc(ks[0], vs[0]) + (EncAll(ks[1..], vs[1..]) + EncAll(ks', vs')) ==
        (Enc(ks[0], vs[0]) + EncAll(ks[1..], vs[1..])) + EncAll(ks', vs');
    }
  }

  lemma Enc1(k: Kind, v: Val)
    ensures EncAll([k], [v]) == Enc(k, v)
  {
    assert [k][1..] == [] && [v][1..] == [];
  }

  lemma Enc2(k: Kind, v: Val, k2: Kind, v2: Val)
    ensures EncAll([k, k2], [v, v2]) == Enc(k, v) + Enc(k2, v2)
  {
    hide EncAll, Enc;
    assert [k, k2] == [k] + [k2] && [v, v2] == [v] + [v2];
    EncAllAppend([k], [v], [k2], [v2]);
    Enc1(k, v);
    Enc1(k2, v2);
  }

  lemma Enc3(k: Kind, v: Val, k2: Kind, v2: Val, k3: Kind, v3: Val)
    ensures EncAll([k, k2, k3], [v, v2, v3]) == Enc(k, v) + Enc(k2, v2) + Enc(k3, v3)
  {
    hide EncAll, Enc;
    assert [k, k2, k3] == [k, k2] + [k3] && [v, v2, v3] == [v, v2] + [v3];
    EncAllAppend([k, k2], [v, v2], [k3], [v3]);
    Enc2(k, v, k2, v2);
    Enc1(k3, v3);
  }

  lemma Enc4(k: Kind, v: Val, k2: Kind, v2: Val, k3: Kind, v3: Val, k4: Kind, v4: Val)
    ensures EncAll([k, k2, k3, k4], [v, v2, v3, v4]) == Enc(k, v) + Enc(k2, v2) + Enc(k3, v3) + Enc(k4, v4)
  {
    hide EncAll, Enc;
    assert [k, k2, k3, k4] == [k, k2, k3] + [k4] && [v, v2, v3, v4] == [v, v2, v3] + [v4];
    EncAllAppend([k, k2, k3], [v, v2, v3], [k4], [v4]);
    Enc3(k, v, k2, v2, k3, v3);
    Enc1(k4, v4);
  }

  lemma Text(s: Bytes)
    requires FitsText(s)
    ensures Enc(Kind.Text, TextV(s)) == Str(s)
  {
    assert s[..|s|] == s;
  }

  lemma {:induction false} StrsAreTexts(ss: seq<Bytes>)
    requires forall i :: 0 <= i < |ss| ==> FitsText(ss[i])
    ensures EncTexts(ss) == Strs(ss)
  {
    if ss != [] {
      Text(ss[0]);
      StrsAreTexts(ss[1..]);
    }
  }

  lemma {:induction false} QidsAre(qs: seq<Qid>)
    ensures EncQids(qs) == Qids13(qs)
  {
    if qs != [] {
      QidsAre(qs[1..]);
    }
  }

  // ---- Message by message ----

  /** What the codec's tables give for a body is what the manual says. */
  ghost predicate AsListed(b: Body, junk: nat) {
    && TypeOf(b) == Manual(b, junk).0 && |Format(TypeOf(b))| == |Vals(b, junk)|
    && EncAll(Format(TypeOf(b)), Vals(b, junk)) == Manual(b, junk).1
  }

  predicate OneNumber(b: Body) {
    b.TFlush? || b.RWrite? || b.TClunk? || b.TRemove? || b.TStat?
  }

  lemma NumberListed(b: Body, junk: nat)
    requires BodyOk(b) && OneNumber(b)
    ensures AsListed(b, junk)
  {
    hide EncAll, Pow256, FitsText, FitsQid;
    Enc1(Format(TypeOf(b))[0], Vals(b, junk)[0]);
  }

  predicate OneField(b: Body) {
    b.RError? || b.RWalk? || b.RRead? || b.RStat? || b.Bare?
  }

  lemma OneListed(b: Body, junk: nat)
    requires BodyOk(b) && OneField(b)
    ensures AsListed(b, junk)
  {
    hide EncAll, Pow256;
    if b.Bare? {
      NoFields();
    } else {
      Enc1(Format(TypeOf(b))[0], Vals(b, junk)[0]);
      if b.RError? { Text(b.ename); }
      if b.RWalk? { QidsAre(b.wqid); }
    }
  }

  lemma NoFields()
    ensures EncAll([], []) == []
  {
  }

  predicate TwoFields(b: Body) {
    b.TVersion? || b.RVersion? || b.TOpen?
  }

  lemma TwoListed(b: Body, junk: nat)
    requires BodyOk(b) && TwoFields(b)
    ensures AsListed(b, junk)
  {
    hide EncAll, Pow256;
    var ks, vs := Format(TypeOf(b)), Vals(b, junk);
    Enc2(ks[0], vs[0], ks[1], vs[1]);
    if !b.TOpen? { Text(b.version); }
  }

  predicate ThreeFields(b: Body) {
    b.TAuth? || b.RAuth? || b.RAttach? || b.TWalk? || b.TRead? || b.TWrite?
  }

  lemma ThreeListed(b: Body, junk: nat)
    requires BodyOk(b) && ThreeFields(b)
    ensures AsListed(b, junk)
  {
    hide EncAll, Pow256;
    var ks, vs := Format(TypeOf(b)), Vals(b, junk);
    Enc3(ks[0], vs[0], ks[1], vs[1], ks[2], vs[2]);
    if b.TAuth? {
      Text(b.uname);
      Text(b.aname);
    }
    if b.TWalk? { StrsAreTexts(b.wname); }
  }

  lemma FourListed(b: Body, junk: nat)
    requires BodyOk(b) && (b.TAttach? || b.ROpen? || b.RCreate? || b.TCreate?)
    ensures AsListed(b, junk)
  {
    hide EncAll, Pow256;
    var ks, vs := Format(TypeOf(b)), Vals(b, junk);
    Enc4(ks[0], vs[0], ks[1], vs[1], ks[2], vs[2], ks[3], vs[3]);
    assert ks == [ks[0], ks[1], ks[2], ks[3]] && vs == [vs[0], vs[1], vs[2], vs[3]];
    if b.TAttach? {
      Text(b.uname);
      Text(b.aname);
    }
    if b.TCreate? { Text(b.name); }
  }

  /** Two bytes hold a number up to a multiple of 65536. */
  lemma SizeWord(v: nat)
    ensures LE(v % 65536, 2) == LE(v, 2)
  {
    assert v % 65536 % 256 == v % 256 && v % 65536 / 256 % 256 == v / 256 % 256;
  }

  /** A stat's fields, in four groups. */
  function StatParts(st: Stat): (seq<Val>, seq<Val>, seq<Val>, seq<Val>) {
    ([IntV((47 + |st.name| + |st.uid| + |st.gid| + |st.muid|) % 65536), IntV(st.typ), IntV(st.dev)],
     QidVals(st.qid),
     [IntV(st.mode), IntV(st.atime), IntV(st.mtime), IntV(st.length)],
     [TextV(st.name), TextV(st.uid), TextV(st.gid), TextV(st.muid)])
  }

  lemma StatGroups(st: Stat)
    ensures StatFormat() == [Int(2), Int(2), Int(4)] + QidFormat() + [Int(4), Int(4), Int(4), Int(8)] + [Kind.Text, Kind.Text, Kind.Text, Kind.Text]
    ensures var (v1, v2, v3, v4) := StatParts(st); StatVals(st) == v1 + v2 + v3 + v4
  {
    assert (SizeofStat(st) + 65534) % 65536 == (47 + |st.name| + |st.uid| + |st.gid| + |st.muid|) % 65536;
  }

  lemma NumbersListed(st: Stat)
    ensures var (v1, v2, v3, _) := StatParts(st);
      && EncAll([Int(2), Int(2), Int(4)], v1) ==
           Num2(47 + |st.name| + |st.uid| + |st.gid| + |st.muid|) + Num2(st.typ) + Num4(st.dev)
      && EncAll(QidFormat(), v2) == Qid13(st.qid)
      && EncAll([Int(4), Int(4), Int(4), Int(8)], v3) == Num4(st.mode) + Num4(st.atime) + Num4(st.mtime) + Num8(st.length)
  {
    hide EncAll, LE;
    var (v1, v2, v3, _) := StatParts(st);
    SizeWord(47 + |st.name| + |st.uid| + |st.gid| + |st.muid|);
    Enc3(Int(2), v1[0], Int(2), v1[1], Int(4), v1[2]);
    Enc3(Int(1), v2[0], Int(4), v2[1], Int(8), v2[2]);
    Enc4(Int(4), v3[0], Int(4), v3[1], Int(4), v3[2], Int(8), v3[3]);
  }

  lemma TextsListed(st: Stat)
    requires StatOk(st)
    ensures EncAll([Kind.Text, Kind.Text, Kind.Text, Kind.Text], StatParts(st).3) == Str(st.name) + Str(st.uid) + Str(st.gid) + Str(st.muid)
  {
    hide EncAll, Enc, Str, FitsText, FitsQid;
    Enc4(Kind.Text, TextV(st.name), Kind.Text, TextV(st.uid), Kind.Text, TextV(st.gid), Kind.Text, TextV(st.muid));
    Text(st.name);
    Text(st.uid);
    Text(st.gid);
    Text(st.muid);
  }

  lemma EntryListed(st: Stat)
    requires StatOk(st)
    ensures EncAll(StatFormat(), StatVals(st)) == Entry(st)
  {
    hide EncAll, LE, Str, FitsText, FitsQid, Qid13;
    var k1, k2, k3, k4 := [Int(2), Int(2), Int(4)], QidFormat(), [Int(4), Int(4), Int(4), Int(8)], [Kind.Text, Kind.Text, Kind.Text, Kind.Text];
    var (v1, v2, v3, v4) := StatParts(st);
    StatGroups(st);
    NumbersListed(st);
    TextsListed(st);
    EncAllAppend(k1 + k2 + k3, v1 + v2 + v3, k4, v4);
    EncAllAppend(k1 + k2, v1 + v2, k3, v3);
    EncAllAppend(k1, v1, k2, v2);
  }

  lemma WStatListed(f: nat, st: Stat, junk: nat)
    requires BodyOk(TWStat(f, st))
    ensures AsListed(TWStat(f, st), junk)
  {
    hide EncAll, Pow256, Entry;
    EncAllAppend([Int(4), Int(2)], [IntV(f), IntV(junk)], StatFormat(), StatVals(st));
    Enc2(Int(4), IntV(f), Int(2), IntV(junk));
    EntryListed(st);
  }

  lemma BodyListed(b: Body, junk: nat)
    requires BodyOk(b)
    ensures AsListed(b, junk)
  {
    hide AsListed, BodyOk;
    if OneNumber(b) {
      NumberListed(b, junk);
    } else if OneField(b) {
      OneListed(b, junk);
    } else if TwoFields(b) {
      TwoListed(b, junk);
    } else if ThreeFields(b) {
      ThreeListed(b, junk);
    } else if b.TWStat? {
      WStatListed(b.fid, b.st, junk);
    } else {
      FourListed(b, junk);
    }
  }

  /** Every packed message: size, type, tag and parameters exactly as the manual lists them. */
  lemma EncodesManual(f: Fcall, junk: nat)
    requires Ok(f)
    ensures var (typ, params) := Manual(f.body, junk);
      Encode(f, junk) == Num4(7 + |params|) + (Num1(typ) + Num2(f.tag) + params)
  {
    hide Manual, BodyOk, EncAll, Format, Vals;
    BodyListed(f.body, junk);
  }
}
