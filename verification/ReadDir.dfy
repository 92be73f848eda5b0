/** Directory reads: ixp_srv_readdir packs as many whole stat records as fit. */
module ReadDir {
  import opened Basics
  import opened Wire
  import opened Messages
  import opened Convert
  import opened Codec

  /** One packed stat. */
  function Record(st: Stat): Bytes {
    EncAll(StatFormat(), StatVals(st))
  }

  function Records(sts: seq<Stat>): (rs: seq<Bytes>)
    ensures |rs| == |sts|
  {
    seq(|sts|, i requires 0 <= i < |sts| => Record(sts[i]))
  }

  function Concat(rs: seq<Bytes>): Bytes {
    if rs == [] then [] else rs[0] + Concat(rs[1..])
  }

  /** Its names are short enough for ixp_sizeof_stat's 16-bit result. */
  ghost predicate Sized(st: Stat) {
    StatLength(st) < 65536
  }

  /** Its names are short enough for their length fields. */
  ghost predicate Counted(st: Stat) {
    |st.name| < 65536 && |st.uid| < 65536 && |st.gid| < 65536 && |st.muid| < 65536
  }

  lemma AllLength(ks: seq<Kind>, vs: seq<Val>)
    requires |ks| == |vs| && ks != []
    ensures |EncAll(ks, vs)| == |Enc(ks[0], vs[0])| + |EncAll(ks[1..], vs[1..])|
  {
  }

  lemma {:induction false} StringsOf(ss: seq<Bytes>)
    requires forall i :: 0 <= i < |ss| ==> |ss[i]| < 65536
    ensures |EncAll(TextKinds(|ss|), TextVals(ss))| == Total(ss)
  {
    if ss != [] {
      assert TextKinds(|ss|)[1..] == TextKinds(|ss| - 1) && TextVals(ss)[1..] == TextVals(ss[1..]);
      StringsOf(ss[1..]);
      AllLength(TextKinds(|ss|), TextVals(ss));
    }
  }

  function TextKinds(n: nat): seq<Kind> {
    seq(n, i => Text)
  }

  function TextVals(ss: seq<Bytes>): (vs: seq<Val>)
    ensures |vs| == |ss|
  {
    seq(|ss|, i requires 0 <= i < |ss| => TextV(ss[i]))
  }

  /** The bytes of strings with their length words. */
  function Total(ss: seq<Bytes>): nat {
    if ss == [] then 0 else 2 + |ss[0]| + Total(ss[1..])
  }

  lemma TotalCons(s: Bytes, ss: seq<Bytes>)
    ensures Total([s] + ss) == 2 + |s| + Total(ss)
  {
    assert ([s] + ss)[1..] == ss;
  }

  lemma StringsLength(st: Stat)
    requires Counted(st)
    ensures |EncAll(StatFormat()[10..], StatVals(st)[10..])| == 8 + |st.name| + |st.uid| + |st.gid| + |st.muid|
  {
    hide EncAll;
    var ss := [st.name, st.uid, st.gid, st.muid];
    StringsOf(ss);
    assert StatFormat()[10..] == TextKinds(4) && StatVals(st)[10..] == TextVals(ss);
    TotalCons(st.name, [st.uid, st.gid, st.muid]);
    TotalCons(st.uid, [st.gid, st.muid]);
    TotalCons(st.gid, [st.muid]);
    TotalCons(st.muid, []);
    assert ss == [st.name] + [st.uid, st.gid, st.muid] && [st.uid, st.gid, st.muid] == [st.uid] + [st.gid, st.muid];
    assert [st.gid, st.muid] == [st.gid] + [st.muid] && [st.muid] == [st.muid] + [];
  }

  /** The number of bytes in fixed-width fields. */
  function Width(ks: seq<Kind>): nat {
    if ks == [] || !ks[0].Int? then 0 else ks[0].n + Width(ks[1..])
  }

  lemma {:induction false} IntsLength(ks: seq<Kind>, vs: seq<Val>, n: nat)
    requires |ks| == |vs| && n <= |ks|
    requires forall i :: 0 <= i < n ==> ks[i].Int? && vs[i].IntV?
    ensures |EncAll(ks, vs)| == Width(ks[..n]) + |EncAll(ks[n..], vs[n..])|
    decreases n
  {
    if n == 0 {
      assert ks[0..] == ks && vs[0..] == vs && ks[..0] == [];
    } else {
      IntsLength(ks[1..], vs[1..], n - 1);
      assert ks[1..][n - 1..] == ks[n..] && vs[1..][n - 1..] == vs[n..] && ks[..n][1..] == ks[1..][..n - 1];
      AllLength(ks, vs);
    }
  }

  lemma StatWidth()
    ensures Width(StatFormat()[..10]) == 41
  {
    var ks := StatFormat()[..10];
    assert ks == [Int(2), Int(2), Int(4), Int(1), Int(4), Int(8), Int(4), Int(4), Int(4), Int(8)];
    assert ks[1..] == [Int(2), Int(4), Int(1), Int(4), Int(8), Int(4), Int(4), Int(4), Int(8)];
    assert ks[2..] == [Int(4), Int(1), Int(4), Int(8), Int(4), Int(4), Int(4), Int(8)];
    assert ks[1..][1..] == ks[2..] && ks[2..][1..] == ks[3..] && ks[3..][1..] == ks[4..] && ks[4..][1..] == ks[5..];
    assert ks[5..][1..] == ks[6..] && ks[6..][1..] == ks[7..] && ks[7..][1..] == ks[8..] && ks[8..][1..] == ks[9..] && ks[9..][1..] == [];
    assert Width(ks[9..]) == 8 && Width(ks[8..]) == 12 && Width(ks[7..]) == 16 && Width(ks[6..]) == 20;
    assert Width(ks[5..]) == 28 && Width(ks[4..]) == 32 && Width(ks[3..]) == 33 && Width(ks[2..]) == 37 && Width(ks[1..]) == 39;
  }

  /** ixp_pstat writes 49 bytes and the names. */
  lemma RecordLength(st: Stat)
    requires Counted(st)
    ensures |Record(st)| == 49 + |st.name| + |st.uid| + |st.gid| + |st.muid|
  {
    hide EncAll, Width;
    StringsLength(st);
    StatWidth();
    IntsLength(StatFormat(), StatVals(st), 10);
  }

  /** ixp_sizeof_stat is the number of bytes ixp_pstat writes, exactly as long as that fits 16 bits. */
  lemma SizeofExact(st: Stat)
    requires Counted(st)
    ensures SizeofStat(st) == |Record(st)| <==> Sized(st)
    ensures Sized(st) <==> |st.name| + |st.uid| + |st.gid| + |st.muid| <= 65486
    ensures Sized(st) ==> |Record(st)| == StatLength(st)
  {
    RecordLength(st);
  }

  // ---- One read ----

  /** The reply to a read of `size` bytes at `off`, from record position `at` on. */
  function Dir(rs: seq<Bytes>, at: nat, off: nat, size: nat): Bytes {
    if rs == [] then []
    else if at < off then Dir(rs[1..], at + |rs[0]|, off, size)
    else if size < |rs[0]| then []
    else rs[0] + Dir(rs[1..], at + |rs[0]|, off, size - |rs[0]|)
  }

  /** ixp_srv_readdir on what lookup and dostat give for the directory; the first entry is the directory itself. */
  method Read(sts: seq<Stat>, count: nat, iounit: nat, off: nat) returns (data: Bytes)
    requires sts != [] && forall i :: 1 <= i < |sts| ==> Sized(sts[i])
    ensures data == Dir(Records(sts[1..]), 0, off, if count < iounit then count else iounit)
  {
    var size: nat := count;
    if size > iounit {
      size := iounit;
    }
    var buf := new byte[size];
    var msg := new Msg(buf, Pack);
    var at: nat, i := 0, 1;
    assert Records(sts[1..])[0..] == Records(sts[1..]);
    ghost var whole := Dir(Records(sts[1..]), 0, off, size);
    while i < |sts|
      invariant 1 <= i <= |sts| && msg.data == buf && fresh(msg) && fresh(buf)
      invariant SoFar(msg, Records(sts[1..]), i - 1, at, off, size, whole)
    {
      hide Dir, Record, SoFar;
      var n := SizeofStat(sts[i]);
      SizeofExact(sts[i]);
      var more;
      more, size := PackNext(msg, sts[i], n, at, off, size, Records(sts[1..]), i - 1, whole);
      if !more {
        break;
      }
      at := at + n;
      i := i + 1;
    }
    data := buf[..msg.pos];
  }

  /** The message holds the part of the reply before record k, which starts at position `at`. */
  ghost predicate SoFar(msg: Msg, rs: seq<Bytes>, k: nat, at: nat, off: nat, size: nat, whole: Bytes)
    reads msg, msg.data
  {
    && msg.Valid() && msg.mode.Pack? && msg.end == msg.data.Length && k <= |rs| && msg.pos + size == msg.end
    && whole == msg.data[..msg.pos] + Dir(rs[k..], at, off, size)
  }

  /** One turn of the loop: a record is skipped, packed, or ends the reply. */
  method PackNext(msg: Msg, st: Stat, n: nat, at: nat, off: nat, size: nat, ghost rs: seq<Bytes>, ghost k: nat, ghost whole: Bytes)
    returns (more: bool, left: nat)
    requires k < |rs| && rs[k] == Record(st) && n == |rs[k]| && SoFar(msg, rs, k, at, off, size, whole)
    modifies msg`pos, msg.data
    ensures more ==> SoFar(msg, rs, k + 1, at + n, off, left, whole)
    ensures !more ==> msg.Valid() && msg.pos <= msg.end && whole == msg.data[..msg.pos]
  {
    hide Dir, Record;
    DirStep(rs, k, at, off, size);
    left := size;
    if at >= off {
      if size < n {
        return false, size;
      }
      ghost var before, p := msg.data[..], msg.pos;
      Pack1(msg, st);
      Packed(before, p, msg.data[..], msg.pos, rs[k], Dir(rs[k + 1..], at + n, off, size - n));
      left := size - n;
    }
    more := true;
  }

  /** ixp_pstat where there is room for it. */
  method Pack1(msg: Msg, st: Stat)
    requires msg.Valid() && msg.mode.Pack? && msg.pos + |Record(st)| <= msg.end
    modifies msg`pos, msg.data
    ensures msg.Valid() && msg.pos == old(msg.pos) + |Record(st)|
    ensures Wrote(old(msg.data[..]), old(msg.pos), msg.data[..], msg.pos, msg.end, Record(st))
  {
    PackStat(msg, st);
  }

  lemma DirStep(rs: seq<Bytes>, i: nat, at: nat, off: nat, size: nat)
    requires i < |rs|
    ensures Dir(rs[i..], at, off, size) ==
      if at < off then Dir(rs[i + 1..], at + |rs[i]|, off, size)
      else if size < |rs[i]| then []
      else rs[i] + Dir(rs[i + 1..], at + |rs[i]|, off, size - |rs[i]|)
  {
    assert rs[i..][1..] == rs[i + 1..];
  }

  lemma Packed(d0: Bytes, p0: nat, d1: Bytes, p1: nat, r: Bytes, rest: Bytes)
    requires p0 + |r| <= |d0| && Wrote(d0, p0, d1, p1, |d0|, r)
    ensures d0[..p0] + (r + rest) == d1[..p1] + rest
  {
    assert d1[..p1] == d1[..p0] + d1[p0..p1];
    assert d1[..p0] == d0[..p0];
    assert d0[..p0] + (r + rest) == (d0[..p0] + r) + rest;
  }

  // ---- Reading the whole directory ----

  /** How many records from the front of rs fit in size bytes. */
  function Fit(rs: seq<Bytes>, size: nat): (k: nat)
    ensures k <= |rs|
  {
    if rs == [] || size < |rs[0]| then 0 else 1 + Fit(rs[1..], size - |rs[0]|)
  }

  /** From a record boundary on, a read gives the records that fit. */
  lemma {:induction false} DirFront(rs: seq<Bytes>, at: nat, off: nat, size: nat)
    requires off <= at
    ensures Dir(rs, at, off, size) == Concat(rs[..Fit(rs, size)])
    decreases |rs|
  {
    if rs != [] && |rs[0]| <= size {
      DirFront(rs[1..], at + |rs[0]|, off, size - |rs[0]|);
      assert rs[..Fit(rs, size)][1..] == rs[1..][..Fit(rs[1..], size - |rs[0]|)];
    }
  }

  /** Records are not empty. */
  ghost predicate Solid(rs: seq<Bytes>) {
    forall i :: 0 <= i < |rs| ==> rs[i] != []
  }

  /** A read at any offset starts with the first record that begins there or later, and takes as many as fit. */
  lemma {:induction false} DirExact(rs: seq<Bytes>, k: nat, at: nat, off: nat, size: nat)
    requires k <= |rs| && Solid(rs) && (k > 0 ==> at + |Concat(rs[..k - 1])| < off)
    requires k < |rs| ==> off <= at + |Concat(rs[..k])|
    ensures Dir(rs, at, off, size) == Concat(rs[k..][..Fit(rs[k..], size)])
    decreases |rs|
  {
    if k == 0 {
      assert rs[0..] == rs;
      if rs != [] { DirFront(rs, at, off, size); }
    } else {
      assert rs[..k][1..] == rs[1..][..k - 1] && rs[1..][k - 1..] == rs[k..];
      assert k > 1 ==> rs[..k - 1][1..] == rs[1..][..k - 2];
      DirExact(rs[1..], k - 1, at + |rs[0]|, off, size);
    }
  }

  lemma DirSkip(rs: seq<Bytes>, k: nat, at: nat, off: nat, size: nat)
    requires k <= |rs| && Solid(rs) && off == at + |Concat(rs[..k])|
    ensures Dir(rs, at, off, size) == Concat(rs[k..][..Fit(rs[k..], size)])
  {
    if k > 0 {
      ConcatSlices(rs, 0, k - 1, k);
      assert rs[0..k] == rs[..k] && rs[0..k - 1] == rs[..k - 1];
      assert rs[k - 1..k] == [rs[k - 1]] && Concat([rs[k - 1]]) == rs[k - 1] + Concat([]);
    }
    DirExact(rs, k, at, off, size);
  }

  /** As many records fit as have together no more bytes. */
  lemma {:induction false} FitExact(rs: seq<Bytes>, size: nat, n: nat)
    requires n <= |rs|
    ensures n <= Fit(rs, size) <==> |Concat(rs[..n])| <= size
    decreases |rs|
  {
    if n > 0 {
      assert rs[..n][1..] == rs[1..][..n - 1];
      if |rs[0]| <= size { FitExact(rs[1..], size - |rs[0]|, n - 1); }
    }
  }

  /** Successive reads of the given sizes, each where the one before ended. */
  function Reads(rs: seq<Bytes>, off: nat, sizes: seq<nat>): Bytes
    decreases |sizes|
  {
    if sizes == [] then []
    else
      var d := Dir(rs, 0, off, sizes[0]);
      d + Reads(rs, off + |d|, sizes[1..])
  }

  /** The record index after those reads, starting at record k. */
  function Reach(rs: seq<Bytes>, k: nat, sizes: seq<nat>): (j: nat)
    requires k <= |rs|
    ensures k <= j <= |rs|
    decreases |sizes|
  {
    if sizes == [] then k else Reach(rs, k + Fit(rs[k..], sizes[0]), sizes[1..])
  }

  lemma {:induction false} ConcatSplit(a: seq<Bytes>, b: seq<Bytes>)
    ensures Concat(a + b) == Concat(a) + Concat(b)
  {
    if a == [] {
      assert a + b == b;
    } else {
      assert (a + b)[1..] == a[1..] + b;
      ConcatSplit(a[1..], b);
      assert a[0] + (Concat(a[1..]) + Concat(b)) == (a[0] + Concat(a[1..])) + Concat(b);
    }
  }

  lemma ConcatSlices(rs: seq<Bytes>, i: nat, j: nat, k: nat)
    requires i <= j <= k <= |rs|
    ensures Concat(rs[i..k]) == Concat(rs[i..j]) + Concat(rs[j..k])
  {
    assert rs[i..k] == rs[i..j] + rs[j..k];
    ConcatSplit(rs[i..j], rs[j..k]);
  }

  lemma NextRead(rs: seq<Bytes>, k: nat, size: nat)
    requires Solid(rs) && k <= |rs|
    ensures var m := k + Fit(rs[k..], size);
      && Dir(rs, 0, |Concat(rs[..k])|, size) == Concat(rs[k..m])
      && |Concat(rs[..k])| + |Concat(rs[k..m])| == |Concat(rs[..m])|
  {
    hide Concat, Dir, Fit;
    var m := k + Fit(rs[k..], size);
    DirSkip(rs, k, 0, |Concat(rs[..k])|, size);
    assert rs[k..][..m - k] == rs[k..m];
    ConcatSlices(rs, 0, k, m);
    assert rs[0..m] == rs[..m] && rs[0..k] == rs[..k];
  }

  lemma ReadsCons(rs: seq<Bytes>, off: nat, sizes: seq<nat>, d: Bytes)
    requires sizes != [] && d == Dir(rs, 0, off, sizes[0])
    ensures Reads(rs, off, sizes) == d + Reads(rs, off + |d|, sizes[1..])
  {
    hide Dir;
  }

  lemma ReadsStep(rs: seq<Bytes>, k: nat, sizes: seq<nat>)
    requires Solid(rs) && k <= |rs| && sizes != []
    ensures var m := k + Fit(rs[k..], sizes[0]);
      Reads(rs, |Concat(rs[..k])|, sizes) == Concat(rs[k..m]) + Reads(rs, |Concat(rs[..m])|, sizes[1..])
  {
    hide *;
    NextRead(rs, k, sizes[0]);
    ReadsCons(rs, |Concat(rs[..k])|, sizes, Concat(rs[k..k + Fit(rs[k..], sizes[0])]));
  }

  lemma ReachCons(rs: seq<Bytes>, k: nat, sizes: seq<nat>)
    requires k <= |rs| && sizes != []
    ensures Reach(rs, k, sizes) == Reach(rs, k + Fit(rs[k..], sizes[0]), sizes[1..])
  {
    hide Fit;
  }

  lemma NoReads(rs: seq<Bytes>, k: nat)
    requires k <= |rs|
    ensures Reads(rs, |Concat(rs[..k])|, []) == Concat(rs[k..Reach(rs, k, [])])
  {
    assert rs[k..k] == [];
  }

  /** Whatever sizes are asked for, what comes is whole records, each once and in order. */
  lemma {:induction false} WholeRecords(rs: seq<Bytes>, k: nat, sizes: seq<nat>)
    requires Solid(rs) && k <= |rs|
    ensures Reads(rs, |Concat(rs[..k])|, sizes) == Concat(rs[k..Reach(rs, k, sizes)])
    decreases |sizes|
  {
    hide *;
    if sizes == [] {
      NoReads(rs, k);
    } else {
      var m := k + Fit(rs[k..], sizes[0]);
      ReadsStep(rs, k, sizes);
      ReachCons(rs, k, sizes);
      WholeRecords(rs, m, sizes[1..]);
      ConcatSlices(rs, k, m, Reach(rs, m, sizes[1..]));
    }
  }

  /** Reads get further exactly while the next record fits. */
  lemma FitProgress(rs: seq<Bytes>, size: nat)
    ensures Fit(rs, size) == 0 <==> rs == [] || size < |rs[0]|
  {
  }

  lemma {:induction false} ReachAll(rs: seq<Bytes>, k: nat, sizes: seq<nat>)
    requires k <= |rs| <= k + |sizes|
    requires forall i, j :: 0 <= i < |rs| && 0 <= j < |sizes| ==> |rs[i]| <= sizes[j]
    ensures Reach(rs, k, sizes) == |rs|
    decreases |sizes|
  {
    if sizes != [] {
      FitProgress(rs[k..], sizes[0]);
      ReachAll(rs, k + Fit(rs[k..], sizes[0]), sizes[1..]);
    }
  }

  lemma {:induction false} ReachBlocked(rs: seq<Bytes>, k: nat, sizes: seq<nat>, big: nat)
    requires k <= big < |rs| && forall j :: 0 <= j < |sizes| ==> sizes[j] < |rs[big]|
    ensures Reach(rs, k, sizes) <= big
    decreases |sizes|
  {
    if sizes != [] {
      FitBlocked(rs[k..], sizes[0], big - k);
      ReachBlocked(rs, k + Fit(rs[k..], sizes[0]), sizes[1..], big);
    }
  }

  lemma {:induction false} FitBlocked(rs: seq<Bytes>, size: nat, big: nat)
    requires big < |rs| && size < |rs[big]|
    ensures Fit(rs, size) <= big
    decreases |rs|
  {
    if big > 0 && |rs[0]| <= size {
      FitBlocked(rs[1..], size - |rs[0]|, big - 1);
    }
  }

  /** n reads of the same size. */
  function Same(size: nat, n: nat): (r: seq<nat>)
    ensures |r| == n && forall i :: 0 <= i < n ==> r[i] == size
  {
    seq(n, i => size)
  }

  /**
   * Reading a directory from 0 with a fixed size, as often as it has entries, gives
   * every entry but the skipped first, once and in order, if and only if every
   * packed entry fits that size.
   */
  lemma WholeDirectoryIff(sts: seq<Stat>, size: nat)
    requires forall i :: 0 <= i < |sts| ==> Sized(sts[i])
    ensures Reads(Records(sts), 0, Same(size, |sts|)) == Concat(Records(sts))
      <==> forall i :: 0 <= i < |sts| ==> StatLength(sts[i]) <= size
  {
    hide Record, Dir, Reads, Reach, Fit, Same;
    var rs, sizes := Records(sts), Same(size, |sts|);
    forall i | 0 <= i < |sts| ensures |rs[i]| == StatLength(sts[i]) {
      SizeofExact(sts[i]);
    }
    WholeRecords(rs, 0, sizes);
    assert Concat(rs[..0]) == [];
    var j := Reach(rs, 0, sizes);
    assert rs[0..|rs|] == rs;
    if i :| 0 <= i < |sts| && StatLength(sts[i]) > size {
      ReachBlocked(rs, 0, sizes, i);
      ConcatSlices(rs, 0, j, |rs|);
      assert rs[j..|rs|] == [rs[j]] + rs[j + 1..];
      assert Concat(rs[j..|rs|]) == rs[j] + Concat(rs[j + 1..]);
    } else {
      ReachAll(rs, 0, sizes);
    }
  }

  // ---- Reading the stats back ----

  /** Unpacking stats one after the other until the bytes are used up. */
  function Stats(bs: Bytes): (r: Got<seq<Stat>>)
    decreases |bs|
  {
    if bs == [] then Got([], 0)
    else
      match DecStat(bs)
      case Short => Short
      case Got(st, n) =>
        if n == 0 then Short
        else
          match Stats(bs[n..])
          case Short => Short
          case Got(sts, m) => Got([st] + sts, n + m)
  }

  lemma StatRound(st: Stat, rest: Bytes)
    requires StatOk(st)
    ensures DecStat(Record(st) + rest) == Got(st, |Record(st)|)
  {
    StatFits(st);
    AllRound(StatFormat(), StatVals(st), rest);
    StatBack([], st);
    assert [] + StatVals(st) == StatVals(st);
  }

  lemma StatsCons(st: Stat, e: Bytes, more: Bytes)
    requires e != [] && DecStat(e + more) == Got(st, |e|)
    ensures Stats(e + more) == match Stats(more) case Short => Short case Got(sts, m) => Got([st] + sts, |e| + m)
  {
    assert (e + more)[|e|..] == more;
  }

  lemma RecordsCons(sts: seq<Stat>)
    requires sts != []
    ensures Concat(Records(sts)) == Record(sts[0]) + Concat(Records(sts[1..]))
  {
    assert Records(sts)[1..] == Records(sts[1..]);
  }

  /** Every stat is one the wire can carry. */
  ghost predicate AllOk(sts: seq<Stat>) {
    sts == [] || (StatOk(sts[0]) && AllOk(sts[1..]))
  }

  lemma NoStats()
    ensures Stats(Concat(Records([]))) == Got([], |Concat(Records([]))|)
  {
    assert Records([]) == [];
  }

  lemma {:induction false} EachOk(sts: seq<Stat>)
    requires forall i :: 0 <= i < |sts| ==> StatOk(sts[i])
    ensures AllOk(sts)
  {
    if sts != [] { EachOk(sts[1..]); }
  }

  /** Decoding a directory's bytes gives its stats. */
  lemma DirectoryRound(sts: seq<Stat>)
    requires forall i :: 0 <= i < |sts| ==> StatOk(sts[i])
    ensures Stats(Concat(Records(sts))) == Got(sts, |Concat(Records(sts))|)
  {
    hide *;
    EachOk(sts);
    RecordsRound(sts);
  }

  lemma {:induction false} RecordsRound(sts: seq<Stat>)
    requires AllOk(sts)
    ensures Stats(Concat(Records(sts))) == Got(sts, |Concat(Records(sts))|)
    decreases |sts|
  {
    hide Record, DecStat, Concat, Records, StatOk, Stats;
    if sts == [] {
      NoStats();
    } else {
      RecordsCons(sts);
      StatSolid(sts[0]);
      StatRound(sts[0], Concat(Records(sts[1..])));
      StatsCons(sts[0], Record(sts[0]), Concat(Records(sts[1..])));
      RecordsRound(sts[1..]);
      assert sts == [sts[0]] + sts[1..];
    }
  }

  lemma StatSolid(st: Stat)
    requires StatOk(st)
    ensures Record(st) != []
  {
    assert |Enc(StatFormat()[0], StatVals(st)[0])| == 2;
  }
}
