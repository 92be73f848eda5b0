/**
 * The client's read and write loops, which split a transfer by the fid's iounit,
 * against the server's in-memory file buffers.
 */
module ChunkedIO {
  import opened Basics

  type Data = seq<int>

  const WORD: nat := 0x1_0000_0000

  function Min(a: nat, b: nat): (m: nat)
    ensures m <= a && m <= b
  {
    if a < b then a else b
  }

  // ---- Reading ----

  /** ixp_srv_readbuf. */
  function ReadBuf(file: Data, offset: nat, count: nat): (d: Data)
    ensures |d| <= count
  {
    if offset >= |file| then [] else file[offset..offset + Min(count, |file| - offset)]
  }

  /** A read gives the file's bytes from the offset on: as many as are asked for, or all there are. */
  lemma ReadExact(file: Data, offset: nat, count: nat)
    ensures var d := ReadBuf(file, offset, count);
      && |d| == (if offset >= |file| then 0 else if count <= |file| - offset then count else |file| - offset)
      && forall i :: 0 <= i < |d| ==> d[i] == file[offset + i]
  {
  }

  /** Reading more is reading on. */
  lemma ReadSplit(file: Data, offset: nat, n: nat, m: nat)
    ensures ReadBuf(file, offset, n + m) == ReadBuf(file, offset, n) + ReadBuf(file, offset + |ReadBuf(file, offset, n)|, m)
  {
  }

  lemma ReadShort(file: Data, offset: nat, n: nat, m: nat)
    requires |ReadBuf(file, offset, n)| < n
    ensures ReadBuf(file, offset, n + m) == ReadBuf(file, offset, n)
  {
  }

  /** One turn of the read loop: a full chunk extends what was read, a short one completes it. */
  lemma ReadOn(file: Data, offset: nat, len: nat, n: nat, count: nat)
    requires len + n <= count && |ReadBuf(file, offset, len)| == len
    ensures var d := ReadBuf(file, offset + len, n);
      && ReadBuf(file, offset, len) + d == ReadBuf(file, offset, if |d| < n then count else len + n)
  {
    ReadSplit(file, offset, len, n);
    if |ReadBuf(file, offset + len, n)| < n {
      ReadShort(file, offset, len + n, count - (len + n));
    }
  }

  /** _pread: however small the iounit, the buffer gets what one unbounded read gives. */
  method PRead(file: Data, iounit: nat, buf: array<int>, count: nat, offset: nat) returns (len: nat)
    requires iounit > 0 && count <= buf.Length
    modifies buf
    ensures len == |ReadBuf(file, offset, count)| && buf[..len] == ReadBuf(file, offset, count)
    ensures forall i :: len <= i < buf.Length ==> buf[i] == old(buf[i])
  {
    assert ReadBuf(file, offset, 0) == [];
    hide ReadBuf;
    len := 0;
    var at := offset;
    while len < count
      invariant len <= count && at == offset + len
      invariant len == |ReadBuf(file, offset, len)| && buf[..len] == ReadBuf(file, offset, len)
      invariant forall i :: len <= i < buf.Length ==> buf[i] == old(buf[i])
    {
      var n := Min(count - len, iounit);
      var d := ReadBuf(file, at, n);
      ReadOn(file, offset, len, n, count);
      len := Put(buf, len, d);
      at := at + |d|;
      if |d| < n {
        break;
      }
    }
  }

  /** memcpy of a reply behind what is already there. */
  method Put(buf: array<int>, len: nat, d: Data) returns (len': nat)
    requires len + |d| <= buf.Length
    modifies buf
    ensures len' == len + |d| && buf[..len'] == old(buf[..len]) + d
    ensures forall i :: len' <= i < buf.Length ==> buf[i] == old(buf[i])
  {
    forall i | 0 <= i < |d| {
      buf[len + i] := d[i];
    }
    len' := len + |d|;
  }

  // When the read loop ends

  datatype Loop = Going(len: nat) | Ended(len: nat)

  /** The loop of _pread after k turns. */
  function Turns(file: Data, iounit: nat, count: nat, offset: nat, k: nat): (l: Loop)
    ensures l.len <= count
    decreases k
  {
    if k == 0 then Going(0)
    else
      var l := Turns(file, iounit, count, offset, k - 1);
      if l.Ended? then l
      else if l.len >= count then Ended(l.len)
      else
        var n := Min(count - l.len, iounit);
        var got := |ReadBuf(file, offset + l.len, n)|;
        if got < n then Ended(l.len + got) else Going(l.len + got)
  }

  lemma {:induction false} TurnsAdvance(file: Data, iounit: nat, count: nat, offset: nat, k: nat)
    ensures iounit > 0 ==> Turns(file, iounit, count, offset, k).Ended? || Turns(file, iounit, count, offset, k).len >= k
    ensures iounit == 0 && count > 0 ==> Turns(file, iounit, count, offset, k) == Going(0)
    decreases k
  {
    if k > 0 {
      TurnsAdvance(file, iounit, count, offset, k - 1);
    }
  }

  /** Reads come back if and only if the iounit is positive or nothing is asked for; a message size of 24 gives iounit 0. */
  lemma ReadEndsIff(file: Data, iounit: nat, count: nat, offset: nat)
    ensures (exists k: nat :: Turns(file, iounit, count, offset, k).Ended?) <==> iounit > 0 || count == 0
  {
    if iounit > 0 || count == 0 {
      TurnsAdvance(file, iounit, count, offset, count + 1);
      if count == 0 {
        assert Turns(file, iounit, count, offset, 1).Ended?;
      } else {
        assert Turns(file, iounit, count, offset, count + 1).Ended?;
      }
    } else {
      forall k: nat ensures !Turns(file, iounit, count, offset, k).Ended? {
        TurnsAdvance(file, iounit, count, offset, k);
      }
    }
  }

  // ---- Writing ----

  /** A file: whether it is append-only, and the bound on its length, 0 for none. */
  datatype Kind = Kind(append: bool, max: nat)

  /** Where the write goes. */
  function Start(k: Kind, file: Data, offset: nat): nat {
    if k.append then |file| else offset
  }

  /** How many bytes of a write at `start` a bounded file takes. */
  function Room(k: Kind, start: nat, n: nat): (r: nat)
    ensures r <= n
  {
    if k.max == 0 then n else if start >= k.max then 0 else Min(n, k.max - start)
  }

  /** Nothing happens: the offset does not fit 32 bits or lies past the end, there is no data, or the file would outgrow 32 bits. */
  predicate Ignored(k: Kind, file: Data, offset: nat, n: nat) {
    offset >= WORD || Start(k, file, offset) > |file| || n == 0
  }

  predicate TooBig(k: Kind, file: Data, offset: nat, n: nat) {
    k.max == 0 && Start(k, file, offset) + n > WORD - 2
  }

  /** ixp_srv_writebuf: the new contents, which end where the write ends, and the count. */
  function WriteBuf(k: Kind, file: Data, offset: nat, d: Data): (r: (Data, nat))
    ensures r.1 <= |d|
  {
    if Ignored(k, file, offset, |d|) || TooBig(k, file, offset, |d|) then (file, 0)
    else
      var start := Start(k, file, offset);
      var n := Room(k, start, |d|);
      (file[..start] + d[..n], n)
  }

  /** _pwrite: at least one request, then on while requests are taken in full. */
  function Chunked(k: Kind, file: Data, offset: nat, d: Data, iounit: nat): (r: (Data, nat))
    requires iounit > 0
    ensures r.1 <= |d|
    decreases |d|
  {
    var n := Min(|d|, iounit);
    var (file', m) := WriteBuf(k, file, offset, d[..n]);
    if m < n || n == |d| then (file', m)
    else
      var (file'', more) := Chunked(k, file', offset + n, d[n..], iounit);
      (file'', n + more)
  }

  /** The distance from the first to the last nonempty chunk of an n-byte transfer. */
  function LastChunk(n: nat, iounit: nat): nat
    requires iounit > 0
    decreases n
  {
    if n <= iounit then 0 else iounit + LastChunk(n - iounit, iounit)
  }

  /**
   * When splitting makes no difference: a write too big for 32 bits must already be
   * so with its first chunk, and otherwise the last chunk that is taken must still
   * have an offset below 2^32.
   */
  predicate SplitSafe(k: Kind, file: Data, offset: nat, n: nat, iounit: nat)
    requires iounit > 0
  {
    if Ignored(k, file, offset, n) then true
    else if TooBig(k, file, offset, n) then TooBig(k, file, offset, Min(n, iounit))
    else
      var taken := Room(k, Start(k, file, offset), n);
      taken == 0 || offset + LastChunk(taken, iounit) < WORD
  }

  lemma OneChunk(k: Kind, file: Data, offset: nat, d: Data, iounit: nat)
    requires iounit > 0 && |d| <= iounit
    ensures Chunked(k, file, offset, d, iounit) == WriteBuf(k, file, offset, d)
    ensures SplitSafe(k, file, offset, |d|, iounit)
  {
    assert d[..|d|] == d;
  }

  /** A first chunk that is not taken in full. */
  lemma FirstShort(k: Kind, file: Data, offset: nat, d: Data, iounit: nat)
    requires iounit > 0 && |d| > iounit && WriteBuf(k, file, offset, d[..iounit]).1 < iounit
    ensures WriteBuf(k, file, offset, d) == WriteBuf(k, file, offset, d[..iounit])
    ensures SplitSafe(k, file, offset, |d|, iounit)
  {
    var start := Start(k, file, offset);
    if !Ignored(k, file, offset, |d|) && !TooBig(k, file, offset, iounit) {
      var n := Room(k, start, iounit);
      assert Room(k, start, |d|) == n;
      assert d[..iounit][..n] == d[..n];
    }
  }

  /** A first chunk is taken in full, and is all the file takes. */
  lemma FullThenNone(k: Kind, file: Data, offset: nat, d: Data, iounit: nat)
    requires iounit > 0 && |d| > iounit && WriteBuf(k, file, offset, d[..iounit]).1 == iounit
    requires Room(k, Start(k, file, offset), |d|) == iounit
    ensures var file' := WriteBuf(k, file, offset, d[..iounit]).0;
      && WriteBuf(k, file, offset, d) == (file', iounit) && WriteBuf(k, file', offset + iounit, d[iounit..]) == (file', 0)
      && SplitSafe(k, file, offset, |d|, iounit) && SplitSafe(k, file', offset + iounit, |d| - iounit, iounit)
  {
    var start := Start(k, file, offset);
    var file' := WriteBuf(k, file, offset, d[..iounit]).0;
    assert d[..iounit][..iounit] == d[..iounit];
    assert Start(k, file', offset + iounit) == start + iounit == |file'|;
    assert Room(k, start + iounit, |d| - iounit) == 0;
    assert file'[..start + iounit] + d[iounit..][..0] == file';
  }

  lemma TakeSplit(d: Data, i: nat, n: nat)
    requires i <= n <= |d|
    ensures d[..n] == d[..i] + d[i..][..n - i]
  {
  }

  /** A first chunk is taken in full, and the file takes more. */
  lemma FullThenMore(k: Kind, file: Data, offset: nat, d: Data, iounit: nat)
    requires iounit > 0 && |d| > iounit && WriteBuf(k, file, offset, d[..iounit]).1 == iounit
    requires Room(k, Start(k, file, offset), |d|) > iounit && !TooBig(k, file, offset, |d|) && offset + iounit < WORD
    ensures var file' := WriteBuf(k, file, offset, d[..iounit]).0;
      var rest := WriteBuf(k, file', offset + iounit, d[iounit..]);
      && WriteBuf(k, file, offset, d) == (rest.0, iounit + rest.1)
      && (SplitSafe(k, file, offset, |d|, iounit) <==> SplitSafe(k, file', offset + iounit, |d| - iounit, iounit))
  {
    var start := Start(k, file, offset);
    var file' := WriteBuf(k, file, offset, d[..iounit]).0;
    var taken := Room(k, start, |d|);
    assert d[..iounit][..iounit] == d[..iounit];
    assert Start(k, file', offset + iounit) == start + iounit == |file'|;
    assert file'[..start + iounit] == file';
    assert Room(k, start + iounit, |d| - iounit) == taken - iounit;
    TakeSplit(d, iounit, taken);
    assert file[..start] + d[..taken] == file' + d[iounit..][..taken - iounit];
  }

  /** A first chunk is taken in full, but the next one's offset is past 32 bits. */
  lemma FullThenLost(k: Kind, file: Data, offset: nat, d: Data, iounit: nat)
    requires iounit > 0 && |d| > iounit && WriteBuf(k, file, offset, d[..iounit]).1 == iounit
    requires Room(k, Start(k, file, offset), |d|) > iounit && !TooBig(k, file, offset, |d|) && offset + iounit >= WORD
    ensures var file' := WriteBuf(k, file, offset, d[..iounit]).0;
      && WriteBuf(k, file, offset, d).1 > iounit && WriteBuf(k, file', offset + iounit, d[iounit..]).1 == 0
      && !SplitSafe(k, file, offset, |d|, iounit) && SplitSafe(k, file', offset + iounit, |d| - iounit, iounit)
  {
  }

  /** A first chunk is taken in full, though the whole is too big. */
  lemma FullButTooBig(k: Kind, file: Data, offset: nat, d: Data, iounit: nat)
    requires iounit > 0 && |d| > iounit && WriteBuf(k, file, offset, d[..iounit]).1 == iounit && TooBig(k, file, offset, |d|)
    ensures WriteBuf(k, file, offset, d).1 == 0 && !SplitSafe(k, file, offset, |d|, iounit)
  {
  }

  lemma FullRoom(k: Kind, file: Data, offset: nat, d: Data, iounit: nat)
    requires iounit > 0 && |d| > iounit && WriteBuf(k, file, offset, d[..iounit]).1 == iounit
    ensures Room(k, Start(k, file, offset), |d|) >= iounit
  {
  }

  lemma ChunkedFull(k: Kind, file: Data, offset: nat, d: Data, iounit: nat)
    requires iounit > 0 && |d| > iounit && WriteBuf(k, file, offset, d[..iounit]).1 == iounit
    ensures var rest := Chunked(k, WriteBuf(k, file, offset, d[..iounit]).0, offset + iounit, d[iounit..], iounit);
      Chunked(k, file, offset, d, iounit) == (rest.0, iounit + rest.1)
  {
    hide WriteBuf;
  }

  lemma ChunkedShort(k: Kind, file: Data, offset: nat, d: Data, iounit: nat)
    requires iounit > 0 && |d| > iounit && WriteBuf(k, file, offset, d[..iounit]).1 < iounit
    ensures Chunked(k, file, offset, d, iounit) == WriteBuf(k, file, offset, d[..iounit])
  {
    hide WriteBuf;
  }

  /** A chunked write is the one large write, in contents and count, if and only if the split is safe. */
  lemma {:induction false} ChunkedWriteIff(k: Kind, file: Data, offset: nat, d: Data, iounit: nat)
    requires iounit > 0
    ensures Chunked(k, file, offset, d, iounit) == WriteBuf(k, file, offset, d) <==> SplitSafe(k, file, offset, |d|, iounit)
    decreases |d|
  {
    hide *;
    if |d| <= iounit {
      OneChunk(k, file, offset, d, iounit);
    } else if WriteBuf(k, file, offset, d[..iounit]).1 < iounit {
      FirstShort(k, file, offset, d, iounit);
      ChunkedShort(k, file, offset, d, iounit);
    } else {
      ChunkedFull(k, file, offset, d, iounit);
      FullRoom(k, file, offset, d, iounit);
      ChunkedWriteIff(k, WriteBuf(k, file, offset, d[..iounit]).0, offset + iounit, d[iounit..], iounit);
      if TooBig(k, file, offset, |d|) {
        FullButTooBig(k, file, offset, d, iounit);
      } else if Room(k, Start(k, file, offset), |d|) == iounit {
        FullThenNone(k, file, offset, d, iounit);
      } else if offset + iounit < WORD {
        FullThenMore(k, file, offset, d, iounit);
      } else {
        FullThenLost(k, file, offset, d, iounit);
      }
    }
  }

  /**
   * One write, byte for byte. Nothing is taken at an offset past 32 bits or past the
   * end, from an empty write, or when a file without bound would pass 2^32 - 2 bytes;
   * otherwise as much as the bound leaves room for replaces everything from where the
   * write starts: the end of an append file, else the offset.
   */
  lemma WriteExact(k: Kind, file: Data, offset: nat, d: Data)
    ensures var (r, n) := WriteBuf(k, file, offset, d);
      var at := if k.append then |file| else offset;
      if offset >= 0x1_0000_0000 || at > |file| || d == [] || (k.max == 0 && at + |d| > 0xFFFF_FFFE) then
        r == file && n == 0
      else
        && n == (if k.max == 0 || at + |d| <= k.max then |d| else if at >= k.max then 0 else k.max - at)
        && |r| == at + n
        && (forall i :: 0 <= i < at ==> r[i] == file[i])
        && (forall i :: 0 <= i < n ==> r[at + i] == d[i])
  {
  }

  /** What was written is read back. */
  lemma ReadBack(k: Kind, file: Data, offset: nat, d: Data)
    requires WriteBuf(k, file, offset, d).1 == |d|
    ensures ReadBuf(WriteBuf(k, file, offset, d).0, if k.append then |file| else offset, |d|) == d
  {
    WriteExact(k, file, offset, d);
    var r := WriteBuf(k, file, offset, d).0;
    if d != [] { ReadExact(r, if k.append then |file| else offset, |d|); }
  }

  /** What one write leaves in a file without bound. */
  lemma UnboundedWrite(k: Kind, file: Data, offset: nat, d: Data)
    requires k.max == 0 && d != [] && offset < WORD && Start(k, file, offset) <= |file| && Start(k, file, offset) + |d| <= WORD - 2
    ensures WriteBuf(k, file, offset, d) == ((if k.append then file else file[..offset]) + d, |d|)
  {
    assert file[..|file|] == file && d[..|d|] == d;
  }

  /** The server's file. */
  class File {
    const kind: Kind
    var contents: Data

    constructor (kind: Kind, contents: Data)
      ensures this.kind == kind && this.contents == contents
    {
      this.kind, this.contents := kind, contents;
    }

    method Write(offset: nat, d: Data) returns (count: nat)
      modifies this
      ensures (contents, count) == WriteBuf(kind, old(contents), offset, d)
    {
      if offset > WORD - 1 {
        return 0;
      }
      var start := offset;
      if kind.append {
        start := |contents|;
      }
      if start > |contents| || |d| == 0 {
        return 0;
      }
      count := |d|;
      if kind.max != 0 && start >= kind.max {
        count := 0;
      } else if kind.max != 0 && count > kind.max - start {
        count := kind.max - start;
      } else if kind.max == 0 && start + count > WORD - 2 {
        return 0;
      }
      contents := contents[..start] + d[..count];
    }
  }

  /** _pwrite. */
  method PWrite(f: File, iounit: nat, d: Data, offset: nat) returns (len: nat)
    requires iounit > 0
    modifies f
    ensures (f.contents, len) == Chunked(f.kind, old(f.contents), offset, d, iounit)
    ensures SplitSafe(f.kind, old(f.contents), offset, |d|, iounit) ==>
      (f.contents, len) == WriteBuf(f.kind, old(f.contents), offset, d)
  {
    hide WriteBuf, SplitSafe, Chunked;
    ChunkedWriteIff(f.kind, f.contents, offset, d, iounit);
    ghost var whole := Chunked(f.kind, f.contents, offset, d, iounit);
    len := 0;
    var at := offset;
    assert d[0..] == d;
    while true
      invariant len <= |d| && at == offset + len
      invariant Behind(whole, len, Chunked(f.kind, f.contents, at, d[len..], iounit))
      decreases |d| - len
    {
      var n := Min(|d| - len, iounit);
      ChunkedTurn(f.kind, f.contents, at, d, len, iounit);
      var count := f.Write(at, d[len..len + n]);
      at := at + count;
      len := len + count;
      if count < n || len >= |d| {
        break;
      }
    }
  }

  /** A client's write, taken in full, and a client's read where it went give the data back, whatever the two iounits. */
  method WriteThenRead(f: File, wunit: nat, runit: nat, d: Data, offset: nat, buf: array<int>) returns (n: nat, len: nat)
    requires wunit > 0 && runit > 0 && |d| <= buf.Length && SplitSafe(f.kind, f.contents, offset, |d|, wunit)
    modifies f, buf
    ensures (f.contents, n) == WriteBuf(f.kind, old(f.contents), offset, d)
    ensures n == |d| ==> len == |d| && buf[..len] == d
  {
    ghost var before := f.contents;
    var at := offset;
    if f.kind.append {
      at := |f.contents|;
    }
    n := PWrite(f, wunit, d, offset);
    len := PRead(f.contents, runit, buf, |d|, at);
    if n == |d| { ReadBack(f.kind, before, offset, d); }
  }

  /** With len bytes written, r is still to come. */
  predicate Behind(whole: (Data, nat), len: nat, r: (Data, nat)) {
    whole == (r.0, len + r.1)
  }

  /** One turn of the write loop. */
  lemma ChunkedTurn(k: Kind, file: Data, at: nat, d: Data, len: nat, iounit: nat)
    requires iounit > 0 && len <= |d|
    ensures var n := Min(|d| - len, iounit);
      var w := WriteBuf(k, file, at, d[len..len + n]);
      && w.1 <= n
      && (w.1 < n || len + n == |d| ==> Chunked(k, file, at, d[len..], iounit) == w)
      && (w.1 == n && len + n < |d| ==> Behind(Chunked(k, file, at, d[len..], iounit), n, Chunked(k, w.0, at + n, d[len + n..], iounit)))
  {
    hide WriteBuf;
    var n := Min(|d| - len, iounit);
    assert d[len..][..n] == d[len..len + n] && d[len..][n..] == d[len + n..];
  }
}
