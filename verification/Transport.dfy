/**
 * transport.c: messages over a byte stream. A descriptor delivers and takes bytes
 * as the environment likes: some now, some later, with interrupts in between.
 */
module Transport {
  import opened Basics
  import opened Wire
  import opened Messages
  import opened Convert
  import opened Codec

  /** What the environment does to one read or write call. */
  datatype Event =
    | Intr             // interrupted: -1 with EINTR
    | Fail             // any other error
    | Upto(k: nat)     // at most k + 1 bytes are moved

  ghost predicate NoFail(script: seq<Event>) {
    forall i :: 0 <= i < |script| ==> !script[i].Fail?
  }

  function Min(a: nat, b: nat): nat {
    if a < b then a else b
  }

  /** A descriptor; when the script is used up, calls move all they can. */
  class Fd {
    var input: Bytes
    var output: Bytes
    var script: seq<Event>
    var interrupted: bool

    constructor (input: Bytes, script: seq<Event>)
      ensures this.input == input && this.script == script && output == []
    {
      this.input := input;
      this.script := script;
      output := [];
      interrupted := false;
    }

    /** read: r bytes go to msg's buffer at its position; 0 at the end of the stream. */
    method Read(msg: Msg, n: nat) returns (r: int)
      requires msg.Valid() && 0 < n && msg.pos + n <= msg.end
      modifies this`input, this`script, this`interrupted, msg.data
      ensures -1 <= r <= n && r <= |old(input)|
      ensures r >= 0 ==> input == old(input)[r..] && Filled(old(msg.data[..]), msg.data[..], msg.pos, old(input)[..r])
      ensures r == 0 ==> old(input) == []
      ensures r == -1 ==> input == old(input) && msg.data[..] == old(msg.data[..])
      ensures r == -1 ==> old(script) != [] && script == old(script)[1..] && (interrupted <==> old(script)[0].Intr?)
      ensures r == -1 && !interrupted ==> old(script)[0].Fail?
      ensures script == old(script) || (old(script) != [] && script == old(script)[1..])
    {
      var most := n;
      if script != [] {
        var event := script[0];
        script := script[1..];
        if !event.Upto? {
          interrupted := event.Intr?;
          return -1;
        }
        most := Min(n, event.k + 1);
      }
      var m := Min(most, |input|);
      forall i | 0 <= i < m {
        msg.data[msg.pos + i] := input[i];
      }
      input := input[m..];
      r := m;
    }

    /** write: r bytes are taken. */
    method Write(chunk: Bytes) returns (r: int)
      requires chunk != []
      modifies this`output, this`script, this`interrupted
      ensures r == -1 || 0 < r <= |chunk|
      ensures r > 0 ==> output == old(output) + chunk[..r]
      ensures r == -1 ==> output == old(output)
      ensures r == -1 ==> old(script) != [] && script == old(script)[1..] && (interrupted <==> old(script)[0].Intr?)
      ensures r == -1 && !interrupted ==> old(script)[0].Fail?
      ensures script == old(script) || (old(script) != [] && script == old(script)[1..])
    {
      var most := |chunk|;
      if script != [] {
        var event := script[0];
        script := script[1..];
        if !event.Upto? {
          interrupted := event.Intr?;
          return -1;
        }
        most := Min(most, event.k + 1);
      }
      output := output + chunk[..most];
      r := most;
    }
  }

  /** The bytes went in at p, and nothing else changed. */
  ghost predicate Filled(d0: Bytes, d1: Bytes, p: nat, bs: Bytes) {
    && |d1| == |d0| && p + |bs| <= |d0|
    && d1[p..p + |bs|] == bs
    && (forall i :: 0 <= i < |d0| && (i < p || p + |bs| <= i) ==> d1[i] == d0[i])
  }

  lemma FilledThen(d0: Bytes, d1: Bytes, d2: Bytes, p: nat, a: Bytes, b: Bytes)
    requires Filled(d0, d1, p, a) && Filled(d1, d2, p + |a|, b)
    ensures Filled(d0, d2, p, a + b)
  {
    assert d2[p..p + |a + b|] == d2[p..p + |a|] + d2[p + |a|..p + |a| + |b|];
    assert d2[p..p + |a|] == d1[p..p + |a|];
  }

  lemma TakeDrop(s: Bytes, n: nat, m: nat)
    requires n + m <= |s|
    ensures s[..n] + s[n..][..m] == s[..n + m] && s[n..][m..] == s[n + m..]
  {
  }

  /** After got bytes of s: they are in the buffer from p on, and the rest is still to come. */
  ghost predicate ReadSoFar(s: Bytes, d0: Bytes, d1: Bytes, p: nat, pos: nat, input: Bytes, got: nat) {
    got <= |s| && pos == p + got && input == s[got..] && Filled(d0, d1, p, s[..got])
  }

  lemma ReadMore(s: Bytes, d0: Bytes, p: nat, d1: Bytes, pos1: nat, in1: Bytes, got: nat, d2: Bytes, pos2: nat, in2: Bytes, r: nat)
    requires ReadSoFar(s, d0, d1, p, pos1, in1, got) && ReadSoFar(in1, d1, d2, pos1, pos2, in2, r)
    ensures ReadSoFar(s, d0, d2, p, pos2, in2, got + r)
  {
    FilledThen(d0, d1, d2, p, s[..got], s[got..][..r]);
    TakeDrop(s, got, r);
  }

  /** mread. */
  method MRead(fd: Fd, msg: Msg, count: nat) returns (r: int)
    requires msg.Valid() && 0 < count && msg.pos < msg.end
    modifies fd`input, fd`script, fd`interrupted, msg`pos, msg.data
    ensures msg.Valid() && -1 <= r <= count
    ensures r >= 0 ==> ReadSoFar(old(fd.input), old(msg.data[..]), msg.data[..], old(msg.pos), msg.pos, fd.input, r)
    ensures r == 0 ==> old(fd.input) == []
    ensures r == -1 ==> fd.input == old(fd.input) && msg.data[..] == old(msg.data[..]) && msg.pos == old(msg.pos)
    ensures r == -1 ==> old(fd.script) != [] && fd.script == old(fd.script)[1..] && (fd.interrupted <==> old(fd.script)[0].Intr?)
    ensures r == -1 && !fd.interrupted ==> old(fd.script)[0].Fail?
    ensures fd.script == old(fd.script) || (old(fd.script) != [] && fd.script == old(fd.script)[1..])
  {
    var n := msg.end - msg.pos;
    if n > count {
      n := count;
    }
    r := fd.Read(msg, n);
    if r > 0 {
      msg.pos := msg.pos + r;
    }
  }

  /** readn: retries interrupts, stops at the end of the stream or an error; how many bytes came. */
  method ReadN(fd: Fd, msg: Msg, count: nat) returns (n: nat)
    requires msg.Valid() && msg.pos + count <= msg.end
    modifies fd`input, fd`script, fd`interrupted, msg`pos, msg.data
    ensures msg.Valid() && n <= count
    ensures ReadSoFar(old(fd.input), old(msg.data[..]), msg.data[..], old(msg.pos), msg.pos, fd.input, n)
    ensures NoFail(old(fd.script)) ==> n == Min(count, |old(fd.input)|) && NoFail(fd.script)
  {
    ghost var s, d, p := fd.input, msg.data[..], msg.pos;
    assert ReadSoFar(s, d, d, p, p, s, 0);
    hide Filled;
    var num := count;
    while num > 0
      invariant msg.Valid() && 0 <= num <= count
      invariant ReadSoFar(s, d, msg.data[..], p, msg.pos, fd.input, count - num)
      invariant NoFail(old(fd.script)) ==> NoFail(fd.script)
      decreases num + |fd.script|
    {
      ghost var d1, p1, s1 := msg.data[..], msg.pos, fd.input;
      var r := MRead(fd, msg, num);
      if r == -1 && fd.interrupted {
        continue;
      }
      if r <= 0 {
        return count - num;
      }
      ReadMore(s, d, p, d1, p1, s1, count - num, msg.data[..], msg.pos, fd.input, r);
      num := num - r;
    }
    n := count - num;
  }

  lemma SentMore(before: Bytes, d: Bytes, pos: nat, end: nat, r: nat)
    requires pos + r <= end <= |d|
    ensures (before + d[..pos]) + d[pos..end][..r] == before + d[..pos + r]
  {
    assert d[..pos] + d[pos..end][..r] == d[..pos + r];
  }

  /** ixp_sendmsg: everything up to the end, or 0 after writing a prefix of it. */
  method SendMsg(fd: Fd, msg: Msg) returns (n: nat)
    requires msg.Valid()
    modifies fd`output, fd`script, fd`interrupted, msg`pos
    ensures msg.Valid() && msg.pos <= msg.end && fd.output == old(fd.output) + msg.data[..][..msg.pos]
    ensures n > 0 ==> n == msg.end == msg.pos
    ensures NoFail(old(fd.script)) ==> n == msg.end == msg.pos && NoFail(fd.script)
  {
    msg.pos := 0;
    ghost var before, d := fd.output, msg.data[..];
    while msg.pos < msg.end
      invariant msg.Valid() && msg.pos <= msg.end && fd.output == before + d[..msg.pos]
      invariant NoFail(old(fd.script)) ==> NoFail(fd.script)
      decreases msg.end - msg.pos + |fd.script|
    {
      var chunk := msg.data[msg.pos..msg.end];
      assert chunk == d[msg.pos..msg.end];
      var r := fd.Write(chunk);
      if r < 1 {
        if fd.interrupted {
          continue;
        }
        return 0;
      }
      SentMore(before, d, msg.pos, msg.end, r);
      msg.pos := msg.pos + r;
    }
    n := msg.pos;
  }

  // ---- Frames ----

  /** The length of the message at the front of the stream, if a buffer of the given size can take it. */
  function FirstFrame(s: Bytes, size: nat): (m: Option<nat>)
    ensures m.Some? ==> 4 <= m.value <= size && m.value <= |s|
  {
    if |s| < 4 then None
    else
      var m := UnLE(s[..4]);
      if m < 4 || m > size || |s| < m then None else Some(m)
  }

  /** A frame is there exactly when its little-endian length counts itself, fits the buffer, and has come in full. */
  lemma FrameExact(s: Bytes, size: nat, m: nat)
    ensures FirstFrame(s, size) == Some(m) <==>
      && 4 <= |s| && m == (s[0] as int) + 0x100 * s[1] as int + 0x1_0000 * s[2] as int + 0x100_0000 * s[3] as int
      && 4 <= m <= size && m <= |s|
  {
    if |s| >= 4 {
      assert UnLE([]) == 0;
      assert s[..4] == [s[0]] + [s[1], s[2], s[3]] && [s[1], s[2], s[3]] == [s[1]] + [s[2], s[3]] && [s[2], s[3]] == [s[2]] + [s[3]];
      assert UnLE([s[3]]) == s[3] as int;
      assert UnLE([s[2], s[3]]) == s[2] as int + 256 * s[3] as int;
      assert UnLE([s[1], s[2], s[3]]) == s[1] as int + 256 * UnLE([s[2], s[3]]);
      assert UnLE(s[..4]) == s[0] as int + 256 * UnLE([s[1], s[2], s[3]]);
    }
  }

  /** ixp_recvmsg: one whole message and nothing of the next one. */
  method RecvMsg(fd: Fd, msg: Msg) returns (n: nat)
    requires msg.Valid() && msg.size >= 4
    modifies fd`input, fd`script, fd`interrupted, msg`pos, msg`end, msg`mode, msg.data
    ensures msg.Valid()
    ensures n > 0 ==> FirstFrame(old(fd.input), msg.size) == Some(n)
    ensures n > 0 ==> msg.end == n && msg.data[..n] == old(fd.input)[..n] && fd.input == old(fd.input)[n..]
    ensures NoFail(old(fd.script)) ==> (n > 0 <==> FirstFrame(old(fd.input), msg.size).Some?) && NoFail(fd.script)
  {
    ghost var s, d0 := fd.input, msg.data[..];
    msg.mode := Unpack;
    msg.pos := 0;
    msg.end := msg.size;
    var got := ReadN(fd, msg, 4);
    if got != 4 {
      return 0;
    }
    ghost var d1 := msg.data[..];
    msg.pos := 0;
    var msize := msg.PUint(4, 0);
    assert Left(d1, 0, msg.size)[..4] == s[..4];
    if msize < 4 {
      return 0;
    }
    var size := msize - 4;
    if size > msg.end - msg.pos {
      return 0;
    }
    got := ReadN(fd, msg, size);
    if got != size {
      return 0;
    }
    TakeDrop(s, 4, size);
    FilledThen(d0, d1, msg.data[..], 0, s[..4], s[4..][..size]);
    msg.end := msg.pos;
    n := msize;
  }

  // ---- Runs of messages ----

  /** A message and the junk its packing left in it. */
  datatype Packed = Packed(f: Fcall, junk: nat)

  /** A well-formed message that fits a buffer of the given size. */
  ghost predicate Sendable(m: Packed, size: nat) {
    Ok(m.f) && m.junk < 65536 && |Encode(m.f, m.junk)| <= size && |Encode(m.f, m.junk)| < 0x1_0000_0000
  }

  ghost predicate AllSendable(ms: seq<Packed>, size: nat) {
    ms == [] || (Sendable(ms[0], size) && AllSendable(ms[1..], size))
  }

  /** Well-formed messages that fit the buffer and the length word. */
  lemma {:induction false} AllSendableIff(ms: seq<Packed>, size: nat)
    ensures AllSendable(ms, size) <==>
      forall i :: 0 <= i < |ms| ==>
        Ok(ms[i].f) && ms[i].junk < 0x1_0000 && |Encode(ms[i].f, ms[i].junk)| <= size && |Encode(ms[i].f, ms[i].junk)| < 0x1_0000_0000
  {
    hide Encode, Ok;
    if ms != [] {
      AllSendableIff(ms[1..], size);
      assert forall i :: 1 <= i < |ms| ==> ms[i] == ms[1..][i - 1];
    }
  }

  function Stream(ms: seq<Packed>): Bytes {
    if ms == [] then [] else Encode(ms[0].f, ms[0].junk) + Stream(ms[1..])
  }

  function Fcalls(ms: seq<Packed>): (fs: seq<Fcall>)
    ensures |fs| == |ms|
  {
    if ms == [] then [] else [ms[0].f] + Fcalls(ms[1..])
  }

  /** What one receive reads from a stream: the first frame, decoded. */
  function ReceivedOne(s: Bytes, size: nat): (r: Got<Fcall>)
    ensures r.Got? ==> r.n <= |s|
  {
    match FirstFrame(s, size)
    case None => Short
    case Some(m) => match Decode(s[..m]) case Short => Short case Got(f, _) => Got(f, m)
  }

  /** What k receives read from a stream. */
  function Received(s: Bytes, size: nat, k: nat): (r: Got<seq<Fcall>>)
    ensures r.Got? ==> r.n <= |s|
    decreases k
  {
    if k == 0 then Got([], 0)
    else
      match ReceivedOne(s, size)
      case Short => Short
      case Got(f, m) =>
        match Received(s[m..], size, k - 1)
        case Short => Short
        case Got(fs, n) => Got([f] + fs, m + n)
  }

  /** A packed message at the front of a stream is its first frame, and decodes to itself. */
  lemma FrameRound(m: Packed, size: nat, rest: Bytes)
    requires Sendable(m, size)
    ensures var e := Encode(m.f, m.junk);
      ReceivedOne(e + rest, size) == Got(m.f, |e|) && (e + rest)[|e|..] == rest
  {
    var e := Encode(m.f, m.junk);
    MessageRound(m.f, m.junk, []);
    assert e + [] == e;
    assert (e + rest)[..4] == LE(|e|, 4);
    assert Pow256(4) == 0x1_0000_0000;
    UnLERound(|e|, 4);
    assert (e + rest)[..|e|] == e;
  }

  /** Exactly the well-formed messages that fit the receiver's buffer get through. */
  lemma FrameIff(m: Packed, size: nat, rest: Bytes)
    requires m.junk < 65536 && |Encode(m.f, m.junk)| < 0x1_0000_0000
    ensures var e := Encode(m.f, m.junk);
      ReceivedOne(e + rest, size) == Got(m.f, |e|) <==> Ok(m.f) && |e| <= size
  {
    var e := Encode(m.f, m.junk);
    if Ok(m.f) && |e| <= size { FrameRound(m, size, rest); }
    if ReceivedOne(e + rest, size) == Got(m.f, |e|) { DecodedOk((e + rest)[..|e|]); }
  }

  lemma ReceivedFront(e: Bytes, more: Bytes, size: nat, k: nat, f: Fcall, fs: seq<Fcall>, n: nat)
    requires k > 0 && ReceivedOne(e + more, size) == Got(f, |e|) && Received(more, size, k - 1) == Got(fs, n)
    ensures Received(e + more, size, k) == Got([f] + fs, |e| + n)
  {
    assert (e + more)[|e|..] == more;
  }

  lemma StreamFront(ms: seq<Packed>, rest: Bytes)
    requires ms != []
    ensures Stream(ms) + rest == Encode(ms[0].f, ms[0].junk) + (Stream(ms[1..]) + rest)
  {
    Assoc(Encode(ms[0].f, ms[0].junk), Stream(ms[1..]), rest);
  }

  lemma Assoc(a: Bytes, b: Bytes, c: Bytes)
    ensures (a + b) + c == a + (b + c)
  {
  }

  lemma StreamTurn(ms: seq<Packed>, size: nat, rest: Bytes)
    requires ms != [] && Sendable(ms[0], size)
    requires Received(Stream(ms[1..]) + rest, size, |ms| - 1) == Got(Fcalls(ms[1..]), |Stream(ms[1..])|)
    ensures Received(Stream(ms) + rest, size, |ms|) == Got(Fcalls(ms), |Stream(ms)|)
  {
    var more := Stream(ms[1..]) + rest;
    FrameRound(ms[0], size, more);
    StreamFront(ms, rest);
    ReceivedFront(Encode(ms[0].f, ms[0].junk), more, size, |ms|, ms[0].f, Fcalls(ms[1..]), |Stream(ms[1..])|);
  }

  lemma NoStream(size: nat, rest: Bytes)
    ensures Received(Stream([]) + rest, size, 0) == Got(Fcalls([]), |Stream([])|)
  {
  }

  /** Receiving from a stream of packed messages gives exactly them, in order, and leaves what follows. */
  lemma {:induction false} StreamRound(ms: seq<Packed>, size: nat, rest: Bytes)
    requires AllSendable(ms, size)
    ensures Received(Stream(ms) + rest, size, |ms|) == Got(Fcalls(ms), |Stream(ms)|)
    decreases |ms|
  {
    hide Sendable, ReceivedOne, Received, Stream, Fcalls;
    if ms == [] {
      NoStream(size, rest);
    } else {
      StreamRound(ms[1..], size, rest);
      StreamTurn(ms, size, rest);
    }
  }

  /** The server's receive step: a message, then its fields. */
  method Receive(fd: Fd, msg: Msg) returns (ok: bool, f: Fcall)
    requires msg.Valid() && msg.size >= 4 && NoFail(fd.script)
    modifies fd`input, fd`script, fd`interrupted, msg`pos, msg`end, msg`mode, msg.data
    ensures msg.Valid() && NoFail(fd.script)
    ensures ok <==> ReceivedOne(old(fd.input), msg.size).Got?
    ensures ok ==> ReceivedOne(old(fd.input), msg.size).v == f
    ensures ok ==> fd.input == old(fd.input)[ReceivedOne(old(fd.input), msg.size).n..]
  {
    f := Fcall(0, Bare(0));
    var m := RecvMsg(fd, msg);
    if m == 0 {
      return false, f;
    }
    var n;
    n, f := Msg2Fcall(msg);
    ok := n != 0;
  }

  lemma ReceivedThen(s: Bytes, size: nat, k: nat)
    requires k > 0
    ensures ReceivedOne(s, size).Short? ==> Received(s, size, k).Short?
    ensures ReceivedOne(s, size).Got? ==>
      var g := ReceivedOne(s, size); var h := Received(s[g.n..], size, k - 1);
      && (h.Short? ==> Received(s, size, k).Short?)
      && (h.Got? ==> Received(s, size, k) == Got([g.v] + h.v, g.n + h.n) && s[g.n..][h.n..] == s[g.n + h.n..])
  {
  }

  /** k receives, one after the other. */
  method ReceiveAll(fd: Fd, msg: Msg, k: nat) returns (ok: bool, fs: seq<Fcall>)
    requires msg.Valid() && msg.size >= 4 && NoFail(fd.script)
    modifies fd`input, fd`script, fd`interrupted, msg`pos, msg`end, msg`mode, msg.data
    ensures msg.Valid() && NoFail(fd.script)
    ensures ok <==> Received(old(fd.input), msg.size, k).Got?
    ensures ok ==> fs == Received(old(fd.input), msg.size, k).v
    ensures ok ==> fd.input == old(fd.input)[Received(old(fd.input), msg.size, k).n..]
    decreases k
  {
    fs := [];
    if k == 0 {
      return true, fs;
    }
    hide ReceivedOne, Received;
    ReceivedThen(fd.input, msg.size, k);
    var f;
    ok, f := Receive(fd, msg);
    if ok {
      ok, fs := ReceiveAll(fd, msg, k - 1);
      fs := [f] + fs;
    }
  }

  /** Packing and sending one message. */
  method Send(fd: Fd, msg: Msg, m: Packed)
    requires msg.Valid() && NoFail(fd.script) && Sendable(m, msg.size)
    modifies fd`output, fd`script, fd`interrupted, msg`pos, msg`end, msg`mode, msg.data
    ensures msg.Valid() && NoFail(fd.script) && fd.output == old(fd.output) + Encode(m.f, m.junk)
  {
    OkTyped(m.f);
    var n := Fcall2Msg(msg, m.f, m.junk);
    assert msg.data[..][..n] == Encode(m.f, m.junk);
    n := SendMsg(fd, msg);
  }

  lemma StreamCons(before: Bytes, ms: seq<Packed>)
    requires ms != []
    ensures before + Encode(ms[0].f, ms[0].junk) + Stream(ms[1..]) == before + Stream(ms)
  {
    Assoc(before, Encode(ms[0].f, ms[0].junk), Stream(ms[1..]));
  }

  /** Packing and sending messages one after the other: the wire carries their encodings. */
  method SendAll(fd: Fd, msg: Msg, ms: seq<Packed>)
    requires msg.Valid() && NoFail(fd.script) && AllSendable(ms, msg.size)
    modifies fd`output, fd`script, fd`interrupted, msg`pos, msg`end, msg`mode, msg.data
    ensures msg.Valid() && NoFail(fd.script) && fd.output == old(fd.output) + Stream(ms)
    decreases |ms|
  {
    if ms == [] {
      assert fd.output == old(fd.output) + Stream(ms);
    } else {
      StreamCons(fd.output, ms);
      Send(fd, msg, ms[0]);
      SendAll(fd, msg, ms[1..]);
    }
  }

  /**
   * Both ends: whatever the two descriptors' scripts of short transfers and
   * interrupts, the receiver gets the sender's messages, and only them.
   */
  method Pipe(tx: Fd, txmsg: Msg, rx: Fd, rxmsg: Msg, ms: seq<Packed>, after: Bytes) returns (fs: seq<Fcall>)
    requires txmsg.Valid() && rxmsg.Valid() && rxmsg.size >= 4 && tx.output == []
    requires tx != rx && txmsg != rxmsg && txmsg.data != rxmsg.data
    requires NoFail(tx.script) && NoFail(rx.script)
    requires AllSendable(ms, txmsg.size) && AllSendable(ms, rxmsg.size)
    modifies tx, txmsg`pos, txmsg`end, txmsg`mode, txmsg.data, rx, rxmsg`pos, rxmsg`end, rxmsg`mode, rxmsg.data
    ensures fs == Fcalls(ms) && rx.input == after
  {
    SendAll(tx, txmsg, ms);
    rx.input := tx.output + after;
    assert tx.output == Stream(ms);
    StreamRound(ms, rxmsg.size, after);
    var ok;
    ok, fs := ReceiveAll(rx, rxmsg, |ms|);
    assert (Stream(ms) + after)[|Stream(ms)|..] == after;
  }
}
