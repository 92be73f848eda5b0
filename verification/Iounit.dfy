/**
 * The granted iounit and the wire: as long as no new Tversion comes, every Twrite
 * and Rread of at most iounit bytes packs into the negotiated message size.
 */
module Iounit {
  import opened Basics
  import opened Server
  import opened ServerInvariant
  import opened ServerFlush
  import opened ServerRuns
  import W = Wire
  import M = Messages

  // ---- Message lengths ----

  lemma WriteFields(f: nat, o: nat, d: W.Bytes)
    ensures W.EncAll([W.Int(4), W.Int(8), W.Blob(4)], [W.IntV(f), W.IntV(o), W.BlobV(d)]) ==
      W.LE(f, 4) + (W.LE(o, 8) + (W.LE(|d|, 4) + d))
  {
    var ks, vs := [W.Int(4), W.Int(8), W.Blob(4)], [W.IntV(f), W.IntV(o), W.BlobV(d)];
    assert ks[1..] == [W.Int(8), W.Blob(4)] && vs[1..] == [W.IntV(o), W.BlobV(d)];
    assert ks[1..][1..] == [W.Blob(4)] && vs[1..][1..] == [W.BlobV(d)];
    assert ks[1..][1..][1..] == [] && vs[1..][1..][1..] == [];
    assert W.EncAll([W.Blob(4)], [W.BlobV(d)]) == W.LE(|d|, 4) + d;
  }

  /** A Twrite's header takes 23 bytes. */
  lemma WriteLength(tag: nat, fid: nat, offset: nat, d: W.Bytes, junk: nat)
    ensures |M.Encode(M.Fcall(tag, M.TWrite(fid, offset, d)), junk)| == 23 + |d|
  {
    WriteFields(fid, offset, d);
  }

  /** An Rread's header takes 11 bytes. */
  lemma ReadLength(tag: nat, d: W.Bytes, junk: nat)
    ensures |M.Encode(M.Fcall(tag, M.RRead(d)), junk)| == 11 + |d|
  {
    assert [W.Blob(4)][1..] == [] && [W.BlobV(d)][1..] == [];
    assert W.EncAll([W.Blob(4)], [W.BlobV(d)]) == W.LE(|d|, 4) + d;
  }

  // ---- The client's side ----

  /** initfid: the iounit of a client fid, from the reply and the negotiated message size. */
  function InitFid(granted: nat, msize: nat): nat
    requires msize >= 24
  {
    if granted == 0 || granted > msize - 24 then msize - 24 else granted
  }

  /** Whatever a server grants, the client's iounit leaves room for a header and is the grant where there is room. */
  lemma InitFidExact(granted: nat, msize: nat)
    requires msize >= 24
    ensures InitFid(granted, msize) + 24 <= msize && (msize > 24 ==> InitFid(granted, msize) > 0)
    ensures 0 < granted <= msize - 24 ==> InitFid(granted, msize) == granted
    ensures granted == 0 || granted + 24 > msize ==> InitFid(granted, msize) + 24 == msize
  {
  }

  /**
   * A fid opened at any point of any run gets an iounit of at least 1; a Twrite or an
   * Rread of at most that many bytes then fits both of the server's message buffers,
   * at any later point up to the next Tversion.
   */
  lemma IounitFits(srv: Handlers, es: seq<Event>, c: Conn, id: nat, a: Answer, d: Conn, more: seq<Event>, z: Conn,
                   fid: nat, offset: nat, data: W.Bytes, tag: nat, junk: nat)
    requires Run(Initial(srv), es, c) && Enabled(c, Answered(id, a)) && c.wired
    requires (c.live[id].msg.Open? || c.live[id].msg.Create?) && a.error.None? && Respond(c, id, a, {}) == Some(d)
    requires Run(d, more, z) && forall i :: 0 <= i < |more| ==> !Renegotiates(more[i])
    ensures d.out[|c.out|..] == [Sent(id, c.live[id].tag, ROpen(a.qid, c.rsize - 24))] && c.rsize >= 25
    ensures var iounit := InitFid(c.rsize - 24, c.rsize);
      && iounit == c.rsize - 24 >= 1
      && (|data| <= iounit ==>
           && |M.Encode(M.Fcall(tag, M.TWrite(fid, offset, data)), junk)| <= z.rsize
           && |M.Encode(M.Fcall(tag, M.RRead(data)), junk)| <= z.wsize)
  {
    hide Respond, Inv, M.Encode, Apply;
    GrantExact(srv, es, c, id, a, d);
    InitialInv(srv);
    RunInv(Initial(srv), es, c);
    RunCalm(Initial(srv), es, c);
    RespondCalm(c, id, a, {});
    AnsweredIs(c, id, a);
    ApplyInv(c, Answered(id, a));
    RunCalm(d, more, z);
    WriteLength(tag, fid, offset, data, junk);
    ReadLength(tag, data, junk);
  }

  lemma AnsweredIs(c: Conn, id: nat, a: Answer)
    requires id in c.live
    ensures Apply(c, Answered(id, a)) == Respond(c, id, a, {})
  {
  }
}
