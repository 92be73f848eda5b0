/**
 * What the server says on the wire: the reply to every request, whether it answers at
 * once or a handler does, and what the answer leaves in the fid table. The replies are
 * listed here independently of the server's functions.
 */
module ServerReplies {
  import opened Basics
  import opened Server
  import opened ServerInvariant
  import opened ServerRuns

  // ---- Requests the server answers itself ----

  /** A reply, errors by their strings. */
  datatype Word = Fine | Error(text: string)

  function WordOf(r: Reply): Word {
    if r.RError? then Error(Text(r.err)) else Fine
  }

  /** The complaint, if it applies, or else what comes after it. */
  function Or(applies: bool, text: string, then_: Option<Word>): Option<Word> {
    if applies then Some(Error(text)) else then_
  }

  /** The last complaint: the program has no handler. */
  function NoHandler(has: bool): Option<Word> {
    Or(!has, "function not implemented", None)
  }

  /** The reply to a request that is not left to a handler; None when it is. */
  function AtOnce(c: Conn, msg: Request): Option<Word>
    requires !msg.Version? && !msg.Flush?
  {
    if msg.Unknown? then Some(Error("function not implemented"))
    else if msg.Attach? then Or(msg.fid in c.fidmap, "fid in use", None)
    else if msg.fid !in c.fidmap then Some(Error("fid does not exist"))
    else
      var f := c.fidmap[msg.fid];
      match msg
      case Clunk(_) => if c.srv.clunk then None else Some(Fine)
      case Remove(_) => NoHandler(c.srv.remove)
      case Stat(_) => NoHandler(c.srv.stat)
      case Create(_, _) => Or(f.omode != -1, "fid is already open", Or(!f.qid.dir, "not a directory", NoHandler(c.srv.create)))
      case Open(_, mode) =>
        Or(f.qid.dir && mode != 0 && mode != 0x40, "cannot perform operation on a directory", NoHandler(c.srv.open))
      case Read(_) => Or(f.omode == -1 || f.omode == 1, "file not open for reading", NoHandler(c.srv.read))
      case Write(_) => Or(f.omode % 4 == 0 || f.omode % 4 == 3, "write on fid not opened for writing", NoHandler(c.srv.write))
      case Walk(fid, newfid, nwname) =>
        Or(f.omode != -1, "cannot walk from an open fid",
           Or(nwname > 0 && !f.qid.dir, "not a directory",
              Or(newfid != fid && newfid in c.fidmap, "fid in use", NoHandler(c.srv.walk))))
      case WStat(_, ch) =>
        Or(ch.typ, "wstat of type", Or(ch.dev, "wstat of dev", Or(ch.qid, "wstat of qid", Or(ch.muid, "wstat of muid",
           Or(ch.dirBit == Some(!f.qid.dir), "wstat on DMDIR bit", NoHandler(c.srv.wstat))))))
  }

  /** The request was answered at once with this word and nothing else, or handed to its handler in silence. */
  ghost predicate Spoke(c: Conn, h: Option<Handled>, id: nat, tag: nat, w: Option<Word>) {
    && h.Some?
    && if h.value.pending then w.None? && h.value.c.out == c.out
      else
        && |h.value.c.out| == |c.out| + 1 && h.value.c.out[..|c.out|] == c.out
        && h.value.c.out[|c.out|].id == id && h.value.c.out[|c.out|].tag == tag
        && w == Some(WordOf(h.value.c.out[|c.out|].reply))
  }

  /** b is where the new request stands. */
  ghost predicate New(c: Conn, b: Conn, id: nat, tag: nat) {
    && b.out == c.out && b.wired && id in b.live && b.live[id].tag == tag && b.srv == c.srv
    && (b.live[id].fid.Some? ==> Current(b, b.live[id].fid.value))
    && (b.live[id].newfid.Some? ==> Current(b, b.live[id].newfid.value))
  }

  lemma RefusalSpoke(c: Conn, b: Conn, id: nat, tag: nat, e: Err)
    requires New(c, b, id, tag) && !b.live[id].msg.Flush? && !b.live[id].msg.Version?
    ensures Spoke(c, Refuse(b, id, e), id, tag, Some(Error(Text(e))))
  {
    hide Settle, Text;
    RefusalReply(b, b.live[id], e);
  }

  lemma RefusalReply(c: Conn, q: Req, e: Err)
    requires !q.msg.Flush? && !q.msg.Version?
    requires (q.fid.Some? ==> Current(c, q.fid.value)) && (q.newfid.Some? ==> Current(c, q.newfid.value))
    ensures Settle(c, q, Refusal(e)).Some?
    ensures var s := Settle(c, q, Refusal(e)).value; s.reply == RError(e) && s.c.out == c.out && s.c.wired == c.wired && s.c.live == c.live
  {
    hide DestroyRef;
    DestroyDefined(c, q.fid);
    DestroyDefined(c, q.newfid);
    DestroySame(c, q.fid);
    DestroySame(c, q.newfid);
  }

  lemma DestroyDefined(c: Conn, r: Option<FidRef>)
    requires r.Some? ==> Current(c, r.value)
    ensures DestroyRef(c, r).Some?
  {
  }

  lemma DestroySame(c: Conn, r: Option<FidRef>)
    requires DestroyRef(c, r).Some?
    ensures var d := DestroyRef(c, r).value; d.out == c.out && d.wired == c.wired && d.live == c.live && d.rsize == c.rsize
    ensures DestroyRef(c, r).value.fidmap == (if r.Some? then c.fidmap - {r.value.num} else c.fidmap)
  {
  }

  lemma ClunkSpoke(c: Conn, b: Conn, id: nat, tag: nat)
    requires New(c, b, id, tag) && b.live[id].msg.Clunk?
    ensures Respond(b, id, Done(), {}).Some?
    ensures Spoke(c, Some(Handled(Respond(b, id, Done(), {}).value, false)), id, tag, Some(Fine))
  {
    hide DestroyRef;
    DestroyDefined(b, b.live[id].fid);
    DestroySame(b, b.live[id].fid);
  }

  lemma CreateSame(c: Conn, num: nat)
    ensures var (d, r) := CreateFid(c, num);
      d.out == c.out && d.wired == c.wired && d.live == c.live && d.srv == c.srv && (r.None? <==> num in c.fidmap)
      && (r.Some? ==> Current(d, r.value)) && (forall p :: Current(c, p) ==> Current(d, p))
  {
  }

  lemma WalkSpoke(c: Conn, b: Conn, id: nat, tag: nat, msg: Request, f: Fid)
    requires New(c, b, id, tag) && msg.Walk? && b.live[id].msg == msg && b.fidmap == c.fidmap && b.live[id].fid.Some?
    requires msg.fid in c.fidmap && f == c.fidmap[msg.fid]
    ensures Spoke(c, HandleWalk(b, id, f, msg.fid, msg.newfid, msg.nwname), id, tag, AtOnce(c, msg))
  {
    hide Respond, Refuse, CreateFid;
    RefusalSpoke(c, b, id, tag, Ewalkopen);
    RefusalSpoke(c, b, id, tag, Enotdir);
    CreateSame(b, msg.newfid);
    var (d, r) := CreateFid(b, msg.newfid);
    RefusalSpoke(c, SetNewFid(d, id, r), id, tag, Edupfid);
    RefusalSpoke(c, SetNewFid(d, id, r), id, tag, Enofunc);
    RefusalSpoke(c, SetNewFid(b, id, b.live[id].fid), id, tag, Enofunc);
  }

  /** The tests of handlereq on a fid it found are the complaints. */
  ghost predicate Listed(c: Conn, b: Conn, msg: Request)
    requires !msg.Version? && !msg.Flush? && !msg.Unknown?
  {
    msg.fid in c.fidmap ==>
      AtOnce(c, msg) == match Precheck(b, msg, c.fidmap[msg.fid]) case None => None case Some(e) => Some(Error(Text(e)))
  }

  lemma TransferListed(c: Conn, b: Conn, msg: Request)
    requires (msg.Read? || msg.Write? || msg.Remove? || msg.Stat?) && b.srv == c.srv
    ensures Listed(c, b, msg)
  {
  }

  lemma OpenListed(c: Conn, b: Conn, msg: Request)
    requires (msg.Open? || msg.Create?) && b.srv == c.srv
    ensures Listed(c, b, msg)
  {
  }

  lemma WStatListed(c: Conn, b: Conn, msg: Request)
    requires msg.WStat? && b.srv == c.srv
    ensures Listed(c, b, msg)
  {
  }

  lemma PrecheckListed(c: Conn, b: Conn, msg: Request)
    requires msg.Create? || msg.Open? || msg.Read? || msg.Remove? || msg.Stat? || msg.Write? || msg.WStat?
    requires b.srv == c.srv
    ensures Listed(c, b, msg)
  {
    hide *;
    if msg.WStat? { WStatListed(c, b, msg); }
    else if msg.Open? || msg.Create? { OpenListed(c, b, msg); }
    else { TransferListed(c, b, msg); }
  }

  lemma OnFidSpoke(c: Conn, b: Conn, id: nat, tag: nat, msg: Request)
    requires !msg.Version? && !msg.Unknown? && !msg.Attach? && !msg.Flush?
    requires New(c, b, id, tag) && b.live[id].msg == msg && b.fidmap == c.fidmap && msg.fid in c.fidmap && b.live[id].fid.Some?
    ensures Spoke(c, HandleOnFid(b, id, msg, c.fidmap[msg.fid]), id, tag, AtOnce(c, msg))
  {
    hide Respond, Refuse, HandleWalk, Precheck, Text, Or;
    if msg.Clunk? {
      if !b.srv.clunk { ClunkSpoke(c, b, id, tag); }
    } else if msg.Walk? {
      WalkSpoke(c, b, id, tag, msg, c.fidmap[msg.fid]);
    } else {
      PrecheckListed(c, b, msg);
      var e := Precheck(b, msg, c.fidmap[msg.fid]);
      if e.Some? { RefusalSpoke(c, b, id, tag, e.value); }
    }
  }

  lemma ReqSpoke(c: Conn, b: Conn, id: nat, tag: nat, msg: Request)
    requires New(c, b, id, tag) && b.live[id].msg == msg && b.fidmap == c.fidmap && !msg.Version? && !msg.Flush?
    ensures Spoke(c, HandleReq(b, id), id, tag, AtOnce(c, msg))
  {
    hide Respond, Refuse, HandleOnFid, CreateFid;
    assert Text(Enofunc) == "function not implemented" && Text(Edupfid) == "fid in use" && Text(Enofid) == "fid does not exist";
    if msg.Unknown? {
      RefusalSpoke(c, b, id, tag, Enofunc);
    } else if msg.Attach? {
      CreateSame(b, msg.fid);
      var (d, r) := CreateFid(b, msg.fid);
      RefusalSpoke(c, SetFid(d, id, r), id, tag, Edupfid);
    } else {
      var e := SetFid(b, id, Lookup(b, msg.fid));
      RefusalSpoke(c, e, id, tag, Enofid);
      if msg.fid in c.fidmap { OnFidSpoke(c, e, id, tag, msg); }
    }
  }

  /**
   * A request under a fresh tag is left to its handler, in silence, exactly when no
   * complaint applies to it, and otherwise gets the first one that does as its only
   * reply at once; a Tclunk without a handler succeeds at once.
   */
  lemma AnsweredAtOnce(c: Conn, tag: nat, msg: Request)
    requires tag !in c.tagmap && !msg.Version? && !msg.Flush?
    ensures Spoke(c, Receive(c, tag, msg), c.next, tag, AtOnce(c, msg))
  {
    hide Respond, HandleReq, AtOnce;
    ReqSpoke(c, Bind(Admit(c.(wired := true), Req(tag, msg, None, None)), tag, c.next), c.next, tag, msg);
  }

  /** Under a tag in use every request but a Tversion and a Tflush gets "tag in use". */
  lemma DuplicateTag(c: Conn, tag: nat, msg: Request)
    requires tag in c.tagmap && !msg.Version? && !msg.Flush?
    ensures Spoke(c, Receive(c, tag, msg), c.next, tag, Some(Error("tag in use")))
    ensures !Receive(c, tag, msg).value.pending
  {
    hide Respond;
    RefusalSpoke(c, Admit(c.(wired := true), Req(tag, msg, None, None)), c.next, tag, Eduptag);
  }

  /** A Tflush of a tag that nothing has. */
  lemma FlushOfNothing(c: Conn, tag: nat, oldtag: nat)
    requires tag !in c.tagmap && oldtag !in c.tagmap && oldtag != tag
    ensures Receive(c, tag, Flush(oldtag)).Some? && !Receive(c, tag, Flush(oldtag)).value.pending
    ensures Receive(c, tag, Flush(oldtag)).value.c.out == c.out + [Sent(c.next, tag, RError(Enotag))]
    ensures Text(Enotag) == "tag does not exist"
  {
  }

  // ---- Tversion ----

  /** The version a server of this kind knows. */
  function Known(version: string): string {
    if version == "9P" then "9P" else if version == "9P2000" then "9P2000" else "unknown"
  }

  /**
   * In every run, a Tversion under a fresh tag with a size of at least 25 is answered at
   * once with the smaller of that size and 8192, which both buffers then have, and with
   * the version if it is "9P" or "9P2000", else with "unknown".
   */
  lemma VersionAnswered(srv: Handlers, es: seq<Event>, c: Conn, tag: nat, m: nat, v: string)
    requires Run(Initial(srv), es, c) && c.attached && !c.closing && m >= 25 && tag !in c.tagmap
    ensures Enabled(c, Recv(tag, Version(m, v))) && Receive(c, tag, Version(m, v)).Some?
    ensures forall k :: k < 25 ==> !Enabled(c, Recv(tag, Version(k, v)))
    ensures var h := Receive(c, tag, Version(m, v)).value;
      var n := h.c.rsize;
      && !h.pending && n <= m && n <= 8192 && (n == m || n == 8192) && h.c.wsize == n
      && h.c.out == c.out + [Sent(c.next, tag, RVersion(n, Known(v)))]
      && h.c.live == c.live && h.c.tagmap == c.tagmap && h.c.fidmap == c.fidmap
  {
    hide Respond, Inv, Receive;
    InitialInv(srv);
    RunInv(Initial(srv), es, c);
    NextFresh(c);
    VersionReceived(c, tag, m, v);
  }

  lemma VersionReceived(c: Conn, tag: nat, m: nat, v: string)
    requires tag !in c.tagmap && c.next !in c.live
    ensures Receive(c, tag, Version(m, v)).Some?
    ensures var h := Receive(c, tag, Version(m, v)).value;
      var n := h.c.rsize;
      && !h.pending && n <= m && n <= 8192 && (n == m || n == 8192) && h.c.wsize == n
      && h.c.out == c.out + [Sent(c.next, tag, RVersion(n, Known(v)))]
      && h.c.live == c.live && h.c.tagmap == c.tagmap && h.c.fidmap == c.fidmap
  {
    hide Respond;
    var b := Bind(Admit(c.(wired := true), Req(tag, Version(m, v), None, None)), tag, c.next);
    VersionDone(b, c.next, m, v);
    assert b.live - {c.next} == c.live && b.tagmap - {tag} == c.tagmap;
  }

  lemma VersionDone(b: Conn, id: nat, m: nat, v: string)
    requires id in b.live && b.live[id].msg == Version(m, v) && b.wired
    ensures Respond(b, id, Done(), {}).Some?
    ensures var d := Respond(b, id, Done(), {}).value;
      var n := d.rsize;
      && n <= m && n <= 8192 && (n == m || n == 8192) && d.wsize == n
      && d.out == b.out + [Sent(id, b.live[id].tag, RVersion(n, Known(v)))]
      && d.live == b.live - {id} && d.tagmap == b.tagmap - {b.live[id].tag} && d.fidmap == b.fidmap
  {
    hide Settle;
    VersionSettled(b, b.live[id], m, v);
  }

  lemma VersionSettled(b: Conn, q: Req, m: nat, v: string)
    requires q.msg == Version(m, v)
    ensures Settle(b, q, Done()).Some?
    ensures var s := Settle(b, q, Done()).value;
      var n := s.c.rsize;
      && s.reply == RVersion(n, Known(v)) && s.c == b.(rsize := n, wsize := n)
      && n <= m && n <= 8192 && (n == m || n == 8192)
  {
    hide DestroyRef, SettleOpen, SettleWalk;
  }

  /** Before the first Tversion both buffers have 1024 bytes. */
  lemma SizesBefore(srv: Handlers, es: seq<Event>, c: Conn)
    requires Run(Initial(srv), es, c) && forall i :: 0 <= i < |es| ==> !Renegotiates(es[i])
    ensures c.rsize == 1024 && c.wsize == 1024
  {
    hide Inv, Run;
    InitialInv(srv);
    RunCalm(Initial(srv), es, c);
  }

  // ---- Requests a handler answers ----

  /** The reply to a handler's answer; rsize is the size of the receive buffer. */
  function ReplyTo(msg: Request, a: Answer, rsize: nat): Reply {
    if a.error.Some? then RError(a.error.value)
    else if msg.Open? || msg.Create? then ROpen(a.qid, rsize - 24)
    else if msg.Walk? then (if a.nwqid == 0 && msg.nwname > 0 then RError(Enofile) else RWalk(a.nwqid))
    else ROk
  }

  /** What the answer leaves of the fid table. */
  function FidsAfter(c: Conn, msg: Request, a: Answer): map<nat, Fid> {
    match msg
    case Clunk(fid) => c.fidmap - {fid}
    case Remove(fid) => c.fidmap - {fid}
    case Attach(fid) => if a.error.Some? then c.fidmap - {fid} else c.fidmap
    case Open(fid, mode) => Opened(c, fid, mode, a)
    case Create(fid, mode) => Opened(c, fid, mode, a)
    case Walk(fid, newfid, nwname) =>
      if a.error.Some? || a.nwqid < nwname then (if newfid == fid then c.fidmap else c.fidmap - {newfid})
      else if newfid !in c.fidmap || (a.nwqid == 0 && fid !in c.fidmap) then c.fidmap
      else c.fidmap[newfid := c.fidmap[newfid].(qid := if a.nwqid == 0 then c.fidmap[fid].qid else a.qid)]
    case _ => c.fidmap
  }

  function Opened(c: Conn, fid: nat, mode: nat, a: Answer): map<nat, Fid> {
    if a.error.Some? || fid !in c.fidmap then c.fidmap
    else
      var byte := mode % 0x100;
      c.fidmap[fid := Fid(c.fidmap[fid].serial, if byte < 0x80 then byte else byte - 0x100, a.qid, c.rsize - 24)]
  }

  /**
   * The pointers of a request are to the fids it names; one that a handler has, has
   * them all, and one that the server made has not been walked anywhere.
   */
  ghost predicate Aimed(q: Req, held: bool) {
    (held || q.newfid.None?) && Aims(q, held)
  }

  ghost predicate Aims(q: Req, held: bool) {
    match q.msg
    case Version(_, _) => true
    case Flush(_) => true
    case Unknown(_) => true
    case Walk(fid, newfid, _) =>
      && (q.fid.Some? ==> q.fid.value.num == fid) && (q.newfid.Some? ==> q.newfid.value.num == newfid)
      && (held ==> q.fid.Some? && q.newfid.Some?)
    case _ => (q.fid.Some? ==> q.fid.value.num == q.msg.fid) && (held ==> q.fid.Some?)
  }

  ghost predicate AllAimed(c: Conn) {
    forall i :: i in c.live ==> Aimed(c.live[i], i !in c.todo)
  }

  lemma OpenAnswered(c: Conn, q: Req, a: Answer, mode: nat)
    requires Aimed(q, true) && (q.msg.Open? || q.msg.Create?) && mode == q.msg.mode && SettleOpen(c, q, a, mode).Some?
    ensures var s := SettleOpen(c, q, a, mode).value;
      s.reply == ReplyTo(q.msg, a, c.rsize) && s.c == c.(fidmap := FidsAfter(c, q.msg, a))
  {
  }

  lemma WalkAnswered(c: Conn, q: Req, a: Answer)
    requires Aimed(q, true) && q.msg.Walk? && SettleWalk(c, q, a, q.msg.fid, q.msg.newfid, q.msg.nwname).Some?
    ensures var s := SettleWalk(c, q, a, q.msg.fid, q.msg.newfid, q.msg.nwname).value;
      s.reply == ReplyTo(q.msg, a, c.rsize) && s.c.out == c.out && s.c.wired == c.wired && s.c.live == c.live
      && s.c.fidmap == FidsAfter(c, q.msg, a)
  {
    hide DestroyRef;
    if DestroyRef(c, q.newfid).Some? { DestroySame(c, q.newfid); }
  }

  lemma SettleAnswered(c: Conn, q: Req, a: Answer)
    requires Aimed(q, true) && !q.msg.Version? && !q.msg.Flush? && Settle(c, q, a).Some?
    ensures var s := Settle(c, q, a).value;
      s.reply == ReplyTo(q.msg, a, c.rsize) && s.c.out == c.out && s.c.wired == c.wired && s.c.live == c.live && s.c.tagmap == c.tagmap
      && s.c.fidmap == FidsAfter(c, q.msg, a)
  {
    hide SettleOpen, SettleWalk, DestroyRef, FidsAfter;
    match q.msg
    case Open(_, mode) => OpenAnswered(c, q, a, mode);
    case Create(_, mode) => OpenAnswered(c, q, a, mode);
    case Walk(_, _, _) => WalkAnswered(c, q, a); SettleTags(c, q, a);
    case _ => PlainAnswered(c, q, a);
  }

  lemma SettleTags(c: Conn, q: Req, a: Answer)
    requires q.msg.Walk? && Settle(c, q, a).Some?
    ensures Settle(c, q, a).value.c.tagmap == c.tagmap
  {
    hide SettleOpen;
  }

  lemma PlainAnswered(c: Conn, q: Req, a: Answer)
    requires Aimed(q, true) && !q.msg.Version? && !q.msg.Flush? && !q.msg.Open? && !q.msg.Create? && !q.msg.Walk? && Settle(c, q, a).Some?
    ensures var s := Settle(c, q, a).value;
      s.reply == ReplyTo(q.msg, a, c.rsize) && s.c.out == c.out && s.c.wired == c.wired && s.c.live == c.live && s.c.tagmap == c.tagmap
      && s.c.fidmap == FidsAfter(c, q.msg, a)
  {
    hide SettleOpen, SettleWalk, DestroyRef;
    if DestroyRef(c, q.fid).Some? {
      DestroySame(c, q.fid);
      DestroyTags(c, q.fid);
    }
  }

  lemma DestroyTags(c: Conn, r: Option<FidRef>)
    requires DestroyRef(c, r).Some?
    ensures DestroyRef(c, r).value.tagmap == c.tagmap
  {
  }

  lemma ReplyExact(c: Conn, id: nat, a: Answer, d: Conn)
    requires id in c.live && Aimed(c.live[id], true) && c.wired && !c.live[id].msg.Version? && !c.live[id].msg.Flush?
    requires Respond(c, id, a, {}) == Some(d)
    ensures d.out == c.out + [Sent(id, c.live[id].tag, ReplyTo(c.live[id].msg, a, c.rsize))]
    ensures d.fidmap == FidsAfter(c, c.live[id].msg, a)
    ensures d.live == c.live - {id} && d.tagmap == c.tagmap - {c.live[id].tag}
  {
    hide Settle, FidsAfter;
    SettleAnswered(c, c.live[id], a);
  }

  /**
   * In every run, when a handler answers a request other than a Tflush: exactly one
   * reply is sent, under the request's tag, and it and the fid table are the ones
   * listed; the request and its tag are gone.
   */
  lemma AnsweredExact(srv: Handlers, es: seq<Event>, c: Conn, id: nat, a: Answer, d: Conn)
    requires Run(Initial(srv), es, c) && Enabled(c, Answered(id, a)) && c.wired && !c.live[id].msg.Flush?
    requires Respond(c, id, a, {}) == Some(d)
    ensures d.out == c.out + [Sent(id, c.live[id].tag, ReplyTo(c.live[id].msg, a, c.rsize))]
    ensures d.fidmap == FidsAfter(c, c.live[id].msg, a)
    ensures d.live == c.live - {id} && d.tagmap == c.tagmap - {c.live[id].tag}
  {
    hide Respond, Inv, FidsAfter, Run, Aimed;
    InitialInv(srv);
    RunCalm(Initial(srv), es, c);
    RunAimed(Initial(srv), es, c);
    ReplyExact(c, id, a, d);
  }

  /**
   * Handlers are free: whatever else waits, any request that is not on the cleanup's
   * list may be answered next, with anything, and its handler may say before what its
   * fid is, which changes that and nothing else.
   */
  lemma HandlersFree(c: Conn, id: nat, a: Answer, qid: Qid)
    requires id in c.live && id !in c.todo
    ensures Enabled(c, Answered(id, a))
    ensures c.live[id].fid.Some? && Current(c, c.live[id].fid.value) ==>
      var num := c.live[id].fid.value.num;
      var f := c.fidmap[num];
      && Enabled(c, Mark(id, qid))
      && Apply(c, Mark(id, qid)) == Some(c.(fidmap := c.fidmap[num := Fid(f.serial, f.omode, qid, f.iounit)]))
  {
    hide Respond;
  }

  // ---- Pointers are where they should be ----

  /** All but id, which is in hand. */
  ghost predicate OthersAimed(c: Conn, id: nat) {
    forall i :: i in c.live && i != id ==> Aimed(c.live[i], i !in c.todo)
  }

  ghost predicate HandledAimed(h: Option<Handled>) {
    h.Some? ==> AllAimed(h.value.c)
  }

  lemma RefuseAimed(c: Conn, id: nat, a: Answer)
    requires Ready(c, id) && OthersAimed(c, id) && Respond(c, id, a, {}).Some?
    ensures AllAimed(Respond(c, id, a, {}).value)
  {
    hide Respond, Inv, Aimed;
    RespondInv(c, id, a, {});
  }

  /** Refusing the request in hand, whatever its pointers are. */
  lemma RefusedAimed(c: Conn, id: nat, e: Err)
    requires Ready(c, id) && OthersAimed(c, id)
    ensures HandledAimed(Refuse(c, id, e))
  {
    hide Respond, Inv, AllAimed;
    if Refuse(c, id, e).Some? { RefuseAimed(c, id, Refusal(e)); }
  }

  lemma PointersAimed(c: Conn, id: nat, r: Option<FidRef>)
    requires Ready(c, id) && OthersAimed(c, id)
    ensures Ready(SetFid(c, id, r), id) && OthersAimed(SetFid(c, id, r), id)
    ensures Ready(SetNewFid(c, id, r), id) && OthersAimed(SetNewFid(c, id, r), id)
  {
    hide Inv, Aimed;
    SetFidReady(c, id, r);
  }

  lemma CreateAimed(c: Conn, id: nat, num: nat)
    requires Ready(c, id) && OthersAimed(c, id)
    ensures var (d, r) := CreateFid(c, num);
      && Ready(d, id) && OthersAimed(d, id) && d.live[id] == c.live[id] && d.todo == c.todo && (r.Some? ==> r.value.num == num)
  {
    hide Inv, Aimed;
    CreateFidInv(c, num, id);
    CreatedNum(c, num);
  }

  lemma CreatedNum(c: Conn, num: nat)
    ensures CreateFid(c, num).1.Some? ==> CreateFid(c, num).1.value.num == num
  {
  }

  lemma WholeAimed(c: Conn, id: nat)
    requires Ready(c, id) && OthersAimed(c, id) && Aimed(c.live[id], true)
    ensures AllAimed(c)
  {
    hide Inv, Aimed;
  }

  lemma CallWalkAimed(c: Conn, id: nat)
    requires Ready(c, id) && OthersAimed(c, id) && Aimed(c.live[id], true)
    ensures HandledAimed(CallWalk(c, id))
  {
    hide Respond, Inv, Aimed, AllAimed, Refuse;
    RefusedAimed(c, id, Enofunc);
    WholeAimed(c, id);
  }

  lemma HandleWalkAimed(c: Conn, id: nat, f: Fid, fid: nat, newfid: nat, nwname: nat)
    requires Ready(c, id) && OthersAimed(c, id) && c.live[id].msg == Walk(fid, newfid, nwname)
    requires c.live[id].fid.Some? && c.live[id].fid.value.num == fid
    ensures HandledAimed(HandleWalk(c, id, f, fid, newfid, nwname))
  {
    hide Respond, Inv, AllAimed, OthersAimed, Refuse, CallWalk, CreateFid;
    RefusedAimed(c, id, Ewalkopen);
    RefusedAimed(c, id, Enotdir);
    if fid != newfid {
      CreateAimed(c, id, newfid);
      var (d, r) := CreateFid(c, newfid);
      PointersAimed(d, id, r);
      RefusedAimed(SetNewFid(d, id, r), id, Edupfid);
      if r.Some? { CallWalkAimed(SetNewFid(d, id, r), id); }
    } else {
      PointersAimed(c, id, c.live[id].fid);
      CallWalkAimed(SetNewFid(c, id, c.live[id].fid), id);
    }
  }

  lemma HandleOnFidAimed(c: Conn, id: nat, msg: Request, f: Fid)
    requires Ready(c, id) && OthersAimed(c, id) && c.live[id].msg == msg
    requires !msg.Version? && !msg.Unknown? && !msg.Flush? && !msg.Attach?
    requires c.live[id].fid.Some? && c.live[id].fid.value.num == msg.fid && c.live[id].newfid.None?
    ensures HandledAimed(HandleOnFid(c, id, msg, f))
  {
    hide Respond, Inv, AllAimed, OthersAimed, Refuse, HandleWalk, Precheck;
    if msg.Walk? {
      HandleWalkAimed(c, id, f, msg.fid, msg.newfid, msg.nwname);
    } else {
      WholeAimed(c, id);
      if msg.Clunk? {
        if Respond(c, id, Done(), {}).Some? { RefuseAimed(c, id, Done()); }
      } else if Precheck(c, msg, f).Some? {
        RefusedAimed(c, id, Precheck(c, msg, f).value);
      }
    }
  }

  lemma FidReqAimed(c: Conn, id: nat, msg: Request)
    requires Ready(c, id) && OthersAimed(c, id) && c.live[id].newfid.None? && c.live[id].msg == msg
    requires !msg.Version? && !msg.Unknown? && !msg.Flush? && !msg.Attach?
    ensures HandledAimed(HandleReq(c, id))
  {
    hide Respond, Inv, AllAimed, OthersAimed, Refuse, HandleOnFid, Aimed;
    PointersAimed(c, id, Lookup(c, msg.fid));
    var e := SetFid(c, id, Lookup(c, msg.fid));
    RefusedAimed(e, id, Enofid);
    if msg.fid in c.fidmap { HandleOnFidAimed(e, id, msg, c.fidmap[msg.fid]); }
  }

  lemma AttachAimed(c: Conn, id: nat, fid: nat)
    requires Ready(c, id) && OthersAimed(c, id) && c.live[id].msg == Attach(fid)
    ensures HandledAimed(HandleReq(c, id))
  {
    hide Respond, Inv, AllAimed, OthersAimed, Refuse, HandleOnFid, CreateFid;
    CreateAimed(c, id, fid);
    var (d, r) := CreateFid(c, fid);
    PointersAimed(d, id, r);
    RefusedAimed(SetFid(d, id, r), id, Edupfid);
    if r.Some? { WholeAimed(SetFid(d, id, r), id); }
  }

  lemma HandleReqAimed(c: Conn, id: nat)
    requires Ready(c, id) && OthersAimed(c, id) && c.live[id].newfid.None?
    ensures HandledAimed(HandleReq(c, id))
  {
    hide Respond, Inv, AllAimed, OthersAimed, Refuse, HandleOnFid, CreateFid;
    var msg := c.live[id].msg;
    match msg
    case Version(_, _) => if Respond(c, id, Done(), {}).Some? { RefuseAimed(c, id, Done()); }
    case Unknown(_) => RefusedAimed(c, id, Enofunc);
    case Attach(fid) => AttachAimed(c, id, fid);
    case Flush(_) =>
      RefusedAimed(c, id, Enotag);
      RefusedAimed(c, id, Enofunc);
      WholeAimed(c, id);
    case _ => FidReqAimed(c, id, msg);
  }

  lemma ReceiveAimed(c: Conn, tag: nat, msg: Request)
    requires Inv(c) && AllAimed(c) && Enabled(c, Recv(tag, msg)) && Receive(c, tag, msg).Some?
    ensures AllAimed(Receive(c, tag, msg).value.c)
  {
    hide Respond, Inv, HandleReq, Refuse, Aimed;
    WiredInv(c);
    var d := Admit(c.(wired := true), Req(tag, msg, None, None));
    AdmitInv(c.(wired := true), Req(tag, msg, None, None));
    assert OthersAimed(d, c.next);
    if tag in c.tagmap {
      RefusedAimed(d, c.next, Eduptag);
    } else {
      BindInv(d, tag, c.next);
      HandleReqAimed(Bind(d, tag, c.next), c.next);
    }
  }

  lemma WiredInv(c: Conn)
    requires Inv(c) && !c.closing && c.attached
    ensures Inv(c.(wired := true)) && c.next !in c.live && c.next !in c.todo
  {
  }

  /** A synthesised request. */
  lemma VoidAimed(c: Conn, q: Req)
    requires AllAimed(c) && Aimed(q, false) && c.next !in c.live && c.next !in c.todo
    ensures AllAimed(Queue(Admit(c, q), c.next))
  {
    hide Aimed;
  }

  lemma VoidNext(c: Conn)
    requires Inv(c)
    ensures c.next !in c.live && c.next !in c.todo
  {
  }

  lemma {:induction false} VoidFidsAimed(c: Conn, fids: seq<nat>)
    requires Inv(c) && c.closing && c.attached && AllAimed(c)
    ensures AllAimed(VoidFids(c, fids))
    decreases |fids|
  {
    hide Inv, AllAimed;
    if fids != [] {
      VoidNext(c);
      VoidAimed(c, Req(NOTAG, Clunk(fids[0]), Lookup(c, fids[0]), None));
      VoidInv(c, Req(NOTAG, Clunk(fids[0]), Lookup(c, fids[0]), None));
      VoidFidsAimed(VoidFid(c, fids[0]), fids[1..]);
    }
  }

  lemma {:induction false} VoidRequestsAimed(c: Conn, tags: seq<nat>)
    requires Inv(c) && c.closing && c.attached && AllAimed(c)
    ensures AllAimed(VoidRequests(c, tags))
    decreases |tags|
  {
    hide Inv, AllAimed;
    if tags != [] {
      VoidNext(c);
      VoidAimed(c, Req(NOTAG, Flush(tags[0]), None, None));
      VoidInv(c, Req(NOTAG, Flush(tags[0]), None, None));
      VoidRequestsAimed(VoidRequest(c, tags[0]), tags[1..]);
    }
  }

  lemma HangUpAimed(c: Conn, fids: seq<nat>, tags: seq<nat>)
    requires Inv(c) && AllAimed(c) && Enabled(c, Hangup(fids, tags))
    ensures AllAimed(HangUp(c, fids, tags))
  {
    hide VoidFids, VoidRequests, Aimed;
    var d := c.(wired := false, closing := true);
    assert Inv(d) && AllAimed(d);
    if c.ref > 1 {
      VoidFidsInv(d, fids);
      VoidFidsAimed(d, fids);
      VoidRequestsAimed(VoidFids(d, fids), tags);
    }
  }

  lemma ApplyAimed(c: Conn, e: Event)
    requires Inv(c) && AllAimed(c) && Enabled(c, e) && Apply(c, e).Some?
    ensures AllAimed(Apply(c, e).value)
  {
    hide Respond, Inv, Aimed, Receive, HangUp, HandleReq;
    match e
    case Recv(tag, msg) => ReceiveAimed(c, tag, msg);
    case Mark(_, _) =>
    case Answered(id, a) => RefuseAimed(c, id, a);
    case Hangup(fids, tags) => HangUpAimed(c, fids, tags);
    case CleanStep =>
      TakeReady(c);
      HandleReqAimed(c.(todo := c.todo[1..]), c.todo[0]);
    case CleanFinish =>
  }

  lemma TakeReady(c: Conn)
    requires Inv(c) && AllAimed(c) && c.todo != []
    ensures Ready(c.(todo := c.todo[1..]), c.todo[0]) && OthersAimed(c.(todo := c.todo[1..]), c.todo[0])
    ensures c.live[c.todo[0]].newfid.None?
  {
    hide Aims;
    var e := c.(todo := c.todo[1..]);
    assert c.todo == [c.todo[0]] + e.todo;
    assert forall i :: i in e.todo ==> i in c.todo;
    assert Inv(e);
  }

  lemma {:induction false} RunAimed(c: Conn, es: seq<Event>, z: Conn)
    requires Inv(c) && AllAimed(c) && Run(c, es, z)
    ensures AllAimed(z)
    decreases |es|
  {
    hide Inv, AllAimed, Apply;
    if es != [] {
      ApplyAimed(c, es[0]);
      ApplyInv(c, es[0]);
      RunAimed(Apply(c, es[0]).value, es[1..], z);
    }
  }
}
