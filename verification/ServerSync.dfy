/**
 * A server whose handlers answer before they return: the fid table seen from the
 * wire, and the replies themselves.
 */
module ServerSync {
  import opened Basics
  import opened Server
  import opened ServerInvariant

  /** Nothing is outstanding. */
  ghost predicate Idle(c: Conn) {
    Inv(c) && c.live == map[] && c.tagmap == map[] && !c.closing
  }

  /** Handlers succeed or fail with an error of their own. */
  predicate HandlerAnswer(a: Answer) {
    a.error.Some? ==> a.error.value.Handler?
  }

  /** One request, handled and answered at once. */
  function Serve(c: Conn, tag: nat, msg: Request, a: Answer): Option<Conn> {
    match Receive(c, tag, msg)
    case None => None
    case Some(h) =>
      if h.pending && c.next in h.c.live then Respond(h.c, c.next, a, {}) else Some(h.c)
  }

  /** The fid table a client can deduce from a request and its reply alone. */
  function Deduced(keys: set<nat>, msg: Request, reply: Reply): set<nat> {
    match msg
    case Attach(fid) => if reply.RError? then keys else keys + {fid}
    case Walk(fid, newfid, nwname) =>
      if reply.RWalk? && reply.nwqid >= nwname then keys + {newfid} else keys
    case Clunk(fid) => keys - {fid}
    case Remove(fid) => keys - {fid}
    case _ => keys
  }

  /** The requests refused with "fid in use". */
  predicate Collides(c: Conn, msg: Request) {
    match msg
    case Attach(fid) => fid in c.fidmap
    case Walk(fid, newfid, nwname) =>
      && fid in c.fidmap && c.fidmap[fid].omode == -1 && (nwname > 0 ==> c.fidmap[fid].qid.dir)
      && newfid != fid && newfid in c.fidmap
    case _ => false
  }

  // ---- The one outstanding request ----

  ghost predicate One(c: Conn, id: nat, tag: nat) {
    && Ready(c, id) && c.live.Keys == {id} && c.live[id].tag == tag && c.tagmap == map[tag := id]
    && c.wired && !c.closing
  }

  /** How a served connection relates to the one before: one more reply, this fid table. */
  ghost predicate Served(c: Conn, d: Conn, id: nat, tag: nat, reply: Reply, keys: set<nat>) {
    Idle(d) && d.out == c.out + [Sent(id, tag, reply)] && d.fidmap.Keys == keys && d.attached == c.attached
  }

  lemma FinishOne(c: Conn, s: Conn, id: nat, tag: nat, reply: Reply)
    requires One(c, id, tag) && Inv(s) && OnlyFids(c, s)
    ensures Served(c, Finish(s, id, reply), id, tag, reply, s.fidmap.Keys)
  {
    FinishInv(s, id, reply);
    assert Finish(s, id, reply).live.Keys == {};
    assert Finish(s, id, reply).tagmap.Keys == {};
  }

  /** Answering the one request: settle, then finish. */
  lemma RespondOne(c: Conn, id: nat, tag: nat, a: Answer)
    requires One(c, id, tag) && c.live[id].msg != Flush(tag)
    requires !c.live[id].msg.Flush? ==> Settle(c, c.live[id], a).Some?
    ensures Respond(c, id, a, {}).Some?
    ensures c.live[id].msg.Flush? ==>
      Served(c, Respond(c, id, a, {}).value, id, tag, Plain(c, a, ROk).reply, c.fidmap.Keys)
    ensures !c.live[id].msg.Flush? ==>
      var s := Settle(c, c.live[id], a).value;
      Served(c, Respond(c, id, a, {}).value, id, tag, s.reply, s.c.fidmap.Keys)
  {
    if c.live[id].msg.Flush? {
      FinishOne(c, c, id, tag, Plain(c, a, ROk).reply);
    } else {
      SettleInv(c, id, a);
      var s := Settle(c, c.live[id], a).value;
      FinishOne(c, s.c, id, tag, s.reply);
    }
  }

  /** A refusal never touches the fid table, unless the request already owns a fid to drop. */
  lemma RefuseOne(c: Conn, id: nat, tag: nat, e: Err)
    requires One(c, id, tag) && !c.live[id].msg.Version? && c.live[id].msg != Flush(tag)
    requires c.live[id].fid.None? || !(c.live[id].msg.Attach? || c.live[id].msg.Clunk? || c.live[id].msg.Remove?)
    requires c.live[id].newfid.None? || !c.live[id].msg.Walk? || c.live[id].msg.fid == c.live[id].msg.newfid
    ensures Respond(c, id, Refusal(e), {}).Some?
    ensures Served(c, Respond(c, id, Refusal(e), {}).value, id, tag, RError(e), c.fidmap.Keys)
  {
    hide Inv, Respond, Settle, Served;
    if !c.live[id].msg.Flush? {
      RefusalSettles(c, c.live[id], e);
    }
    RespondOne(c, id, tag, Refusal(e));
  }

  lemma RefusalSettles(c: Conn, q: Req, e: Err)
    requires !q.msg.Version? && !q.msg.Flush?
    requires q.fid.None? || !(q.msg.Attach? || q.msg.Clunk? || q.msg.Remove?)
    requires q.newfid.None? || !q.msg.Walk? || q.msg.fid == q.msg.newfid
    ensures Settle(c, q, Refusal(e)) == Some(Settled(c, RError(e)))
  {
  }

  lemma SetFidOne(c: Conn, id: nat, tag: nat, r: Option<FidRef>)
    requires One(c, id, tag)
    ensures One(SetFid(c, id, r), id, tag) && One(SetNewFid(c, id, r), id, tag)
  {
    SetFidReady(c, id, r);
  }

  /** What Serve does after Receive, from handlereq on. */
  function Complete(c: Conn, id: nat, h: Option<Handled>, a: Answer): Option<Conn> {
    match h
    case None => None
    case Some(x) => if x.pending && id in x.c.live then Respond(x.c, id, a, {}) else Some(x.c)
  }

  /** The result of serving request id from state c. */
  ghost predicate Outcome(c: Conn, id: nat, tag: nat, h: Option<Handled>, a: Answer, keys: set<nat>, msg: Request) {
    && Complete(c, id, h, a).Some?
    && var d := Complete(c, id, h, a).value;
       && |d.out| == |c.out| + 1
       && Served(c, d, id, tag, d.out[|c.out|].reply, Deduced(keys, msg, d.out[|c.out|].reply))
       && d.out[|c.out|].reply != RError(Edupfid)
  }

  lemma WalkServed(c: Conn, id: nat, tag: nat, f: Fid, a: Answer, fid: nat, newfid: nat, nwname: nat)
    requires One(c, id, tag) && c.live[id].msg == Walk(fid, newfid, nwname) && c.live[id].newfid.None?
    requires fid in c.fidmap && f == c.fidmap[fid] && c.live[id].fid == Lookup(c, fid) && HandlerAnswer(a)
    requires !Collides(c, Walk(fid, newfid, nwname))
    ensures Outcome(c, id, tag, HandleWalk(c, id, f, fid, newfid, nwname), a, c.fidmap.Keys, Walk(fid, newfid, nwname))
  {
    hide Respond, Inv, Settle;
    if f.omode != -1 {
      RefuseOne(c, id, tag, Ewalkopen);
    } else if nwname > 0 && !f.qid.dir {
      RefuseOne(c, id, tag, Enotdir);
    } else if fid != newfid {
      CreateFidInv(c, newfid, id);
      var (d, r) := CreateFid(c, newfid);
      assert One(d, id, tag);
      SetFidOne(d, id, tag, r);
      NewFidServed(c, SetNewFid(d, id, r), id, tag, a, fid, newfid, nwname);
    } else {
      SetFidOne(c, id, tag, c.live[id].fid);
      SameFidServed(c, SetNewFid(c, id, c.live[id].fid), id, tag, a, fid, nwname);
    }
  }

  /** A walk to a new fid: only a complete one leaves the new fid in the table. */
  lemma WalkKeys(e: Conn, q: Req, a: Answer, keys: set<nat>, fid: nat, newfid: nat, nwname: nat)
    requires q.msg == Walk(fid, newfid, nwname) && fid != newfid && newfid !in keys
    requires e.fidmap.Keys == keys + {newfid} && fid in e.fidmap
    requires q.newfid == Lookup(e, newfid) && q.fid == Lookup(e, fid)
    ensures Settle(e, q, a).Some?
    ensures var s := Settle(e, q, a).value;
      && s.c.fidmap.Keys == Deduced(keys, q.msg, s.reply)
      && (s.reply.RError? ==> s.reply.err == Enofile || Some(s.reply.err) == a.error)
  {
    assert Current(e, q.newfid.value) && Current(e, q.fid.value);
    assert e.fidmap.Keys - {newfid} == keys;
  }

  lemma NewFidServed(c: Conn, e: Conn, id: nat, tag: nat, a: Answer, fid: nat, newfid: nat, nwname: nat)
    requires One(e, id, tag) && e.live[id].msg == Walk(fid, newfid, nwname) && fid != newfid && HandlerAnswer(a)
    requires e.out == c.out && e.attached == c.attached && newfid !in c.fidmap && fid in c.fidmap
    requires e.fidmap.Keys == c.fidmap.Keys + {newfid}
    requires e.live[id].newfid == Lookup(e, newfid) && e.live[id].fid == Lookup(e, fid)
    ensures Outcome(c, id, tag, CallWalk(e, id), a, c.fidmap.Keys, Walk(fid, newfid, nwname))
  {
    var b := if e.srv.walk then a else Refusal(Enofunc);
    WalkKeys(e, e.live[id], b, c.fidmap.Keys, fid, newfid, nwname);
    RespondOne(e, id, tag, b);
  }

  lemma SameFidServed(c: Conn, e: Conn, id: nat, tag: nat, a: Answer, fid: nat, nwname: nat)
    requires One(e, id, tag) && e.live[id].msg == Walk(fid, fid, nwname) && HandlerAnswer(a)
    requires e.out == c.out && e.attached == c.attached && e.fidmap == c.fidmap && fid in c.fidmap
    requires e.live[id].newfid == Lookup(e, fid) && e.live[id].fid == Lookup(e, fid)
    ensures Outcome(c, id, tag, CallWalk(e, id), a, c.fidmap.Keys, Walk(fid, fid, nwname))
  {
    hide Inv, Respond;
    var q := e.live[id];
    assert Current(e, q.fid.value);
    if !e.srv.walk {
      RespondOne(e, id, tag, Refusal(Enofunc));
    } else {
      RespondOne(e, id, tag, a);
      var s := Settle(e, q, a).value;
      assert s.c.fidmap.Keys == c.fidmap.Keys;
      assert Deduced(c.fidmap.Keys, q.msg, s.reply) == c.fidmap.Keys;
    }
  }

  /** Serving amounts to answering request id with b from state e. */
  ghost predicate AnsweredBy(c: Conn, e: Conn, id: nat, h: Option<Handled>, a: Answer, b: Answer) {
    && id in e.live && Complete(c, id, h, a) == Respond(e, id, b, {})
    && e.out == c.out && e.attached == c.attached
  }

  lemma Wrap(c: Conn, e: Conn, id: nat, tag: nat, h: Option<Handled>, a: Answer, b: Answer, msg: Request)
    requires AnsweredBy(c, e, id, h, a, b) && One(e, id, tag) && !e.live[id].msg.Flush?
    requires Settle(e, e.live[id], b).Some?
    requires var s := Settle(e, e.live[id], b).value;
      s.c.fidmap.Keys == Deduced(c.fidmap.Keys, msg, s.reply) && s.reply != RError(Edupfid)
    ensures Outcome(c, id, tag, h, a, c.fidmap.Keys, msg)
  {
    RespondOne(e, id, tag, b);
  }

  predicate OnFid(msg: Request) {
    msg.Clunk? || msg.Create? || msg.Open? || msg.Read? || msg.Remove? || msg.Stat? || msg.Write? || msg.WStat?
  }

  /** With what the server or the handler answers a request on an existing fid. */
  function OnFidAnswer(c: Conn, msg: Request, f: Fid, a: Answer): Answer {
    if msg.Clunk? then (if c.srv.clunk then a else Done())
    else if Precheck(c, msg, f).Some? then Refusal(Precheck(c, msg, f).value) else a
  }

  lemma OnFidShape(c: Conn, id: nat, msg: Request, f: Fid, a: Answer)
    requires id in c.live && OnFid(msg)
    ensures AnsweredBy(c, c, id, HandleOnFid(c, id, msg, f), a, OnFidAnswer(c, msg, f, a))
  {
  }

  lemma OnFidServed(c: Conn, id: nat, tag: nat, msg: Request, f: Fid, a: Answer)
    requires One(c, id, tag) && c.live[id].msg == msg && HandlerAnswer(a) && OnFid(msg)
    requires msg.fid in c.fidmap && c.live[id].fid == Lookup(c, msg.fid)
    ensures Outcome(c, id, tag, HandleOnFid(c, id, msg, f), a, c.fidmap.Keys, msg)
  {
    var b := OnFidAnswer(c, msg, f, a);
    OnFidKeys(c, c.live[id], b);
    OnFidShape(c, id, msg, f, a);
    Wrap(c, c, id, tag, HandleOnFid(c, id, msg, f), a, b, msg);
  }

  lemma OnFidKeys(c: Conn, q: Req, b: Answer)
    requires OnFid(q.msg) && q.msg.fid in c.fidmap && q.fid == Lookup(c, q.msg.fid)
    ensures Settle(c, q, b).Some?
    ensures var s := Settle(c, q, b).value;
      && s.c.fidmap.Keys == Deduced(c.fidmap.Keys, q.msg, s.reply)
      && (s.reply.RError? ==> Some(s.reply.err) == b.error)
  {
    assert Current(c, q.fid.value);
  }

  lemma AttachKeys(c: Conn, id: nat, fid: nat, a: Answer)
    requires id in c.live && c.live[id].msg == Attach(fid) && fid !in c.fidmap
    ensures var (d, r) := CreateFid(c, fid);
      var e := SetFid(d, id, r);
      && AnsweredBy(c, e, id, HandleReq(c, id), a, a)
      && Settle(e, e.live[id], a).Some?
      && var s := Settle(e, e.live[id], a).value;
         && s.c.fidmap.Keys == Deduced(c.fidmap.Keys, Attach(fid), s.reply)
         && (s.reply.RError? ==> Some(s.reply.err) == a.error)
  {
    var (d, r) := CreateFid(c, fid);
    var e := SetFid(d, id, r);
    assert Current(e, r.value);
    assert e.fidmap.Keys - {fid} == c.fidmap.Keys;
  }

  lemma AttachServed(c: Conn, id: nat, tag: nat, fid: nat, a: Answer)
    requires One(c, id, tag) && c.live[id] == Req(tag, Attach(fid), None, None) && HandlerAnswer(a) && fid !in c.fidmap
    ensures Outcome(c, id, tag, HandleReq(c, id), a, c.fidmap.Keys, Attach(fid))
  {
    CreateFidInv(c, fid, id);
    var (d, r) := CreateFid(c, fid);
    SetFidOne(d, id, tag, r);
    AttachKeys(c, id, fid, a);
    Wrap(c, SetFid(d, id, r), id, tag, HandleReq(c, id), a, a, Attach(fid));
  }

  /** The requests handlereq answers itself, without looking at a fid. */
  lemma DirectServed(c: Conn, id: nat, tag: nat, msg: Request, a: Answer)
    requires One(c, id, tag) && c.live[id] == Req(tag, msg, None, None)
    requires msg.Version? || msg.Unknown? || (msg.Flush? && msg.oldtag != tag)
    ensures Outcome(c, id, tag, HandleReq(c, id), a, c.fidmap.Keys, msg)
  {
    if msg.Version? {
      RespondOne(c, id, tag, Done());
    } else if msg.Unknown? {
      RefuseOne(c, id, tag, Enofunc);
    } else {
      RefuseOne(c, id, tag, Enotag);
    }
  }

  lemma HandleReqShape(c: Conn, id: nat, msg: Request)
    requires id in c.live && c.live[id].msg == msg && (OnFid(msg) || msg.Walk?)
    ensures var e := SetFid(c, id, Lookup(c, msg.fid));
      HandleReq(c, id) == if msg.fid in c.fidmap then HandleOnFid(e, id, msg, c.fidmap[msg.fid]) else Refuse(e, id, Enofid)
  {
  }

  lemma UnknownFidServed(c: Conn, id: nat, tag: nat, msg: Request, a: Answer)
    requires One(c, id, tag) && c.live[id] == Req(tag, msg, None, None)
    requires (OnFid(msg) || msg.Walk?) && msg.fid !in c.fidmap
    ensures Outcome(c, id, tag, Refuse(SetFid(c, id, None), id, Enofid), a, c.fidmap.Keys, msg)
  {
    SetFidOne(c, id, tag, None);
    RefuseOne(SetFid(c, id, None), id, tag, Enofid);
    assert Deduced(c.fidmap.Keys, msg, RError(Enofid)) == c.fidmap.Keys;
  }

  lemma FidServed(c: Conn, id: nat, tag: nat, msg: Request, a: Answer)
    requires One(c, id, tag) && c.live[id] == Req(tag, msg, None, None) && HandlerAnswer(a)
    requires (OnFid(msg) || msg.Walk?) && !Collides(c, msg)
    ensures Outcome(c, id, tag, HandleReq(c, id), a, c.fidmap.Keys, msg)
  {
    hide Respond, Inv, HandleWalk, HandleReq;
    HandleReqShape(c, id, msg);
    var e := SetFid(c, id, Lookup(c, msg.fid));
    SetFidOne(c, id, tag, Lookup(c, msg.fid));
    if msg.fid !in c.fidmap {
      UnknownFidServed(c, id, tag, msg, a);
    } else if msg.Walk? {
      WalkServed(e, id, tag, c.fidmap[msg.fid], a, msg.fid, msg.newfid, msg.nwname);
      assert HandleOnFid(e, id, msg, c.fidmap[msg.fid]) == HandleWalk(e, id, c.fidmap[msg.fid], msg.fid, msg.newfid, msg.nwname);
    } else {
      OnFidServed(e, id, tag, msg, c.fidmap[msg.fid], a);
    }
  }

  /** Everything that is not refused as a collision, from handlereq on. */
  lemma HandledServed(c: Conn, id: nat, tag: nat, msg: Request, a: Answer)
    requires One(c, id, tag) && c.live[id] == Req(tag, msg, None, None) && HandlerAnswer(a)
    requires msg != Flush(tag) && !Collides(c, msg)
    ensures Outcome(c, id, tag, HandleReq(c, id), a, c.fidmap.Keys, msg)
  {
    if msg.Version? || msg.Unknown? || msg.Flush? {
      DirectServed(c, id, tag, msg, a);
    } else if msg.Attach? {
      AttachServed(c, id, tag, msg.fid, a);
    } else {
      FidServed(c, id, tag, msg, a);
    }
  }

  lemma CollisionShape(c: Conn, id: nat, msg: Request)
    requires id in c.live && c.live[id].msg == msg && Collides(c, msg)
    ensures var e := if msg.Attach? then SetFid(DecRef(c.(ref := c.ref + 1)), id, None)
                     else SetNewFid(DecRef(SetFid(c, id, Lookup(c, msg.fid)).(ref := c.ref + 1)), id, None);
      HandleReq(c, id) == Refuse(e, id, Edupfid)
  {
  }

  lemma DecRefBack(c: Conn, id: nat)
    requires Ready(c, id)
    ensures DecRef(c.(ref := c.ref + 1)) == c
  {
    LiveSize(c, id);
  }

  /** The collisions: refused with "fid in use", and the table is as it was. */
  lemma CollisionServed(c: Conn, id: nat, tag: nat, msg: Request)
    requires One(c, id, tag) && c.live[id] == Req(tag, msg, None, None) && Collides(c, msg)
    ensures HandleReq(c, id).Some? && !HandleReq(c, id).value.pending
    ensures Served(c, HandleReq(c, id).value.c, id, tag, RError(Edupfid), c.fidmap.Keys)
  {
    CollisionShape(c, id, msg);
    if msg.Attach? {
      DecRefBack(c, id);
      SetFidOne(c, id, tag, None);
      RefuseOne(SetFid(c, id, None), id, tag, Edupfid);
    } else {
      var e := SetFid(c, id, Lookup(c, msg.fid));
      SetFidOne(c, id, tag, Lookup(c, msg.fid));
      DecRefBack(e, id);
      SetFidOne(e, id, tag, None);
      RefuseOne(SetNewFid(e, id, None), id, tag, Edupfid);
    }
  }

  lemma ArriveOne(c: Conn, tag: nat, msg: Request)
    requires Idle(c) && Enabled(c, Recv(tag, msg))
    ensures var d := Bind(Admit(c.(wired := true), Req(tag, msg, None, None)), tag, c.next);
      One(d, c.next, tag) && d.live[c.next] == Req(tag, msg, None, None) && d.fidmap == c.fidmap && d.out == c.out && d.attached
  {
    var b := c.(wired := true);
    assert Inv(b);
    AdmitInv(b, Req(tag, msg, None, None));
    BindInv(Admit(b, Req(tag, msg, None, None)), tag, c.next);
  }

  /**
   * The fid table is exactly what the wire shows. Every request but a Tflush of
   * its own tag gets exactly one reply; afterwards nothing is outstanding and the
   * table is the one a client deduces from request and reply: attaches and
   * complete walks add, Tclunk and Tremove drop whatever the handler says, all
   * else keeps. "fid in use" is sent exactly for the colliding requests.
   */
  lemma FidTableExact(c: Conn, tag: nat, msg: Request, a: Answer)
    requires Idle(c) && Enabled(c, Recv(tag, msg)) && HandlerAnswer(a) && msg != Flush(tag)
    ensures Serve(c, tag, msg, a).Some?
    ensures var d := Serve(c, tag, msg, a).value;
      && Idle(d) && d.attached && |d.out| == |c.out| + 1 && d.out[..|c.out|] == c.out
      && d.out[|c.out|].id == c.next && d.out[|c.out|].tag == tag
      && d.fidmap.Keys == Deduced(c.fidmap.Keys, msg, d.out[|c.out|].reply)
      && (d.out[|c.out|].reply == RError(Edupfid) <==> Collides(c, msg))
  {
    ArriveOne(c, tag, msg);
    var d := Bind(Admit(c.(wired := true), Req(tag, msg, None, None)), tag, c.next);
    if Collides(c, msg) {
      CollisionServed(d, c.next, tag, msg);
    } else {
      HandledServed(d, c.next, tag, msg, a);
      assert Serve(c, tag, msg, a) == Complete(d, c.next, HandleReq(d, c.next), a);
    }
  }

  /** The excluded request: answering a Tflush of its own tag never returns. */
  lemma SelfFlushDiverges(c: Conn, tag: nat, a: Answer)
    requires Idle(c) && Enabled(c, Recv(tag, Flush(tag)))
    ensures Serve(c, tag, Flush(tag), a).None?
  {
    var d := Bind(Admit(c.(wired := true), Req(tag, Flush(tag), None, None)), tag, c.next);
    SelfFlushStuck(d, c.next, tag, a);
    SelfFlushStuck(d, c.next, tag, Refusal(Enofunc));
  }

  lemma SelfFlushStuck(d: Conn, id: nat, tag: nat, a: Answer)
    requires id in d.live && d.live[id].msg == Flush(tag) && tag in d.tagmap && d.tagmap[tag] == id
    ensures Respond(d, id, a, {}).None?
  {
  }
}
