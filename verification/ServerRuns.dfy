/**
 * What runs of requests and answers keep besides the counts: the message sizes
 * change only with a Tversion, and as long as tags are fresh every waiting request
 * is found under its tag, so that a hangup finds them all.
 */
module ServerRuns {
  import opened Basics
  import opened Server
  import opened ServerInvariant
  import opened ServerTeardown

  /** Nothing is synthesised, and every request that waits is found under its tag. */
  ghost predicate Orderly(c: Conn) {
    c.todo == [] && Tracked(c, None)
  }

  /** The message sizes are the same, and no Tversion waits for an answer. */
  ghost predicate SameSizes(c: Conn, d: Conn) {
    d.rsize == c.rsize && d.wsize == c.wsize && NoVersion(d)
  }

  ghost predicate Calm(c: Conn, d: Conn) {
    SameSizes(c, d) && (Orderly(c) ==> Orderly(d))
  }

  /** Every fid is open as it was, or new and not open. */
  ghost predicate SameModes(c: Conn, d: Conn) {
    && c.next <= d.next
    && forall n :: n in d.fidmap ==>
        || (n in c.fidmap && d.fidmap[n].serial == c.fidmap[n].serial && d.fidmap[n].omode == c.fidmap[n].omode)
        || (d.fidmap[n].serial >= c.next && d.fidmap[n].omode == -1)
  }

  /** The answer does not open anything. */
  predicate NoGrant(q: Req, a: Answer) {
    a.error.Some? || !(q.msg.Open? || q.msg.Create?)
  }

  lemma FinishOrderly(c: Conn, id: nat, reply: Reply)
    requires Orderly(c) && id in c.live
    ensures Orderly(Finish(c, id, reply))
  {
    assert c.tagmap[c.live[id].tag] == id by { assert Held(c, id); }
    var d := Finish(c, id, reply);
    forall i | Held(d, i) ensures d.live[i].tag in d.tagmap && d.tagmap[d.live[i].tag] == i {
      assert Held(c, i);
    }
  }

  /** Other changes than to fids and counts do not matter. */
  lemma OrderlyFrame(c: Conn, d: Conn)
    requires Orderly(c) && d.todo == c.todo && d.tagmap == c.tagmap && d.live.Keys == c.live.Keys
    requires forall i :: i in c.live ==> d.live[i].tag == c.live[i].tag
    ensures Orderly(d)
  {
    assert forall i :: Held(d, i) <==> Held(c, i);
  }

  ghost predicate FidsOnly(c: Conn, d: Conn) {
    d.rsize == c.rsize && d.wsize == c.wsize && d.live == c.live && d.tagmap == c.tagmap && d.todo == c.todo
  }

  lemma DestroyCalm(c: Conn, r: Option<FidRef>)
    requires DestroyRef(c, r).Some?
    ensures FidsOnly(c, DestroyRef(c, r).value)
  {
  }

  lemma CreateCalm(c: Conn, num: nat)
    ensures FidsOnly(c, CreateFid(c, num).0) && SameModes(c, CreateFid(c, num).0)
  {
  }

  lemma WalkCalm(c: Conn, q: Req, a: Answer, fid: nat, newfid: nat, nwname: nat)
    requires SettleWalk(c, q, a, fid, newfid, nwname).Some?
    ensures FidsOnly(c, SettleWalk(c, q, a, fid, newfid, nwname).value.c)
  {
    hide DestroyRef;
    if DestroyRef(c, q.newfid).Some? { DestroyCalm(c, q.newfid); }
  }

  lemma SettleCalm(c: Conn, q: Req, a: Answer)
    requires !q.msg.Version? && Settle(c, q, a).Some?
    ensures var d := Settle(c, q, a).value.c; FidsOnly(c, d)
  {
    hide DestroyRef, SettleWalk;
    if DestroyRef(c, q.fid).Some? { DestroyCalm(c, q.fid); }
    if q.msg.Walk? { WalkCalm(c, q, a, q.msg.fid, q.msg.newfid, q.msg.nwname); }
  }

  lemma DestroyModes(c: Conn, r: Option<FidRef>)
    requires DestroyRef(c, r).Some?
    ensures SameModes(c, DestroyRef(c, r).value)
  {
  }

  lemma WalkModes(c: Conn, q: Req, a: Answer, fid: nat, newfid: nat, nwname: nat)
    requires SettleWalk(c, q, a, fid, newfid, nwname).Some?
    ensures SameModes(c, SettleWalk(c, q, a, fid, newfid, nwname).value.c)
  {
    hide DestroyRef;
    if DestroyRef(c, q.newfid).Some? { DestroyModes(c, q.newfid); }
  }

  lemma SettleModes(c: Conn, q: Req, a: Answer)
    requires NoGrant(q, a) && Settle(c, q, a).Some?
    ensures SameModes(c, Settle(c, q, a).value.c)
  {
    hide DestroyRef, SettleWalk;
    if DestroyRef(c, q.fid).Some? { DestroyModes(c, q.fid); }
    if q.msg.Walk? { WalkModes(c, q, a, q.msg.fid, q.msg.newfid, q.msg.nwname); }
  }

  lemma FinishModes(c: Conn, d: Conn, id: nat, reply: Reply)
    requires SameModes(c, d) && id in d.live
    ensures SameModes(c, Finish(d, id, reply))
  {
  }

  lemma {:induction false} RespondModes(c: Conn, id: nat, a: Answer, busy: set<nat>)
    requires id in c.live && NoGrant(c.live[id], a) && Respond(c, id, a, busy).Some?
    ensures SameModes(c, Respond(c, id, a, busy).value)
    decreases |c.live.Keys - busy|
  {
    hide Settle, Finish, SameModes;
    var q := c.live[id];
    if q.msg.Flush? {
      var v := Victim(c, q);
      if v.Some? {
        assert c.live.Keys - (busy + {id}) < c.live.Keys - busy by { assert id in c.live.Keys - busy; }
        Shrinks(c.live.Keys - (busy + {id}), c.live.Keys - busy);
        RespondModes(c, v.value, Refusal(Eintr), busy + {id});
        FinishModes(c, Respond(c, v.value, Refusal(Eintr), busy + {id}).value, id, Plain(c, a, ROk).reply);
      } else {
        SelfModes(c);
        FinishModes(c, c, id, Plain(c, a, ROk).reply);
      }
    } else {
      SettleModes(c, q, a);
      var s := Settle(c, q, a).value;
      FinishModes(c, s.c, id, s.reply);
    }
  }

  lemma SelfModes(c: Conn)
    ensures SameModes(c, c)
  {
  }

  lemma ThenModes(c: Conn, d: Conn, e: Conn)
    requires SameModes(c, d) && SameModes(d, e)
    ensures SameModes(c, e)
  {
  }

  lemma {:induction false} RespondCalm(c: Conn, id: nat, a: Answer, busy: set<nat>)
    requires id in c.live && NoVersion(c) && Respond(c, id, a, busy).Some?
    ensures Calm(c, Respond(c, id, a, busy).value)
    decreases |c.live.Keys - busy|
  {
    hide Settle, Finish, Orderly;
    var q := c.live[id];
    if q.msg.Flush? {
      var v := Victim(c, q);
      if v.Some? {
        assert c.live.Keys - (busy + {id}) < c.live.Keys - busy by { assert id in c.live.Keys - busy; }
        Shrinks(c.live.Keys - (busy + {id}), c.live.Keys - busy);
        RespondCalm(c, v.value, Refusal(Eintr), busy + {id});
        FinishCalm(c, Respond(c, v.value, Refusal(Eintr), busy + {id}).value, id, Plain(c, a, ROk).reply);
      } else {
        FinishCalm(c, c, id, Plain(c, a, ROk).reply);
      }
    } else {
      SettleCalm(c, q, a);
      var s := Settle(c, q, a).value;
      if Orderly(c) { OrderlyFrame(c, s.c); }
      FinishCalm(c, s.c, id, s.reply);
    }
  }

  lemma FinishCalm(c: Conn, d: Conn, id: nat, reply: Reply)
    requires Calm(c, d) && id in d.live
    ensures Calm(c, Finish(d, id, reply))
  {
    if Orderly(c) { FinishOrderly(d, id, reply); }
  }

  ghost predicate HandledCalm(c: Conn, h: Option<Handled>) {
    h.Some? ==> Calm(c, h.value.c) && SameModes(c, h.value.c)
  }

  lemma RefuseCalm(c: Conn, id: nat, e: Err)
    requires id in c.live && NoVersion(c)
    ensures HandledCalm(c, Refuse(c, id, e))
  {
    hide SameModes, Orderly;
    if Refuse(c, id, e).Some? {
      RespondCalm(c, id, Refusal(e), {});
      RespondModes(c, id, Refusal(e), {});
    }
  }

  lemma CallWalkCalm(c: Conn, e: Conn, id: nat)
    requires id in e.live && Calm(c, e) && SameModes(c, e)
    ensures HandledCalm(c, CallWalk(e, id)) && HandledCalm(c, Refuse(e, id, Edupfid))
  {
    hide Respond, Orderly, Refuse, SameModes;
    RefuseCalm(e, id, Enofunc);
    RefuseCalm(e, id, Edupfid);
    if Refuse(e, id, Enofunc).Some? { ThenModes(c, e, Refuse(e, id, Enofunc).value.c); }
    if Refuse(e, id, Edupfid).Some? { ThenModes(c, e, Refuse(e, id, Edupfid).value.c); }
  }

  /** The connection a walk's handler sees: the new fid made, or the old one again. */
  lemma NewFidCalm(c: Conn, id: nat, newfid: nat)
    requires id in c.live && NoVersion(c)
    ensures var (d, r) := CreateFid(c, newfid); id in d.live && Calm(c, SetNewFid(d, id, r)) && SameModes(c, SetNewFid(d, id, r))
    ensures Calm(c, SetNewFid(c, id, c.live[id].fid)) && SameModes(c, SetNewFid(c, id, c.live[id].fid))
  {
    hide Orderly, CreateFid;
    CreateCalm(c, newfid);
    var (d, r) := CreateFid(c, newfid);
    if Orderly(c) {
      OrderlyFrame(c, SetNewFid(d, id, r));
      OrderlyFrame(c, SetNewFid(c, id, c.live[id].fid));
    }
  }

  lemma HandleWalkCalm(c: Conn, id: nat, f: Fid, fid: nat, newfid: nat, nwname: nat)
    requires id in c.live && NoVersion(c)
    ensures HandledCalm(c, HandleWalk(c, id, f, fid, newfid, nwname))
  {
    hide Respond, Refuse, CallWalk, CreateFid, Calm, NoVersion, SameModes;
    RefuseCalm(c, id, Ewalkopen);
    RefuseCalm(c, id, Enotdir);
    NewFidCalm(c, id, newfid);
    if fid != newfid {
      var (d, r) := CreateFid(c, newfid);
      CallWalkCalm(c, SetNewFid(d, id, r), id);
    } else {
      CallWalkCalm(c, SetNewFid(c, id, c.live[id].fid), id);
    }
  }

  lemma HandleOnFidCalm(c: Conn, id: nat, msg: Request, f: Fid)
    requires id in c.live && NoVersion(c) && c.live[id].msg == msg
    ensures HandledCalm(c, HandleOnFid(c, id, msg, f))
  {
    hide Respond, HandleWalk, SameModes, Orderly;
    SelfModes(c);
    if msg.Clunk? {
      if Respond(c, id, Done(), {}).Some? {
        RespondCalm(c, id, Done(), {});
        if !c.live[id].msg.Open? && !c.live[id].msg.Create? { RespondModes(c, id, Done(), {}); }
      }
    } else if msg.Walk? {
      HandleWalkCalm(c, id, f, msg.fid, msg.newfid, msg.nwname);
    } else if Precheck(c, msg, f).Some? {
      RefuseCalm(c, id, Precheck(c, msg, f).value);
    }
  }

  lemma AttachCalm(c: Conn, id: nat)
    requires id in c.live && NoVersion(c) && c.live[id].msg.Attach?
    ensures HandledCalm(c, HandleReq(c, id))
  {
    hide Respond, HandleOnFid, Orderly, CreateFid;
    CreateCalm(c, c.live[id].msg.fid);
    var (d, r) := CreateFid(c, c.live[id].msg.fid);
    if Orderly(c) { OrderlyFrame(c, SetFid(d, id, r)); }
    RefuseCalm(SetFid(d, id, r), id, Edupfid);
  }

  lemma FidReqCalm(c: Conn, id: nat)
    requires id in c.live && NoVersion(c)
    requires !c.live[id].msg.Unknown? && !c.live[id].msg.Flush? && !c.live[id].msg.Attach?
    ensures HandledCalm(c, HandleReq(c, id))
  {
    hide Respond, HandleOnFid, Orderly, CreateFid;
    var msg := c.live[id].msg;
    var e := SetFid(c, id, Lookup(c, msg.fid));
    if Orderly(c) { OrderlyFrame(c, e); }
    RefuseCalm(e, id, Enofid);
    if msg.fid in c.fidmap { HandleOnFidCalm(e, id, msg, c.fidmap[msg.fid]); }
  }

  lemma HandleReqCalm(c: Conn, id: nat)
    requires id in c.live && NoVersion(c)
    ensures HandledCalm(c, HandleReq(c, id))
  {
    hide Respond, HandleOnFid, Orderly, CreateFid;
    var msg := c.live[id].msg;
    if msg.Unknown? || msg.Flush? {
      RefuseCalm(c, id, Enofunc);
      RefuseCalm(c, id, Enotag);
    } else if msg.Attach? {
      AttachCalm(c, id);
    } else {
      FidReqCalm(c, id);
    }
  }

  lemma VersionSettles(c: Conn, q: Req)
    requires q.msg.Version?
    ensures Settle(c, q, Refusal(Eduptag)).None? && Settle(c, q, Done()).Some?
    ensures var d := Settle(c, q, Done()).value.c; d == c.(rsize := d.rsize, wsize := d.wsize)
  {
    hide DestroyRef, SettleOpen, SettleWalk;
  }

  /** Answering a Tversion: never with an error. */
  lemma VersionRespond(c: Conn, id: nat)
    requires id in c.live && c.live[id].msg.Version?
    ensures Respond(c, id, Refusal(Eduptag), {}).None? && Respond(c, id, Done(), {}).Some?
    ensures var d := Respond(c, id, Done(), {}).value;
      && d.live == c.live - {id} && d.todo == c.todo && d.tagmap == c.tagmap - {c.live[id].tag}
      && d.fidmap == c.fidmap && d.next == c.next
  {
    hide Settle;
    VersionSettles(c, c.live[id]);
  }

  lemma VersionShape(c: Conn, tag: nat, msg: Request)
    requires msg.Version? && Receive(c, tag, msg).Some?
    ensures var b := Bind(Admit(c.(wired := true), Req(tag, msg, None, None)), tag, c.next);
      && tag !in c.tagmap && Respond(b, c.next, Done(), {}) == Some(Receive(c, tag, msg).value.c)
  {
    hide Respond;
    VersionRespond(Admit(c.(wired := true), Req(tag, msg, None, None)), c.next);
  }

  /** A Tversion is answered at once, or not at all. */
  lemma VersionNet(c: Conn, tag: nat, msg: Request)
    requires msg.Version? && c.next !in c.live && Receive(c, tag, msg).Some?
    ensures var d := Receive(c, tag, msg).value.c;
      d.live == c.live && d.todo == c.todo && d.tagmap == c.tagmap && d.fidmap == c.fidmap && c.next <= d.next
  {
    hide Respond, Receive;
    VersionShape(c, tag, msg);
    VersionRespond(Bind(Admit(c.(wired := true), Req(tag, msg, None, None)), tag, c.next), c.next);
  }

  lemma VersionGone(c: Conn, tag: nat, msg: Request)
    requires NoVersion(c) && msg.Version? && c.next !in c.live && Receive(c, tag, msg).Some?
    ensures NoVersion(Receive(c, tag, msg).value.c)
  {
    hide Receive;
    VersionNet(c, tag, msg);
  }

  lemma ReceiveCalm(c: Conn, tag: nat, msg: Request)
    requires NoVersion(c) && !msg.Version? && Receive(c, tag, msg).Some?
    ensures SameSizes(c, Receive(c, tag, msg).value.c) && SameModes(c, Receive(c, tag, msg).value.c)
  {
    hide Respond, HandleReq, Orderly;
    var d := Admit(c.(wired := true), Req(tag, msg, None, None));
    RefuseCalm(d, c.next, Eduptag);
    HandleReqCalm(Bind(d, tag, c.next), c.next);
  }

  lemma {:induction false} VoidFidsCalm(c: Conn, fids: seq<nat>)
    requires NoVersion(c)
    ensures SameSizes(c, VoidFids(c, fids))
    decreases |fids|
  {
    if fids != [] {
      VoidFidsCalm(VoidFid(c, fids[0]), fids[1..]);
    }
  }

  lemma {:induction false} VoidRequestsCalm(c: Conn, tags: seq<nat>)
    requires NoVersion(c)
    ensures SameSizes(c, VoidRequests(c, tags))
    decreases |tags|
  {
    if tags != [] {
      VoidRequestsCalm(VoidRequest(c, tags[0]), tags[1..]);
    }
  }

  predicate Renegotiates(e: Event) {
    e.Recv? && e.msg.Version?
  }

  lemma MarkCalm(c: Conn, num: nat, qid: Qid)
    requires NoVersion(c) && num in c.fidmap
    ensures Calm(c, SetQid(c, num, qid)) && SameModes(c, SetQid(c, num, qid))
  {
    hide Orderly;
    if Orderly(c) { OrderlyFrame(c, SetQid(c, num, qid)); }
  }

  lemma ApplyCalm(c: Conn, e: Event)
    requires Inv(c) && NoVersion(c) && Enabled(c, e) && Apply(c, e).Some?
    ensures NoVersion(Apply(c, e).value)
    ensures !Renegotiates(e) ==> SameSizes(c, Apply(c, e).value)
  {
    hide Respond, HandleReq, Receive, Orderly;
    match e
    case Recv(tag, msg) =>
      if msg.Version? {
        NextFresh(c);
        VersionGone(c, tag, msg);
      } else {
        ReceiveCalm(c, tag, msg);
      }
    case Mark(id, qid) => MarkCalm(c, c.live[id].fid.value.num, qid);
    case Answered(id, a) => RespondCalm(c, id, a, {});
    case Hangup(fids, tags) =>
      var d := c.(wired := false, closing := true);
      VoidFidsCalm(d, fids);
      VoidRequestsCalm(VoidFids(d, fids), tags);
    case CleanStep => HandleReqCalm(c.(todo := c.todo[1..]), c.todo[0]);
    case CleanFinish =>
  }

  lemma VersionModes(c: Conn, tag: nat, msg: Request)
    requires msg.Version? && c.next !in c.live && Receive(c, tag, msg).Some?
    ensures SameModes(c, Receive(c, tag, msg).value.c)
  {
    hide Receive;
    VersionNet(c, tag, msg);
  }

  lemma {:induction false} VoidFidsModes(c: Conn, fids: seq<nat>)
    ensures SameModes(c, VoidFids(c, fids))
    decreases |fids|
  {
    if fids != [] {
      VoidFidsModes(VoidFid(c, fids[0]), fids[1..]);
    }
  }

  lemma {:induction false} VoidRequestsModes(c: Conn, tags: seq<nat>)
    ensures SameModes(c, VoidRequests(c, tags))
    decreases |tags|
  {
    if tags != [] {
      VoidRequestsModes(VoidRequest(c, tags[0]), tags[1..]);
    }
  }

  lemma HangUpModes(c: Conn, fids: seq<nat>, tags: seq<nat>)
    ensures SameModes(c, HangUp(c, fids, tags))
  {
    hide VoidFids, VoidRequests;
    var d := c.(wired := false, closing := true);
    VoidFidsModes(d, fids);
    VoidRequestsModes(VoidFids(d, fids), tags);
    ThenModes(d, VoidFids(d, fids), VoidRequests(VoidFids(d, fids), tags));
  }

  /** No event opens or closes a fid but the answer to a Topen or Tcreate. */
  lemma ApplyModes(c: Conn, e: Event)
    requires Inv(c) && NoVersion(c) && Enabled(c, e) && Apply(c, e).Some?
    requires e.Answered? ==> NoGrant(c.live[e.id], e.a)
    ensures SameModes(c, Apply(c, e).value)
  {
    hide Respond, HandleReq, Receive, Orderly, HangUp, SameModes;
    match e
    case Recv(tag, msg) =>
      if msg.Version? {
        NextFresh(c);
        VersionModes(c, tag, msg);
      } else {
        ReceiveCalm(c, tag, msg);
      }
    case Mark(id, qid) => MarkCalm(c, c.live[id].fid.value.num, qid);
    case Answered(id, a) => RespondModes(c, id, a, {});
    case Hangup(fids, tags) => HangUpModes(c, fids, tags);
    case CleanStep => TodoModes(c);
    case CleanFinish => EndModes(c);
  }

  lemma TodoModes(c: Conn)
    requires NoVersion(c) && c.todo != [] && c.todo[0] in c.live && CleanNext(c).Some?
    ensures SameModes(c, CleanNext(c).value.c)
  {
    hide Respond, HandleReq;
    HandleReqCalm(c.(todo := c.todo[1..]), c.todo[0]);
  }

  lemma EndModes(c: Conn)
    ensures SameModes(c, CleanEnd(c))
  {
  }

  lemma NextFresh(c: Conn)
    requires Inv(c)
    ensures c.next !in c.live
  {
  }

  lemma {:induction false} RunCalm(c: Conn, es: seq<Event>, z: Conn)
    requires Inv(c) && NoVersion(c) && Run(c, es, z)
    ensures NoVersion(z)
    ensures (forall i :: 0 <= i < |es| ==> !Renegotiates(es[i])) ==> SameSizes(c, z)
    decreases |es|
  {
    hide Inv, Apply;
    if es != [] {
      ApplyCalm(c, es[0]);
      ApplyInv(c, es[0]);
      RunCalm(Apply(c, es[0]).value, es[1..], z);
      assert forall i :: 0 <= i < |es[1..]| ==> es[1..][i] == es[i + 1];
    }
  }

  // ---- Hanging up after any run ----

  /** The run has requests and what handlers do only, and clients keep to the protocol's tag rules. */
  ghost predicate FreshTags(c: Conn, es: seq<Event>)
    decreases |es|
  {
    es != [] ==>
      && (es[0].Recv? || es[0].Mark? || es[0].Answered?) && Enabled(c, es[0]) && Apply(c, es[0]).Some?
      && (es[0].Recv? ==> es[0].tag !in c.tagmap && (es[0].msg.Version? || es[0].tag != NOTAG))
      && FreshTags(Apply(c, es[0]).value, es[1..])
  }

  lemma BindOrderly(c: Conn, tag: nat, msg: Request)
    requires Orderly(c) && tag !in c.tagmap && tag != NOTAG && c.next !in c.live
    ensures Orderly(Bind(Admit(c.(wired := true), Req(tag, msg, None, None)), tag, c.next))
  {
    var d := Bind(Admit(c.(wired := true), Req(tag, msg, None, None)), tag, c.next);
    forall i | Held(d, i) ensures d.live[i].tag in d.tagmap && d.tagmap[d.live[i].tag] == i {
      if i != c.next { assert Held(c, i); }
    }
  }

  lemma ReceiveOrderly(c: Conn, tag: nat, msg: Request)
    requires Orderly(c) && NoVersion(c) && tag !in c.tagmap && tag != NOTAG && c.next !in c.live && !msg.Version?
    requires Receive(c, tag, msg).Some?
    ensures Orderly(Receive(c, tag, msg).value.c)
  {
    hide Respond, HandleReq, Orderly;
    BindOrderly(c, tag, msg);
    HandleReqCalm(Bind(Admit(c.(wired := true), Req(tag, msg, None, None)), tag, c.next), c.next);
  }

  /** A Tversion comes and goes. */
  lemma VersionOrderly(c: Conn, tag: nat, msg: Request)
    requires Orderly(c) && msg.Version? && tag !in c.tagmap && c.next !in c.live && Receive(c, tag, msg).Some?
    ensures Orderly(Receive(c, tag, msg).value.c)
  {
    hide Receive;
    VersionNet(c, tag, msg);
    OrderlyFrame(c, Receive(c, tag, msg).value.c);
  }

  lemma ApplyOrderly(c: Conn, e: Event)
    requires Inv(c) && NoVersion(c) && Orderly(c) && FreshTags(c, [e])
    ensures Orderly(Apply(c, e).value)
  {
    hide Respond, Receive, Orderly, Inv;
    NextFresh(c);
    match e
    case Recv(tag, msg) =>
      if msg.Version? { VersionOrderly(c, tag, msg); } else { ReceiveOrderly(c, tag, msg); }
    case Mark(id, qid) => MarkCalm(c, c.live[id].fid.value.num, qid);
    case Answered(id, a) => RespondCalm(c, id, a, {});
  }

  lemma {:induction false} RunOrderly(c: Conn, es: seq<Event>, z: Conn)
    requires Inv(c) && NoVersion(c) && Orderly(c) && FreshTags(c, es) && Run(c, es, z)
    ensures Inv(z) && NoVersion(z) && Orderly(z)
    decreases |es|
  {
    hide Inv, Apply, Orderly, NoVersion;
    if es != [] {
      assert FreshTags(c, [es[0]]);
      ApplyOrderly(c, es[0]);
      ApplyCalm(c, es[0]);
      ApplyInv(c, es[0]);
      RunOrderly(Apply(c, es[0]).value, es[1..], z);
    }
  }
}
