/** What every event of a server connection keeps, whatever the handlers answer and when. */
module ServerInvariant {
  import opened Basics
  import opened Server

  /** One reference per fid, per unanswered request, and for the connection itself. */
  ghost predicate RefInv(c: Conn) {
    && c.ref == (if c.attached then 1 else 0) + |c.fidmap| + |c.live|
    && c.frees == (if c.ref == 0 then 1 else 0)
  }

  /** The tag table names live requests, under their own tags. */
  ghost predicate TagInv(c: Conn) {
    forall t :: t in c.tagmap ==> c.tagmap[t] in c.live && c.live[c.tagmap[t]].tag == t
  }

  /** Serials in use are below `next`, so a new request or fid is really new. */
  ghost predicate FreshInv(c: Conn) {
    && (forall i :: i in c.live ==> i < c.next)
    && (forall f :: f in c.fidmap ==> c.fidmap[f].serial < c.next)
    && (forall k :: 0 <= k < |c.out| ==> c.out[k].id < c.next)
  }

  /** No request is answered twice, and an answered one is no longer live. */
  ghost predicate OutInv(c: Conn) {
    && (forall k, l :: 0 <= k < l < |c.out| ==> c.out[k].id != c.out[l].id)
    && (forall k :: 0 <= k < |c.out| ==> c.out[k].id !in c.live)
  }

  ghost predicate SizeInv(c: Conn) {
    c.rsize == c.wsize && MIN_MSIZE <= c.rsize <= MAX_MSG
  }

  /** Only during teardown are there synthesised requests waiting. */
  ghost predicate TodoInv(c: Conn) {
    && NoDup(c.todo)
    && (forall i :: i in c.todo ==> i in c.live)
    && (forall t :: t in c.tagmap ==> c.tagmap[t] !in c.todo)
    && (!c.closing ==> c.todo == [] && c.attached)
    && (c.closing ==> !c.wired)
    && (!c.attached ==> c.closing && c.todo == [])
  }

  /** A pending Tversion was already accepted, so its size is at least the minimum. */
  ghost predicate VersionInv(c: Conn) {
    forall i :: i in c.live && c.live[i].msg.Version? ==> c.live[i].msg.msize >= MIN_MSIZE
  }

  ghost predicate Inv(c: Conn) {
    RefInv(c) && TagInv(c) && FreshInv(c) && OutInv(c) && SizeInv(c) && TodoInv(c) && VersionInv(c)
  }

  /** What ixp_respond leaves alone. */
  ghost predicate Kept(c: Conn, d: Conn) {
    && d.attached == c.attached && d.closing == c.closing && d.wired == c.wired
    && d.todo == c.todo && d.next == c.next && d.srv == c.srv
  }

  // ---- ixp_respond ----

  /** The part of the invariant that the switch of ixp_respond can touch. */
  ghost predicate Core(c: Conn) {
    RefInv(c) && FreshInv(c) && SizeInv(c)
  }

  ghost predicate OnlyFids(c: Conn, d: Conn) {
    && d == c.(fidmap := d.fidmap, ref := d.ref, frees := d.frees, rsize := d.rsize, wsize := d.wsize)
    && d.fidmap.Keys <= c.fidmap.Keys
  }

  lemma LiveSize(c: Conn, id: nat)
    requires id in c.live
    ensures |c.live| > 0
  {
    MapRemoveSize(c.live, id);
  }

  lemma DestroyRefCore(c: Conn, r: Option<FidRef>)
    requires Core(c) && |c.live| > 0 && DestroyRef(c, r).Some?
    ensures Core(DestroyRef(c, r).value) && OnlyFids(c, DestroyRef(c, r).value)
  {
    if r.Some? {
      MapRemoveSize(c.fidmap, r.value.num);
    }
  }

  lemma OpenCore(c: Conn, q: Req, a: Answer, mode: nat)
    requires Core(c) && SettleOpen(c, q, a, mode).Some?
    ensures var s := SettleOpen(c, q, a, mode).value; Core(s.c) && OnlyFids(c, s.c)
  {
    var s := SettleOpen(c, q, a, mode).value;
    if a.error.None? {
      MapAddSize(c.fidmap, q.fid.value.num, s.c.fidmap[q.fid.value.num]);
    }
  }

  lemma WalkCore(c: Conn, q: Req, a: Answer, fid: nat, newfid: nat, nwname: nat)
    requires Core(c) && |c.live| > 0 && SettleWalk(c, q, a, fid, newfid, nwname).Some?
    ensures var s := SettleWalk(c, q, a, fid, newfid, nwname).value; Core(s.c) && OnlyFids(c, s.c)
  {
    var s := SettleWalk(c, q, a, fid, newfid, nwname).value;
    if a.error.Some? || a.nwqid < nwname {
      if fid != newfid {
        DestroyRefCore(c, q.newfid);
      }
    } else {
      MapAddSize(c.fidmap, q.newfid.value.num, s.c.fidmap[q.newfid.value.num]);
    }
  }

  lemma SettleCore(c: Conn, q: Req, a: Answer)
    requires Core(c) && |c.live| > 0 && Settle(c, q, a).Some?
    requires q.msg.Version? ==> q.msg.msize >= MIN_MSIZE
    ensures var s := Settle(c, q, a).value; Core(s.c) && OnlyFids(c, s.c)
  {
    match q.msg
    case Open(_, mode) => OpenCore(c, q, a, mode);
    case Create(_, mode) => OpenCore(c, q, a, mode);
    case Walk(fid, newfid, nwname) => WalkCore(c, q, a, fid, newfid, nwname);
    case Attach(_) => if a.error.Some? { DestroyRefCore(c, q.fid); }
    case Remove(_) => DestroyRefCore(c, q.fid);
    case Clunk(_) => DestroyRefCore(c, q.fid);
    case _ =>
  }

  lemma SettleInv(c: Conn, id: nat, a: Answer)
    requires Inv(c) && id in c.live && Settle(c, c.live[id], a).Some?
    ensures var s := Settle(c, c.live[id], a).value; Inv(s.c) && OnlyFids(c, s.c)
  {
    LiveSize(c, id);
    SettleCore(c, c.live[id], a);
  }

  lemma FinishInv(c: Conn, id: nat, reply: Reply)
    requires Inv(c) && id in c.live && id !in c.todo
    ensures Inv(Finish(c, id, reply)) && Kept(c, Finish(c, id, reply))
  {
    MapRemoveSize(c.live, id);
    var d := Finish(c, id, reply);
    assert forall i :: i in d.live <==> i in c.live && i != id;
    assert OutInv(d);
  }

  /** The requests answered by one ixp_respond: the request and the chain it flushed. */
  ghost predicate Answers(c: Conn, d: Conn, id: nat) {
    && Kept(c, d)
    && id !in d.live
    && (forall i :: i in d.live ==> i in c.live && d.live[i] == c.live[i])
    && (forall t :: t in d.tagmap ==> t in c.tagmap && d.tagmap[t] == c.tagmap[t])
    && d.fidmap.Keys <= c.fidmap.Keys
    && c.out <= d.out
  }

  lemma FinishAnswers(c: Conn, d: Conn, id: nat, reply: Reply)
    requires id in d.live && d.todo == c.todo && Kept(c, d)
    requires forall i :: i in d.live ==> i in c.live && d.live[i] == c.live[i]
    requires forall t :: t in d.tagmap ==> t in c.tagmap && d.tagmap[t] == c.tagmap[t]
    requires d.fidmap.Keys <= c.fidmap.Keys && c.out <= d.out
    ensures Answers(c, Finish(d, id, reply), id)
  {
  }

  lemma {:induction false} RespondInv(c: Conn, id: nat, a: Answer, busy: set<nat>)
    requires Inv(c) && id in c.live && id !in c.todo && Respond(c, id, a, busy).Some?
    ensures Inv(Respond(c, id, a, busy).value)
    ensures Answers(c, Respond(c, id, a, busy).value, id)
    decreases |c.live.Keys - busy|
  {
    var q := c.live[id];
    if q.msg.Flush? {
      var v := Victim(c, q);
      if v.None? {
        FinishInv(c, id, Plain(c, a, ROk).reply);
        FinishAnswers(c, c, id, Plain(c, a, ROk).reply);
      } else {
        assert c.live.Keys - (busy + {id}) < c.live.Keys - busy by { assert id in c.live.Keys - busy; }
        Shrinks(c.live.Keys - (busy + {id}), c.live.Keys - busy);
        RespondInv(c, v.value, Refusal(Eintr), busy + {id});
        var d := Respond(c, v.value, Refusal(Eintr), busy + {id}).value;
        FinishInv(d, id, Plain(d, a, ROk).reply);
        FinishAnswers(c, d, id, Plain(d, a, ROk).reply);
      }
    } else {
      SettleInv(c, id, a);
      var s := Settle(c, q, a).value;
      FinishInv(s.c, id, s.reply);
      FinishAnswers(c, s.c, id, s.reply);
    }
  }

  // ---- handlereq ----

  /** handlereq on request id went well: the invariant holds and the request is pending or gone. */
  ghost predicate Good(c: Conn, id: nat, h: Option<Handled>) {
    h.Some? ==>
      && Inv(h.value.c) && h.value.c.todo == c.todo && h.value.c.closing == c.closing && h.value.c.attached == c.attached
      && (h.value.pending <==> id in h.value.c.live) && c.out <= h.value.c.out
  }

  ghost predicate Ready(c: Conn, id: nat) {
    Inv(c) && id in c.live && id !in c.todo
  }

  lemma RefuseGood(c: Conn, id: nat, e: Err)
    requires Ready(c, id)
    ensures Good(c, id, Refuse(c, id, e))
  {
    if Refuse(c, id, e).Some? {
      RespondInv(c, id, Refusal(e), {});
    }
  }

  lemma DoneGood(c: Conn, id: nat)
    requires Ready(c, id) && Respond(c, id, Done(), {}).Some?
    ensures Good(c, id, Some(Handled(Respond(c, id, Done(), {}).value, false)))
  {
    RespondInv(c, id, Done(), {});
  }

  lemma CreateFidInv(c: Conn, num: nat, id: nat)
    requires Ready(c, id)
    ensures var (d, r) := CreateFid(c, num);
      && Ready(d, id) && d == c.(fidmap := d.fidmap, ref := d.ref, next := d.next)
      && (r.None? ==> d == c && num in c.fidmap)
      && (r.Some? ==> d.fidmap.Keys == c.fidmap.Keys + {num} && num !in c.fidmap)
  {
    LiveSize(c, id);
    MapAddSize(c.fidmap, num, Fid(c.next, -1, Qid(false, 0), 0));
  }

  /** Filling in a live request's fid pointers keeps everything. */
  lemma PointersInv(c: Conn, id: nat, q: Req)
    requires Ready(c, id) && q.tag == c.live[id].tag && q.msg == c.live[id].msg
    ensures Ready(c.(live := c.live[id := q]), id)
  {
    MapAddSize(c.live, id, q);
  }

  lemma SetFidReady(c: Conn, id: nat, r: Option<FidRef>)
    requires Ready(c, id)
    ensures Ready(SetFid(c, id, r), id) && Ready(SetNewFid(c, id, r), id)
  {
    PointersInv(c, id, c.live[id].(fid := r));
    PointersInv(c, id, c.live[id].(newfid := r));
  }

  lemma CallWalkGood(c: Conn, id: nat)
    requires Ready(c, id)
    ensures Good(c, id, CallWalk(c, id))
  {
    RefuseGood(c, id, Enofunc);
  }

  lemma HandleWalkGood(c: Conn, id: nat, f: Fid, fid: nat, newfid: nat, nwname: nat)
    requires Ready(c, id)
    ensures Good(c, id, HandleWalk(c, id, f, fid, newfid, nwname))
  {
    if f.omode != -1 {
      RefuseGood(c, id, Ewalkopen);
    } else if nwname > 0 && !f.qid.dir {
      RefuseGood(c, id, Enotdir);
    } else if fid != newfid {
      CreateFidInv(c, newfid, id);
      var (d, r) := CreateFid(c, newfid);
      SetFidReady(d, id, r);
      if r.None? { RefuseGood(SetNewFid(d, id, r), id, Edupfid); }
      else { CallWalkGood(SetNewFid(d, id, r), id); }
    } else {
      SetFidReady(c, id, c.live[id].fid);
      CallWalkGood(SetNewFid(c, id, c.live[id].fid), id);
    }
  }

  lemma HandleOnFidGood(c: Conn, id: nat, msg: Request, f: Fid)
    requires Ready(c, id)
    ensures Good(c, id, HandleOnFid(c, id, msg, f))
  {
    if msg.Clunk? {
      if !c.srv.clunk && Respond(c, id, Done(), {}).Some? { DoneGood(c, id); }
    } else if msg.Walk? {
      HandleWalkGood(c, id, f, msg.fid, msg.newfid, msg.nwname);
    } else {
      var p := Precheck(c, msg, f);
      if p.Some? { RefuseGood(c, id, p.value); }
    }
  }

  lemma AttachGood(c: Conn, id: nat, fid: nat)
    requires Ready(c, id) && c.live[id].msg == Attach(fid)
    ensures Good(c, id, HandleReq(c, id))
  {
    CreateFidInv(c, fid, id);
    var (d, r) := CreateFid(c, fid);
    SetFidReady(d, id, r);
    RefuseGood(SetFid(d, id, r), id, Edupfid);
  }

  lemma FidReqGood(c: Conn, id: nat, msg: Request)
    requires Ready(c, id) && c.live[id].msg == msg && !msg.Version? && !msg.Unknown? && !msg.Attach? && !msg.Flush?
    ensures Good(c, id, HandleReq(c, id))
  {
    hide Inv, Respond, HandleOnFid, Refuse;
    var e := SetFid(c, id, Lookup(c, msg.fid));
    SetFidReady(c, id, Lookup(c, msg.fid));
    RefuseGood(e, id, Enofid);
    if msg.fid in c.fidmap { HandleOnFidGood(e, id, msg, c.fidmap[msg.fid]); }
  }

  lemma HandleReqGood(c: Conn, id: nat)
    requires Ready(c, id)
    ensures Good(c, id, HandleReq(c, id))
  {
    hide Inv, Respond, HandleOnFid, Refuse, CreateFid;
    var msg := c.live[id].msg;
    if msg.Version? {
      if Respond(c, id, Done(), {}).Some? { DoneGood(c, id); }
    } else if msg.Unknown? {
      RefuseGood(c, id, Enofunc);
    } else if msg.Attach? {
      AttachGood(c, id, msg.fid);
    } else if msg.Flush? {
      RefuseGood(c, id, Enotag);
      RefuseGood(c, id, Enofunc);
    } else {
      FidReqGood(c, id, msg);
    }
  }

  // ---- Events ----

  lemma AdmitInv(c: Conn, q: Req)
    requires Inv(c) && c.attached && (q.msg.Version? ==> q.msg.msize >= MIN_MSIZE)
    ensures Ready(Admit(c, q), c.next) && c.next !in c.live
    ensures forall t :: t in c.tagmap ==> c.tagmap[t] != c.next
  {
    MapAddSize(c.live, c.next, q);
  }

  lemma BindInv(c: Conn, tag: nat, id: nat)
    requires Ready(c, id) && c.live[id].tag == tag
    ensures Ready(Bind(c, tag, id), id)
  {
  }

  lemma ReceiveInv(c: Conn, tag: nat, msg: Request)
    requires Inv(c) && Enabled(c, Recv(tag, msg)) && Receive(c, tag, msg).Some?
    ensures Inv(Receive(c, tag, msg).value.c) && c.out <= Receive(c, tag, msg).value.c.out
  {
    var b := c.(wired := true);
    assert Inv(b);
    var d := Admit(b, Req(tag, msg, None, None));
    AdmitInv(b, Req(tag, msg, None, None));
    if tag in c.tagmap {
      RefuseGood(d, c.next, Eduptag);
    } else {
      BindInv(d, tag, c.next);
      HandleReqGood(Bind(d, tag, c.next), c.next);
    }
  }

  lemma VoidInv(c: Conn, q: Req)
    requires Inv(c) && c.closing && c.attached && !q.msg.Version?
    ensures var d := Queue(Admit(c, q), c.next); Inv(d) && d.closing && d.attached
  {
    AdmitInv(c, q);
  }

  lemma {:induction false} VoidFidsInv(c: Conn, fids: seq<nat>)
    requires Inv(c) && c.closing && c.attached
    ensures Inv(VoidFids(c, fids)) && VoidFids(c, fids).closing && VoidFids(c, fids).attached
    ensures VoidFids(c, fids).out == c.out
    decreases |fids|
  {
    if fids != [] {
      VoidInv(c, Req(NOTAG, Clunk(fids[0]), Lookup(c, fids[0]), None));
      VoidFidsInv(VoidFid(c, fids[0]), fids[1..]);
    }
  }

  lemma {:induction false} VoidRequestsInv(c: Conn, tags: seq<nat>)
    requires Inv(c) && c.closing && c.attached
    ensures Inv(VoidRequests(c, tags)) && VoidRequests(c, tags).closing && VoidRequests(c, tags).attached
    ensures VoidRequests(c, tags).out == c.out
    decreases |tags|
  {
    if tags != [] {
      VoidInv(c, Req(NOTAG, Flush(tags[0]), None, None));
      VoidRequestsInv(VoidRequest(c, tags[0]), tags[1..]);
    }
  }

  lemma MarkInv(c: Conn, num: nat, qid: Qid)
    requires Inv(c) && num in c.fidmap
    ensures Inv(SetQid(c, num, qid)) && SetQid(c, num, qid).fidmap.Keys == c.fidmap.Keys
  {
    MapAddSize(c.fidmap, num, c.fidmap[num].(qid := qid));
  }

  lemma ApplyInv(c: Conn, e: Event)
    requires Inv(c) && Enabled(c, e) && Apply(c, e).Some?
    ensures Inv(Apply(c, e).value) && c.out <= Apply(c, e).value.out
  {
    match e
    case Recv(tag, msg) => ReceiveInv(c, tag, msg);
    case Mark(id, qid) => MarkInv(c, c.live[id].fid.value.num, qid);
    case Answered(id, a) => RespondInv(c, id, a, {});
    case Hangup(fids, tags) =>
      var d := c.(wired := false, closing := true);
      assert Inv(d);
      if c.ref > 1 {
        VoidFidsInv(d, fids);
        VoidRequestsInv(VoidFids(d, fids), tags);
      }
    case CleanStep =>
      assert forall i :: i in c.todo[1..] ==> i in c.todo;
      assert Inv(c.(todo := c.todo[1..]));
      assert c.todo[0] !in c.todo[1..];
      HandleReqGood(c.(todo := c.todo[1..]), c.todo[0]);
    case CleanFinish =>
  }

  lemma {:induction false} RunInv(c: Conn, es: seq<Event>, c': Conn)
    requires Inv(c) && Run(c, es, c')
    ensures Inv(c') && c.out <= c'.out
    decreases |es|
  {
    if es != [] {
      ApplyInv(c, es[0]);
      RunInv(Apply(c, es[0]).value, es[1..], c');
    }
  }

  lemma InitialInv(srv: Handlers)
    ensures Inv(Initial(srv))
  {
  }

  /**
   * In every run the reference count is one while connected, plus the fids, plus
   * the unanswered requests; the connection is freed at most once, exactly when
   * that count is zero, and never before it was hung up.
   */
  lemma ReferencesInEveryRun(srv: Handlers, es: seq<Event>, c: Conn)
    requires Run(Initial(srv), es, c)
    ensures c.ref == (if c.attached then 1 else 0) + |c.fidmap| + |c.live|
    ensures c.frees <= 1
    ensures c.frees == 1 <==> !c.attached && c.fidmap == map[] && c.live == map[]
    ensures c.frees == 1 ==> c.closing && !c.wired && forall e :: !Enabled(c, e)
  {
    InitialInv(srv);
    RunInv(Initial(srv), es, c);
    assert c.fidmap == map[] <==> |c.fidmap| == 0;
    assert c.live == map[] <==> |c.live| == 0;
  }

  /** In every run no request is answered twice, and nothing is sent for one that is not live. */
  lemma AnsweredOnce(srv: Handlers, es: seq<Event>, c: Conn)
    requires Run(Initial(srv), es, c)
    ensures forall k, l :: 0 <= k < l < |c.out| ==> c.out[k].id != c.out[l].id
    ensures forall k :: 0 <= k < |c.out| ==> c.out[k].id !in c.live
    ensures forall t :: t in c.tagmap ==> c.tagmap[t] in c.live && c.live[c.tagmap[t]].tag == t
  {
    InitialInv(srv);
    RunInv(Initial(srv), es, c);
  }
}
