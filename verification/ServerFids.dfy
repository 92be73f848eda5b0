/** What each event does to the membership of the fid table, and what replies say about it. */
module ServerFids {
  import opened Basics
  import opened Server
  import opened ServerInvariant
  import opened ServerSync
  import opened ServerHangup

  /** Requests on a fid, and walks. */
  predicate OnFids(msg: Request) {
    msg.Walk? || OnFid(msg)
  }

  predicate WalkDone(msg: Request, reply: Reply) {
    msg.Walk? && reply.RWalk? && reply.nwqid >= msg.nwname
  }

  /** The fids that are out of the table when this reply leaves. */
  function Lost(msg: Request, reply: Reply): set<nat> {
    match msg
    case Walk(fid, newfid, _) => if fid == newfid || WalkDone(msg, reply) then {} else {newfid}
    case Clunk(fid) => {fid}
    case Remove(fid) => {fid}
    case _ => {}
  }

  /** The fids that are in the table when this reply leaves. */
  function Won(msg: Request, reply: Reply): set<nat> {
    if WalkDone(msg, reply) then {msg.newfid} else {}
  }

  /** From c to d, the answer took what it says out of the table and nothing else. */
  ghost predicate Told(c: Conn, d: Conn, msg: Request, reply: Reply) {
    d.fidmap.Keys == c.fidmap.Keys - Lost(msg, reply) && Won(msg, reply) <= d.fidmap.Keys
  }

  /** A request in a handler's hands points to the fids it is about. */
  predicate Pointed(q: Req) {
    && (q.msg.Walk? ==> q.msg.fid != q.msg.newfid && q.newfid.Some? && q.newfid.value.num == q.msg.newfid)
    && (q.msg.Clunk? || q.msg.Remove? ==> q.fid.Some? && q.fid.value.num == q.msg.fid)
  }

  /** It does not, yet. */
  predicate Unpointed(q: Req) {
    (q.msg.Walk? ==> q.newfid.None?) && (q.msg.Clunk? || q.msg.Remove? ==> q.fid.None?)
  }

  // ---- Answers ----

  ghost predicate FidsOnly(c: Conn, d: Conn) {
    d == c.(fidmap := d.fidmap, ref := d.ref, frees := d.frees) && d.fidmap.Keys <= c.fidmap.Keys
  }

  lemma DestroyDrops(c: Conn, r: Option<FidRef>)
    requires DestroyRef(c, r).Some?
    ensures FidsOnly(c, DestroyRef(c, r).value)
    ensures DestroyRef(c, r).value.fidmap.Keys == c.fidmap.Keys - (if r.Some? then {r.value.num} else {})
  {
  }

  lemma OpenDrops(c: Conn, q: Req, a: Answer, mode: nat)
    requires SettleOpen(c, q, a, mode).Some?
    ensures var s := SettleOpen(c, q, a, mode).value;
      && FidsOnly(c, s.c) && s.c.fidmap.Keys == c.fidmap.Keys
      && (if a.error.Some? then s.reply == RError(a.error.value) else !s.reply.RError?)
  {
  }

  lemma WalkDrops(c: Conn, q: Req, a: Answer)
    requires q.msg.Walk? && SettleWalk(c, q, a, q.msg.fid, q.msg.newfid, q.msg.nwname).Some?
    ensures var s := SettleWalk(c, q, a, q.msg.fid, q.msg.newfid, q.msg.nwname).value;
      && FidsOnly(c, s.c)
      && (Pointed(q) ==> Told(c, s.c, q.msg, s.reply))
      && (Unpointed(q) ==> s.c.fidmap.Keys == c.fidmap.Keys)
      && (if a.error.Some? then s.reply == RError(a.error.value) else s.reply != RError(Edupfid))
  {
    hide DestroyRef;
    if DestroyRef(c, q.newfid).Some? { DestroyDrops(c, q.newfid); }
  }

  lemma SettleDrops(c: Conn, q: Req, a: Answer)
    requires OnFids(q.msg) && Settle(c, q, a).Some?
    ensures var s := Settle(c, q, a).value;
      && FidsOnly(c, s.c)
      && (Pointed(q) ==> Told(c, s.c, q.msg, s.reply))
      && (Unpointed(q) ==> s.c.fidmap.Keys == c.fidmap.Keys)
      && (if a.error.Some? then s.reply == RError(a.error.value) else s.reply != RError(Edupfid))
  {
    hide DestroyRef, SettleOpen, SettleWalk, FidsOnly;
    SelfOnly(c);
    match q.msg
    case Walk(_, _, _) => WalkDrops(c, q, a);
    case Open(_, mode) => OpenDrops(c, q, a, mode);
    case Create(_, mode) => OpenDrops(c, q, a, mode);
    case Clunk(_) => DestroyDrops(c, q.fid);
    case Remove(_) => DestroyDrops(c, q.fid);
    case _ =>
  }

  lemma SelfOnly(c: Conn)
    ensures FidsOnly(c, c)
  {
  }

  /** d is c with request id answered: its tag is gone, and one reply left. */
  ghost predicate Responded(c: Conn, d: Conn, id: nat) {
    && id in c.live && c.wired && d.wired && d.closing == c.closing && d.todo == c.todo
    && d.live == c.live - {id} && d.tagmap == c.tagmap - {c.live[id].tag} && d.next == c.next
    && |d.out| == |c.out| + 1 && d.out[..|c.out|] == c.out
    && d.out[|c.out|].id == id && d.out[|c.out|].tag == c.live[id].tag
    && d.fidmap.Keys <= c.fidmap.Keys
  }

  /** Answering a request on fids, by a handler or by the server itself. */
  lemma AnswerFids(c: Conn, id: nat, a: Answer)
    requires id in c.live && OnFids(c.live[id].msg) && c.wired && Respond(c, id, a, {}).Some?
    ensures var d := Respond(c, id, a, {}).value;
      && Responded(c, d, id)
      && (Pointed(c.live[id]) ==> Told(c, d, c.live[id].msg, d.out[|c.out|].reply))
      && (Unpointed(c.live[id]) ==> d.fidmap.Keys == c.fidmap.Keys)
      && (if a.error.Some? then d.out[|c.out|].reply == RError(a.error.value) else d.out[|c.out|].reply != RError(Edupfid))
  {
    hide Settle;
    SettleDrops(c, c.live[id], a);
  }

  // ---- Arrivals ----

  /** The new request waits for its handler. */
  ghost predicate Waiting(c: Conn, d: Conn, tag: nat, msg: Request) {
    && d.wired && d.out == c.out && d.next > c.next && d.closing == c.closing
    && c.next in d.live && d.live[c.next].tag == tag && d.live[c.next].msg == msg && Pointed(d.live[c.next])
    && d.live == c.live[c.next := d.live[c.next]] && d.tagmap == c.tagmap[tag := c.next]
    && d.fidmap.Keys == c.fidmap.Keys + (if msg.Walk? then {msg.newfid} else {})
  }

  /** The new request was answered at once. */
  ghost predicate Refused(c: Conn, d: Conn, tag: nat, msg: Request) {
    && d.wired && d.next > c.next && d.live == c.live && d.tagmap == c.tagmap && d.closing == c.closing
    && |d.out| == |c.out| + 1 && d.out[..|c.out|] == c.out
    && d.out[|c.out|].id == c.next && d.out[|c.out|].tag == tag && d.out[|c.out|].reply != RError(Edupfid)
    && Told(c, d, msg, d.out[|c.out|].reply)
  }

  ghost predicate Taken(c: Conn, h: Option<Handled>, tag: nat, msg: Request) {
    h.Some? ==> if h.value.pending then Waiting(c, h.value.c, tag, msg) else Refused(c, h.value.c, tag, msg)
  }

  /** b is c with the new request, found under its tag. */
  ghost predicate Bound(c: Conn, b: Conn, tag: nat, msg: Request) {
    && c.next in b.live && b.live == c.live[c.next := b.live[c.next]] && c.next !in c.live
    && b.live[c.next].tag == tag && b.live[c.next].msg == msg && b.wired && b.out == c.out && b.next > c.next
    && tag !in c.tagmap && b.tagmap == c.tagmap[tag := c.next] && b.closing == c.closing
  }

  /** Answered without a handler from where its pointers are set. */
  lemma PointedRefused(c: Conn, b: Conn, tag: nat, msg: Request, e: Answer)
    requires Bound(c, b, tag, msg) && OnFids(msg) && Respond(b, c.next, e, {}).Some? && Pointed(b.live[c.next])
    requires e.error != Some(Edupfid) && (msg.Walk? ==> e.error.Some? && msg.newfid !in c.fidmap)
    requires b.fidmap.Keys == c.fidmap.Keys + (if msg.Walk? then {msg.newfid} else {})
    ensures Refused(c, Respond(b, c.next, e, {}).value, tag, msg)
  {
    hide Respond;
    AnswerFids(b, c.next, e);
    var d := Respond(b, c.next, e, {}).value;
    assert d.live == c.live;
    assert d.tagmap == c.tagmap;
  }

  /** Refused before any pointer is set: what it would drop is not in the table anyway. */
  lemma AbsentRefused(c: Conn, b: Conn, tag: nat, msg: Request, e: Err)
    requires Bound(c, b, tag, msg) && OnFids(msg) && Respond(b, c.next, Refusal(e), {}).Some? && e != Edupfid
    requires Unpointed(b.live[c.next]) && b.fidmap.Keys == c.fidmap.Keys && (msg.Walk? ==> msg.newfid !in c.fidmap)
    requires msg.Clunk? || msg.Remove? ==> msg.fid !in c.fidmap
    ensures Refused(c, Respond(b, c.next, Refusal(e), {}).value, tag, msg)
  {
    hide Respond;
    AnswerFids(b, c.next, Refusal(e));
    var d := Respond(b, c.next, Refusal(e), {}).value;
    assert d.live == c.live;
    assert d.tagmap == c.tagmap;
  }

  lemma NewFidTaken(c: Conn, b: Conn, tag: nat, msg: Request)
    requires Bound(c, b, tag, msg) && msg.Walk? && msg.fid != msg.newfid && msg.newfid !in b.fidmap && b.fidmap.Keys == c.fidmap.Keys
    ensures var (d, r) := CreateFid(b, msg.newfid); c.next in d.live && Taken(c, CallWalk(SetNewFid(d, c.next, r), c.next), tag, msg)
  {
    hide Respond, Refused;
    var (d, r) := CreateFid(b, msg.newfid);
    var e := SetNewFid(d, c.next, r);
    if !e.srv.walk && Respond(e, c.next, Refusal(Enofunc), {}).Some? { PointedRefused(c, e, tag, msg, Refusal(Enofunc)); }
  }

  lemma WalkTaken(c: Conn, b: Conn, tag: nat, msg: Request, f: Fid)
    requires Bound(c, b, tag, msg) && msg.Walk? && msg.fid != msg.newfid && msg.newfid !in c.fidmap && b.fidmap == c.fidmap
    requires b.live[c.next].newfid.None?
    ensures Taken(c, HandleWalk(b, c.next, f, msg.fid, msg.newfid, msg.nwname), tag, msg)
  {
    hide Respond, Refused, Waiting, CallWalk;
    if Refuse(b, c.next, Ewalkopen).Some? { AbsentRefused(c, b, tag, msg, Ewalkopen); }
    if Refuse(b, c.next, Enotdir).Some? { AbsentRefused(c, b, tag, msg, Enotdir); }
    NewFidTaken(c, b, tag, msg);
  }

  lemma OnFidTaken(c: Conn, b: Conn, tag: nat, msg: Request, f: Fid)
    requires Bound(c, b, tag, msg) && OnFid(msg) && Pointed(b.live[c.next]) && b.fidmap == c.fidmap
    ensures Taken(c, HandleOnFid(b, c.next, msg, f), tag, msg)
  {
    hide Respond, Refused, Precheck;
    if msg.Clunk? {
      if !b.srv.clunk && Respond(b, c.next, Done(), {}).Some? { PointedRefused(c, b, tag, msg, Done()); }
    } else if Precheck(b, msg, f).Some? {
      PrecheckErr(b, msg, f);
      var e := Precheck(b, msg, f).value;
      if Respond(b, c.next, Refusal(e), {}).Some? { PointedRefused(c, b, tag, msg, Refusal(e)); }
    }
  }

  lemma PrecheckErr(c: Conn, msg: Request, f: Fid)
    ensures Precheck(c, msg, f) != Some(Edupfid)
  {
  }

  /** A request on fids under a fresh tag, a walk to a number that is not in the table. */
  lemma ArriveFids(c: Conn, tag: nat, msg: Request)
    requires c.next !in c.live && tag !in c.tagmap && OnFids(msg)
    requires msg.Walk? ==> msg.newfid !in c.fidmap && msg.fid != msg.newfid
    ensures Taken(c, Receive(c, tag, msg), tag, msg)
  {
    hide Respond, HandleReq, HandleOnFid, Taken;
    var b := Bind(Admit(c.(wired := true), Req(tag, msg, None, None)), tag, c.next);
    HandleReqShape(b, c.next, msg);
    ReqTaken(c, b, tag, msg);
  }

  lemma ReqTaken(c: Conn, b: Conn, tag: nat, msg: Request)
    requires Bound(c, b, tag, msg) && OnFids(msg) && b.fidmap == c.fidmap && b.live[c.next].newfid.None?
    requires msg.Walk? ==> msg.newfid !in c.fidmap && msg.fid != msg.newfid
    ensures var e := SetFid(b, c.next, Lookup(b, msg.fid));
      Taken(c, if msg.fid in c.fidmap then HandleOnFid(e, c.next, msg, c.fidmap[msg.fid]) else Refuse(e, c.next, Enofid), tag, msg)
  {
    hide Respond, HandleWalk, Refused, Waiting;
    var e := SetFid(b, c.next, Lookup(b, msg.fid));
    assert Bound(c, e, tag, msg);
    if msg.fid !in c.fidmap {
      if Refuse(e, c.next, Enofid).Some? { AbsentRefused(c, e, tag, msg, Enofid); }
    } else if msg.Walk? {
      WalkTaken(c, e, tag, msg, c.fidmap[msg.fid]);
    } else {
      OnFidTaken(c, e, tag, msg, c.fidmap[msg.fid]);
    }
  }

  // ---- After a hangup ----

  lemma {:induction false} RespondMute(c: Conn, id: nat, a: Answer, busy: set<nat>)
    requires id in c.live && !c.wired && Respond(c, id, a, busy).Some?
    ensures Respond(c, id, a, busy).value.out == c.out && !Respond(c, id, a, busy).value.wired
    decreases |c.live.Keys - busy|
  {
    hide Settle;
    var q := c.live[id];
    if q.msg.Flush? {
      var v := Victim(c, q);
      if v.Some? {
        assert c.live.Keys - (busy + {id}) < c.live.Keys - busy by { assert id in c.live.Keys - busy; }
        Shrinks(c.live.Keys - (busy + {id}), c.live.Keys - busy);
        RespondMute(c, v.value, Refusal(Eintr), busy + {id});
      }
    } else {
      SettleMute(c, q, a);
    }
  }

  lemma SettleMute(c: Conn, q: Req, a: Answer)
    requires Settle(c, q, a).Some?
    ensures Settle(c, q, a).value.c.out == c.out && Settle(c, q, a).value.c.wired == c.wired
  {
    hide DestroyRef, SettleOpen, SettleWalk;
    if OnFids(q.msg) {
      SettleDrops(c, q, a);
    } else if q.msg.Attach? {
      if DestroyRef(c, q.fid).Some? { DestroyDrops(c, q.fid); }
    }
  }

  /** Hung up, with nothing but clunks and flushes of the server's own making to come. */
  ghost predicate Down(c: Conn) {
    Inv(c) && c.closing && !c.wired && Synthesised(c)
  }

  /** Nothing is sent, and no fid is made. */
  ghost predicate Silent(c: Conn, d: Conn) {
    d.out == c.out && d.fidmap.Keys <= c.fidmap.Keys
  }

  lemma AnswerDown(c: Conn, id: nat, a: Answer)
    requires Down(c) && id in c.live && id !in c.todo && Respond(c, id, a, {}).Some?
    ensures Down(Respond(c, id, a, {}).value) && Silent(c, Respond(c, id, a, {}).value)
  {
    hide Respond, Inv;
    RespondInv(c, id, a, {});
    RespondMute(c, id, a, {});
  }

  lemma CleanDown(c: Conn)
    requires Down(c) && c.todo != [] && c.todo[0] in c.live && CleanNext(c).Some?
    ensures Down(CleanNext(c).value.c) && Silent(c, CleanNext(c).value.c)
  {
    hide Respond, Inv;
    var id, e := c.todo[0], c.(todo := c.todo[1..]);
    NextDown(c);
    var r := if c.live[id].msg.Clunk? then Lookup(e, c.live[id].msg.fid) else None;
    PointDown(e, id, r);
    var m := if c.live[id].msg.Clunk? then SetFid(e, id, r) else e;
    forall a | Respond(m, id, a, {}).Some? ensures Down(Respond(m, id, a, {}).value) && Silent(c, Respond(m, id, a, {}).value) {
      AnswerDown(m, id, a);
    }
  }

  lemma NextDown(c: Conn)
    requires Down(c) && c.todo != []
    ensures Down(c.(todo := c.todo[1..])) && c.todo[0] in c.live && c.todo[0] !in c.todo[1..]
    ensures c.live[c.todo[0]].msg.Flush? || c.live[c.todo[0]].msg.Clunk?
  {
    assert c.todo == [c.todo[0]] + c.todo[1..];
    assert forall j :: j in c.todo[1..] ==> j in c.todo;
  }

  lemma PointDown(c: Conn, id: nat, r: Option<FidRef>)
    requires Down(c) && id in c.live && id !in c.todo
    ensures Down(SetFid(c, id, r))
  {
    SetFidReady(c, id, r);
  }

  lemma {:induction false} VoidSynthesised(c: Conn, fids: seq<nat>, tags: seq<nat>)
    requires Inv(c) && c.closing && c.attached && Synthesised(c)
    ensures Synthesised(VoidFids(c, fids)) && VoidFids(c, fids).fidmap == c.fidmap
    ensures Synthesised(VoidRequests(c, tags)) && VoidRequests(c, tags).fidmap == c.fidmap
    decreases |fids| + |tags|
  {
    if fids != [] {
      var d := VoidFid(c, fids[0]);
      VoidInv(c, Req(NOTAG, Clunk(fids[0]), Lookup(c, fids[0]), None));
      VoidSynthesised(d, fids[1..], []);
    }
    if tags != [] {
      var d := VoidRequest(c, tags[0]);
      VoidInv(c, Req(NOTAG, Flush(tags[0]), None, None));
      VoidSynthesised(d, [], tags[1..]);
    }
  }

  lemma HangUpDown(c: Conn, fids: seq<nat>, tags: seq<nat>)
    requires Inv(c) && Enabled(c, Hangup(fids, tags))
    ensures Down(HangUp(c, fids, tags)) && Silent(c, HangUp(c, fids, tags))
  {
    hide VoidFids, VoidRequests;
    var d := c.(wired := false, closing := true);
    assert Inv(d) && Synthesised(d);
    if c.ref > 1 {
      VoidFidsInv(d, fids);
      VoidSynthesised(d, fids, []);
      VoidRequestsInv(VoidFids(d, fids), tags);
      VoidSynthesised(VoidFids(d, fids), [], tags);
    }
    ApplyInv(c, Hangup(fids, tags));
  }

  /** Whatever else happens on a connection that is hung up. */
  lemma DownApply(c: Conn, e: Event)
    requires Down(c) && Enabled(c, e) && Apply(c, e).Some?
    ensures Down(Apply(c, e).value) && Silent(c, Apply(c, e).value)
  {
    hide Respond, HandleReq, Synthesised;
    match e
    case Mark(id, qid) => MarkDown(c, c.live[id].fid.value.num, qid);
    case Answered(id, a) => AnswerDown(c, id, a);
    case CleanStep => CleanDown(c);
    case CleanFinish => EndDown(c);
  }

  lemma MarkDown(c: Conn, num: nat, qid: Qid)
    requires Down(c) && num in c.fidmap
    ensures Down(SetQid(c, num, qid)) && Silent(c, SetQid(c, num, qid))
  {
    MarkInv(c, num, qid);
  }

  lemma EndDown(c: Conn)
    requires Down(c) && c.attached && c.todo == []
    ensures Down(CleanEnd(c)) && Silent(c, CleanEnd(c))
  {
    ApplyInv(c, CleanFinish);
  }
}
