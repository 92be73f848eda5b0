/**
 * Any number of client threads over one connection, with any number of calls under
 * way: requests wait on the wire, at the server or in a handler, replies wait to be
 * read or taken. The client's fid numbers against the server's fid table.
 */
module ClientRuns {
  import opened Basics
  import opened Server
  import opened ServerInvariant
  import opened ServerSync
  import opened ServerFids
  import opened ClientFids

  /** How far a call of dofcall has come. */
  datatype Stage = OnWire | AtServer(id: nat) | Replied(reply: Reply)

  datatype Call = Call(msg: Request, tag: nat, stage: Stage)

  /** A message on the wire; `call` records who sent it and is not part of the message. */
  datatype Packet = Packet(call: nat, tag: nat, msg: Request)

  /** Where a fid that is handed out stands. */
  datatype Phase =
    | Fresh               // from getfid
    | Walking(call: nat)  // its walk was sent
    | Walked              // its owner may use it
    | Closing(call: nat)  // its Tclunk or Tremove was sent
    | Ended               // its walk failed, or it was clunked or removed: putfid is next
    | Leaked              // its clunk failed: never given back

  datatype World = World(
    pool: Pool,
    phase: map<nat, Phase>,
    calls: map<nat, Call>,   // the calls under way
    next: nat,
    wire: seq<Packet>,
    srv: Conn,
    owner: map<nat, nat>,    // records which call each request came from
    read: nat,               // how many of the server's replies were read
    up: bool)                // no thread has seen the connection fail

  datatype Step =
    | Get
    | SendWalk(f: nat, nwname: nat, tag: nat)
    | SendUse(msg: Request, tag: nat)
    | SendClose(f: nat, remove: bool, tag: nat)
    | Unsent(f: nat)         // the walk's names do not fit a message
    | Deliver                // the server reads the next message
    | Serve(e: Event)        // anything else at the server: an answer, a hangup, its cleanup
    | Dispatch(k: nat)       // the next reply is handed to the call that has its tag
    | Skip                   // there is none
    | Return(k: nat)         // dofcall is back, with its reply or because the connection failed
    | Put(f: nat)
    | Lose                   // the connection fails for the client

  /** gettag hands out a tag that no call holds. */
  ghost predicate FreeTag(w: World, tag: nat) {
    forall k :: k in w.calls ==> w.calls[k].tag != tag
  }

  /** The call the next reply belongs to, by its tag. */
  predicate Addressed(w: World, k: nat) {
    w.read < |w.srv.out| && k in w.calls && w.calls[k].tag == w.srv.out[w.read].tag && !w.calls[k].stage.Replied?
  }

  ghost predicate Can(w: World, s: Step) {
    match s
    case Get => true
    case SendWalk(f, _, tag) => w.up && f in w.phase && w.phase[f].Fresh? && FreeTag(w, tag)
    case SendUse(msg, tag) => w.up && OnFid(msg) && !msg.Clunk? && !msg.Remove? && FreeTag(w, tag)
    case SendClose(f, _, tag) => w.up && f in w.phase && w.phase[f].Walked? && FreeTag(w, tag)
    case Unsent(f) => f in w.phase && w.phase[f].Fresh?
    case Deliver =>
      w.wire != [] && Enabled(w.srv, Recv(w.wire[0].tag, w.wire[0].msg)) && Receive(w.srv, w.wire[0].tag, w.wire[0].msg).Some?
    case Serve(e) =>
      !e.Recv? && Enabled(w.srv, e) && Apply(w.srv, e).Some? && (e.Answered? ==> HandlerAnswer(e.a))
    case Dispatch(k) => Addressed(w, k)
    case Skip => w.read < |w.srv.out| && forall k :: k in w.calls ==> !Addressed(w, k)
    case Return(k) => k in w.calls && (w.calls[k].stage.Replied? || !w.up)
    case Put(f) => f in w.phase && w.phase[f].Ended?
    case Lose => true
  }

  function Send(w: World, msg: Request, tag: nat): World {
    w.(calls := w.calls[w.next := Call(msg, tag, OnWire)], next := w.next + 1, wire := w.wire + [Packet(w.next, tag, msg)])
  }

  /** What the caller does with its fid when dofcall is back. */
  function After(phase: map<nat, Phase>, msg: Request, r: Option<Reply>): map<nat, Phase> {
    match msg
    case Walk(_, f, _) => phase[f := if r.Some? && WalkDone(msg, r.value) then Walked else Ended]
    case Clunk(f) => phase[f := if r.Some? && !r.value.RError? then Ended else Leaked]
    case Remove(f) => phase[f := Ended]
    case _ => phase
  }

  function ReplyOf(c: Call): Option<Reply> {
    if c.stage.Replied? then Some(c.stage.reply) else None
  }

  /** The server reads the first message; its sender is at the server from then on, if it still waits. */
  function Delivered(w: World, h: Handled): World
    requires w.wire != []
  {
    var k, id := w.wire[0].call, w.srv.next;
    w.(srv := h.c, wire := w.wire[1..], owner := w.owner[id := k],
       calls := if k in w.calls then w.calls[k := w.calls[k].(stage := AtServer(id))] else w.calls)
  }

  /** dofcall is back for call k. */
  function Returned(w: World, k: nat): World
    requires k in w.calls
  {
    w.(calls := w.calls - {k}, phase := After(w.phase, w.calls[k].msg, ReplyOf(w.calls[k])))
  }

  function Next(w: World, s: Step): World
    requires Can(w, s)
  {
    match s
    case Get => var (p, f) := GetFid(w.pool); w.(pool := p, phase := w.phase[f := Fresh])
    case SendWalk(f, n, tag) => Send(w.(phase := w.phase[f := Walking(w.next)]), Walk(ROOT, f, n), tag)
    case SendUse(msg, tag) => Send(w, msg, tag)
    case SendClose(f, remove, tag) =>
      Send(w.(phase := w.phase[f := Closing(w.next)]), if remove then Remove(f) else Clunk(f), tag)
    case Unsent(f) => w.(phase := w.phase[f := Ended])
    case Deliver => Delivered(w, Receive(w.srv, w.wire[0].tag, w.wire[0].msg).value)
    case Serve(e) => w.(srv := Apply(w.srv, e).value)
    case Dispatch(k) =>
      w.(calls := w.calls[k := w.calls[k].(stage := Replied(w.srv.out[w.read].reply))], read := w.read + 1)
    case Skip => w.(read := w.read + 1)
    case Return(k) => Returned(w, k)
    case Put(f) => w.(pool := PutFid(w.pool, f), phase := w.phase - {f})
    case Lose => w.(up := false)
  }

  // ---- The invariant ----

  ghost predicate NoClash(c: Conn) {
    forall i :: 0 <= i < |c.out| ==> c.out[i].reply != RError(Edupfid)
  }

  /** The server: hung up, or every request is one of the client's, on fids. */
  ghost predicate SrvInv(c: Conn) {
    && Inv(c) && NoClash(c) && (c.closing ==> Down(c))
    && (!c.closing ==> forall i :: i in c.live ==> c.wired && OnFids(c.live[i].msg) && Pointed(c.live[i]))
  }

  /** The wire: walks make fids of their own, under tags of their own. */
  ghost predicate WireInv(wire: seq<Packet>, c: Conn) {
    && (forall j :: 0 <= j < |wire| ==> OnFids(wire[j].msg))
    && (forall j :: 0 <= j < |wire| && wire[j].msg.Walk? ==> wire[j].msg.newfid != wire[j].msg.fid && wire[j].msg.newfid !in c.fidmap)
    && (forall j, k :: 0 <= j < k < |wire| ==> wire[j].tag != wire[k].tag)
    && (forall j, k :: 0 <= j < k < |wire| && wire[j].msg.Walk? && wire[k].msg.Walk? ==> wire[j].msg.newfid != wire[k].msg.newfid)
    && (!c.closing ==> forall j :: 0 <= j < |wire| ==> wire[j].tag !in c.tagmap)
  }

  /** The client's numbers. */
  ghost predicate PoolInv(w: World) {
    Partition(w.pool) && w.phase.Keys == w.pool.used
  }

  /** The phase of the fid a call is about names the call. */
  ghost predicate About(phase: map<nat, Phase>, k: nat, msg: Request) {
    && (msg.Walk? ==> msg.newfid != msg.fid && msg.newfid in phase && phase[msg.newfid] == Walking(k))
    && (msg.Clunk? || msg.Remove? ==> msg.fid in phase && phase[msg.fid] == Closing(k))
  }

  ghost predicate CallInv(w: World) {
    forall k :: k in w.calls ==> k < w.next && About(w.phase, k, w.calls[k].msg)
  }

  /** Request id came from a call that waits for it. */
  ghost predicate Owned(w: World, id: nat, tag: nat) {
    && id in w.owner && w.owner[id] in w.calls
    && w.calls[w.owner[id]].stage == AtServer(id) && w.calls[w.owner[id]].tag == tag
  }

  ghost predicate TagsInv(w: World) {
    && (forall k, l :: k in w.calls && l in w.calls && k != l ==> w.calls[k].tag != w.calls[l].tag)
    && (forall j :: 0 <= j < |w.wire| ==>
          w.wire[j].call in w.calls && w.calls[w.wire[j].call] == Call(w.wire[j].msg, w.wire[j].tag, OnWire))
    && (!w.srv.closing ==> forall i :: i in w.srv.live ==>
          Owned(w, i, w.srv.live[i].tag) && w.calls[w.owner[i]].msg == w.srv.live[i].msg)
  }

  /** What a reply says still holds. */
  ghost predicate Holds(c: Conn, msg: Request, reply: Reply) {
    Lost(msg, reply) !! c.fidmap.Keys && (!c.closing ==> Won(msg, reply) <= c.fidmap.Keys)
  }

  ghost predicate RepliesInv(w: World) {
    && w.read <= |w.srv.out|
    && (forall j :: w.read <= j < |w.srv.out| ==>
          && Owned(w, w.srv.out[j].id, w.srv.out[j].tag)
          && Holds(w.srv, w.calls[w.owner[w.srv.out[j].id]].msg, w.srv.out[j].reply))
    && (forall k :: k in w.calls && w.calls[k].stage.Replied? ==> Holds(w.srv, w.calls[k].msg, w.calls[k].stage.reply))
  }

  /** The fids the server may have. */
  ghost predicate Kept(w: World, f: nat) {
    && f in w.phase
    && match w.phase[f]
       case Walked => true
       case Closing(k) => k in w.calls && (w.calls[k].msg.Clunk? || w.calls[k].msg.Remove?) && w.calls[k].msg.fid == f
       case Walking(k) => k in w.calls && !w.calls[k].stage.OnWire? && w.calls[k].msg.Walk? && w.calls[k].msg.newfid == f
       case _ => false
  }

  ghost predicate FidsInv(w: World) {
    && (forall f :: f in w.srv.fidmap && f != ROOT ==> Kept(w, f))
    && (!w.srv.closing ==> ROOT in w.srv.fidmap && forall f :: f in w.phase && w.phase[f].Walked? ==> f in w.srv.fidmap)
  }

  ghost predicate Linked(w: World) {
    w.up ==> TagsInv(w) && RepliesInv(w) && FidsInv(w)
  }

  ghost predicate Sound(w: World) {
    SrvInv(w.srv) && WireInv(w.wire, w.srv) && PoolInv(w) && CallInv(w) && Linked(w)
  }

  // ---- What the server does ----

  lemma WireShrinks(wire: seq<Packet>, c: Conn, d: Conn)
    requires WireInv(wire, c) && d.fidmap.Keys <= c.fidmap.Keys
    requires !d.closing ==> !c.closing && d.tagmap.Keys <= c.tagmap.Keys
    ensures WireInv(wire, d)
  {
  }

  /** A handler's answer. */
  lemma AnswerSrv(c: Conn, id: nat, a: Answer)
    requires SrvInv(c) && !c.closing && id in c.live && id !in c.todo && HandlerAnswer(a) && Respond(c, id, a, {}).Some?
    ensures var d := Respond(c, id, a, {}).value;
      && SrvInv(d) && Responded(c, d, id) && Told(c, d, c.live[id].msg, d.out[|c.out|].reply)
  {
    hide Respond, Inv, Told, NoClash;
    RespondInv(c, id, a, {});
    AnswerFids(c, id, a);
    ClashFree(c, Respond(c, id, a, {}).value);
  }

  lemma ClashFree(c: Conn, d: Conn)
    requires NoClash(c) && |d.out| == |c.out| + 1 && d.out[..|c.out|] == c.out && d.out[|c.out|].reply != RError(Edupfid)
    ensures NoClash(d)
  {
    assert forall i :: 0 <= i < |c.out| ==> d.out[i] == d.out[..|c.out|][i];
  }

  lemma SilentSrv(c: Conn, d: Conn)
    requires SrvInv(c) && Down(d) && Silent(c, d)
    ensures SrvInv(d)
  {
  }

  lemma HeldRequest(c: Conn, i: nat)
    requires Inv(c)
    ensures i in c.live ==> forall j :: 0 <= j < |c.out| ==> c.out[j].id != i
    ensures forall l :: l in c.live ==> l < c.next
    ensures forall j :: 0 <= j < |c.out| ==> c.out[j].id < c.next
    ensures c.next !in c.live
  {
  }

  /** Tables only lose entries, nothing is sent: links stay. */
  lemma SilentLinks(w: World, d: Conn)
    requires w.up && Linked(w) && Silent(w.srv, d) && d.closing
    ensures Linked(w.(srv := d))
  {
  }

  /** Two calls are never about the same fid, when one of them walks to it. */
  lemma AboutOne(w: World, k: nat, l: nat, f: nat)
    requires CallInv(w) && k in w.calls && l in w.calls && k != l
    requires w.calls[k].msg.Walk? && w.calls[k].msg.newfid == f
    ensures w.calls[l].msg.Walk? ==> w.calls[l].msg.newfid != f
    ensures w.calls[l].msg.Clunk? || w.calls[l].msg.Remove? ==> w.calls[l].msg.fid != f
  {
    assert About(w.phase, k, w.calls[k].msg) && About(w.phase, l, w.calls[l].msg);
  }

  /** What other replies say is not touched by the answer to call k. */
  lemma OthersHold(w: World, d: Conn, k: nat, reply: Reply, l: nat, r: Reply)
    requires CallInv(w) && k in w.calls && l in w.calls && k != l && Holds(w.srv, w.calls[l].msg, r)
    requires Told(w.srv, d, w.calls[k].msg, reply) && d.closing == w.srv.closing
    ensures Holds(d, w.calls[l].msg, r)
  {
    if WalkDone(w.calls[l].msg, r) { AboutOne(w, l, k, w.calls[l].msg.newfid); }
  }

  lemma ToldHolds(c: Conn, d: Conn, msg: Request, reply: Reply)
    requires Told(c, d, msg, reply)
    ensures Holds(d, msg, reply)
  {
  }

  lemma AnswerTags(w: World, d: Conn, id: nat)
    requires TagsInv(w) && Responded(w.srv, d, id)
    ensures TagsInv(w.(srv := d))
  {
  }

  lemma AnswerReplies(w: World, d: Conn, id: nat)
    requires Sound(w) && w.up && !w.srv.closing && Responded(w.srv, d, id)
    requires Told(w.srv, d, w.srv.live[id].msg, d.out[|w.srv.out|].reply)
    ensures RepliesInv(w.(srv := d))
  {
    hide Inv, Told, Holds, WireInv, PoolInv, CallInv, FidsInv;
    var c, n, k := w.srv, |w.srv.out|, w.owner[id];
    HeldRequest(c, id);
    assert Owned(w, id, c.live[id].tag) && w.calls[k].msg == c.live[id].msg;
    ToldHolds(c, d, c.live[id].msg, d.out[n].reply);
    forall j | w.read <= j < |d.out|
      ensures Owned(w, d.out[j].id, d.out[j].tag)
      ensures Holds(d, w.calls[w.owner[d.out[j].id]].msg, d.out[j].reply)
    {
      if j < n {
        assert d.out[j] == d.out[..n][j] == c.out[j] && c.out[j].id != id;
        assert Owned(w, c.out[j].id, c.out[j].tag);
        OthersHold(w, d, k, d.out[n].reply, w.owner[c.out[j].id], c.out[j].reply);
      }
    }
    forall l | l in w.calls && w.calls[l].stage.Replied?
      ensures Holds(d, w.calls[l].msg, w.calls[l].stage.reply)
    {
      OthersHold(w, d, k, d.out[n].reply, l, w.calls[l].stage.reply);
    }
  }

  /** Calls are about fids above the root's that nobody has walked to and not closed. */
  lemma LostFids(w: World, k: nat, reply: Reply, f: nat)
    requires PoolInv(w) && CallInv(w) && k in w.calls && f in Lost(w.calls[k].msg, reply)
    ensures f != ROOT && f in w.phase && !w.phase[f].Walked?
  {
    assert About(w.phase, k, w.calls[k].msg);
  }

  lemma AnswerFidsInv(w: World, d: Conn, id: nat)
    requires Sound(w) && w.up && !w.srv.closing && Responded(w.srv, d, id)
    requires Told(w.srv, d, w.srv.live[id].msg, d.out[|w.srv.out|].reply)
    ensures FidsInv(w.(srv := d))
  {
    hide Inv, WireInv, PoolInv, CallInv, RepliesInv, Lost, Won;
    var k, reply := w.owner[id], d.out[|w.srv.out|].reply;
    assert Owned(w, id, w.srv.live[id].tag) && w.calls[k].msg == w.srv.live[id].msg;
    forall f | f in Lost(w.calls[k].msg, reply)
      ensures f != ROOT && f in w.phase && !w.phase[f].Walked?
    {
      LostFids(w, k, reply, f);
    }
  }

  lemma AnswerSound(w: World, id: nat, a: Answer)
    requires Sound(w) && Can(w, Serve(Answered(id, a))) && !w.srv.closing
    ensures Sound(Next(w, Serve(Answered(id, a))))
  {
    hide Respond, Inv, Told, WireInv, PoolInv, About, TagsInv, RepliesInv, FidsInv, HandlerAnswer;
    AnswerSrv(w.srv, id, a);
    var d := Respond(w.srv, id, a, {}).value;
    WireShrinks(w.wire, w.srv, d);
    if w.up {
      AnswerTags(w, d, id);
      AnswerReplies(w, d, id);
      AnswerFidsInv(w, d, id);
    }
    assert PoolInv(w.(srv := d)) by { PoolFrame(w, w.(srv := d)); }
  }

  lemma PoolFrame(w: World, v: World)
    requires PoolInv(w) && v.pool == w.pool && v.phase.Keys == w.phase.Keys
    ensures PoolInv(v)
  {
  }

  /** What a fid is does not matter here. */
  lemma MarkLinks(w: World, d: Conn)
    requires Linked(w) && d == w.srv.(fidmap := d.fidmap) && d.fidmap.Keys == w.srv.fidmap.Keys
    ensures Linked(w.(srv := d))
  {
    var v := w.(srv := d);
    if w.up {
      forall f | f in d.fidmap && f != ROOT ensures Kept(v, f) { assert Kept(w, f); }
      forall j | w.read <= j < |d.out|
        ensures Owned(v, d.out[j].id, d.out[j].tag)
        ensures d.out[j].id in v.owner && v.owner[d.out[j].id] in v.calls
        ensures Holds(d, v.calls[v.owner[d.out[j].id]].msg, d.out[j].reply)
      {
        assert Owned(w, w.srv.out[j].id, w.srv.out[j].tag);
      }
    }
  }

  lemma MarkSound(w: World, id: nat, qid: Qid)
    requires Sound(w) && Can(w, Serve(Mark(id, qid))) && !w.srv.closing
    ensures Sound(Next(w, Serve(Mark(id, qid))))
  {
    hide Inv, WireInv, PoolInv, TagsInv, RepliesInv, FidsInv, About, HandlerAnswer;
    var num := w.srv.live[id].fid.value.num;
    MarkInv(w.srv, num, qid);
    var d := SetQid(w.srv, num, qid);
    WireShrinks(w.wire, w.srv, d);
    MarkLinks(w, d);
    PoolFrame(w, w.(srv := d));
  }

  /** Everything the server does but reading and what handlers do happens hung up. */
  lemma ServeSound(w: World, e: Event)
    requires Sound(w) && Can(w, Serve(e)) && (w.srv.closing || !(e.Answered? || e.Mark?))
    ensures Sound(Next(w, Serve(e)))
  {
    hide Inv, WireInv, PoolInv, TagsInv, RepliesInv, FidsInv, About, HandlerAnswer, Respond, HangUp, HandleReq;
    if e.Hangup? {
      HangUpDown(w.srv, e.fids, e.tags);
    } else {
      NotClosing(w.srv, e);
      DownApply(w.srv, e);
    }
    var d := Apply(w.srv, e).value;
    SilentSrv(w.srv, d);
    WireShrinks(w.wire, w.srv, d);
    if w.up { SilentLinks(w, d); }
    PoolFrame(w, w.(srv := d));
  }

  lemma NotClosing(c: Conn, e: Event)
    requires SrvInv(c) && Enabled(c, e) && (e.CleanStep? || e.CleanFinish? || ((e.Answered? || e.Mark?) && c.closing))
    ensures Down(c)
  {
  }

  // ---- The server reads a message ----

  ghost predicate Arrives(w: World) {
    w.wire != [] && Enabled(w.srv, Recv(w.wire[0].tag, w.wire[0].msg)) && Receive(w.srv, w.wire[0].tag, w.wire[0].msg).Some?
  }

  lemma TakenNow(w: World)
    requires Sound(w) && Arrives(w)
    ensures var p := w.wire[0];
      var h := Receive(w.srv, p.tag, p.msg).value;
      && !w.srv.closing && Inv(h.c)
      && (if h.pending then Waiting(w.srv, h.c, p.tag, p.msg) else Refused(w.srv, h.c, p.tag, p.msg))
  {
    hide Receive, Inv, TagsInv, RepliesInv, FidsInv, PoolInv, CallInv, Waiting, Refused;
    var p := w.wire[0];
    HeldRequest(w.srv, 0);
    ArriveFids(w.srv, p.tag, p.msg);
    ReceiveInv(w.srv, p.tag, p.msg);
  }

  lemma WaitingSrv(c: Conn, d: Conn, wire: seq<Packet>)
    requires SrvInv(c) && !c.closing && wire != [] && WireInv(wire, c) && Inv(d) && Waiting(c, d, wire[0].tag, wire[0].msg)
    ensures SrvInv(d) && WireInv(wire[1..], d)
  {
    hide Inv;
  }

  lemma RefusedSrv(c: Conn, d: Conn, wire: seq<Packet>)
    requires SrvInv(c) && !c.closing && wire != [] && WireInv(wire, c) && Inv(d) && Refused(c, d, wire[0].tag, wire[0].msg)
    ensures SrvInv(d) && WireInv(wire[1..], d)
  {
    hide Inv;
    assert forall i :: 0 <= i < |c.out| ==> d.out[i] == d.out[..|c.out|][i];
  }

  lemma DeliverSrv(w: World)
    requires Sound(w) && Arrives(w)
    ensures var d := Delivered(w, Receive(w.srv, w.wire[0].tag, w.wire[0].msg).value); SrvInv(d.srv) && WireInv(d.wire, d.srv)
  {
    hide Receive, Inv, TagsInv, RepliesInv, FidsInv, PoolInv, CallInv, Waiting, Refused;
    TakenNow(w);
    var h := Receive(w.srv, w.wire[0].tag, w.wire[0].msg).value;
    if h.pending { WaitingSrv(w.srv, h.c, w.wire); } else { RefusedSrv(w.srv, h.c, w.wire); }
  }

  /** What is known when the first message arrives and nobody has seen the connection fail. */
  ghost predicate Arriving(w: World, d: Conn) {
    && w.up && w.wire != [] && CallInv(w) && TagsInv(w) && RepliesInv(w) && FidsInv(w) && WireInv(w.wire, w.srv) && PoolInv(w)
    && !w.srv.closing && !d.closing && w.srv.next !in w.srv.live
    && (forall i :: i in w.srv.live ==> i < w.srv.next)
    && (forall j :: 0 <= j < |w.srv.out| ==> w.srv.out[j].id < w.srv.next)
  }

  /** Every other call stands as it did. */
  lemma OthersOwned(w: World, h: Handled, id: nat, tag: nat)
    requires Arriving(w, h.c) && Owned(w, id, tag) && id < w.srv.next
    ensures Owned(Delivered(w, h), id, tag) && Delivered(w, h).owner[id] == w.owner[id]
    ensures Delivered(w, h).calls[w.owner[id]] == w.calls[w.owner[id]]
    ensures w.owner[id] != w.wire[0].call
  {
  }

  lemma SenderOwned(w: World, h: Handled)
    requires Arriving(w, h.c)
    ensures Owned(Delivered(w, h), w.srv.next, w.wire[0].tag)
    ensures Delivered(w, h).calls[w.wire[0].call].msg == w.wire[0].msg
  {
  }

  lemma DeliverTags(w: World, h: Handled)
    requires Arriving(w, h.c)
    requires if h.pending then Waiting(w.srv, h.c, w.wire[0].tag, w.wire[0].msg) else Refused(w.srv, h.c, w.wire[0].tag, w.wire[0].msg)
    ensures TagsInv(Delivered(w, h))
  {
    hide RepliesInv, FidsInv, WireInv, PoolInv, CallInv, Told;
    var v := Delivered(w, h);
    SenderOwned(w, h);
    forall i | i in v.srv.live
      ensures Owned(v, i, v.srv.live[i].tag) && v.calls[v.owner[i]].msg == v.srv.live[i].msg
    {
      if i in w.srv.live { OthersOwned(w, h, i, w.srv.live[i].tag); }
    }
    DeliverWire(w, h);
  }

  lemma DeliverWire(w: World, h: Handled)
    requires Arriving(w, h.c)
    ensures var v := Delivered(w, h);
      && (forall k, l :: k in v.calls && l in v.calls && k != l ==> v.calls[k].tag != v.calls[l].tag)
      && (forall j :: 0 <= j < |v.wire| ==>
            v.wire[j].call in v.calls && v.calls[v.wire[j].call] == Call(v.wire[j].msg, v.wire[j].tag, OnWire))
  {
    hide RepliesInv, FidsInv, PoolInv, CallInv;
  }

  /** What a reply to another call says survives the arrival: the fids are different. */
  lemma ArrivalHolds(w: World, d: Conn, l: nat, r: Reply)
    requires Arriving(w, d) && l in w.calls && l != w.wire[0].call && Holds(w.srv, w.calls[l].msg, r)
    requires d.fidmap.Keys <= w.srv.fidmap.Keys + (if w.wire[0].msg.Walk? then {w.wire[0].msg.newfid} else {})
    requires w.srv.fidmap.Keys - d.fidmap.Keys <= Lost(w.wire[0].msg, RError(Enofid))
    ensures Holds(d, w.calls[l].msg, r)
  {
    hide RepliesInv, FidsInv, PoolInv;
    var k, msg := w.wire[0].call, w.wire[0].msg;
    assert w.calls[k].msg == msg;
    if msg.Walk? { AboutOne(w, k, l, msg.newfid); }
    if WalkDone(w.calls[l].msg, r) {
      var n := w.calls[l].msg.newfid;
      AboutOne(w, l, k, n);
      assert n in w.srv.fidmap;
      assert n !in d.fidmap ==> n in w.srv.fidmap.Keys - d.fidmap.Keys;
    }
  }

  ghost predicate Taken1(w: World, h: Handled) {
    && w.wire != []
    && if h.pending then Waiting(w.srv, h.c, w.wire[0].tag, w.wire[0].msg) else Refused(w.srv, h.c, w.wire[0].tag, w.wire[0].msg)
  }

  /** How the table changes when a message arrives. */
  lemma ArrivalKeys(w: World, h: Handled)
    requires Taken1(w, h)
    ensures var msg := w.wire[0].msg;
      && h.c.fidmap.Keys <= w.srv.fidmap.Keys + (if msg.Walk? then {msg.newfid} else {})
      && w.srv.fidmap.Keys - h.c.fidmap.Keys <= Lost(msg, RError(Enofid))
      && (h.pending ==> h.c.out == w.srv.out)
      && (!h.pending ==> h.c.fidmap.Keys <= w.srv.fidmap.Keys)
  {
  }

  lemma DeliverReplies(w: World, h: Handled)
    requires Arriving(w, h.c) && Taken1(w, h)
    ensures RepliesInv(Delivered(w, h))
  {
    hide FidsInv, WireInv, PoolInv, CallInv, Told, Holds, Lost, Waiting, Owned;
    var c, v, n := w.srv, Delivered(w, h), |w.srv.out|;
    ArrivalKeys(w, h);
    forall j | w.read <= j < |v.srv.out|
      ensures Owned(v, v.srv.out[j].id, v.srv.out[j].tag)
      ensures v.srv.out[j].id in v.owner && v.owner[v.srv.out[j].id] in v.calls
      ensures Holds(v.srv, v.calls[v.owner[v.srv.out[j].id]].msg, v.srv.out[j].reply)
    {
      if j < n {
        if !h.pending { assert h.c.out[j] == h.c.out[..n][j]; }
        OldReply(w, h, j);
      } else {
        SenderOwned(w, h);
        SenderMap(w, h);
        ToldHolds(c, h.c, w.wire[0].msg, h.c.out[n].reply);
      }
    }
    forall l | l in v.calls && v.calls[l].stage.Replied?
      ensures Holds(v.srv, v.calls[l].msg, v.calls[l].stage.reply)
    {
      assert l != w.wire[0].call && v.calls[l] == w.calls[l];
      SenderOnWire(w, l);
      ArrivalHolds(w, h.c, l, w.calls[l].stage.reply);
    }
  }

  lemma SenderMap(w: World, h: Handled)
    requires w.wire != []
    ensures Delivered(w, h).owner[w.srv.next] == w.wire[0].call && Delivered(w, h).srv == h.c && Delivered(w, h).read == w.read
  {
  }

  lemma SenderOnWire(w: World, l: nat)
    requires w.wire != [] && TagsInv(w) && l in w.calls && w.calls[l].stage.Replied?
    ensures l != w.wire[0].call
  {
  }

  lemma OldReply(w: World, h: Handled, j: nat)
    requires Arriving(w, h.c) && Taken1(w, h) && w.read <= j < |w.srv.out|
    ensures var x := w.srv.out[j];
      var v := Delivered(w, h);
      && Owned(v, x.id, x.tag) && x.id in v.owner && v.owner[x.id] in v.calls && Holds(h.c, v.calls[v.owner[x.id]].msg, x.reply)
  {
    hide FidsInv, WireInv, PoolInv, CallInv, Told, Holds, Lost, Waiting, Refused;
    var x := w.srv.out[j];
    ArrivalKeys(w, h);
    assert Owned(w, x.id, x.tag);
    OthersOwned(w, h, x.id, x.tag);
    ArrivalHolds(w, h.c, w.owner[x.id], x.reply);
  }

  lemma KeptStill(w: World, h: Handled, f: nat)
    requires w.wire != [] && Kept(w, f)
    ensures Kept(Delivered(w, h), f)
  {
  }

  lemma DeliverFids(w: World, h: Handled)
    requires Arriving(w, h.c) && Taken1(w, h)
    ensures FidsInv(Delivered(w, h))
  {
    hide WireInv, PoolInv, RepliesInv, Told, Lost, Waiting, Refused, Kept;
    var v, k, msg := Delivered(w, h), w.wire[0].call, w.wire[0].msg;
    ArrivalKeys(w, h);
    assert w.calls[k].msg == msg;
    forall f | f in w.srv.fidmap.Keys && f !in h.c.fidmap.Keys
      ensures f != ROOT && !(f in w.phase && w.phase[f].Walked?)
    {
      assert f in w.srv.fidmap.Keys - h.c.fidmap.Keys;
      LostFids(w, k, RError(Enofid), f);
    }
    forall f | f in v.srv.fidmap && f != ROOT ensures Kept(v, f) {
      if f in w.srv.fidmap { KeptStill(w, h, f); } else { NewKept(w, h); }
    }
  }

  lemma NewKept(w: World, h: Handled)
    requires Arriving(w, h.c) && w.wire[0].msg.Walk?
    ensures Kept(Delivered(w, h), w.wire[0].msg.newfid)
  {
    hide WireInv, PoolInv, RepliesInv, FidsInv;
    assert w.calls[w.wire[0].call].msg == w.wire[0].msg;
    assert About(w.phase, w.wire[0].call, w.wire[0].msg);
  }

  lemma NotClosingAfter(w: World)
    requires Sound(w) && Arrives(w)
    ensures !Receive(w.srv, w.wire[0].tag, w.wire[0].msg).value.c.closing
  {
    hide Receive, Inv, TagsInv, RepliesInv, FidsInv, PoolInv, CallInv, WireInv, NoClash;
    TakenNow(w);
  }

  lemma ArrivingNow(w: World)
    requires Sound(w) && Arrives(w) && w.up
    ensures var h := Receive(w.srv, w.wire[0].tag, w.wire[0].msg).value; Arriving(w, h.c) && Taken1(w, h)
  {
    hide Receive, TagsInv, RepliesInv, FidsInv, PoolInv, CallInv, WireInv, Waiting, Refused, Inv;
    TakenNow(w);
    NotClosingAfter(w);
    HeldRequest(w.srv, 0);
  }

  lemma DeliverSound(w: World)
    requires Sound(w) && Can(w, Deliver)
    ensures Sound(Next(w, Deliver))
  {
    hide Receive, TagsInv, RepliesInv, FidsInv, PoolInv, About, SrvInv, WireInv, Enabled;
    DeliverSrv(w);
    var h := Receive(w.srv, w.wire[0].tag, w.wire[0].msg).value;
    if w.up {
      ArrivingNow(w);
      DeliverTags(w, h);
      DeliverReplies(w, h);
      DeliverFids(w, h);
    }
    PoolFrame(w, Delivered(w, h));
  }

  // ---- The client's own steps ----

  /** A call's fid is not one whose phase names no call. */
  lemma IdleFid(w: World, f: nat, k: nat)
    requires CallInv(w) && k in w.calls && f in w.phase && !w.phase[f].Walking? && !w.phase[f].Closing?
    ensures w.calls[k].msg.Walk? ==> w.calls[k].msg.newfid != f
    ensures w.calls[k].msg.Clunk? || w.calls[k].msg.Remove? ==> w.calls[k].msg.fid != f
  {
    assert About(w.phase, k, w.calls[k].msg);
  }

  /** A fid no call is about changes its phase, or is new, or is given back. */
  lemma IdleCalls(w: World, f: nat, phase: map<nat, Phase>)
    requires CallInv(w) && (f in w.phase ==> !w.phase[f].Walking? && !w.phase[f].Closing?)
    requires forall g :: g in w.phase && g != f ==> g in phase && phase[g] == w.phase[g]
    ensures CallInv(w.(phase := phase))
  {
    forall k | k in w.calls ensures k < w.next && About(phase, k, w.calls[k].msg) {
      if f in w.phase { IdleFid(w, f, k); }
      assert About(w.phase, k, w.calls[k].msg);
    }
  }

  /** The same for what the server may have, as long as it does not have f. */
  lemma IdleFids(w: World, f: nat, phase: map<nat, Phase>)
    requires FidsInv(w) && f !in w.srv.fidmap && (f in phase ==> !phase[f].Walked?)
    requires forall g :: g != f ==> (g in phase <==> g in w.phase) && (g in phase ==> phase[g] == w.phase[g])
    ensures FidsInv(w.(phase := phase))
  {
    var v := w.(phase := phase);
    forall g | g in v.srv.fidmap && g != ROOT ensures Kept(v, g) { assert Kept(w, g); }
  }

  lemma PoolPhase(w: World, pool: Pool, phase: map<nat, Phase>)
    requires Linked(w)
    requires w.up ==> FidsInv(w.(phase := phase))
    ensures Linked(w.(pool := pool, phase := phase))
  {
    hide Inv, Holds, Lost, Won;
    var v := w.(pool := pool, phase := phase);
    if w.up {
      FidsFrame(w.(phase := phase), v);
      TagsFrame(w, v);
      RepliesFrame(w, v);
    }
  }

  lemma FidsFrame(w: World, v: World)
    requires FidsInv(w) && v.srv == w.srv && v.phase == w.phase && v.calls == w.calls
    ensures FidsInv(v)
  {
    forall g | g in v.srv.fidmap && g != ROOT ensures Kept(v, g) { assert Kept(w, g); }
  }

  lemma TagsFrame(w: World, v: World)
    requires TagsInv(w) && v.srv == w.srv && v.calls == w.calls && v.wire == w.wire && v.owner == w.owner
    ensures TagsInv(v)
  {
    forall i | !v.srv.closing && i in v.srv.live ensures Owned(v, i, v.srv.live[i].tag) && v.calls[v.owner[i]].msg == v.srv.live[i].msg {
      assert Owned(w, i, w.srv.live[i].tag);
    }
  }

  lemma RepliesFrame(w: World, v: World)
    requires RepliesInv(w) && v.srv == w.srv && v.calls == w.calls && v.owner == w.owner && v.read == w.read
    ensures RepliesInv(v)
  {
    hide Holds;
    forall j | v.read <= j < |v.srv.out|
      ensures Owned(v, v.srv.out[j].id, v.srv.out[j].tag)
      ensures v.srv.out[j].id in v.owner && v.owner[v.srv.out[j].id] in v.calls
      ensures Holds(v.srv, v.calls[v.owner[v.srv.out[j].id]].msg, v.srv.out[j].reply)
    {
      assert Owned(w, w.srv.out[j].id, w.srv.out[j].tag);
    }
  }

  lemma FreshAbsent(w: World, f: nat)
    requires (w.up ==> FidsInv(w)) && f > ROOT && (f in w.phase ==> w.phase[f].Fresh? || w.phase[f].Ended?)
    ensures w.up ==> f !in w.srv.fidmap
  {
    assert w.up && f in w.srv.fidmap ==> Kept(w, f);
  }

  lemma GetSound(w: World)
    requires Sound(w)
    ensures Sound(Next(w, Get))
  {
    hide SrvInv, WireInv, CallInv, FidsInv, TagsInv, RepliesInv, Partition;
    GetFidOk(w.pool);
    var (p, f) := GetFid(w.pool);
    var phase := w.phase[f := Phase.Fresh];
    IdleCalls(w, f, phase);
    CallFrame(w.(phase := phase), Next(w, Get));
    FreshAbsent(w, f);
    if w.up { IdleFids(w, f, phase); }
    PoolPhase(w, p, phase);
  }

  lemma CallFrame(w: World, v: World)
    requires CallInv(w) && v.phase == w.phase && v.calls == w.calls && v.next == w.next
    ensures CallInv(v)
  {
  }

  lemma AboveRoot(w: World, f: nat)
    requires PoolInv(w) && f in w.phase
    ensures f > ROOT && f in w.pool.used
  {
  }

  lemma PutSound(w: World, f: nat)
    requires Sound(w) && Can(w, Put(f))
    ensures Sound(Next(w, Put(f)))
  {
    hide SrvInv, WireInv, CallInv, FidsInv, TagsInv, RepliesInv, Partition;
    AboveRoot(w, f);
    PutFidOk(w.pool, f);
    var phase := w.phase - {f};
    IdleCalls(w, f, phase);
    CallFrame(w.(phase := phase), Next(w, Put(f)));
    FreshAbsent(w, f);
    if w.up { IdleFids(w, f, phase); }
    PoolPhase(w, PutFid(w.pool, f), phase);
  }

  lemma UnsentSound(w: World, f: nat)
    requires Sound(w) && Can(w, Unsent(f))
    ensures Sound(Next(w, Unsent(f)))
  {
    hide SrvInv, WireInv, CallInv, FidsInv, TagsInv, RepliesInv, Partition;
    AboveRoot(w, f);
    var phase := w.phase[f := Phase.Ended];
    IdleCalls(w, f, phase);
    FreshAbsent(w, f);
    if w.up { IdleFids(w, f, phase); }
    PoolPhase(w, w.pool, phase);
  }

  /** What a new message must be: on a fid, a walk to one that is nowhere yet. */
  ghost predicate Sendable(w: World, v: World, msg: Request, tag: nat) {
    && w.up && v == w.(phase := v.phase) && FreeTag(w, tag) && OnFids(msg) && About(v.phase, w.next, msg)
    && (msg.Walk? ==> msg.newfid in w.phase && w.phase[msg.newfid].Fresh? && msg.newfid !in w.srv.fidmap)
  }

  /** A free tag is nowhere. */
  lemma TagNowhere(w: World, tag: nat)
    requires FreeTag(w, tag) && TagsInv(w) && Inv(w.srv)
    ensures !w.srv.closing ==> tag !in w.srv.tagmap
    ensures forall j :: 0 <= j < |w.wire| ==> w.wire[j].tag != tag
  {
    assert tag in w.srv.tagmap ==> w.srv.tagmap[tag] in w.srv.live && w.srv.live[w.srv.tagmap[tag]].tag == tag;
    assert forall j :: 0 <= j < |w.wire| ==> w.calls[w.wire[j].call].tag == w.wire[j].tag;
    assert forall i :: !w.srv.closing && i in w.srv.live ==> Owned(w, i, w.srv.live[i].tag);
  }

  /** No walk to a fresh fid is on the wire. */
  lemma WalkNowhere(w: World, f: nat)
    requires TagsInv(w) && CallInv(w) && f in w.phase && w.phase[f].Fresh?
    ensures forall j :: 0 <= j < |w.wire| && w.wire[j].msg.Walk? ==> w.wire[j].msg.newfid != f
  {
    forall j | 0 <= j < |w.wire| && w.wire[j].msg.Walk? ensures w.wire[j].msg.newfid != f {
      IdleFid(w, f, w.wire[j].call);
    }
  }

  lemma WireGrows(wire: seq<Packet>, c: Conn, p: Packet)
    requires WireInv(wire, c) && OnFids(p.msg) && (!c.closing ==> p.tag !in c.tagmap)
    requires forall j :: 0 <= j < |wire| ==> wire[j].tag != p.tag
    requires p.msg.Walk? ==> p.msg.newfid != p.msg.fid && p.msg.newfid !in c.fidmap
    requires p.msg.Walk? ==> forall j :: 0 <= j < |wire| && wire[j].msg.Walk? ==> wire[j].msg.newfid != p.msg.newfid
    ensures WireInv(wire + [p], c)
  {
  }

  lemma SendWire(w: World, v: World, msg: Request, tag: nat)
    requires SrvInv(w.srv) && WireInv(w.wire, w.srv) && CallInv(w) && TagsInv(w) && Sendable(w, v, msg, tag)
    ensures WireInv(Send(v, msg, tag).wire, w.srv)
  {
    hide WireInv, CallInv, TagsInv, Inv, FreeTag, NoClash;
    TagNowhere(w, tag);
    if msg.Walk? { WalkNowhere(w, msg.newfid); }
    WireGrows(w.wire, w.srv, Packet(w.next, tag, msg));
  }

  lemma SendTags(w: World, v: World, msg: Request, tag: nat)
    requires CallInv(w) && TagsInv(w) && Sendable(w, v, msg, tag)
    ensures TagsInv(Send(v, msg, tag)) && w.next !in w.calls
  {
    var z := Send(v, msg, tag);
    forall i | !z.srv.closing && i in z.srv.live ensures Owned(z, i, z.srv.live[i].tag) && z.calls[z.owner[i]].msg == z.srv.live[i].msg {
      assert Owned(w, i, w.srv.live[i].tag);
    }
  }

  lemma SendReplies(w: World, v: World, msg: Request, tag: nat)
    requires CallInv(w) && RepliesInv(w) && Sendable(w, v, msg, tag)
    ensures RepliesInv(Send(v, msg, tag))
  {
    hide Holds;
    var z := Send(v, msg, tag);
    forall j | z.read <= j < |z.srv.out|
      ensures Owned(z, z.srv.out[j].id, z.srv.out[j].tag)
      ensures z.srv.out[j].id in z.owner && z.owner[z.srv.out[j].id] in z.calls
      ensures Holds(z.srv, z.calls[z.owner[z.srv.out[j].id]].msg, z.srv.out[j].reply)
    {
      assert Owned(w, w.srv.out[j].id, w.srv.out[j].tag);
    }
  }

  /** Sending gives its fid to the call, which the server may have only if it had. */
  lemma SendFids(w: World, v: World, msg: Request, tag: nat, f: nat)
    requires CallInv(w) && FidsInv(w) && Sendable(w, v, msg, tag)
    requires v.phase.Keys == w.phase.Keys && forall g :: g in w.phase && g != f ==> v.phase[g] == w.phase[g]
    requires f in v.phase ==> (v.phase[f] == Closing(w.next) && (msg.Clunk? || msg.Remove?) && msg.fid == f) || (f !in w.srv.fidmap && !v.phase[f].Walked?)
    ensures FidsInv(Send(v, msg, tag))
  {
    var z := Send(v, msg, tag);
    forall g | g in z.srv.fidmap && g != ROOT ensures Kept(z, g) { assert Kept(w, g); }
  }

  lemma SendCalls(w: World, v: World, msg: Request, tag: nat)
    requires CallInv(v) && v.next == w.next && About(v.phase, w.next, msg)
    ensures CallInv(Send(v, msg, tag))
  {
    hide About;
  }

  lemma SendSound(w: World, v: World, msg: Request, tag: nat, f: nat)
    requires Sound(w) && Sendable(w, v, msg, tag) && CallInv(v)
    requires v.phase.Keys == w.phase.Keys && forall g :: g in w.phase && g != f ==> v.phase[g] == w.phase[g]
    requires f in v.phase ==> (v.phase[f] == Closing(w.next) && (msg.Clunk? || msg.Remove?) && msg.fid == f) || (f !in w.srv.fidmap && !v.phase[f].Walked?)
    ensures Sound(Send(v, msg, tag))
  {
    hide SrvInv, WireInv, CallInv, FidsInv, TagsInv, RepliesInv, Partition, About, FreeTag;
    SendWire(w, v, msg, tag);
    SendTags(w, v, msg, tag);
    SendReplies(w, v, msg, tag);
    SendFids(w, v, msg, tag, f);
    SendCalls(w, v, msg, tag);
    PoolFrame(w, Send(v, msg, tag));
  }

  lemma SendStepSound(w: World, s: Step)
    requires Sound(w) && Can(w, s) && (s.SendWalk? || s.SendUse? || s.SendClose?)
    ensures Sound(Next(w, s))
  {
    hide SrvInv, WireInv, CallInv, FidsInv, TagsInv, RepliesInv, PoolInv, FreeTag;
    if s.SendUse? {
      if ROOT in w.phase { AboveRoot(w, ROOT); }
      SendSound(w, w, s.msg, s.tag, ROOT);
    } else {
      AboveRoot(w, s.f);
      if s.SendWalk? { FreshAbsent(w, s.f); }
      var phase := w.phase[s.f := if s.SendWalk? then Phase.Walking(w.next) else Closing(w.next)];
      IdleCalls(w, s.f, phase);
      var v := w.(phase := phase);
      SendSound(w, v, if s.SendWalk? then Walk(ROOT, s.f, s.nwname) else if s.remove then Remove(s.f) else Clunk(s.f), s.tag, s.f);
    }
  }

  // ---- Replies reach their callers ----

  /** The call with the tag of the next reply is the one it answers. */
  lemma AddressedOwner(w: World)
    requires w.up && TagsInv(w) && RepliesInv(w) && w.read < |w.srv.out|
    ensures Owned(w, w.srv.out[w.read].id, w.srv.out[w.read].tag) && Addressed(w, w.owner[w.srv.out[w.read].id])
    ensures forall k :: Addressed(w, k) ==> k == w.owner[w.srv.out[w.read].id]
  {
    hide Holds;
    assert Owned(w, w.srv.out[w.read].id, w.srv.out[w.read].tag);
  }

  lemma DispatchOwned(w: World, k: nat, id: nat, tag: nat)
    requires Can(w, Dispatch(k)) && Owned(w, id, tag) && w.calls[k].stage != AtServer(id)
    ensures var v := Next(w, Dispatch(k)); Owned(v, id, tag) && v.owner[id] == w.owner[id] && v.calls[w.owner[id]] == w.calls[w.owner[id]]
  {
  }

  lemma DispatchTags(w: World, k: nat)
    requires SrvInv(w.srv) && w.up && TagsInv(w) && RepliesInv(w) && Can(w, Dispatch(k))
    ensures TagsInv(Next(w, Dispatch(k)))
  {
    hide Inv, NoClash, Holds;
    AddressedOwner(w);
    var v := Next(w, Dispatch(k));
    forall i | !v.srv.closing && i in v.srv.live ensures Owned(v, i, v.srv.live[i].tag) && v.calls[v.owner[i]].msg == v.srv.live[i].msg {
      HeldRequest(w.srv, i);
      assert Owned(w, i, w.srv.live[i].tag);
      DispatchOwned(w, k, i, w.srv.live[i].tag);
    }
  }

  /** No two replies answer the same request. */
  lemma RepliesApart(c: Conn)
    requires Inv(c)
    ensures forall k, l :: 0 <= k < l < |c.out| ==> c.out[k].id != c.out[l].id
  {
  }

  lemma DispatchReplies(w: World, k: nat)
    requires SrvInv(w.srv) && w.up && TagsInv(w) && RepliesInv(w) && Can(w, Dispatch(k))
    ensures RepliesInv(Next(w, Dispatch(k)))
  {
    hide Inv, NoClash, Holds;
    AddressedOwner(w);
    RepliesApart(w.srv);
    var v := Next(w, Dispatch(k));
    forall j | v.read <= j < |v.srv.out|
      ensures Owned(v, v.srv.out[j].id, v.srv.out[j].tag)
      ensures v.srv.out[j].id in v.owner && v.owner[v.srv.out[j].id] in v.calls
      ensures Holds(v.srv, v.calls[v.owner[v.srv.out[j].id]].msg, v.srv.out[j].reply)
    {
      assert Owned(w, w.srv.out[j].id, w.srv.out[j].tag);
      DispatchOwned(w, k, w.srv.out[j].id, w.srv.out[j].tag);
    }
  }

  lemma DispatchFids(w: World, k: nat)
    requires w.up && TagsInv(w) && RepliesInv(w) && FidsInv(w) && Can(w, Dispatch(k))
    ensures FidsInv(Next(w, Dispatch(k)))
  {
    hide Holds;
    var v := Next(w, Dispatch(k));
    forall g | g in v.srv.fidmap && g != ROOT ensures Kept(v, g) { assert Kept(w, g); }
  }

  lemma DispatchSound(w: World, k: nat)
    requires Sound(w) && Can(w, Dispatch(k))
    ensures Sound(Next(w, Dispatch(k)))
  {
    hide SrvInv, WireInv, About, FidsInv, TagsInv, RepliesInv, PoolInv;
    PoolFrame(w, Next(w, Dispatch(k)));
    if w.up {
      DispatchTags(w, k);
      DispatchReplies(w, k);
      DispatchFids(w, k);
    }
  }

  /** While nobody has seen the connection fail, every reply has its call. */
  lemma SkipSound(w: World)
    requires Sound(w) && Can(w, Skip)
    ensures Sound(Next(w, Skip)) && !w.up
  {
    hide SrvInv, WireInv, FidsInv, TagsInv, RepliesInv, PoolInv;
    if w.up {
      AddressedOwner(w);
    }
    PoolFrame(w, Next(w, Skip));
  }

  // ---- Calls come back ----

  lemma ReturnPhases(w: World, k: nat)
    requires CallInv(w) && k in w.calls
    ensures var v := Returned(w, k); v.phase.Keys == w.phase.Keys && CallInv(v)
    ensures forall f :: f in w.phase && w.phase[f] != Phase.Walking(k) && w.phase[f] != Closing(k) ==> Returned(w, k).phase[f] == w.phase[f]
  {
    var v := Returned(w, k);
    assert About(w.phase, k, w.calls[k].msg);
    forall l | l in v.calls ensures l < v.next && About(v.phase, l, v.calls[l].msg) {
      assert About(w.phase, l, w.calls[l].msg);
    }
  }

  lemma ReturnTags(w: World, k: nat)
    requires k in w.calls && w.calls[k].stage.Replied? && TagsInv(w)
    ensures TagsInv(Returned(w, k))
  {
    var v := Returned(w, k);
    forall i | !v.srv.closing && i in v.srv.live ensures Owned(v, i, v.srv.live[i].tag) && v.calls[v.owner[i]].msg == v.srv.live[i].msg {
      assert Owned(w, i, w.srv.live[i].tag);
    }
  }

  lemma ReturnReplies(w: World, k: nat)
    requires k in w.calls && w.calls[k].stage.Replied? && RepliesInv(w)
    ensures RepliesInv(Returned(w, k))
  {
    hide Holds;
    var v := Returned(w, k);
    forall j | v.read <= j < |v.srv.out|
      ensures Owned(v, v.srv.out[j].id, v.srv.out[j].tag)
      ensures v.srv.out[j].id in v.owner && v.owner[v.srv.out[j].id] in v.calls
      ensures Holds(v.srv, v.calls[v.owner[v.srv.out[j].id]].msg, v.srv.out[j].reply)
    {
      assert Owned(w, w.srv.out[j].id, w.srv.out[j].tag);
    }
  }

  /** The fid a reply gives its caller is in the table, the one it takes is not. */
  lemma ReturnFids(w: World, k: nat)
    requires CallInv(w) && k in w.calls && w.calls[k].stage.Replied? && RepliesInv(w) && FidsInv(w)
    ensures FidsInv(Returned(w, k))
  {
    var v := Returned(w, k);
    ReturnPhases(w, k);
    assert About(w.phase, k, w.calls[k].msg) && Holds(w.srv, w.calls[k].msg, w.calls[k].stage.reply);
    forall g | g in v.srv.fidmap && g != ROOT ensures Kept(v, g) { ReturnKept(w, k, g); }
    forall f | !v.srv.closing && f in v.phase && v.phase[f].Walked? ensures f in v.srv.fidmap { ReturnWalked(w, k, f); }
  }

  lemma ReturnKept(w: World, k: nat, f: nat)
    requires k in w.calls && w.calls[k].stage.Replied? && About(w.phase, k, w.calls[k].msg)
    requires Holds(w.srv, w.calls[k].msg, w.calls[k].stage.reply) && Kept(w, f) && f in w.srv.fidmap
    ensures Kept(Returned(w, k), f)
  {
  }

  lemma ReturnWalked(w: World, k: nat, f: nat)
    requires k in w.calls && w.calls[k].stage.Replied? && Holds(w.srv, w.calls[k].msg, w.calls[k].stage.reply) && FidsInv(w)
    requires !w.srv.closing && f in Returned(w, k).phase && Returned(w, k).phase[f].Walked?
    ensures f in w.srv.fidmap
  {
  }

  lemma ReturnSound(w: World, k: nat)
    requires Sound(w) && Can(w, Return(k))
    ensures Sound(Next(w, Return(k)))
  {
    hide SrvInv, WireInv, FidsInv, CallInv, TagsInv, RepliesInv, PoolInv, After;
    ReturnPhases(w, k);
    PoolFrame(w, Returned(w, k));
    if w.up {
      ReturnTags(w, k);
      ReturnReplies(w, k);
      ReturnFids(w, k);
    }
  }

  lemma NextSound(w: World, s: Step)
    requires Sound(w) && Can(w, s)
    ensures Sound(Next(w, s))
  {
    hide *;
    match s
    case Get => GetSound(w);
    case SendWalk(_, _, _) => SendStepSound(w, s);
    case SendUse(_, _) => SendStepSound(w, s);
    case SendClose(_, _, _) => SendStepSound(w, s);
    case Unsent(f) => UnsentSound(w, f);
    case Deliver => DeliverSound(w);
    case Serve(e) =>
      if e.Answered? && !w.srv.closing { AnswerSound(w, e.id, e.a); }
      else if e.Mark? && !w.srv.closing { MarkSound(w, e.id, e.qid); }
      else { ServeSound(w, e); }
    case Dispatch(k) => DispatchSound(w, k);
    case Skip => SkipSound(w);
    case Return(k) => ReturnSound(w, k);
    case Put(f) => PutSound(w, f);
    case Lose => LoseSound(w);
  }

  lemma LoseSound(w: World)
    requires Sound(w)
    ensures Sound(Next(w, Lose))
  {
    hide SrvInv, WireInv, FidsInv, TagsInv, RepliesInv;
  }

  // ---- Mounting ----

  /**
   * ixp_mountfd: Tversion, then Tattach of the root, which the attach handler may say
   * to be a directory; the client exists if the attach was accepted.
   */
  function Mounted(srv: Handlers, a: Answer, root: Qid): Option<World> {
    match ServerSync.Serve(Initial(srv), NOTAG, Version(MAX_MSG, "9P2000"), Done())
    case None => None
    case Some(c) =>
      match ServerSync.Serve(c, 0, Attach(ROOT), a)
      case None => None
      case Some(d) =>
        if |d.out| != 2 || d.out[1].reply.RError? || ROOT !in d.fidmap then None
        else Some(World(Pool(ROOT, [], {}), map[], map[], 0, [], SetQid(d, ROOT, root), map[], 2, true))
  }

  lemma InitialIdle(srv: Handlers)
    ensures Idle(Initial(srv))
  {
  }

  lemma IdleSound(w: World)
    requires Idle(w.srv) && NoClash(w.srv) && w.srv.fidmap.Keys == {ROOT}
    requires w == World(Pool(ROOT, [], {}), map[], map[], 0, [], w.srv, map[], |w.srv.out|, true)
    ensures Sound(w)
  {
    hide Inv;
  }

  lemma IdleMarked(c: Conn, num: nat, qid: Qid)
    requires Idle(c) && num in c.fidmap
    ensures Idle(SetQid(c, num, qid)) && SetQid(c, num, qid).fidmap.Keys == c.fidmap.Keys
  {
    MarkInv(c, num, qid);
  }

  lemma MountSound(srv: Handlers, a: Answer, root: Qid)
    requires HandlerAnswer(a) && Mounted(srv, a, root).Some?
    ensures Sound(Mounted(srv, a, root).value)
  {
    hide ServerSync.Serve, Idle, HandlerAnswer, Sound;
    InitialIdle(srv);
    var c0 := Initial(srv);
    FidTableExact(c0, NOTAG, Version(MAX_MSG, "9P2000"), Done());
    var c := ServerSync.Serve(c0, NOTAG, Version(MAX_MSG, "9P2000"), Done()).value;
    FidTableExact(c, 0, Attach(ROOT), a);
    var d := ServerSync.Serve(c, 0, Attach(ROOT), a).value;
    assert d.out[0] == d.out[..1][0] == c.out[0];
    IdleMarked(d, ROOT, root);
    IdleSound(Mounted(srv, a, root).value);
  }

  // ---- All runs ----

  ghost predicate IsRun(ws: seq<World>, steps: seq<Step>) {
    && |ws| == |steps| + 1
    && forall i :: 0 <= i < |steps| ==> Can(ws[i], steps[i]) && ws[i + 1] == Next(ws[i], steps[i])
  }

  lemma {:induction false} SoundThroughout(srv: Handlers, a: Answer, root: Qid, ws: seq<World>, steps: seq<Step>, i: nat)
    requires HandlerAnswer(a) && IsRun(ws, steps) && Mounted(srv, a, root) == Some(ws[0]) && i < |ws|
    ensures Sound(ws[i])
    decreases i
  {
    hide Sound, Mounted, Can, Next;
    if i == 0 {
      MountSound(srv, a, root);
    } else {
      SoundThroughout(srv, a, root, ws, steps, i - 1);
      NextSound(ws[i - 1], steps[i - 1]);
    }
  }

  function OpenFids(phase: map<nat, Phase>): set<nat> {
    set f | f in phase && phase[f].Walked?
  }

  /**
   * In every run after a mount, whatever calls overlap, whenever handlers answer and
   * whatever fails: no reply is ever "fid in use". As long as no thread has seen the
   * connection fail, the server has only the root and fids that are handed out; as
   * long as it is not hung up it has all that their owners may use; and whenever no
   * call is under way, its table is the root and exactly those.
   */
  lemma NeverInUse(srv: Handlers, a: Answer, root: Qid, ws: seq<World>, steps: seq<Step>, i: nat)
    requires HandlerAnswer(a) && IsRun(ws, steps) && Mounted(srv, a, root) == Some(ws[0]) && i < |ws|
    ensures var w := ws[i];
      && Partition(w.pool) && NoClash(w.srv)
      && (w.up ==> w.srv.fidmap.Keys <= {1} + w.pool.used)
      && (w.up && !w.srv.closing ==> {1} + OpenFids(w.phase) <= w.srv.fidmap.Keys)
      && (w.up && !w.srv.closing && w.calls == map[] ==> w.srv.fidmap.Keys == {1} + OpenFids(w.phase))
  {
    hide Mounted, Can, Next;
    SoundThroughout(srv, a, root, ws, steps, i);
    SoundFids(ws[i]);
  }

  lemma SoundFids(w: World)
    requires Sound(w)
    ensures Partition(w.pool) && NoClash(w.srv)
    ensures w.up ==> w.srv.fidmap.Keys <= {ROOT} + w.pool.used
    ensures w.up && !w.srv.closing ==> {ROOT} + OpenFids(w.phase) <= w.srv.fidmap.Keys
    ensures w.up && !w.srv.closing && w.calls == map[] ==> w.srv.fidmap.Keys == {ROOT} + OpenFids(w.phase)
  {
    hide WireInv, TagsInv, RepliesInv, Inv, CallInv;
    if w.up {
      forall f | f in w.srv.fidmap && f != ROOT
        ensures f in w.pool.used && (w.calls == map[] ==> f in OpenFids(w.phase))
      {
        assert Kept(w, f);
      }
    }
  }

  /**
   * Replies go where they belong: as long as no thread has seen the connection fail,
   * the tag of the next reply is held by exactly one call that waits, and that call
   * sent the very request which the reply answers.
   */
  lemma RepliesToSenders(srv: Handlers, a: Answer, root: Qid, ws: seq<World>, steps: seq<Step>, i: nat)
    requires HandlerAnswer(a) && IsRun(ws, steps) && Mounted(srv, a, root) == Some(ws[0]) && i < |ws|
    requires ws[i].up && ws[i].read < |ws[i].srv.out|
    ensures var w := ws[i];
      var id := w.srv.out[w.read].id;
      && id in w.owner && Addressed(w, w.owner[id]) && w.calls[w.owner[id]].stage == AtServer(id)
      && (forall k :: Addressed(w, k) ==> k == w.owner[id])
      && !Can(w, Skip)
  {
    hide Mounted, Next, SrvInv, WireInv, TagsInv, RepliesInv, CallInv, FidsInv, PoolInv;
    SoundThroughout(srv, a, root, ws, steps, i);
    AddressedOwner(ws[i]);
  }

  /**
   * Threads are free: whatever is under way, as long as no thread has seen the
   * connection fail, a fid just handed out may be walked to, an unused tag given; any
   * fid may be used; a walked one may be clunked or removed. Handlers may answer with
   * any error of their own. The connection may fail at any time.
   */
  lemma ThreadsFree(w: World, f: nat, n: nat, tag: nat, msg: Request, id: nat, text: string)
    requires w.up && forall k :: k in w.calls ==> w.calls[k].tag != tag
    ensures f in w.phase && w.phase[f].Fresh? ==> Can(w, SendWalk(f, n, tag))
    ensures f in w.phase && w.phase[f].Walked? ==> Can(w, SendClose(f, false, tag)) && Can(w, SendClose(f, true, tag))
    ensures msg.Create? || msg.Open? || msg.Read? || msg.Stat? || msg.Write? || msg.WStat? ==> Can(w, SendUse(msg, tag))
    ensures f in w.phase && w.phase[f].Ended? ==> Can(w, Put(f))
    ensures Can(w, Get) && Can(w, Lose)
    ensures HandlerAnswer(Answer(Some(Handler(text)), n, Qid(false, 0))) && HandlerAnswer(Answer(None, n, Qid(false, 0)))
  {
  }

  // ---- What becomes of a fid ----

  /**
   * When a call is back its fid may be used after a complete walk; it is given back
   * after any other walk, after a Tclunk that succeeded and after every Tremove; after
   * a Tclunk that failed, or without a reply, it is lost. No other fid is touched.
   */
  lemma CallsComeBack(w: World, k: nat)
    requires CallInv(w) && Can(w, Return(k))
    ensures var v := Next(w, Return(k));
      var call := w.calls[k];
      var ok := call.stage.Replied? && !call.stage.reply.RError?;
      && k !in v.calls && v.pool == w.pool && v.phase.Keys == w.phase.Keys
      && (call.msg.Walk? ==>
            && call.msg.newfid in v.phase
            && var whole := ok && call.stage.reply.RWalk? && call.stage.reply.nwqid >= call.msg.nwname;
               v.phase[call.msg.newfid] == (if whole then Walked else Phase.Ended))
      && (call.msg.Clunk? ==> call.msg.fid in v.phase && v.phase[call.msg.fid] == (if ok then Phase.Ended else Phase.Leaked))
      && (call.msg.Remove? ==> call.msg.fid in v.phase && v.phase[call.msg.fid] == Phase.Ended)
      && (forall f :: f in w.phase && w.phase[f] != Phase.Walking(k) && w.phase[f] != Closing(k) ==> v.phase[f] == w.phase[f])
  {
    assert About(w.phase, k, w.calls[k].msg);
  }

  lemma LeakedStays(w: World, s: Step, f: nat)
    requires PoolInv(w) && CallInv(w) && Can(w, s) && f in w.phase && w.phase[f].Leaked?
    ensures f in Next(w, s).phase && Next(w, s).phase[f].Leaked?
  {
    hide Partition, Receive, Apply, Enabled, FreeTag;
    if s.Get? { GetOther(w, f); }
    if s.Return? { assert About(w.phase, s.k, w.calls[s.k].msg); }
  }

  lemma GetOther(w: World, f: nat)
    requires PoolInv(w) && f in w.phase
    ensures GetFid(w.pool).1 != f
  {
    GetFidOk(w.pool);
  }

  /** A fid whose Tclunk failed is never given back, and so never handed out again. */
  lemma {:induction false} LeakedForEver(srv: Handlers, a: Answer, root: Qid, ws: seq<World>, steps: seq<Step>, i: nat, j: nat, f: nat)
    requires HandlerAnswer(a) && IsRun(ws, steps) && Mounted(srv, a, root) == Some(ws[0]) && i <= j < |ws|
    requires f in ws[i].phase && ws[i].phase[f].Leaked?
    ensures f in ws[j].phase && ws[j].phase[f].Leaked? && f in ws[j].pool.used && GetFid(ws[j].pool).1 != f
    decreases j
  {
    hide Mounted, Can, Next, SrvInv, WireInv, Linked, CallInv;
    SoundThroughout(srv, a, root, ws, steps, j);
    if i < j {
      LeakedForEver(srv, a, root, ws, steps, i, j - 1, f);
      SoundThroughout(srv, a, root, ws, steps, j - 1);
      LeakedStays(ws[j - 1], steps[j - 1], f);
    }
    GetOther(ws[j], f);
  }
}
