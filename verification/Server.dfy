/**
 * One server connection as a value: the tag and fid tables, the reference
 * count, the requests that handlers have not answered yet, and what was sent.
 * Operations that the C program does not define a result for (a failed assert, a
 * freed fid that is dereferenced, a flush cycle that recurses for ever) are None.
 */
module Server {
  import opened Basics

  const NOTAG: nat := 65535
  const IOHDRSZ: nat := 24
  const MIN_MSIZE: nat := 25
  const MAX_MSG: nat := 8192

  datatype Err =
    | Eduptag | Edupfid | Enofunc | Eopen | Enofile | Enoread | Enofid | Enotag | Enotdir | Eintr | Eisdir
    | Ewalkopen | Enowrite | Ewstype | Ewsdev | Ewsqid | Ewsmuid | Ewsdir
    | Handler(text: string)

  /** The error string of an Rerror. */
  function Text(e: Err): string {
    match e
    case Eduptag => "tag in use"
    case Edupfid => "fid in use"
    case Enofunc => "function not implemented"
    case Eopen => "fid is already open"
    case Enofile => "file does not exist"
    case Enoread => "file not open for reading"
    case Enofid => "fid does not exist"
    case Enotag => "tag does not exist"
    case Enotdir => "not a directory"
    case Eintr => "interrupted"
    case Eisdir => "cannot perform operation on a directory"
    case Ewalkopen => "cannot walk from an open fid"
    case Enowrite => "write on fid not opened for writing"
    case Ewstype => "wstat of type"
    case Ewsdev => "wstat of dev"
    case Ewsqid => "wstat of qid"
    case Ewsmuid => "wstat of muid"
    case Ewsdir => "wstat on DMDIR bit"
    case Handler(text) => text
  }

  datatype Qid = Qid(dir: bool, path: nat)

  /** What a Twstat asks to change, as far as the server itself checks it. */
  datatype Changes = Changes(typ: bool, dev: bool, qid: bool, muid: bool, dirBit: Option<bool>)

  datatype Request =
    | Version(msize: nat, version: string)
    | Attach(fid: nat)
    | Clunk(fid: nat)
    | Flush(oldtag: nat)
    | Create(fid: nat, mode: nat)
    | Open(fid: nat, mode: nat)
    | Read(fid: nat)
    | Remove(fid: nat)
    | Stat(fid: nat)
    | Walk(fid: nat, newfid: nat, nwname: nat)
    | Write(fid: nat)
    | WStat(fid: nat, changes: Changes)
    | Unknown(typ: nat)

  datatype Reply =
    | RError(err: Err)
    | RVersion(msize: nat, version: string)
    | ROpen(qid: Qid, iounit: int)
    | RWalk(nwqid: nat)
    | ROk

  /** What a handler hands to ixp_respond: an error, or the fields of ofcall it filled in. */
  datatype Answer = Answer(error: Option<Err>, nwqid: nat, qid: Qid)

  function Refusal(e: Err): Answer {
    Answer(Some(e), 0, Qid(false, 0))
  }

  function Done(): Answer {
    Answer(None, 0, Qid(false, 0))
  }

  datatype Fid = Fid(serial: nat, omode: int, qid: Qid, iounit: int)

  /** A pointer to a fid: its number, and which of the fids ever so numbered it is. */
  datatype FidRef = FidRef(num: nat, serial: nat)

  datatype Req = Req(tag: nat, msg: Request, fid: Option<FidRef>, newfid: Option<FidRef>)

  datatype Sent = Sent(id: nat, tag: nat, reply: Reply)

  /** Which optional handlers the server program supplies. */
  datatype Handlers = Handlers(clunk: bool, flush: bool, create: bool, open: bool, read: bool, remove: bool,
                               stat: bool, walk: bool, write: bool, wstat: bool)

  datatype Conn = Conn(
    srv: Handlers,
    attached: bool,          // cleanupconn has not yet given back the connection's reference
    closing: bool,           // the connection was hung up
    wired: bool,             // p9conn->conn != nil
    ref: int,
    frees: nat,              // how often the connection was freed
    tagmap: map<nat, nat>,   // tag to request
    fidmap: map<nat, Fid>,
    live: map<nat, Req>,     // requests not yet answered
    todo: seq<nat>,          // synthesised requests cleanupconn has not yet handled
    next: nat,               // the next unused request or fid serial
    rsize: nat, wsize: nat,
    out: seq<Sent>)

  function Initial(srv: Handlers): Conn {
    Conn(srv, true, false, false, 1, 0, map[], map[], map[], [], 0, 1024, 1024, [])
  }

  // ---- Reference counts and fids ----

  function DecRef(c: Conn): Conn {
    if c.ref - 1 > 0 then c.(ref := c.ref - 1) else c.(ref := c.ref - 1, frees := c.frees + 1)
  }

  function CreateFid(c: Conn, num: nat): (r: (Conn, Option<FidRef>)) {
    if num in c.fidmap then (DecRef(c.(ref := c.ref + 1)), None)
    else
      (c.(ref := c.ref + 1, fidmap := c.fidmap[num := Fid(c.next, -1, Qid(false, 0), 0)], next := c.next + 1),
       Some(FidRef(num, c.next)))
  }

  function DestroyFid(c: Conn, num: nat): Conn {
    if num in c.fidmap then DecRef(c.(fidmap := c.fidmap - {num})) else c
  }

  /** The pointer is not dangling. */
  predicate Current(c: Conn, r: FidRef) {
    r.num in c.fidmap && c.fidmap[r.num].serial == r.serial
  }

  /** destroyfid(conn, r->fid): reads through the pointer first. */
  function DestroyRef(c: Conn, r: Option<FidRef>): Option<Conn> {
    if r.None? then Some(c)
    else if Current(c, r.value) then Some(DestroyFid(c, r.value.num))
    else None
  }

  /** A mode byte stored in the signed char omode. */
  function SignedChar(mode: nat): int {
    var m := mode % 256;
    if m < 128 then m else m - 256
  }

  function Min(a: nat, b: nat): nat {
    if a < b then a else b
  }

  // ---- ixp_respond ----

  /** The connection after the switch of ixp_respond, and the reply it settles on. */
  datatype Settled = Settled(c: Conn, reply: Reply)

  function Plain(c: Conn, a: Answer, ok: Reply): Settled {
    Settled(c, if a.error.Some? then RError(a.error.value) else ok)
  }

  /** Everything but the TFlush case. */
  function Settle(c: Conn, q: Req, a: Answer): Option<Settled> {
    match q.msg
    case Version(msize, version) =>
      if a.error.Some? then None
      else
        var n := Min(msize, MAX_MSG);
        var v := if version == "9P" || version == "9P2000" then version else "unknown";
        Some(Settled(c.(rsize := n, wsize := n), RVersion(n, v)))
    case Attach(_) =>
      if a.error.Some? then
        match DestroyRef(c, q.fid)
        case None => None
        case Some(d) => Some(Plain(d, a, ROk))
      else Some(Plain(c, a, ROk))
    case Open(_, mode) => SettleOpen(c, q, a, mode)
    case Create(_, mode) => SettleOpen(c, q, a, mode)
    case Walk(fid, newfid, nwname) => SettleWalk(c, q, a, fid, newfid, nwname)
    case Remove(_) =>
      (match DestroyRef(c, q.fid)
       case None => None
       case Some(d) => Some(Plain(d, a, ROk)))
    case Clunk(_) =>
      (match DestroyRef(c, q.fid)
       case None => None
       case Some(d) => Some(Plain(d, a, ROk)))
    case Unknown(_) => if a.error.Some? then Some(Plain(c, a, ROk)) else None
    case _ => Some(Plain(c, a, ROk))
  }

  function SettleOpen(c: Conn, q: Req, a: Answer, mode: nat): Option<Settled> {
    if a.error.Some? then Some(Plain(c, a, ROk))
    else if q.fid.None? || !Current(c, q.fid.value) then None
    else
      var f := c.fidmap[q.fid.value.num];
      var io := c.rsize - IOHDRSZ;
      Some(Settled(c.(fidmap := c.fidmap[q.fid.value.num := f.(omode := SignedChar(mode), qid := a.qid, iounit := io)]),
                   ROpen(a.qid, io)))
  }

  function SettleWalk(c: Conn, q: Req, a: Answer, fid: nat, newfid: nat, nwname: nat): Option<Settled> {
    if a.error.Some? || a.nwqid < nwname then
      var d := if fid != newfid then DestroyRef(c, q.newfid) else Some(c);
      if d.None? then None
      else if a.error.Some? then Some(Settled(d.value, RError(a.error.value)))
      else if a.nwqid == 0 then Some(Settled(d.value, RError(Enofile)))
      else Some(Settled(d.value, RWalk(a.nwqid)))
    else if q.newfid.None? || !Current(c, q.newfid.value) then None
    else if a.nwqid == 0 && (q.fid.None? || !Current(c, q.fid.value)) then None
    else
      var f := c.fidmap[q.newfid.value.num];
      var qid := if a.nwqid == 0 then c.fidmap[q.fid.value.num].qid else a.qid;
      Some(Settled(c.(fidmap := c.fidmap[q.newfid.value.num := f.(qid := qid)]), RWalk(a.nwqid)))
  }

  /** The rest of ixp_respond: forget the tag, send, free the request, drop its reference. */
  function Finish(c: Conn, id: nat, reply: Reply): Conn
    requires id in c.live
  {
    var q := c.live[id];
    DecRef(c.(tagmap := c.tagmap - {q.tag},
              out := if c.wired then c.out + [Sent(id, q.tag, reply)] else c.out,
              live := c.live - {id}))
  }

  /** The request a Tflush would interrupt. */
  function Victim(c: Conn, q: Req): Option<nat> {
    if q.msg.Flush? && q.msg.oldtag in c.tagmap then Some(c.tagmap[q.msg.oldtag]) else None
  }

  /** ixp_respond; `busy` are the flushes whose answers are under way further up the stack. */
  function Respond(c: Conn, id: nat, a: Answer, busy: set<nat>): Option<Conn>
    requires id in c.live
    decreases |c.live.Keys - busy|
  {
    var q := c.live[id];
    if id in busy then None
    else if q.msg.Flush? then
      match Victim(c, q)
      case None => Some(Finish(c, id, Plain(c, a, ROk).reply))
      case Some(v) =>
        if v !in c.live then None else
        assert c.live.Keys - (busy + {id}) < c.live.Keys - busy by { assert id in c.live.Keys - busy; }
        Shrinks(c.live.Keys - (busy + {id}), c.live.Keys - busy);
        (match Respond(c, v, Refusal(Eintr), busy + {id})
         case None => None
         case Some(d) => if id in d.live then Some(Finish(d, id, Plain(d, a, ROk).reply)) else None)
    else
      match Settle(c, q, a)
      case None => None
      case Some(s) => if id in s.c.live then Some(Finish(s.c, id, s.reply)) else None
  }

  lemma Shrinks(a: set<nat>, b: set<nat>)
    requires a < b
    ensures |a| < |b|
  {
    assert b == a + (b - a);
  }

  // ---- handlereq ----

  /** The connection after handlereq, and whether a handler now owns the request. */
  datatype Handled = Handled(c: Conn, pending: bool)

  function Refuse(c: Conn, id: nat, e: Err): Option<Handled>
    requires id in c.live
  {
    match Respond(c, id, Refusal(e), {})
    case None => None
    case Some(d) => Some(Handled(d, false))
  }

  function Lookup(c: Conn, num: nat): Option<FidRef> {
    if num in c.fidmap then Some(FidRef(num, c.fidmap[num].serial)) else None
  }

  function SetFid(c: Conn, id: nat, r: Option<FidRef>): Conn
    requires id in c.live
  {
    c.(live := c.live[id := c.live[id].(fid := r)])
  }

  function SetNewFid(c: Conn, id: nat, r: Option<FidRef>): Conn
    requires id in c.live
  {
    c.(live := c.live[id := c.live[id].(newfid := r)])
  }

  /** The checks handlereq makes on a fid it found, before it calls the handler. */
  function Precheck(c: Conn, msg: Request, f: Fid): Option<Err> {
    match msg
    case Create(_, _) =>
      if f.omode != -1 then Some(Eopen) else if !f.qid.dir then Some(Enotdir)
      else if !c.srv.create then Some(Enofunc) else None
    case Open(_, mode) =>
      if f.qid.dir && mode != 0 && mode != 64 then Some(Eisdir)
      else if !c.srv.open then Some(Enofunc) else None
    case Read(_) =>
      if f.omode == -1 || f.omode == 1 then Some(Enoread) else if !c.srv.read then Some(Enofunc) else None
    case Remove(_) => if !c.srv.remove then Some(Enofunc) else None
    case Stat(_) => if !c.srv.stat then Some(Enofunc) else None
    case Write(_) =>
      if f.omode % 4 != 1 && f.omode % 4 != 2 then Some(Enowrite) else if !c.srv.write then Some(Enofunc) else None
    case WStat(_, ch) =>
      if ch.typ then Some(Ewstype) else if ch.dev then Some(Ewsdev) else if ch.qid then Some(Ewsqid)
      else if ch.muid then Some(Ewsmuid) else if ch.dirBit.Some? && ch.dirBit.value != f.qid.dir then Some(Ewsdir)
      else if !c.srv.wstat then Some(Enofunc) else None
    case _ => None
  }

  function CallWalk(c: Conn, id: nat): Option<Handled>
    requires id in c.live
  {
    if !c.srv.walk then Refuse(c, id, Enofunc) else Some(Handled(c, true))
  }

  function HandleWalk(c: Conn, id: nat, f: Fid, fid: nat, newfid: nat, nwname: nat): Option<Handled>
    requires id in c.live
  {
    if f.omode != -1 then Refuse(c, id, Ewalkopen)
    else if nwname > 0 && !f.qid.dir then Refuse(c, id, Enotdir)
    else if fid != newfid then
      var (d, r) := CreateFid(c, newfid);
      if id !in d.live then None
      else if r.None? then Refuse(SetNewFid(d, id, r), id, Edupfid)
      else CallWalk(SetNewFid(d, id, r), id)
    else CallWalk(SetNewFid(c, id, c.live[id].fid), id)
  }

  function HandleReq(c: Conn, id: nat): Option<Handled>
    requires id in c.live
  {
    var msg := c.live[id].msg;
    match msg
    case Version(_, _) =>
      (match Respond(c, id, Done(), {})
       case None => None
       case Some(d) => Some(Handled(d, false)))
    case Unknown(_) => Refuse(c, id, Enofunc)
    case Attach(fid) =>
      var (d, r) := CreateFid(c, fid);
      if id !in d.live then None else
      var e := SetFid(d, id, r);
      if r.None? then Refuse(e, id, Edupfid) else Some(Handled(e, true))
    case Flush(oldtag) =>
      if oldtag !in c.tagmap then Refuse(c, id, Enotag)
      else if !c.srv.flush then Refuse(c, id, Enofunc)
      else Some(Handled(c, true))
    case _ =>
      var e := SetFid(c, id, Lookup(c, msg.fid));
      if msg.fid !in c.fidmap then Refuse(e, id, Enofid) else HandleOnFid(e, id, msg, c.fidmap[msg.fid])
  }

  /** The cases of handlereq that work on an existing fid, once it was found. */
  function HandleOnFid(c: Conn, id: nat, msg: Request, f: Fid): Option<Handled>
    requires id in c.live
  {
    if msg.Clunk? then
      if c.srv.clunk then Some(Handled(c, true))
      else (match Respond(c, id, Done(), {})
            case None => None
            case Some(d) => Some(Handled(d, false)))
    else if msg.Walk? then HandleWalk(c, id, f, msg.fid, msg.newfid, msg.nwname)
    else
      match Precheck(c, msg, f)
      case Some(err) => Refuse(c, id, err)
      case None => Some(Handled(c, true))
  }

  // ---- Events ----

  /** A new request, under a serial of its own, holding a reference. */
  function Admit(c: Conn, q: Req): Conn {
    c.(ref := c.ref + 1, next := c.next + 1, live := c.live[c.next := q])
  }

  function Bind(c: Conn, tag: nat, id: nat): Conn {
    c.(tagmap := c.tagmap[tag := id])
  }

  /** handlefcall, once a message was read: a new request, refused when its tag is in use. */
  function Receive(c: Conn, tag: nat, msg: Request): Option<Handled> {
    var id := c.next;
    var d := Admit(c.(wired := true), Req(tag, msg, None, None));
    if tag in c.tagmap then Refuse(d, id, Eduptag) else HandleReq(Bind(d, tag, id), id)
  }

  function Queue(c: Conn, id: nat): Conn {
    c.(todo := [id] + c.todo)
  }

  function VoidFid(c: Conn, num: nat): Conn {
    Queue(Admit(c, Req(NOTAG, Clunk(num), Lookup(c, num), None)), c.next)
  }

  function VoidRequest(c: Conn, tag: nat): Conn {
    Queue(Admit(c, Req(NOTAG, Flush(tag), None, None)), c.next)
  }

  function VoidFids(c: Conn, fids: seq<nat>): Conn
    decreases |fids|
  {
    if fids == [] then c else VoidFids(VoidFid(c, fids[0]), fids[1..])
  }

  function VoidRequests(c: Conn, tags: seq<nat>): Conn
    decreases |tags|
  {
    if tags == [] then c else VoidRequests(VoidRequest(c, tags[0]), tags[1..])
  }

  /** cleanupconn up to its loop; the orders are those in which ixp_mapexec visits the maps. */
  function HangUp(c: Conn, fids: seq<nat>, tags: seq<nat>): Conn {
    var d := c.(wired := false, closing := true);
    if c.ref > 1 then VoidRequests(VoidFids(d, fids), tags) else d
  }

  /** One turn of the loop of cleanupconn. */
  function CleanNext(c: Conn): Option<Handled>
    requires c.todo != [] && c.todo[0] in c.live
  {
    HandleReq(c.(todo := c.todo[1..]), c.todo[0])
  }

  /** The last line of cleanupconn. */
  function CleanEnd(c: Conn): Conn {
    DecRef(c.(attached := false))
  }

  /** A handler says what its request's fid is: fid->qid is the handlers' to set. */
  function SetQid(c: Conn, num: nat, qid: Qid): Conn
    requires num in c.fidmap
  {
    c.(fidmap := c.fidmap[num := c.fidmap[num].(qid := qid)])
  }

  datatype Event =
    | Recv(tag: nat, msg: Request)
    | Mark(id: nat, qid: Qid)
    | Answered(id: nat, a: Answer)
    | Hangup(fids: seq<nat>, tags: seq<nat>)
    | CleanStep
    | CleanFinish

  /** A visit of exactly the keys of a map, each once. */
  ghost predicate Visits<V>(s: seq<nat>, m: map<nat, V>) {
    NoDup(s) && forall x :: x in s <==> x in m
  }

  ghost predicate Enabled(c: Conn, e: Event) {
    match e
    case Recv(tag, msg) => c.attached && !c.closing && (msg.Version? ==> msg.msize >= MIN_MSIZE)
    case Mark(id, _) => id in c.live && id !in c.todo && c.live[id].fid.Some? && Current(c, c.live[id].fid.value)
    case Answered(id, a) => id in c.live && id !in c.todo
    case Hangup(fids, tags) => c.attached && !c.closing && Visits(fids, c.fidmap) && Visits(tags, c.tagmap)
    case CleanStep => c.closing && c.todo != [] && c.todo[0] in c.live
    case CleanFinish => c.attached && c.closing && c.todo == []
  }

  function Drop(h: Option<Handled>): Option<Conn> {
    match h
    case None => None
    case Some(x) => Some(x.c)
  }

  function Apply(c: Conn, e: Event): Option<Conn>
    requires e.Answered? || e.Mark? ==> e.id in c.live
    requires e.Mark? ==> c.live[e.id].fid.Some? && c.live[e.id].fid.value.num in c.fidmap
    requires e.CleanStep? ==> c.todo != [] && c.todo[0] in c.live
  {
    match e
    case Recv(tag, msg) => Drop(Receive(c, tag, msg))
    case Mark(id, qid) => Some(SetQid(c, c.live[id].fid.value.num, qid))
    case Answered(id, a) => Respond(c, id, a, {})
    case Hangup(fids, tags) => Some(HangUp(c, fids, tags))
    case CleanStep => Drop(CleanNext(c))
    case CleanFinish => Some(CleanEnd(c))
  }

  /** c' is the connection after a run of events, none of which leaves the defined behaviour. */
  ghost predicate Run(c: Conn, es: seq<Event>, c': Conn)
    decreases |es|
  {
    if es == [] then c' == c
    else Enabled(c, es[0]) && Apply(c, es[0]).Some? && Run(Apply(c, es[0]).value, es[1..], c')
  }
}
