/**
 * Which requests reach a handler. Over every run, that is decided by the last Topen or
 * Tcreate on the fid that was answered without an error.
 */
module ServerAccess {
  import opened Basics
  import opened Server
  import opened ServerInvariant
  import opened ServerRuns
  import opened ServerTeardown

  /** A fid that was opened, or created, and with what. */
  predicate Opened(f: Fid) {
    f.omode != -1
  }

  /** The low bits of the mode say write, or read and write. */
  predicate ForWriting(f: Fid) {
    f.omode % 4 == 1 || f.omode % 4 == 2
  }

  /**
   * The protocol's rules as this server keeps them: when the program's handler gets
   * to see a request. Sections walk(5), open(5), read(5), remove(5), stat(5) and
   * flush(5) of the Plan 9 manual.
   */
  predicate Admissible(c: Conn, msg: Request) {
    match msg
    case Attach(fid) => fid !in c.fidmap
    case Flush(oldtag) => oldtag in c.tagmap && c.srv.flush
    case Clunk(fid) => fid in c.fidmap && c.srv.clunk
    case Remove(fid) => fid in c.fidmap && c.srv.remove
    case Stat(fid) => fid in c.fidmap && c.srv.stat
    case Create(fid, _) => fid in c.fidmap && !Opened(c.fidmap[fid]) && c.fidmap[fid].qid.dir && c.srv.create
    case Open(fid, mode) => fid in c.fidmap && (c.fidmap[fid].qid.dir ==> mode == 0 || mode == 64) && c.srv.open
    case Read(fid) => fid in c.fidmap && Opened(c.fidmap[fid]) && c.fidmap[fid].omode != 1 && c.srv.read
    case Write(fid) => fid in c.fidmap && ForWriting(c.fidmap[fid]) && c.srv.write
    case Walk(fid, newfid, nwname) =>
      && fid in c.fidmap && !Opened(c.fidmap[fid]) && (nwname > 0 ==> c.fidmap[fid].qid.dir)
      && (newfid != fid ==> newfid !in c.fidmap) && c.srv.walk
    case WStat(fid, ch) =>
      && fid in c.fidmap && !ch.typ && !ch.dev && !ch.qid && !ch.muid
      && (ch.dirBit.Some? ==> ch.dirBit.value == c.fidmap[fid].qid.dir) && c.srv.wstat
    case Version(_, _) => false
    case Unknown(_) => false
  }

  lemma OnFidAdmission(c: Conn, e: Conn, id: nat, msg: Request, f: Fid)
    requires id in e.live && e.fidmap == c.fidmap && e.srv == c.srv && HandleOnFid(e, id, msg, f).Some?
    requires msg.Clunk? || msg.Create? || msg.Open? || msg.Read? || msg.Remove? || msg.Stat? || msg.Walk? || msg.Write? || msg.WStat?
    requires msg.fid in c.fidmap && f == c.fidmap[msg.fid]
    ensures HandleOnFid(e, id, msg, f).value.pending <==> Admissible(c, msg)
  {
    hide Respond;
  }

  /** handlereq calls the program's handler exactly for the admissible requests; it answers the others itself. */
  lemma AdmissionExact(c: Conn, id: nat)
    requires id in c.live && HandleReq(c, id).Some?
    ensures HandleReq(c, id).value.pending <==> Admissible(c, c.live[id].msg)
  {
    hide Respond, HandleOnFid;
    var msg := c.live[id].msg;
    if !(msg.Version? || msg.Unknown? || msg.Attach? || msg.Flush?) && msg.fid in c.fidmap {
      OnFidAdmission(c, SetFid(c, id, Lookup(c, msg.fid)), id, msg, c.fidmap[msg.fid]);
    }
  }

  /** The fid a pending request works on. */
  ghost predicate On(c: Conn, id: nat, num: nat) {
    id in c.live && c.live[id].fid.Some? && c.live[id].fid.value.num == num && Current(c, c.live[id].fid.value)
  }

  /**
   * An answered open decides what comes next on the fid: reads pass unless it was
   * opened for writing only, writes pass exactly if the low bits say so, walks and
   * creates no longer pass. Other fids are as they were. The exception is mode 255:
   * stored in a signed char it is the mark of a fid that is not open.
   */
  lemma OpenGoverns(c: Conn, id: nat, a: Answer, d: Conn, num: nat, mode: nat)
    requires On(c, id, num) && a.error.None? && Respond(c, id, a, {}) == Some(d) && mode < 256
    requires c.live[id].msg == Open(num, mode) || c.live[id].msg == Create(num, mode)
    ensures num in d.fidmap && d.fidmap[num].qid == a.qid
    ensures Opened(d.fidmap[num]) <==> mode != 255
    ensures Admissible(d, Read(num)) <==> mode != 1 && mode != 255 && c.srv.read
    ensures Admissible(d, Write(num)) <==> (mode % 4 == 1 || mode % 4 == 2) && c.srv.write
    ensures mode != 255 ==> forall n, k :: !Admissible(d, Walk(num, n, k)) && !Admissible(d, Create(num, n))
    ensures forall n :: n != num ==> (n in d.fidmap <==> n in c.fidmap) && (n in c.fidmap ==> d.fidmap[n] == c.fidmap[n])
  {
    hide Respond, SignedChar;
    OpenResult(c, id, a, num, mode);
    SignedMode(mode);
  }

  lemma SignedMode(mode: nat)
    requires mode < 256
    ensures SignedChar(mode) == (if mode < 128 then mode else mode - 256)
    ensures SignedChar(mode) % 4 == mode % 4
  {
    assert mode % 256 == mode;
  }

  lemma OpenResult(c: Conn, id: nat, a: Answer, num: nat, mode: nat)
    requires On(c, id, num) && a.error.None?
    requires c.live[id].msg == Open(num, mode) || c.live[id].msg == Create(num, mode)
    ensures Respond(c, id, a, {}).Some?
    ensures var d := Respond(c, id, a, {}).value;
      d.srv == c.srv
      && d.fidmap == c.fidmap[num := c.fidmap[num].(omode := SignedChar(mode), qid := a.qid, iounit := c.rsize - IOHDRSZ)]
  {
  }

  /**
   * An answered complete walk leaves its target unopened with the qid of the last
   * element, or of the source when there is none, so that it can be opened or walked
   * on; the source is as it was.
   */
  lemma WalkGoverns(c: Conn, id: nat, a: Answer, d: Conn, fid: nat, newfid: nat, nwname: nat)
    requires On(c, id, fid) && c.live[id].msg == Walk(fid, newfid, nwname) && fid != newfid
    requires c.live[id].newfid.Some? && c.live[id].newfid.value.num == newfid && Current(c, c.live[id].newfid.value)
    requires !Opened(c.fidmap[newfid]) && a.error.None? && a.nwqid >= nwname && Respond(c, id, a, {}) == Some(d)
    ensures newfid in d.fidmap && !Opened(d.fidmap[newfid])
    ensures d.fidmap[newfid].qid == (if a.nwqid == 0 then c.fidmap[fid].qid else a.qid)
    ensures fid in d.fidmap && d.fidmap[fid] == c.fidmap[fid]
    ensures forall n, k :: n !in d.fidmap && (k > 0 ==> d.fidmap[newfid].qid.dir) && c.srv.walk ==> Admissible(d, Walk(newfid, n, k))
  {
  }

  // ---- Runs ----

  /** A Topen or Tcreate on this fid was answered without an error. */
  datatype Grant = Grant(fid: FidRef, mode: nat)

  /** What event e grants in state c. */
  ghost function GrantOf(c: Conn, e: Event): Option<Grant> {
    if e.Answered? && e.id in c.live && !NoGrant(c.live[e.id], e.a) && c.live[e.id].fid.Some? then
      Some(Grant(c.live[e.id].fid.value, c.live[e.id].msg.mode))
    else None
  }

  /** The grants of a run, in order. */
  ghost function Grants(c: Conn, es: seq<Event>): seq<Grant>
    decreases |es|
  {
    if es == [] || !Enabled(c, es[0]) || Apply(c, es[0]).None? then []
    else (if GrantOf(c, es[0]).Some? then [GrantOf(c, es[0]).value] else []) + Grants(Apply(c, es[0]).value, es[1..])
  }

  /** The mode of the last grant for this fid. */
  function LastMode(gs: seq<Grant>, r: FidRef): Option<nat> {
    if gs == [] then None
    else if gs[|gs| - 1].fid == r then Some(gs[|gs| - 1].mode)
    else LastMode(gs[..|gs| - 1], r)
  }

  /** A mode on record was granted by an answer earlier in the run, on that very fid. */
  lemma {:induction false} GrantedEarlier(c: Conn, es: seq<Event>, i: nat) returns (k: nat, x: Conn)
    requires i < |Grants(c, es)|
    ensures k < |es| && Run(c, es[..k], x) && es[k].Answered? && es[k].id in x.live && es[k].a.error.None?
    ensures (x.live[es[k].id].msg.Open? || x.live[es[k].id].msg.Create?) && x.live[es[k].id].fid.Some?
    ensures Grants(c, es)[i] == Grant(x.live[es[k].id].fid.value, x.live[es[k].id].msg.mode)
    decreases |es|
  {
    hide Apply;
    var g := GrantOf(c, es[0]);
    if i == 0 && g.Some? {
      k, x := 0, c;
    } else {
      var d := Apply(c, es[0]).value;
      k, x := GrantedEarlier(d, es[1..], if g.Some? then i - 1 else i);
      assert es[..k + 1][1..] == es[1..][..k];
      k := k + 1;
    }
  }

  /** The mode as the fid stores it. */
  function Stored(m: Option<nat>): int {
    if m.None? then -1 else SignedChar(m.value)
  }

  /** Every fid stores the mode of its last grant, and grants are for fids that exist or existed. */
  ghost predicate Granted(c: Conn, gs: seq<Grant>) {
    && (forall n :: n in c.fidmap ==> c.fidmap[n].omode == Stored(LastMode(gs, FidRef(n, c.fidmap[n].serial))))
    && (forall i :: 0 <= i < |gs| ==> gs[i].fid.serial < c.next)
  }

  lemma {:induction false} NoGrantYet(gs: seq<Grant>, r: FidRef)
    requires forall i :: 0 <= i < |gs| ==> gs[i].fid != r
    ensures LastMode(gs, r).None?
  {
    if gs != [] {
      NoGrantYet(gs[..|gs| - 1], r);
    }
  }

  lemma KeepsGranted(c: Conn, d: Conn, gs: seq<Grant>)
    requires Granted(c, gs) && SameModes(c, d)
    ensures Granted(d, gs)
  {
    forall n | n in d.fidmap ensures d.fidmap[n].omode == Stored(LastMode(gs, FidRef(n, d.fidmap[n].serial))) {
      if d.fidmap[n].serial >= c.next {
        NoGrantYet(gs, FidRef(n, d.fidmap[n].serial));
      }
    }
  }

  /** An answer that grants found its fid. */
  lemma GrantCurrent(c: Conn, id: nat, a: Answer)
    requires id in c.live && !NoGrant(c.live[id], a) && Respond(c, id, a, {}).Some?
    ensures c.live[id].fid.Some? && Current(c, c.live[id].fid.value)
    ensures var num := c.live[id].fid.value.num;
      var d := Respond(c, id, a, {}).value;
      && d.next == c.next
      && d.fidmap == c.fidmap[num := c.fidmap[num].(omode := SignedChar(c.live[id].msg.mode), qid := a.qid, iounit := c.rsize - IOHDRSZ)]
  {
  }

  lemma GrantGranted(c: Conn, id: nat, a: Answer, gs: seq<Grant>)
    requires Inv(c) && Granted(c, gs) && id in c.live && !NoGrant(c.live[id], a) && Respond(c, id, a, {}).Some?
    ensures var g := GrantOf(c, Answered(id, a)); g.Some? && Granted(Respond(c, id, a, {}).value, gs + [g.value])
  {
    hide Respond;
    GrantCurrent(c, id, a);
    var g := GrantOf(c, Answered(id, a)).value;
    assert (gs + [g])[..|gs|] == gs;
    var d := Respond(c, id, a, {}).value;
    forall n | n in d.fidmap ensures d.fidmap[n].omode == Stored(LastMode(gs + [g], FidRef(n, d.fidmap[n].serial))) {
      assert n in c.fidmap && d.fidmap[n].serial == c.fidmap[n].serial;
    }
  }

  lemma {:induction false} RunGranted(c: Conn, es: seq<Event>, z: Conn, gs: seq<Grant>)
    requires Inv(c) && NoVersion(c) && Granted(c, gs) && Run(c, es, z)
    ensures Granted(z, gs + Grants(c, es))
    decreases |es|
  {
    hide Inv, Granted, NoVersion, Apply, SameModes, NoGrant;
    if es == [] {
      assert gs + Grants(c, es) == gs;
    } else {
      var e := es[0];
      var d := Apply(c, e).value;
      ApplyInv(c, e);
      ApplyCalm(c, e);
      var g := if GrantOf(c, e).Some? then [GrantOf(c, e).value] else [];
      EventGranted(c, e, gs);
      RunGranted(d, es[1..], z, gs + g);
      assert gs + g + Grants(d, es[1..]) == gs + (g + Grants(d, es[1..]));
    }
  }

  lemma EventGranted(c: Conn, e: Event, gs: seq<Grant>)
    requires Inv(c) && NoVersion(c) && Granted(c, gs) && Enabled(c, e) && Apply(c, e).Some?
    ensures Granted(Apply(c, e).value, gs + (if GrantOf(c, e).Some? then [GrantOf(c, e).value] else []))
  {
    hide Inv, Granted, SameModes, Respond, Receive, HangUp, CleanNext, CleanEnd;
    if e.Answered? && !NoGrant(c.live[e.id], e.a) {
      GrantGranted(c, e.id, e.a, gs);
    } else {
      ApplyModes(c, e);
      KeepsGranted(c, Apply(c, e).value, gs);
      assert gs + [] == gs;
    }
  }

  /** The last mode granted on the fid with this number, in the run so far. */
  ghost function Mode(srv: Handlers, es: seq<Event>, c: Conn, fid: nat): Option<nat>
    requires fid in c.fidmap
  {
    LastMode(Grants(Initial(srv), es), FidRef(fid, c.fidmap[fid].serial))
  }

  /** The mode marks a fid as open; 255 does not, stored in a signed char it is -1. */
  predicate OpenMode(m: Option<nat>) {
    m.Some? && m.value % 256 != 255
  }

  lemma ReceiveAdmits(c: Conn, tag: nat, msg: Request)
    requires Receive(c, tag, msg).Some? && tag !in c.tagmap && !msg.Flush?
    ensures Receive(c, tag, msg).value.pending <==> Admissible(c, msg)
  {
    hide HandleReq;
    var d := Bind(Admit(c.(wired := true), Req(tag, msg, None, None)), tag, c.next);
    AdmissionExact(d, c.next);
  }

  /**
   * In every run, and for the fid with that number as it is now: a Tread reaches the
   * read handler exactly if the last Topen or Tcreate answered without an error opened
   * it, and not for writing only; a Twrite exactly if that mode says write; a Twalk or
   * a Tcreate only if there is none.
   */
  lemma HandlersSeeOpened(srv: Handlers, es: seq<Event>, c: Conn, tag: nat, msg: Request)
    requires Run(Initial(srv), es, c) && Enabled(c, Recv(tag, msg)) && tag !in c.tagmap && Receive(c, tag, msg).Some?
    ensures msg.Read? ==> (Receive(c, tag, msg).value.pending <==>
      msg.fid in c.fidmap && c.srv.read
      && var m := Mode(srv, es, c, msg.fid); OpenMode(m) && m.value % 256 != 1)
    ensures msg.Write? ==> (Receive(c, tag, msg).value.pending <==>
      msg.fid in c.fidmap && c.srv.write
      && var m := Mode(srv, es, c, msg.fid); m.Some? && (m.value % 4 == 1 || m.value % 4 == 2))
    ensures msg.Walk? || msg.Create? ==> (Receive(c, tag, msg).value.pending ==>
      msg.fid in c.fidmap && !OpenMode(Mode(srv, es, c, msg.fid)))
  {
    hide Inv, Receive, Run, Grants;
    if msg.Read? || msg.Write? || msg.Walk? || msg.Create? {
      InitialInv(srv);
      InitialGranted(srv);
      RunGranted(Initial(srv), es, c, []);
      assert [] + Grants(Initial(srv), es) == Grants(Initial(srv), es);
      ReceiveAdmits(c, tag, msg);
      if msg.fid in c.fidmap {
        StoredMode(Mode(srv, es, c, msg.fid));
      }
    }
  }

  lemma InitialGranted(srv: Handlers)
    ensures Granted(Initial(srv), []) && NoVersion(Initial(srv))
  {
  }

  lemma StoredMode(m: Option<nat>)
    ensures Stored(m) == -1 <==> !OpenMode(m)
    ensures Stored(m) == 1 <==> m.Some? && m.value % 256 == 1
    ensures m.Some? ==> Stored(m) % 4 == m.value % 4
  {
    if m.Some? {
      assert m.value % 256 % 4 == m.value % 4;
    }
  }
}
