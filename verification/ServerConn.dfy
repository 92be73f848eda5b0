/**
 * request.c in place: a connection object whose chained tables, counter and buffers
 * the operations update one after the other. Every method is proved to compute the
 * function of the same name in Server. A call is only made where that function has
 * a result: no failed assert, no freed fid, no flush cycle. A fid is changed where
 * its table entry holds it.
 */
module ServerConn {
  import opened Basics
  import opened HashMap
  import S = Server
  import ServerInvariant

  const BUCKETS: nat := 61

  /** The keys in the order in which ixp_mapexec visits their entries. */
  function Keys<V>(seen: seq<Ent<V>>): (s: seq<nat>)
    ensures |s| == |seen| && forall i :: 0 <= i < |s| ==> s[i] == seen[i].hash
  {
    seq(|seen|, i requires 0 <= i < |seen| => seen[i].hash)
  }

  lemma VisitsAll<V>(seen: seq<Ent<V>>, m: map<nat, V>)
    requires forall i, j :: 0 <= i < j < |seen| ==> seen[i].hash != seen[j].hash
    requires forall i :: 0 <= i < |seen| ==> seen[i].hash in m
    requires forall h :: h in m ==> HasKey(seen, h)
    ensures S.Visits(Keys(seen), m)
  {
    var s := Keys(seen);
    forall h | h in m ensures h in s {
      assert HasKey(seen, h);
      var i :| 0 <= i < |seen| && seen[i].hash == h;
      assert s[i] == h;
    }
  }

  /** The entries of a table as ixp_mapexec visits them, and their keys. */
  method Visit<V>(t: IxpMap<V>) returns (seen: seq<Ent<V>>, ghost keys: seq<nat>)
    requires t.Valid()
    ensures |keys| == |seen| && S.Visits(keys, t.m)
    ensures forall i :: 0 <= i < |seen| ==> keys[i] == seen[i].hash && seen[i].hash in t.m && seen[i].val == t.m[seen[i].hash]
  {
    seen := t.Exec();
    VisitsAll(seen, t.m);
    keys := Keys(seen);
  }

  class Ixp9Conn {
    const srv: S.Handlers
    var attached: bool
    var closing: bool
    var wired: bool
    var ref: int
    var frees: nat
    const tagmap: IxpMap<nat>
    const fidmap: IxpMap<S.Fid>
    var live: map<nat, S.Req>
    var todo: seq<nat>
    var next: nat
    var rsize: nat
    var wsize: nat
    var out: seq<S.Sent>

    ghost function TagRepr(): set<object> {
      {tagmap, tagmap.bucket}
    }

    ghost function FidRepr(): set<object> {
      {fidmap, fidmap.bucket}
    }

    ghost function Repr(): set<object> {
      {this} + TagRepr() + FidRepr()
    }

    ghost predicate Valid()
      reads Repr()
    {
      && tagmap.Valid() && fidmap.Valid()
      && TagRepr() !! FidRepr() && this !in TagRepr() + FidRepr()
    }

    ghost function View(): S.Conn
      reads this, tagmap, fidmap
    {
      S.Conn(srv, attached, closing, wired, ref, frees, tagmap.m, fidmap.m, live, todo, next, rsize, wsize, out)
    }

    constructor (srv: S.Handlers)
      ensures Valid() && View() == S.Initial(srv) && fresh(Repr())
      ensures tagmap.nhash == 61 && fidmap.nhash == 61
    {
      this.srv := srv;
      attached, closing, wired, ref, frees := true, false, false, 1, 0;
      tagmap := new IxpMap(BUCKETS);
      fidmap := new IxpMap(BUCKETS);
      live, todo, next := map[], [], 0;
      rsize, wsize, out := 1024, 1024, [];
    }

    /** decref_p9conn. */
    method DecRef()
      modifies this`ref, this`frees
      ensures View() == S.DecRef(old(View()))
    {
      ref := ref - 1;
      if ref > 0 {
        return;
      }
      frees := frees + 1;
    }

    /** createfid. */
    method CreateFid(num: nat) returns (r: Option<S.FidRef>)
      requires Valid()
      modifies Repr()
      ensures Valid()
      ensures S.CreateFid(old(View()), num) == (View(), r)
    {
      ref := ref + 1;
      var ok := fidmap.Insert(num, S.Fid(next, -1, S.Qid(false, 0), 0), false);
      if ok {
        r := Some(S.FidRef(num, next));
        next := next + 1;
        return;
      }
      DecRef();
      r := None;
    }

    /** destroyfid through a request's pointer, which may be nil. */
    method DestroyRef(r: Option<S.FidRef>)
      requires S.DestroyRef(View(), r).Some?
      requires Valid()
      modifies Repr()
      ensures Valid()
      ensures S.DestroyRef(old(View()), r) == Some(View())
    {
      if r.Some? {
        var f := fidmap.Remove(r.value.num);
        DecRef();
      }
    }

    // ---- ixp_respond ----

    method SettleVersion(msize: nat, version: string) returns (reply: S.Reply)
      requires Valid()
      modifies Repr()
      ensures Valid()
      ensures View() == old(View()).(rsize := S.Min(msize, S.MAX_MSG), wsize := S.Min(msize, S.MAX_MSG))
      ensures reply == S.RVersion(S.Min(msize, S.MAX_MSG), if version == "9P" || version == "9P2000" then version else "unknown")
    {
      var n := S.Min(msize, S.MAX_MSG);
      rsize := n;
      wsize := n;
      reply := S.RVersion(n, if version == "9P" || version == "9P2000" then version else "unknown");
    }

    method SettleOpen(q: S.Req, a: S.Answer, mode: nat) returns (reply: S.Reply)
      requires S.SettleOpen(View(), q, a, mode).Some?
      requires Valid()
      modifies Repr()
      ensures Valid()
      ensures S.SettleOpen(old(View()), q, a, mode) == Some(S.Settled(View(), reply))
    {
      if a.error.Some? {
        return S.RError(a.error.value);
      }
      var num := q.fid.value.num;
      var io := rsize - S.IOHDRSZ;
      var f := fidmap.Get(num);
      var ok := fidmap.Insert(num, f.value.(omode := S.SignedChar(mode), qid := a.qid, iounit := io), true);
      reply := S.ROpen(a.qid, io);
    }

    method SettleWalk(q: S.Req, a: S.Answer, fid: nat, newfid: nat, nwname: nat) returns (reply: S.Reply)
      requires S.SettleWalk(View(), q, a, fid, newfid, nwname).Some?
      requires Valid()
      modifies Repr()
      ensures Valid()
      ensures S.SettleWalk(old(View()), q, a, fid, newfid, nwname) == Some(S.Settled(View(), reply))
    {
      var error := a.error;
      if error.Some? || a.nwqid < nwname {
        if fid != newfid {
          DestroyRef(q.newfid);
        }
        if error.None? && a.nwqid == 0 {
          error := Some(S.Enofile);
        }
      } else {
        var num := q.newfid.value.num;
        var f := fidmap.Get(num);
        var qid := a.qid;
        if a.nwqid == 0 {
          var old_ := fidmap.Get(q.fid.value.num);
          qid := old_.value.qid;
        }
        var ok := fidmap.Insert(num, f.value.(qid := qid), true);
      }
      reply := if error.Some? then S.RError(error.value) else S.RWalk(a.nwqid);
    }

    /** The switch of ixp_respond, but for TFlush. */
    method Settle(q: S.Req, a: S.Answer) returns (reply: S.Reply)
      requires !q.msg.Flush? && S.Settle(View(), q, a).Some?
      requires Valid()
      modifies Repr()
      ensures Valid()
      ensures S.Settle(old(View()), q, a) == Some(S.Settled(View(), reply))
    {
      hide S.SettleOpen, S.SettleWalk, S.DestroyRef;
      reply := if a.error.Some? then S.RError(a.error.value) else S.ROk;
      match q.msg {
        case Version(msize, version) =>
          reply := SettleVersion(msize, version);
        case Attach(_) =>
          if a.error.Some? {
            DestroyRef(q.fid);
          }
        case Open(_, mode) =>
          reply := SettleOpen(q, a, mode);
        case Create(_, mode) =>
          reply := SettleOpen(q, a, mode);
        case Walk(fid, newfid, nwname) =>
          reply := SettleWalk(q, a, fid, newfid, nwname);
        case Remove(_) =>
          DestroyRef(q.fid);
        case Clunk(_) =>
          DestroyRef(q.fid);
        case _ =>
      }
    }

    /** The end of ixp_respond. */
    method Finish(id: nat, reply: S.Reply)
      requires id in live
      requires Valid()
      modifies Repr()
      ensures Valid()
      ensures View() == S.Finish(old(View()), id, reply)
    {
      var q := live[id];
      var t := tagmap.Remove(q.tag);
      if wired {
        out := out + [S.Sent(id, q.tag, reply)];
      }
      live := live - {id};
      DecRef();
    }

    /** ixp_respond; `busy` is only there for the proof that the recursion ends. */
    method Respond(id: nat, a: S.Answer, ghost busy: set<nat>)
      requires id in live && S.Respond(View(), id, a, busy).Some?
      requires Valid()
      modifies Repr()
      ensures Valid()
      ensures S.Respond(old(View()), id, a, busy) == Some(View())
      decreases |live.Keys - busy|
    {
      hide S.Settle, S.Finish;
      var q := live[id];
      var reply;
      if q.msg.Flush? {
        var oldreq := tagmap.Get(q.msg.oldtag);
        if oldreq.Some? {
          assert live.Keys - (busy + {id}) < live.Keys - busy by { assert id in live.Keys - busy; }
          S.Shrinks(live.Keys - (busy + {id}), live.Keys - busy);
          Respond(oldreq.value, S.Refusal(S.Eintr), busy + {id});
        }
        reply := if a.error.Some? then S.RError(a.error.value) else S.ROk;
      } else {
        reply := Settle(q, a);
      }
      Finish(id, reply);
    }

    // ---- handlereq ----

    method Refuse(id: nat, e: S.Err)
      requires id in live && S.Respond(View(), id, S.Refusal(e), {}).Some?
      requires Valid()
      modifies Repr()
      ensures Valid()
      ensures S.Refuse(old(View()), id, e) == Some(S.Handled(View(), false))
    {
      Respond(id, S.Refusal(e), {});
    }

    method SetFid(id: nat, r: Option<S.FidRef>)
      requires id in live
      modifies this`live
      ensures View() == S.SetFid(old(View()), id, r)
    {
      live := live[id := live[id].(fid := r)];
    }

    method SetNewFid(id: nat, r: Option<S.FidRef>)
      requires id in live
      modifies this`live
      ensures View() == S.SetNewFid(old(View()), id, r)
    {
      live := live[id := live[id].(newfid := r)];
    }

    method CallWalk(id: nat) returns (pending: bool)
      requires id in live && S.CallWalk(View(), id).Some?
      requires Valid()
      modifies Repr()
      ensures Valid()
      ensures S.CallWalk(old(View()), id) == Some(S.Handled(View(), pending))
    {
      hide S.Respond;
      if !srv.walk {
        Refuse(id, S.Enofunc);
        return false;
      }
      pending := true;
    }

    /** The TWalk case, once the fid was found. */
    method HandleWalk(id: nat, f: S.Fid, fid: nat, newfid: nat, nwname: nat) returns (pending: bool)
      requires id in live && S.HandleWalk(View(), id, f, fid, newfid, nwname).Some?
      requires Valid()
      modifies Repr()
      ensures Valid()
      ensures S.HandleWalk(old(View()), id, f, fid, newfid, nwname) == Some(S.Handled(View(), pending))
    {
      hide S.Respond, S.CallWalk;
      pending := false;
      if f.omode != -1 {
        Refuse(id, S.Ewalkopen);
        return;
      }
      if nwname > 0 && !f.qid.dir {
        Refuse(id, S.Enotdir);
        return;
      }
      if fid != newfid {
        var r := CreateFid(newfid);
        SetNewFid(id, r);
        if r.None? {
          Refuse(id, S.Edupfid);
          return;
        }
      } else {
        SetNewFid(id, live[id].fid);
      }
      pending := CallWalk(id);
    }

    /** The other cases on a fid that was found. */
    method HandleOnFid(id: nat, msg: S.Request, f: S.Fid) returns (pending: bool)
      requires id in live && S.HandleOnFid(View(), id, msg, f).Some?
      requires Valid()
      modifies Repr()
      ensures Valid()
      ensures S.HandleOnFid(old(View()), id, msg, f) == Some(S.Handled(View(), pending))
    {
      hide S.Respond, S.HandleWalk;
      if msg.Walk? {
        pending := HandleWalk(id, f, msg.fid, msg.newfid, msg.nwname);
        return;
      }
      if msg.Clunk? {
        if !srv.clunk {
          Respond(id, S.Done(), {});
          return false;
        }
        return true;
      }
      var p := Check(msg, f);
      if p.Some? {
        Refuse(id, p.value);
        return false;
      }
      pending := true;
    }

    /** The tests of the other cases, in the order of handlereq. */
    method Check(msg: S.Request, f: S.Fid) returns (p: Option<S.Err>)
      ensures p == S.Precheck(View(), msg, f)
    {
      p := None;
      match msg {
        case Create(_, _) =>
          if f.omode != -1 { return Some(S.Eopen); }
          if !f.qid.dir { return Some(S.Enotdir); }
          if !srv.create { return Some(S.Enofunc); }
        case Open(_, mode) =>
          if f.qid.dir && mode != 0 && mode != 64 { return Some(S.Eisdir); }
          if !srv.open { return Some(S.Enofunc); }
        case Read(_) =>
          if f.omode == -1 || f.omode == 1 { return Some(S.Enoread); }
          if !srv.read { return Some(S.Enofunc); }
        case Remove(_) =>
          if !srv.remove { return Some(S.Enofunc); }
        case Stat(_) =>
          if !srv.stat { return Some(S.Enofunc); }
        case Write(_) =>
          if f.omode % 4 != 1 && f.omode % 4 != 2 { return Some(S.Enowrite); }
          if !srv.write { return Some(S.Enofunc); }
        case WStat(_, ch) =>
          if ch.typ { return Some(S.Ewstype); }
          if ch.dev { return Some(S.Ewsdev); }
          if ch.qid { return Some(S.Ewsqid); }
          if ch.muid { return Some(S.Ewsmuid); }
          if ch.dirBit.Some? && ch.dirBit.value != f.qid.dir { return Some(S.Ewsdir); }
          if !srv.wstat { return Some(S.Enofunc); }
        case _ =>
      }
    }

    /** handlereq; the result says whether a handler now has the request. */
    method HandleReq(id: nat) returns (pending: bool)
      requires id in live && S.HandleReq(View(), id).Some?
      requires Valid()
      modifies Repr()
      ensures Valid()
      ensures S.HandleReq(old(View()), id) == Some(S.Handled(View(), pending))
    {
      hide S.Respond, S.HandleOnFid, S.CreateFid;
      pending := false;
      var msg := live[id].msg;
      match msg {
        case Version(_, _) =>
          Respond(id, S.Done(), {});
        case Unknown(_) =>
          Refuse(id, S.Enofunc);
        case Attach(fid) =>
          var r := CreateFid(fid);
          SetFid(id, r);
          if r.None? {
            Refuse(id, S.Edupfid);
          } else {
            pending := true;
          }
        case Flush(oldtag) =>
          var oldreq := tagmap.Get(oldtag);
          if oldreq.None? {
            Refuse(id, S.Enotag);
          } else if !srv.flush {
            Refuse(id, S.Enofunc);
          } else {
            pending := true;
          }
        case _ =>
          pending := HandleFid(id, msg);
      }
    }

    /** Look the fid up, then go on with it. */
    method HandleFid(id: nat, msg: S.Request) returns (pending: bool)
      requires id in live && live[id].msg == msg && S.HandleReq(View(), id).Some?
      requires !msg.Version? && !msg.Unknown? && !msg.Attach? && !msg.Flush?
      requires Valid()
      modifies Repr()
      ensures Valid()
      ensures S.HandleReq(old(View()), id) == Some(S.Handled(View(), pending))
    {
      hide S.Respond, S.HandleOnFid;
      var f := fidmap.Get(msg.fid);
      if f.None? {
        SetFid(id, None);
        Refuse(id, S.Enofid);
        return false;
      }
      SetFid(id, Some(S.FidRef(msg.fid, f.value.serial)));
      pending := HandleOnFid(id, msg, f.value);
    }

    // ---- handlefcall and cleanupconn ----

    /** handlefcall, once a message was read and unpacked. */
    method HandleFcall(tag: nat, msg: S.Request) returns (pending: bool)
      requires S.Receive(View(), tag, msg).Some?
      requires Valid()
      modifies Repr()
      ensures Valid()
      ensures S.Receive(old(View()), tag, msg) == Some(S.Handled(View(), pending))
    {
      hide S.Respond, S.HandleReq;
      var id := next;
      next := next + 1;
      ref := ref + 1;
      live := live[id := S.Req(tag, msg, None, None)];
      wired := true;
      var ok := tagmap.Insert(tag, id, false);
      if !ok {
        Refuse(id, S.Eduptag);
        return false;
      }
      pending := HandleReq(id);
    }

    /** voidfid and voidrequest: a synthesised request at the front of the list. */
    method Void(q: S.Req)
      modifies this
      ensures live == old(live)[old(next) := q] && next == old(next) + 1
      ensures View() == S.Queue(S.Admit(old(View()), q), old(next))
    {
      ref := ref + 1;
      live := live[next := q];
      todo := [next] + todo;
      next := next + 1;
    }

    /**
     * cleanupconn up to its loop. The orders are those in which ixp_mapexec runs through
     * the two tables, and each visits every entry once.
     */
    method HangUp() returns (ghost fids: seq<nat>, ghost tags: seq<nat>)
      requires Valid() && ServerInvariant.Inv(View()) && attached && !closing
      modifies Repr()
      ensures Valid() && S.Enabled(old(View()), S.Hangup(fids, tags))
      ensures View() == S.HangUp(old(View()), fids, tags)
    {
      wired := false;
      closing := true;
      if ref > 1 {
        fids, tags := VoidAll();
      } else {
        NothingLeft(View());
        fids, tags := [], [];
      }
    }

    /** Every waiting request is found under its own tag, and is not one still to be made. */
    ghost predicate Found()
      reads this, tagmap
    {
      forall t :: t in tagmap.m ==> tagmap.m[t] in live && live[tagmap.m[t]].tag == t && tagmap.m[t] < next
    }

    method VoidAll() returns (ghost fids: seq<nat>, ghost tags: seq<nat>)
      requires Valid() && Found()
      modifies this
      ensures Valid() && S.Visits(fids, fidmap.m) && S.Visits(tags, tagmap.m)
      ensures View() == S.VoidRequests(S.VoidFids(old(View()), fids), tags)
    {
      hide S.VoidFids, S.VoidRequests, S.Visits;
      fids := VoidEachFid();
      tags := VoidEachRequest();
    }

    method VoidEachFid() returns (ghost fids: seq<nat>)
      requires Valid() && Found()
      modifies this
      ensures Valid() && Found() && S.Visits(fids, fidmap.m) && View() == S.VoidFids(old(View()), fids)
    {
      hide S.Visits, S.VoidFids, S.VoidFid, Keys;
      var fs;
      fs, fids := Visit(fidmap);
      NextFid(View(), fids, 0);
      ghost var c := S.VoidFids(View(), fids);
      for i := 0 to |fs|
        invariant Valid() && Found() && S.VoidFids(View(), fids[i..]) == c
      {
        NextFid(View(), fids, i);
        Void(S.Req(S.NOTAG, S.Clunk(fs[i].hash), Some(S.FidRef(fs[i].hash, fs[i].val.serial)), None));
      }
      NextFid(View(), fids, |fids|);
    }

    /** voidrequest: a flush of the tag under which the request waits. */
    method VoidRequest(orig: nat, ghost tag: nat)
      requires Valid() && Found() && tag in tagmap.m && tagmap.m[tag] == orig
      modifies this
      ensures Valid() && Found()
      ensures View() == S.Queue(S.Admit(old(View()), S.Req(S.NOTAG, S.Flush(tag), None, None)), old(next))
    {
      Void(S.Req(S.NOTAG, S.Flush(live[orig].tag), None, None));
    }

    method VoidEachRequest() returns (ghost tags: seq<nat>)
      requires Valid() && Found()
      modifies this
      ensures Valid() && S.Visits(tags, tagmap.m) && View() == S.VoidRequests(old(View()), tags)
    {
      hide S.Visits, S.VoidRequests, S.VoidRequest, Keys, S.Queue, S.Admit;
      var rs;
      rs, tags := Visit(tagmap);
      NextTag(View(), tags, 0);
      ghost var d := S.VoidRequests(View(), tags);
      for i := 0 to |rs|
        invariant Valid() && Found() && S.VoidRequests(View(), tags[i..]) == d
      {
        NextTag(View(), tags, i);
        VoidRequest(rs[i].val, tags[i]);
      }
      NextTag(View(), tags, |tags|);
    }

    /** One turn of the loop of cleanupconn. */
    method CleanNext() returns (pending: bool)
      requires todo != [] && todo[0] in live && S.CleanNext(View()).Some?
      requires Valid()
      modifies Repr()
      ensures Valid()
      ensures S.CleanNext(old(View())) == Some(S.Handled(View(), pending))
    {
      hide S.HandleReq;
      var id := todo[0];
      todo := todo[1..];
      pending := HandleReq(id);
    }

    /** The end of cleanupconn. */
    method CleanEnd()
      requires Valid()
      modifies Repr()
      ensures Valid()
      ensures View() == S.CleanEnd(old(View()))
    {
      attached := false;
      DecRef();
    }
  }

  /** One more turn of a loop over the fids, or none. */
  lemma NextFid(c: S.Conn, fids: seq<nat>, i: nat)
    requires i <= |fids|
    ensures S.VoidFids(c, fids[i..]) ==
      if i == |fids| then c
      else S.VoidFids(S.Queue(S.Admit(c, S.Req(S.NOTAG, S.Clunk(fids[i]), S.Lookup(c, fids[i]), None)), c.next), fids[i + 1..])
    ensures fids[0..] == fids
  {
    if i < |fids| { assert fids[i..][1..] == fids[i + 1..]; }
  }

  lemma NextTag(c: S.Conn, tags: seq<nat>, i: nat)
    requires i <= |tags|
    ensures S.VoidRequests(c, tags[i..]) ==
      if i == |tags| then c
      else S.VoidRequests(S.Queue(S.Admit(c, S.Req(S.NOTAG, S.Flush(tags[i]), None, None)), c.next), tags[i + 1..])
    ensures tags[0..] == tags
  {
    if i < |tags| { assert tags[i..][1..] == tags[i + 1..]; }
  }

  /** Without references there is nothing in the tables. */
  lemma NothingLeft(c: S.Conn)
    requires ServerInvariant.RefInv(c) && ServerInvariant.TagInv(c) && c.ref <= 1 && c.attached
    ensures S.Visits([], c.fidmap) && S.Visits([], c.tagmap)
  {
    assert |c.fidmap| == 0 && |c.live| == 0;
  }
}
