/**
 * cleanupconn with handlers that answer the synthesised flushes and clunks at
 * once: every pending request is interrupted, then every fid is clunked, and the
 * connection ends empty and freed.
 */
module ServerTeardown {
  import opened Basics
  import opened Server
  import opened ServerInvariant

  /** The fid that answering the request with an error destroys. */
  function Drops(q: Req): Option<FidRef> {
    match q.msg
    case Attach(_) => q.fid
    case Clunk(_) => q.fid
    case Remove(_) => q.fid
    case Walk(fid, newfid, _) => if fid != newfid then q.newfid else None
    case _ => None
  }

  /** A request some handler holds. */
  predicate Held(c: Conn, i: nat) {
    i in c.live && i !in c.todo
  }

  /** No two held requests drop the same fid, and none drops a fid that is gone. */
  ghost predicate Exclusive(c: Conn) {
    && (forall i :: Held(c, i) && Drops(c.live[i]).Some? ==> Current(c, Drops(c.live[i]).value))
    && (forall i, j :: Held(c, i) && Held(c, j) && i != j && Drops(c.live[i]).Some? && Drops(c.live[j]).Some? ==>
          Drops(c.live[i]).value.num != Drops(c.live[j]).value.num)
  }

  /** Every held request but x is found under its tag. */
  ghost predicate Tracked(c: Conn, x: Option<nat>) {
    && NOTAG !in c.tagmap
    && forall i :: Held(c, i) && x != Some(i) ==> c.live[i].tag in c.tagmap && c.tagmap[c.live[i].tag] == i
  }

  /** Flushes form no cycle: a Tflush ranks above the request it names. */
  ghost predicate Ranked(c: Conn, rank: nat -> nat) {
    forall i :: i in c.live && Victim(c, c.live[i]).Some? ==> rank(Victim(c, c.live[i]).value) < rank(i)
  }

  /** Tversion is answered at once, so it is never held. */
  ghost predicate NoVersion(c: Conn) {
    forall i :: i in c.live ==> !c.live[i].msg.Version?
  }

  /** What cleanupconn relies on while it works through its list; x is the request in hand. */
  ghost predicate Tear(c: Conn, rank: nat -> nat, x: Option<nat>) {
    && TagInv(c) && (forall t :: t in c.tagmap ==> c.tagmap[t] !in c.todo)
    && Exclusive(c) && Tracked(c, x) && Ranked(c, rank) && NoVersion(c)
  }

  // ---- Interrupting one chain ----

  /** d is c without request id, its tag, and the fid it drops. */
  ghost predicate Without1(c: Conn, d: Conn, id: nat) {
    && id in c.live && d.live == c.live - {id} && d.todo == c.todo && d.srv == c.srv
    && d.tagmap == c.tagmap - {c.live[id].tag}
    && d.fidmap == (if Drops(c.live[id]).Some? then c.fidmap - {Drops(c.live[id]).value.num} else c.fidmap)
  }

  lemma WithoutExclusive(c: Conn, d: Conn, id: nat)
    requires Exclusive(c) && Held(c, id) && Without1(c, d, id)
    ensures Exclusive(d)
  {
    assert forall i :: Held(d, i) ==> Held(c, i) && i != id && d.live[i] == c.live[i];
    forall i | Held(d, i) && Drops(d.live[i]).Some?
      ensures Current(d, Drops(d.live[i]).value)
    {
      assert Current(c, Drops(c.live[i]).value);
    }
  }

  lemma WithoutTracked(c: Conn, d: Conn, x: Option<nat>, id: nat)
    requires Tracked(c, x) && Held(c, id) && Without1(c, d, id)
    requires x == Some(id) ==> c.live[id].tag == NOTAG
    ensures Tracked(d, x)
  {
    forall i | Held(d, i) && x != Some(i)
      ensures d.live[i].tag in d.tagmap && d.tagmap[d.live[i].tag] == i
    {
      assert Held(c, i) && c.tagmap[c.live[i].tag] == i;
      if x != Some(id) { assert c.tagmap[c.live[id].tag] == id; }
    }
  }

  lemma WithoutRanked(c: Conn, d: Conn, rank: nat -> nat, id: nat)
    requires Ranked(c, rank) && NoVersion(c) && Without1(c, d, id)
    ensures Ranked(d, rank) && NoVersion(d)
  {
    forall i | i in d.live && Victim(d, d.live[i]).Some?
      ensures rank(Victim(d, d.live[i]).value) < rank(i)
    {
      assert Victim(c, c.live[i]) == Victim(d, d.live[i]);
    }
  }

  lemma WithoutTags(c: Conn, d: Conn, id: nat)
    requires TagInv(c) && (forall t :: t in c.tagmap ==> c.tagmap[t] !in c.todo) && Without1(c, d, id)
    ensures TagInv(d) && (forall t :: t in d.tagmap ==> d.tagmap[t] !in d.todo)
  {
  }

  lemma WithoutTear(c: Conn, d: Conn, rank: nat -> nat, x: Option<nat>, id: nat)
    requires Tear(c, rank, x) && Held(c, id) && Without1(c, d, id)
    requires x == Some(id) ==> c.live[id].tag == NOTAG
    ensures Tear(d, rank, x)
  {
    WithoutTags(c, d, id);
    WithoutExclusive(c, d, id);
    WithoutTracked(c, d, x, id);
    WithoutRanked(c, d, rank, id);
  }

  /** Everything of c but its fids and their count. */
  ghost predicate SameButFids(c: Conn, d: Conn, fids: map<nat, Fid>) {
    d.live == c.live && d.todo == c.todo && d.tagmap == c.tagmap && d.srv == c.srv && d.fidmap == fids
  }

  lemma DestroyFrame(c: Conn, r: Option<FidRef>)
    requires r.Some? ==> Current(c, r.value)
    ensures DestroyRef(c, r).Some?
    ensures SameButFids(c, DestroyRef(c, r).value, if r.Some? then c.fidmap - {r.value.num} else c.fidmap)
  {
  }

  lemma SettleDrops(c: Conn, q: Req)
    requires Drops(q).Some? ==> Current(c, Drops(q).value)
    requires !q.msg.Version?
    ensures Settle(c, q, Refusal(Eintr)).Some?
    ensures SameButFids(c, Settle(c, q, Refusal(Eintr)).value.c,
                        if Drops(q).Some? then c.fidmap - {Drops(q).value.num} else c.fidmap)
  {
    DestroyFrame(c, Drops(q));
  }

  /** An interrupted request that is not a Tflush: only its own fid goes. */
  lemma PlainInterrupt(c: Conn, id: nat, busy: set<nat>)
    requires id in c.live && !c.live[id].msg.Flush? && !c.live[id].msg.Version? && id !in busy
    requires Drops(c.live[id]).Some? ==> Current(c, Drops(c.live[id]).value)
    ensures Respond(c, id, Refusal(Eintr), busy).Some?
    ensures Without1(c, Respond(c, id, Refusal(Eintr), busy).value, id)
  {
    SettleDrops(c, c.live[id]);
  }

  lemma FlushFinish(d: Conn, id: nat, reply: Reply)
    requires id in d.live && d.live[id].msg.Flush?
    ensures Without1(d, Finish(d, id, reply), id)
  {
  }

  /** Interrupting a held request: it comes back, answers the chain, and keeps the rest sound. */
  lemma {:induction false} InterruptTear(c: Conn, rank: nat -> nat, x: Option<nat>, id: nat, a: Answer, busy: set<nat>)
    requires Tear(c, rank, x) && Held(c, id)
    requires x.Some? && x.value in c.live ==> c.live[x.value].tag == NOTAG && c.live[x.value].msg.Flush?
    requires c.live[id].msg.Flush? || a == Refusal(Eintr)
    requires forall i :: i in busy ==> rank(i) > rank(id) && Held(c, i)
    ensures Respond(c, id, a, busy).Some?
    ensures Tear(Respond(c, id, a, busy).value, rank, x) && Less(c, Respond(c, id, a, busy).value, id, busy)
    ensures forall v :: Victim(c, c.live[id]) == Some(v) ==> v !in Respond(c, id, a, busy).value.live
    decreases rank(id)
  {
    hide Less, Settle, Finish, Without1;
    assert id !in busy;
    if !c.live[id].msg.Flush? {
      PlainInterrupt(c, id, busy);
      StepTear(c, Respond(c, id, a, busy).value, rank, x, id, busy);
    } else {
      var v := Victim(c, c.live[id]);
      if v.None? {
        FlushFinish(c, id, Plain(c, a, ROk).reply);
        StepTear(c, Finish(c, id, Plain(c, a, ROk).reply), rank, x, id, busy);
      } else {
        VictimHeld(c, x, id);
        InterruptTear(c, rank, x, v.value, Refusal(Eintr), busy + {id});
        var d := Respond(c, v.value, Refusal(Eintr), busy + {id}).value;
        LinkTear(c, d, rank, x, id, v.value, Plain(d, a, ROk).reply, busy);
      }
    }
  }

  /** Fewer requests, tags and fids than before; those in busy are still there. */
  ghost predicate Less(c: Conn, d: Conn, id: nat, busy: set<nat>) {
    && id !in d.live && d.todo == c.todo && d.srv == c.srv
    && (forall i :: i in d.live ==> i in c.live && d.live[i] == c.live[i])
    && (forall i :: i in busy ==> i in d.live)
    && (forall i :: i in c.todo && i in c.live ==> i in d.live)
    && d.tagmap.Keys <= c.tagmap.Keys && d.fidmap.Keys <= c.fidmap.Keys
  }

  lemma StepTear(c: Conn, d: Conn, rank: nat -> nat, x: Option<nat>, id: nat, busy: set<nat>)
    requires Tear(c, rank, x) && Held(c, id) && Without1(c, d, id) && (x == Some(id) ==> c.live[id].tag == NOTAG)
    requires id !in busy && forall i :: i in busy ==> Held(c, i)
    ensures Tear(d, rank, x) && Less(c, d, id, busy)
  {
    WithoutTear(c, d, rank, x, id);
  }

  lemma LinkTear(c: Conn, d: Conn, rank: nat -> nat, x: Option<nat>, id: nat, v: nat, reply: Reply, busy: set<nat>)
    requires Tear(d, rank, x) && Less(c, d, v, busy + {id}) && Held(c, id) && c.live[id].msg.Flush?
    requires x == Some(id) ==> c.live[id].tag == NOTAG
    requires id !in busy
    ensures id in d.live
    ensures Tear(Finish(d, id, reply), rank, x) && Less(c, Finish(d, id, reply), id, busy)
    ensures v !in Finish(d, id, reply).live
  {
    assert id in busy + {id};
    FlushFinish(d, id, reply);
    WithoutTear(d, Finish(d, id, reply), rank, x, id);
  }

  lemma VictimHeld(c: Conn, x: Option<nat>, id: nat)
    requires TagInv(c) && (forall t :: t in c.tagmap ==> c.tagmap[t] !in c.todo)
    requires NOTAG !in c.tagmap && id in c.live && Victim(c, c.live[id]).Some?
    requires x.Some? && x.value in c.live ==> c.live[x.value].tag == NOTAG
    ensures Held(c, Victim(c, c.live[id]).value) && x != Victim(c, c.live[id])
  {
  }

  // ---- Working through the list ----

  /** One turn of the loop, with the handler answering `a` at once. */
  function CleanOne(c: Conn, a: Answer): Option<Conn>
    requires c.todo != [] && c.todo[0] in c.live
  {
    Complete(CleanNext(c), c.todo[0], a)
  }

  /** Some request still on the list has this message. */
  ghost predicate Listed(c: Conn, msg: Request) {
    exists k :: 0 <= k < |c.todo| && c.todo[k] in c.live && c.live[c.todo[k]].msg == msg
  }

  /** The list: synthesised flushes, then synthesised clunks. */
  ghost predicate Lined(c: Conn) {
    && NoDup(c.todo)
    && (forall k :: 0 <= k < |c.todo| ==>
          && c.todo[k] in c.live && c.live[c.todo[k]].tag == NOTAG
          && (c.live[c.todo[k]].msg.Flush? || c.live[c.todo[k]].msg.Clunk?))
    && (forall k, l :: 0 <= k < l < |c.todo| && c.live[c.todo[k]].msg.Clunk? ==> c.live[c.todo[l]].msg.Clunk?)
  }

  /** Every tag has its flush and every fid its clunk on the list. */
  ghost predicate Covered(c: Conn) {
    (forall t :: t in c.tagmap ==> Listed(c, Flush(t))) && (forall f :: f in c.fidmap ==> Listed(c, Clunk(f)))
  }

  ghost predicate Work(c: Conn, rank: nat -> nat) {
    Tear(c, rank, None) && Lined(c) && Covered(c)
  }

  lemma TakeExclusive(c: Conn, e: Conn, id: nat)
    requires Exclusive(c) && id in c.live && Drops(c.live[id]).None? && e == c.(todo := e.todo)
    requires forall i :: i in c.todo <==> i == id || i in e.todo
    ensures Exclusive(e)
  {
    assert forall i :: Held(e, i) && i != id ==> Held(c, i);
    forall i | Held(e, i) && Drops(e.live[i]).Some?
      ensures Current(e, Drops(e.live[i]).value)
    {
      assert Held(c, i) && Current(c, Drops(c.live[i]).value);
    }
  }

  lemma TakeTracked(c: Conn, e: Conn, id: nat, rank: nat -> nat)
    requires Tracked(c, None) && Ranked(c, rank) && e == c.(todo := e.todo)
    requires forall i :: i in c.todo <==> i == id || i in e.todo
    ensures Tracked(e, Some(id)) && Ranked(e, rank)
  {
    assert forall i :: Held(e, i) && i != id ==> Held(c, i);
    assert forall i :: i in e.live ==> Victim(e, e.live[i]) == Victim(c, c.live[i]);
  }

  /** The list shortened by its head, which is then the request in hand. */
  lemma TakeHead(c: Conn, rank: nat -> nat)
    requires Work(c, rank) && c.todo != [] && c.live[c.todo[0]].msg.Flush?
    ensures var e := c.(todo := c.todo[1..]);
      Tear(e, rank, Some(c.todo[0])) && Held(e, c.todo[0]) && Lined(e)
  {
    var e := c.(todo := c.todo[1..]);
    var id := c.todo[0];
    assert c.todo == [id] + e.todo;
    assert id !in e.todo;
    TakeExclusive(c, e, id);
    TakeTracked(c, e, id, rank);
  }

  lemma FlushShape(c: Conn, a: Answer) returns (b: Answer)
    requires c.todo != [] && c.todo[0] in c.live && c.live[c.todo[0]].msg.Flush?
    ensures CleanOne(c, a) == Respond(c.(todo := c.todo[1..]), c.todo[0], b, {})
  {
    var t := c.live[c.todo[0]].msg.oldtag;
    b := if t !in c.tagmap then Refusal(Enotag) else if !c.srv.flush then Refusal(Enofunc) else a;
  }

  function Complete(h: Option<Handled>, id: nat, a: Answer): Option<Conn> {
    match h
    case None => None
    case Some(x) => if x.pending && id in x.c.live then Respond(x.c, id, a, {}) else Some(x.c)
  }

  lemma FlushTurn(c: Conn, rank: nat -> nat, a: Answer)
    requires Work(c, rank) && c.todo != [] && c.live[c.todo[0]].msg.Flush?
    ensures CleanOne(c, a).Some?
    ensures Work(CleanOne(c, a).value, rank) && CleanOne(c, a).value.todo == c.todo[1..]
  {
    var id := c.todo[0];
    var e := c.(todo := c.todo[1..]);
    TakeHead(c, rank);
    var b := FlushShape(c, a);
    InterruptTear(e, rank, Some(id), id, b, {});
    FlushDone(c, e, Respond(e, id, b, {}).value, rank, id);
  }

  lemma FlushDone(c: Conn, e: Conn, d: Conn, rank: nat -> nat, id: nat)
    requires Work(c, rank) && c.todo != [] && id == c.todo[0] && c.live[id].msg.Flush?
    requires e == c.(todo := c.todo[1..]) && Lined(e)
    requires Tear(d, rank, Some(id)) && Less(e, d, id, {})
    requires forall v :: Victim(e, e.live[id]) == Some(v) ==> v !in d.live
    ensures Work(d, rank) && d.todo == c.todo[1..]
  {
    FlushCovered(c, e, d, id);
    LinedLess(e, d);
    assert Tracked(d, None);
  }

  lemma LinedLess(e: Conn, d: Conn)
    requires Lined(e) && d.todo == e.todo
    requires forall i :: i in e.todo ==> i in d.live && i in e.live && d.live[i] == e.live[i]
    ensures Lined(d)
  {
  }

  lemma FlushCovered(c: Conn, e: Conn, d: Conn, id: nat)
    requires Covered(c) && c.todo != [] && id == c.todo[0] && e == c.(todo := c.todo[1..]) && id in c.live && c.live[id].msg.Flush?
    requires TagInv(c) && TagInv(d) && Tracked(c, None) && (forall t :: t in c.tagmap ==> c.tagmap[t] !in c.todo)
    requires Less(e, d, id, {}) && (forall v :: Victim(e, e.live[id]) == Some(v) ==> v !in d.live)
    requires forall t :: t in d.tagmap ==> d.tagmap[t] !in d.todo
    requires Lined(e)
    ensures Covered(d)
  {
    var t0 := c.live[id].msg.oldtag;
    assert t0 !in d.tagmap;
    forall t | t in d.tagmap ensures Listed(d, Flush(t)) {
      assert Listed(c, Flush(t));
      StillListed(c, d, Flush(t));
    }
    forall f | f in d.fidmap ensures Listed(d, Clunk(f)) {
      assert Listed(c, Clunk(f));
      StillListed(c, d, Clunk(f));
    }
  }

  lemma StillListed(c: Conn, d: Conn, msg: Request)
    requires Listed(c, msg) && c.todo != [] && c.todo[0] in c.live && c.live[c.todo[0]].msg != msg
    requires d.todo == c.todo[1..] && forall i :: i in d.todo ==> i in d.live && i in c.live && d.live[i] == c.live[i]
    ensures Listed(d, msg)
  {
    var k :| 0 <= k < |c.todo| && c.todo[k] in c.live && c.live[c.todo[k]].msg == msg;
    assert d.todo[k - 1] == c.todo[k];
  }

  // ---- The clunks ----

  /** When only clunks are left, nothing is tagged and no handler holds a request. */
  lemma OnlyClunks(c: Conn, rank: nat -> nat)
    requires Work(c, rank) && (c.todo != [] ==> c.live[c.todo[0]].msg.Clunk?)
    ensures c.tagmap == map[] && forall i :: i in c.live ==> i in c.todo
  {
    forall t ensures t !in c.tagmap {
      assert !Listed(c, Flush(t));
    }
    forall i | i in c.live ensures i in c.todo {
      assert !Held(c, i);
    }
  }

  lemma ClunkShape(c: Conn, a: Answer)
    requires c.todo != [] && c.todo[0] in c.live && c.live[c.todo[0]].msg.Clunk? && c.tagmap == map[]
    ensures CleanOne(c, a).Some?
    ensures var d := CleanOne(c, a).value;
      && d.live == c.live - {c.todo[0]} && d.todo == c.todo[1..] && d.tagmap == map[]
      && d.fidmap == c.fidmap - {c.live[c.todo[0]].msg.fid}
  {
    var id := c.todo[0];
    var f := c.live[id].msg.fid;
    var e := SetFid(c.(todo := c.todo[1..]), id, Lookup(c, f));
    if f in c.fidmap {
      assert Current(e, e.live[id].fid.value);
      ClunkAnswered(e, id, a);
      ClunkAnswered(e, id, Done());
    } else {
      ClunkAnswered(e, id, Refusal(Enofid));
      assert c.fidmap - {f} == c.fidmap;
    }
  }

  lemma ClunkAnswered(e: Conn, id: nat, b: Answer)
    requires id in e.live && e.live[id].msg.Clunk? && e.tagmap == map[]
    requires e.live[id].fid.Some? ==> Current(e, e.live[id].fid.value)
    ensures Respond(e, id, b, {}).Some?
    ensures var d := Respond(e, id, b, {}).value;
      && d.live == e.live - {id} && d.todo == e.todo && d.tagmap == map[]
      && d.fidmap == if e.live[id].fid.Some? then e.fidmap - {e.live[id].fid.value.num} else e.fidmap
  {
    DestroyFrame(e, e.live[id].fid);
  }

  lemma ClunkTurn(c: Conn, rank: nat -> nat, a: Answer)
    requires Work(c, rank) && c.todo != [] && c.live[c.todo[0]].msg.Clunk?
    ensures CleanOne(c, a).Some?
    ensures Work(CleanOne(c, a).value, rank) && CleanOne(c, a).value.todo == c.todo[1..]
  {
    OnlyClunks(c, rank);
    ClunkShape(c, a);
    ClunkDone(c, CleanOne(c, a).value, rank);
  }

  lemma LinedTail(c: Conn, d: Conn)
    requires Lined(c) && c.todo != [] && d.todo == c.todo[1..] && d.live == c.live - {c.todo[0]}
    ensures Lined(d) && c.todo[0] !in d.todo && forall i :: i in d.todo ==> i in c.live && d.live[i] == c.live[i]
  {
    assert forall k :: 0 <= k < |d.todo| ==> d.todo[k] == c.todo[k + 1];
  }

  lemma NothingHeld(d: Conn, rank: nat -> nat)
    requires d.tagmap == map[] && NoVersion(d) && forall i :: i in d.live ==> i in d.todo
    ensures Tear(d, rank, None)
  {
    assert forall i :: !Held(d, i);
  }

  lemma ClunkDone(c: Conn, d: Conn, rank: nat -> nat)
    requires Lined(c) && Covered(c) && NoVersion(c) && c.todo != [] && c.live[c.todo[0]].msg.Clunk?
    requires forall i :: i in c.live ==> i in c.todo
    requires d.live == c.live - {c.todo[0]} && d.todo == c.todo[1..] && d.tagmap == map[]
    requires d.fidmap == c.fidmap - {c.live[c.todo[0]].msg.fid}
    ensures Work(d, rank)
  {
    LinedTail(c, d);
    assert c.todo == [c.todo[0]] + d.todo;
    NothingHeld(d, rank);
    forall f | f in d.fidmap ensures Listed(d, Clunk(f)) {
      assert Listed(c, Clunk(f));
      StillListed(c, d, Clunk(f));
    }
  }

  /** The whole loop, each synthesised request answered as the handler pleases. */
  function CleanAll(c: Conn, answer: nat -> Answer): Option<Conn>
    decreases |c.todo|
  {
    if c.todo == [] then Some(c)
    else if c.todo[0] !in c.live then None
    else
      match CleanOne(c, answer(c.todo[0]))
      case None => None
      case Some(d) => if d.todo == c.todo[1..] then CleanAll(d, answer) else None
  }

  lemma {:induction false} CleanAllWorks(c: Conn, rank: nat -> nat, answer: nat -> Answer)
    requires Work(c, rank)
    ensures CleanAll(c, answer).Some?
    ensures var d := CleanAll(c, answer).value; d.todo == [] && d.live == map[] && d.tagmap == map[] && d.fidmap == map[]
    decreases |c.todo|
  {
    if c.todo == [] {
      OnlyClunks(c, rank);
      assert forall f :: f in c.fidmap ==> Listed(c, Clunk(f));
      assert c.live.Keys == {};
      assert c.fidmap.Keys == {};
    } else {
      var a := answer(c.todo[0]);
      if c.live[c.todo[0]].msg.Flush? { FlushTurn(c, rank, a); } else { ClunkTurn(c, rank, a); }
      CleanAllWorks(CleanOne(c, a).value, rank, answer);
    }
  }

  // ---- Building the list ----

  /** e is c with synthesised requests on its list and nothing else changed. */
  ghost predicate Extended(c: Conn, e: Conn) {
    && e.tagmap == c.tagmap && e.fidmap == c.fidmap && e.srv == c.srv && c.next <= e.next
    && (forall i :: i in c.live ==> i in e.live && e.live[i] == c.live[i])
    && (forall i :: i in e.live ==> i in c.live || i in e.todo)
    && (forall i :: i in e.todo ==> i in e.live && (i in c.todo || (c.next <= i < e.next && !e.live[i].msg.Version?)))
    && (forall i :: i in e.live ==> i < e.next)
  }

  lemma ExtendOne(c: Conn, e: Conn, q: Req)
    requires Extended(c, e) && q.tag == NOTAG && !q.msg.Version?
    ensures Extended(c, Queue(Admit(e, q), e.next))
  {
  }

  lemma LineOne(e: Conn, q: Req)
    requires Lined(e) && (forall i :: i in e.live ==> i < e.next) && q.tag == NOTAG && (q.msg.Flush? || q.msg.Clunk?)
    requires q.msg.Clunk? ==> forall k :: 0 <= k < |e.todo| ==> e.live[e.todo[k]].msg.Clunk?
    ensures var d := Queue(Admit(e, q), e.next);
      && Lined(d) && Listed(d, q.msg)
      && (forall m :: Listed(e, m) ==> Listed(d, m))
      && (q.msg.Clunk? ==> forall k :: 0 <= k < |d.todo| ==> d.live[d.todo[k]].msg.Clunk?)
  {
    var d := Queue(Admit(e, q), e.next);
    assert d.todo[0] == e.next && forall k :: 0 < k < |d.todo| ==> d.todo[k] == e.todo[k - 1];
    forall m | Listed(e, m) ensures Listed(d, m) {
      var k :| 0 <= k < |e.todo| && e.todo[k] in e.live && e.live[e.todo[k]].msg == m;
      assert d.todo[k + 1] == e.todo[k];
    }
  }

  lemma {:induction false} FidsListed(c: Conn, e: Conn, fids: seq<nat>)
    requires Extended(c, e) && Lined(e) && forall k :: 0 <= k < |e.todo| ==> e.live[e.todo[k]].msg.Clunk?
    ensures var d := VoidFids(e, fids);
      && Extended(c, d) && Lined(d)
      && (forall f :: f in fids ==> Listed(d, Clunk(f))) && (forall m :: Listed(e, m) ==> Listed(d, m))
    decreases |fids|
  {
    if fids != [] {
      var q := Req(NOTAG, Clunk(fids[0]), Lookup(e, fids[0]), None);
      ExtendOne(c, e, q);
      LineOne(e, q);
      FidsListed(c, VoidFid(e, fids[0]), fids[1..]);
      assert fids == [fids[0]] + fids[1..];
    }
  }

  lemma {:induction false} TagsListed(c: Conn, e: Conn, tags: seq<nat>)
    requires Extended(c, e) && Lined(e)
    ensures var d := VoidRequests(e, tags);
      && Extended(c, d) && Lined(d)
      && (forall t :: t in tags ==> Listed(d, Flush(t))) && (forall m :: Listed(e, m) ==> Listed(d, m))
    decreases |tags|
  {
    if tags != [] {
      var q := Req(NOTAG, Flush(tags[0]), None, None);
      ExtendOne(c, e, q);
      LineOne(e, q);
      TagsListed(c, VoidRequest(e, tags[0]), tags[1..]);
      assert tags == [tags[0]] + tags[1..];
    }
  }

  /** The rank of synthesised flushes: above every request that was there before. */
  function Above(rank: nat -> nat, next: nat, top: nat): nat -> nat {
    (i: nat) => if i < next then rank(i) else top
  }

  lemma ExtendedTear(c: Conn, e: Conn, rank: nat -> nat, top: nat)
    requires TagInv(c) && c.todo == [] && Exclusive(c) && Tracked(c, None) && Ranked(c, rank) && NoVersion(c)
    requires forall i :: i in c.live ==> rank(i) < top && i < c.next
    requires Extended(c, e)
    ensures Tear(e, Above(rank, c.next, top), None)
  {
    assert forall i :: Held(e, i) <==> Held(c, i);
    ExtendedExclusive(c, e);
    var r := Above(rank, c.next, top);
    forall i | i in e.live && Victim(e, e.live[i]).Some?
      ensures r(Victim(e, e.live[i]).value) < r(i)
    {
      var v := Victim(e, e.live[i]).value;
      assert v in c.live;
      if i in c.live { assert Victim(c, c.live[i]) == Some(v); }
    }
  }

  lemma ExtendedExclusive(c: Conn, e: Conn)
    requires Exclusive(c) && c.todo == [] && Extended(c, e) && forall i :: i in c.live ==> i < c.next
    ensures Exclusive(e)
  {
    assert forall i :: Held(e, i) <==> Held(c, i);
    forall i | Held(e, i) && Drops(e.live[i]).Some?
      ensures Current(e, Drops(e.live[i]).value)
    {
      assert Current(c, Drops(c.live[i]).value);
    }
  }

  /** The list cleanupconn builds: flushes first, and everything that is there is on it. */
  lemma HangUpWork(c: Conn, fids: seq<nat>, tags: seq<nat>, rank: nat -> nat, top: nat)
    requires Inv(c) && Enabled(c, Hangup(fids, tags))
    requires Exclusive(c) && Tracked(c, None) && Ranked(c, rank) && NoVersion(c)
    requires forall i :: i in c.live ==> rank(i) < top
    ensures Work(HangUp(c, fids, tags), Above(rank, c.next, top))
  {
    var d := c.(wired := false, closing := true);
    assert Extended(c, d) && Lined(d);
    var e := HangUp(c, fids, tags);
    if c.ref > 1 {
      FidsListed(c, d, fids);
      TagsListed(c, VoidFids(d, fids), tags);
    } else {
      NothingThere(c);
    }
    ExtendedTear(c, e, rank, top);
  }

  /**
   * Hanging up with handlers that answer at once. If no request with the tag
   * NOTAG is pending, tags are as clients must keep them, flushes form no cycle
   * and no two pending requests drop the same fid, then cleanupconn runs all its
   * flushes before all its clunks, leaves both maps empty and no request
   * unanswered, and its last line frees the connection, once.
   */
  lemma TeardownComplete(c: Conn, fids: seq<nat>, tags: seq<nat>, rank: nat -> nat, top: nat, answer: nat -> Answer)
    requires Inv(c) && Enabled(c, Hangup(fids, tags))
    requires Exclusive(c) && Tracked(c, None) && Ranked(c, rank) && NoVersion(c)
    requires forall i :: i in c.live ==> rank(i) < top
    ensures Lined(HangUp(c, fids, tags))
    ensures CleanAll(HangUp(c, fids, tags), answer).Some?
    ensures var d := CleanAll(HangUp(c, fids, tags), answer).value;
      && d.live == map[] && d.tagmap == map[] && d.fidmap == map[] && d.todo == []
      && CleanEnd(d).ref == 0 && CleanEnd(d).frees == 1
  {
    var e := HangUp(c, fids, tags);
    HangUpWork(c, fids, tags, rank, top);
    CleanAllWorks(e, Above(rank, c.next, top), answer);
    ApplyInv(c, Hangup(fids, tags));
    HangUpFlags(c, fids, tags);
    CleanAllInv(e, answer);
  }

  lemma HangUpFlags(c: Conn, fids: seq<nat>, tags: seq<nat>)
    requires Inv(c) && c.attached && !c.closing
    ensures HangUp(c, fids, tags).attached
  {
    var d := c.(wired := false, closing := true);
    assert Inv(d);
    if c.ref > 1 {
      VoidFidsInv(d, fids);
      VoidRequestsInv(VoidFids(d, fids), tags);
    }
  }

  lemma CleanOneInv(c: Conn, a: Answer)
    requires Inv(c) && c.attached && c.todo != [] && CleanOne(c, a).Some?
    ensures Inv(CleanOne(c, a).value) && CleanOne(c, a).value.attached
  {
    var id := c.todo[0];
    var e := c.(todo := c.todo[1..]);
    assert c.todo == [id] + e.todo && id !in e.todo;
    assert Inv(e);
    HandleReqGood(e, id);
    var h := CleanNext(c).value;
    if h.pending {
      RespondInv(h.c, id, a, {});
    }
  }

  lemma {:induction false} CleanAllInv(c: Conn, answer: nat -> Answer)
    requires Inv(c) && c.attached && CleanAll(c, answer).Some?
    ensures Inv(CleanAll(c, answer).value) && CleanAll(c, answer).value.attached
    decreases |c.todo|
  {
    if c.todo != [] {
      CleanOneInv(c, answer(c.todo[0]));
      CleanAllInv(CleanOne(c, answer(c.todo[0])).value, answer);
    }
  }

  /** Interrupting a request whose fid is gone reads freed memory. */
  lemma DropDangling(c: Conn, q: Req)
    requires Drops(q).Some? && !Current(c, Drops(q).value)
    ensures Settle(c, q, Refusal(Eintr)).None?
  {
  }

  lemma NothingThere(c: Conn)
    requires RefInv(c) && c.attached && c.ref <= 1 && TagInv(c)
    ensures c.fidmap == map[] && c.live == map[] && c.tagmap == map[]
  {
    assert |c.fidmap| == 0 && |c.live| == 0;
    assert forall t :: t !in c.tagmap;
  }
}
