/**
 * When hanging up works: for every run with fresh tags, cleanupconn comes to its end,
 * with everything interrupted, clunked and freed, if and only if no waiting request
 * drops a fid that is gone or that another one drops too, and every flush chain ends.
 */
module ServerHangup {
  import opened Basics
  import opened Server
  import opened ServerInvariant
  import opened ServerFlush
  import opened ServerTeardown
  import opened ServerRuns

  /** What cleanupconn finds whatever the fids and flushes are; x is the request in hand. */
  ghost predicate Found(c: Conn, x: Option<nat>) {
    && TagInv(c) && (forall t :: t in c.tagmap ==> c.tagmap[t] !in c.todo)
    && Tracked(c, x) && NoVersion(c)
  }

  /** A part of c is left. */
  ghost predicate Part(c: Conn, d: Conn) {
    && d.todo == c.todo && d.srv == c.srv
    && (forall i :: i in d.live ==> i in c.live && d.live[i] == c.live[i])
    && (forall t :: t in d.tagmap ==> t in c.tagmap && d.tagmap[t] == c.tagmap[t])
  }

  // ---- One request gone ----

  lemma WithoutFound(c: Conn, d: Conn, x: Option<nat>, id: nat)
    requires Found(c, x) && Held(c, id) && Without1(c, d, id)
    requires x == Some(id) ==> c.live[id].tag == NOTAG
    ensures Found(d, x) && Part(c, d) && id !in d.live
  {
    WithoutTags(c, d, id);
    WithoutTracked(c, d, x, id);
  }

  /** If the rest was sound without it, and the request itself drops a fid that is there, so was the whole. */
  lemma BackExclusive(c: Conn, d: Conn, id: nat)
    requires Held(c, id) && Without1(c, d, id) && Exclusive(d)
    requires Drops(c.live[id]).Some? ==> Current(c, Drops(c.live[id]).value)
    ensures Exclusive(c)
  {
    assert forall i :: Held(c, i) && i != id ==> Held(d, i) && d.live[i] == c.live[i];
    forall i | Held(c, i) && i != id && Drops(c.live[i]).Some?
      ensures Current(c, Drops(c.live[i]).value)
      ensures Drops(c.live[id]).Some? ==> Drops(c.live[i]).value.num != Drops(c.live[id]).value.num
    {
      assert Current(d, Drops(d.live[i]).value);
    }
  }

  /** One more request at the bottom of the ranking. */
  function Below(r: nat -> nat, id: nat): nat -> nat {
    (i: nat) => if i == id then 0 else r(i) + 1
  }

  lemma BackRanked(c: Conn, d: Conn, x: Option<nat>, id: nat, r: nat -> nat)
    requires Found(c, x) && Held(c, id) && Without1(c, d, id) && Victim(c, c.live[id]).None? && Ranked(d, r)
    requires x == Some(id) ==> c.live[id].tag == NOTAG
    ensures Ranked(c, Below(r, id))
  {
    forall i | i in c.live && Victim(c, c.live[i]).Some?
      ensures Below(r, id)(Victim(c, c.live[i]).value) < Below(r, id)(i)
    {
      var v := Victim(c, c.live[i]).value;
      if v != id {
        if x != Some(id) { assert c.tagmap[c.live[id].tag] == id; }
        assert Victim(d, d.live[i]) == Some(v);
      }
    }
  }

  // ---- One answer ----

  /** An interrupted request that is not a flush dropped a fid that was there. */
  lemma PlainNeeds(c: Conn, id: nat, busy: set<nat>)
    requires id in c.live && !c.live[id].msg.Flush? && !c.live[id].msg.Version?
    requires Respond(c, id, Refusal(Eintr), busy).Some?
    ensures Drops(c.live[id]).Some? ==> Current(c, Drops(c.live[id]).value)
    ensures Without1(c, Respond(c, id, Refusal(Eintr), busy).value, id)
  {
    if Drops(c.live[id]).Some? && !Current(c, Drops(c.live[id]).value) {
      DropDangling(c, c.live[id]);
    } else {
      PlainInterrupt(c, id, busy);
    }
  }

  /** What answering a flush with a target comes down to. */
  lemma FlushSteps(c: Conn, id: nat, a: Answer, busy: set<nat>)
    requires id in c.live && c.live[id].msg.Flush? && Victim(c, c.live[id]).Some? && Respond(c, id, a, busy).Some?
    ensures var v := Victim(c, c.live[id]).value;
      && id !in busy && v in c.live && Respond(c, v, Refusal(Eintr), busy + {id}).Some?
      && var e := Respond(c, v, Refusal(Eintr), busy + {id}).value;
         id in e.live && Respond(c, id, a, busy) == Some(Finish(e, id, Plain(e, a, ROk).reply))
    ensures |c.live.Keys - (busy + {id})| < |c.live.Keys - busy|
  {
    assert c.live.Keys - (busy + {id}) < c.live.Keys - busy by { assert id in c.live.Keys - busy; }
    Shrinks(c.live.Keys - (busy + {id}), c.live.Keys - busy);
  }

  ghost predicate InHand(c: Conn, x: Option<nat>) {
    x.Some? && x.value in c.live ==> c.live[x.value].tag == NOTAG && c.live[x.value].msg.Flush?
  }

  /** Forwards: an answer that comes back leaves a part in which everything is still found. */
  lemma {:induction false} RespondFound(c: Conn, x: Option<nat>, id: nat, a: Answer, busy: set<nat>)
    requires Found(c, x) && InHand(c, x) && Held(c, id) && Respond(c, id, a, busy).Some?
    requires c.live[id].msg.Flush? || a == Refusal(Eintr)
    ensures var d := Respond(c, id, a, busy).value; Found(d, x) && Part(c, d) && id !in d.live
    ensures forall v :: Victim(c, c.live[id]) == Some(v) ==> v !in Respond(c, id, a, busy).value.live
    decreases |c.live.Keys - busy|
  {
    hide Respond, Settle, Finish, Found, Without1;
    FoundParts(c, x);
    if !c.live[id].msg.Flush? {
      PlainNeeds(c, id, busy);
      WithoutFound(c, Respond(c, id, a, busy).value, x, id);
    } else if Victim(c, c.live[id]).None? {
      FlushAlone(c, id, a, busy);
      WithoutFound(c, Respond(c, id, a, busy).value, x, id);
    } else {
      var v := Victim(c, c.live[id]).value;
      FlushSteps(c, id, a, busy);
      VictimHeld(c, x, id);
      RespondFound(c, x, v, Refusal(Eintr), busy + {id});
      var e := Respond(c, v, Refusal(Eintr), busy + {id}).value;
      FlushFinish(e, id, Plain(e, a, ROk).reply);
      WithoutFound(e, Finish(e, id, Plain(e, a, ROk).reply), x, id);
    }
  }

  lemma FoundParts(c: Conn, x: Option<nat>)
    requires Found(c, x)
    ensures TagInv(c) && (forall t :: t in c.tagmap ==> c.tagmap[t] !in c.todo) && NOTAG !in c.tagmap && NoVersion(c)
  {
  }

  lemma FlushAlone(c: Conn, id: nat, a: Answer, busy: set<nat>)
    requires id in c.live && c.live[id].msg.Flush? && Victim(c, c.live[id]).None? && Respond(c, id, a, busy).Some?
    ensures Without1(c, Respond(c, id, a, busy).value, id)
  {
    FlushFinish(c, id, Plain(c, a, ROk).reply);
  }

  /** Once its target is gone a flush names nothing. */
  lemma TargetGone(c: Conn, e: Conn, id: nat)
    requires TagInv(e) && Part(c, e) && id in c.live && id in e.live && Victim(c, c.live[id]).Some?
    requires Victim(c, c.live[id]).value !in e.live
    ensures Victim(e, e.live[id]).None?
  {
  }

  /** Backwards: what holds of the part that an answer left held before the answer. */
  lemma {:induction false} RespondBack(c: Conn, x: Option<nat>, id: nat, a: Answer, busy: set<nat>, r: nat -> nat)
    returns (s: nat -> nat)
    requires Found(c, x) && InHand(c, x) && Held(c, id) && Respond(c, id, a, busy).Some?
    requires c.live[id].msg.Flush? || a == Refusal(Eintr)
    requires var d := Respond(c, id, a, busy).value; Exclusive(d) && Ranked(d, r)
    ensures Exclusive(c) && Ranked(c, s)
    decreases |c.live.Keys - busy|
  {
    hide Respond, Settle, Finish, Found, Without1, Exclusive, Ranked;
    FoundParts(c, x);
    var d := Respond(c, id, a, busy).value;
    if !c.live[id].msg.Flush? {
      PlainNeeds(c, id, busy);
      BackExclusive(c, d, id);
      BackRanked(c, d, x, id, r);
      s := Below(r, id);
    } else if Victim(c, c.live[id]).None? {
      FlushAlone(c, id, a, busy);
      BackExclusive(c, d, id);
      BackRanked(c, d, x, id, r);
      s := Below(r, id);
    } else {
      var v := Victim(c, c.live[id]).value;
      FlushSteps(c, id, a, busy);
      VictimHeld(c, x, id);
      RespondFound(c, x, v, Refusal(Eintr), busy + {id});
      var e := Respond(c, v, Refusal(Eintr), busy + {id}).value;
      FoundParts(e, x);
      TargetGone(c, e, id);
      FlushFinish(e, id, Plain(e, a, ROk).reply);
      BackExclusive(e, d, id);
      BackRanked(e, d, x, id, r);
      s := RespondBack(c, x, v, Refusal(Eintr), busy + {id}, Below(r, id));
    }
  }

  // ---- The list ----

  ghost predicate TagsCovered(c: Conn) {
    forall t :: t in c.tagmap ==> Listed(c, Flush(t))
  }

  /** The loop's state before a turn. */
  ghost predicate Before(c: Conn) {
    Found(c, None) && Lined(c) && TagsCovered(c)
  }

  lemma LinedTake(c: Conn)
    requires Lined(c) && c.todo != []
    ensures Lined(c.(todo := c.todo[1..])) && c.todo[0] !in c.todo[1..]
    ensures c.todo[0] in c.live && c.live[c.todo[0]].tag == NOTAG
  {
    var e := c.(todo := c.todo[1..]);
    assert forall k :: 0 <= k < |e.todo| ==> e.todo[k] == c.todo[k + 1];
  }

  lemma TakeFound(c: Conn)
    requires Before(c) && c.todo != [] && c.live[c.todo[0]].msg.Flush?
    ensures var e := c.(todo := c.todo[1..]);
      Found(e, Some(c.todo[0])) && InHand(e, Some(c.todo[0])) && Held(e, c.todo[0]) && Lined(e) && !Held(c, c.todo[0])
    ensures forall i :: Held(c, i) ==> Held(c.(todo := c.todo[1..]), i)
  {
    hide Lined, TagsCovered;
    LinedTake(c);
    var e := c.(todo := c.todo[1..]);
    assert c.todo == [c.todo[0]] + e.todo;
    assert forall i :: Held(e, i) && i != c.todo[0] ==> Held(c, i);
  }

  lemma TurnCovered(c: Conn, d: Conn)
    requires Before(c) && c.todo != [] && c.live[c.todo[0]].msg.Flush? && Lined(c.(todo := c.todo[1..]))
    requires Found(d, Some(c.todo[0])) && Part(c.(todo := c.todo[1..]), d) && c.todo[0] !in d.live
    requires forall v :: Victim(c, c.live[c.todo[0]]) == Some(v) ==> v !in d.live
    requires forall i :: i in d.todo ==> i in d.live
    ensures Before(d)
  {
    hide Lined, TagsCovered;
    LinedTake(c);
    LinedLess(c.(todo := c.todo[1..]), d);
    TurnListed(c, d);
    assert forall i :: Held(d, i) ==> i != c.todo[0];
  }

  lemma TurnListed(c: Conn, d: Conn)
    requires TagsCovered(c) && c.todo != [] && c.todo[0] in c.live && c.live[c.todo[0]].msg.Flush?
    requires TagInv(d) && Part(c.(todo := c.todo[1..]), d)
    requires forall v :: Victim(c, c.live[c.todo[0]]) == Some(v) ==> v !in d.live
    requires forall i :: i in d.todo ==> i in d.live
    ensures TagsCovered(d)
  {
    var t0 := c.live[c.todo[0]].msg.oldtag;
    assert t0 !in d.tagmap;
    forall t | t in d.tagmap ensures Listed(d, Flush(t)) {
      assert Listed(c, Flush(t));
      StillListed(c, d, Flush(t));
    }
  }

  /** What an answer gives up is a request some handler holds, never one on the list. */
  lemma {:induction false} ListKept(c: Conn, x: Option<nat>, id: nat, a: Answer, busy: set<nat>)
    requires Found(c, x) && InHand(c, x) && Held(c, id) && Respond(c, id, a, busy).Some?
    requires c.live[id].msg.Flush? || a == Refusal(Eintr)
    ensures forall i :: i in c.todo && i in c.live ==> i in Respond(c, id, a, busy).value.live
    decreases |c.live.Keys - busy|
  {
    hide Respond, Settle, Found;
    FoundParts(c, x);
    if !c.live[id].msg.Flush? {
      PlainNeeds(c, id, busy);
    } else if Victim(c, c.live[id]).None? {
      FlushAlone(c, id, a, busy);
    } else {
      var v := Victim(c, c.live[id]).value;
      FlushSteps(c, id, a, busy);
      VictimHeld(c, x, id);
      RespondFound(c, x, v, Refusal(Eintr), busy + {id});
      ListKept(c, x, v, Refusal(Eintr), busy + {id});
    }
  }

  /** One turn of the loop on a flush: forwards, and backwards. */
  lemma FlushTurnBack(c: Conn, a: Answer, r: nat -> nat) returns (s: nat -> nat)
    requires Before(c) && c.todo != [] && c.live[c.todo[0]].msg.Flush? && CleanOne(c, a).Some?
    ensures Before(CleanOne(c, a).value) && CleanOne(c, a).value.todo == c.todo[1..]
    ensures Exclusive(CleanOne(c, a).value) && Ranked(CleanOne(c, a).value, r) ==> Exclusive(c) && Ranked(c, s)
  {
    hide Respond, CleanOne, Found, Lined, TagsCovered, Exclusive, Ranked;
    var id, e := c.todo[0], c.(todo := c.todo[1..]);
    TakeFound(c);
    var b := FlushShape(c, a);
    RespondFound(e, Some(id), id, b, {});
    ListKept(e, Some(id), id, b, {});
    var d := Respond(e, id, b, {}).value;
    ListLive(e);
    TurnCovered(c, d);
    s := r;
    if Exclusive(d) && Ranked(d, r) {
      s := RespondBack(e, Some(id), id, b, {}, r);
      TakeBack(c, e, s);
    }
  }

  lemma ListLive(e: Conn)
    requires Lined(e)
    ensures forall i :: i in e.todo ==> i in e.live
  {
    forall i | i in e.todo ensures i in e.live {
      var k :| 0 <= k < |e.todo| && e.todo[k] == i;
    }
  }

  lemma TakeBack(c: Conn, e: Conn, r: nat -> nat)
    requires e == c.(todo := e.todo) && (forall i :: Held(c, i) ==> Held(e, i)) && Exclusive(e) && Ranked(e, r)
    ensures Exclusive(c) && Ranked(c, r)
  {
    forall i | Held(c, i) && Drops(c.live[i]).Some? ensures Current(c, Drops(c.live[i]).value) {
      assert Current(e, Drops(e.live[i]).value);
    }
    assert forall i :: i in c.live ==> Victim(c, c.live[i]) == Victim(e, e.live[i]);
  }

  lemma NothingWaits(c: Conn)
    requires Before(c) && (c.todo != [] ==> c.live[c.todo[0]].msg.Clunk?)
    ensures Exclusive(c) && Ranked(c, _ => 0)
  {
    forall t ensures t !in c.tagmap {
      assert !Listed(c, Flush(t));
    }
    assert forall i :: !Held(c, i);
  }

  /** If the loop comes to its end, no waiting request dropped a lost or shared fid, and flushes were ranked. */
  lemma {:induction false} CleanAllNeeds(c: Conn, answer: nat -> Answer) returns (s: nat -> nat)
    requires Before(c) && CleanAll(c, answer).Some?
    ensures Exclusive(c) && Ranked(c, s)
    decreases |c.todo|
  {
    hide CleanOne, Found, TagsCovered, Exclusive, Ranked;
    if c.todo == [] || c.live[c.todo[0]].msg.Clunk? {
      NothingWaits(c);
      s := _ => 0;
    } else {
      var a := answer(c.todo[0]);
      FlushFirst(c);
      s := FlushTurnBack(c, a, _ => 0);
      var r := CleanAllNeeds(CleanOne(c, a).value, answer);
      s := FlushTurnBack(c, a, r);
    }
  }

  lemma FlushFirst(c: Conn)
    requires Lined(c) && c.todo != []
    ensures c.todo[0] in c.live && (c.live[c.todo[0]].msg.Flush? || c.live[c.todo[0]].msg.Clunk?)
  {
  }

  // ---- The hangup ----

  lemma HangUpBefore(c: Conn, fids: seq<nat>, tags: seq<nat>)
    requires Inv(c) && Enabled(c, Hangup(fids, tags)) && Tracked(c, None) && NoVersion(c)
    ensures Before(HangUp(c, fids, tags)) && Extended(c, HangUp(c, fids, tags))
  {
    var d := c.(wired := false, closing := true);
    assert Extended(c, d) && Lined(d);
    var e := HangUp(c, fids, tags);
    if c.ref > 1 {
      FidsListed(c, d, fids);
      TagsListed(c, VoidFids(d, fids), tags);
    } else {
      NothingThere(c);
    }
    ExtendedFound(c, e);
  }

  lemma ExtendedFound(c: Conn, e: Conn)
    requires TagInv(c) && c.todo == [] && Tracked(c, None) && NoVersion(c) && Extended(c, e)
    requires forall i :: i in c.live ==> i < c.next
    ensures Found(e, None)
  {
    assert forall i :: Held(e, i) <==> Held(c, i);
  }

  lemma ExtendedBack(c: Conn, e: Conn, r: nat -> nat)
    requires c.todo == [] && Extended(c, e) && Exclusive(e) && Ranked(e, r) && forall i :: i in c.live ==> i < c.next
    ensures Exclusive(c) && Ranked(c, r)
  {
    assert forall i :: Held(e, i) <==> Held(c, i);
    forall i | Held(c, i) && Drops(c.live[i]).Some? ensures Current(c, Drops(c.live[i]).value) {
      assert Current(e, Drops(e.live[i]).value);
    }
    assert forall i :: i in c.live ==> Victim(c, c.live[i]) == Victim(e, e.live[i]);
  }

  // ---- Flush chains that end, and rankings ----

  /** From every waiting request, following the flushed tags comes to an end without repetition. */
  ghost predicate ChainsEnd(c: Conn) {
    forall i :: i in c.live ==> exists p :: Path(c, p) && p[0] == i
  }

  lemma {:induction false} RankedPath(c: Conn, r: nat -> nat, i: nat) returns (p: seq<nat>)
    requires TagInv(c) && Ranked(c, r) && i in c.live
    ensures Path(c, p) && p[0] == i && forall j :: j in p ==> r(j) <= r(i)
    decreases r(i)
  {
    var v := Victim(c, c.live[i]);
    if v.None? {
      p := [i];
    } else {
      var t := RankedPath(c, r, v.value);
      PathCons(c, i, t);
      p := [i] + t;
    }
  }

  lemma {:induction false} PathUnique(c: Conn, p: seq<nat>, q: seq<nat>)
    requires Path(c, p) && Path(c, q) && p[0] == q[0]
    ensures p == q
    decreases |p|
  {
    PathNext(c, p);
    PathNext(c, q);
    if |p| > 1 {
      PathTail(c, p, Refusal(Eintr));
      PathTail(c, q, Refusal(Eintr));
      PathUnique(c, p[1..], q[1..]);
      assert p == [p[0]] + p[1..] && q == [q[0]] + q[1..];
    } else {
      assert p == [p[0]] && q == [q[0]];
    }
  }

  lemma PathNext(c: Conn, p: seq<nat>)
    requires Path(c, p)
    ensures Victim(c, c.live[p[0]]) == if |p| > 1 then Some(p[1]) else None
  {
  }

  /** The length of the one chain from i. */
  ghost function ChainLength(c: Conn, i: nat): nat {
    if exists p :: Path(c, p) && p[0] == i then var p :| Path(c, p) && p[0] == i; |p| else 0
  }

  lemma ChainLengthIs(c: Conn, p: seq<nat>)
    requires Path(c, p)
    ensures ChainLength(c, p[0]) == |p|
  {
    var q :| Path(c, q) && q[0] == p[0] && ChainLength(c, p[0]) == |q|;
    PathUnique(c, p, q);
  }

  ghost function ByChain(c: Conn): nat -> nat {
    (i: nat) => ChainLength(c, i)
  }

  /** Chains end exactly when the requests can be ranked. */
  lemma ChainsRank(c: Conn)
    requires ChainsEnd(c)
    ensures Ranked(c, ByChain(c))
  {
    forall i | i in c.live && Victim(c, c.live[i]).Some?
      ensures ByChain(c)(Victim(c, c.live[i]).value) < ByChain(c)(i)
    {
      var p :| Path(c, p) && p[0] == i;
      PathNext(c, p);
      PathTail(c, p, Refusal(Eintr));
      ChainLengthIs(c, p);
      ChainLengthIs(c, p[1..]);
    }
  }

  lemma RankChains(c: Conn, r: nat -> nat)
    requires TagInv(c) && Ranked(c, r)
    ensures ChainsEnd(c)
  {
    forall i | i in c.live ensures exists p :: Path(c, p) && p[0] == i {
      var p := RankedPath(c, r, i);
    }
  }

  /** A bound on the ranks of finitely many requests. */
  ghost function Top(r: nat -> nat, s: set<nat>): (t: nat)
    ensures forall i :: i in s ==> r(i) < t
  {
    if s == {} then 0
    else
      var i :| i in s;
      var t := Top(r, s - {i});
      if r(i) < t then t else r(i) + 1
  }

  // ---- The theorem ----

  /**
   * After any run of requests with fresh tags, answered in any order, and with
   * handlers that answer what cleanupconn synthesises: the hangup comes to its end
   * if and only if every waiting request that drops a fid still has it, no two drop
   * the same, and every chain of flushes ends. It then has run all flushes before all
   * clunks, both maps are empty, no request is left, and the connection is freed
   * once.
   */
  lemma HangupWorksIff(srv: Handlers, es: seq<Event>, c: Conn, fids: seq<nat>, tags: seq<nat>, answer: nat -> Answer)
    requires FreshTags(Initial(srv), es) && Run(Initial(srv), es, c) && Enabled(c, Hangup(fids, tags))
    ensures Lined(HangUp(c, fids, tags))
    ensures CleanAll(HangUp(c, fids, tags), answer).Some? <==> Exclusive(c) && ChainsEnd(c)
    ensures CleanAll(HangUp(c, fids, tags), answer).Some? ==>
      var d := CleanAll(HangUp(c, fids, tags), answer).value;
      && d.live == map[] && d.tagmap == map[] && d.fidmap == map[] && d.todo == []
      && CleanEnd(d).ref == 0 && CleanEnd(d).frees == 1
  {
    hide FreshTags, Run, Exclusive, ChainsEnd, CleanAll, HangUp, Ranked, Lined, TagsCovered, Found, Extended;
    InitialInv(srv);
    RunOrderly(Initial(srv), es, c);
    HangUpBefore(c, fids, tags);
    var e := HangUp(c, fids, tags);
    if Exclusive(c) && ChainsEnd(c) {
      ChainsRank(c);
      TeardownComplete(c, fids, tags, ByChain(c), Top(ByChain(c), c.live.Keys), answer);
    } else if CleanAll(e, answer).Some? {
      var r := CleanAllNeeds(e, answer);
      ExtendedBack(c, e, r);
      RankChains(c, r);
    }
  }

  // ---- A hangup that fails ----

  function AllHandlers(): Handlers {
    Handlers(true, true, true, true, true, true, true, true, true, true)
  }

  /** Fid 1 as the first Tattach makes it. */
  function FirstFid(): Fid {
    Fid(1, -1, Qid(false, 0), 0)
  }

  function OnFirst(tag: nat, msg: Request): Req {
    Req(tag, msg, Some(FidRef(1, 1)), None)
  }

  function Attached(): Conn {
    Conn(AllHandlers(), true, false, true, 2, 0, map[], map[1 := FirstFid()], map[], [], 2, 1024, 1024, [Sent(0, 1, ROk)])
  }

  lemma AttachSteps()
    ensures var c := Initial(AllHandlers());
      && Enabled(c, Recv(1, Attach(1))) && Apply(c, Recv(1, Attach(1))).Some? && c.tagmap == map[]
      && var d := Apply(c, Recv(1, Attach(1))).value;
         0 in d.live && Enabled(d, Answered(0, Done())) && Apply(d, Answered(0, Done())) == Some(Attached())
  {
    var c := Initial(AllHandlers());
    var d := Apply(c, Recv(1, Attach(1))).value;
    assert d == Conn(AllHandlers(), true, false, true, 3, 0, map[1 := 0], map[1 := FirstFid()], map[0 := OnFirst(1, Attach(1))],
                     [], 2, 1024, 1024, []);
    var z := Apply(d, Answered(0, Done())).value;
    assert z.live == map[];
    assert z.tagmap == map[];
    assert z == Attached();
  }

  /** Tclunk and Tremove of fid 1, both waiting for their handlers. */
  function BothWait(): Conn {
    Conn(AllHandlers(), true, false, true, 4, 0, map[2 := 2, 3 := 3], map[1 := FirstFid()],
         map[2 := OnFirst(2, Clunk(1)), 3 := OnFirst(3, Remove(1))], [], 4, 1024, 1024, [Sent(0, 1, ROk)])
  }

  lemma BothSteps()
    ensures var c := Attached();
      && Apply(c, Recv(2, Clunk(1))).Some?
      && var d := Apply(c, Recv(2, Clunk(1))).value;
         3 !in d.tagmap && Enabled(d, Recv(3, Remove(1))) && Apply(d, Recv(3, Remove(1))) == Some(BothWait())
  {
    var c := Attached();
    var d := Apply(c, Recv(2, Clunk(1))).value;
    assert d == Conn(AllHandlers(), true, false, true, 3, 0, map[2 := 2], map[1 := FirstFid()], map[2 := OnFirst(2, Clunk(1))],
                     [], 3, 1024, 1024, [Sent(0, 1, ROk)]);
    var z := Apply(d, Recv(3, Remove(1))).value;
    assert z.live == BothWait().live;
    assert z.tagmap == BothWait().tagmap;
    assert z == BothWait();
  }

  /** A reached hangup that reads a freed fid: a Tclunk and a Tremove of the same fid both wait. */
  lemma SharedDropRun(answer: nat -> Answer) returns (es: seq<Event>)
    ensures FreshTags(Initial(AllHandlers()), es) && Run(Initial(AllHandlers()), es, BothWait())
    ensures Enabled(BothWait(), Hangup([1], [2, 3])) && CleanAll(HangUp(BothWait(), [1], [2, 3]), answer).None?
  {
    es := [Recv(1, Attach(1)), Answered(0, Done()), Recv(2, Clunk(1)), Recv(3, Remove(1))];
    BothReached(es);
    BothClash();
    hide *;
    HangupWorksIff(AllHandlers(), es, BothWait(), [1], [2, 3], answer);
  }

  lemma BothClash()
    ensures Enabled(BothWait(), Hangup([1], [2, 3])) && !Exclusive(BothWait())
  {
    assert Held(BothWait(), 2) && Held(BothWait(), 3);
  }

  lemma BothReached(es: seq<Event>)
    requires es == [Recv(1, Attach(1)), Answered(0, Done()), Recv(2, Clunk(1)), Recv(3, Remove(1))]
    ensures FreshTags(Initial(AllHandlers()), es) && Run(Initial(AllHandlers()), es, BothWait())
  {
    hide Apply, BothWait;
    AttachSteps();
    BothSteps();
    assert es[1..] == [Answered(0, Done()), Recv(2, Clunk(1)), Recv(3, Remove(1))];
    assert es[1..][1..] == [Recv(2, Clunk(1)), Recv(3, Remove(1))] && es[1..][1..][1..] == [Recv(3, Remove(1))];
    FreshLast(Apply(Attached(), Recv(2, Clunk(1))).value, Recv(3, Remove(1)), BothWait());
    FreshCons(Attached(), [Recv(2, Clunk(1)), Recv(3, Remove(1))], BothWait());
    FreshCons(Apply(Initial(AllHandlers()), Recv(1, Attach(1))).value, es[1..], BothWait());
    FreshCons(Initial(AllHandlers()), es, BothWait());
  }

  lemma FreshLast(c: Conn, e: Event, z: Conn)
    requires (e.Recv? || e.Answered?) && Enabled(c, e) && Apply(c, e) == Some(z)
    requires e.Recv? ==> e.tag !in c.tagmap && e.tag != NOTAG
    ensures FreshTags(c, [e]) && Run(c, [e], z)
  {
    hide Apply;
    assert [e][1..] == [];
  }

  lemma FreshCons(c: Conn, es: seq<Event>, z: Conn)
    requires es != [] && (es[0].Recv? || es[0].Answered?) && Enabled(c, es[0]) && Apply(c, es[0]).Some?
    requires es[0].Recv? ==> es[0].tag !in c.tagmap && es[0].tag != NOTAG
    requires FreshTags(Apply(c, es[0]).value, es[1..]) && Run(Apply(c, es[0]).value, es[1..], z)
    ensures FreshTags(c, es) && Run(c, es, z)
  {
    hide Apply;
  }

  // ---- A request tagged NOTAG ----

  /** No tag leads to request i. */
  ghost predicate Unfound(c: Conn, i: nat) {
    i in c.live && i !in c.todo && forall t :: t in c.tagmap ==> c.tagmap[t] != i
  }

  lemma FinishUnfound(c: Conn, id: nat, reply: Reply, i: nat)
    requires Unfound(c, i) && id in c.live && id != i
    ensures Unfound(Finish(c, id, reply), i)
  {
  }

  lemma {:induction false} RespondUnfound(c: Conn, id: nat, a: Answer, busy: set<nat>, i: nat)
    requires Unfound(c, i) && NoVersion(c) && id in c.live && id != i && Respond(c, id, a, busy).Some?
    ensures Unfound(Respond(c, id, a, busy).value, i)
    decreases |c.live.Keys - busy|
  {
    hide Settle, Finish;
    if c.live[id].msg.Flush? {
      if Victim(c, c.live[id]).Some? {
        var v := Victim(c, c.live[id]).value;
        FlushSteps(c, id, a, busy);
        RespondUnfound(c, v, Refusal(Eintr), busy + {id}, i);
        var e := Respond(c, v, Refusal(Eintr), busy + {id}).value;
        FinishUnfound(e, id, Plain(e, a, ROk).reply, i);
      } else {
        FinishUnfound(c, id, Plain(c, a, ROk).reply, i);
      }
    } else {
      SettleCalm(c, c.live[id], a);
      var t := Settle(c, c.live[id], a).value;
      FinishUnfound(t.c, id, t.reply, i);
    }
  }

  /** handlereq on a synthesised clunk comes down to one answer. */
  lemma ClunkIs(c: Conn, a: Answer) returns (b: Answer)
    requires c.todo != [] && c.todo[0] in c.live && c.live[c.todo[0]].msg.Clunk? && CleanOne(c, a).Some?
    ensures var e := SetFid(c.(todo := c.todo[1..]), c.todo[0], Lookup(c, c.live[c.todo[0]].msg.fid));
      CleanOne(c, a) == Respond(e, c.todo[0], b, {})
  {
    var f := c.live[c.todo[0]].msg.fid;
    b := if f !in c.fidmap then Refusal(Enofid) else if c.srv.clunk then a else Done();
  }

  lemma TurnUnfound(c: Conn, a: Answer, i: nat)
    requires Unfound(c, i) && NoVersion(c) && c.todo != [] && c.todo[0] in c.live && CleanOne(c, a).Some?
    requires c.live[c.todo[0]].msg.Flush? || c.live[c.todo[0]].msg.Clunk?
    ensures Unfound(CleanOne(c, a).value, i) && NoVersion(CleanOne(c, a).value)
  {
    hide Respond, CleanOne;
    var id, e := c.todo[0], c.(todo := c.todo[1..]);
    assert id != i && id in c.todo;
    assert forall j :: j in e.todo ==> j in c.todo;
    if c.live[id].msg.Flush? {
      var b := FlushShape(c, a);
      RespondUnfound(e, id, b, {}, i);
      RespondCalm(e, id, b, {});
    } else {
      var b := ClunkIs(c, a);
      var f := SetFid(e, id, Lookup(c, c.live[id].msg.fid));
      assert Unfound(f, i) && NoVersion(f);
      RespondUnfound(f, id, b, {}, i);
      RespondCalm(f, id, b, {});
    }
  }

  /** What is on the list is a synthesised flush or clunk. */
  ghost predicate Synthesised(c: Conn) {
    forall j :: j in c.todo && j in c.live ==> c.live[j].msg.Flush? || c.live[j].msg.Clunk?
  }

  lemma TurnSynthesised(c: Conn, a: Answer)
    requires Inv(c) && c.attached && Synthesised(c) && c.todo != [] && CleanOne(c, a).Some?
    ensures Synthesised(CleanOne(c, a).value) && CleanOne(c, a).value.todo == c.todo[1..]
  {
    hide Respond, CleanOne, Settle;
    var id, e := c.todo[0], c.(todo := c.todo[1..]);
    assert c.todo == [id] + e.todo && id !in e.todo && Inv(e);
    if c.live[id].msg.Flush? {
      var b := FlushShape(c, a);
      RespondInv(e, id, b, {});
    } else {
      var b := ClunkIs(c, a);
      SetFidReady(e, id, Lookup(c, c.live[id].msg.fid));
      RespondInv(SetFid(e, id, Lookup(c, c.live[id].msg.fid)), id, b, {});
    }
  }

  /** A request that no tag leads to is never answered by the cleanup, and the connection is never freed. */
  lemma {:induction false} UnfoundForEver(c: Conn, answer: nat -> Answer, i: nat)
    requires Inv(c) && c.attached && Synthesised(c) && Unfound(c, i) && NoVersion(c) && CleanAll(c, answer).Some?
    ensures var d := CleanAll(c, answer).value; i in d.live && CleanEnd(d).ref > 0 && CleanEnd(d).frees == 0
    decreases |c.todo|
  {
    hide CleanOne, Unfound;
    if c.todo == [] {
      StillReferenced(c, i);
    } else {
      var a := answer(c.todo[0]);
      CleanOneInv(c, a);
      TurnUnfound(c, a, i);
      TurnSynthesised(c, a);
      UnfoundForEver(CleanOne(c, a).value, answer, i);
    }
  }

  lemma StillReferenced(c: Conn, i: nat)
    requires Inv(c) && c.attached && Unfound(c, i)
    ensures i in c.live && CleanEnd(c).ref > 0 && CleanEnd(c).frees == 0
  {
    LiveSize(c, i);
  }

  /**
   * Why NOTAG is excluded: every synthesised flush carries it, so the first one
   * drops the table entry of a waiting request so tagged. That request is answered
   * only if this first flush already interrupts it, by name or through a chain; else
   * it never is, and the connection is never freed.
   */
  lemma NotagForgotten(c: Conn, answer: nat -> Answer, i: nat)
    requires Inv(c) && c.attached && Synthesised(c) && NoVersion(c) && c.todo != [] && CleanAll(c, answer).Some?
    requires c.live[c.todo[0]].msg.Flush? && c.live[c.todo[0]].tag == NOTAG
    requires i in c.live && i !in c.todo && c.live[i].tag == NOTAG
    requires i in CleanOne(c, answer(c.todo[0])).value.live
    ensures var d := CleanAll(c, answer).value; i in d.live && CleanEnd(d).ref > 0 && CleanEnd(d).frees == 0
  {
    hide CleanOne, CleanAll;
    CleanAllStep(c, answer);
    var a := answer(c.todo[0]);
    var d := CleanOne(c, a).value;
    CleanOneInv(c, a);
    TurnSynthesised(c, a);
    TurnNotag(c, a);
    assert i !in d.todo by { assert forall j :: j in c.todo[1..] ==> j in c.todo; }
    TurnSame(c, a, i);
    UnfoundForEver(d, answer, i);
  }

  lemma CleanAllTurn(c: Conn, answer: nat -> Answer)
    requires c.todo != [] && c.todo[0] in c.live && CleanOne(c, answer(c.todo[0])).Some?
    requires CleanOne(c, answer(c.todo[0])).value.todo == c.todo[1..]
    ensures CleanAll(c, answer) == CleanAll(CleanOne(c, answer(c.todo[0])).value, answer)
  {
    hide CleanOne;
  }

  lemma CleanAllStep(c: Conn, answer: nat -> Answer)
    requires c.todo != [] && CleanAll(c, answer).Some?
    ensures c.todo[0] in c.live && CleanOne(c, answer(c.todo[0])).Some?
    ensures CleanAll(c, answer) == CleanAll(CleanOne(c, answer(c.todo[0])).value, answer)
  {
  }

  /** The first flush drops the entry for NOTAG. */
  lemma TurnNotag(c: Conn, a: Answer)
    requires NoVersion(c) && c.todo != [] && c.todo[0] in c.live && CleanOne(c, a).Some?
    requires c.live[c.todo[0]].msg.Flush? && c.live[c.todo[0]].tag == NOTAG
    ensures NOTAG !in CleanOne(c, a).value.tagmap && NoVersion(CleanOne(c, a).value)
  {
    hide CleanOne, Respond;
    var id, e := c.todo[0], c.(todo := c.todo[1..]);
    var b := FlushShape(c, a);
    RespondCalm(e, id, b, {});
    if Victim(e, e.live[id]).Some? {
      FlushSteps(e, id, b, {});
      RespondTag(e, Victim(e, e.live[id]).value, Refusal(Eintr), {id}, id);
    } else {
      LastTag(e, id, b);
    }
  }

  lemma LastTag(e: Conn, id: nat, b: Answer)
    requires id in e.live && e.live[id].msg.Flush? && Victim(e, e.live[id]).None? && Respond(e, id, b, {}).Some?
    ensures e.live[id].tag !in Respond(e, id, b, {}).value.tagmap
  {
  }

  /** Requests keep their tags. */
  lemma {:induction false} RespondTag(c: Conn, id: nat, a: Answer, busy: set<nat>, j: nat)
    requires id in c.live && NoVersion(c) && Respond(c, id, a, busy).Some?
    ensures j in Respond(c, id, a, busy).value.live ==> j in c.live && Respond(c, id, a, busy).value.live[j] == c.live[j]
    decreases |c.live.Keys - busy|
  {
    hide Settle;
    if c.live[id].msg.Flush? {
      if Victim(c, c.live[id]).Some? {
        FlushSteps(c, id, a, busy);
        RespondTag(c, Victim(c, c.live[id]).value, Refusal(Eintr), busy + {id}, j);
      }
    } else {
      SettleCalm(c, c.live[id], a);
    }
  }

  lemma TurnSame(c: Conn, a: Answer, i: nat)
    requires Inv(c) && c.todo != [] && NoVersion(c) && CleanOne(c, a).Some? && c.live[c.todo[0]].msg.Flush?
    requires i in CleanOne(c, a).value.live && i in c.live && c.live[i].tag == NOTAG && NOTAG !in CleanOne(c, a).value.tagmap
    requires i !in CleanOne(c, a).value.todo && Inv(CleanOne(c, a).value)
    ensures Unfound(CleanOne(c, a).value, i)
  {
    hide CleanOne, Respond;
    var b := FlushShape(c, a);
    RespondTag(c.(todo := c.todo[1..]), c.todo[0], b, {}, i);
  }

  function NoHandlers(): Handlers {
    Handlers(false, false, false, false, false, false, false, false, false, false)
  }

  function SecondFid(): Fid {
    Fid(3, -1, Qid(false, 0), 0)
  }

  /** Two Tattaches wait, tagged 1 and NOTAG. */
  function TwoAttaches(): Conn {
    Conn(NoHandlers(), true, false, true, 5, 0, map[1 := 0, NOTAG := 2], map[1 := FirstFid(), 2 := SecondFid()],
         map[0 := OnFirst(1, Attach(1)), 2 := Req(NOTAG, Attach(2), Some(FidRef(2, 3)), None)], [], 4, 1024, 1024, [])
  }

  lemma TwoSteps()
    ensures var c := Initial(NoHandlers());
      && Enabled(c, Recv(1, Attach(1))) && Apply(c, Recv(1, Attach(1))).Some?
      && var d := Apply(c, Recv(1, Attach(1))).value;
         Enabled(d, Recv(NOTAG, Attach(2))) && Apply(d, Recv(NOTAG, Attach(2))) == Some(TwoAttaches())
  {
    var c := Initial(NoHandlers());
    var d := Apply(c, Recv(1, Attach(1))).value;
    assert d == Conn(NoHandlers(), true, false, true, 3, 0, map[1 := 0], map[1 := FirstFid()], map[0 := OnFirst(1, Attach(1))],
                     [], 2, 1024, 1024, []);
    var z := Apply(d, Recv(NOTAG, Attach(2))).value;
    assert z.live == TwoAttaches().live;
    assert z == TwoAttaches();
  }

  /** The hangup's list: the flush of tag 1 first. */
  lemma TwoHungUp()
    ensures var e := HangUp(TwoAttaches(), [1, 2], [NOTAG, 1]);
      && e.todo == [7, 6, 5, 4] && e.tagmap == TwoAttaches().tagmap && e.srv == NoHandlers()
      && e.live.Keys == {0, 2, 4, 5, 6, 7}
      && e.live[7] == Req(NOTAG, Flush(1), None, None) && e.live[6].msg == Flush(NOTAG)
      && e.live[5].msg == Clunk(2) && e.live[4].msg == Clunk(1)
      && e.live[0] == OnFirst(1, Attach(1)) && e.live[2].tag == NOTAG && e.live[2].msg == Attach(2) && e.fidmap == TwoAttaches().fidmap
  {
    var c := TwoAttaches();
    var d := c.(wired := false, closing := true);
    var v1 := VoidFid(d, 1);
    assert VoidFids(d, [1, 2]) == VoidFids(v1, [2]) by { assert [1, 2][1..] == [2]; }
    var v2 := VoidFid(v1, 2);
    assert VoidFids(v1, [2]) == v2 by { assert [2][1..] == []; }
    var v3 := VoidRequest(v2, NOTAG);
    assert VoidRequests(v2, [NOTAG, 1]) == VoidRequests(v3, [1]) by { assert [NOTAG, 1][1..] == [1]; }
    var v4 := VoidRequest(v3, 1);
    assert VoidRequests(v3, [1]) == v4 by { assert [1][1..] == []; }
    assert v1.todo == [4] && v2.todo == [5, 4] && v3.todo == [6, 5, 4] && v4.todo == [7, 6, 5, 4];
  }

  lemma TwoFirst(e: Conn, a: Answer)
    requires e.todo == [7, 6, 5, 4] && e.tagmap == map[1 := 0, NOTAG := 2] && e.srv == NoHandlers()
    requires e.fidmap == map[1 := FirstFid(), 2 := SecondFid()] && 0 in e.live && 2 in e.live && 7 in e.live
    requires e.live[7] == Req(NOTAG, Flush(1), None, None) && e.live[0] == OnFirst(1, Attach(1))
    ensures CleanOne(e, a).Some?
    ensures var d := CleanOne(e, a).value; d.live == e.live - {0, 7} && d.tagmap == map[] && d.todo == [6, 5, 4]
  {
    hide Respond, Settle, Finish, CleanOne;
    var b := FlushShape(e, a);
    var f := e.(todo := e.todo[1..]);
    PlainInterrupt(f, 0, {7});
    var g := Respond(f, 0, Refusal(Eintr), {7}).value;
    assert g.live == e.live - {0} && g.tagmap == map[NOTAG := 2];
    FlushForward(f, 7, b);
    FlushFinish(g, 7, Plain(g, b, ROk).reply);
    var d := Respond(f, 7, b, {}).value;
    assert d.tagmap == map[] && d.live == e.live - {0, 7};
  }

  lemma FlushForward(c: Conn, id: nat, a: Answer)
    requires id in c.live && c.live[id].msg.Flush? && Victim(c, c.live[id]).Some?
    requires var v := Victim(c, c.live[id]).value;
      v in c.live && Respond(c, v, Refusal(Eintr), {id}).Some? && id in Respond(c, v, Refusal(Eintr), {id}).value.live
    ensures var e := Respond(c, Victim(c, c.live[id]).value, Refusal(Eintr), {id}).value;
      Respond(c, id, a, {}) == Some(Finish(e, id, Plain(e, a, ROk).reply))
  {
    assert {} + {id} == {id};
  }

  /** A synthesised flush that finds nothing. */
  lemma EmptyFlush(c: Conn, a: Answer)
    requires c.todo != [] && c.todo[0] in c.live && c.live[c.todo[0]].msg.Flush? && c.tagmap == map[]
    ensures CleanOne(c, a).Some?
    ensures var d := CleanOne(c, a).value; d.live == c.live - {c.todo[0]} && d.tagmap == map[] && d.todo == c.todo[1..]
  {
    var b := FlushShape(c, a);
  }

  lemma TwoRest(d: Conn, answer: nat -> Answer)
    requires d.tagmap == map[] && d.todo == [6, 5, 4] && 6 in d.live && 5 in d.live && 4 in d.live
    requires d.live[6].msg.Flush? && d.live[5].msg.Clunk? && d.live[4].msg.Clunk?
    ensures CleanAll(d, answer).Some?
  {
    hide CleanOne, CleanAll;
    EmptyFlush(d, answer(6));
    CleanAllTurn(d, answer);
    var d1 := CleanOne(d, answer(6)).value;
    ClunkShape(d1, answer(5));
    CleanAllTurn(d1, answer);
    var d2 := CleanOne(d1, answer(5)).value;
    ClunkShape(d2, answer(4));
    CleanAllTurn(d2, answer);
    CleanAllDone(CleanOne(d2, answer(4)).value, answer);
  }

  lemma CleanAllDone(c: Conn, answer: nat -> Answer)
    requires c.todo == []
    ensures CleanAll(c, answer) == Some(c)
  {
  }

  /** A reached hangup that leaves a request unanswered and the connection allocated: tag NOTAG waits. */
  lemma NotagRun(answer: nat -> Answer) returns (es: seq<Event>)
    ensures Run(Initial(NoHandlers()), es, TwoAttaches()) && Enabled(TwoAttaches(), Hangup([1, 2], [65535, 1]))
    ensures var r := CleanAll(HangUp(TwoAttaches(), [1, 2], [65535, 1]), answer);
      r.Some? && 2 in r.value.live && CleanEnd(r.value).ref > 0 && CleanEnd(r.value).frees == 0
    ensures 65535 in TwoAttaches().tagmap && TwoAttaches().tagmap[65535] == 2
  {
    hide Apply, HangUp, CleanAll, CleanOne, Inv;
    es := [Recv(1, Attach(1)), Recv(NOTAG, Attach(2))];
    TwoSteps();
    assert es[1..] == [Recv(NOTAG, Attach(2))] && es[1..][1..] == [];
    InitialInv(NoHandlers());
    RunInv(Initial(NoHandlers()), es, TwoAttaches());
    NotagEnd(answer);
  }

  lemma NotagEnd(answer: nat -> Answer)
    requires Inv(TwoAttaches())
    ensures Enabled(TwoAttaches(), Hangup([1, 2], [NOTAG, 1]))
    ensures var r := CleanAll(HangUp(TwoAttaches(), [1, 2], [NOTAG, 1]), answer);
      r.Some? && 2 in r.value.live && CleanEnd(r.value).ref > 0 && CleanEnd(r.value).frees == 0
  {
    hide Apply, HangUp, CleanAll, CleanOne, Inv, TwoAttaches, Visits;
    TwoVisits();
    TwoHangs();
    TwoHungUp();
    TwoList();
    var e := HangUp(TwoAttaches(), [1, 2], [NOTAG, 1]);
    TwoFirst(e, answer(7));
    TwoRest(CleanOne(e, answer(7)).value, answer);
    CleanAllTurn(e, answer);
    NotagForgotten(e, answer, 2);
  }

  lemma TwoHangs()
    requires Inv(TwoAttaches())
    ensures Inv(HangUp(TwoAttaches(), [1, 2], [NOTAG, 1])) && HangUp(TwoAttaches(), [1, 2], [NOTAG, 1]).attached
  {
    hide Apply, HangUp, CleanAll, CleanOne, Inv, TwoAttaches, Visits;
    TwoVisits();
    HangupIs(TwoAttaches(), [1, 2], [NOTAG, 1]);
    ApplyInv(TwoAttaches(), Hangup([1, 2], [NOTAG, 1]));
    HangUpFlags(TwoAttaches(), [1, 2], [NOTAG, 1]);
  }

  lemma TwoList()
    ensures TwoAttaches().tagmap == map[1 := 0, NOTAG := 2] && TwoAttaches().fidmap == map[1 := FirstFid(), 2 := SecondFid()]
  {
  }

  lemma TwoVisits()
    ensures Enabled(TwoAttaches(), Hangup([1, 2], [NOTAG, 1])) && TwoAttaches().attached && !TwoAttaches().closing
  {
  }

  lemma HangupIs(c: Conn, fids: seq<nat>, tags: seq<nat>)
    ensures Apply(c, Hangup(fids, tags)) == Some(HangUp(c, fids, tags))
  {
  }
}
