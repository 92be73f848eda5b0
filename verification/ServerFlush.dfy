/**
 * Answering a Tflush: which requests are interrupted, in which order the replies
 * leave, and when the recursion of ixp_respond comes back at all.
 */
module ServerFlush {
  import opened Basics
  import opened Server
  import opened ServerInvariant

  /** p is the chain of flushes from p[0]: each flushes the next, the last flushes nothing. */
  ghost predicate Path(c: Conn, p: seq<nat>) {
    && p != [] && NoDup(p)
    && (forall i :: 0 <= i < |p| ==> p[i] in c.live)
    && (forall i, j :: 0 <= i && j == i + 1 && j < |p| ==> Victim(c, c.live[p[i]]) == Some(p[j]))
    && Victim(c, c.live[p[|p| - 1]]).None?
  }

  /** The answer the last request of a chain gets: the caller's own, or "interrupted". */
  function LastAnswer(p: seq<nat>, a: Answer): Answer {
    if |p| == 1 then a else Refusal(Eintr)
  }

  ghost predicate EndsWell(c: Conn, p: seq<nat>, a: Answer)
    requires Path(c, p)
  {
    var q := c.live[p[|p| - 1]];
    q.msg.Flush? || Settle(c, q, LastAnswer(p, a)).Some?
  }

  /** A chain that flushes something starts with a Tflush, and its rest is a chain. */
  lemma PathTail(c: Conn, p: seq<nat>, a: Answer)
    requires Path(c, p) && |p| > 1
    ensures Path(c, p[1..]) && Victim(c, c.live[p[0]]) == Some(p[1]) && c.live[p[0]].msg.Flush?
    ensures p[0] !in p[1..] && (forall i :: i in p[1..] ==> i in p)
    ensures EndsWell(c, p, a) ==> EndsWell(c, p[1..], Refusal(Eintr))
  {
    assert p[1..][|p| - 2] == p[|p| - 1];
  }

  /** The replies for a chain: the deepest request first, all but p[0] interrupted. */
  ghost function Replies(c: Conn, p: seq<nat>, last: Reply): seq<Sent>
    requires p != [] && forall i :: i in p ==> i in c.live
    decreases |p|
  {
    (if |p| == 1 then [] else Replies(c, p[1..], RError(Eintr))) + [Sent(p[0], c.live[p[0]].tag, last)]
  }

  /** What p[0] itself is told. */
  function OwnReply(c: Conn, id: nat, a: Answer): Reply
    requires id in c.live
  {
    if c.live[id].msg.Flush? || Settle(c, c.live[id], a).None? then Plain(c, a, ROk).reply
    else Settle(c, c.live[id], a).value.reply
  }

  ghost predicate Interrupted(c: Conn, d: Conn, p: seq<nat>, last: Reply)
    requires p != [] && forall i :: i in p ==> i in c.live
  {
    && d.live == c.live - (set i | i in p)
    && d.out == if c.wired then c.out + Replies(c, p, last) else c.out
  }

  lemma MinusFirst<V>(m: map<nat, V>, p: seq<nat>)
    requires p != []
    ensures (m - (set i | i in p[1..])) - {p[0]} == m - (set i | i in p)
  {
    assert p == [p[0]] + p[1..];
    assert (set i | i in p) == {p[0]} + (set i | i in p[1..]);
  }

  lemma FinishInterrupted(c: Conn, d: Conn, p: seq<nat>, reply: Reply)
    requires p != [] && (forall i :: i in p ==> i in c.live) && p[0] !in p[1..] && d.wired == c.wired
    requires d.live == c.live - (set i | i in p[1..])
    requires d.out == if c.wired && |p| > 1 then c.out + Replies(c, p[1..], RError(Eintr)) else c.out
    ensures p[0] in d.live && Interrupted(c, Finish(d, p[0], reply), p, reply)
  {
    MinusFirst(c.live, p);
    var e := Finish(d, p[0], reply);
    assert d.live[p[0]] == c.live[p[0]];
    if c.wired {
      assert e.out == d.out + [Sent(p[0], c.live[p[0]].tag, reply)];
    }
  }

  /** An answered chain is answered whole, deepest first. */
  lemma {:induction false} PathAnswered(c: Conn, p: seq<nat>, a: Answer, busy: set<nat>)
    requires Inv(c) && Path(c, p) && EndsWell(c, p, a)
    requires forall i :: i in p ==> i !in busy && i !in c.todo
    ensures Respond(c, p[0], a, busy).Some?
    ensures Interrupted(c, Respond(c, p[0], a, busy).value, p, OwnReply(c, p[0], a))
    decreases |p|
  {
    if |p| > 1 {
      PathTail(c, p, a);
      PathAnswered(c, p[1..], Refusal(Eintr), busy + {p[0]});
      InterruptedReply(c, p[1..]);
      LinkAnswered(c, p, a, busy);
    } else {
      SingleAnswered(c, p, a, busy);
    }
  }

  /** The Tflush at the head of a chain, once the rest was answered. */
  lemma LinkAnswered(c: Conn, p: seq<nat>, a: Answer, busy: set<nat>)
    requires Inv(c) && |p| > 1 && (forall i :: i in p ==> i in c.live && i !in c.todo) && p[0] !in p[1..] && p[0] !in busy
    requires c.live[p[0]].msg.Flush? && Victim(c, c.live[p[0]]) == Some(p[1])
    requires Respond(c, p[1], Refusal(Eintr), busy + {p[0]}).Some?
    requires Interrupted(c, Respond(c, p[1], Refusal(Eintr), busy + {p[0]}).value, p[1..], RError(Eintr))
    ensures Respond(c, p[0], a, busy).Some?
    ensures Interrupted(c, Respond(c, p[0], a, busy).value, p, OwnReply(c, p[0], a))
  {
    hide Inv, Settle;
    RespondInv(c, p[1], Refusal(Eintr), busy + {p[0]});
    var d := Respond(c, p[1], Refusal(Eintr), busy + {p[0]}).value;
    FinishInterrupted(c, d, p, OwnReply(c, p[0], a));
  }

  lemma SingleAnswered(c: Conn, p: seq<nat>, a: Answer, busy: set<nat>)
    requires Inv(c) && Path(c, p) && EndsWell(c, p, a) && |p| == 1 && p[0] !in busy
    ensures Respond(c, p[0], a, busy).Some?
    ensures Interrupted(c, Respond(c, p[0], a, busy).value, p, OwnReply(c, p[0], a))
  {
    var id := p[0];
    var q := c.live[id];
    if q.msg.Flush? {
      FinishInterrupted(c, c, p, Plain(c, a, ROk).reply);
    } else {
      SettleInv(c, id, a);
      var s := Settle(c, q, a).value;
      FinishInterrupted(c, s.c, p, s.reply);
    }
  }

  lemma InterruptedReply(c: Conn, p: seq<nat>)
    requires Path(c, p) && EndsWell(c, p, Refusal(Eintr))
    ensures OwnReply(c, p[0], Refusal(Eintr)) == RError(Eintr)
  {
  }

  /** Conversely, an answer that comes back walked such a chain. */
  lemma {:induction false} AnsweredPath(c: Conn, id: nat, a: Answer, busy: set<nat>) returns (p: seq<nat>)
    requires id in c.live && Respond(c, id, a, busy).Some?
    ensures Path(c, p) && p[0] == id && EndsWell(c, p, a) && forall i :: i in p ==> i !in busy
    decreases |c.live.Keys - busy|
  {
    var q := c.live[id];
    var v := Victim(c, q);
    if v.None? {
      p := [id];
    } else {
      assert c.live.Keys - (busy + {id}) < c.live.Keys - busy by { assert id in c.live.Keys - busy; }
      Shrinks(c.live.Keys - (busy + {id}), c.live.Keys - busy);
      var t := AnsweredPath(c, v.value, Refusal(Eintr), busy + {id});
      p := [id] + t;
      PathCons(c, id, t);
      assert p[|p| - 1] == t[|t| - 1];
    }
  }

  lemma PathCons(c: Conn, id: nat, t: seq<nat>)
    requires id in c.live && Path(c, t) && id !in t && Victim(c, c.live[id]) == Some(t[0])
    ensures Path(c, [id] + t)
  {
    var p := [id] + t;
    forall i, j | 0 <= i && j == i + 1 && j < |p|
      ensures Victim(c, c.live[p[i]]) == Some(p[j])
    {
      if i > 0 { assert p[i] == t[i - 1] && p[j] == t[j - 1]; }
    }
  }

  /**
   * ixp_respond has a result exactly when the flushes named from the request
   * form a finite chain without repetition whose last request can be settled.
   */
  lemma RespondDefinedIff(c: Conn, id: nat, a: Answer)
    requires Inv(c) && id in c.live && id !in c.todo
    ensures Respond(c, id, a, {}).Some? <==> exists p :: Path(c, p) && p[0] == id && EndsWell(c, p, a)
  {
    if Respond(c, id, a, {}).Some? {
      var p := AnsweredPath(c, id, a, {});
    }
    if p :| Path(c, p) && p[0] == id && EndsWell(c, p, a) {
      VictimsNotQueued(c, p);
      PathAnswered(c, p, a, {});
    }
  }

  lemma VictimsNotQueued(c: Conn, p: seq<nat>)
    requires Inv(c) && Path(c, p) && p[0] !in c.todo
    ensures forall i :: i in p ==> i !in c.todo
  {
    forall k | 0 <= k < |p| ensures p[k] !in c.todo {
      if k > 0 { assert Victim(c, c.live[p[k - 1]]) == Some(p[k]); }
    }
  }

  /**
   * flush(5): when a Tflush is answered while its target is live, the target's
   * "interrupted" reply leaves immediately before the Tflush's own reply; both
   * requests and the target's tag are gone, and in no continuation is anything
   * sent for either again.
   */
  lemma FlushOrder(srv: Handlers, es: seq<Event>, c: Conn, id: nat, a: Answer, d: Conn, more: seq<Event>, z: Conn)
    requires Run(Initial(srv), es, c) && Enabled(c, Answered(id, a)) && c.wired
    requires c.live[id].msg.Flush? && Victim(c, c.live[id]).Some?
    requires Respond(c, id, a, {}) == Some(d) && Run(d, more, z)
    ensures var v := Victim(c, c.live[id]).value;
      var n := |d.out|;
      && n >= |c.out| + 2
      && d.out[n - 2] == Sent(v, c.live[id].msg.oldtag, RError(Eintr))
      && d.out[n - 1] == Sent(id, c.live[id].tag, if a.error.Some? then RError(a.error.value) else ROk)
      && v !in d.live && id !in d.live && c.live[id].msg.oldtag !in d.tagmap
      && d.out <= z.out
      && forall k :: n <= k < |z.out| ==> z.out[k].id != v && z.out[k].id != id
  {
    hide Respond, Inv, OwnReply;
    InitialInv(srv);
    RunInv(Initial(srv), es, c);
    FlushParts(c, id, a, d);
    FlushOwn(c, id, a);
    RunInv(d, more, z);
    InvOut(z);
    SilentAfter(d, z, |d.out| - 2);
    SilentAfter(d, z, |d.out| - 1);
  }

  lemma FlushOwn(c: Conn, id: nat, a: Answer)
    requires id in c.live && c.live[id].msg.Flush?
    ensures OwnReply(c, id, a) == if a.error.Some? then RError(a.error.value) else ROk
  {
  }

  lemma FlushParts(c: Conn, id: nat, a: Answer, d: Conn)
    requires Inv(c) && Enabled(c, Answered(id, a)) && c.wired
    requires c.live[id].msg.Flush? && Victim(c, c.live[id]).Some? && Respond(c, id, a, {}) == Some(d)
    ensures Inv(d)
    ensures var v := Victim(c, c.live[id]).value;
      var n := |d.out|;
      && n >= |c.out| + 2
      && d.out[n - 2] == Sent(v, c.live[id].msg.oldtag, RError(Eintr))
      && d.out[n - 1] == Sent(id, c.live[id].tag, OwnReply(c, id, a))
      && v !in d.live && id !in d.live && c.live[id].msg.oldtag !in d.tagmap
  {
    hide Respond, Inv, OwnReply;
    OrderParts(c, id);
    AnswerTags(c, id, a, d);
    FlushLastTwo(c, id, a);
    TagStale(c, d, c.live[id].msg.oldtag);
  }

  /** The connection in which a Tflush just received is answered by the server itself. */
  function Arrived(c: Conn, tag: nat, oldtag: nat): Conn {
    var d := Admit(c.(wired := true), Req(tag, Flush(oldtag), None, None));
    if tag in c.tagmap then d else Bind(d, tag, c.next)
  }

  /** Why: the tag is in use, nothing has the flushed tag, or there is no flush handler. */
  function FlushRefusal(c: Conn, tag: nat, oldtag: nat): Err {
    if tag in c.tagmap then Eduptag
    else if oldtag !in c.tagmap && oldtag != tag then Enotag
    else Enofunc
  }

  lemma RefusedShape(c: Conn, tag: nat, oldtag: nat)
    requires Receive(c, tag, Flush(oldtag)).Some? && !Receive(c, tag, Flush(oldtag)).value.pending
    ensures c.next in Arrived(c, tag, oldtag).live
    ensures Respond(Arrived(c, tag, oldtag), c.next, Refusal(FlushRefusal(c, tag, oldtag)), {}) == Some(Receive(c, tag, Flush(oldtag)).value.c)
  {
    hide Respond;
  }

  lemma ArrivedInv(c: Conn, tag: nat, oldtag: nat)
    requires Inv(c) && c.attached && !c.closing
    ensures Inv(Arrived(c, tag, oldtag)) && c.next in Arrived(c, tag, oldtag).live && c.next !in Arrived(c, tag, oldtag).todo
  {
    var b := c.(wired := true);
    assert Inv(b);
    AdmitInv(b, Req(tag, Flush(oldtag), None, None));
    BindInv(Admit(b, Req(tag, Flush(oldtag), None, None)), tag, c.next);
  }

  /**
   * The same when the server answers the Tflush itself, because its tag is in use or
   * there is no flush handler: the target is interrupted all the same, right before
   * the flush's error reply, and nothing is sent for either afterwards.
   */
  lemma RefusedFlushOrder(srv: Handlers, es: seq<Event>, c: Conn, tag: nat, oldtag: nat, d: Conn, more: seq<Event>, z: Conn)
    requires Run(Initial(srv), es, c) && Enabled(c, Recv(tag, Flush(oldtag))) && oldtag in c.tagmap
    requires Receive(c, tag, Flush(oldtag)) == Some(Handled(d, false)) && Run(d, more, z)
    ensures var v := c.tagmap[oldtag];
      var n := |d.out|;
      && v in c.live && n >= |c.out| + 2
      && d.out[n - 2] == Sent(v, oldtag, RError(Eintr))
      && d.out[n - 1] == Sent(c.next, tag, RError(if tag in c.tagmap then Eduptag else Enofunc))
      && v !in d.live && c.next !in d.live && oldtag !in d.tagmap
      && d.out <= z.out
      && forall k :: n <= k < |z.out| ==> z.out[k].id != v && z.out[k].id != c.next
  {
    hide Respond, Receive, Inv;
    InitialInv(srv);
    RunInv(Initial(srv), es, c);
    RefusedParts(c, tag, oldtag, d);
    RunInv(d, more, z);
    InvOut(z);
    SilentAfter(d, z, |d.out| - 2);
    SilentAfter(d, z, |d.out| - 1);
  }

  lemma InvOut(z: Conn)
    requires Inv(z)
    ensures OutInv(z)
  {
  }

  lemma RefusedParts(c: Conn, tag: nat, oldtag: nat, d: Conn)
    requires Inv(c) && Enabled(c, Recv(tag, Flush(oldtag))) && oldtag in c.tagmap
    requires Receive(c, tag, Flush(oldtag)) == Some(Handled(d, false))
    ensures Inv(d)
    ensures var v := c.tagmap[oldtag];
      var n := |d.out|;
      && v in c.live && n >= |c.out| + 2
      && d.out[n - 2] == Sent(v, oldtag, RError(Eintr))
      && d.out[n - 1] == Sent(c.next, tag, RError(if tag in c.tagmap then Eduptag else Enofunc))
      && v !in d.live && c.next !in d.live && oldtag !in d.tagmap
  {
    hide Respond, Receive, Arrived, Inv;
    var a := Arrived(c, tag, oldtag);
    ArrivedInv(c, tag, oldtag);
    ArrivedShape(c, tag, oldtag);
    RefusedShape(c, tag, oldtag);
    var e := Refusal(FlushRefusal(c, tag, oldtag));
    RespondInv(a, c.next, e, {});
    FlushLastTwo(a, c.next, e);
    TagStale(a, d, oldtag);
  }

  lemma ArrivedShape(c: Conn, tag: nat, oldtag: nat)
    requires Inv(c) && oldtag in c.tagmap
    ensures var a := Arrived(c, tag, oldtag);
      && a.out == c.out && a.wired && a.live == c.live[c.next := Req(tag, Flush(oldtag), None, None)]
      && oldtag in a.tagmap && c.tagmap[oldtag] in c.live && c.live[c.tagmap[oldtag]].tag == oldtag && c.tagmap[oldtag] != c.next
      && (tag in c.tagmap || oldtag != tag) && Victim(a, a.live[c.next]) == Some(c.tagmap[oldtag])
  {
  }

  lemma TagStale(c: Conn, d: Conn, tag: nat)
    requires Inv(d) && tag in c.tagmap && c.tagmap[tag] !in d.live && (forall t :: t in d.tagmap ==> t in c.tagmap && d.tagmap[t] == c.tagmap[t])
    ensures tag !in d.tagmap
  {
  }

  lemma SilentAfter(d: Conn, z: Conn, k: nat)
    requires OutInv(z) && d.out <= z.out && k < |d.out|
    ensures forall l :: |d.out| <= l < |z.out| ==> z.out[l].id != d.out[k].id
  {
    assert z.out[k] == d.out[k];
  }

  lemma RepliesEnd(c: Conn, p: seq<nat>, last: Reply)
    requires |p| > 1 && forall i :: i in p ==> i in c.live
    ensures var r := Replies(c, p, last);
      && |r| >= 2 && r[|r| - 1] == Sent(p[0], c.live[p[0]].tag, last)
      && p[1] in p && r[|r| - 2] == Sent(p[1], c.live[p[1]].tag, RError(Eintr))
  {
    var t := Replies(c, p[1..], RError(Eintr));
    assert t[|t| - 1] == Sent(p[1], c.live[p[1]].tag, RError(Eintr));
  }

  lemma FlushLastTwo(c: Conn, id: nat, a: Answer)
    requires Inv(c) && id in c.live && id !in c.todo && c.wired && Victim(c, c.live[id]).Some?
    requires Respond(c, id, a, {}).Some?
    ensures var d := Respond(c, id, a, {}).value;
      var v := Victim(c, c.live[id]).value;
      var n := |d.out|;
      && n >= |c.out| + 2 && v in c.live
      && d.out[n - 2] == Sent(v, c.live[v].tag, RError(Eintr))
      && d.out[n - 1] == Sent(id, c.live[id].tag, OwnReply(c, id, a))
      && v !in d.live && id !in d.live
  {
    hide Respond, Inv, OwnReply, Replies;
    var p := AnsweredPath(c, id, a, {});
    VictimsNotQueued(c, p);
    PathAnswered(c, p, a, {});
    PathTail(c, p, a);
    RepliesEnd(c, p, OwnReply(c, id, a));
  }

  lemma AnswerTags(c: Conn, id: nat, a: Answer, d: Conn)
    requires Inv(c) && id in c.live && id !in c.todo && Respond(c, id, a, {}) == Some(d)
    ensures Inv(d) && (forall t :: t in d.tagmap ==> t in c.tagmap && d.tagmap[t] == c.tagmap[t])
  {
    hide Respond, Inv;
    RespondInv(c, id, a, {});
  }

  /** A flush's target carries the tag it names. */
  lemma OrderParts(c: Conn, id: nat)
    requires Inv(c) && id in c.live && Victim(c, c.live[id]).Some?
    ensures var t := c.live[id].msg.oldtag; t in c.tagmap && c.tagmap[t] in c.live && c.live[c.tagmap[t]].tag == t
  {
  }

  // ---- Negotiated sizes ----

  /** A successful Topen or Tcreate grants the receive size minus 24, at least 1. */
  lemma GrantExact(srv: Handlers, es: seq<Event>, c: Conn, id: nat, a: Answer, d: Conn)
    requires Run(Initial(srv), es, c) && Enabled(c, Answered(id, a)) && c.wired
    requires (c.live[id].msg.Open? || c.live[id].msg.Create?) && a.error.None?
    requires Respond(c, id, a, {}) == Some(d)
    ensures d.out == c.out + [Sent(id, c.live[id].tag, ROpen(a.qid, c.rsize - IOHDRSZ))]
    ensures 1 <= c.rsize - IOHDRSZ <= MAX_MSG - IOHDRSZ
    ensures d.rsize == d.wsize == c.rsize
  {
    InitialInv(srv);
    RunInv(Initial(srv), es, c);
    GrantShape(c, id, a);
  }

  lemma GrantShape(c: Conn, id: nat, a: Answer)
    requires id in c.live && (c.live[id].msg.Open? || c.live[id].msg.Create?) && a.error.None? && c.wired
    requires Respond(c, id, a, {}).Some?
    ensures var d := Respond(c, id, a, {}).value;
      && d.out == c.out + [Sent(id, c.live[id].tag, ROpen(a.qid, c.rsize - IOHDRSZ))]
      && d.rsize == c.rsize && d.wsize == c.wsize
  {
  }

  /** In every run both message buffers have the same size, between 25 and 8192 bytes. */
  lemma SizesInEveryRun(srv: Handlers, es: seq<Event>, c: Conn)
    requires Run(Initial(srv), es, c)
    ensures c.rsize == c.wsize && 25 <= c.rsize <= 8192
  {
    InitialInv(srv);
    RunInv(Initial(srv), es, c);
  }
}
