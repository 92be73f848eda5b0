/**
 * What callers observe over whole runs of the multiplexer: replies are final,
 * an honest peer's answers reach the callers that asked, no caller is stranded,
 * and a dead stream drains every outstanding caller.
 */
module MuxRuns {
  import opened Basics
  import opened TagTable
  import opened Mux
  import opened MuxInvariant

  /** c's reply, once set, never changes, and a returned caller never moves again. */
  ghost predicate Settled(s: State, s': State, c: Id) {
    c in s.callers ==>
      && c in s'.callers
      && (s.callers[c].p.Some? ==> s'.callers[c].p == s.callers[c].p)
      && (s.callers[c].pc.Returned? ==> s'.callers[c] == s.callers[c])
  }

  // ---- What each region does to the callers ----

  /** x keeps its reply and tag; it stays asleep, stays waiting for a tag, or does not move. */
  ghost predicate Kept(s: State, s': State, x: Id) {
    && (x in s'.callers <==> x in s.callers)
    && (x in s.callers ==>
          && s'.callers[x].p == s.callers[x].p && s'.callers[x].tag == s.callers[x].tag
          && (|| s'.callers[x].pc == s.callers[x].pc
              || (s.callers[x].pc.Asleep? && s'.callers[x].pc.Asleep?)
              || (s.callers[x].pc.TagWait? && s'.callers[x].pc.TagWait?)))
  }

  lemma ReturnShape(s: State, c: Id, w: Option<Id>)
    requires TagSlot(s, c) && Live(s, c) && WakeChoice(s, w)
    ensures var s' := Return(s, c, w);
      && (forall x :: x != c ==> Kept(s, s', x))
      && c in s'.callers && s'.callers[c] == s.callers[c].(pc := Returned(s.callers[c].p))
  {
  }

  lemma ElectShape(s: State)
    ensures forall x :: Kept(s, Elect(s), x)
    ensures SameWaiters(s, Elect(s))
  {
  }

  lemma LeaveShape(s: State, c: Id, w: Option<Id>)
    requires TagSlot(s, c) && Live(s, c) && WakeChoice(s, w)
    ensures TagSlot(Elect(s), c)
    ensures var s' := Return(Elect(s), c, w);
      && (forall x :: x != c ==> Kept(s, s', x))
      && c in s'.callers && s'.callers[c] == s.callers[c].(pc := Returned(s.callers[c].p))
  {
    var e := Elect(s);
    ElectShape(s);
    assert Kept(s, e, c);
    assert Live(e, c) && e.callers[c].p == s.callers[c].p;
    assert WakeChoice(e, w);
    ReturnShape(e, c, w);
    var s' := Return(e, c, w);
    forall x | x != c ensures Kept(s, s', x) {
      assert Kept(s, e, x) && Kept(e, s', x);
    }
  }

  lemma EnterShape(s: State, c: Id, w: Option<Id>)
    requires Inv(s) && Enabled(s, Enter(c, w))
    ensures var s' := Step(s, Enter(c, w));
      && (forall x :: x != c ==> Kept(s, s', x))
      && c in s'.callers && s'.callers[c].p == s.callers[c].p && s'.callers[c].tag == s.callers[c].tag
      && !s'.callers[c].pc.TagWait?
      && (s'.callers[c].pc.Returned? <==> s.callers[c].p.Some?)
  {
    assert Live(s, c) && TagSlot(s, c);
    if s.callers[c].p.Some? {
      ReturnShape(s, c, w);
    }
  }

  lemma FailShape(s: State, c: Id, w: Option<Id>)
    requires Inv(s) && Enabled(s, Fail(c, w))
    ensures var s' := Step(s, Fail(c, w));
      && (forall x :: x != c ==> Kept(s, s', x))
      && s.callers[c].p.None? && c in s'.callers && s'.callers[c] == s.callers[c].(pc := Returned(None))
  {
    assert Live(s, c) && TagSlot(s, c);
    var d := s.(sleep := Without(s.sleep, c));
    WaiterFrame(s, d, w);
    LeaveShape(d, c, w);
    var s' := Step(s, Fail(c, w));
    assert s' == Return(Elect(d), c, w);
    forall x | x != c ensures Kept(s, s', x) { assert Kept(d, s', x); }
    assert c in s.sleep;
  }

  /** The caller to which a message is handed. */
  ghost predicate Addressee(s: State, f: Reply, r: Id) {
    Live(s, r) && s.callers[r].p.None? && s.callers[r].tag == f.tag
  }

  /** The callers after message f was dispatched and c perhaps left with it. */
  ghost predicate Received(s: State, s': State, f: Reply) {
    && s'.callers.Keys == s.callers.Keys
    && (forall x :: x in s.callers ==> s'.callers[x].p == (if Addressee(s, f, x) then Some(f) else s.callers[x].p))
    && (forall x :: x in s.callers ==> (s'.callers[x].pc.TagWait? <==> s.callers[x].pc.TagWait?))
    && (forall x :: x in s.callers && s'.callers[x].pc.Returned? ==> s'.callers[x].p.Some? || s'.callers[x] == s.callers[x])
    && (forall x :: x in s.callers && s.callers[x].pc.Returned? ==> s'.callers[x] == s.callers[x])
  }

  lemma ReceivedThenLeft(s: State, d: State, s': State, c: Id, f: Reply)
    requires Received(s, d, f)
    requires forall x :: x != c ==> Kept(d, s', x)
    requires c in d.callers && c in s'.callers && s'.callers[c] == d.callers[c].(pc := Returned(d.callers[c].p))
    requires d.callers[c].p.Some? && Live(s, c)
    ensures Received(s, s', f)
  {
    forall x ensures x in s'.callers <==> x in s.callers { if x != c { assert Kept(d, s', x); } }
    forall x | x in s.callers && x != c
      ensures s'.callers[x].p == d.callers[x].p && s'.callers[x].tag == d.callers[x].tag
      ensures s'.callers[x].pc.TagWait? <==> d.callers[x].pc.TagWait?
      ensures d.callers[x].pc.Returned? || s'.callers[x].pc.Returned? ==> s'.callers[x] == d.callers[x]
    {
      assert Kept(d, s', x);
    }
  }

  lemma RecvShape(s: State, c: Id, f: Reply, w: Option<Id>)
    requires Inv(s) && Enabled(s, Recv(c, f, w))
    ensures Received(s, Step(s, Recv(c, f, w)), f)
  {
    assert Live(s, c) && TagSlot(s, c);
    var d := Dispatch(s, f);
    var s' := Step(s, Recv(c, f, w));
    DispatchOnly(s, f);
    if d.callers[c].p.Some? {
      DispatchCore(s, f, w);
      assert Live(d, c) && TagSlot(d, c);
      LeaveShape(d, c, w);
      assert s' == Return(Elect(d), c, w);
      ReceivedThenLeft(s, d, s', c, f);
    }
  }

  lemma DispatchOnly(s: State, f: Reply)
    requires Inv(s)
    ensures Received(s, Dispatch(s, f), f)
  {
    DispatchExact(s, f);
    TagsDistinct(s);
    if r :| Addressee(s, f, r) {
      assert forall x :: Addressee(s, f, x) ==> x == r;
    }
  }

  lemma TagsDistinct(s: State)
    requires TagInv(s)
    ensures forall a, b :: Live(s, a) && Live(s, b) && s.callers[a].tag == s.callers[b].tag ==> a == b
  {
    forall a, b | Live(s, a) && Live(s, b) && s.callers[a].tag == s.callers[b].tag
      ensures a == b
    {
      assert TagSlot(s, a) && TagSlot(s, b);
    }
  }

  lemma StartShape(s: State, c: Id)
    requires Inv(s) && Enabled(s, Start(c))
    ensures var s' := Step(s, Start(c));
      && (forall x :: x != c ==> Kept(s, s', x))
      && c in s'.callers && s'.callers[c].p.None?
      && s'.callers[c].pc == (if Blocked(s.tags) then TagWait(false) else Sending)
      && (Blocked(s.tags) ==> s'.callers[c].tag == 0)
  {
    if !Blocked(s.tags) {
      GetTagTotal(s.tags, c);
    }
  }

  // ---- Replies are final ----

  /** A reply appears only by a Recv step that carried it, under the caller's own tag. */
  lemma StepSettles(s: State, l: Label, c: Id)
    requires Inv(s) && Enabled(s, l) && c in s.callers
    ensures Settled(s, Step(s, l), c)
    ensures s.callers[c].p.None? && Step(s, l).callers[c].p.Some? ==>
      l.Recv? && Step(s, l).callers[c].p == Some(l.f) && Live(s, c) && s.callers[c].tag == l.f.tag
  {
    match l
    case Start(d) => StartShape(s, d); assert c != d ==> Kept(s, Step(s, l), c);
    case Enter(d, w) => EnterShape(s, d, w); assert c != d ==> Kept(s, Step(s, l), c);
    case Recv(d, f, w) => RecvShape(s, d, f, w);
    case Fail(d, w) => FailShape(s, d, w); assert c != d ==> Kept(s, Step(s, l), c);
    case Mounted =>
  }

  lemma {:induction false} RunSettles(s: State, ls: seq<Label>, c: Id)
    requires Inv(s) && Possible(s, ls)
    ensures Settled(s, Exec(s, ls), c)
    decreases |ls|
  {
    if ls != [] && c in s.callers {
      StepInv(s, ls[0]);
      StepSettles(s, ls[0], c);
      RunSettles(Step(s, ls[0]), ls[1..], c);
    }
  }

  /**
   * A message that arrives in a reachable state goes to the one live unanswered
   * caller with its tag; when there is none (a second reply, a released tag, a
   * tag out of range) it is dropped and no caller changes.
   */
  lemma DeliveredOrDropped(ls: seq<Label>, f: Reply)
    requires Possible(Init(), ls)
    ensures var s := Exec(Init(), ls);
      var d := Dispatch(s, f);
      && (forall c :: Live(s, c) && s.callers[c].p.None? && s.callers[c].tag == f.tag ==>
            && c in d.callers && d.callers[c].p == Some(f) && c !in d.sleep
            && forall x :: x in s.callers && x != c ==> x in d.callers && d.callers[x] == s.callers[x])
      && ((forall c :: Live(s, c) && s.callers[c].p.None? ==> s.callers[c].tag != f.tag) ==> d == s)
  {
    InitInv();
    RunInv(Init(), ls);
    var s := Exec(Init(), ls);
    DispatchExact(s, f);
    forall c | Live(s, c) && s.callers[c].p.None? && s.callers[c].tag == f.tag
      ensures c !in Dispatch(s, f).sleep
    {
      WithoutNoDup(s.sleep, c);
    }
  }

  // ---- An honest peer ----

  /**
   * The peer answers each request at most once, under that request's tag; the
   * payload of a reply names the request it answers. No receive fails.
   */
  ghost predicate Honest(s: State, ls: seq<Label>, answered: set<Id>)
    decreases |ls|
  {
    ls != [] ==>
      && Enabled(s, ls[0]) && !ls[0].Fail?
      && (ls[0].Recv? ==>
            var r := ls[0].f.payload;
            r in s.callers && !Waiter(s, r) && r !in answered && ls[0].f.tag == s.callers[r].tag)
      && Honest(Step(s, ls[0]), ls[1..], if ls[0].Recv? then answered + {ls[0].f.payload} else answered)
  }

  /** Every answer given so far sits with the caller it answers, and nowhere else. */
  ghost predicate Matched(s: State, answered: set<Id>) {
    && (forall c :: c in s.callers && !Waiter(s, c) ==>
          (s.callers[c].p.Some? <==> c in answered))
    && (forall c :: c in s.callers && s.callers[c].p.Some? ==> s.callers[c].p.value.payload == c)
    && (forall c :: c in s.callers && s.callers[c].pc.Returned? ==> s.callers[c].p.Some?)
    && (forall c :: c in answered ==> c in s.callers && !Waiter(s, c))
  }

  lemma HonestRecv(s: State, l: Label, answered: set<Id>)
    requires Inv(s) && Matched(s, answered) && l.Recv? && Honest(s, [l], answered)
    ensures Matched(Step(s, l), answered + {l.f.payload})
  {
    RecvShape(s, l.c, l.f, l.w);
    var r := l.f.payload;
    assert Addressee(s, l.f, r);
    TagsDistinct(s);
    assert forall x :: Addressee(s, l.f, x) ==> x == r;
  }

  lemma HonestOther(s: State, l: Label, answered: set<Id>)
    requires Inv(s) && Matched(s, answered) && !l.Recv? && Honest(s, [l], answered)
    ensures Matched(Step(s, l), answered)
  {
    if l.Mounted? {
    } else {
      if l.Enter? { EnterShape(s, l.c, l.w); } else { StartShape(s, l.c); }
      OneMoved(s, Step(s, l), l.c, answered);
    }
  }

  lemma OneMoved(s: State, s': State, c: Id, answered: set<Id>)
    requires Matched(s, answered)
    requires forall x :: x != c ==> Kept(s, s', x)
    requires c in s'.callers
    requires c !in s.callers || Waiter(s, c) ==> s'.callers[c].p.None? && !s'.callers[c].pc.Returned?
    requires c in s.callers && !Waiter(s, c) ==>
      !Waiter(s', c) && s'.callers[c].p == s.callers[c].p && (s'.callers[c].pc.Returned? ==> s.callers[c].p.Some?)
    ensures Matched(s', answered)
  {
    forall x | x != c ensures x in s'.callers <==> x in s.callers { assert Kept(s, s', x); }
    forall x | x in s'.callers && x != c
      ensures s'.callers[x].p == s.callers[x].p && (Waiter(s', x) <==> Waiter(s, x))
      ensures s'.callers[x].pc.Returned? <==> s.callers[x].pc.Returned?
    {
      assert Kept(s, s', x);
    }
  }

  lemma {:induction false} HonestMatched(s: State, ls: seq<Label>, answered: set<Id>)
    requires Inv(s) && Matched(s, answered) && Honest(s, ls, answered)
    ensures Possible(s, ls)
    ensures exists a :: Matched(Exec(s, ls), a)
    decreases |ls|
  {
    if ls != [] {
      StepInv(s, ls[0]);
      var l := ls[0];
      assert Honest(s, [l], answered);
      if l.Recv? {
        HonestRecv(s, l, answered);
        HonestMatched(Step(s, l), ls[1..], answered + {l.f.payload});
      } else {
        HonestOther(s, l, answered);
        HonestMatched(Step(s, l), ls[1..], answered);
      }
      assert Exec(s, ls) == Exec(Step(s, l), ls[1..]);
    } else {
      assert Matched(Exec(s, ls), answered);
    }
  }

  /**
   * At position i of a run nothing fails, and a message that is read answers a request
   * that was sent, under its tag, and that no earlier message answered.
   */
  ghost predicate HonestAt(s: State, ls: seq<Label>, i: nat)
    requires i < |ls|
  {
    var x := Exec(s, ls[..i]);
    && Enabled(x, ls[i]) && !ls[i].Fail?
    && (ls[i].Recv? ==>
          var r := ls[i].f.payload;
          && r in x.callers && !x.callers[r].pc.TagWait? && ls[i].f.tag == x.callers[r].tag
          && forall j :: 0 <= j < i && ls[j].Recv? ==> ls[j].f.payload != r)
  }

  lemma {:induction false} HonestFrom(s: State, ls: seq<Label>, answered: set<Id>)
    requires forall i :: 0 <= i < |ls| ==> HonestAt(s, ls, i) && (ls[i].Recv? ==> ls[i].f.payload !in answered)
    ensures Honest(s, ls, answered)
    decreases |ls|
  {
    hide Enabled, Step;
    if ls != [] {
      assert HonestAt(s, ls, 0) && ls[..0] == [];
      var s', t := Step(s, ls[0]), ls[1..];
      var more := if ls[0].Recv? then answered + {ls[0].f.payload} else answered;
      forall i | 0 <= i < |t| ensures HonestAt(s', t, i) && (t[i].Recv? ==> t[i].f.payload !in more) {
        assert HonestAt(s, ls, i + 1);
        assert ls[..i + 1][0] == ls[0] && ls[..i + 1][1..] == t[..i];
        assert forall j :: 0 <= j < i ==> t[j] == ls[j + 1];
      }
      HonestFrom(s', t, more);
    }
  }

  /** Against an honest peer every muxrpc that returns has the answer to its own request. */
  lemma HonestDelivery(ls: seq<Label>)
    requires forall i :: 0 <= i < |ls| ==> HonestAt(Init(), ls, i)
    ensures var s := Exec(Init(), ls);
      forall c :: c in s.callers && s.callers[c].pc.Returned? ==>
        s.callers[c].pc.result.Some? && s.callers[c].pc.result.value.payload == c
  {
    InitInv();
    HonestFrom(Init(), ls, {});
    assert Matched(Init(), {});
    HonestMatched(Init(), ls, {});
    RunInv(Init(), ls);
  }
}
