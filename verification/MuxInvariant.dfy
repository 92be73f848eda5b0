/**
 * Every step of the multiplexer keeps its invariant, so it holds in every
 * interleaving of any number of callers.
 */
module MuxInvariant {
  import opened Basics
  import opened TagTable
  import opened Mux

  // While caller c is leaving, the clauses about c itself are suspended.

  ghost predicate QueueBut(s: State, c: Id) {
    && NoDup(s.sleep) && c !in s.sleep
    && forall x :: x != c ==> (x in s.sleep <==> (Live(s, x) && s.callers[x].p.None?))
  }

  ghost predicate MuxerBut(s: State, c: Id) {
    && (s.muxer.Some? ==> s.muxer.value in s.sleep)
    && (forall x :: x in s.callers && x != c && s.callers[x].pc.Receiving? ==> s.muxer == Some(x))
    && (s.muxer.None? ==> forall x :: x in s.sleep ==> x in s.callers && s.callers[x].pc.Sending?)
  }

  ghost predicate SleeperBut(s: State, c: Id) {
    forall x :: x in s.callers && x != c && s.callers[x].pc.Asleep? ==>
      (s.callers[x].pc.signalled <==> (s.callers[x].p.Some? || s.muxer == Some(x)))
  }

  /** s' has the same tags and the same callers asleep on tagrend. */
  ghost predicate SameWaiters(s: State, s': State) {
    && s'.tags == s.tags
    && forall d :: (Waiter(s, d) <==> Waiter(s', d)) && (Ready(s, d) <==> Ready(s', d))
  }

  /** The tags and who holds them did not change. */
  lemma TagFrame(s: State, s': State)
    requires TagInv(s) && s'.tags == s.tags
    requires forall x :: Live(s', x) <==> Live(s, x)
    requires forall x :: Live(s', x) && Live(s, x) ==> s'.callers[x].tag == s.callers[x].tag
    ensures TagInv(s')
  {
    forall x | Live(s', x) ensures TagSlot(s', x) { assert TagSlot(s, x); }
  }

  lemma WaiterFrame(s: State, s': State, w: Option<Id>)
    requires WaiterInv(s) && SameWaiters(s, s')
    ensures WaiterInv(s')
    ensures WakeChoice(s, w) ==> WakeChoice(s', w)
  {
    assert ReadySet(s') == ReadySet(s) by {
      assert forall d :: d in ReadySet(s) <==> Ready(s, d);
      assert forall d :: d in ReadySet(s') <==> Ready(s', d);
    }
  }

  lemma ReturnWaiters(s: State, c: Id, w: Option<Id>)
    requires TagInv(s) && WaiterInv(s) && Live(s, c) && WakeChoice(s, w)
    ensures WaiterInv(Return(s, c, w))
  {
    assert TagSlot(s, c);
    var s' := Return(s, c, w);
    assert forall d :: Waiter(s', d) <==> Waiter(s, d);
    assert forall d :: d in ReadySet(s) <==> Ready(s, d);
    assert forall d :: d in ReadySet(s') <==> Ready(s', d);
    if w.Some? {
      assert ReadySet(s') == ReadySet(s) + {w.value};
      assert w.value !in ReadySet(s);
    } else {
      assert forall d :: Waiter(s', d) ==> Ready(s', d);
    }
  }

  /** Another caller keeps its slot when c gives its own back. */
  lemma KeepsSlot(s: State, c: Id, w: Option<Id>, d: Id)
    requires TagInv(s) && Live(s, c) && TagSlot(s, c) && WakeChoice(s, w) && d != c && Live(s, d)
    requires Ok(Return(s, c, w).tags)
    ensures d in Return(s, c, w).callers && Return(s, c, w).callers[d].tag == s.callers[d].tag
    ensures TagSlot(Return(s, c, w), d)
  {
    hide WakeChoice;
    assert TagSlot(s, d);
    var i, j := s.callers[c].tag - s.tags.mintag, s.callers[d].tag - s.tags.mintag;
    assert j != i;
    var wait := Return(s, c, w).tags.wait;
    assert wait[j] == Some(d);
    CountFull(wait);
  }

  lemma ReturnTags(s: State, c: Id, w: Option<Id>)
    requires TagInv(s) && Live(s, c) && WakeChoice(s, w)
    ensures TagInv(Return(s, c, w))
  {
    assert TagSlot(s, c);
    PutTagOk(s.tags, s.callers[c].tag - s.tags.mintag);
    var s' := Return(s, c, w);
    assert forall d :: Live(s', d) <==> Live(s, d) && d != c;
    forall d | Live(s', d)
      ensures TagSlot(s', d)
    {
      KeepsSlot(s, c, w, d);
    }
  }

  lemma ReturnQueue(s: State, c: Id, w: Option<Id>)
    requires TagSlot(s, c) && QueueBut(s, c) && MuxerBut(s, c) && Live(s, c) && WakeChoice(s, w)
    ensures QueueInv(Return(s, c, w)) && MuxerInv(Return(s, c, w))
  {
    var s' := Return(s, c, w);
    assert forall x :: x != c ==> (Live(s', x) <==> Live(s, x));
    assert forall x :: Live(s', x) ==> s'.callers[x] == s.callers[x];
  }

  lemma ReturnReplies(s: State, c: Id, w: Option<Id>)
    requires TagSlot(s, c) && SleeperBut(s, c) && ReplyInv(s) && Live(s, c) && WakeChoice(s, w)
    ensures SleeperInv(Return(s, c, w)) && ReplyInv(Return(s, c, w))
  {
  }

  /** The last region of muxrpc, whichever way it was reached. */
  lemma LeaveInv(s: State, c: Id, w: Option<Id>)
    requires TagInv(s) && QueueBut(s, c) && MuxerBut(s, c) && SleeperBut(s, c) && ReplyInv(s) && WaiterInv(s)
    requires Live(s, c) && WakeChoice(s, w)
    ensures TagSlot(s, c) && Inv(Return(s, c, w))
  {
    assert TagSlot(s, c);
    ReturnTags(s, c, w);
    ReturnWaiters(s, c, w);
    ReturnQueue(s, c, w);
    ReturnReplies(s, c, w);
  }

  /** Callers other than c neither receive nor are signalled without a reply. */
  ghost predicate OnlyReceiver(s: State, c: Id) {
    && (forall x :: x in s.callers && s.callers[x].pc.Receiving? ==> x == c)
    && (forall x :: x in s.callers && x != c && s.callers[x].pc.Asleep? ==>
          (s.callers[x].pc.signalled <==> s.callers[x].p.Some?))
  }

  /** Electing changes at most the muxer and whether its rpc is signalled. */
  lemma ElectShape(s: State)
    ensures var e := Elect(s);
      && e.tags == s.tags && e.sleep == s.sleep && e.callers.Keys == s.callers.Keys
      && (forall x :: x in s.callers ==>
            e.callers[x] == s.callers[x] || (s.callers[x].pc.Asleep? && e.callers[x] == s.callers[x].(pc := Asleep(true))))
      && (forall x :: Live(e, x) <==> Live(s, x)) && SameWaiters(s, e)
  {
  }

  lemma ElectMuxer(s: State, c: Id)
    requires QueueBut(s, c) && OnlyReceiver(s, c) && Live(s, c)
    ensures MuxerBut(Elect(s), c) && SleeperBut(Elect(s), c)
  {
    if s.sleep != [] {
      assert s.sleep[0] in s.sleep;
    }
  }

  lemma ElectBut(s: State, c: Id, w: Option<Id>)
    requires TagInv(s) && QueueBut(s, c) && ReplyInv(s) && WaiterInv(s) && OnlyReceiver(s, c)
    requires Live(s, c) && WakeChoice(s, w)
    ensures var e := Elect(s);
      && TagInv(e) && QueueBut(e, c) && MuxerBut(e, c) && SleeperBut(e, c) && ReplyInv(e) && WaiterInv(e)
      && Live(e, c) && WakeChoice(e, w) && e.callers[c].p == s.callers[c].p
  {
    hide Elect, TagInv, WaiterInv, WakeChoice, MuxerBut, SleeperBut, OnlyReceiver, SameWaiters;
    ElectShape(s);
    ElectMuxer(s, c);
    WaiterFrame(s, Elect(s), w);
    ElectTags(s);
  }

  lemma ElectTags(s: State)
    requires TagInv(s)
    ensures TagInv(Elect(s))
  {
    var e := Elect(s);
    assert forall x :: Live(e, x) <==> Live(s, x);
    assert forall x :: x in s.callers ==> e.callers[x].tag == s.callers[x].tag;
    forall x | Live(e, x) ensures TagSlot(e, x) { assert TagSlot(s, x); }
  }

  /** What dispatching does, in terms of tags rather than slots and links. */
  lemma DispatchExact(s: State, f: Reply)
    requires Inv(s)
    ensures forall c :: Live(s, c) && s.callers[c].p.None? && s.callers[c].tag == f.tag ==>
      Dispatch(s, f) == s.(sleep := Without(s.sleep, c),
                           callers := s.callers[c := Woken(s.callers[c]).(p := Some(f))])
    ensures (forall c :: Live(s, c) && s.callers[c].p.None? ==> s.callers[c].tag != f.tag) ==> Dispatch(s, f) == s
  {
    forall c | Live(s, c) && s.callers[c].p.None? && s.callers[c].tag == f.tag
      ensures Target(s.tags, s.sleep, f.tag) == Some(c)
    {
      assert TagSlot(s, c);
    }
    var r := Target(s.tags, s.sleep, f.tag);
    if r.Some? {
      var i := f.tag - s.tags.mintag;
      assert s.tags.wait[i] == r;
      assert Live(s, r.value) && s.callers[r.value].tag == f.tag && s.callers[r.value].p.None?;
    }
  }

  lemma DispatchQueue(s: State, f: Reply)
    requires TagInv(s) && QueueInv(s)
    ensures QueueInv(Dispatch(s, f)) && TagInv(Dispatch(s, f))
  {
    var d := Dispatch(s, f);
    var r := Target(s.tags, s.sleep, f.tag);
    if r.Some? {
      WithoutNoDup(s.sleep, r.value);
    }
    assert forall x :: Live(d, x) <==> Live(s, x);
    forall x | Live(d, x) ensures TagSlot(d, x) { assert TagSlot(s, x); }
  }

  lemma DispatchReplies(s: State, f: Reply)
    requires TagInv(s) && ReplyInv(s) && SleeperInv(s)
    ensures ReplyInv(Dispatch(s, f)) && SleeperInv(Dispatch(s, f))
  {
    var r := Target(s.tags, s.sleep, f.tag);
    if r.Some? {
      var i := f.tag - s.tags.mintag;
      assert s.tags.wait[i] == r && Live(s, r.value) && s.callers[r.value].tag == f.tag;
    }
  }

  lemma DispatchCore(s: State, f: Reply, w: Option<Id>)
    requires Inv(s) && WakeChoice(s, w)
    ensures var d := Dispatch(s, f);
      && TagInv(d) && QueueInv(d) && ReplyInv(d) && WaiterInv(d) && WakeChoice(d, w) && d.muxer == s.muxer
      && (forall x :: x in s.callers <==> x in d.callers)
      && (forall x :: x in s.callers ==>
            d.callers[x].pc.Receiving? == s.callers[x].pc.Receiving?)
      && SleeperInv(d)
  {
    hide Dispatch, TagInv, QueueInv, MuxerInv, SleeperInv, ReplyInv, WaiterInv, WakeChoice, SameWaiters;
    DispatchQueue(s, f);
    DispatchReplies(s, f);
    DispatchShape(s, f);
    WaiterFrame(s, Dispatch(s, f), w);
  }

  lemma DispatchShape(s: State, f: Reply)
    requires TagInv(s)
    ensures var d := Dispatch(s, f);
      && d.muxer == s.muxer && SameWaiters(s, d)
      && (forall x :: x in s.callers <==> x in d.callers)
      && (forall x :: x in s.callers ==> d.callers[x].pc.Receiving? == s.callers[x].pc.Receiving?)
  {
    var r := Target(s.tags, s.sleep, f.tag);
    if r.Some? {
      assert Live(s, r.value);
    }
  }

  lemma RecvInv(s: State, c: Id, f: Reply, w: Option<Id>)
    requires Inv(s) && Enabled(s, Recv(c, f, w))
    ensures TagSlot(s, c) && Inv(RecvStep(s, c, f, w))
  {
    assert Live(s, c);
    assert TagSlot(s, c);
    DispatchCore(s, f, w);
    var d := Dispatch(s, f);
    assert s.muxer == Some(c) && c in s.sleep;
    if d.callers[c].p.Some? {
      assert Live(d, c);
      ElectBut(d, c, w);
      LeaveInv(Elect(d), c, w);
    } else {
      assert c in d.sleep;
      assert MuxerInv(d);
    }
  }

  /** The receiver takes its own rpc off the queue. */
  lemma Dequeued(s: State, c: Id)
    requires Inv(s) && c in s.callers && s.callers[c].pc.Receiving?
    ensures var d := s.(sleep := Without(s.sleep, c));
      QueueBut(d, c) && ReplyInv(d) && OnlyReceiver(d, c) && Live(d, c) && SameWaiters(s, d) && TagSlot(s, c)
  {
    hide WaiterInv;
    WithoutNoDup(s.sleep, c);
    assert Live(s, c);
  }

  lemma DequeuedTags(s: State, d: State)
    requires TagInv(s) && d.tags == s.tags && d.callers == s.callers
    ensures TagInv(d)
  {
    assert forall x :: Live(d, x) <==> Live(s, x);
    forall x | Live(d, x) ensures TagSlot(d, x) { assert TagSlot(s, x); }
  }

  lemma FailInv(s: State, c: Id, w: Option<Id>)
    requires Inv(s) && Enabled(s, Fail(c, w))
    ensures TagSlot(s, c) && Inv(FailStep(s, c, w))
  {
    hide TagInv, QueueInv, MuxerInv, SleeperInv, ReplyInv, WaiterInv, WakeChoice, SameWaiters, QueueBut, OnlyReceiver,
         MuxerBut, SleeperBut, Elect, Return;
    Dequeued(s, c);
    var d := s.(sleep := Without(s.sleep, c));
    DequeuedTags(s, d);
    WaiterFrame(s, d, w);
    ElectBut(d, c, w);
    LeaveInv(Elect(d), c, w);
  }

  /** The wait loop's test sleeps or starts muxing: only c's own pc and the muxer change. */
  lemma EnterWaits(s: State, c: Id, w: Option<Id>)
    requires TagInv(s) && QueueInv(s) && WaiterInv(s) && Enabled(s, Enter(c, w)) && s.callers[c].p.None?
    ensures TagSlot(s, c)
    ensures var s' := EnterStep(s, c, w); TagInv(s') && QueueInv(s') && WaiterInv(s')
  {
    assert TagSlot(s, c) by { assert Live(s, c); }
    var s' := EnterStep(s, c, w);
    assert forall x :: Live(s', x) <==> Live(s, x);
    TagFrame(s, s');
    WaiterFrame(s, s', w);
  }

  lemma EnterMuxer(s: State, c: Id, w: Option<Id>)
    requires QueueInv(s) && MuxerInv(s) && SleeperInv(s) && ReplyInv(s)
    requires TagSlot(s, c) && Enabled(s, Enter(c, w)) && s.callers[c].p.None?
    ensures var s' := EnterStep(s, c, w); MuxerInv(s') && SleeperInv(s') && ReplyInv(s')
  {
    assert c in s.sleep;
  }

  lemma EnterInv(s: State, c: Id, w: Option<Id>)
    requires Inv(s) && Enabled(s, Enter(c, w))
    ensures TagSlot(s, c) && Inv(EnterStep(s, c, w))
  {
    assert TagSlot(s, c) by { assert Live(s, c); }
    if s.callers[c].p.Some? {
      LeaveInv(s, c, w);
    } else {
      EnterWaits(s, c, w);
      EnterMuxer(s, c, w);
    }
  }

  /** What gettag and enqueue change when there is a free tag. */
  ghost predicate Started(s: State, s': State, c: Id, k: nat) {
    && Ok(s'.tags) && s'.tags.mintag == s.tags.mintag && s'.tags.maxtag == s.tags.maxtag
    && s'.tags.nwait == s.tags.nwait + 1
    && |s.tags.wait| <= |s'.tags.wait| && k < |s'.tags.wait| && s'.tags.wait[k] == Some(c)
    && (k < |s.tags.wait| ==> s.tags.wait[k].None?)
    && (forall i :: 0 <= i < |s.tags.wait| && i != k ==> s'.tags.wait[i] == s.tags.wait[i])
    && (forall i :: |s.tags.wait| <= i < |s'.tags.wait| && i != k ==> s'.tags.wait[i].None?)
    && s'.sleep == [c] + s.sleep && s'.muxer == s.muxer
    && s'.callers == s.callers[c := Caller(Sending, k + s.tags.mintag, None)]
  }

  lemma StartStarted(s: State, c: Id)
    requires Ok(s.tags) && !Blocked(s.tags)
    ensures Started(s, StartStep(s, c), c, Slot(s.tags))
  {
    GetTagTotal(s.tags, c);
    GrowOk(s.tags);
  }

  lemma StartTags(s: State, s': State, c: Id, k: nat)
    requires TagInv(s) && Started(s, s', c, k) && !Live(s, c)
    ensures TagInv(s')
  {
    hide Ok;
    forall x | Live(s', x)
      ensures TagSlot(s', x)
    {
      if x != c {
        assert Live(s, x) && TagSlot(s, x);
      }
    }
    forall i | 0 <= i < |s'.tags.wait| && s'.tags.wait[i].Some?
      ensures Live(s', s'.tags.wait[i].value) && s'.callers[s'.tags.wait[i].value].tag == i + s'.tags.mintag
    {
      if i != k {
        assert i < |s.tags.wait|;
        assert Live(s, s.tags.wait[i].value);
      }
    }
  }

  /** Only c itself may change between waiting, ready and neither. */
  ghost predicate WaitersBut(s: State, s': State, c: Id) {
    forall d :: d != c ==> (Waiter(s', d) <==> Waiter(s, d)) && (Ready(s', d) <==> Ready(s, d))
  }

  lemma ReadyBut(s: State, s': State, c: Id)
    requires WaitersBut(s, s', c) && !Ready(s', c)
    ensures ReadySet(s') == ReadySet(s) - {c}
  {
    assert forall d :: d in ReadySet(s) <==> Ready(s, d);
    assert forall d :: d in ReadySet(s') <==> Ready(s', d);
  }

  lemma StartWaitersBlocked(s: State, c: Id)
    requires TagInv(s) && WaiterInv(s) && Enabled(s, Start(c)) && Blocked(s.tags)
    ensures WaiterInv(StartStep(s, c))
  {
    var s' := StartStep(s, c);
    assert WaitersBut(s, s', c);
    ReadyBut(s, s', c);
    CountFull(s.tags.wait);
    assert Waiter(s', c);
  }

  lemma StartWaiters(s: State, s': State, c: Id, k: nat)
    requires Ok(s.tags) && WaiterInv(s) && Started(s, s', c, k) && !Blocked(s.tags) && (c !in s.callers || Waiter(s, c))
    ensures WaiterInv(s')
  {
    hide Ok, Started;
    StartedWaiters(s, s', c, k);
    ReadyBut(s, s', c);
  }

  lemma StartedWaiters(s: State, s': State, c: Id, k: nat)
    requires Ok(s.tags) && Started(s, s', c, k) && !Blocked(s.tags)
    ensures WaitersBut(s, s', c) && !Waiter(s', c)
    ensures s'.tags.nwait == s.tags.nwait + 1 && s'.tags.mintag == s.tags.mintag && s'.tags.maxtag == s.tags.maxtag
    ensures |s.tags.wait| <= |s'.tags.wait|
    ensures |s.tags.wait| > 0 && |s.tags.wait| >= s.tags.maxtag - s.tags.mintag ==> |s'.tags.wait| == |s.tags.wait|
  {
  }

  /** A new caller joins the front of the queue and changes nothing else there. */
  lemma StartQueue(s: State, s': State, c: Id)
    requires QueueInv(s) && MuxerInv(s) && !Live(s, c)
    requires s'.sleep == [c] + s.sleep && s'.muxer == s.muxer
    requires exists tag :: s'.callers == s.callers[c := Caller(Sending, tag, None)]
    ensures QueueInv(s') && MuxerInv(s')
  {
    assert c !in s.sleep;
    assert forall x :: x != c ==> (Live(s', x) <==> Live(s, x));
  }

  lemma StartReplies(s: State, s': State, c: Id)
    requires SleeperInv(s) && ReplyInv(s) && s'.muxer == s.muxer
    requires exists k: Caller ::
      s'.callers == s.callers[c := k] && k.p.None? && (k.pc.Sending? || (k.pc.TagWait? && k.tag == 0))
    ensures SleeperInv(s') && ReplyInv(s')
  {
  }

  lemma StartBlocked(s: State, c: Id)
    requires Inv(s) && Enabled(s, Start(c)) && Blocked(s.tags)
    ensures Inv(StartStep(s, c))
  {
    var s' := StartStep(s, c);
    StartWaitersBlocked(s, c);
    assert forall x :: Live(s', x) <==> Live(s, x);
    TagFrame(s, s');
    StartReplies(s, s', c);
  }

  lemma StartInv(s: State, c: Id)
    requires Inv(s) && Enabled(s, Start(c))
    ensures Inv(StartStep(s, c))
  {
    if Blocked(s.tags) {
      StartBlocked(s, c);
    } else {
      StartStarted(s, c);
      StartedInv(s, StartStep(s, c), c, Slot(s.tags));
    }
  }

  lemma StartedInv(s: State, s': State, c: Id, k: nat)
    requires Inv(s) && Started(s, s', c, k) && !Blocked(s.tags) && (c !in s.callers || Waiter(s, c))
    ensures Inv(s')
  {
    hide Ok, QueueInv, MuxerInv, SleeperInv, ReplyInv, WaiterInv;
    StartTags(s, s', c, k);
    StartWaiters(s, s', c, k);
    StartQueue(s, s', c);
    StartReplies(s, s', c);
  }

  lemma MountedInv(s: State)
    requires Inv(s) && Enabled(s, Mounted)
    ensures Inv(Step(s, Mounted))
  {
    var s' := Step(s, Mounted);
    assert forall x :: !Live(s, x) && !Live(s', x) && !Waiter(s', x);
    CountFull(s.tags.wait);
  }

  /** The invariant is inductive. */
  lemma StepInv(s: State, l: Label)
    requires Inv(s) && Enabled(s, l)
    ensures Inv(Step(s, l))
    ensures (l.Enter? || l.Recv? || l.Fail?) ==> TagSlot(s, l.c)
  {
    match l
    case Start(c) => StartInv(s, c);
    case Enter(c, w) => EnterInv(s, c, w);
    case Recv(c, f, w) => RecvInv(s, c, f, w);
    case Fail(c, w) => FailInv(s, c, w);
    case Mounted => MountedInv(s);
  }

  /** The invariant holds after every run from the initial state. */
  lemma {:induction false} RunInv(s: State, ls: seq<Label>)
    requires Inv(s) && Possible(s, ls)
    ensures Inv(Exec(s, ls))
    decreases |ls|
  {
    if ls != [] {
      StepInv(s, ls[0]);
      RunInv(Step(s, ls[0]), ls[1..]);
    }
  }

  lemma InitInv()
    ensures Inv(Init())
  {
  }

  /**
   * In every interleaving: at most one caller receives, and it is the muxer; the
   * muxer is still queued and unanswered; when there is no muxer, nobody sleeps
   * unanswered; an unsignalled sleeper always has another caller as muxer.
   */
  lemma EveryInterleaving(ls: seq<Label>)
    requires Possible(Init(), ls)
    ensures var s := Exec(Init(), ls);
      && (forall a, b :: a in s.callers && b in s.callers && s.callers[a].pc.Receiving? && s.callers[b].pc.Receiving? ==>
            a == b && s.muxer == Some(a))
      && (s.muxer.Some? ==> s.muxer.value in s.sleep && Live(s, s.muxer.value) && s.callers[s.muxer.value].p.None?)
      && (s.muxer.None? ==> forall c :: c in s.callers && s.callers[c].pc.Asleep? ==> s.callers[c].p.Some?)
      && (forall c :: c in s.callers && s.callers[c].pc == Asleep(false) ==>
            s.callers[c].p.None? && s.muxer.Some? && s.muxer != Some(c))
  {
    InitInv();
    RunInv(Init(), ls);
  }

  /** Outstanding tags are distinct; nwait counts them; none of 0..255 is NOTAG. */
  lemma TagsInEveryRun(ls: seq<Label>)
    requires Possible(Init(), ls)
    ensures var s := Exec(Init(), ls);
      && (forall a, b :: Live(s, a) && Live(s, b) && s.callers[a].tag == s.callers[b].tag ==> a == b)
      && s.tags.nwait == Count(s.tags.wait)
      && |s.tags.wait| <= 256
      && (s.tags.mintag == 0 ==> forall c :: Live(s, c) ==> s.callers[c].tag < 256)
  {
    hide Exec, Possible, QueueInv, MuxerInv, SleeperInv, ReplyInv, WaiterInv;
    InitInv();
    RunInv(Init(), ls);
    var s := Exec(Init(), ls);
    forall a, b | Live(s, a) && Live(s, b) && s.callers[a].tag == s.callers[b].tag
      ensures a == b
    {
      assert TagSlot(s, a) && TagSlot(s, b);
    }
    forall c | Live(s, c) && s.tags.mintag == 0
      ensures s.callers[c].tag < 256
    {
      assert TagSlot(s, c);
    }
  }

  /** Any caller may start, any sleeper may wake up, signalled or not, and any receiver may read anything or fail. */
  lemma AnyoneMayStep(s: State, c: Id, f: Reply) returns (w: Option<Id>)
    ensures WakeChoice(s, w)
    ensures c !in s.callers || s.callers[c].pc.TagWait? ==> Enabled(s, Start(c))
    ensures c in s.callers && (s.callers[c].pc.Sending? || s.callers[c].pc.Asleep?) ==> Enabled(s, Enter(c, w))
    ensures c in s.callers && s.callers[c].pc.Receiving? ==> Enabled(s, Recv(c, f, w)) && Enabled(s, Fail(c, w))
  {
    if d :| Waiter(s, d) && !Ready(s, d) {
      w := Some(d);
    } else {
      w := None;
    }
  }
}
