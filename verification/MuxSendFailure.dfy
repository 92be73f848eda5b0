/** A failed send: when sendrpc's error branch keeps the multiplexer sound, and when not. */
module MuxSendFailure {
  import opened Basics
  import opened TagTable
  import opened Mux
  import opened MuxInvariant

  /** The state in which sendrpc's error branch runs: tagged and queued, and the send went wrong. */
  ghost predicate Failing(s: State, c: Id, w: Option<Id>) {
    c in s.callers && s.callers[c].pc.Sending? && WakeChoice(s, w)
  }

  /**
   * The error branch works and keeps the invariant exactly when the rpc was not elected
   * and no reply to it has arrived: after a reply it is off the queue, and taking it
   * off again follows nil links.
   */
  lemma SendFailureSoundIff(s: State, c: Id, w: Option<Id>)
    requires Inv(s) && Failing(s, c, w)
    ensures TagSlot(s, c)
    ensures SendFailed(s, c, w).Some? && Inv(SendFailed(s, c, w).value) <==> s.callers[c].p.None? && s.muxer != Some(c)
  {
    assert Live(s, c) && TagSlot(s, c);
    if s.callers[c].p.None? {
      WithoutNoDup(s.sleep, c);
      var d := s.(sleep := Without(s.sleep, c));
      assert forall x :: Live(d, x) <==> Live(s, x);
      TagFrame(s, d);
      WaiterFrame(s, d, w);
      if s.muxer != Some(c) {
        LeaveInv(d, c, w);
      } else {
        assert c !in SendFailed(s, c, w).value.sleep;
      }
    }
  }

  // ---- What goes wrong ----

  /** The muxer is a caller that has returned, and nobody receives. */
  ghost predicate Dead(s: State, c: Id) {
    && s.muxer == Some(c) && c in s.callers && s.callers[c].pc.Returned?
    && forall x :: x in s.callers ==> !s.callers[x].pc.Receiving?
  }

  /** A caller without a reply, or one still to come. */
  ghost predicate Doomed(s: State, d: Id) {
    d in s.callers ==> !s.callers[d].pc.Returned? && s.callers[d].p.None?
  }

  lemma FailureKills(s: State, c: Id, w: Option<Id>, d: Id)
    requires Inv(s) && Failing(s, c, w) && s.muxer == Some(c) && d != c && Doomed(s, d)
    ensures TagSlot(s, c) && SendFailed(s, c, w).Some?
    ensures Dead(SendFailed(s, c, w).value, c) && Doomed(SendFailed(s, c, w).value, d)
  {
    assert Live(s, c) && TagSlot(s, c) && c in s.sleep;
  }

  lemma StepDead(s: State, c: Id, l: Label, d: Id)
    requires Dead(s, c) && Doomed(s, d) && Enabled(s, l)
    ensures Dead(Step(s, l), c) && Doomed(Step(s, l), d)
  {
  }

  lemma {:induction false} RunDead(s: State, c: Id, ls: seq<Label>, d: Id)
    requires Dead(s, c) && Doomed(s, d) && Possible(s, ls)
    ensures Dead(Exec(s, ls), c) && Doomed(Exec(s, ls), d)
    decreases |ls|
  {
    if ls != [] {
      StepDead(s, c, ls[0], d);
      RunDead(Step(s, ls[0]), c, ls[1..], d);
    }
  }

  /**
   * If the elected rpc's send fails, the connection is dead: whatever happens from
   * then on, nobody ever receives again, and no caller that had no reply by then,
   * nor any later one, ever returns.
   */
  lemma SendFailureStrands(s: State, c: Id, w: Option<Id>, ls: seq<Label>, d: Id)
    requires Inv(s) && Failing(s, c, w) && s.muxer == Some(c)
    requires d != c && (d in s.callers ==> !s.callers[d].pc.Returned? && s.callers[d].p.None?)
    ensures TagSlot(s, c) && SendFailed(s, c, w).Some?
    ensures Possible(SendFailed(s, c, w).value, ls) ==>
      var z := Exec(SendFailed(s, c, w).value, ls);
      && (forall x :: x in z.callers ==> !z.callers[x].pc.Receiving?)
      && !(d in z.callers && z.callers[d].pc.Returned?)
  {
    FailureKills(s, c, w, d);
    if Possible(SendFailed(s, c, w).value, ls) {
      RunDead(SendFailed(s, c, w).value, c, ls, d);
    }
  }

  lemma {:induction false} Append(s: State, ls: seq<Label>, l: Label)
    requires Possible(s, ls) && Enabled(Exec(s, ls), l)
    ensures Possible(s, ls + [l]) && Exec(s, ls + [l]) == Step(Exec(s, ls), l)
    decreases |ls|
  {
    if ls == [] {
      assert ls + [l] == [l];
    } else {
      assert (ls + [l])[1..] == ls[1..] + [l];
      Append(Step(s, ls[0]), ls[1..], l);
    }
  }

  const MOUNT0: State := State(Tags([Some(0)], 1, 0, NOTAG, NOTAG + 1), [0], None, map[0 := Caller(Sending, NOTAG, None)])
  const MOUNT1: State := MOUNT0.(muxer := Some(0), callers := map[0 := Caller(Receiving, NOTAG, None)])
  const MOUNT2: State :=
    State(Tags([None], 0, 0, NOTAG, NOTAG + 1), [], None,
          map[0 := Caller(Returned(Some(Reply(NOTAG, 0))), NOTAG, Some(Reply(NOTAG, 0)))])

  lemma MountStart()
    ensures Step(Init(), Start(0)) == MOUNT0 && Enabled(Init(), Start(0))
  {
  }

  lemma MountEnter()
    ensures Step(MOUNT0, Enter(0, None)) == MOUNT1 && Enabled(MOUNT0, Enter(0, None))
  {
  }

  lemma MountRecv()
    ensures Step(MOUNT1, Recv(0, Reply(NOTAG, 0), None)) == MOUNT2 && Enabled(MOUNT1, Recv(0, Reply(NOTAG, 0), None))
    ensures Enabled(MOUNT2, Mounted)
  {
    var r := Reply(NOTAG, 0);
    var d := Dispatch(MOUNT1, r);
    assert d == MOUNT1.(sleep := [], callers := map[0 := Caller(Receiving, NOTAG, Some(r))]);
    assert Elect(d) == d.(muxer := None);
    assert TagSlot(Elect(d), 0);
  }

  /** The mount rpc comes and goes, leaving the tags 0..254 and an idle multiplexer. */
  lemma MountDone() returns (ls: seq<Label>)
    ensures Possible(Init(), ls)
    ensures Exec(Init(), ls) ==
      State(Tags([None], 0, 0, 0, 255), [], None,
            map[0 := Caller(Returned(Some(Reply(NOTAG, 0))), NOTAG, Some(Reply(NOTAG, 0)))])
  {
    hide Enabled, StartStep, EnterStep, RecvStep, Init;
    MountStart();
    MountEnter();
    MountRecv();
    var r := Recv(0, Reply(NOTAG, 0), None);
    Append(Init(), [], Start(0));
    Append(Init(), [] + [Start(0)], Enter(0, None));
    Append(Init(), [] + [Start(0)] + [Enter(0, None)], r);
    Append(Init(), [] + [Start(0)] + [Enter(0, None)] + [r], Mounted);
    ls := [] + [Start(0)] + [Enter(0, None)] + [r] + [Mounted];
  }

  /** From there, rpc 2 is elected while it is still sending: the three regions before. */
  lemma TwoCallers(s4: State, k: Caller)
    requires s4 == State(Tags([None], 0, 0, 0, 255), [], None, map[0 := k]) && k.pc.Returned?
    ensures var s7 := Step(Step(Step(s4, Start(1)), Enter(1, None)), Start(2));
      s7 == State(Tags([Some(1), Some(2)], 2, 1, 0, 255), [2, 1], Some(1),
                  map[0 := k, 1 := Caller(Receiving, 0, None), 2 := Caller(Sending, 1, None)])
    ensures Enabled(s4, Start(1)) && Enabled(Step(s4, Start(1)), Enter(1, None))
    ensures Enabled(Step(Step(s4, Start(1)), Enter(1, None)), Start(2))
  {
    var s5 := Step(s4, Start(1));
    assert s5 == State(Tags([Some(1)], 1, 0, 0, 255), [1], None, map[0 := k, 1 := Caller(Sending, 0, None)]);
    var s6 := Step(s5, Enter(1, None));
    assert s6 == s5.(muxer := Some(1), callers := map[0 := k, 1 := Caller(Receiving, 0, None)]);
    assert Grow(s6.tags) == Tags([Some(1), None], 1, 1, 0, 255);
  }

  lemma Handover(s7: State, k: Caller)
    requires k.pc.Returned?
    requires s7 == State(Tags([Some(1), Some(2)], 2, 1, 0, 255), [2, 1], Some(1),
                         map[0 := k, 1 := Caller(Receiving, 0, None), 2 := Caller(Sending, 1, None)])
    ensures Enabled(s7, Recv(1, Reply(0, 1), None))
    ensures var s8 := Step(s7, Recv(1, Reply(0, 1), None));
      Failing(s8, 2, None) && s8.muxer == Some(2) && s8.callers[2].p.None?
  {
    var f := Reply(0, 1);
    assert Dispatch(s7, f) == s7.(sleep := [2], callers := s7.callers[1 := Caller(Receiving, 0, Some(f))]);
  }

  /** The failing family is reachable. */
  lemma ElectedWhileSending() returns (ls: seq<Label>)
    ensures Possible(Init(), ls)
    ensures var s := Exec(Init(), ls);
      Failing(s, 2, None) && s.muxer == Some(2) && s.callers[2].p.None?
  {
    ls := MountDone();
    var s4 := Exec(Init(), ls);
    TwoCallers(s4, s4.callers[0]);
    Append(Init(), ls, Start(1));
    Append(Init(), ls + [Start(1)], Enter(1, None));
    Append(Init(), ls + [Start(1)] + [Enter(1, None)], Start(2));
    ls := ls + [Start(1)] + [Enter(1, None)] + [Start(2)];
    Handover(Exec(Init(), ls), s4.callers[0]);
    Append(Init(), ls, Recv(1, Reply(0, 1), None));
    ls := ls + [Recv(1, Reply(0, 1), None)];
  }
}
