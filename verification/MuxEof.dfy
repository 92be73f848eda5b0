/** After the stream ends: handing the muxer role along drains every caller. */
module MuxEof {
  import opened Basics
  import opened TagTable
  import opened Mux
  import opened MuxInvariant
  import opened MuxRuns

  /** Steps possible once every receive fails and no new rpc is started. */
  ghost predicate EofStep(s: State, l: Label) {
    Enabled(s, l) && (l.Enter? || l.Fail? || (l.Start? && l.c in s.callers))
  }

  // Callers by how far they still have to go.
  function Unreturned(s: State): set<Id> { set c | c in s.callers && !s.callers[c].pc.Returned? }
  function Idle(s: State): set<Id> { set c | c in Unreturned(s) && !s.callers[c].pc.Receiving? }
  function Early(s: State): set<Id> { set c | c in s.callers && (s.callers[c].pc.Sending? || s.callers[c].pc.TagWait?) }
  function Untagged(s: State): set<Id> { set c | c in s.callers && s.callers[c].pc.TagWait? }

  function Distance(s: State): nat {
    |Unreturned(s)| + |Idle(s)| + |Early(s)| + |Untagged(s)|
  }

  /** The measure: distance first, then the signals not yet acted upon. */
  function Rank(s: State): nat {
    Distance(s) * (|s.callers| + 1) + |ReadySet(s)|
  }

  lemma SubsetSize<T>(a: set<T>, b: set<T>)
    requires a <= b
    ensures |a| <= |b|
    ensures a != b ==> |a| < |b|
  {
    assert b == a + (b - a);
    if a != b {
      assert b - a != {};
    }
  }

  /** c moved; every other caller is at the stage it was. */
  ghost predicate Advanced(s: State, s': State, c: Id) {
    && c in s.callers && c in s'.callers
    && forall x :: x != c ==> Kept(s, s', x)
  }

  /** How many stages c still has to leave. */
  function Stage(pc: Pc): nat {
    match pc
    case Returned(_) => 0
    case Receiving => 1
    case Asleep(_) => 2
    case Sending => 3
    case TagWait(_) => 4
  }

  lemma AdvancedStages(s: State, s': State, c: Id)
    requires Advanced(s, s', c)
    ensures s'.callers.Keys == s.callers.Keys
    ensures forall x :: x in s.callers && x != c ==> Stage(s'.callers[x].pc) == Stage(s.callers[x].pc)
  {
    forall x | x != c ensures x in s'.callers <==> x in s.callers { assert Kept(s, s', x); }
    forall x | x in s.callers && x != c ensures Stage(s'.callers[x].pc) == Stage(s.callers[x].pc) { assert Kept(s, s', x); }
  }

  lemma AdvancedDistance(s: State, s': State, c: Id)
    requires Advanced(s, s', c) && Stage(s'.callers[c].pc) < Stage(s.callers[c].pc)
    ensures Distance(s') < Distance(s)
  {
    AdvancedStages(s, s', c);
    assert Unreturned(s') <= Unreturned(s) && Idle(s') <= Idle(s) && Early(s') <= Early(s) && Untagged(s') <= Untagged(s);
    SubsetSize(Unreturned(s'), Unreturned(s));
    SubsetSize(Idle(s'), Idle(s));
    SubsetSize(Early(s'), Early(s));
    SubsetSize(Untagged(s'), Untagged(s));
    var n := Stage(s.callers[c].pc);
    if n == 1 { assert c in Unreturned(s) && c !in Unreturned(s'); }
    else if n == 2 { assert c in Idle(s) && c !in Idle(s'); }
    else if n == 3 { assert c in Early(s) && c !in Early(s'); }
    else { assert c in Untagged(s) && c !in Untagged(s'); }
  }

  lemma Lexicographic(a: nat, r: nat, a': nat, r': nat, n: nat)
    requires r' < n
    requires a' < a
    ensures a' * n + r' < a * n + r
  {
    assert a * n >= (a' + 1) * n;
  }

  lemma RankFalls(s: State, s': State, c: Id)
    requires Advanced(s, s', c) && Stage(s'.callers[c].pc) < Stage(s.callers[c].pc)
    ensures Rank(s') < Rank(s)
  {
    AdvancedDistance(s, s', c);
    AdvancedStages(s, s', c);
    SubsetSize(ReadySet(s'), s'.callers.Keys);
    assert |s'.callers.Keys| == |s'.callers| && |s.callers.Keys| == |s.callers|;
    Lexicographic(Distance(s), |ReadySet(s)|, Distance(s'), |ReadySet(s')|, |s.callers| + 1);
  }

  lemma EnterRank(s: State, c: Id, w: Option<Id>)
    requires Inv(s) && Enabled(s, Enter(c, w))
    ensures var s' := Step(s, Enter(c, w)); s' == s || Rank(s') < Rank(s)
  {
    var s' := Step(s, Enter(c, w));
    EnterShape(s, c, w);
    assert Live(s, c) && TagSlot(s, c);
    var k := s.callers[c];
    if k.p.None? && s.muxer.Some? && s.muxer != Some(c) && k.pc.Asleep? {
      assert k.pc == Asleep(false);
      assert s'.callers == s.callers;
    } else {
      RankFalls(s, s', c);
    }
  }

  lemma SameDistance(s: State, s': State, c: Id)
    requires Waiter(s, c) && Waiter(s', c) && s'.callers == s.callers[c := s'.callers[c]]
    ensures Distance(s') == Distance(s)
  {
    assert Unreturned(s') == Unreturned(s) && Idle(s') == Idle(s) && Early(s') == Early(s) && Untagged(s') == Untagged(s);
  }

  /** A sleeper on tagrend that finds the table full again only gives up its signal. */
  lemma BlockedRank(s: State, c: Id)
    requires Waiter(s, c) && Blocked(s.tags) && s.callers[c].p.None? && s.callers[c].tag == 0
    ensures var s' := Step(s, Start(c)); s' == s || Rank(s') < Rank(s)
  {
    var s' := Step(s, Start(c));
    if s.callers[c].pc == TagWait(false) {
      assert s'.callers == s.callers;
    } else {
      assert s'.callers.Keys == s.callers.Keys;
      assert |s'.callers| == |s'.callers.Keys| == |s.callers|;
      SameDistance(s, s', c);
      assert ReadySet(s') == ReadySet(s) - {c} && c in ReadySet(s);
    }
  }

  /** Every step after EOF leaves the state alone (a spurious wakeup) or lowers the rank. */
  lemma EofRank(s: State, l: Label)
    requires Inv(s) && EofStep(s, l)
    ensures Step(s, l) == s || Rank(Step(s, l)) < Rank(s)
  {
    match l
    case Enter(c, w) => EnterRank(s, c, w);
    case Fail(c, w) =>
      FailShape(s, c, w);
      RankFalls(s, Step(s, l), c);
    case Start(c) =>
      StartShape(s, c);
      if Blocked(s.tags) { BlockedRank(s, c); } else { RankFalls(s, Step(s, l), c); }
  }

  lemma ChooseWake(s: State) returns (w: Option<Id>)
    ensures WakeChoice(s, w)
  {
    if d :| Waiter(s, d) && !Ready(s, d) {
      w := Some(d);
    } else {
      w := None;
    }
  }

  /**
   * No caller is stranded: while one has not returned, either some caller is
   * blocked only in muxrecv, or some caller can move without a spurious wakeup
   * (it is sending, or it has been signalled), and moving changes the state.
   */
  lemma NotStranded(s: State, c: Id) returns (l: Label)
    requires Inv(s) && c in s.callers && !s.callers[c].pc.Returned?
    ensures EofStep(s, l) && Step(s, l) != s
    ensures var k := s.callers[l.c];
      (l.Fail? && k.pc.Receiving?) || k.pc.Sending? || k.pc == Asleep(true) || k.pc == TagWait(true)
  {
    var w := ChooseWake(s);
    if d :| d in s.callers && s.callers[d].pc.Receiving? {
      l := Fail(d, w);
      FailShape(s, d, w);
    } else if d :| d in s.callers && (s.callers[d].pc.Sending? || s.callers[d].pc == Asleep(true)) {
      l := Enter(d, w);
      assert Live(s, d) && TagSlot(s, d);
      EnterShape(s, d, w);
    } else {
      NobodyLive(s);
      l := Start(WakeableWaiter(s, c));
      StartShape(s, l.c);
    }
  }

  /** If nobody receives, sends, or has been signalled, nobody holds a tag. */
  lemma NobodyLive(s: State)
    requires Inv(s)
    requires forall d :: d in s.callers ==>
      !s.callers[d].pc.Receiving? && !s.callers[d].pc.Sending? && s.callers[d].pc != Asleep(true)
    ensures s.sleep == [] && s.tags.nwait == 0 && s.muxer.None?
    ensures forall d :: !Live(s, d)
  {
    EmptyOrMember(s.sleep);
    forall d ensures !Live(s, d) && d !in s.sleep {
    }
    CountFull(s.tags.wait);
  }

  /** With every tag free, the waiter invariant yields a signalled waiter. */
  ghost function WakeableWaiter(s: State, c: Id): (d: Id)
    requires Inv(s) && Waiter(s, c) && s.tags.nwait == 0
    ensures Ready(s, d) && !Blocked(s.tags)
  {
    assert |s.tags.wait| > 0;
    assert Ready(s, c) || |ReadySet(s)| > 0;
    if Ready(s, c) then c else
    assert ReadySet(s) != {};
    var d :| d in ReadySet(s);
    d
  }

  // ---- Draining ----

  /** A run after EOF without spurious wakeups. */
  ghost predicate Draining(s: State, ls: seq<Label>)
    decreases |ls|
  {
    ls != [] ==> EofStep(s, ls[0]) && Step(s, ls[0]) != s && Draining(Step(s, ls[0]), ls[1..])
  }

  /** What c will have returned when it is done: its reply so far, else nil. */
  function Outcome(s: State, c: Id): Option<Reply>
    requires c in s.callers
  {
    s.callers[c].p
  }

  lemma EofKeepsOutcome(s: State, l: Label, c: Id)
    requires Inv(s) && EofStep(s, l) && c in s.callers
    ensures c in Step(s, l).callers && Outcome(Step(s, l), c) == Outcome(s, c)
  {
    StepSettles(s, l, c);
  }

  /** However the scheduler picks, a draining run is no longer than the rank. */
  lemma {:induction false} DrainBounded(s: State, ls: seq<Label>)
    requires Inv(s) && Draining(s, ls)
    ensures |ls| + Rank(Exec(s, ls)) <= Rank(s)
    ensures Inv(Exec(s, ls))
    ensures forall c :: c in s.callers ==> c in Exec(s, ls).callers && Outcome(Exec(s, ls), c) == Outcome(s, c)
    decreases |ls|
  {
    if ls != [] {
      var s' := Step(s, ls[0]);
      StepInv(s, ls[0]);
      EofRank(s, ls[0]);
      DrainBounded(s', ls[1..]);
      forall c | c in s.callers
        ensures c in Exec(s, ls).callers && Outcome(Exec(s, ls), c) == Outcome(s, c)
      {
        EofKeepsOutcome(s, ls[0], c);
      }
    }
  }

  /**
   * A draining run that cannot be continued has drained: every caller has
   * returned, the unanswered ones nil, and the queue, the tag table and the
   * muxer are empty.
   */
  lemma DrainComplete(s: State, ls: seq<Label>)
    requires Inv(s) && Draining(s, ls)
    requires forall l :: EofStep(Exec(s, ls), l) ==> Step(Exec(s, ls), l) == Exec(s, ls)
    ensures var z := Exec(s, ls);
      && (forall c :: c in s.callers ==> c in z.callers && z.callers[c].pc == Returned(s.callers[c].p))
      && z.sleep == [] && z.tags.nwait == 0 && z.muxer.None?
  {
    DrainBounded(s, ls);
    var z := Exec(s, ls);
    forall c | c in z.callers ensures z.callers[c].pc.Returned? {
      if !z.callers[c].pc.Returned? {
        var l := NotStranded(z, c);
      }
    }
    NobodyLive(z);
    forall c | c in s.callers ensures z.callers[c].pc == Returned(s.callers[c].p) {
      assert Outcome(z, c) == Outcome(s, c);
    }
  }

  /** From any state the invariant allows, some run drains completely. */
  lemma {:induction false} DrainExists(s: State) returns (ls: seq<Label>)
    requires Inv(s)
    ensures Draining(s, ls)
    ensures forall c :: c in Exec(s, ls).callers ==> Exec(s, ls).callers[c].pc.Returned?
    decreases Rank(s)
  {
    if c :| c in s.callers && !s.callers[c].pc.Returned? {
      var l := NotStranded(s, c);
      StepInv(s, l);
      EofRank(s, l);
      var rest := DrainExists(Step(s, l));
      ls := [l] + rest;
      assert ls[1..] == rest;
    } else {
      ls := [];
    }
  }
}
