/**
 * The client rpc multiplexer as a step system. A caller is one muxrpc
 * invocation. Every step is one region that holds the connection lock `lk`:
 * between two steps the lock is free, so a run of steps is an interleaving of
 * any number of callers. Sleepers may be stepped without having been signalled,
 * which is a spurious wakeup.
 */
module Mux {
  import opened Basics
  import opened TagTable

  datatype Reply = Reply(tag: nat, payload: nat)

  datatype Pc =
    | TagWait(signalled: bool)          // asleep on tagrend inside gettag
    | Sending                           // tagged and queued, lock released to send
    | Asleep(signalled: bool)           // asleep on its own rendezvous
    | Receiving                         // in muxrecv
    | Returned(result: Option<Reply>)   // muxrpc has returned

  datatype Caller = Caller(pc: Pc, tag: nat, p: Option<Reply>)

  datatype State = State(tags: Tags, sleep: seq<Id>, muxer: Option<Id>, callers: map<Id, Caller>)

  datatype Label =
    | Start(c: Id)                              // gettag and enqueue, or sleep on tagrend
    | Enter(c: Id, w: Option<Id>)               // the test of the wait loop
    | Recv(c: Id, f: Reply, w: Option<Id>)      // a message was read and dispatched
    | Fail(c: Id, w: Option<Id>)                // muxrecv returned nil
    | Mounted                                   // ixp_mountfd switches to the tags 0..254

  /** The client as ixp_mountfd sets it up, before the first rpc. */
  function Init(): State {
    State(Tags([], 0, 0, NOTAG, NOTAG + 1), [], None, map[])
  }

  /** Tagged and not yet returned. */
  predicate Live(s: State, c: Id) {
    c in s.callers && (s.callers[c].pc.Sending? || s.callers[c].pc.Asleep? || s.callers[c].pc.Receiving?)
  }

  predicate Waiter(s: State, c: Id) {
    c in s.callers && s.callers[c].pc.TagWait?
  }

  predicate Ready(s: State, c: Id) {
    c in s.callers && s.callers[c].pc == TagWait(true)
  }

  function Woken(k: Caller): Caller {
    if k.pc.Asleep? then k.(pc := Asleep(true)) else k
  }

  /** The rpc to which a message with this tag is handed, if any. */
  function Target(t: Tags, sleep: seq<Id>, tag: int): Option<Id> {
    var i := tag - t.mintag;
    if i < 0 || i >= |t.wait| then None            // unfeasible tag
    else if t.wait[i].None? then None              // no such rpc
    else if t.wait[i].value !in sleep then None    // already answered: prev == nil
    else t.wait[i]
  }

  function Dispatch(s: State, f: Reply): State {
    match Target(s.tags, s.sleep, f.tag)
    case None => s
    case Some(r) =>
      if r !in s.callers then s else
      s.(sleep := Without(s.sleep, r), callers := s.callers[r := Woken(s.callers[r]).(p := Some(f))])
  }

  function Elect(s: State): State {
    if s.sleep == [] then s.(muxer := None)
    else if s.sleep[0] !in s.callers then s
    else s.(muxer := Some(s.sleep[0]), callers := s.callers[s.sleep[0] := Woken(s.callers[s.sleep[0]])])
  }

  predicate TagSlot(s: State, c: Id) {
    && c in s.callers
    && 0 <= s.callers[c].tag - s.tags.mintag < |s.tags.wait|
    && s.tags.wait[s.callers[c].tag - s.tags.mintag] == Some(c)
    && s.tags.nwait > 0
  }

  /** puttag wakes one rpc asleep on tagrend, when there is one. */
  ghost predicate WakeChoice(s: State, w: Option<Id>) {
    if w.Some? then Waiter(s, w.value) && !Ready(s, w.value)
    else forall d :: Waiter(s, d) ==> Ready(s, d)
  }

  function WakeTag(m: map<Id, Caller>, w: Option<Id>): map<Id, Caller> {
    if w.Some? && w.value in m then m[w.value := m[w.value].(pc := TagWait(true))] else m
  }

  /** The tail of muxrpc: release the tag, wake a tag waiter, return r.p. */
  function Return(s: State, c: Id, w: Option<Id>): State
    requires TagSlot(s, c)
  {
    var k := s.callers[c];
    s.(tags := Release(s.tags, k.tag - s.tags.mintag),
       callers := WakeTag(s.callers[c := k.(pc := Returned(k.p))], w))
  }

  ghost predicate Enabled(s: State, l: Label) {
    match l
    case Start(c) => c !in s.callers || Waiter(s, c)
    case Enter(c, w) => Live(s, c) && !s.callers[c].pc.Receiving? && WakeChoice(s, w)
    case Recv(c, f, w) => c in s.callers && s.callers[c].pc.Receiving? && WakeChoice(s, w)
    case Fail(c, w) => c in s.callers && s.callers[c].pc.Receiving? && WakeChoice(s, w)
    case Mounted => s.tags.mintag == NOTAG && forall c :: c in s.callers ==> s.callers[c].pc.Returned?
  }

  function StartStep(s: State, c: Id): State {
    if Blocked(s.tags) then
      s.(callers := s.callers[c := Caller(TagWait(false), 0, None)])
    else if !(s.tags.freetag <= |s.tags.wait| && Slot(s.tags) < |Grow(s.tags).wait|) then
      s   // the abort of gettag, never reached
    else
      State(Take(s.tags, c), [c] + s.sleep, s.muxer,
            s.callers[c := Caller(Sending, Slot(s.tags) + s.tags.mintag, None)])
  }

  function EnterStep(s: State, c: Id, w: Option<Id>): State
    requires TagSlot(s, c)
  {
    var k := s.callers[c];
    if k.p.Some? then Return(s, c, w)
    else if s.muxer.Some? && s.muxer != Some(c) then
      s.(callers := s.callers[c := k.(pc := Asleep(false))])
    else
      s.(muxer := Some(c), callers := s.callers[c := k.(pc := Receiving)])
  }

  function RecvStep(s: State, c: Id, f: Reply, w: Option<Id>): State
    requires TagSlot(s, c)
  {
    var d := Dispatch(s, f);
    if d.callers[c].p.None? then d else
    var e := Elect(d);
    if TagSlot(e, c) then Return(e, c, w) else e
  }

  function FailStep(s: State, c: Id, w: Option<Id>): State
    requires TagSlot(s, c)
  {
    var e := Elect(s.(sleep := Without(s.sleep, c)));
    if TagSlot(e, c) then Return(e, c, w) else e
  }

  /** sendrpc's error branch: dequeue, which needs the rpc queued, and release; `muxer` is left as it was. */
  function SendFailed(s: State, c: Id, w: Option<Id>): Option<State>
    requires TagSlot(s, c)
  {
    if c in s.sleep then Some(Return(s.(sleep := Without(s.sleep, c)), c, w)) else None
  }

  /** One region; a caller past gettag always has its slot (MuxInvariant.StepInv). */
  function Step(s: State, l: Label): State {
    match l
    case Start(c) => StartStep(s, c)
    case Enter(c, w) => if TagSlot(s, c) then EnterStep(s, c, w) else s
    case Recv(c, f, w) => if TagSlot(s, c) then RecvStep(s, c, f, w) else s
    case Fail(c, w) => if TagSlot(s, c) then FailStep(s, c, w) else s
    case Mounted => s.(tags := s.tags.(mintag := 0, maxtag := 255))
  }

  /** The labels can be taken in this order. */
  ghost predicate Possible(s: State, ls: seq<Label>)
    decreases |ls|
  {
    ls != [] ==> Enabled(s, ls[0]) && Possible(Step(s, ls[0]), ls[1..])
  }

  function Exec(s: State, ls: seq<Label>): State
    decreases |ls|
  {
    if ls == [] then s else Exec(Step(s, ls[0]), ls[1..])
  }

  // ---- The invariant ----

  /** Slot i holds the live rpc tagged i + mintag, and every live rpc has its slot. */
  ghost predicate TagInv(s: State) {
    && Ok(s.tags)
    && (forall i :: 0 <= i < |s.tags.wait| && s.tags.wait[i].Some? ==>
          Live(s, s.tags.wait[i].value) && s.callers[s.tags.wait[i].value].tag == i + s.tags.mintag)
    && (forall c :: Live(s, c) ==> TagSlot(s, c))
  }

  /** The queue holds exactly the live callers that have no reply. */
  ghost predicate QueueInv(s: State) {
    && NoDup(s.sleep)
    && forall c :: c in s.sleep <==> (Live(s, c) && s.callers[c].p.None?)
  }

  /** The muxer is queued; a receiver is the muxer; without one nobody queued sleeps. */
  ghost predicate MuxerInv(s: State) {
    && (s.muxer.Some? ==> s.muxer.value in s.sleep)
    && (forall c :: c in s.callers && s.callers[c].pc.Receiving? ==> s.muxer == Some(c))
    && (s.muxer.None? ==> forall c :: c in s.sleep ==> c in s.callers && s.callers[c].pc.Sending?)
  }

  /** A sleeper is signalled exactly when it has something to do. */
  ghost predicate SleeperInv(s: State) {
    forall c :: c in s.callers && s.callers[c].pc.Asleep? ==>
      (s.callers[c].pc.signalled <==> (s.callers[c].p.Some? || s.muxer == Some(c)))
  }

  /** A reply carries its caller's tag, and what is returned is the reply. */
  ghost predicate ReplyInv(s: State) {
    forall c :: c in s.callers ==>
      && (s.callers[c].p.Some? ==> s.callers[c].p.value.tag == s.callers[c].tag)
      && (s.callers[c].pc.Returned? ==> s.callers[c].pc.result == s.callers[c].p)
      && (s.callers[c].pc.TagWait? ==> s.callers[c].p.None? && s.callers[c].tag == 0)
  }

  function ReadySet(s: State): set<Id> {
    set c | c in s.callers && s.callers[c].pc == TagWait(true)
  }

  /** Free tags never outnumber signalled tag waiters while an unsignalled one remains. */
  ghost predicate WaiterInv(s: State) {
    && ((exists c :: Waiter(s, c)) ==> |s.tags.wait| > 0 && |s.tags.wait| >= s.tags.maxtag - s.tags.mintag)
    && ((forall c :: Waiter(s, c) ==> Ready(s, c)) || |ReadySet(s)| >= |s.tags.wait| - s.tags.nwait)
  }

  ghost predicate Inv(s: State) {
    TagInv(s) && QueueInv(s) && MuxerInv(s) && SleeperInv(s) && ReplyInv(s) && WaiterInv(s)
  }
}
