/**
 * The event broadcaster of srv_util.c: files whose readers wait for data. Every
 * block written goes to a queue of each open fid; a read takes the oldest block of
 * its fid's queue, or waits for the next write.
 */
module Pending {
  import opened Basics

  type Block = seq<int>

  datatype Read = Read(tag: nat, fid: nat)

  /** What happened, inputs and replies in one trace. */
  datatype Note =
    | Opened(fid: nat)
    | Wrote(dat: Block)
    | Data(tag: nat, fid: nat, dat: Block)
    | Interrupted(tag: nat, fid: nat)

  /** The open fids, their queues, the reads that wait, and the trace so far. */
  datatype State = State(fids: seq<nat>, queue: map<nat, seq<Block>>, waiting: seq<Read>, trace: seq<Note>)

  const EMPTY := State([], map[], [], [])

  // ---- The operations ----

  /** ixp_pending_pushfid. */
  function PushFid(s: State, fid: nat): State {
    State(s.fids + [fid], s.queue[fid := []], s.waiting, s.trace + [Opened(fid)])
  }

  /** A read whose fid has data takes the oldest block. */
  function Answer(s: State, r: Read): State
    requires r.fid in s.queue && s.queue[r.fid] != []
  {
    s.(queue := s.queue[r.fid := s.queue[r.fid][1..]], trace := s.trace + [Data(r.tag, r.fid, s.queue[r.fid][0])])
  }

  /** ixp_pending_respond, but for unlinking a read that was queued. */
  function Respond(s: State, r: Read): State
    requires r.fid in s.queue
  {
    if s.queue[r.fid] != [] then Answer(s, r) else s.(waiting := s.waiting + [r])
  }

  /** The first loop of ixp_pending_write. */
  function Append(queue: map<nat, seq<Block>>, dat: Block): map<nat, seq<Block>> {
    map f | f in queue :: queue[f] + [dat]
  }

  /** The state in which the second loop starts: the waiting reads are detached from the file. */
  function Started(s: State, dat: Block): State {
    State(s.fids, Append(s.queue, dat), [], s.trace + [Wrote(dat)])
  }

  /** One turn of the second loop on the detached reads l: a read without data waits again, but stays in l. */
  function Turn(s: State, l: seq<Read>): (State, seq<Read>)
    requires l != [] && l[0].fid in s.queue
  {
    (Respond(s, l[0]), if s.queue[l[0].fid] != [] then l[1..] else l)
  }

  function Turns(s: State, l: seq<Read>, n: nat): (r: (State, seq<Read>))
    requires Known(s, l)
    ensures r.0.queue.Keys == s.queue.Keys && Known(r.0, r.1)
    decreases n
  {
    if n == 0 || l == [] then (s, l)
    else
      var (s', l') := Turn(s, l);
      Turns(s', l', n - 1)
  }

  /** ixp_pending_write, when its second loop ends: all its turns, one for each waiting read. */
  function Write(s: State, dat: Block): State
    requires Known(s, s.waiting)
  {
    if dat == [] then s else Turns(Started(s, dat), s.waiting, |s.waiting|).0
  }

  /** pending_flush: the read no longer waits; its reply is the flush's business. */
  function Flush(s: State, r: Read): State {
    s.(waiting := Without(s.waiting, r))
  }

  function Of(l: seq<Read>, fid: nat): seq<Note> {
    if l == [] then [] else (if l[0].fid == fid then [Interrupted(l[0].tag, fid)] else []) + Of(l[1..], fid)
  }

  function NotOf(l: seq<Read>, fid: nat): (r: seq<Read>)
    ensures forall x :: x in r <==> x in l && x.fid != fid
  {
    if l == [] then [] else (if l[0].fid == fid then [] else [l[0]]) + NotOf(l[1..], fid)
  }

  /** ixp_pending_clunk: the fid's reads are interrupted and its queue is dropped. */
  function Clunk(s: State, fid: nat): State {
    State(Without(s.fids, fid), s.queue - {fid}, NotOf(s.waiting, fid), s.trace + Of(s.waiting, fid))
  }

  ghost predicate Known(s: State, l: seq<Read>) {
    forall i :: 0 <= i < |l| ==> l[i].fid in s.queue
  }

  /** The fids that reads of l wait for. */
  function Fids(l: seq<Read>): set<nat> {
    set r | r in l :: r.fid
  }

  ghost predicate OneEach(l: seq<Read>) {
    forall i, j :: 0 <= i < j < |l| ==> l[i].fid != l[j].fid
  }

  // ---- When the drain loop ends ----

  function Count(l: seq<Read>, fid: nat): nat {
    if l == [] then 0 else (if l[0].fid == fid then 1 else 0) + Count(l[1..], fid)
  }

  /** There is a block for every read. */
  ghost predicate Enough(s: State, l: seq<Read>) {
    forall f :: f in s.queue ==> Count(l, f) <= |s.queue[f]|
  }

  ghost predicate Ends(s: State, l: seq<Read>)
    requires Known(s, l)
  {
    exists n: nat :: Turns(s, l, n).1 == []
  }

  lemma {:induction false} Stuck(s: State, l: seq<Read>, n: nat)
    requires Known(s, l) && l != [] && s.queue[l[0].fid] == []
    ensures Turns(s, l, n).1 == l
    decreases n
  {
    if n > 0 {
      Stuck(Turn(s, l).0, l, n - 1);
    }
  }

  lemma EnoughTurn(s: State, l: seq<Read>)
    requires Known(s, l) && l != [] && s.queue[l[0].fid] != []
    ensures Enough(s, l) <==> Enough(Turn(s, l).0, l[1..])
  {
    var s' := Turn(s, l).0;
    assert forall f :: f in s.queue ==> Count(l, f) - |s.queue[f]| == Count(l[1..], f) - |s'.queue[f]|;
  }

  lemma EndsTurn(s: State, l: seq<Read>)
    requires Known(s, l) && l != [] && s.queue[l[0].fid] != []
    ensures Ends(s, l) <==> Ends(Turn(s, l).0, l[1..])
  {
    var s' := Turn(s, l).0;
    if Ends(s', l[1..]) {
      var n: nat :| Turns(s', l[1..], n).1 == [];
      assert Turns(s, l, n + 1).1 == [];
    }
    if Ends(s, l) {
      var n: nat :| Turns(s, l, n).1 == [];
      assert Turns(s', l[1..], n - 1).1 == [];
    }
  }

  /** The drain loop ends if and only if no fid has more detached reads than queued blocks; it then takes a turn per read. */
  lemma {:induction false} DrainEndsIff(s: State, l: seq<Read>)
    requires Known(s, l)
    ensures Ends(s, l) <==> Enough(s, l)
    ensures Enough(s, l) ==> Turns(s, l, |l|).1 == []
    decreases |l|
  {
    if l == [] {
      assert Turns(s, l, 0).1 == [];
    } else if s.queue[l[0].fid] == [] {
      assert Count(l, l[0].fid) > 0;
      forall n: nat ensures Turns(s, l, n).1 != [] {
        Stuck(s, l, n);
      }
    } else {
      var s' := Turn(s, l).0;
      EnoughTurn(s, l);
      DrainEndsIff(s', l[1..]);
      EndsTurn(s, l);
    }
  }

  lemma {:induction false} CountOne(l: seq<Read>, f: nat)
    requires OneEach(l)
    ensures Count(l, f) == if exists i :: 0 <= i < |l| && l[i].fid == f then 1 else 0
  {
    if l != [] {
      assert forall i, j :: 0 <= i < j < |l[1..]| ==> l[1..][i] == l[i + 1] && l[1..][j] == l[j + 1];
      CountOne(l[1..], f);
      if i :| 0 <= i < |l| && l[i].fid == f {
        assert i > 0 ==> l[1..][i - 1].fid == f;
      }
      if i :| 0 <= i < |l[1..]| && l[1..][i].fid == f {
        assert l[i + 1].fid == f && l[0].fid != f;
      }
    }
  }

  lemma {:induction false} CountAtLeast(l: seq<Read>, i: nat, j: nat)
    requires i < j < |l| && l[i].fid == l[j].fid
    ensures Count(l, l[i].fid) >= 2
  {
    if i > 0 {
      CountAtLeast(l[1..], i - 1, j - 1);
    } else {
      CountPos(l[1..], j - 1);
    }
  }

  lemma {:induction false} CountPos(l: seq<Read>, j: nat)
    requires j < |l|
    ensures Count(l, l[j].fid) >= 1
  {
    if j > 0 {
      CountPos(l[1..], j - 1);
    }
  }

  /** Reads wait only where nothing is queued. */
  ghost predicate IdleQueues(s: State) {
    Known(s, s.waiting) && forall i :: 0 <= i < |s.waiting| ==> s.queue[s.waiting[i].fid] == []
  }

  /** ixp_pending_write comes back: at once when there is nothing to write, or when its second loop ends. */
  ghost predicate WriteReturns(s: State, dat: Block)
    requires Known(s, s.waiting)
  {
    dat == [] || Ends(Started(s, dat), s.waiting)
  }

  /** A write comes back if and only if it is empty or at most one read waits for each fid. */
  lemma WriteEndsIff(s: State, dat: Block)
    requires IdleQueues(s)
    ensures WriteReturns(s, dat) <==> dat == [] || OneEach(s.waiting)
  {
    var t := Started(s, dat);
    DrainEndsIff(t, s.waiting);
    if OneEach(s.waiting) {
      forall f | f in t.queue ensures Count(s.waiting, f) <= |t.queue[f]| {
        CountOne(s.waiting, f);
      }
    } else {
      var i, j :| 0 <= i < j < |s.waiting| && s.waiting[i].fid == s.waiting[j].fid;
      CountAtLeast(s.waiting, i, j);
      assert |t.queue[s.waiting[i].fid]| == 1;
    }
  }

  /** A second read for a fid that a read already waits for is accepted, and the next write of anything never returns. */
  lemma SecondReadHangs(s: State, r: Read, dat: Block)
    requires IdleQueues(s) && r.fid in Fids(s.waiting) && dat != []
    ensures r.fid in s.queue && IdleQueues(Respond(s, r)) && Respond(s, r).trace == s.trace
    ensures !WriteReturns(Respond(s, r), dat)
  {
    var i :| 0 <= i < |s.waiting| && s.waiting[i].fid == r.fid;
    var t := Respond(s, r);
    assert t.waiting[i].fid == t.waiting[|s.waiting|].fid;
    WriteEndsIff(t, dat);
  }

  // ---- What a write does ----

  /** The replies when every read of l gets the first block of its queue. */
  function Replies(queue: map<nat, seq<Block>>, l: seq<Read>): (r: seq<Note>)
    requires forall i :: 0 <= i < |l| ==> l[i].fid in queue && queue[l[i].fid] != []
    ensures |r| == |l|
  {
    seq(|l|, i requires 0 <= i < |l| => Data(l[i].tag, l[i].fid, queue[l[i].fid][0]))
  }

  /** Every queue that a read of l waits for, without its first block. */
  function Taken(queue: map<nat, seq<Block>>, l: seq<Read>): map<nat, seq<Block>> {
    map f | f in queue :: if f in Fids(l) && queue[f] != [] then queue[f][1..] else queue[f]
  }

  ghost predicate Ready(s: State, l: seq<Read>) {
    OneEach(l) && Known(s, l) && forall i :: 0 <= i < |l| ==> s.queue[l[i].fid] != []
  }

  lemma ReadyTail(s: State, l: seq<Read>)
    requires Ready(s, l) && l != []
    ensures Ready(Answer(s, l[0]), l[1..]) && l[0].fid !in Fids(l[1..])
  {
    forall i | 0 <= i < |l[1..]| ensures l[1..][i].fid != l[0].fid {
      assert l[1..][i] == l[i + 1];
    }
  }

  lemma TakenTail(s: State, l: seq<Read>)
    requires Ready(s, l) && l != []
    ensures Taken(Answer(s, l[0]).queue, l[1..]) == Taken(s.queue, l)
  {
    ReadyTail(s, l);
    assert Fids(l) == {l[0].fid} + Fids(l[1..]) by {
      assert l == [l[0]] + l[1..];
    }
  }

  lemma RepliesTail(s: State, l: seq<Read>)
    requires Ready(s, l) && l != [] && Ready(Answer(s, l[0]), l[1..])
    ensures Answer(s, l[0]).trace + Replies(Answer(s, l[0]).queue, l[1..]) == s.trace + Replies(s.queue, l)
  {
    var first, q := Data(l[0].tag, l[0].fid, s.queue[l[0].fid][0]), Answer(s, l[0]).queue;
    assert Replies(s.queue, l) == [first] + Replies(q, l[1..]) by {
      forall i | 0 <= i < |l[1..]| ensures Replies(s.queue, l)[i + 1] == Replies(q, l[1..])[i] {
        assert l[1..][i] == l[i + 1];
      }
    }
    assert s.trace + [first] + Replies(q, l[1..]) == s.trace + ([first] + Replies(q, l[1..]));
  }

  /** Draining: each read gets its fid's oldest block, in the order of the reads. */
  lemma {:induction false} DrainExact(s: State, l: seq<Read>)
    requires Ready(s, l)
    ensures Turns(s, l, |l|) == (State(s.fids, Taken(s.queue, l), s.waiting, s.trace + Replies(s.queue, l)), [])
    decreases |l|
  {
    if l == [] {
      assert Taken(s.queue, l) == s.queue;
      assert s.trace + Replies(s.queue, l) == s.trace;
    } else {
      ReadyTail(s, l);
      TakenTail(s, l);
      RepliesTail(s, l);
      DrainExact(Answer(s, l[0]), l[1..]);
    }
  }

  /** The block as a reply to every read of l. */
  function Given(l: seq<Read>, dat: Block): (r: seq<Note>)
    ensures |r| == |l|
  {
    seq(|l|, i requires 0 <= i < |l| => Data(l[i].tag, l[i].fid, dat))
  }

  /** The block at the end of every queue, but for the fids that readers wait for. */
  function Spread(queue: map<nat, seq<Block>>, fids: set<nat>, dat: Block): map<nat, seq<Block>> {
    map f | f in queue :: if f in fids then [] else queue[f] + [dat]
  }

  lemma TakenSpread(s: State, dat: Block)
    requires IdleQueues(s)
    ensures Taken(Append(s.queue, dat), s.waiting) == Spread(s.queue, Fids(s.waiting), dat)
  {
    assert forall f :: f in Fids(s.waiting) ==> f in s.queue && s.queue[f] == [];
  }

  lemma RepliesGiven(s: State, dat: Block)
    requires IdleQueues(s) && Ready(Started(s, dat), s.waiting)
    ensures Replies(Append(s.queue, dat), s.waiting) == Given(s.waiting, dat)
  {
  }

  /** A nonempty write answers every waiting read with that block, in their order, and queues it for the other fids. */
  lemma WriteExact(s: State, dat: Block)
    requires IdleQueues(s) && OneEach(s.waiting) && dat != []
    ensures Write(s, dat) ==
      State(s.fids, Spread(s.queue, Fids(s.waiting), dat), [], s.trace + [Wrote(dat)] + Given(s.waiting, dat))
  {
    StartedReady(s, dat);
    DrainExact(Started(s, dat), s.waiting);
    TakenSpread(s, dat);
    RepliesGiven(s, dat);
  }

  // ---- What the trace says about a fid ----

  /** The blocks written since the fid was last opened. */
  function Put(trace: seq<Note>, fid: nat): seq<Block> {
    if trace == [] then []
    else
      var (init, last) := (trace[..|trace| - 1], trace[|trace| - 1]);
      if last == Opened(fid) then []
      else if last.Wrote? then Put(init, fid) + [last.dat]
      else Put(init, fid)
  }

  /** The blocks its readers got since then. */
  function Sent(trace: seq<Note>, fid: nat): seq<Block> {
    if trace == [] then []
    else
      var (init, last) := (trace[..|trace| - 1], trace[|trace| - 1]);
      if last == Opened(fid) then []
      else if last.Data? && last.fid == fid then Sent(init, fid) + [last.dat]
      else Sent(init, fid)
  }

  lemma PutSnoc(trace: seq<Note>, n: Note, fid: nat)
    ensures Put(trace + [n], fid) == (if n == Opened(fid) then [] else if n.Wrote? then Put(trace, fid) + [n.dat] else Put(trace, fid))
    ensures Sent(trace + [n], fid) ==
      (if n == Opened(fid) then [] else if n.Data? && n.fid == fid then Sent(trace, fid) + [n.dat] else Sent(trace, fid))
  {
    assert (trace + [n])[..|trace|] == trace;
  }

  /** Replies that are not data for the fid change neither. */
  lemma {:induction false} PutQuiet(trace: seq<Note>, more: seq<Note>, fid: nat)
    requires forall i :: 0 <= i < |more| ==> more[i].Interrupted? || (more[i].Data? && more[i].fid != fid)
    ensures Put(trace + more, fid) == Put(trace, fid) && Sent(trace + more, fid) == Sent(trace, fid)
    decreases |more|
  {
    if more == [] {
      assert trace + more == trace;
    } else {
      var k := |more| - 1;
      PutQuiet(trace, more[..k], fid);
      PutSnoc(trace + more[..k], more[k], fid);
      assert trace + more == (trace + more[..k]) + [more[k]];
    }
  }

  /** Nothing is lost, duplicated or reordered: what the fid's readers got, then what is queued, is what was written. */
  ghost predicate Conserved(s: State) {
    forall f :: f in s.queue ==> Put(s.trace, f) == Sent(s.trace, f) + s.queue[f]
  }

  ghost predicate Inv(s: State) {
    && NoDup(s.fids) && (forall f :: f in s.queue <==> f in s.fids)
    && IdleQueues(s) && OneEach(s.waiting) && Conserved(s)
  }

  // ---- What a clunk does ----

  /** The positions of the reads of l that are for the fid, or those that are not, in order. */
  function Positions(l: seq<Read>, fid: nat, of: bool): seq<nat> {
    if l == [] then []
    else
      var k := |l| - 1;
      Positions(l[..k], fid, of) + (if (l[k].fid == fid) == of then [k] else [])
  }

  /** They are all of them. */
  lemma {:induction false} PositionsIn(l: seq<Read>, fid: nat, of: bool, k: int)
    ensures k in Positions(l, fid, of) <==> 0 <= k < |l| && (l[k].fid == fid) == of
  {
    if l != [] { PositionsIn(l[..|l| - 1], fid, of, k); }
  }

  /** Each once, in ascending order. */
  lemma {:induction false} PositionsRise(l: seq<Read>, fid: nat, of: bool, i: nat, j: nat)
    requires i < j < |Positions(l, fid, of)|
    ensures Positions(l, fid, of)[i] < Positions(l, fid, of)[j] < |l|
  {
    var k := |l| - 1;
    var ks := Positions(l[..k], fid, of);
    if j < |ks| {
      PositionsRise(l[..k], fid, of, i, j);
    } else {
      assert ks[i] in ks;
      PositionsIn(l[..k], fid, of, ks[i]);
    }
  }

  lemma PositionsExact(l: seq<Read>, fid: nat, of: bool)
    ensures var ks := Positions(l, fid, of);
      && (forall i, j :: 0 <= i < j < |ks| ==> ks[i] < ks[j])
      && (forall k :: k in ks <==> 0 <= k < |l| && (l[k].fid == fid) == of)
  {
    hide Positions;
    var ks := Positions(l, fid, of);
    forall i, j | 0 <= i < j < |ks| ensures ks[i] < ks[j] { PositionsRise(l, fid, of, i, j); }
    forall k ensures k in ks <==> 0 <= k < |l| && (l[k].fid == fid) == of { PositionsIn(l, fid, of, k); }
  }

  lemma NoneOf(fid: nat)
    ensures Of([], fid) == [] && NotOf([], fid) == []
  {
  }

  lemma {:induction false} OfPositions(l: seq<Read>, fid: nat)
    ensures var ks := Positions(l, fid, true);
      && |Of(l, fid)| == |ks|
      && forall i :: 0 <= i < |ks| ==> ks[i] < |l| && Of(l, fid)[i] == Interrupted(l[ks[i]].tag, fid)
  {
    hide Of;
    if l == [] {
      NoneOf(fid);
    } else {
      var k := |l| - 1;
      OfPositions(l[..k], fid);
      OfSnoc(l[..k], l[k], fid);
      assert l[..k] + [l[k]] == l;
    }
  }

  lemma {:induction false} NotOfPositions(l: seq<Read>, fid: nat)
    ensures var ks := Positions(l, fid, false);
      && |NotOf(l, fid)| == |ks|
      && forall i :: 0 <= i < |ks| ==> ks[i] < |l| && NotOf(l, fid)[i] == l[ks[i]]
  {
    hide NotOf;
    if l == [] {
      NoneOf(fid);
    } else {
      var k := |l| - 1;
      NotOfPositions(l[..k], fid);
      NotOfSnoc(l[..k], l[k], fid);
      assert l[..k] + [l[k]] == l;
    }
  }

  /**
   * A clunk interrupts exactly the fid's waiting reads, in the order in which they wait,
   * each under its tag, and nothing else is sent.
   */
  lemma ClunkInterrupts(s: State, fid: nat)
    ensures var t := Clunk(s, fid);
      var ks := Positions(s.waiting, fid, true);
      && (forall i, j :: 0 <= i < j < |ks| ==> ks[i] < ks[j])
      && (forall k :: k in ks <==> 0 <= k < |s.waiting| && s.waiting[k].fid == fid)
      && |t.trace| == |s.trace| + |ks| && t.trace[..|s.trace|] == s.trace
      && (forall i :: 0 <= i < |ks| ==> ks[i] < |s.waiting| && t.trace[|s.trace| + i] == Interrupted(s.waiting[ks[i]].tag, fid))
  {
    hide Positions, NotOf, Of;
    PositionsExact(s.waiting, fid, true);
    OfPositions(s.waiting, fid);
  }

  /** Exactly the other reads go on waiting, in their order, and only the fid's queue is dropped. */
  lemma ClunkKeeps(s: State, fid: nat)
    ensures var t := Clunk(s, fid);
      var ks := Positions(s.waiting, fid, false);
      && (forall i, j :: 0 <= i < j < |ks| ==> ks[i] < ks[j])
      && (forall k :: k in ks <==> 0 <= k < |s.waiting| && s.waiting[k].fid != fid)
      && |t.waiting| == |ks| && (forall i :: 0 <= i < |ks| ==> ks[i] < |s.waiting| && t.waiting[i] == s.waiting[ks[i]])
      && t.queue == (map g | g in s.queue && g != fid :: s.queue[g])
  {
    hide Positions, NotOf, Of;
    PositionsExact(s.waiting, fid, false);
    NotOfPositions(s.waiting, fid);
  }

  // ---- Every operation keeps the invariant ----

  datatype Event = Push(fid: nat) | TRead(r: Read) | Written(dat: Block) | TFlush(r: Read) | TClunk(fid: nat)

  /** A fid is pushed once, a read comes only when none waits for its fid, and flushes name waiting reads. */
  predicate Enabled(s: State, e: Event) {
    match e
    case Push(fid) => fid !in s.queue
    case TRead(r) => r.fid in s.queue && r.fid !in Fids(s.waiting)
    case Written(dat) => true
    case TFlush(r) => r in s.waiting
    case TClunk(fid) => fid in s.queue
  }

  function Apply(s: State, e: Event): State
    requires Known(s, s.waiting) && Enabled(s, e)
  {
    match e
    case Push(fid) => PushFid(s, fid)
    case TRead(r) => Respond(s, r)
    case Written(dat) => Write(s, dat)
    case TFlush(r) => Flush(s, r)
    case TClunk(fid) => Clunk(s, fid)
  }

  lemma PushInv(s: State, fid: nat)
    requires Inv(s) && fid !in s.queue
    ensures Inv(PushFid(s, fid))
  {
    var t := PushFid(s, fid);
    forall f | f in t.queue ensures Put(t.trace, f) == Sent(t.trace, f) + t.queue[f] {
      PutSnoc(s.trace, Opened(fid), f);
    }
  }

  lemma AnswerConserved(s: State, r: Read)
    requires Conserved(s) && r.fid in s.queue && s.queue[r.fid] != []
    ensures Conserved(Answer(s, r))
  {
    var t, d := Answer(s, r), s.queue[r.fid][0];
    forall f | f in t.queue ensures Put(t.trace, f) == Sent(t.trace, f) + t.queue[f] {
      PutSnoc(s.trace, Data(r.tag, r.fid, d), f);
      if f == r.fid {
        assert s.queue[f] == [d] + t.queue[f];
        assert Sent(s.trace, f) + ([d] + t.queue[f]) == (Sent(s.trace, f) + [d]) + t.queue[f];
      }
    }
  }

  lemma ReadInv(s: State, r: Read)
    requires Inv(s) && r.fid in s.queue && r.fid !in Fids(s.waiting)
    ensures Inv(Respond(s, r))
  {
    assert forall i :: 0 <= i < |s.waiting| ==> s.waiting[i] in s.waiting && s.waiting[i].fid in Fids(s.waiting);
    if s.queue[r.fid] != [] {
      AnswerConserved(s, r);
    }
  }

  lemma StartedConserved(s: State, dat: Block)
    requires Conserved(s)
    ensures Conserved(Started(s, dat))
  {
    var t := Started(s, dat);
    forall f | f in t.queue ensures Put(t.trace, f) == Sent(t.trace, f) + t.queue[f] {
      PutSnoc(s.trace, Wrote(dat), f);
      assert (Sent(s.trace, f) + s.queue[f]) + [dat] == Sent(s.trace, f) + (s.queue[f] + [dat]);
    }
  }

  lemma {:induction false} DrainConserved(s: State, l: seq<Read>)
    requires Ready(s, l) && Conserved(s)
    ensures Conserved(Turns(s, l, |l|).0)
    decreases |l|
  {
    if l != [] {
      ReadyTail(s, l);
      AnswerConserved(s, l[0]);
      DrainConserved(Answer(s, l[0]), l[1..]);
    }
  }

  lemma WriteInv(s: State, dat: Block)
    requires Inv(s)
    ensures Inv(Write(s, dat))
  {
    if dat != [] {
      WriteExact(s, dat);
      StartedConserved(s, dat);
      DrainConserved(Started(s, dat), s.waiting);
    }
  }

  lemma {:induction false} WithoutOneEach(l: seq<Read>, r: Read)
    requires OneEach(l)
    ensures OneEach(Without(l, r))
  {
    if l != [] && l[0] != r {
      assert OneEach(l[1..]) by {
        assert forall i, j :: 0 <= i < j < |l[1..]| ==> l[1..][i] == l[i + 1] && l[1..][j] == l[j + 1];
      }
      WithoutOneEach(l[1..], r);
      var t := Without(l[1..], r);
      forall j | 0 <= j < |t| ensures t[j].fid != l[0].fid {
        assert t[j] in l[1..];
      }
    }
  }

  lemma FlushInv(s: State, r: Read)
    requires Inv(s)
    ensures Inv(Flush(s, r))
  {
    WithoutOneEach(s.waiting, r);
    var t := Without(s.waiting, r);
    assert forall i :: 0 <= i < |t| ==> t[i] in s.waiting;
  }

  lemma {:induction false} NotOfOneEach(l: seq<Read>, fid: nat)
    requires OneEach(l)
    ensures OneEach(NotOf(l, fid))
  {
    if l != [] {
      assert OneEach(l[1..]) by {
        assert forall i, j :: 0 <= i < j < |l[1..]| ==> l[1..][i] == l[i + 1] && l[1..][j] == l[j + 1];
      }
      NotOfOneEach(l[1..], fid);
      var t := NotOf(l[1..], fid);
      forall j | 0 <= j < |t| ensures t[j].fid != l[0].fid {
        assert t[j] in l[1..];
      }
    }
  }

  lemma {:induction false} OfQuiet(l: seq<Read>, fid: nat, i: nat)
    requires i < |Of(l, fid)|
    ensures Of(l, fid)[i].Interrupted?
  {
    if l[0].fid == fid {
      if i > 0 { OfQuiet(l[1..], fid, i - 1); }
    } else {
      OfQuiet(l[1..], fid, i);
    }
  }

  lemma ClunkInv(s: State, fid: nat)
    requires Inv(s)
    ensures Inv(Clunk(s, fid))
  {
    var t := Clunk(s, fid);
    WithoutNoDup(s.fids, fid);
    NotOfOneEach(s.waiting, fid);
    assert forall i :: 0 <= i < |t.waiting| ==> t.waiting[i] in s.waiting && t.waiting[i].fid != fid;
    forall f | f in t.queue ensures Put(t.trace, f) == Sent(t.trace, f) + t.queue[f] {
      forall i | 0 <= i < |Of(s.waiting, fid)| ensures Of(s.waiting, fid)[i].Interrupted? {
        OfQuiet(s.waiting, fid, i);
      }
      PutQuiet(s.trace, Of(s.waiting, fid), f);
    }
  }

  lemma ApplyInv(s: State, e: Event)
    requires Inv(s) && Enabled(s, e)
    ensures Inv(Apply(s, e))
  {
    match e
    case Push(fid) => PushInv(s, fid);
    case TRead(r) => ReadInv(s, r);
    case Written(dat) => WriteInv(s, dat);
    case TFlush(r) => FlushInv(s, r);
    case TClunk(fid) => ClunkInv(s, fid);
  }

  /**
   * The runs leave nothing out that works: a push or a read is taken exactly when it
   * keeps the invariant, writes always, and flushes and clunks of all there is.
   */
  lemma EnabledExact(s: State, fid: nat, r: Read, dat: Block)
    requires Inv(s)
    ensures Enabled(s, Push(fid)) <==> Inv(PushFid(s, fid))
    ensures r.fid in s.queue ==> (Enabled(s, TRead(r)) <==> Inv(Respond(s, r)))
    ensures Enabled(s, Written(dat))
    ensures Enabled(s, TFlush(r)) <==> exists i :: 0 <= i < |s.waiting| && s.waiting[i] == r
    ensures Enabled(s, TClunk(fid)) <==> fid in s.fids
  {
    if fid in s.queue {
      var i :| 0 <= i < |s.fids| && s.fids[i] == fid;
      assert PushFid(s, fid).fids[i] == PushFid(s, fid).fids[|s.fids|];
    } else {
      PushInv(s, fid);
    }
    if r.fid in s.queue {
      if r.fid in Fids(s.waiting) {
        var i :| 0 <= i < |s.waiting| && s.waiting[i].fid == r.fid;
        assert Respond(s, r).waiting[i].fid == Respond(s, r).waiting[|s.waiting|].fid;
      } else {
        ReadInv(s, r);
      }
    }
  }

  /** A run from the empty file. */
  ghost predicate IsRun(states: seq<State>, events: seq<Event>) {
    && |states| == |events| + 1 && states[0] == EMPTY
    && forall i :: 0 <= i < |events| ==>
      && Known(states[i], states[i].waiting) && Enabled(states[i], events[i]) && states[i + 1] == Apply(states[i], events[i])
  }

  /** Runs go on with any event that is enabled. */
  lemma RunGrows(states: seq<State>, events: seq<Event>, e: Event)
    requires IsRun(states, events) && Enabled(states[|events|], e)
    ensures Known(states[|events|], states[|events|].waiting)
    ensures IsRun(states + [Apply(states[|events|], e)], events + [e]) && IsRun([EMPTY], [])
  {
    hide Conserved, WriteReturns, Enabled, Apply;
    BroadcastInEveryRun(states, events, |events|, []);
  }

  /**
   * In every run, at every point and for every open fid: the blocks its readers got
   * followed by the blocks still queued are the blocks written since it was opened,
   * in order; a fid with a waiting read has nothing queued; and the next write, of
   * whatever, would come back.
   */
  lemma {:induction false} BroadcastInEveryRun(states: seq<State>, events: seq<Event>, i: nat, dat: Block)
    requires IsRun(states, events) && i < |states|
    ensures Inv(states[i]) && WriteReturns(states[i], dat)
    decreases i
  {
    if i > 0 {
      BroadcastInEveryRun(states, events, i - 1, dat);
      ApplyInv(states[i - 1], events[i - 1]);
    }
    WriteEndsIff(states[i], dat);
  }

  // ---- Every read is answered, or flushed, or waits ----

  /** How often these reads include r. */
  function Waits(l: seq<Read>, r: Read): nat {
    if l == [] then 0 else (if l[0] == r then 1 else 0) + Waits(l[1..], r)
  }

  /** How many replies r's tag and fid got. */
  function Replied(trace: seq<Note>, r: Read): nat {
    if trace == [] then 0
    else
      var k := |trace| - 1;
      Replied(trace[..k], r) + (if trace[k] == Interrupted(r.tag, r.fid) || (trace[k].Data? && trace[k].tag == r.tag && trace[k].fid == r.fid) then 1 else 0)
  }

  /** How often the events include this one. */
  function Times(events: seq<Event>, e: Event): nat {
    if events == [] then 0 else Times(events[..|events| - 1], e) + (if events[|events| - 1] == e then 1 else 0)
  }

  lemma RepliedSnoc(trace: seq<Note>, n: Note, r: Read)
    ensures Replied(trace + [n], r) ==
      Replied(trace, r) + (if n == Interrupted(r.tag, r.fid) || (n.Data? && n.tag == r.tag && n.fid == r.fid) then 1 else 0)
  {
    assert (trace + [n])[..|trace|] == trace;
  }

  lemma {:induction false} WaitsSnoc(l: seq<Read>, x: Read, r: Read)
    ensures Waits(l + [x], r) == Waits(l, r) + (if x == r then 1 else 0)
  {
    if l == [] {
      assert l + [x] == [x];
    } else {
      assert (l + [x])[1..] == l[1..] + [x];
      WaitsSnoc(l[1..], x, r);
    }
  }

  lemma {:induction false} WaitsOne(l: seq<Read>, r: Read)
    requires OneEach(l)
    ensures Waits(l, r) == if r in l then 1 else 0
  {
    if l != [] {
      assert forall i, j :: 0 <= i < j < |l[1..]| ==> l[1..][i] == l[i + 1] && l[1..][j] == l[j + 1];
      WaitsOne(l[1..], r);
      if r in l[1..] {
        var i :| 0 <= i < |l[1..]| && l[1..][i] == r;
        assert l[i + 1] == r && l[0].fid != r.fid;
      }
    }
  }

  lemma {:induction false} WaitsWithout(l: seq<Read>, x: Read, r: Read)
    ensures Waits(Without(l, x), r) == Waits(l, r) - (if r == x && x in l then 1 else 0)
  {
    if l != [] && l[0] != x {
      WaitsWithout(l[1..], x, r);
      assert Without(l, x) == [l[0]] + Without(l[1..], x);
    }
  }

  /** A write's replies go to those that waited, one each. */
  lemma {:induction false} GivenReplied(trace: seq<Note>, l: seq<Read>, dat: Block, r: Read)
    ensures Replied(trace + Given(l, dat), r) == Replied(trace, r) + Waits(l, r)
    decreases |l|
  {
    if l == [] {
      assert trace + Given(l, dat) == trace;
    } else {
      var first := Data(l[0].tag, l[0].fid, dat);
      assert Given(l, dat) == [first] + Given(l[1..], dat);
      assert trace + Given(l, dat) == (trace + [first]) + Given(l[1..], dat);
      RepliedSnoc(trace, first, r);
      GivenReplied(trace + [first], l[1..], dat, r);
    }
  }

  /** A clunk's replies go to the fid's reads, one each. */
  lemma {:induction false} InterruptedReplied(trace: seq<Note>, l: seq<Read>, fid: nat, r: Read)
    ensures Replied(trace + Of(l, fid), r) + Waits(NotOf(l, fid), r) == Replied(trace, r) + Waits(l, r)
    decreases |l|
  {
    if l == [] {
      assert trace + Of(l, fid) == trace;
    } else if l[0].fid == fid {
      var first := Interrupted(l[0].tag, fid);
      assert trace + Of(l, fid) == (trace + [first]) + Of(l[1..], fid);
      RepliedSnoc(trace, first, r);
      InterruptedReplied(trace + [first], l[1..], fid, r);
      assert NotOf(l, fid) == NotOf(l[1..], fid);
    } else {
      assert Of(l, fid) == Of(l[1..], fid);
      InterruptedReplied(trace, l[1..], fid, r);
      assert NotOf(l, fid) == [l[0]] + NotOf(l[1..], fid);
    }
  }

  /** What one event does to a read's account. */
  lemma EventAccount(s: State, e: Event, r: Read)
    requires Inv(s) && Enabled(s, e)
    ensures var t := Apply(s, e);
      Replied(t.trace, r) + Waits(t.waiting, r) + (if e == TFlush(r) then 1 else 0)
        == Replied(s.trace, r) + Waits(s.waiting, r) + (if e == TRead(r) then 1 else 0)
  {
    hide Inv, Conserved;
    match e
    case Push(fid) => RepliedSnoc(s.trace, Opened(fid), r);
    case TRead(x) =>
      if s.queue[x.fid] != [] { RepliedSnoc(s.trace, Data(x.tag, x.fid, s.queue[x.fid][0]), r); } else { WaitsSnoc(s.waiting, x, r); }
    case Written(dat) => WriteAccount(s, dat, r);
    case TFlush(x) => WaitsWithout(s.waiting, x, r);
    case TClunk(fid) => InterruptedReplied(s.trace, s.waiting, fid, r);
  }

  lemma WriteAccount(s: State, dat: Block, r: Read)
    requires Inv(s)
    ensures Replied(Write(s, dat).trace, r) + Waits(Write(s, dat).waiting, r) == Replied(s.trace, r) + Waits(s.waiting, r)
  {
    if dat != [] {
      WriteExact(s, dat);
      RepliedSnoc(s.trace, Wrote(dat), r);
      GivenReplied(s.trace + [Wrote(dat)], s.waiting, dat, r);
    }
  }

  lemma InvWaits(s: State, r: Read)
    requires Inv(s)
    ensures Waits(s.waiting, r) == if r in s.waiting then 1 else 0
  {
    WaitsOne(s.waiting, r);
  }

  lemma NothingReplied(r: Read)
    ensures Replied(EMPTY.trace, r) == 0
  {
  }

  /**
   * In every run, at every point: every read that was accepted got exactly one reply,
   * data or "interrupted", under its tag and for its fid, or was flushed, or still
   * waits, once.
   */
  lemma {:induction false} EveryReadOnce(states: seq<State>, events: seq<Event>, i: nat, r: Read)
    requires IsRun(states, events) && i < |states|
    ensures Times(events[..i], TRead(r)) == Replied(states[i].trace, r) + Times(events[..i], TFlush(r)) + (if r in states[i].waiting then 1 else 0)
    decreases i
  {
    hide Inv, Conserved, Apply, Enabled, Replied, WriteReturns;
    BroadcastInEveryRun(states, events, i, []);
    InvWaits(states[i], r);
    if i > 0 {
      EveryReadOnce(states, events, i - 1, r);
      BroadcastInEveryRun(states, events, i - 1, []);
      InvWaits(states[i - 1], r);
      EventAccount(states[i - 1], events[i - 1], r);
      assert events[..i][..i - 1] == events[..i - 1];
    } else {
      NothingReplied(r);
    }
  }

  /** Flushing a read loses no data: the next block goes to whoever reads next. */
  lemma FlushKeepsData(s: State, r: Read, later: Read, dat: Block)
    requires Inv(s) && r in s.waiting && later.fid == r.fid && dat != []
    ensures Inv(Flush(s, r))
    ensures var t := Write(Flush(s, r), dat);
      later.fid in t.queue && Respond(t, later).trace == t.trace + [Data(later.tag, later.fid, dat)]
  {
    FlushInv(s, r);
    var s' := Flush(s, r);
    WriteExact(s', dat);
    var k :| 0 <= k < |s.waiting| && s.waiting[k] == r;
    WithoutOneEach(s.waiting, r);
    FlushedFid(s.waiting, r);
    assert s.queue[r.fid] == [];
  }

  lemma {:induction false} FlushedFid(l: seq<Read>, r: Read)
    requires OneEach(l) && r in l
    ensures r.fid !in Fids(Without(l, r))
  {
    if l[0] == r {
      forall x | x in l[1..] ensures x.fid != r.fid {
        var i :| 0 <= i < |l[1..]| && l[1..][i] == x;
        assert l[i + 1] == x;
      }
    } else {
      assert OneEach(l[1..]) by {
        assert forall i, j :: 0 <= i < j < |l[1..]| ==> l[1..][i] == l[i + 1] && l[1..][j] == l[j + 1];
      }
      assert r in l[1..];
      FlushedFid(l[1..], r);
      var i :| 0 <= i < |l[1..]| && l[1..][i] == r;
      assert l[i + 1] == r && l[0].fid != r.fid;
      assert Without(l, r) == [l[0]] + Without(l[1..], r);
    }
  }

  // ---- The same, in place ----

  function AppendSome(queue: map<nat, seq<Block>>, fids: seq<nat>, dat: Block): map<nat, seq<Block>> {
    map f | f in queue :: if f in fids then queue[f] + [dat] else queue[f]
  }

  lemma AppendNext(queue: map<nat, seq<Block>>, fids: seq<nat>, i: nat, dat: Block)
    requires NoDup(fids) && i < |fids| && fids[i] in queue
    ensures var q := AppendSome(queue, fids[..i], dat);
      fids[i] in q && AppendSome(queue, fids[..i + 1], dat) == q[fids[i] := q[fids[i]] + [dat]]
  {
    assert fids[i] !in fids[..i] && fids[..i + 1] == fids[..i] + [fids[i]];
  }

  lemma AppendEvery(queue: map<nat, seq<Block>>, fids: seq<nat>, dat: Block)
    requires forall f :: f in queue ==> f in fids
    ensures AppendSome(queue, fids, dat) == Append(queue, dat)
  {
  }

  /** An IxpPending with its open fids' links and queues. */
  class PendingFile {
    var fids: seq<nat>
    var queue: map<nat, seq<Block>>
    var waiting: seq<Read>
    ghost var trace: seq<Note>

    ghost function View(): State
      reads this
    {
      State(fids, queue, waiting, trace)
    }

    constructor ()
      ensures View() == EMPTY && Inv(View())
    {
      fids, queue, waiting, trace := [], map[], [], [];
    }

    method Push(fid: nat)
      requires Inv(View()) && fid !in queue
      modifies this
      ensures View() == PushFid(old(View()), fid) && Inv(View())
    {
      PushInv(View(), fid);
      fids := fids + [fid];
      queue := queue[fid := []];
      trace := trace + [Opened(fid)];
    }

    /** ixp_pending_respond; whether the read was answered (and so unlinked, had it been queued). */
    method Answered(r: Read) returns (done: bool)
      requires r.fid in queue
      modifies this
      ensures View() == Respond(old(View()), r) && done == (old(queue)[r.fid] != [])
    {
      done := queue[r.fid] != [];
      if done {
        var block := queue[r.fid][0];
        queue := queue[r.fid := queue[r.fid][1..]];
        trace := trace + [Data(r.tag, r.fid, block)];
      } else {
        waiting := waiting + [r];
      }
    }

    method TakeRead(r: Read)
      requires Inv(View()) && r.fid in queue && r.fid !in Fids(waiting)
      modifies this
      ensures View() == Respond(old(View()), r) && Inv(View())
    {
      ReadInv(View(), r);
      var _ := Answered(r);
    }

    /** The first loop: the block goes to the end of every queue. */
    method QueueAll(dat: Block)
      requires NoDup(fids) && forall f :: f in queue <==> f in fids
      modifies this`queue
      ensures queue == Append(old(queue), dat)
    {
      ghost var q := queue;
      var i := 0;
      assert queue == AppendSome(q, fids[..0], dat);
      AppendEvery(q, fids, dat);
      hide AppendSome, Append;
      while i < |fids|
        invariant i <= |fids| && queue == AppendSome(q, fids[..i], dat)
      {
        AppendNext(q, fids, i, dat);
        queue := queue[fids[i] := queue[fids[i]] + [dat]];
        i := i + 1;
      }
      assert fids[..|fids|] == fids;
    }

    /** ixp_pending_write. */
    method Broadcast(dat: Block)
      requires Inv(View())
      modifies this
      ensures View() == Write(old(View()), dat) && Inv(View())
    {
      if dat == [] {
        return;
      }
      ghost var s := View();
      WriteInv(s, dat);
      QueueAll(dat);
      trace := trace + [Wrote(dat)];
      var l := waiting;
      waiting := [];
      StartedReady(s, dat);
      hide Ready, Turns, Respond, Inv, Append;
      while l != []
        invariant Ready(View(), l)
        invariant Turns(View(), l, |l|) == Turns(Started(s, dat), s.waiting, |s.waiting|)
        decreases |l|
      {
        TurnReady(View(), l);
        var done := Answered(l[0]);
        if done {
          l := l[1..];
        }
      }
    }

    /** ixp_pending_flush. */
    method Unlink(r: Read)
      requires Inv(View())
      modifies this
      ensures View() == Flush(old(View()), r) && Inv(View())
    {
      FlushInv(View(), r);
      waiting := Without(waiting, r);
    }

    /** ixp_pending_clunk; the result is true when no fid is left, against the documentation. */
    method Close(fid: nat) returns (more: bool)
      requires Inv(View()) && fid in queue
      modifies this
      ensures View() == Clunk(old(View()), fid) && Inv(View())
      ensures more <==> fids == []
    {
      ClunkInv(View(), fid);
      waiting := InterruptReads(fid);
      fids := Without(fids, fid);
      queue := queue - {fid};
      more := fids == [];
    }

    /** The fid's reads are interrupted; the others are kept. */
    method InterruptReads(fid: nat) returns (kept: seq<Read>)
      modifies this`trace
      ensures trace == old(trace) + Of(waiting, fid) && kept == NotOf(waiting, fid)
    {
      var i := 0;
      kept := [];
      assert waiting[..0] == [];
      while i < |waiting|
        invariant i <= |waiting| && trace == old(trace) + Of(waiting[..i], fid) && kept == NotOf(waiting[..i], fid)
      {
        OfSnoc(waiting[..i], waiting[i], fid);
        NotOfSnoc(waiting[..i], waiting[i], fid);
        assert waiting[..i + 1] == waiting[..i] + [waiting[i]];
        if waiting[i].fid == fid {
          trace := trace + [Interrupted(waiting[i].tag, fid)];
        } else {
          kept := kept + [waiting[i]];
        }
        i := i + 1;
      }
      assert waiting[..|waiting|] == waiting;
    }
  }

  lemma {:induction false} OfSnoc(l: seq<Read>, r: Read, fid: nat)
    ensures Of(l + [r], fid) == Of(l, fid) + (if r.fid == fid then [Interrupted(r.tag, fid)] else [])
  {
    if l == [] {
      assert l + [r] == [r];
    } else {
      assert (l + [r])[1..] == l[1..] + [r];
      OfSnoc(l[1..], r, fid);
      var first, last := if l[0].fid == fid then [Interrupted(l[0].tag, fid)] else [], if r.fid == fid then [Interrupted(r.tag, fid)] else [];
      assert first + (Of(l[1..], fid) + last) == (first + Of(l[1..], fid)) + last;
    }
  }

  lemma {:induction false} NotOfSnoc(l: seq<Read>, r: Read, fid: nat)
    ensures NotOf(l + [r], fid) == NotOf(l, fid) + (if r.fid == fid then [] else [r])
  {
    if l == [] {
      assert l + [r] == [r];
    } else {
      assert (l + [r])[1..] == l[1..] + [r];
      NotOfSnoc(l[1..], r, fid);
      var first, last := if l[0].fid == fid then [] else [l[0]], if r.fid == fid then [] else [r];
      assert first + (NotOf(l[1..], fid) + last) == (first + NotOf(l[1..], fid)) + last;
    }
  }

  /** One turn of the second loop when every detached read has data. */
  lemma TurnReady(s: State, l: seq<Read>)
    requires Ready(s, l) && l != []
    ensures l[0].fid in s.queue && s.queue[l[0].fid] != [] && Ready(Respond(s, l[0]), l[1..])
    ensures Turns(s, l, |l|) == Turns(Respond(s, l[0]), l[1..], |l[1..]|)
  {
    ReadyTail(s, l);
  }

  lemma StartedReady(s: State, dat: Block)
    requires IdleQueues(s) && OneEach(s.waiting)
    ensures Ready(Started(s, dat), s.waiting)
  {
  }
}
