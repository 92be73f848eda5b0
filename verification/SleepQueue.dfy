/**
 * The heap side of the multiplexer: the circular doubly linked sleep queue, and
 * the client operations on it, proved against the values of module Mux.
 */
module SleepQueue {
  import opened Basics
  import opened TagTable
  import opened Mux

  class Rpc {
    const id: Id
    var next: Rpc?
    var prev: Rpc?
    var p: Option<Reply>

    constructor (id: Id)
      ensures this.id == id && next == null && prev == null && p.None?
    {
      this.id := id;
      next, prev, p := null, null, None;
    }
  }

  class Queue {
    const sleep: Rpc          // the sentinel, mux->sleep
    ghost var q: seq<Rpc>     // from sleep.next on

    ghost function Ring(): seq<Rpc>
      reads this
    {
      [sleep] + q + [sleep]
    }

    ghost predicate Valid()
      reads this, sleep, q
    {
      && NoDup(q) && sleep !in q
      && var ring := Ring();
         forall i, j :: 0 <= i && j == i + 1 && j < |ring| ==> ring[i].next == ring[j] && ring[j].prev == ring[i]
    }

    constructor ()
      ensures Valid() && q == [] && fresh(sleep)
    {
      sleep := new Rpc(0);
      q := [];
      new;
      sleep.next := sleep;
      sleep.prev := sleep;
    }

    method Enqueue(r: Rpc)
      requires Valid() && r != sleep && r !in q
      modifies this`q, sleep, q, r
      ensures Valid() && q == [r] + old(q)
      ensures r.prev != null && r.p == old(r.p)
      ensures forall x :: x in old(q) ==> x.p == old(x.p) && x.prev != null
    {
      assert Ring()[0].next == Ring()[1];
      r.next := sleep.next;
      r.prev := sleep;
      r.next.prev := r;
      r.prev.next := r;
      ghost var ring := Ring();
      q := [r] + q;
      assert forall i :: 2 <= i < |Ring()| ==> Ring()[i] == ring[i - 1];
      Linked();
    }

    /** Every queued rpc has a predecessor. */
    lemma Linked()
      requires Valid()
      ensures forall x :: x in q ==> x.prev != null
    {
      forall x | x in q ensures x.prev != null {
        var i :| 0 <= i < |q| && q[i] == x;
        assert Ring()[i + 1] == x && Ring()[i + 1].prev == Ring()[i];
      }
    }

    /** The pointer writes of dequeue: the neighbours of q[k] now point at each other. */
    method Unlink(r: Rpc, ghost k: nat)
      requires Valid() && k < |q| && q[k] == r
      modifies sleep, q
      ensures q == old(q) && r.prev == null && r.next == null
      ensures Ring()[k].next == Ring()[k + 2] && Ring()[k + 2].prev == Ring()[k]
      ensures var ring := Ring();
        forall i, j :: 0 <= i && j == i + 1 && j < |ring| && i != k && j != k + 1 && j != k + 2 ==>
          ring[i].next == ring[j] && ring[j].prev == ring[i]
      ensures forall x :: x in q ==> x.p == old(x.p)
    {
      ghost var ring := Ring();
      assert ring[k].next == ring[k + 1] && ring[k + 1].next == ring[k + 2];
      assert forall i :: 0 <= i < |ring| - 1 && i != k ==> ring[i] != ring[k];
      assert forall j :: 0 < j < |ring| && j != k + 2 ==> ring[j] != ring[k + 2];
      r.next.prev := r.prev;
      r.prev.next := r.next;
      r.prev := null;
      r.next := null;
    }

    method Dequeue(r: Rpc)
      requires Valid() && r in q
      modifies this`q, sleep, q
      ensures Valid() && r !in q && q == Without(old(q), r)
      ensures r.prev == null && r.next == null
      ensures forall x :: x in old(q) ==> x.p == old(x.p) && (x != r ==> x.prev != null)
    {
      ghost var k :| 0 <= k < |q| && q[k] == r;
      ghost var ring := Ring();
      Unlink(r, k);
      Spliced(q, k);
      ghost var q0 := q;
      q := Without(q, r);
      assert forall i :: 0 < i <= |q| ==> Ring()[i] == q[i - 1];
      assert forall i :: 0 < i <= |q0| ==> ring[i] == q0[i - 1];
      assert forall i :: 0 <= i <= k ==> Ring()[i] == ring[i];
      assert forall i :: k < i < |Ring()| ==> Ring()[i] == ring[i + 1];
      Linked();
    }
  }

  lemma Spliced<T>(s: seq<T>, k: nat)
    requires NoDup(s) && k < |s|
    ensures NoDup(Without(s, s[k])) && s[k] !in Without(s, s[k])
    ensures var t := Without(s, s[k]);
      && |t| == |s| - 1
      && (forall i :: 0 <= i < k ==> t[i] == s[i])
      && (forall i :: k <= i < |t| ==> t[i] == s[i + 1])
  {
    WithoutAt(s, k);
    WithoutNoDup(s, s[k]);
  }

  lemma {:induction false} WithoutAt<T>(s: seq<T>, k: nat)
    requires k < |s| && forall i :: 0 <= i < k ==> s[i] != s[k]
    ensures Without(s, s[k]) == s[..k] + s[k + 1..]
  {
    if k > 0 {
      WithoutAt(s[1..], k - 1);
      assert s[1..][..k - 1] == s[1..k] && s[1..][k..] == s[k + 1..];
    }
  }

  lemma {:induction false} WithoutIds(q: seq<Rpc>, r: Rpc)
    requires forall a, b :: a in q && b in q && a.id == b.id ==> a == b
    requires r in q
    ensures Ids(Without(q, r)) == Without(Ids(q), r.id)
  {
    if q[0] != r {
      WithoutIds(q[1..], r);
      assert Ids(q) == [q[0].id] + Ids(q[1..]);
    } else {
      assert Ids(q)[1..] == Ids(q[1..]);
    }
  }

  function Ids(q: seq<Rpc>): seq<Id> {
    seq(|q|, i requires 0 <= i < |q| => q[i].id)
  }

  /** The rpcs tabled after gettag were tabled before, or are the new one. */
  lemma TakeHolds(t: Tags, c: Id)
    requires Ok(t)
    ensures !Blocked(t) ==> t.freetag <= |t.wait| && Slot(t) < |Grow(t).wait|
    ensures !Blocked(t) ==> forall i :: 0 <= i < |Take(t, c).wait| && Take(t, c).wait[i].Some? ==>
      Take(t, c).wait[i].value == c || (i < |t.wait| && Take(t, c).wait[i] == t.wait[i])
  {
    if !Blocked(t) {
      GrowOk(t);
      GetTagTotal(t, c);
    }
  }

  /** The step system's Start, when a tag is to be had, does what Register does. */
  lemma StartedAs(t: Tags, q: seq<Id>, c: Id)
    requires Ok(t) && !Blocked(t)
    ensures t.freetag <= |t.wait| && Slot(t) < |Grow(t).wait| && Take(t, c).mintag == t.mintag
    ensures StartStep(State(t, q, None, map[]), c) ==
      State(Take(t, c), [c] + q, None, map[c := Caller(Sending, Slot(t) + t.mintag, None)])
  {
    TakeHolds(t, c);
  }

  /** The part of IxpClient that the lock `lk` guards. */
  class Client {
    const table: Table
    const queue: Queue
    var muxer: Rpc?
    var rpcs: map<Id, Rpc>    // the rpcs that may be linked or tabled, by name

    ghost predicate Valid()
      reads this, table, table.wait, queue, queue.sleep, queue.q, rpcs.Values
    {
      && table.Valid() && queue.Valid()
      && (forall c :: c in rpcs ==> rpcs[c].id == c && rpcs[c] != queue.sleep)
      && (forall r :: r in queue.q ==> r.id in rpcs && rpcs[r.id] == r)
      && (forall c :: c in rpcs ==> (rpcs[c].prev == null <==> rpcs[c] !in queue.q))
      && (forall i :: 0 <= i < table.wait.Length && table.wait[i].Some? ==> table.wait[i].value in rpcs)
    }

    constructor ()
      ensures Valid() && muxer == null && rpcs == map[] && queue.q == []
      ensures table.View() == Init().tags
      ensures fresh(table) && fresh(table.wait) && fresh(queue) && fresh(queue.sleep)
    {
      table := new Table();
      queue := new Queue();
      muxer := null;
      rpcs := map[];
    }

    /** The locked part of sendrpc: take a tag and join the front of the queue. */
    method Register(c: Id) returns (blocked: bool, tag: nat)
      requires Valid() && c !in rpcs
      modifies this`rpcs, table, table.wait, queue`q, queue.sleep, queue.q
      ensures Valid()
      ensures blocked == Blocked(old(table.View()))
      ensures blocked ==> table.View() == old(table.View()) && queue.q == old(queue.q) && rpcs == old(rpcs)
      ensures !blocked ==>
        && Slot(old(table.View())) < |Grow(old(table.View())).wait|
        && table.View() == Take(old(table.View()), c) && tag == Slot(old(table.View())) + table.mintag
        && Ids(queue.q) == [c] + old(Ids(queue.q)) && rpcs.Keys == old(rpcs.Keys) + {c}
    {
      hide Take, Grow, Slot, Blocked;
      TakeHolds(table.View(), c);
      blocked, tag := table.GetTag(c);
      if !blocked {
        var r := new Rpc(c);
        rpcs := rpcs[c := r];
        queue.Enqueue(r);
        assert forall i :: 0 <= i < table.wait.Length ==> table.View().wait[i] == table.wait[i];
      }
    }

    /** dispatchandqlock: exactly the rpc named by Mux.Target gets the message. */
    method Dispatch(f: Reply) returns (woken: Rpc?)
      requires Valid()
      modifies queue`q, queue.sleep, queue.q
      ensures Valid()
      ensures var t := Target(table.View(), old(Ids(queue.q)), f.tag);
        match t
        case None => woken == null && queue.q == old(queue.q) && forall c :: c in rpcs ==> rpcs[c].p == old(rpcs[c].p)
        case Some(c) =>
          && c in rpcs && woken == rpcs[c] && rpcs[c].p == Some(f)
          && Ids(queue.q) == Without(old(Ids(queue.q)), c)
          && forall d :: d in rpcs && d != c ==> rpcs[d].p == old(rpcs[d].p)
    {
      woken := null;
      var tag := f.tag - table.mintag;
      if tag < 0 || tag >= table.mwait {
        return;
      }
      var slot := table.wait[tag];
      if slot.None? {
        return;
      }
      var r2 := rpcs[slot.value];
      QueuedByName(r2);
      if r2.prev == null {
        return;
      }
      WithoutIds(queue.q, r2);
      r2.p := Some(f);
      queue.Dequeue(r2);
      woken := r2;
    }

    lemma QueuedByName(r: Rpc)
      requires Valid() && r.id in rpcs && rpcs[r.id] == r
      ensures r in queue.q <==> r.id in Ids(queue.q)
    {
      if r.id in Ids(queue.q) {
        var i :| 0 <= i < |queue.q| && Ids(queue.q)[i] == r.id;
        assert queue.q[i] in queue.q;
      }
      if r in queue.q {
        var i :| 0 <= i < |queue.q| && queue.q[i] == r;
        assert Ids(queue.q)[i] == r.id;
      }
    }

    /** electmuxer: the first queued rpc, as Mux.Elect chooses it; nil when none is queued. */
    method ElectMuxer()
      requires Valid()
      modifies this`muxer
      ensures Valid()
      ensures if queue.q == [] then muxer == null else muxer != null && muxer.id == Ids(queue.q)[0]
      ensures forall s: State :: s.sleep == Ids(queue.q) && (s.sleep != [] ==> s.sleep[0] in s.callers) ==>
        Elect(s).muxer == if muxer == null then None else Some(muxer.id)
    {
      assert queue.Ring()[0].next == queue.Ring()[1];
      assert queue.q != [] ==> queue.Ring()[1] == queue.q[0] && queue.q[0] in queue.q;
      if queue.sleep.next != queue.sleep {
        muxer := queue.sleep.next;
      } else {
        muxer := null;
      }
    }
  }
}
