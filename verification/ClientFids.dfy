/** The client's fid numbers (client.c): a free list below the last number handed out. */
module ClientFids {
  import opened Basics

  const ROOT: nat := 1

  // ---- getfid and putfid ----

  /** The fid numbers above the root's: the free list, and what is handed out. */
  datatype Pool = Pool(last: nat, free: seq<nat>, used: set<nat>)

  /** Free and used fids are exactly the numbers above the root's up to the last one, each once. */
  ghost predicate Partition(p: Pool) {
    && p.last >= ROOT && NoDup(p.free)
    && (forall f :: f in p.free ==> f !in p.used)
    && (forall f :: f in p.free || f in p.used <==> ROOT < f <= p.last)
  }

  function GetFid(p: Pool): (r: (Pool, nat)) {
    if p.free != [] then (Pool(p.last, p.free[1..], p.used + {p.free[0]}), p.free[0])
    else (Pool(p.last + 1, [], p.used + {p.last + 1}), p.last + 1)
  }

  function PutFid(p: Pool, f: nat): Pool {
    if f == p.last then Pool(if p.last > 0 then p.last - 1 else 0, p.free, p.used - {f})
    else Pool(p.last, [f] + p.free, p.used - {f})
  }

  /** A fid handed out is one nobody holds. */
  lemma GetFidOk(p: Pool)
    requires Partition(p)
    ensures Partition(GetFid(p).0) && GetFid(p).1 !in p.used && GetFid(p).1 > ROOT
    ensures GetFid(p).0.used == p.used + {GetFid(p).1}
  {
    var (q, f) := GetFid(p);
    if p.free != [] {
      assert forall i :: 0 <= i < |q.free| ==> q.free[i] == p.free[i + 1];
      assert p.free == [p.free[0]] + q.free;
      assert f !in q.free;
    } else {
      assert forall g :: g in p.free ==> false;
      assert p.last + 1 !in p.used;
    }
  }

  lemma PutFidOk(p: Pool, f: nat)
    requires Partition(p) && f in p.used
    ensures Partition(PutFid(p, f)) && PutFid(p, f).used == p.used - {f}
  {
  }

  /** The fid given back last is handed out next, unless it was the last number: then the numbers shrink by it. */
  lemma BackAndForth(p: Pool, f: nat)
    requires Partition(p) && f in p.used
    ensures f != p.last || p.free == [] ==> GetFid(PutFid(p, f)).1 == f
    ensures f == p.last ==> PutFid(p, f).last == p.last - 1 && PutFid(p, f).free == p.free
    ensures p.free == [] ==> GetFid(p).1 == p.last + 1
    ensures p.free != [] ==> GetFid(p).1 == p.free[0] && GetFid(p).0.last == p.last
  {
  }

  /** An IxpClient, as far as its fids go; the free list is a sequence. */
  class Client {
    var lastfid: nat
    var freefid: seq<nat>
    ghost var used: set<nat>

    ghost function View(): Pool
      reads this
    {
      Pool(lastfid, freefid, used)
    }

    constructor ()
      ensures View() == Pool(ROOT, [], {}) && Partition(View())
    {
      lastfid, freefid, used := ROOT, [], {};
    }

    method Get() returns (f: nat)
      requires Partition(View())
      modifies this
      ensures Partition(View()) && View() == GetFid(old(View())).0
      ensures f > ROOT && f !in old(used) && used == old(used) + {f}
    {
      GetFidOk(View());
      if freefid != [] {
        f := freefid[0];
        freefid := freefid[1..];
      } else {
        lastfid := lastfid + 1;
        f := lastfid;
      }
      used := used + {f};
    }

    method Put(f: nat)
      requires Partition(View()) && f in used
      modifies this
      ensures Partition(View()) && View() == PutFid(old(View()), f) && used == old(used) - {f}
    {
      PutFidOk(View(), f);
      if f == lastfid {
        lastfid := lastfid - 1;
      } else {
        freefid := [f] + freefid;
      }
      used := used - {f};
    }
  }
}
