/**
 * The pool of reference-counted path nodes. Every fid owns a chain of nodes from
 * its file up to the root; chains of different fids share tails. A node is named
 * by its place in the pool blocks; `next`, `nref` and `tab` are the fields of all
 * nodes. What the chains stand for are plain paths, one for each fid.
 */
module FilePool {
  import opened Basics

  const POOL_CHUNK: nat := 15

  type Node = nat

  /**
   * Who owns a chain: a fid, the clone a walk works on, a node just looked up, or
   * nobody any more, for a node that was looked up for "." and dropped.
   */
  datatype Handle = OfFid(fid: nat) | Walking | Looked | Abandoned(node: Node)

  type Chains = map<Handle, seq<Node>>

  /** File names from a file up to the root. */
  type Path = seq<string>

  type Paths = map<Handle, Path>

  /** The names along a chain. */
  ghost predicate NamesAre(tab: seq<string>, s: seq<Node>, p: Path) {
    |p| == |s| && forall i :: 0 <= i < |s| ==> s[i] < |tab| && tab[s[i]] == p[i]
  }

  /** Every chain spells its path. */
  ghost predicate Named(tab: seq<string>, chains: Chains, paths: Paths) {
    paths.Keys == chains.Keys && forall h :: h in chains ==> NamesAre(tab, chains[h], paths[h])
  }

  /** s is linked through `next` and ends there. */
  ghost predicate Linked(next: seq<Option<Node>>, s: seq<Node>) {
    && (forall i :: 0 <= i < |s| ==> s[i] < |next|)
    && (forall i, j :: 0 <= i && j == i + 1 && j < |s| ==> next[s[i]] == Some(s[j]))
    && (s != [] ==> next[s[|s| - 1]].None?)
  }

  /** The owners whose chains pass through n. */
  ghost function Holders(chains: Chains, n: Node): set<Handle> {
    set h | h in chains && n in chains[h]
  }

  /** nref is the number of chains through the node. */
  ghost predicate Counted(nref: seq<nat>, chains: Chains) {
    forall n :: 0 <= n < |nref| ==> nref[n] == |Holders(chains, n)|
  }

  /** The free list holds exactly the nodes without references. */
  ghost predicate FreeListed(next: seq<Option<Node>>, nref: seq<nat>, free: Option<Node>, list: seq<Node>) {
    && |next| == |nref| && NoDup(list) && Linked(next, list)
    && (forall n :: 0 <= n < |nref| ==> (n in list <==> nref[n] == 0))
    && free == if list == [] then None else Some(list[0])
  }

  ghost predicate Chained(next: seq<Option<Node>>, chains: Chains) {
    forall h :: h in chains ==> NoDup(chains[h]) && Linked(next, chains[h])
  }

  /** The nodes whose reference nobody will give back. */
  ghost function Leaked(chains: Chains): set<Node> {
    set h | h in chains && h.Abandoned? :: h.node
  }

  /** An abandoned node is a chain of its own. */
  ghost predicate LeakInv(chains: Chains) {
    forall h :: h in chains && h.Abandoned? ==> chains[h] == [h.node]
  }

  /** Nothing is under way. */
  ghost predicate Settled(chains: Chains) {
    Walking !in chains && Looked !in chains && LeakInv(chains)
  }

  /** The fids whose chains pass through n. */
  ghost function FidHolders(chains: Chains, n: Node): set<Handle> {
    set h | h in chains && h.OfFid? && n in chains[h]
  }

  /** What reference counting is for: nref is the number of fids whose chains pass through the node. */
  ghost predicate CountsRight(nref: seq<nat>, chains: Chains) {
    forall n :: 0 <= n < |nref| ==> nref[n] == |FidHolders(chains, n)|
  }

  /** All but the abandoned is the same. */
  ghost predicate SameFids<T(!new)>(a: map<Handle, T>, b: map<Handle, T>) {
    forall h: Handle :: !h.Abandoned? ==> (h in a <==> h in b) && (h in a ==> a[h] == b[h])
  }

  /** The counts are right exactly when nothing was abandoned, and never too low. */
  lemma RightIffNothingLeaked(next: seq<Option<Node>>, nref: seq<nat>, chains: Chains)
    requires Counted(nref, chains) && Settled(chains) && Chained(next, chains) && |next| == |nref|
    ensures CountsRight(nref, chains) <==> Leaked(chains) == {}
    ensures forall n :: 0 <= n < |nref| ==> nref[n] >= |FidHolders(chains, n)|
  {
    forall n | 0 <= n < |nref|
      ensures nref[n] >= |FidHolders(chains, n)|
      ensures n in Leaked(chains) <==> nref[n] > |FidHolders(chains, n)|
    {
      if n in Leaked(chains) {
        assert Abandoned(n) in Holders(chains, n);
        Fewer(FidHolders(chains, n), Holders(chains, n), Abandoned(n));
      } else {
        assert Holders(chains, n) == FidHolders(chains, n);
      }
    }
    forall n | n in Leaked(chains) ensures n < |nref| { assert Linked(next, chains[Abandoned(n)]); }
  }

  lemma Fewer(a: set<Handle>, b: set<Handle>, h: Handle)
    requires a <= b && h in b && h !in a
    ensures |a| < |b|
  {
    assert b == a + (b - a);
  }

  // ---- Linking ----

  /** Writing one node's `next` leaves alone the lists it is not on. */
  lemma LinkedFrame(next: seq<Option<Node>>, s: seq<Node>, n: Node, v: Option<Node>)
    requires Linked(next, s) && n < |next| && n !in s
    ensures Linked(next[n := v], s)
  {
  }

  lemma LinkedCons(next: seq<Option<Node>>, n: Node, s: seq<Node>)
    requires n < |next| && Linked(next, s) && next[n] == (if s == [] then None else Some(s[0]))
    ensures Linked(next, [n] + s)
  {
    var t := [n] + s;
    assert forall i :: 0 < i < |t| ==> t[i] == s[i - 1];
  }

  lemma LinkedTail(next: seq<Option<Node>>, s: seq<Node>)
    requires Linked(next, s) && s != []
    ensures Linked(next, s[1..]) && next[s[0]] == (if |s| == 1 then None else Some(s[1]))
  {
    var t := s[1..];
    assert forall i :: 0 <= i < |t| ==> t[i] == s[i + 1];
  }

  lemma LinkedGrow(next: seq<Option<Node>>, more: seq<Option<Node>>, s: seq<Node>)
    requires Linked(next, s)
    ensures Linked(next + more, s)
  {
  }

  /** The `next` of the first node of a chain. */
  lemma NextOf(next: seq<Option<Node>>, chains: Chains, h: Handle)
    requires Chained(next, chains) && h in chains && chains[h] != []
    ensures chains[h][0] < |next| && next[chains[h][0]] == (if |chains[h]| == 1 then None else Some(chains[h][1]))
    ensures Linked(next, chains[h][1..]) && NoDup(chains[h][1..])
  {
    assert Linked(next, chains[h]);
    LinkedTail(next, chains[h]);
  }

  // ---- Counting ----

  lemma HoldersSame(chains: Chains, chains': Chains, n: Node)
    requires forall h :: (h in chains && n in chains[h]) <==> (h in chains' && n in chains'[h])
    ensures Holders(chains', n) == Holders(chains, n)
  {
  }

  lemma HoldersAdd(chains: Chains, h: Handle, s: seq<Node>, n: Node)
    requires h in chains ==> n !in chains[h]
    ensures n in s ==> |Holders(chains[h := s], n)| == |Holders(chains, n)| + 1
    ensures n !in s ==> Holders(chains[h := s], n) == Holders(chains, n)
  {
    if n in s {
      assert Holders(chains[h := s], n) == Holders(chains, n) + {h};
    }
  }

  lemma HoldersDrop(chains: Chains, h: Handle, s: seq<Node>, n: Node)
    requires h in chains && n in chains[h]
    ensures n !in s ==> |Holders(chains[h := s], n)| == |Holders(chains, n)| - 1
    ensures n in s ==> Holders(chains[h := s], n) == Holders(chains, n)
  {
    if n !in s {
      assert Holders(chains, n) == Holders(chains[h := s], n) + {h};
    }
  }

  /** A node nobody counts is on no chain. */
  lemma Unheld(nref: seq<nat>, chains: Chains, n: Node)
    requires Counted(nref, chains) && n < |nref| && nref[n] == 0
    ensures forall h :: h in chains ==> n !in chains[h]
  {
    forall h | h in chains ensures n !in chains[h] {
      assert h in Holders(chains, n) <==> n in chains[h];
    }
  }

  class Pool {
    var next: seq<Option<Node>>
    var nref: seq<nat>
    var tab: seq<string>              // tab.name
    var free: Option<Node>            // free_fileid
    ghost var freeList: seq<Node>
    ghost var chains: Chains          // the chain of each fid, and of walks under way
    ghost var paths: Paths            // what the chains spell

    ghost predicate Valid()
      reads this
    {
      && FreeListed(next, nref, free, freeList) && Chained(next, chains) && Counted(nref, chains) && |nref| % POOL_CHUNK == 0
      && |tab| == |nref| && Named(tab, chains, paths)
    }

    /** No node that an owner can reach is free. */
    ghost predicate AllLiveKept()
      reads this
    {
      forall h, n :: h in chains && n in chains[h] ==> n < |nref| && nref[n] > 0 && n !in freeList
    }

    lemma LiveNotFree()
      requires Valid()
      ensures AllLiveKept()
    {
      forall h, n | h in chains && n in chains[h]
        ensures n < |nref| && nref[n] > 0 && n !in freeList
      {
        assert Linked(next, chains[h]);
        TailHeld(nref, freeList, chains, h);
      }
    }

    lemma RightNow()
      requires Valid() && Settled(chains)
      ensures CountsRight(nref, chains) <==> Leaked(chains) == {}
      ensures forall n :: 0 <= n < |nref| ==> nref[n] >= |FidHolders(chains, n)|
    {
      FreeHead(next, nref, free, freeList);
      RightIffNothingLeaked(next, nref, chains);
    }

    constructor ()
      ensures Valid() && chains == map[] && nref == []
    {
      next, nref, tab, free, freeList, chains, paths := [], [], [], None, [], map[], map[];
    }

    /** ixp_srv_getfile: a node with one reference, off the free list, for a new owner. */
    method GetFile(ghost h: Handle) returns (file: Node)
      requires Valid() && h !in chains
      modifies this
      ensures Valid() && chains == old(chains)[h := [file]]
      ensures |nref| == |old(nref)| + (if old(free).None? then 15 else 0) && file < |nref|
      ensures Holders(chains, file) == {h} && forall g :: g in old(chains) ==> file !in old(chains)[g]
      ensures paths == old(paths)[h := [tab[file]]]
    {
      hide Linked, Chained, Counted, FreeListed, Named, Holders;
      if free.None? {
        AddBlock();
      }
      file := free.value;
      FreeHead(next, nref, free, freeList);
      Unheld(nref, chains, file);
      TakenFrame(next, nref, freeList, chains, file, h);
      NamedTake(tab, chains, paths, h, file);
      free := next[file];
      next := next[file := None];
      nref := nref[file := 1];
      freeList := freeList[1..];
      chains := chains[h := [file]];
      paths := paths[h := [tab[file]]];
    }

    /** The owner of a node of its own names it. */
    method SetName(n: Node, name: string, ghost h: Handle)
      requires Valid() && h in chains && chains[h] == [n] && Holders(chains, n) == {h}
      modifies this`tab, this`paths
      ensures Valid() && paths == old(paths)[h := [name]]
    {
      hide Linked, Chained, Counted, FreeListed, Named, Holders;
      NamedLength(tab, chains, paths, h);
      assert n in chains[h];
      OnlyHolder(chains, h, n);
      NamedSet(tab, chains, paths, h, n, name);
      tab := tab[n := name];
      paths := paths[h := [name]];
    }

    /** A new block: each of its nodes is pushed on the free list. */
    method AddBlock()
      requires Valid() && free.None?
      modifies this
      ensures Valid() && free.Some? && chains == old(chains) && |nref| == |old(nref)| + 15 && paths == old(paths)
    {
      for i := 0 to POOL_CHUNK
        invariant FreeListed(next, nref, free, freeList) && Chained(next, chains) && Counted(nref, chains)
        invariant chains == old(chains) && |nref| == |old(nref)| + i && |freeList| == i
        invariant |tab| == |nref| && Named(tab, chains, paths) && paths == old(paths)
      {
        PushedFrame(next, nref, free, freeList, chains);
        freeList := [|next|] + freeList;
        next, nref, tab, free := next + [free], nref + [0], tab + [""], Some(|next|);
      }
    }

    /** ixp_srv_freefile on the first node of h's chain: h gives up that node. */
    method FreeFile(n: Node, ghost h: Handle)
      requires Valid() && h in chains && chains[h] != [] && chains[h][0] == n
      modifies this
      ensures Valid() && chains == old(chains)[h := old(chains)[h][1..]] && |nref| == |old(nref)|
      ensures h in old(paths) && old(paths)[h] != [] && paths == old(paths)[h := old(paths)[h][1..]]
    {
      hide Linked, Chained, Counted, FreeListed, Named;
      FreeHead(next, nref, free, freeList);
      NextOf(next, chains, h);
      NamedLength(tab, chains, paths, h);
      NamedDrop(tab, chains, paths, h);
      ReleasedCount(nref, next, chains, h, n);
      DroppedChained(next, chains, h);
      ghost var n0, rest := nref, chains[h][1..];
      nref := nref[n := nref[n] - 1];
      chains := chains[h := rest];
      paths := paths[h := paths[h][1..]];
      if nref[n] == 0 {
        Unheld(nref, chains, n);
        FreedFrame(next, n0, nref, free, freeList, chains, n);
        next := next[n := free];
        free := Some(n);
        freeList := [n] + freeList;
      } else {
        StillHeld(next, n0, nref, free, freeList, n);
      }
    }

    /** The release loop: read `next`, then let go of the node. */
    method ReleaseAll(file: Option<Node>, ghost h: Handle)
      requires Valid() && h in chains && file == (if chains[h] == [] then None else Some(chains[h][0]))
      modifies this
      ensures Valid() && chains == old(chains)[h := []] && |nref| == |old(nref)| && paths == old(paths)[h := []]
    {
      hide Linked, Chained, Counted, FreeListed, NamesAre;
      var f := file;
      while f.Some?
        invariant Valid() && h in chains && h in paths && f == (if chains[h] == [] then None else Some(chains[h][0]))
        invariant chains == old(chains)[h := chains[h]] && |nref| == |old(nref)| && paths == old(paths)[h := paths[h]]
        decreases |chains[h]|
      {
        NextOf(next, chains, h);
        var n := f.value;
        f := next[n];
        FreeFile(n, h);
      }
      NamedLength(tab, chains, paths, h);
    }

    /** The counting loop of ixp_srv_clonefiles: one more reference for every node from p on. */
    method BumpTail(start: Option<Node>, ghost tail: seq<Node>)
      requires |nref| == |next| && Linked(next, tail) && NoDup(tail) && start == (if tail == [] then None else Some(tail[0]))
      modifies this`nref
      ensures |nref| == |old(nref)|
      ensures forall m :: 0 <= m < |nref| ==> nref[m] == old(nref)[m] + (if m in tail then 1 else 0)
    {
      var p := start;
      ghost var k := 0;
      while p.Some?
        invariant k <= |tail| && p == (if k < |tail| then Some(tail[k]) else None) && |nref| == |old(nref)|
        invariant forall m :: 0 <= m < |nref| ==> nref[m] == old(nref)[m] + (if m in tail[..k] then 1 else 0)
        decreases |tail| - k
      {
        assert tail[..k + 1] == tail[..k] + [tail[k]];
        assert k + 1 < |tail| ==> next[tail[k]] == Some(tail[k + 1]);
        nref := nref[p.value := nref[p.value] + 1];
        p, k := next[p.value], k + 1;
      }
      assert tail[..k] == tail;
    }

    /** The copied node r takes over f's name and `next`, and the nodes behind it gain a reference. */
    method ShareTail(r: Node, f: Node, ghost h: Handle, ghost w: Handle)
      requires Valid() && h in chains && chains[h] != [] && chains[h][0] == f && w in chains && h != w
      requires chains[w] == [r] && r < |next| && r !in freeList && forall g :: g in chains && g != w ==> r !in chains[g]
      modifies this
      ensures Valid() && chains == old(chains)[w := [r] + old(chains)[h][1..]]
      ensures h in old(paths) && paths == old(paths)[w := old(paths)[h]]
    {
      hide Linked, Chained, Counted, FreeListed, Named;
      FreeHead(next, nref, free, freeList);
      NamedLength(tab, chains, paths, h);
      NamedClone(tab, chains, paths, h, w, r);
      tab := tab[r := tab[f]];
      paths := paths[w := paths[h]];
      ghost var tail := chains[h][1..];
      NextOf(next, chains, h);
      var p := next[f];
      CloneLinks(next, nref, free, freeList, chains, h, w, r);
      next := next[r := p];
      ghost var n0 := nref;
      BumpTail(p, tail);
      CloneCounts(next, n0, nref, free, freeList, chains, h, w, r);
      chains := chains[w := [r] + tail];
    }

    /** ixp_srv_clonefiles: a fresh first node over h's shared tail, for a new owner w. */
    method CloneFiles(f: Node, ghost h: Handle, ghost w: Handle) returns (r: Node)
      requires Valid() && h in chains && chains[h] != [] && chains[h][0] == f && w !in chains
      modifies this
      ensures Valid() && chains == old(chains)[w := [r] + old(chains)[h][1..]]
      ensures h in old(paths) && paths == old(paths)[w := old(paths)[h]]
    {
      hide Linked, Chained, Counted, Named, Holders;
      r := GetFile(w);
      HeldNotFree(nref, freeList, chains, w, r);
      ShareTail(r, f, h, w);
    }

    /** The push of a walk: the looked-up node x goes in front of w's chain. */
    method PushFile(x: Node, f: Node, ghost t: Handle, ghost w: Handle)
      requires Valid() && t in chains && w in chains && t != w && chains[t] == [x]
      requires Holders(chains, x) == {t} && chains[w] != [] && chains[w][0] == f
      modifies this
      ensures Valid() && chains == (old(chains) - {t})[w := [x] + old(chains)[w]] && |nref| == |old(nref)|
      ensures t in old(paths) && w in old(paths) && paths == (old(paths) - {t})[w := old(paths)[t] + old(paths)[w]]
    {
      hide Linked, Chained, Counted, FreeListed, Named, Holders;
      FreeHead(next, nref, free, freeList);
      NamedLength(tab, chains, paths, t);
      assert x in chains[t];
      NamedPush(tab, chains, paths, t, w, x);
      paths := (paths - {t})[w := paths[t] + paths[w]];
      PushFrame(next, nref, free, freeList, chains, x, t, w);
      next := next[x := Some(f)];
      chains := (chains - {t})[w := [x] + chains[w]];
    }

    /** An emptied owner is forgotten. */
    ghost method Forget(h: Handle)
      requires Valid() && h in chains && chains[h] == []
      modifies this`chains, this`paths
      ensures Valid() && chains == old(chains) - {h} && paths == old(paths) - {h}
    {
      paths := paths - {h};
      forall m | 0 <= m < |nref| ensures nref[m] == |Holders(chains - {h}, m)| { HoldersSame(chains, chains - {h}, m); }
      chains := chains - {h};
    }

    /** A chain changes hands. */
    ghost method Rename(w: Handle, h: Handle)
      requires Valid() && w in chains && h != w && (h in chains ==> chains[h] == [])
      modifies this`chains, this`paths
      ensures Valid() && chains == (old(chains) - {w})[h := old(chains)[w]]
      ensures w in old(paths) && paths == (old(paths) - {w})[h := old(paths)[w]]
    {
      paths := (paths - {w})[h := paths[w]];
      RenameCounts(nref, chains, w, h);
      chains := (chains - {w})[h := chains[w]];
    }

    /** A walk under way has reached the path p; all else is as c0 and p0. */
    ghost predicate Underway(c0: Chains, p0: Paths, file: Node, p: Path)
      reads this
    {
      && Valid() && Walking in chains && Looked !in chains && chains == c0[Walking := chains[Walking]]
      && chains[Walking] != [] && chains[Walking][0] == file && paths == p0[Walking := p]
    }

    /** ".." lets go of the first node, unless it is the root. */
    method WalkUp(file: Node, ghost c0: Chains, ghost p0: Paths, ghost p: Path) returns (file': Node)
      requires Underway(c0, p0, file, p)
      modifies this
      ensures Underway(c0, p0, file', if |p| > 1 then p[1..] else p)
      ensures chains[Walking] == if |p| > 1 then old(chains[Walking])[1..] else old(chains[Walking])
    {
      hide Linked, Chained, Counted, FreeListed, Named;
      file' := file;
      NextOf(next, chains, Walking);
      NamedLength(tab, chains, paths, Walking);
      if next[file].Some? {
        file' := next[file].value;
        FreeFile(file, Walking);
      }
    }

    /** A name that the lookup finds: a new node goes in front. */
    method WalkDown(file: Node, name: string, ghost c0: Chains, ghost p0: Paths, ghost p: Path) returns (x: Node)
      requires Underway(c0, p0, file, p)
      modifies this
      ensures Underway(c0, p0, x, [name] + p)
    {
      hide Linked, Chained, Counted, FreeListed, NamesAre;
      ghost var c1, p1 := chains, paths;
      x := GetFile(Looked);
      SetName(x, name, Looked);
      PushFile(x, file, Looked, Walking);
      WalkDownMaps(c0, c1, chains, x);
      WalkDownPaths(p0, p1, paths, p, name);
    }

    /** The end of a walk: give the clone up, or hand it to the fid walked to. */
    method EndWalk(ok: bool, f: Node, file: Node, fid: nat, newfid: nat, ghost c0: Chains, ghost p0: Paths, ghost p: Path)
      requires Underway(c0, p0, file, p) && Walking !in c0 && Walking !in p0 && (newfid != fid ==> OfFid(newfid) !in c0)
      requires OfFid(fid) in c0 && c0[OfFid(fid)] != [] && c0[OfFid(fid)][0] == f
      modifies this
      ensures Valid() && chains == (if ok then c0[OfFid(newfid) := old(chains)[Walking]] else c0)
      ensures paths == if ok then p0[OfFid(newfid) := p] else p0
    {
      hide Linked, Chained, Counted, FreeListed, NamesAre;
      ghost var path := chains[Walking];
      if !ok {
        ReleaseAll(Some(file), Walking);
        Forget(Walking);
        assert chains == c0 && paths == p0;
      } else if fid == newfid {
        ReleaseAll(Some(f), OfFid(fid));
        Rename(Walking, OfFid(fid));
        assert chains == c0[OfFid(fid) := path] && paths == p0[OfFid(fid) := p];
      } else {
        Rename(Walking, OfFid(newfid));
        assert chains == c0[OfFid(newfid) := path] && paths == p0[OfFid(newfid) := p];
      }
    }

    /** "." is looked up like any name, and what was found is dropped without being released. */
    method WalkStay(file: Node, ghost c0: Chains, ghost p0: Paths, ghost p: Path) returns (ghost c1: Chains, ghost p1: Paths)
      requires Underway(c0, p0, file, p) && LeakInv(c0) && p0.Keys == c0.Keys
      modifies this
      ensures Underway(c1, p1, file, p) && Grown(c0, p0, c1, p1, 1)
    {
      hide Linked, Chained, Counted, FreeListed, NamesAre, Grown;
      ghost var before := chains;
      var x := GetFile(Looked);
      NotAbandoned(c0, before, x);
      SetName(x, ".", Looked);
      OnlyHolder(chains, Looked, x);
      c1, p1 := c0[Abandoned(x) := [x]], p0[Abandoned(x) := ["."]];
      GrownOne(c0, p0, x);
      Rename(Looked, Abandoned(x));
      assert chains == c1[Walking := chains[Walking]];
    }

    /** The loop over the names, up to the end or to the first that is not found. */
    method WalkNames(start: Node, names: seq<string>, tree: Tree, ghost c0: Chains, ghost p0: Paths, ghost from: Path)
      returns (ok: bool, file: Node, ghost p: Path, ghost c1: Chains, ghost p1: Paths)
      requires Underway(c0, p0, start, from) && LeakInv(c0) && p0.Keys == c0.Keys
      modifies this
      ensures Underway(c1, p1, file, p) && Grown(c0, p0, c1, p1, DotsFound(tree, from, names))
      ensures Walked(tree, from, names) == if ok then Some(p) else None
    {
      hide Linked, Chained, Counted, FreeListed, Named, Walked, DotsFound, Grown;
      file, p, c1, p1 := start, from, c0, p0;
      var at := PathOf(file, from);
      var i := 0;
      assert names[0..] == names;
      GrownSelf(c0, p0);
      ghost var dots := 0;
      while i < |names|
        invariant 0 <= i <= |names| && Underway(c1, p1, file, p) && at == p
        invariant Walked(tree, from, names) == Walked(tree, p, names[i..])
        invariant Grown(c0, p0, c1, p1, dots) && DotsFound(tree, from, names) == dots + DotsFound(tree, p, names[i..])
      {
        WalkedNext(tree, p, names, i);
        if names[i] == ".." {
          file := WalkUp(file, c1, p1, p);
          at, p := Up(at), Up(p);
        } else {
          if !tree(at, names[i]) {
            return false, file, p, c1, p1;
          }
          if names[i] != "." {
            file := WalkDown(file, names[i], c1, p1, p);
            at, p := [names[i]] + at, [names[i]] + p;
          } else {
            ghost var c, q := c1, p1;
            GrownLeaks(c0, p0, c1, p1, dots);
            c1, p1 := WalkStay(file, c1, p1, p);
            GrownAgain(c0, p0, c, q, dots, c1, p1);
            dots := dots + 1;
          }
        }
        i := i + 1;
      }
      WalkedEnd(tree, p, names);
      ok := true;
    }

    /** The path from a node, by following `next`. */
    method PathOf(file: Node, ghost p: Path) returns (at: Path)
      requires Valid() && Walking in chains && chains[Walking] != [] && chains[Walking][0] == file
      requires Walking in paths && paths[Walking] == p
      ensures at == p
    {
      ghost var s := chains[Walking];
      assert NamesAre(tab, s, p) && Linked(next, s);
      var f := Some(file);
      at := [];
      while f.Some?
        invariant |at| <= |p| && at == p[..|at|] && f == (if |at| < |s| then Some(s[|at|]) else None)
        decreases |s| - |at|
      {
        ghost var k := |at|;
        assert k + 1 < |s| ==> next[s[k]] == Some(s[k + 1]);
        at := at + [tab[f.value]];
        f := next[f.value];
      }
    }

    /**
     * ixp_srv_walkandclone. A failed walk leaves every fid's chain as it was; otherwise
     * the fid walked to (the same one, for an in-place walk) owns a chain that
     * spells the path the names lead to, and no other fid's chain changes. Either way
     * the counts are still right if and only if no "." was found on the way.
     */
    method WalkAndClone(f: Node, fid: nat, newfid: nat, names: seq<string>, tree: Tree) returns (ok: bool, file: Node)
      requires Valid() && Settled(chains)
      requires OfFid(fid) in chains && chains[OfFid(fid)] != [] && chains[OfFid(fid)][0] == f
      requires newfid != fid ==> OfFid(newfid) !in chains
      modifies this
      ensures Valid() && Settled(chains) && OfFid(fid) in old(paths)
      ensures ok <==> Walked(tree, old(paths)[OfFid(fid)], names).Some?
      ensures !ok ==> SameFids(old(chains), chains) && SameFids(old(paths), paths)
      ensures ok ==> SameFids(old(paths)[OfFid(newfid) := Walked(tree, old(paths)[OfFid(fid)], names).value], paths)
      ensures ok ==>
        && OfFid(newfid) in chains && SameFids(old(chains)[OfFid(newfid) := chains[OfFid(newfid)]], chains)
        && chains[OfFid(newfid)] != [] && chains[OfFid(newfid)][0] == file
      ensures |Leaked(chains)| == |Leaked(old(chains))| + DotsFound(tree, old(paths)[OfFid(fid)], names)
      ensures CountsRight(old(nref), old(chains)) ==>
        (CountsRight(nref, chains) <==> DotsFound(tree, old(paths)[OfFid(fid)], names) == 0)
    {
      hide Linked, Chained, Counted, FreeListed, NamesAre, Leaked, CountsRight, Walked, DotsFound;
      hide Grown, SameFids;
      ghost var c0, p0 := chains, paths;
      RightNow();
      var start := CloneFiles(f, OfFid(fid), Walking);
      ghost var p, c1, p1;
      ok, file, p, c1, p1 := WalkNames(start, names, tree, c0, p0, p0[OfFid(fid)]);
      GrownFids(c0, p0, c1, p1, DotsFound(tree, p0[OfFid(fid)], names), fid, newfid);
      EndWalk(ok, f, file, fid, newfid, c1, p1, p);
      WalkOver(c0, p0, c1, p1, DotsFound(tree, p0[OfFid(fid)], names), newfid, p, chains, paths);
      RightNow();
    }
  }

  /** c1 and p1 are c0 and p0 with k more nodes abandoned. */
  ghost predicate Grown(c0: Chains, p0: Paths, c1: Chains, p1: Paths, k: nat) {
    && SameFids(c0, c1) && SameFids(p0, p1) && LeakInv(c1) && p1.Keys == c1.Keys
    && |Leaked(c1)| == |Leaked(c0)| + k
  }

  /** The end of a walk adds the fid walked to, or nothing. */
  lemma WalkOver(c0: Chains, p0: Paths, c1: Chains, p1: Paths, k: nat, newfid: nat, p: Path, c: Chains, q: Paths)
    requires Settled(c0) && Grown(c0, p0, c1, p1, k)
    requires (c == c1 && q == p1) || (OfFid(newfid) in c && c == c1[OfFid(newfid) := c[OfFid(newfid)]] && q == p1[OfFid(newfid) := p])
    ensures Settled(c) && |Leaked(c)| == |Leaked(c0)| + k
    ensures c == c1 && q == p1 ==> SameFids(c0, c) && SameFids(p0, q)
    ensures OfFid(newfid) in c && c == c1[OfFid(newfid) := c[OfFid(newfid)]] && q == p1[OfFid(newfid) := p] ==>
      SameFids(c0[OfFid(newfid) := c[OfFid(newfid)]], c) && SameFids(p0[OfFid(newfid) := p], q)
  {
    LeakedFids(c1, c);
  }

  lemma NotAbandoned(c0: Chains, c: Chains, x: Node)
    requires LeakInv(c0) && Walking in c && c == c0[Walking := c[Walking]] && forall g :: g in c ==> x !in c[g]
    ensures Abandoned(x) !in c0
  {
    assert forall g :: g in c0 && g.Abandoned? ==> g in c && g.node in c[g];
  }

  lemma GrownFids(c0: Chains, p0: Paths, c1: Chains, p1: Paths, k: nat, fid: nat, newfid: nat)
    requires Settled(c0) && Grown(c0, p0, c1, p1, k) && OfFid(fid) in c0 && p0.Keys == c0.Keys
    ensures Walking !in c1 && Walking !in p1 && OfFid(fid) in c1 && c1[OfFid(fid)] == c0[OfFid(fid)]
    ensures OfFid(newfid) in c1 <==> OfFid(newfid) in c0
  {
  }

  lemma GrownOne(c0: Chains, p0: Paths, x: Node)
    requires LeakInv(c0) && p0.Keys == c0.Keys && Abandoned(x) !in c0
    ensures Grown(c0, p0, c0[Abandoned(x) := [x]], p0[Abandoned(x) := ["."]], 1)
  {
    LeakedOne(c0, x);
  }

  lemma GrownSelf(c0: Chains, p0: Paths)
    requires LeakInv(c0) && p0.Keys == c0.Keys
    ensures Grown(c0, p0, c0, p0, 0)
  {
  }

  lemma GrownLeaks(c0: Chains, p0: Paths, c1: Chains, p1: Paths, k: nat)
    requires Grown(c0, p0, c1, p1, k)
    ensures LeakInv(c1) && p1.Keys == c1.Keys
  {
  }

  lemma GrownAgain(c0: Chains, p0: Paths, c1: Chains, p1: Paths, k: nat, c2: Chains, p2: Paths)
    requires Grown(c0, p0, c1, p1, k) && Grown(c1, p1, c2, p2, 1)
    ensures Grown(c0, p0, c2, p2, k + 1)
  {
  }

  lemma LeakedOne(c: Chains, x: Node)
    requires Abandoned(x) !in c
    ensures |Leaked(c[Abandoned(x) := [x]])| == |Leaked(c)| + 1
  {
    assert Leaked(c[Abandoned(x) := [x]]) == Leaked(c) + {x};
  }

  /** Chains of fids do not matter to what is abandoned. */
  lemma LeakedFids(c: Chains, d: Chains)
    requires forall h: Handle :: h.Abandoned? ==> (h in c <==> h in d)
    ensures Leaked(d) == Leaked(c)
  {
  }

  /** What lookup finds: whether a directory, given by its path, has an entry of that name. */
  type Tree = (Path, string) -> bool

  /** ".." stays at the root. */
  function Up(p: Path): Path {
    if |p| > 1 then p[1..] else p
  }

  /** Where a walk of these names from p ends, unless a lookup fails; "." must be found, and stays. */
  function Walked(tree: Tree, p: Path, names: seq<string>): Option<Path>
    decreases |names|
  {
    if names == [] then Some(p)
    else if names[0] == ".." then Walked(tree, Up(p), names[1..])
    else if !tree(p, names[0]) then None
    else if names[0] == "." then Walked(tree, p, names[1..])
    else Walked(tree, [names[0]] + p, names[1..])
  }

  /** How many "." a walk of these names from p finds before a lookup fails. */
  function DotsFound(tree: Tree, p: Path, names: seq<string>): nat
    decreases |names|
  {
    if names == [] then 0
    else if names[0] == ".." then DotsFound(tree, Up(p), names[1..])
    else if !tree(p, names[0]) then 0
    else if names[0] == "." then 1 + DotsFound(tree, p, names[1..])
    else DotsFound(tree, [names[0]] + p, names[1..])
  }

  lemma WalkedNext(tree: Tree, p: Path, names: seq<string>, i: nat)
    requires i < |names|
    ensures Walked(tree, p, names[i..]) ==
      if names[i] == ".." then Walked(tree, Up(p), names[i + 1..])
      else if !tree(p, names[i]) then None
      else if names[i] == "." then Walked(tree, p, names[i + 1..])
      else Walked(tree, [names[i]] + p, names[i + 1..])
    ensures DotsFound(tree, p, names[i..]) ==
      if names[i] == ".." then DotsFound(tree, Up(p), names[i + 1..])
      else if !tree(p, names[i]) then 0
      else if names[i] == "." then 1 + DotsFound(tree, p, names[i + 1..])
      else DotsFound(tree, [names[i]] + p, names[i + 1..])
  {
    assert names[i..][1..] == names[i + 1..];
  }

  // ---- Where walks lead ----

  /** Names that are neither "." nor "..". */
  predicate Proper(names: seq<string>) {
    forall i :: 0 <= i < |names| ==> names[i] != "." && names[i] != ".."
  }

  /** The names walked, last first, in front of where the walk began. */
  function Below(p: Path, names: seq<string>): Path
    decreases |names|
  {
    if names == [] then p else Below([names[0]] + p, names[1..])
  }

  lemma {:induction false} BelowAt(p: Path, names: seq<string>)
    ensures var q := Below(p, names);
      && |q| == |names| + |p|
      && (forall i :: 0 <= i < |names| ==> q[i] == names[|names| - 1 - i])
      && q[|names|..] == p
    decreases |names|
  {
    if names != [] { BelowAt([names[0]] + p, names[1..]); }
  }

  /** Every name is found where the names before it lead. */
  predicate AllFound(tree: Tree, p: Path, names: seq<string>)
    decreases |names|
  {
    names == [] || (tree(p, names[0]) && AllFound(tree, [names[0]] + p, names[1..]))
  }

  /** Walking names down: it works exactly if each one is found, and leads to the path with them in front, last first. */
  lemma {:induction false} WalkedDown(tree: Tree, p: Path, names: seq<string>)
    requires Proper(names)
    ensures Walked(tree, p, names).Some? <==> AllFound(tree, p, names)
    ensures Walked(tree, p, names).Some? ==> Walked(tree, p, names).value == Below(p, names)
    decreases |names|
  {
    if names != [] { WalkedDown(tree, [names[0]] + p, names[1..]); }
  }

  function Dotdots(k: nat): (r: seq<string>)
    ensures |r| == k && forall i :: 0 <= i < k ==> r[i] == ".."
  {
    seq(k, _ => "..")
  }

  /** Walking up: each ".." takes off the first name, and the root stays. */
  lemma {:induction false} WalkedUp(tree: Tree, p: Path, k: nat)
    requires p != []
    ensures Walked(tree, p, Dotdots(k)) == Some(p[if k < |p| then k else |p| - 1..])
    decreases k
  {
    if k > 0 {
      assert Dotdots(k)[1..] == Dotdots(k - 1);
      WalkedUp(tree, if |p| > 1 then p[1..] else p, k - 1);
    }
  }

  /** A walk in two parts. */
  lemma {:induction false} WalkedSplit(tree: Tree, p: Path, a: seq<string>, b: seq<string>)
    ensures Walked(tree, p, a + b) ==
      match Walked(tree, p, a) case None => None case Some(q) => Walked(tree, q, b)
    decreases |a|
  {
    if a == [] {
      assert a + b == b;
    } else {
      assert (a + b)[1..] == a[1..] + b;
      if a[0] == ".." {
        WalkedSplit(tree, Up(p), a[1..], b);
      } else if a[0] == "." {
        WalkedSplit(tree, p, a[1..], b);
      } else {
        WalkedSplit(tree, [a[0]] + p, a[1..], b);
      }
    }
  }

  /** There and back: names that are found, then as many "..", lead back to where the walk began. */
  lemma ThereAndBack(tree: Tree, p: Path, names: seq<string>)
    requires p != [] && Proper(names) && AllFound(tree, p, names)
    ensures Walked(tree, p, names + Dotdots(|names|)) == Some(p)
  {
    WalkedDown(tree, p, names);
    BelowAt(p, names);
    WalkedUp(tree, Below(p, names), |names|);
    WalkedSplit(tree, p, names, Dotdots(|names|));
  }

  /** One name and "..": back again; ".." from the root: the root; ".": the same place, if it is found. */
  lemma OneUp(tree: Tree, p: Path, n: string)
    requires p != [] && n != "." && n != ".." && tree(p, n)
    ensures Walked(tree, p, [n, ".."]) == Some(p)
    ensures Walked(tree, ["/"], [".."]) == Some(["/"])
    ensures Walked(tree, p, ["."]) == if tree(p, ".") then Some(p) else None
  {
    assert Dotdots(1) == [".."] && [n] + [".."] == [n, ".."];
    assert AllFound(tree, [n] + p, []) && [n][1..] == [];
    ThereAndBack(tree, p, [n]);
    WalkedUp(tree, ["/"], 1);
    assert ["."][1..] == [];
  }

  lemma WalkedEnd(tree: Tree, p: Path, names: seq<string>)
    ensures Walked(tree, p, names[|names|..]) == Some(p) && DotsFound(tree, p, names[|names|..]) == 0
  {
  }

  // ---- What each operation does to the names ----

  lemma OnlyHolder(chains: Chains, h: Handle, n: Node)
    requires Holders(chains, n) == {h}
    ensures forall g :: g in chains && g != h ==> n !in chains[g]
  {
    forall g | g in chains && g != h ensures n !in chains[g] {
      assert g in Holders(chains, n) <==> n in chains[g];
    }
  }

  lemma NamedSet(tab: seq<string>, chains: Chains, paths: Paths, h: Handle, n: Node, name: string)
    requires Named(tab, chains, paths) && h in chains && chains[h] == [n] && n < |tab|
    requires forall g :: g in chains && g != h ==> n !in chains[g]
    ensures Named(tab[n := name], chains, paths[h := [name]])
  {
    forall g | g in chains && g != h ensures NamesAre(tab[n := name], chains[g], paths[g]) {
      assert NamesAre(tab, chains[g], paths[g]);
    }
  }

  lemma NamedLength(tab: seq<string>, chains: Chains, paths: Paths, h: Handle)
    requires Named(tab, chains, paths) && h in chains
    ensures paths.Keys == chains.Keys && |paths[h]| == |chains[h]| && forall n :: n in chains[h] ==> n < |tab|
  {
    assert NamesAre(tab, chains[h], paths[h]);
  }

  lemma NamedTake(tab: seq<string>, chains: Chains, paths: Paths, h: Handle, n: Node)
    requires Named(tab, chains, paths) && h !in chains && n < |tab|
    ensures Named(tab, chains[h := [n]], paths[h := [tab[n]]])
  {
  }

  lemma NamedDrop(tab: seq<string>, chains: Chains, paths: Paths, h: Handle)
    requires Named(tab, chains, paths) && h in chains && chains[h] != []
    ensures paths[h] != [] && Named(tab, chains[h := chains[h][1..]], paths[h := paths[h][1..]])
  {
    assert NamesAre(tab, chains[h], paths[h]);
    assert NamesAre(tab, chains[h][1..], paths[h][1..]);
  }

  lemma NamedClone(tab: seq<string>, chains: Chains, paths: Paths, h: Handle, w: Handle, r: Node)
    requires Named(tab, chains, paths) && h in chains && w in chains && h != w && chains[h] != [] && r < |tab|
    requires forall g :: g in chains && g != w ==> r !in chains[g]
    ensures chains[h][0] < |tab| && Named(tab[r := tab[chains[h][0]]], chains[w := [r] + chains[h][1..]], paths[w := paths[h]])
  {
    assert NamesAre(tab, chains[h], paths[h]);
    var tab' := tab[r := tab[chains[h][0]]];
    forall g | g in chains && g != w ensures NamesAre(tab', chains[g], paths[g]) {
      assert NamesAre(tab, chains[g], paths[g]);
    }
    var s := [r] + chains[h][1..];
    forall i | 0 <= i < |s| ensures s[i] < |tab'| && tab'[s[i]] == paths[h][i] {
      if i > 0 { assert s[i] == chains[h][i] && chains[h][i] in chains[h]; }
    }
  }

  lemma NamedPush(tab: seq<string>, chains: Chains, paths: Paths, t: Handle, w: Handle, x: Node)
    requires Named(tab, chains, paths) && t in chains && w in chains && t != w && chains[t] == [x]
    ensures Named(tab, (chains - {t})[w := [x] + chains[w]], (paths - {t})[w := paths[t] + paths[w]])
  {
    assert NamesAre(tab, chains[t], paths[t]) && NamesAre(tab, chains[w], paths[w]);
    assert NamesAre(tab, [x] + chains[w], paths[t] + paths[w]);
  }

  lemma WalkDownPaths(p0: Paths, p1: Paths, p2: Paths, p: Path, name: string)
    requires p1 == p0[Walking := p] && Looked !in p1
    requires p2 == (p1[Looked := [name]] - {Looked})[Walking := [name] + p]
    ensures p2 == p0[Walking := [name] + p]
  {
  }

  lemma WalkDownMaps(c0: Chains, c1: Chains, c2: Chains, x: Node)
    requires Looked !in c1 && Walking in c1 && c1 == c0[Walking := c1[Walking]]
    requires c2 == (c1[Looked := [x]] - {Looked})[Walking := [x] + c1[Walking]]
    ensures c2 == c0[Walking := [x] + c1[Walking]]
  {
  }

  /** What a client can make the server do with its paths; each walk sees the files there are at the time. */
  datatype Op = Attach(fid: nat) | Walk(fid: nat, newfid: nat, names: seq<string>, tree: Tree) | Clunk(fid: nat)

  const ROOT: Path := ["/"]

  /** The server lets the walk through. */
  predicate Walks(view: map<nat, Path>, op: Op) {
    op.Walk? && op.fid in view && (op.newfid == op.fid || op.newfid !in view)
  }

  /** The same operations on plain paths. */
  function Plain(view: map<nat, Path>, op: Op): map<nat, Path> {
    match op
    case Attach(fid) => if fid in view then view else view[fid := ROOT]
    case Walk(fid, newfid, names, tree) =>
      if Walks(view, op) && Walked(tree, view[fid], names).Some? then
        view[newfid := Walked(tree, view[fid], names).value]
      else view
    case Clunk(fid) => view - {fid}
  }

  /** How many "." the operation finds. */
  function Dots(view: map<nat, Path>, op: Op): nat {
    if Walks(view, op) then DotsFound(op.tree, view[op.fid], op.names) else 0
  }

  /**
   * What each operation means for a fid: an attach puts an unused one at the root; a
   * walk moves its own fid, or makes an unused one, exactly if its names are found;
   * a clunk drops it. No other fid is touched.
   */
  lemma PlainExact(view: map<nat, Path>, fid: nat, newfid: nat, names: seq<string>, tree: Tree)
    ensures Plain(view, Attach(fid)) == (map f | f in view.Keys + {fid} :: if f in view then view[f] else ["/"])
    ensures fid in view ==>
      Plain(view, Walk(fid, fid, names, tree)) ==
        match Walked(tree, view[fid], names) case None => view case Some(p) => view[fid := p]
    ensures fid in view && newfid !in view ==>
      Plain(view, Walk(fid, newfid, names, tree)) ==
        match Walked(tree, view[fid], names) case None => view case Some(p) => view[newfid := p]
    ensures fid !in view || (newfid != fid && newfid in view) ==> Plain(view, Walk(fid, newfid, names, tree)) == view
    ensures Plain(view, Clunk(fid)) == (map f | f in view && f != fid :: view[f])
  {
  }

  function PlainRun(ops: seq<Op>): map<nat, Path> {
    if |ops| == 0 then map[] else Plain(PlainRun(ops[..|ops| - 1]), ops[|ops| - 1])
  }

  function DotsRun(ops: seq<Op>): nat {
    if |ops| == 0 then 0 else DotsRun(ops[..|ops| - 1]) + Dots(PlainRun(ops[..|ops| - 1]), ops[|ops| - 1])
  }

  /** The paths of the fids. */
  ghost predicate Shows(paths: Paths, view: map<nat, Path>) {
    && (forall h :: h in paths && !h.Abandoned? ==> h.OfFid? && h.fid in view)
    && (forall f :: f in view ==> OfFid(f) in paths && paths[OfFid(f)] == view[f])
  }

  /** The fids and their first nodes, as the server program keeps them in fid->aux. */
  ghost predicate Owned(chains: Chains, aux: map<nat, Node>) {
    && LeakInv(chains)
    && (forall h :: h in chains && !h.Abandoned? ==> h.OfFid? && h.fid in aux)
    && (forall f :: f in aux ==> OfFid(f) in chains && chains[OfFid(f)] != [] && chains[OfFid(f)][0] == aux[f])
  }

  lemma OwnedNames(chains: Chains, aux: map<nat, Node>, fid: nat)
    requires Owned(chains, aux)
    ensures Settled(chains) && (OfFid(fid) in chains <==> fid in aux)
    ensures fid in aux ==> chains[OfFid(fid)] != [] && chains[OfFid(fid)][0] == aux[fid]
  {
  }

  lemma OwnedAdd(chains: Chains, chains': Chains, aux: map<nat, Node>, fid: nat, s: seq<Node>)
    requires Owned(chains, aux) && s != [] && SameFids(chains[OfFid(fid) := s], chains') && LeakInv(chains')
    ensures Owned(chains', aux[fid := s[0]])
  {
  }

  lemma OwnedSame(chains: Chains, chains': Chains, aux: map<nat, Node>)
    requires Owned(chains, aux) && SameFids(chains, chains') && LeakInv(chains')
    ensures Owned(chains', aux)
  {
  }

  lemma OwnedDrop(chains: Chains, chains': Chains, aux: map<nat, Node>, fid: nat)
    requires Owned(chains, aux) && fid in aux && chains' == chains[OfFid(fid) := []] - {OfFid(fid)}
    ensures Owned(chains', aux - {fid})
  {
  }

  /** The pool's chains and the fids' first nodes show these paths, and so many nodes were abandoned. */
  ghost predicate Serving(pool: Pool, aux: map<nat, Node>, view: map<nat, Path>, dots: nat)
    reads pool
  {
    pool.Valid() && Owned(pool.chains, aux) && Shows(pool.paths, view) && |Leaked(pool.chains)| == dots
  }

  lemma ServingKeys(pool: Pool, aux: map<nat, Node>, view: map<nat, Path>, dots: nat, fid: nat)
    requires Serving(pool, aux, view, dots)
    ensures (fid in aux <==> fid in view) && (fid in view <==> OfFid(fid) in pool.paths)
    ensures fid in view ==> pool.paths[OfFid(fid)] == view[fid]
  {
    assert pool.paths.Keys == pool.chains.Keys;
    if fid in aux { assert OfFid(fid) in pool.chains; }
    if OfFid(fid) in pool.paths { assert OfFid(fid) in pool.chains; }
  }

  lemma ShowsAdd(paths: Paths, paths': Paths, view: map<nat, Path>, fid: nat, p: Path)
    requires Shows(paths, view) && SameFids(paths[OfFid(fid) := p], paths')
    ensures Shows(paths', view[fid := p])
  {
  }

  lemma ShowsSame(paths: Paths, paths': Paths, view: map<nat, Path>)
    requires Shows(paths, view) && SameFids(paths, paths')
    ensures Shows(paths', view)
  {
  }

  lemma ShowsDrop(paths: Paths, view: map<nat, Path>, fid: nat)
    requires Shows(paths, view)
    ensures Shows(paths[OfFid(fid) := []] - {OfFid(fid)}, view - {fid})
  {
  }

  method DoAttach(pool: Pool, op: Op, aux: map<nat, Node>, ghost view: map<nat, Path>, ghost dots: nat) returns (aux': map<nat, Node>)
    requires Serving(pool, aux, view, dots) && op.Attach?
    modifies pool
    ensures Serving(pool, aux', Plain(view, op), dots)
  {
    hide Owned, Shows, Linked, Chained, Counted, FreeListed, Named, Leaked;
    var fid := op.fid;
    OwnedNames(pool.chains, aux, fid);
    ServingKeys(pool, aux, view, dots, fid);
    aux' := aux;
    if fid !in aux {
      ghost var c, p := pool.chains, pool.paths;
      var f := pool.GetFile(OfFid(fid));
      pool.SetName(f, "/", OfFid(fid));
      assert pool.paths == p[OfFid(fid) := ROOT];
      ShowsAdd(p, pool.paths, view, fid, ROOT);
      OwnedAdd(c, pool.chains, aux, fid, [f]);
      LeakedFids(c, pool.chains);
      aux' := aux[fid := f];
    }
  }

  method DoWalk(pool: Pool, op: Op, aux: map<nat, Node>, ghost view: map<nat, Path>, ghost dots: nat) returns (aux': map<nat, Node>)
    requires Serving(pool, aux, view, dots) && op.Walk?
    modifies pool
    ensures Serving(pool, aux', Plain(view, op), dots + Dots(view, op))
  {
    hide Owned, Shows, Linked, Chained, Counted, FreeListed, Named, Walked, Leaked, DotsFound, CountsRight, SameFids;
    var fid, newfid := op.fid, op.newfid;
    OwnedNames(pool.chains, aux, fid);
    OwnedNames(pool.chains, aux, newfid);
    ServingKeys(pool, aux, view, dots, fid);
    ServingKeys(pool, aux, view, dots, newfid);
    aux' := aux;
    if fid in aux && (newfid == fid || newfid !in aux) {
      ghost var c, p := pool.chains, pool.paths;
      var ok, f := pool.WalkAndClone(aux[fid], fid, newfid, op.names, op.tree);
      if ok {
        ShowsAdd(p, pool.paths, view, newfid, Walked(op.tree, view[fid], op.names).value);
        OwnedAdd(c, pool.chains, aux, newfid, pool.chains[OfFid(newfid)]);
        aux' := aux[newfid := f];
      } else {
        ShowsSame(p, pool.paths, view);
        OwnedSame(c, pool.chains, aux);
      }
    }
  }

  method DoClunk(pool: Pool, op: Op, aux: map<nat, Node>, ghost view: map<nat, Path>, ghost dots: nat) returns (aux': map<nat, Node>)
    requires Serving(pool, aux, view, dots) && op.Clunk?
    modifies pool
    ensures Serving(pool, aux', Plain(view, op), dots)
  {
    hide Owned, Shows, Linked, Chained, Counted, FreeListed, Named, Leaked;
    var fid := op.fid;
    OwnedNames(pool.chains, aux, fid);
    ServingKeys(pool, aux, view, dots, fid);
    aux' := aux;
    if fid in aux {
      ShowsDrop(pool.paths, view, fid);
      ghost var c := pool.chains;
      pool.ReleaseAll(Some(aux[fid]), OfFid(fid));
      pool.Forget(OfFid(fid));
      OwnedDrop(c, pool.chains, aux, fid);
      LeakedFids(c, pool.chains);
      aux' := aux - {fid};
    } else {
      assert view - {fid} == view;
    }
  }

  method Do(pool: Pool, op: Op, aux: map<nat, Node>, ghost view: map<nat, Path>, ghost dots: nat) returns (aux': map<nat, Node>)
    requires Serving(pool, aux, view, dots)
    modifies pool
    ensures Serving(pool, aux', Plain(view, op), dots + Dots(view, op))
  {
    hide Serving, Plain, DotsFound;
    match op
    case Attach(_) => aux' := DoAttach(pool, op, aux, view, dots);
    case Walk(_, _, _, _) => aux' := DoWalk(pool, op, aux, view, dots);
    case Clunk(_) => aux' := DoClunk(pool, op, aux, view, dots);
  }

  /**
   * Any sequence of attaches, walks and clunks. Afterwards the chains spell the
   * paths that plain paths would give, no node on a live path is free, and every
   * node's count is at least the number of fids whose paths pass through it. The
   * counts are exactly those numbers if and only if no walk found a ".": each "."
   * found costs one node for ever.
   */
  method Serve(ops: seq<Op>) returns (pool: Pool)
    ensures pool.Valid() && pool.AllLiveKept() && Settled(pool.chains) && Shows(pool.paths, PlainRun(ops))
    ensures |Leaked(pool.chains)| == DotsRun(ops)
    ensures CountsRight(pool.nref, pool.chains) <==> DotsRun(ops) == 0
    ensures forall n :: 0 <= n < |pool.nref| ==> pool.nref[n] >= |FidHolders(pool.chains, n)|
  {
    pool := new Pool();
    var aux: map<nat, Node> := map[];
    for i := 0 to |ops|
      invariant fresh(pool) && Serving(pool, aux, PlainRun(ops[..i]), DotsRun(ops[..i]))
    {
      assert ops[..i + 1][..i] == ops[..i];
      aux := Do(pool, ops[i], aux, PlainRun(ops[..i]), DotsRun(ops[..i]));
    }
    assert ops[..|ops|] == ops;
    pool.LiveNotFree();
    OwnedNames(pool.chains, aux, 0);
    pool.RightNow();
  }

  /** One walk over "." to a directory's own entry: its counts are wrong from then on. */
  method DotWalk() returns (pool: Pool)
    ensures pool.Valid() && Shows(pool.paths, map[0 := ROOT, 1 := ROOT]) && !CountsRight(pool.nref, pool.chains)
  {
    var ops := [Attach(0), Walk(0, 1, ["."], (p, name) => name == ".")];
    DotRun(ops);
    pool := Serve(ops);
  }

  lemma DotRun(ops: seq<Op>)
    requires |ops| == 2 && ops[0] == Attach(0) && ops[1].Walk? && ops[1].fid == 0 && ops[1].newfid == 1 && ops[1].names == ["."]
    requires ops[1].tree(ROOT, ".")
    ensures PlainRun(ops) == map[0 := ROOT, 1 := ROOT] && DotsRun(ops) == 1
  {
    assert ops[..1][..0] == [] && ops[..1][0] == ops[0];
    assert PlainRun(ops[..1]) == map[0 := ROOT] && DotsRun(ops[..1]) == 0;
    assert DotsRun(ops) == Dots(map[0 := ROOT], ops[1]);
    WalkedNext(ops[1].tree, ROOT, ["."], 0);
    WalkedEnd(ops[1].tree, ROOT, ["."]);
    assert ["."][0..] == ["."];
  }

  lemma RenameCounts(nref: seq<nat>, chains: Chains, w: Handle, h: Handle)
    requires Counted(nref, chains) && w in chains && h != w && (h in chains ==> chains[h] == [])
    ensures Counted(nref, (chains - {w})[h := chains[w]])
  {
    var c := (chains - {w})[h := chains[w]];
    forall m | 0 <= m < |nref| ensures nref[m] == |Holders(c, m)| {
      if m in chains[w] {
        assert Holders(c, m) == (Holders(chains, m) - {w}) + {h};
        assert w in Holders(chains, m) && h !in Holders(chains, m);
      } else {
        HoldersSame(chains, c, m);
      }
    }
  }

  // ---- What each operation does to the lists and counts ----

  lemma PushedFrame(next: seq<Option<Node>>, nref: seq<nat>, free: Option<Node>, list: seq<Node>, chains: Chains)
    requires FreeListed(next, nref, free, list) && Chained(next, chains) && Counted(nref, chains)
    ensures FreeListed(next + [free], nref + [0], Some(|next|), [|next|] + list)
    ensures Chained(next + [free], chains) && Counted(nref + [0], chains)
  {
    var next' := next + [free];
    LinkedGrow(next, [free], list);
    LinkedCons(next', |next|, list);
    forall h | h in chains ensures Linked(next', chains[h]) { LinkedGrow(next, [free], chains[h]); }
    assert |next| !in list;
    assert Holders(chains, |next|) == {} by {
      forall h | h in chains ensures |next| !in chains[h] { assert Linked(next, chains[h]); }
    }
  }

  lemma ReleasedCount(nref: seq<nat>, next: seq<Option<Node>>, chains: Chains, h: Handle, n: Node)
    requires Counted(nref, chains) && Chained(next, chains) && h in chains && chains[h] != [] && chains[h][0] == n && n < |nref|
    ensures nref[n] > 0
    ensures Counted(nref[n := nref[n] - 1], chains[h := chains[h][1..]])
  {
    hide Linked;
    var rest := chains[h][1..];
    assert chains[h] == [n] + rest && NoDup(chains[h]);
    assert h in Holders(chains, n);
    HoldersDrop(chains, h, rest, n);
    var nref' := nref[n := nref[n] - 1];
    forall m | 0 <= m < |nref| ensures nref'[m] == |Holders(chains[h := rest], m)| {
      if m in chains[h] { HoldersDrop(chains, h, rest, m); } else { HoldersAdd(chains, h, rest, m); }
    }
  }

  lemma DroppedChained(next: seq<Option<Node>>, chains: Chains, h: Handle)
    requires Chained(next, chains) && h in chains && chains[h] != []
    ensures Chained(next, chains[h := chains[h][1..]])
  {
    LinkedTail(next, chains[h]);
  }

  /** A count that stays positive does not concern the free list. */
  lemma StillHeld(next: seq<Option<Node>>, n0: seq<nat>, n1: seq<nat>, free: Option<Node>, list: seq<Node>, n: Node)
    requires FreeListed(next, n0, free, list) && n < |n0| == |n1| && n1 == n0[n := n1[n]] && n0[n] > 0 && n1[n] > 0
    ensures FreeListed(next, n1, free, list)
  {
    hide Linked;
  }

  lemma FreedFrame(next: seq<Option<Node>>, n0: seq<nat>, n1: seq<nat>, free: Option<Node>, list: seq<Node>, chains: Chains, n: Node)
    requires FreeListed(next, n0, free, list) && n < |n0| && n1 == n0[n := 0] && n0[n] > 0 && |next| == |n0|
    requires Chained(next, chains) && forall g :: g in chains ==> n !in chains[g]
    ensures FreeListed(next[n := free], n1, Some(n), [n] + list)
    ensures Chained(next[n := free], chains)
  {
    hide Linked;
    LinkedFrame(next, list, n, free);
    LinkedCons(next[n := free], n, list);
    forall g | g in chains ensures Linked(next[n := free], chains[g]) { LinkedFrame(next, chains[g], n, free); }
  }

  lemma CloneLinks(next: seq<Option<Node>>, nref: seq<nat>, free: Option<Node>, list: seq<Node>, chains: Chains,
                   h: Handle, w: Handle, r: Node)
    requires Chained(next, chains) && FreeListed(next, nref, free, list) && h in chains && w in chains && h != w
    requires chains[h] != [] && chains[h][0] < |next|
    requires chains[w] == [r] && r < |next| && r !in list && forall g :: g in chains && g != w ==> r !in chains[g]
    ensures var next' := next[r := next[chains[h][0]]];
      && FreeListed(next', nref, free, list) && Linked(next', chains[h][1..])
      && Chained(next', chains[w := [r] + chains[h][1..]])
  {
    hide Linked;
    var tail := chains[h][1..];
    var v := next[chains[h][0]];
    var next' := next[r := v];
    NextOf(next, chains, h);
    assert r !in tail;
    LinkedFrame(next, tail, r, v);
    LinkedFrame(next, list, r, v);
    LinkedCons(next', r, tail);
    forall g | g in chains && g != w ensures Linked(next', chains[g]) { LinkedFrame(next, chains[g], r, v); }
  }

  /** The nodes of a live chain are not free. */
  lemma TailHeld(nref: seq<nat>, list: seq<Node>, chains: Chains, h: Handle)
    requires Counted(nref, chains) && h in chains && forall m :: 0 <= m < |nref| ==> (m in list <==> nref[m] == 0)
    ensures forall m :: m in chains[h] && m < |nref| ==> nref[m] > 0 && m !in list
  {
    forall m | m in chains[h] && m < |nref| ensures nref[m] > 0 { assert h in Holders(chains, m); }
  }

  lemma HeldNotFree(nref: seq<nat>, list: seq<Node>, chains: Chains, h: Handle, n: Node)
    requires Counted(nref, chains) && h in chains && n in chains[h] && n < |nref|
    requires forall m :: 0 <= m < |nref| ==> (m in list <==> nref[m] == 0)
    ensures n !in list
  {
    TailHeld(nref, list, chains, h);
  }

  lemma BumpFree(next: seq<Option<Node>>, n0: seq<nat>, n1: seq<nat>, free: Option<Node>, list: seq<Node>, tail: seq<Node>)
    requires FreeListed(next, n0, free, list) && |n1| == |n0|
    requires forall m :: 0 <= m < |n1| ==> n1[m] == n0[m] + (if m in tail then 1 else 0)
    requires forall m :: m in tail && m < |n0| ==> n0[m] > 0
    ensures FreeListed(next, n1, free, list)
  {
  }

  /** The counts after a clone: the tail's nodes were bumped, and none of them was free. */
  lemma CloneCounts(next: seq<Option<Node>>, n0: seq<nat>, n1: seq<nat>, free: Option<Node>, list: seq<Node>, chains: Chains,
                    h: Handle, w: Handle, r: Node)
    requires FreeListed(next, n0, free, list) && Counted(n0, chains) && |n1| == |n0|
    requires h in chains && w in chains && h != w && chains[h] != [] && chains[w] == [r] && r !in chains[h]
    requires forall m :: 0 <= m < |n1| ==> n1[m] == n0[m] + (if m in chains[h][1..] then 1 else 0)
    ensures FreeListed(next, n1, free, list) && Counted(n1, chains[w := [r] + chains[h][1..]])
  {
    hide Linked;
    var tail := chains[h][1..];
    TailHeld(n0, list, chains, h);
    assert forall m :: m in tail ==> m in chains[h];
    BumpFree(next, n0, n1, free, list, tail);
    forall m | 0 <= m < |n1| ensures n1[m] == |Holders(chains[w := [r] + tail], m)| {
      if m == r { HoldersDrop(chains, w, [r] + tail, m); } else { HoldersAdd(chains, w, [r] + tail, m); }
    }
  }

  lemma PushFrame(next: seq<Option<Node>>, nref: seq<nat>, free: Option<Node>, list: seq<Node>, chains: Chains, x: Node, t: Handle, w: Handle)
    requires Chained(next, chains) && Counted(nref, chains) && t in chains && w in chains && t != w && chains[t] == [x]
    requires Holders(chains, x) == {t} && chains[w] != [] && |next| == |nref| && x < |nref| && FreeListed(next, nref, free, list)
    ensures var next' := next[x := Some(chains[w][0])];
      var chains' := (chains - {t})[w := [x] + chains[w]];
      FreeListed(next', nref, free, list) && Chained(next', chains') && Counted(nref, chains')
  {
    hide Linked;
    HeldNotFree(nref, list, chains, t, x);
    var v := Some(chains[w][0]);
    var next' := next[x := v];
    var chains' := (chains - {t})[w := [x] + chains[w]];
    forall g | g in chains && g != t ensures x !in chains[g] {
      assert g in Holders(chains, x) <==> x in chains[g];
    }
    LinkedFrame(next, list, x, v);
    LinkedFrame(next, chains[w], x, v);
    LinkedCons(next', x, chains[w]);
    forall g | g in chains' && g != w ensures Linked(next', chains'[g]) { LinkedFrame(next, chains[g], x, v); }
    assert Holders(chains', x) == {w};
    forall m | 0 <= m < |nref| ensures nref[m] == |Holders(chains', m)| {
      if m != x { HoldersSame(chains, chains', m); }
    }
  }

  lemma FreeHead(next: seq<Option<Node>>, nref: seq<nat>, free: Option<Node>, list: seq<Node>)
    requires FreeListed(next, nref, free, list)
    ensures |next| == |nref|
    ensures free.Some? ==> list != [] && list[0] == free.value && free.value < |nref| && nref[free.value] == 0
  {
    if free.Some? { assert list[0] in list; }
  }

  /** Popping the head of the free list for owner h. */
  lemma TakenFrame(next: seq<Option<Node>>, nref: seq<nat>, list: seq<Node>, chains: Chains, n: Node, h: Handle)
    requires FreeListed(next, nref, Some(n), list) && n < |nref| == |next| && list != []
    requires Chained(next, chains) && Counted(nref, chains) && h !in chains
    requires forall g :: g in chains ==> n !in chains[g]
    ensures FreeListed(next[n := None], nref[n := 1], next[n], list[1..])
    ensures Chained(next[n := None], chains[h := [n]])
    ensures Counted(nref[n := 1], chains[h := [n]])
    ensures Holders(chains[h := [n]], n) == {h}
  {
    LinkedTail(next, list);
    LinkedFrame(next, list[1..], n, None);
    assert list == [n] + list[1..];
    forall g | g in chains ensures Linked(next[n := None], chains[g]) {
      LinkedFrame(next, chains[g], n, None);
    }
    var nref' := nref[n := 1];
    forall m | 0 <= m < |nref| ensures nref'[m] == |Holders(chains[h := [n]], m)| {
      HoldersAdd(chains, h, [n], m);
    }
  }
}
