/**
 * The chained hash map behind the server's tag and fid tables. Each bucket is a
 * chain kept in ascending key order; the abstract value is a plain map.
 */
module HashMap {
  import opened Basics

  datatype Ent<V> = Ent(hash: nat, val: V)

  /** The bucket of a key. */
  function Index(key: nat, n: nat): (b: nat)
    requires n > 0
    ensures b < n
  {
    key % n
  }

  predicate HasKey<V>(c: seq<Ent<V>>, h: nat) {
    exists k :: 0 <= k < |c| && c[k].hash == h
  }

  ghost predicate Ascending<V>(c: seq<Ent<V>>) {
    forall i, j :: 0 <= i < j < |c| ==> c[i].hash < c[j].hash
  }

  /** Chain c is bucket b of a map m: ascending, and it holds exactly m's entries that hash to b. */
  ghost predicate Chain<V>(c: seq<Ent<V>>, b: nat, n: nat, m: map<nat, V>)
    requires n > 0
  {
    && Ascending(c)
    && (forall k :: 0 <= k < |c| ==> Index(c[k].hash, n) == b && c[k].hash in m && c[k].val == m[c[k].hash])
    && (forall h :: h in m && Index(h, n) == b ==> HasKey(c, h))
  }

  /** The position at which the loop of map_getp stops. */
  ghost predicate Stop<V>(c: seq<Ent<V>>, k: nat, key: nat) {
    && k <= |c|
    && (forall i :: 0 <= i < k ==> c[i].hash < key)
    && (k < |c| ==> key <= c[k].hash)
  }

  /** Stopping at the first key not below the target is sound. */
  lemma StopSound<V>(c: seq<Ent<V>>, b: nat, n: nat, m: map<nat, V>, k: nat, key: nat)
    requires n > 0 && Chain(c, b, n, m) && Index(key, n) == b && Stop(c, k, key)
    ensures key in m <==> k < |c| && c[k].hash == key
    ensures key in m ==> c[k].val == m[key]
  {
    if key in m {
      assert HasKey(c, key);
      var i :| 0 <= i < |c| && c[i].hash == key;
      assert i >= k;
    }
  }

  lemma InsertKeeps<V>(c: seq<Ent<V>>, k: nat, x: Ent<V>, h: nat)
    requires k <= |c| && HasKey(c, h)
    ensures HasKey(c[..k] + [x] + c[k..], h)
  {
    var i :| 0 <= i < |c| && c[i].hash == h;
    var w := if i < k then i else i + 1;
    assert (c[..k] + [x] + c[k..])[w] == c[i];
  }

  lemma InsertHas<V>(c: seq<Ent<V>>, k: nat, x: Ent<V>)
    requires k <= |c|
    ensures HasKey(c[..k] + [x] + c[k..], x.hash)
  {
    assert (c[..k] + [x] + c[k..])[k] == x;
  }

  lemma ChainInsert<V>(c: seq<Ent<V>>, b: nat, n: nat, m: map<nat, V>, k: nat, key: nat, val: V)
    requires n > 0 && Chain(c, b, n, m) && Index(key, n) == b && Stop(c, k, key) && key !in m
    ensures Chain(c[..k] + [Ent(key, val)] + c[k..], b, n, m[key := val])
  {
    hide HasKey;
    var d := c[..k] + [Ent(key, val)] + c[k..];
    assert forall i :: 0 <= i < k ==> d[i] == c[i];
    assert forall i :: k < i < |d| ==> d[i] == c[i - 1];
    assert d[k] == Ent(key, val);
    InsertHas(c, k, Ent(key, val));
    forall h | h in m && Index(h, n) == b
      ensures HasKey(d, h)
    {
      InsertKeeps(c, k, Ent(key, val), h);
    }
  }

  lemma ChainUpdate<V>(c: seq<Ent<V>>, b: nat, n: nat, m: map<nat, V>, k: nat, val: V)
    requires n > 0 && Chain(c, b, n, m) && k < |c|
    ensures Chain(c[k := Ent(c[k].hash, val)], b, n, m[c[k].hash := val])
  {
    var d := c[k := Ent(c[k].hash, val)];
    assert forall i :: 0 <= i < |c| ==> d[i].hash == c[i].hash;
    forall h | h in m && Index(h, n) == b
      ensures HasKey(d, h)
    {
      assert HasKey(c, h);
      var i :| 0 <= i < |c| && c[i].hash == h;
      assert d[i].hash == h;
    }
  }

  lemma ChainRemove<V>(c: seq<Ent<V>>, b: nat, n: nat, m: map<nat, V>, k: nat)
    requires n > 0 && Chain(c, b, n, m) && k < |c|
    ensures Chain(c[..k] + c[k + 1..], b, n, m - {c[k].hash})
  {
    hide HasKey;
    var d := c[..k] + c[k + 1..];
    assert forall i :: 0 <= i < k ==> d[i] == c[i];
    assert forall i :: k <= i < |d| ==> d[i] == c[i + 1];
    forall h | h in m - {c[k].hash} && Index(h, n) == b
      ensures HasKey(d, h)
    {
      RemoveKeeps(c, k, h);
    }
  }

  lemma RemoveKeeps<V>(c: seq<Ent<V>>, k: nat, h: nat)
    requires k < |c| && HasKey(c, h) && h != c[k].hash
    ensures HasKey(c[..k] + c[k + 1..], h)
  {
    var i :| 0 <= i < |c| && c[i].hash == h;
    var w := if i < k then i else i - 1;
    assert (c[..k] + c[k + 1..])[w] == c[i];
  }

  /** A change at one key leaves the other buckets' chains as they were. */
  lemma ChainFrame<V>(c: seq<Ent<V>>, b: nat, n: nat, m: map<nat, V>, m': map<nat, V>, key: nat)
    requires n > 0 && Chain(c, b, n, m) && Index(key, n) != b
    requires forall h :: h != key ==> (h in m <==> h in m') && (h in m ==> m'[h] == m[h])
    ensures Chain(c, b, n, m')
  {
  }

  /** A MapEnt**: the k-th link of a bucket's chain, or the shared cell NM. */
  datatype Slot = Link(b: nat, k: nat) | NotFound

  class IxpMap<V> {
    const bucket: array<seq<Ent<V>>>
    const nhash: nat
    var nm: seq<Ent<V>>                 // NM, the shared cell that stands for "not found"
    ghost var m: map<nat, V>            // the abstract value

    ghost predicate Valid()
      reads this, bucket
    {
      && nhash > 0 && bucket.Length == nhash && nm == []
      && forall b :: 0 <= b < nhash ==> Chain(bucket[b], b, nhash, m)
    }

    /** The slot belongs to this table. */
    predicate Within(e: Slot)
      reads bucket
    {
      e.Link? ==> e.b < bucket.Length && e.k <= |bucket[e.b]|
    }

    constructor (n: nat)
      requires n > 0
      ensures Valid() && m == map[] && nhash == n && fresh(bucket)
    {
      nhash := n;
      bucket := new seq<Ent<V>>[n](_ => []);
      nm := [];
      m := map[];
    }

    /** What the slot points to, and what follows it. */
    method Load(e: Slot) returns (c: seq<Ent<V>>)
      requires Within(e)
      ensures c == if e.Link? then bucket[e.b][e.k..] else nm
    {
      c := match e case Link(b, k) => bucket[b][k..] case NotFound => nm;
    }

    /** The place of the key, or the shared cell when it is not there and none is to be made. */
    method GetP(key: nat, create: bool) returns (e: Slot, existed: bool)
      requires Valid()
      ensures existed <==> key in m
      ensures e == NotFound <==> !existed && !create
      ensures e.Link? ==> e.b == Index(key, nhash) && Stop(bucket[e.b], e.k, key)
      ensures existed ==> e.k < |bucket[e.b]| && bucket[e.b][e.k] == Ent(key, m[key])
    {
      var b := Index(key, nhash);
      var c := bucket[b];
      var k := 0;
      while k < |c| && c[k].hash < key
        invariant k <= |c|
        invariant forall i :: 0 <= i < k ==> c[i].hash < key
      {
        k := k + 1;
      }
      existed := k < |c| && c[k].hash == key;
      StopSound(c, b, nhash, m, k, key);
      e := if existed || create then Link(b, k) else NotFound;
    }

    /** ixp_mapinsert: false, and no change, when the key exists and may not be overwritten. */
    method Insert(key: nat, val: V, overwrite: bool) returns (res: bool)
      requires Valid()
      modifies this`m, bucket
      ensures Valid()
      ensures res <==> (key !in old(m) || overwrite)
      ensures m == if res then old(m)[key := val] else old(m)
    {
      var e, existed := GetP(key, true);
      if existed && !overwrite {
        return false;
      }
      var c := bucket[e.b];
      ghost var m' := m[key := val];
      if existed {
        ChainUpdate(c, e.b, nhash, m, e.k, val);
        SetBucket(e.b, c[e.k := Ent(key, val)], key, m');
      } else {
        ChainInsert(c, e.b, nhash, m, e.k, key, val);
        SetBucket(e.b, c[..e.k] + [Ent(key, val)] + c[e.k..], key, m');
      }
      return true;
    }

    /** ixp_mapget. */
    method Get(key: nat) returns (res: Option<V>)
      requires Valid()
      ensures res == if key in m then Some(m[key]) else None
    {
      var e, found := GetP(key, false);
      var c := Load(e);
      res := if c != [] then Some(c[0].val) else None;
    }

    /**
     * ixp_maprm: unlink the entry through its slot and return its value. The slot may be
     * the cell that all maps share for "not found"; it is nil, and it stays nil.
     */
    method Remove(key: nat) returns (res: Option<V>)
      requires Valid()
      modifies this, bucket
      ensures Valid()
      ensures res == if key in old(m) then Some(old(m)[key]) else None
      ensures m == old(m) - {key}
    {
      var e, found := GetP(key, false);
      var c := Load(e);
      res := None;
      if c != [] {
        res := Some(c[0].val);
        Store(e, c[1..], key);
      }
    }

    /** Assign to the slot what followed the entry it points to. */
    method Store(e: Slot, rest: seq<Ent<V>>, ghost key: nat)
      requires Valid() && Within(e)
      requires e.Link? ==> e.b == Index(key, nhash) && e.k < |bucket[e.b]| && bucket[e.b][e.k].hash == key && rest == bucket[e.b][e.k + 1..]
      modifies this, bucket
      ensures nm == if e.Link? then old(nm) else rest
      ensures e.Link? ==> Valid() && m == old(m) - {key}
    {
      match e
      case Link(b, k) =>
        var c := bucket[b];
        ChainRemove(c, b, nhash, m, k);
        SetBucket(b, c[..k] + rest, key, m - {key});
      case NotFound =>
        nm := rest;
    }

    method SetBucket(b: nat, c: seq<Ent<V>>, ghost key: nat, ghost m': map<nat, V>)
      requires Valid() && b == Index(key, nhash) && Chain(c, b, nhash, m')
      requires forall h :: h != key ==> (h in m <==> h in m') && (h in m ==> m'[h] == m[h])
      modifies this`m, bucket
      ensures Valid() && m == m'
    {
      forall d | 0 <= d < nhash && d != b
        ensures Chain(bucket[d], d, nhash, m')
      {
        ChainFrame(bucket[d], d, nhash, m, m', key);
      }
      bucket[b] := c;
      m := m';
    }

    /** ixp_mapexec: the entries in the order `run` sees them, by bucket and then by key, each exactly once. */
    method Exec() returns (seen: seq<Ent<V>>)
      requires Valid()
      ensures forall i, j :: 0 <= i < j < |seen| ==>
        seen[i].hash % nhash < seen[j].hash % nhash || (seen[i].hash % nhash == seen[j].hash % nhash && seen[i].hash < seen[j].hash)
      ensures forall i, j :: 0 <= i < j < |seen| ==> seen[i].hash != seen[j].hash
      ensures forall i :: 0 <= i < |seen| ==> seen[i].hash in m && seen[i].val == m[seen[i].hash]
      ensures forall h :: h in m ==> HasKey(seen, h)
    {
      seen := [];
      for b := 0 to nhash
        invariant forall i, j :: 0 <= i < j < |seen| ==>
          Index(seen[i].hash, nhash) < Index(seen[j].hash, nhash)
          || (Index(seen[i].hash, nhash) == Index(seen[j].hash, nhash) && seen[i].hash < seen[j].hash)
        invariant forall i :: 0 <= i < |seen| ==>
          Index(seen[i].hash, nhash) < b && seen[i].hash in m && seen[i].val == m[seen[i].hash]
        invariant forall h :: h in m && Index(h, nhash) < b ==> HasKey(seen, h)
      {
        assert Chain(bucket[b], b, nhash, m);
        HasKeyAppend(seen, bucket[b]);
        seen := seen + bucket[b];
      }
    }
  }

  lemma HasKeyAppend<V>(a: seq<Ent<V>>, b: seq<Ent<V>>)
    ensures forall h :: HasKey(a, h) || HasKey(b, h) ==> HasKey(a + b, h)
  {
    forall h | HasKey(a, h) || HasKey(b, h)
      ensures HasKey(a + b, h)
    {
      if HasKey(a, h) {
        var i :| 0 <= i < |a| && a[i].hash == h;
        assert (a + b)[i] == a[i];
      } else {
        var i :| 0 <= i < |b| && b[i].hash == h;
        assert (a + b)[|a| + i] == b[i];
      }
    }
  }

  // ---- Any sequence of operations ----

  datatype Op<V> = Put(key: nat, val: V, overwrite: bool) | Look(key: nat) | Rm(key: nat)

  /** The operation on a plain map, and what it returns. */
  function Plain<V>(m: map<nat, V>, op: Op<V>): (map<nat, V>, Option<V>) {
    match op
    case Put(key, val, overwrite) => if key in m && !overwrite then (m, None) else (m[key := val], Some(val))
    case Look(key) => (m, if key in m then Some(m[key]) else None)
    case Rm(key) => (m - {key}, if key in m then Some(m[key]) else None)
  }

  function PlainRun<V>(m: map<nat, V>, ops: seq<Op<V>>): seq<Option<V>>
    decreases |ops|
  {
    if ops == [] then [] else [Plain(m, ops[0]).1] + PlainRun(Plain(m, ops[0]).0, ops[1..])
  }

  method Do<V>(t: IxpMap<V>, op: Op<V>) returns (r: Option<V>)
    requires t.Valid()
    modifies t, t.bucket
    ensures t.Valid() && (t.m, r) == Plain(old(t.m), op)
  {
    match op
    case Put(key, val, overwrite) =>
      var ok := t.Insert(key, val, overwrite);
      r := if ok then Some(val) else None;
    case Look(key) => r := t.Get(key);
    case Rm(key) => r := t.Remove(key);
  }

  /** From an empty map, every sequence of operations returns what a plain map would, whatever the number of buckets. */
  method Run<V>(n: nat, ops: seq<Op<V>>) returns (rs: seq<Option<V>>)
    requires n > 0
    ensures rs == PlainRun(map[], ops)
  {
    var t := new IxpMap<V>(n);
    rs := [];
    assert ops[0..] == ops;
    for i := 0 to |ops|
      invariant t.Valid() && fresh(t) && fresh(t.bucket)
      invariant rs + PlainRun(t.m, ops[i..]) == PlainRun(map[], ops)
    {
      PlainNext(t.m, ops, i);
      ghost var before := rs;
      var r := Do(t, ops[i]);
      rs := rs + [r];
      assert before + ([r] + PlainRun(t.m, ops[i + 1..])) == rs + PlainRun(t.m, ops[i + 1..]);
    }
    assert rs + [] == rs;
  }

  lemma PlainNext<V>(m: map<nat, V>, ops: seq<Op<V>>, i: nat)
    requires i < |ops|
    ensures PlainRun(m, ops[i..]) == [Plain(m, ops[i]).1] + PlainRun(Plain(m, ops[i]).0, ops[i + 1..])
  {
    assert ops[i..][1..] == ops[i + 1..];
  }
}
