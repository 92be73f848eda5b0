/**
 * The tag table of a client connection: the array `wait` of outstanding rpcs
 * indexed by tag - mintag, the count `nwait` and the scan hint `freetag`.
 */
module TagTable {
  import opened Basics

  type Id = nat

  const NOTAG: nat := 65535

  /** A value of the table; `wait[i]` names the rpc that holds tag i + mintag. */
  datatype Tags = Tags(wait: seq<Option<Id>>, nwait: nat, freetag: nat, mintag: nat, maxtag: nat)

  /** The number of occupied slots. */
  function Count(w: seq<Option<Id>>): nat {
    if w == [] then 0 else (if w[0].Some? then 1 else 0) + Count(w[1..])
  }

  lemma {:induction false} CountUpdate(w: seq<Option<Id>>, i: nat, v: Option<Id>)
    requires i < |w|
    ensures Count(w[i := v]) == Count(w) - (if w[i].Some? then 1 else 0) + (if v.Some? then 1 else 0)
  {
    if i == 0 {
      assert w[i := v][1..] == w[1..];
    } else {
      assert w[i := v][1..] == w[1..][i - 1 := v];
      CountUpdate(w[1..], i - 1, v);
    }
  }

  lemma {:induction false} CountAppend(a: seq<Option<Id>>, b: seq<Option<Id>>)
    ensures Count(a + b) == Count(a) + Count(b)
  {
    if a == [] {
      assert a + b == b;
    } else {
      assert (a + b)[1..] == a[1..] + b;
      CountAppend(a[1..], b);
    }
  }

  /** Freshly cleared slots. */
  function Nones(n: nat): seq<Option<Id>> {
    seq(n, _ => None)
  }

  /** A table is full exactly when no slot is free. */
  lemma {:induction false} CountFull(w: seq<Option<Id>>)
    ensures Count(w) <= |w|
    ensures Count(w) == |w| <==> forall i :: 0 <= i < |w| ==> w[i].Some?
    ensures Count(w) == 0 <==> forall i :: 0 <= i < |w| ==> w[i].None?
  {
    if w != [] {
      var t := w[1..];
      CountFull(t);
      assert forall i :: 1 <= i < |w| ==> w[i] == t[i - 1];
      assert forall i :: 0 <= i < |t| ==> t[i] == w[i + 1];
    }
  }

  /** The first free slot at or after `i` and before `hi`, or `hi`. */
  function FirstFree(w: seq<Option<Id>>, i: nat, hi: nat): (r: nat)
    requires i <= hi <= |w|
    ensures i <= r <= hi
    ensures r < hi ==> w[r].None?
    ensures forall j :: i <= j < r ==> w[j].Some?
    decreases hi - i
  {
    if i == hi then hi else if w[i].None? then i else FirstFree(w, i + 1, hi)
  }

  /** The wrap-around scan of gettag; |w| stands for "nothing found", the abort. */
  function Scan(w: seq<Option<Id>>, freetag: nat): (r: nat)
    requires freetag <= |w|
    ensures r <= |w|
  {
    var a := FirstFree(w, freetag, |w|);
    if a < |w| then a else
    var b := FirstFree(w, 0, freetag);
    if b < freetag then b else |w|
  }

  /** A scan that falls through has seen every slot occupied. */
  lemma ScanFinds(w: seq<Option<Id>>, freetag: nat)
    requires freetag <= |w|
    requires Count(w) < |w|
    ensures Scan(w, freetag) < |w| && w[Scan(w, freetag)].None?
  {
    CountFull(w);
  }

  /** The doubling of `wait`: 0, 1, 2, 4, ... */
  function Grown(n: nat): nat {
    if n == 0 then 1 else 2 * n
  }

  predicate Full(t: Tags) {
    t.nwait == |t.wait|
  }

  /** gettag would sleep: the table is full and may not grow. */
  predicate Blocked(t: Tags) {
    Full(t) && |t.wait| >= t.maxtag - t.mintag
  }

  function Grow(t: Tags): Tags {
    if Full(t) then
      t.(wait := t.wait + Nones(Grown(|t.wait|) - |t.wait|), freetag := |t.wait|)
    else t
  }

  /** The slot gettag takes when it does not sleep. */
  function Slot(t: Tags): nat
    requires t.freetag <= |t.wait|
  {
    var g := Grow(t);
    Scan(g.wait, g.freetag)
  }

  predicate PowerUpTo256(n: nat) {
    n == 0 || n == 1 || n == 2 || n == 4 || n == 8 || n == 16 || n == 32 || n == 64 || n == 128 || n == 256
  }

  /** The two tag ranges a client uses: only NOTAG while mounting, then 0..255. */
  predicate Ranged(t: Tags) {
    || (t.mintag == NOTAG && t.maxtag == NOTAG + 1 && |t.wait| <= 1)
    || (t.mintag == 0 && t.maxtag == 255)
  }

  ghost predicate Ok(t: Tags) {
    && t.nwait == Count(t.wait)
    && (if |t.wait| == 0 then t.freetag == 0 else t.freetag < |t.wait|)
    && PowerUpTo256(|t.wait|)
    && Ranged(t)
  }

  function Take(t: Tags, c: Id): (r: Tags)
    requires t.freetag <= |t.wait|
    requires Slot(t) < |Grow(t).wait|
  {
    var g := Grow(t);
    g.(wait := g.wait[Slot(t) := Some(c)], nwait := g.nwait + 1)
  }

  function Release(t: Tags, i: nat): (r: Tags)
    requires i < |t.wait| && t.nwait > 0
  {
    t.(wait := t.wait[i := None], nwait := t.nwait - 1, freetag := i)
  }

  lemma GrowOk(t: Tags)
    requires Ok(t) && !Blocked(t)
    ensures Ok(Grow(t)) && Grow(t).nwait < |Grow(t).wait|
    ensures forall i :: 0 <= i < |t.wait| ==> Grow(t).wait[i] == t.wait[i]
    ensures forall i :: |t.wait| <= i < |Grow(t).wait| ==> Grow(t).wait[i].None?
  {
    CountFull(t.wait);
    if Full(t) {
      var n := Grown(|t.wait|) - |t.wait|;
      CountAppend(t.wait, Nones(n));
      CountFull(Nones(n));
    }
  }

  /**
   * When gettag does not sleep, its scan finds a slot that is free in the grown
   * table, so abort is unreachable; the table never passes 256 slots, so after
   * mounting the tag is at most 255 and never NOTAG.
   */
  lemma GetTagTotal(t: Tags, c: Id)
    requires Ok(t) && !Blocked(t)
    ensures Slot(t) < |Grow(t).wait| && Grow(t).wait[Slot(t)].None?
    ensures Ok(Take(t, c))
    ensures |Take(t, c).wait| <= 256
    ensures t.mintag == 0 ==> Slot(t) + t.mintag < 256
    ensures t.mintag != 0 ==> Slot(t) + t.mintag == 65535
  {
    GrowOk(t);
    var g := Grow(t);
    ScanFinds(g.wait, g.freetag);
    CountUpdate(g.wait, Slot(t), Some(c));
  }

  lemma PutTagOk(t: Tags, i: nat)
    requires Ok(t) && i < |t.wait| && t.wait[i].Some?
    ensures t.nwait > 0 && Ok(Release(t, i))
  {
    CountFull(t.wait);
    CountUpdate(t.wait, i, None);
  }

  /** A caller sleeps for a tag only when all there can be are out: one while mounting, 256 afterwards. */
  lemma BlockedWhenFull(t: Tags)
    requires Ok(t)
    ensures Blocked(t) <==> t.nwait == |t.wait| && |t.wait| == (if t.mintag == 65535 then 1 else 256)
    ensures t.mintag == 65535 || t.mintag == 0
  {
    CountFull(t.wait);
  }

  /** The tag given back last is the next one handed out; a table that grows hands out the first new tag. */
  lemma LastBackFirstOut(t: Tags, i: nat)
    requires Ok(t) && i < |t.wait| && t.wait[i].Some?
    ensures t.nwait > 0 && Slot(Release(t, i)) == i && !Blocked(Release(t, i))
  {
    PutTagOk(t, i);
    CountFull(t.wait);
    var r := Release(t, i);
    CountFull(r.wait);
    assert r.wait[i].None?;
  }

  lemma FirstNewTag(t: Tags)
    requires Ok(t) && !Blocked(t) && t.nwait == |t.wait|
    ensures Slot(t) == |t.wait| && |Grow(t).wait| == (if |t.wait| == 0 then 1 else 2 * |t.wait|)
  {
    GrowOk(t);
  }

  /** The table as the client keeps it, grown and scanned in place. */
  class Table {
    var wait: array<Option<Id>>
    var nwait: nat
    var mwait: nat
    var freetag: nat
    var mintag: nat
    var maxtag: nat

    ghost function View(): Tags
      reads this, wait
    {
      Tags(wait[..], nwait, freetag, mintag, maxtag)
    }

    ghost predicate Valid()
      reads this, wait
    {
      mwait == wait.Length && Ok(View())
    }

    constructor ()
      ensures Valid() && fresh(wait)
      ensures View() == Tags([], 0, 0, NOTAG, NOTAG + 1)
    {
      wait := new Option<Id>[0];
      nwait, mwait, freetag := 0, 0, 0;
      mintag, maxtag := NOTAG, NOTAG + 1;
    }

    /** The locked body of gettag; `blocked` is the case that sleeps on tagrend. */
    method GetTag(c: Id) returns (blocked: bool, tag: nat)
      requires Valid()
      modifies this, wait
      ensures Valid() && (wait == old(wait) || fresh(wait))
      ensures blocked == Blocked(old(View()))
      ensures blocked ==> View() == old(View()) && tag == 0
      ensures !blocked ==>
        && Slot(old(View())) < |Grow(old(View())).wait|
        && View() == Take(old(View()), c)
        && tag == Slot(old(View())) + mintag
    {
      ghost var t0 := View();
      if nwait == mwait {
        if mwait < maxtag - mintag {
          Extend();
        } else {
          return true, 0;
        }
      }
      GetTagTotal(t0, c);
      assert View() == Grow(t0);
      var i := freetag;
      while i < mwait && wait[i].Some?
        invariant freetag <= i <= mwait
        invariant forall j :: freetag <= j < i ==> wait[j].Some?
      {
        i := i + 1;
      }
      if i == mwait {
        i := 0;
        while i < freetag && wait[i].Some?
          invariant 0 <= i <= freetag
          invariant forall j :: 0 <= j < i ==> wait[j].Some?
        {
          i := i + 1;
        }
      }
      assert i == Slot(t0);
      nwait := nwait + 1;
      wait[i] := Some(c);
      assert View() == Take(t0, c);
      return false, i + mintag;
    }

    /** realloc to twice the size, clear the new half, point freetag at it. */
    method Extend()
      requires Valid() && nwait == mwait && mwait < maxtag - mintag
      modifies this
      ensures Valid() && fresh(wait)
      ensures View() == Grow(old(View()))
    {
      GrowOk(View());
      var mw := Grown(mwait);
      var w := new Option<Id>[mw](_ => None);
      forall i | 0 <= i < mwait {
        w[i] := wait[i];
      }
      ghost var t0 := View();
      wait := w;
      freetag := mwait;
      mwait := mw;
      assert View().wait == Grow(t0).wait;
    }

    method PutTag(tag: nat)
      requires Valid()
      requires mintag <= tag < mintag + wait.Length && wait[tag - mintag].Some?
      modifies this, wait
      ensures Valid() && wait == old(wait)
      ensures old(nwait) > 0 && mintag == old(mintag)
      ensures View() == Release(old(View()), tag - mintag)
    {
      PutTagOk(View(), tag - mintag);
      var i := tag - mintag;
      ghost var t0 := View();
      wait[i] := None;
      nwait := nwait - 1;
      freetag := i;
      assert View() == Release(t0, i);
    }
  }
}
