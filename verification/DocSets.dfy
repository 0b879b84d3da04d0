/** What an iterator stands for: a finite map from documents to frequencies.
    Conjunction and disjunction are operations on sequences of such maps. */
module DocSets {
  import opened Base

  type DocSet = map<nat, nat>

  ghost predicate InRange(den: DocSet)
  {
    forall x :: x in den ==> x < NO_MORE
  }

  /** The least document of den that is at least lo, or NO_MORE when there is
      none. */
  ghost function First(den: DocSet, lo: nat): (r: nat)
    ensures r <= NO_MORE
    ensures r == NO_MORE || (r in den && lo <= r)
    ensures forall x :: x in den && lo <= x < NO_MORE ==> r <= x
    decreases NO_MORE - lo
  {
    if lo >= NO_MORE then NO_MORE else if lo in den then lo else First(den, lo + 1)
  }

  ghost predicate Least(den: DocSet, lo: nat, r: nat)
  {
    r == First(den, lo)
  }

  /** The frequencies of d added up over the sets that hold it. */
  ghost function Total(dens: seq<DocSet>, d: nat): nat
  {
    if dens == [] then 0
    else (if d in dens[0] then dens[0][d] else 0) + Total(dens[1..], d)
  }

  /** Documents in every set; an empty conjunction holds none. */
  ghost function Meet(dens: seq<DocSet>): DocSet
  {
    if dens == [] then map[]
    else map d | d in dens[0] && (forall i :: 0 <= i < |dens| ==> d in dens[i]) :: Mod32(Total(dens, d))
  }

  ghost function Union(dens: seq<DocSet>): set<nat>
  {
    if dens == [] then {} else dens[0].Keys + Union(dens[1..])
  }

  lemma {:induction false} UnionHas(dens: seq<DocSet>, i: nat, d: nat)
    requires i < |dens| && d in dens[i]
    ensures d in Union(dens)
  {
    if i > 0 { UnionHas(dens[1..], i - 1, d); }
  }

  lemma {:induction false} UnionFrom(dens: seq<DocSet>, d: nat) returns (i: nat)
    requires d in Union(dens)
    ensures i < |dens| && d in dens[i]
  {
    if d in dens[0] {
      i := 0;
    } else {
      i := UnionFrom(dens[1..], d);
      i := i + 1;
    }
  }

  /** Documents in any set. */
  ghost function Join(dens: seq<DocSet>): DocSet
  {
    map d | d in Union(dens) :: Mod32(Total(dens, d))
  }

  lemma {:induction false} TotalConcat(a: seq<DocSet>, b: seq<DocSet>, d: nat)
    ensures Total(a + b, d) == Total(a, d) + Total(b, d)
  {
    if a == [] {
      assert a + b == b;
    } else {
      assert (a + b)[0] == a[0] && (a + b)[1..] == a[1..] + b;
      TotalConcat(a[1..], b, d);
    }
  }

  lemma {:induction false} RemoveAt<T>(b: seq<T>, k: nat)
    requires k < |b|
    ensures multiset(b) == multiset{b[k]} + multiset(b[..k] + b[k + 1..])
  {
    assert b == b[..k] + ([b[k]] + b[k + 1..]);
  }

  lemma {:induction false} TotalWithout(b: seq<DocSet>, k: nat, d: nat)
    requires k < |b|
    ensures Total(b, d) == Total(b[..k] + b[k + 1..], d) + (if d in b[k] then b[k][d] else 0)
  {
    var tail := [b[k]] + b[k + 1..];
    assert b == b[..k] + tail && tail[1..] == b[k + 1..];
    TotalConcat(b[..k], tail, d);
    TotalConcat(b[..k], b[k + 1..], d);
  }

  /** Reordering the sets changes neither operation. */
  lemma {:induction false} TotalPermuted(a: seq<DocSet>, b: seq<DocSet>, d: nat)
    requires multiset(a) == multiset(b)
    ensures Total(a, d) == Total(b, d)
  {
    if a == [] {
      assert |multiset(b)| == 0;
    } else {
      assert a[0] in multiset(b);
      var k :| 0 <= k < |b| && b[k] == a[0];
      RemoveAt(a, 0);
      RemoveAt(b, k);
      assert a[..0] + a[1..] == a[1..];
      var rest := b[..k] + b[k + 1..];
      SameRest(multiset{a[0]}, multiset(a[1..]), multiset(rest));
      TotalPermuted(a[1..], rest, d);
      TotalWithout(b, k, d);
    }
  }

  lemma {:induction false} SameRest<T>(x: multiset<T>, a: multiset<T>, b: multiset<T>)
    requires x + a == x + b
    ensures a == b
  {
    assert a == (x + a) - x;
    assert b == (x + b) - x;
  }

  lemma {:induction false} InAllPermuted(a: seq<DocSet>, b: seq<DocSet>, d: nat)
    requires multiset(a) == multiset(b)
    requires forall i :: 0 <= i < |a| ==> d in a[i]
    ensures forall i :: 0 <= i < |b| ==> d in b[i]
  {
    forall i | 0 <= i < |b| ensures d in b[i] {
      assert b[i] in multiset(b);
      assert b[i] in a;
    }
  }

  lemma {:induction false} MeetIncluded(a: seq<DocSet>, b: seq<DocSet>, d: nat)
    requires multiset(a) == multiset(b)
    requires d in Meet(a)
    ensures d in Meet(b) && Meet(a)[d] == Meet(b)[d]
  {
    InAllPermuted(a, b, d);
    assert |a| == |multiset(a)| == |multiset(b)| == |b|;
    TotalPermuted(a, b, d);
  }

  lemma {:induction false} MeetPermuted(a: seq<DocSet>, b: seq<DocSet>)
    requires multiset(a) == multiset(b)
    ensures Meet(a) == Meet(b)
  {
    forall d | d in Meet(a) ensures d in Meet(b) && Meet(a)[d] == Meet(b)[d] {
      MeetIncluded(a, b, d);
    }
    forall d | d in Meet(b) ensures d in Meet(a) {
      MeetIncluded(b, a, d);
    }
  }
}
