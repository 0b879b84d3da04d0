/** The iterator tree: conjunctions and disjunctions over leaf iterators.  Every
    iterator stands for a set of documents fixed when it is built; its state
    says where in that set it is. */
module Iterators {
  import opened Base
  import opened DocSets
  import opened LeafIterators

  /** One iterator behind the common interface. */
  datatype Iter =
    | Term(term: TermIterator)
    | All(all: MatchAllIterator)
    | And(and: ConjunctionIterator)
    | Or(or: DisjunctionIterator)
  {
    function Self(): object
    {
      match this
      case Term(t) => t
      case All(a) => a
      case And(c) => c
      case Or(d) => d
    }

    function Children(): seq<Iter>
    {
      match this
      case And(c) => c.children
      case Or(d) => d.children
      case _ => []
    }

    /** The objects the iterator changes when it moves. */
    ghost function Repr(): set<object>
    {
      match this
      case And(c) => c.repr
      case Or(d) => d.repr
      case _ => {Self()}
    }

    ghost function Den(): DocSet
    {
      match this
      case Term(t) => t.Den()
      case All(a) => a.Den()
      case And(c) => c.den
      case Or(d) => d.den
    }

    ghost function Height(): nat
    {
      match this
      case And(c) => c.height
      case Or(d) => d.height
      case _ => 0
    }

    /** What holds of the tree from its construction on.  Shape and, below, Inv
        and Fresh only name the predicate that follows them, so that a proof
        looks inside a subtree only where it asks for it. */
    ghost predicate Shape()
      decreases Height(), 1
    {
      Structure()
    }

    /** Leaves decode well-formed postings; a node owns its children, whose
        footprints are apart from each other and from the node itself. */
    ghost predicate Structure()
      decreases Height(), 0
    {
      && Self() in Repr() && InRange(Den())
      && (And? ==> Den() == Meet(Dens(Children()))) && (Or? ==> Den() == Join(Dens(Children())))
      && (Term? ==> term.good) && (All? ==> all.docCount <= NO_MORE)
      && (forall i :: 0 <= i < |Children()| ==>
            Children()[i].Height() < Height() && Children()[i].Shape()
            && Children()[i].Self() in Children()[i].Repr() && Children()[i].Repr() <= Repr() - {Self()})
      && Disjoint(Children())
    }

    /** DocId_: NO_MORE before the first and after the last document. */
    function DocId(): nat
      reads Self()
    {
      match this
      case Term(t) => t.current
      case All(a) => a.current
      case And(c) => c.current
      case Or(d) => d.current
    }

    function Freq(): nat
      reads Self()
    {
      match this
      case Term(t) => t.hit.freq
      case All(a) => 0
      case And(c) => c.totalFreq
      case Or(d) => d.totalFreq
    }

    /** The planner's estimate.  A node's children never change, so neither does
        its cost. */
    function Cost(): nat
    {
      match this
      case Term(t) => t.df
      case All(a) => a.docCount
      case And(c) => c.cost
      case Or(d) => d.cost
    }

    /** The iterator stands nowhere, or on one of its documents with that
        document's frequency. */
    ghost predicate OnDocument()
      reads Self()
    {
      DocId() == NO_MORE || (DocId() in Den() && Freq() == Den()[DocId()])
    }

    ghost predicate Inv()
      requires Shape()
      reads Repr()
      decreases Height(), 1
    {
      assert Structure();
      State()
    }

    /** Every child is in a proper state, and its position fits the position of
        the node. */
    ghost predicate State()
      requires Structure()
      reads Repr()
      decreases Height(), 0
    {
      && OnDocument()
      && (forall i :: 0 <= i < |Children()| ==> Children()[i].Inv())
      && match this
         case Term(t) => t.Inv()
         case All(a) => a.Inv()
         case And(c) => c.current != NO_MORE ==> AllAt(Children(), c.current)
         case Or(d) => NoneBehind(Children(), d.current)
    }

    /** The iterator has not moved yet, so Next finds the first document. */
    ghost predicate Fresh()
      requires Shape()
      reads Repr()
      decreases Height(), 1
    {
      assert Structure();
      AtStart()
    }

    ghost predicate AtStart()
      requires Structure()
      reads Repr()
      decreases Height(), 0
    {
      match this
      case Term(t) => !t.started
      case All(a) => !a.started
      case And(c) => c.current == NO_MORE && Track(Children(), c.den, 0)
      case Or(d) => d.current == NO_MORE && forall i :: 0 <= i < |Children()| ==> Children()[i].Fresh()
    }

    /** The document after the current one.  It may be asked for on a fresh
        iterator and on one that stands on a document, not on an exhausted one. */
    method Next() returns (r: nat)
      requires Shape() && Inv() && (Fresh() || DocId() != NO_MORE)
      modifies Repr()
      ensures Inv() && r == DocId() <= NO_MORE
      ensures Least(Den(), if old(DocId()) == NO_MORE then 0 else old(DocId()) + 1, r)
      decreases Height(), 3
    {
      assert Structure() && State() && (Fresh() ==> AtStart());
      match this
      case Term(t) =>
        LeastFromEntry(t.entries, t.Done());
        r := t.Next();
        assert State();
      case All(a) =>
        r := a.Next();
        assert State();
      case And(c) => r := c.Next();
      case Or(d) => r := d.Next();
    }

    /** The first document at or above target, if the iterator stands on one at
        or below it.  In every state the answer is in the set and not below
        target, and no document from both target and the old position on is
        skipped. */
    method Advance(target: nat) returns (r: nat)
      requires Shape() && Inv() && target <= NO_MORE
      modifies Repr()
      ensures Inv() && r == DocId()
      ensures r == NO_MORE || (r in Den() && target <= r < NO_MORE)
      ensures forall x :: x in Den() && target <= x && old(DocId()) <= x ==> r <= x
      ensures old(DocId()) <= target ==> Least(Den(), target, r)
      decreases Height(), 3
    {
      assert Structure() && State();
      match this
      case Term(t) =>
        r := t.Advance(target);
        if r != NO_MORE { FrequencyAt(t.entries, t.Done() - 1); }
        assert State();
      case All(a) =>
        r := a.Advance(target);
        assert State();
      case And(c) =>
        r := c.Advance(target);
        Landed(this);
      case Or(d) =>
        r := d.Advance(target);
        Landed(this);
    }
  }

  /** Conjunction: the cheapest child, which comes first. */
  function LeadCost(children: seq<Iter>): nat
  {
    if children == [] then 0 else children[0].Cost()
  }

  /** Disjunction: all children together. */
  function TotalCost(children: seq<Iter>): nat
  {
    if children == [] then 0 else children[0].Cost() + TotalCost(children[1..])
  }

  ghost function Dens(children: seq<Iter>): (dens: seq<DocSet>)
  {
    seq(|children|, i requires 0 <= i < |children| => children[i].Den())
  }

  lemma {:induction false} InEvery(children: seq<Iter>, d: nat, i: nat)
    requires i < |children| && d in Meet(Dens(children))
    ensures d in children[i].Den()
  {
    assert d in Dens(children)[i];
  }

  /** Trees with footprints apart from each other, all in a proper state. */
  ghost predicate Apart(children: seq<Iter>)
  {
    && (forall i :: 0 <= i < |children| ==> children[i].Shape() && children[i].Self() in children[i].Repr())
    && Disjoint(children)
  }

  ghost predicate Disjoint(children: seq<Iter>)
  {
    children == [] || (children[0].Repr() !! Footprint(children[1..]) && Disjoint(children[1..]))
  }

  lemma {:induction false} DisjointPair(children: seq<Iter>, i: nat, j: nat)
    requires Disjoint(children) && i < |children| && j < |children| && i != j
    ensures children[i].Repr() !! children[j].Repr()
  {
    if i > 0 && j > 0 {
      DisjointPair(children[1..], i - 1, j - 1);
    } else {
      var k := if i == 0 then j else i;
      assert children[k] == children[1..][k - 1];
    }
  }

  lemma {:induction false} DisjointFromPairs(children: seq<Iter>)
    requires forall i, j :: 0 <= i < j < |children| ==> children[i].Repr() !! children[j].Repr()
    ensures Disjoint(children)
  {
    if children != [] {
      forall o | o in children[0].Repr() ensures o !in Footprint(children[1..]) {
        OutsideFootprint(children[1..], o);
      }
      DisjointFromPairs(children[1..]);
    }
  }

  ghost function Footprint(children: seq<Iter>): (f: set<object>)
    ensures forall i :: 0 <= i < |children| ==> children[i].Repr() <= f
  {
    if children == [] then {} else children[0].Repr() + Footprint(children[1..])
  }

  ghost predicate AllAt(children: seq<Iter>, d: nat)
    reads set i | 0 <= i < |children| :: children[i].Self()
  {
    forall i :: 0 <= i < |children| ==> children[i].DocId() == d
  }

  /** No child has gone past a common document from floor on. */
  ghost predicate Track(children: seq<Iter>, den: DocSet, floor: nat)
    reads set i | 0 <= i < |children| :: children[i].Self()
  {
    forall i, x :: 0 <= i < |children| && x in den && floor <= x ==> children[i].DocId() <= x
  }

  /** Every child stands at or beyond lo, and on its first document from lo on. */
  ghost predicate NoneBehind(children: seq<Iter>, lo: nat)
    reads set i | 0 <= i < |children| :: children[i].Self()
  {
    forall i :: 0 <= i < |children| ==> Least(children[i].Den(), lo, children[i].DocId())
  }

  ghost predicate AllFresh(children: seq<Iter>)
    requires Apart(children)
    reads Footprint(children)
  {
    forall i :: 0 <= i < |children| ==> children[i].Fresh()
  }

  ghost function MaxHeight(children: seq<Iter>): (h: nat)
    ensures forall i :: 0 <= i < |children| ==> children[i].Height() <= h
  {
    if children == [] then 0
    else
      var h := MaxHeight(children[1..]);
      if h < children[0].Height() then children[0].Height() else h
  }

  /** Reordered children are the same objects in the same states. */
  lemma {:induction false} SameFamily(a: seq<Iter>, b: seq<Iter>)
    requires multiset(a) == multiset(b) && Apart(a) && Apart(b)
    ensures Footprint(b) == Footprint(a)
    ensures AllInv(a) ==> AllInv(b)
    ensures AllFresh(a) ==> AllFresh(b)
  {
    forall i | 0 <= i < |b| ensures b[i] in a && b[i].Repr() <= Footprint(a) {
      assert b[i] in multiset(b);
    }
    forall i | 0 <= i < |a| ensures a[i].Repr() <= Footprint(b) {
      assert a[i] in multiset(a);
      assert a[i] in b;
    }
    FootprintWithin(b, Footprint(a));
    FootprintWithin(a, Footprint(b));
  }

  lemma {:induction false} FootprintWithin(children: seq<Iter>, f: set<object>)
    requires forall i :: 0 <= i < |children| ==> children[i].Repr() <= f
    ensures Footprint(children) <= f
  {
    if children != [] { FootprintWithin(children[1..], f); }
  }

  lemma {:induction false} OutsideFootprint(children: seq<Iter>, o: object)
    requires forall i :: 0 <= i < |children| ==> o !in children[i].Repr()
    ensures o !in Footprint(children)
  {
    if children != [] { OutsideFootprint(children[1..], o); }
  }

  ghost predicate AllInv(children: seq<Iter>)
    requires Apart(children)
    reads Footprint(children)
  {
    forall i :: 0 <= i < |children| ==> children[i].Inv()
  }

  lemma {:induction false} Position(c: Iter)
    requires c.Shape() && c.Inv()
    ensures c.DocId() <= NO_MORE && (c.Fresh() ==> c.DocId() == NO_MORE)
  {
    assert c.Structure() && c.State() && (c.Fresh() ==> c.AtStart());
  }

  lemma {:induction false} Landed(c: Iter)
    requires c.Shape() && c.Inv()
    ensures c.DocId() == NO_MORE || c.DocId() in c.Den()
  {
    assert c.Structure() && c.State();
  }

  lemma {:induction false} MeetInRange(children: seq<Iter>)
    requires Apart(children)
    ensures InRange(Meet(Dens(children)))
  {
    forall x | x in Meet(Dens(children)) ensures x < NO_MORE {
      InEvery(children, x, 0);
      assert children[0].Structure();
    }
  }

  lemma {:induction false} NotStarted(children: seq<Iter>)
    requires Apart(children) && AllInv(children) && AllFresh(children)
    ensures NoneBehind(children, NO_MORE)
  {
    forall i | 0 <= i < |children| ensures Least(children[i].Den(), NO_MORE, children[i].DocId()) {
      Position(children[i]);
      assert children[i].Structure();
    }
  }

  /** Children that all stand on d hold d, and none of them is behind it. */
  lemma {:induction false} AgreedOn(children: seq<Iter>, d: nat)
    requires Apart(children) && AllInv(children) && AllAt(children, d) && d < NO_MORE && children != []
    ensures d in Meet(Dens(children)) && NoneBehind(children, d)
  {
    forall i | 0 <= i < |children| ensures d in children[i].Den() && d in Dens(children)[i] {
      assert children[i].Structure() && children[i].State();
    }
  }

  /** Moving one child leaves its siblings where they are. */
  method AdvanceChild(children: seq<Iter>, k: nat, target: nat) returns (r: nat)
    requires k < |children| && Apart(children) && AllInv(children) && target <= NO_MORE
    modifies children[k].Repr()
    ensures AllInv(children) && r == children[k].DocId()
    ensures forall i :: 0 <= i < |children| && i != k ==> children[i].DocId() == old(children[i].DocId())
    ensures r == NO_MORE || target <= r < NO_MORE
    ensures forall x :: x in children[k].Den() && target <= x && old(children[k].DocId()) <= x ==> r <= x
    decreases children[k].Height(), 4
  {
    r := children[k].Advance(target);
    forall i | 0 <= i < |children| && i != k
      ensures children[i].Inv() && children[i].DocId() == old(children[i].DocId())
    {
      DisjointPair(children, i, k);
      assert unchanged(children[i].Self());
    }
  }

  method NextChild(children: seq<Iter>, k: nat) returns (r: nat)
    requires k < |children| && Apart(children) && AllInv(children)
    requires children[k].Fresh() || children[k].DocId() != NO_MORE
    modifies children[k].Repr()
    ensures AllInv(children) && r == children[k].DocId() <= NO_MORE
    ensures forall i :: 0 <= i < |children| && i != k ==> children[i].DocId() == old(children[i].DocId())
    ensures forall i :: 0 <= i < |children| && i != k && old(children[i].Fresh()) ==> children[i].Fresh()
    ensures Least(children[k].Den(), if old(children[k].DocId()) == NO_MORE then 0 else old(children[k].DocId()) + 1, r)
    decreases children[k].Height(), 4
  {
    r := children[k].Next();
    forall i | 0 <= i < |children| && i != k
      ensures children[i].Inv() && children[i].DocId() == old(children[i].DocId())
      ensures old(children[i].Fresh()) ==> children[i].Fresh()
    {
      DisjointPair(children, i, k);
      assert unchanged(children[i].Self());
    }
  }

  lemma {:induction false} TotalSnoc(dens: seq<DocSet>, den: DocSet, d: nat)
    ensures Total(dens + [den], d) == Total(dens, d) + (if d in den then den[d] else 0)
  {
    TotalConcat(dens, [den], d);
    assert [den][1..] == [];
  }

  /** What child i adds to the sum over the first i. */
  lemma {:induction false} Contribution(children: seq<Iter>, i: nat, d: nat)
    requires Apart(children) && AllInv(children) && d < NO_MORE && NoneBehind(children, d) && i < |children|
    ensures Total(Dens(children[..i + 1]), d)
         == Total(Dens(children[..i]), d) + (if children[i].DocId() == d then children[i].Freq() else 0)
  {
    var c := children[i];
    assert c.Structure() && c.State();
    assert Least(c.Den(), d, c.DocId());
    assert Dens(children[..i + 1]) == Dens(children[..i]) + [c.Den()];
    TotalSnoc(Dens(children[..i]), c.Den(), d);
  }

  /** total_freq_: the frequencies of the children that stand on d, in a
      32-bit sum. */
  method SumFreqs(children: seq<Iter>, d: nat) returns (total: nat)
    requires Apart(children) && AllInv(children) && d < NO_MORE && NoneBehind(children, d)
    ensures total == Mod32(Total(Dens(children), d))
  {
    total := 0;
    for i := 0 to |children|
      invariant total == Mod32(Total(Dens(children[..i]), d))
    {
      Contribution(children, i, d);
      if children[i].DocId() == d {
        Mod32Twice(Total(Dens(children[..i]), d), children[i].Freq());
        total := Mod32(total + children[i].Freq());
      }
    }
    assert children[..|children|] == children;
  }

  lemma {:induction false} DensConcat(a: seq<Iter>, b: seq<Iter>)
    ensures Dens(a + b) == Dens(a) + Dens(b)
  {
  }

  lemma {:induction false} DensWithout(b: seq<Iter>, k: nat)
    requires k < |b|
    ensures multiset(Dens(b)) == multiset{b[k].Den()} + multiset(Dens(b[..k] + b[k + 1..]))
  {
    var tail := [b[k]] + b[k + 1..];
    assert b == b[..k] + tail;
    DensConcat(b[..k], tail);
    DensConcat([b[k]], b[k + 1..]);
    DensConcat(b[..k], b[k + 1..]);
    assert Dens([b[k]]) == [b[k].Den()];
  }

  lemma {:induction false} WithoutFirst<T>(a: seq<T>, b: seq<T>, k: nat)
    requires a != [] && k < |b| && b[k] == a[0] && multiset(a) == multiset(b)
    ensures multiset(a[1..]) == multiset(b[..k] + b[k + 1..])
  {
    RemoveAt(a, 0);
    RemoveAt(b, k);
    assert a[..0] + a[1..] == a[1..];
    SameRest(multiset{a[0]}, multiset(a[1..]), multiset(b[..k] + b[k + 1..]));
  }

  lemma {:induction false} DensPermuted(a: seq<Iter>, b: seq<Iter>)
    requires multiset(a) == multiset(b)
    ensures multiset(Dens(a)) == multiset(Dens(b))
  {
    if a == [] {
      assert |multiset(b)| == 0;
    } else {
      assert a[0] in multiset(b);
      var k :| 0 <= k < |b| && b[k] == a[0];
      WithoutFirst(a, b, k);
      DensPermuted(a[1..], b[..k] + b[k + 1..]);
      DensWithout(a, 0);
      DensWithout(b, k);
      assert a[..0] + a[1..] == a[1..];
    }
  }

  lemma {:induction false} SameMeet(a: seq<Iter>, b: seq<Iter>)
    requires multiset(a) == multiset(b) && Apart(b)
    ensures Meet(Dens(a)) == Meet(Dens(b)) && InRange(Meet(Dens(b)))
  {
    DensPermuted(a, b);
    MeetPermuted(Dens(a), Dens(b));
    MeetInRange(b);
  }

  predicate ByCost(children: seq<Iter>)
  {
    |children| <= 1 || (children[0].Cost() <= children[1].Cost() && ByCost(children[1..]))
  }

  function InsertByCost(c: Iter, sorted: seq<Iter>): seq<Iter>
  {
    if sorted == [] then [c]
    else if c.Cost() < sorted[0].Cost() then [c] + sorted
    else [sorted[0]] + InsertByCost(c, sorted[1..])
  }

  lemma {:induction false} InsertedByCost(c: Iter, sorted: seq<Iter>)
    requires ByCost(sorted)
    ensures var r := InsertByCost(c, sorted);
      && ByCost(r) && multiset(r) == multiset{c} + multiset(sorted)
      && r[0].Cost() == if sorted == [] || c.Cost() < sorted[0].Cost() then c.Cost() else sorted[0].Cost()
  {
    if sorted != [] {
      assert sorted == [sorted[0]] + sorted[1..];
      if c.Cost() < sorted[0].Cost() {
        assert ([c] + sorted)[1..] == sorted;
      } else {
        InsertedByCost(c, sorted[1..]);
        var rest := InsertByCost(c, sorted[1..]);
        assert ([sorted[0]] + rest)[1..] == rest;
      }
    }
  }

  /** An object that occurs twice in a sequence is at two places of every
      reordering of it. */
  lemma {:induction false} TwoPlaces<T>(a: seq<T>, b: seq<T>, i: nat, j: nat) returns (p: nat, q: nat)
    requires multiset(a) == multiset(b) && i < j < |b| && b[i] == b[j]
    ensures p < |a| && q < |a| && p != q && a[p] == b[i] && a[q] == b[i]
  {
    var x := b[i];
    RemoveAt(b, j);
    var without := b[..j] + b[j + 1..];
    assert without[i] == x;
    assert x in multiset(without);
    assert multiset(b)[x] >= 2;
    assert x in multiset(a);
    p :| 0 <= p < |a| && a[p] == x;
    RemoveAt(a, p);
    var rest := a[..p] + a[p + 1..];
    assert multiset(rest)[x] >= 1;
    assert x in rest;
    var k :| 0 <= k < |rest| && rest[k] == x;
    q := if k < p then k else k + 1;
  }

  /** Footprints stay apart in any order, because no tree is apart from itself. */
  lemma {:induction false} ApartPermuted(a: seq<Iter>, b: seq<Iter>)
    requires Apart(a) && multiset(a) == multiset(b)
    ensures Apart(b)
  {
    forall i | 0 <= i < |b| ensures b[i] in a {
      assert b[i] in multiset(b);
    }
    forall i, j | 0 <= i < j < |b| ensures b[i].Repr() !! b[j].Repr() {
      if b[i] == b[j] {
        var p, q := TwoPlaces(a, b, i, j);
        DisjointPair(a, p, q);
        assert a[p].Self() in a[q].Repr();
      } else {
        var p :| 0 <= p < |a| && a[p] == b[i];
        var q :| 0 <= q < |a| && a[q] == b[j];
        DisjointPair(a, p, q);
      }
    }
    DisjointFromPairs(b);
  }

  lemma {:induction false} PrefixContents<T>(s: seq<T>, n: nat)
    requires n < |s|
    ensures multiset(s[..n + 1]) == multiset{s[n]} + multiset(s[..n])
  {
    assert s[..n + 1] == s[..n] + [s[n]];
  }

  /** Cheapest first. */
  method SortByCost(kids: seq<Iter>) returns (sorted: seq<Iter>)
    ensures ByCost(sorted) && multiset(sorted) == multiset(kids)
  {
    sorted := [];
    for n := 0 to |kids|
      invariant multiset(sorted) == multiset(kids[..n]) && ByCost(sorted)
    {
      InsertedByCost(kids[n], sorted);
      PrefixContents(kids, n);
      sorted := InsertByCost(kids[n], sorted);
    }
    assert kids[..|kids|] == kids;
  }

  /** The sorted children, with all that the constructor needs of them. */
  method CheapestFirst(kids: seq<Iter>) returns (sorted: seq<Iter>)
    requires Apart(kids) && AllInv(kids) && AllFresh(kids)
    ensures multiset(sorted) == multiset(kids) && Apart(sorted) && ByCost(sorted)
    ensures Footprint(sorted) == Footprint(kids) && AllInv(sorted) && AllFresh(sorted)
    ensures Meet(Dens(sorted)) == Meet(Dens(kids)) && InRange(Meet(Dens(sorted)))
  {
    sorted := SortByCost(kids);
    ApartPermuted(kids, sorted);
    SameFamily(kids, sorted);
    SameMeet(kids, sorted);
  }

  class ConjunctionIterator {
    const children: seq<Iter>
    ghost const repr: set<object>
    ghost const den: DocSet
    ghost const height: nat
    const cost: nat
    var current: nat
    var totalFreq: nat

    /** The children are sorted cheapest first and moved to their first
        documents, up to a child that has none. */
    constructor (kids: seq<Iter>)
      requires Apart(kids) && AllInv(kids) && AllFresh(kids)
      modifies Footprint(kids)
      ensures And(this).Shape() && And(this).Inv() && And(this).Fresh()
      ensures den == Meet(Dens(kids)) && repr == {this} + Footprint(kids)
      ensures multiset(children) == multiset(kids) && ByCost(children) && cost == LeadCost(children)
    {
      var sorted := CheapestFirst(kids);
      children := sorted;
      repr := {this} + Footprint(kids);
      den := Meet(Dens(kids));
      height := MaxHeight(sorted) + 1;
      cost := LeadCost(sorted);
      current, totalFreq := NO_MORE, 0;
      new;
      OutsideFootprint(kids, this);
      Prime();
      Fold();
      assert And(this).State() && And(this).AtStart();
    }

    method Prime()
      requires Owns() && AllInv(children) && AllFresh(children)
      modifies Footprint(children)
      ensures AllInv(children) && Track(children, den, 0)
    {
      for k := 0 to |children|
        invariant AllInv(children)
        invariant forall i :: k <= i < |children| ==> children[i].Fresh()
        invariant forall i :: 0 <= i < k ==> Least(children[i].Den(), 0, children[i].DocId())
      {
        Position(children[k]);
        var d := NextChild(children, k);
        if d == NO_MORE {
          NothingCommon(k);
          return;
        }
      }
      forall i, x | 0 <= i < |children| && x in den ensures children[i].DocId() <= x {
        InEvery(children, x, i);
        assert Least(children[i].Den(), 0, children[i].DocId());
      }
    }

    lemma {:induction false} NothingCommon(k: nat)
      requires Owns() && k < |children| && Least(children[k].Den(), 0, NO_MORE)
      ensures den == map[]
    {
      forall x | x in den ensures false { InEvery(children, x, k); }
    }

    /** The parts of Shape that the methods work with. */
    ghost predicate Owns()
    {
      && Apart(children) && this in repr && Footprint(children) <= repr - {this}
      && den == Meet(Dens(children)) && InRange(den)
      && forall i :: 0 <= i < |children| ==> children[i].Height() < height
    }

    lemma {:induction false} Unfold()
      requires And(this).Shape()
      ensures Owns()
    {
      assert And(this).Structure();
      FootprintWithin(children, repr - {this});
    }

    lemma {:induction false} Fold()
      requires Owns()
      ensures And(this).Shape()
    {
      assert And(this).Structure();
    }

    ghost predicate Settled()
      requires Owns()
      reads repr
    {
      && AllInv(children) && current <= NO_MORE
      && (current == NO_MORE || (current in den && totalFreq == den[current] && AllAt(children, current)))
    }

    /** One round of the leapfrog: the other children are moved up to the
        candidate that the first child stands on, until one of them runs out
        or lands beyond it. */
    method Round(candidate: nat, ghost floor: nat) returns (ended: bool, d: nat)
      requires Owns() && AllInv(children) && children != [] && candidate <= NO_MORE
      requires children[0].DocId() == candidate && Track(children, den, floor)
      modifies Footprint(children)
      ensures AllInv(children) && Track(children, den, floor)
      ensures forall x :: x in den && floor <= x ==> d <= x
      ensures ended ==> d == NO_MORE
      ensures !ended ==> candidate <= d <= NO_MORE
      ensures !ended && d == candidate ==> AllAt(children, d)
      decreases height, 0
    {
      var i := 1;
      while i < |children|
        invariant 1 <= i <= |children|
        invariant AllInv(children) && Track(children, den, floor)
        invariant forall j :: 0 <= j < i ==> children[j].DocId() == candidate
      {
        d := AdvanceChild(children, i, candidate);
        forall x | x in den ensures x in children[i].Den() { InEvery(children, x, i); }
        if d == NO_MORE { return true, NO_MORE; }
        if d != candidate { return false, d; }
        i := i + 1;
      }
      return false, candidate;
    }

    /** The children agree on d. */
    method Settle(d: nat)
      requires Owns() && AllInv(children) && AllAt(children, d) && children != [] && d <= NO_MORE
      modifies this
      ensures Settled() && current == d
    {
      current := d;
      if d != NO_MORE {
        AgreedOn(children, d);
        totalFreq := SumFreqs(children, d);
      }
    }

    /** A child moves; what the others track stays as it was. */
    method MoveFirst(target: nat, ghost floor: nat) returns (d: nat)
      requires Owns() && AllInv(children) && children != [] && target <= NO_MORE
      requires Track(children, den, floor) && forall x :: x in den && floor <= x ==> target <= x
      modifies Footprint(children)
      ensures AllInv(children) && Track(children, den, floor) && d == children[0].DocId() && target <= d <= NO_MORE
      decreases height, 0
    {
      d := AdvanceChild(children, 0, target);
      forall x | x in den ensures x in children[0].Den() { InEvery(children, x, 0); }
    }

    method Next() returns (r: nat)
      requires And(this).Shape() && And(this).Inv() && (And(this).Fresh() || current != NO_MORE)
      modifies repr
      ensures And(this).Inv() && r == current <= NO_MORE
      ensures Least(den, if old(current) == NO_MORE then 0 else old(current) + 1, r)
      decreases height, 2
    {
      Unfold();
      assert And(this).State() && (And(this).Fresh() ==> And(this).AtStart());
      r := Leapfrog();
      assert And(this).State();
    }

    /** Moves the first child past the current document and then leapfrogs. */
    method Leapfrog() returns (r: nat)
      requires Owns() && Settled()
      requires current == NO_MORE ==> Track(children, den, 0)
      modifies repr
      ensures Settled() && r == current <= NO_MORE
      ensures Least(den, if old(current) == NO_MORE then 0 else old(current) + 1, r)
      decreases height, 1
    {
      if children == [] {
        current := NO_MORE;
        return current;
      }
      ghost var floor := if current == NO_MORE then 0 else current + 1;
      var target;
      if current == NO_MORE {
        Position(children[0]);
        target := children[0].DocId();
      } else {
        target := PastCurrent();
        if target == NO_MORE {
          current := NO_MORE;
          return current;
        }
      }
      while true
        invariant AllInv(children) && Track(children, den, floor)
        invariant floor <= target <= NO_MORE && children[0].DocId() == target
        decreases NO_MORE - target
      {
        var ended, candidate := Round(target, floor);
        if ended {
          current := NO_MORE;
          return current;
        }
        if candidate == target {
          Settle(candidate);
          return current;
        }
        target := MoveFirst(candidate, floor);
        if target == NO_MORE {
          current := NO_MORE;
          return current;
        }
      }
    }

    method PastCurrent() returns (d: nat)
      requires Owns() && Settled() && children != [] && current != NO_MORE
      modifies Footprint(children)
      ensures AllInv(children) && Track(children, den, current + 1)
      ensures d == children[0].DocId() && current < d <= NO_MORE
      decreases height, 0
    {
      d := NextChild(children, 0);
      forall x | x in den ensures x in children[0].Den() { InEvery(children, x, 0); }
    }

    method Advance(target: nat) returns (r: nat)
      requires And(this).Shape() && And(this).Inv() && target <= NO_MORE
      modifies repr
      ensures And(this).Inv() && r == current
      ensures r == NO_MORE || target <= r < NO_MORE
      ensures forall x :: x in den && target <= x && old(current) <= x ==> r <= x
      decreases height, 2
    {
      Unfold();
      assert And(this).State();
      r := LeapfrogTo(target);
      assert And(this).State();
    }

    method LeapfrogTo(start: nat) returns (r: nat)
      requires Owns() && Settled() && start <= NO_MORE
      modifies repr
      ensures Settled() && r == current
      ensures r == NO_MORE || start <= r < NO_MORE
      ensures forall x :: x in den && start <= x && old(current) <= x ==> r <= x
      decreases height, 1
    {
      var target := start;
      ghost var floor := if current < start then start else current;
      while current < target || current == NO_MORE
        invariant start <= target <= NO_MORE && current == old(current)
        invariant if target == start then Settled() else current < target || current == NO_MORE
        invariant AllInv(children) && Track(children, den, floor)
        invariant forall x :: x in den && floor <= x ==> target <= x
        decreases NO_MORE - target
      {
        if children == [] { return NO_MORE; }
        var d := MoveFirst(target, floor);
        if d == NO_MORE {
          current := NO_MORE;
          return current;
        }
        var ended, candidate := Round(d, floor);
        if ended {
          current := NO_MORE;
          return current;
        }
        if candidate == d {
          Settle(candidate);
          return current;
        }
        target := candidate;
      }
      return current;
    }
  }

  /** The least position at or above lo among the children that stand
      somewhere. */
  method Smallest(children: seq<Iter>, lo: nat) returns (best: nat, ghost k: nat)
    requires Apart(children) && AllInv(children)
    ensures IsSmallest(children, lo, best, k)
  {
    best, k := NO_MORE, 0;
    var first := true;
    for n := 0 to |children|
      invariant best <= NO_MORE && (first ==> best == NO_MORE)
      invariant best != NO_MORE ==> lo <= best && k < n && children[k].DocId() == best
      invariant forall i :: 0 <= i < n && lo <= children[i].DocId() ==> best <= children[i].DocId()
    {
      var d := children[n].DocId();
      Position(children[n]);
      if d != NO_MORE && d >= lo && (first || d < best) {
        best, k := d, n;
        first := false;
      }
    }
  }

  lemma {:induction false} HasSome(children: seq<Iter>, i: nat, d: nat)
    requires i < |children| && d in children[i].Den()
    ensures d in Join(Dens(children))
  {
    UnionHas(Dens(children), i, d);
  }

  lemma {:induction false} FromSome(children: seq<Iter>, d: nat) returns (i: nat)
    requires d in Join(Dens(children))
    ensures i < |children| && d in children[i].Den()
  {
    i := UnionFrom(Dens(children), d);
  }

  lemma {:induction false} JoinInRange(children: seq<Iter>)
    requires Apart(children)
    ensures InRange(Join(Dens(children)))
  {
    forall x | x in Join(Dens(children)) ensures x < NO_MORE {
      var i := FromSome(children, x);
      assert children[i].Structure();
    }
  }

  /** Child k is the one with the least position at or above lo; if no child
      is there, best is NO_MORE. */
  ghost predicate IsSmallest(children: seq<Iter>, lo: nat, best: nat, k: nat)
    reads set i | 0 <= i < |children| :: children[i].Self()
  {
    && best <= NO_MORE
    && (best != NO_MORE ==> lo <= best && k < |children| && children[k].DocId() == best)
    && (forall i :: 0 <= i < |children| && lo <= children[i].DocId() ==> best <= children[i].DocId())
  }

  lemma {:induction false} NoneBehindSmallest(children: seq<Iter>, lo: nat, from: nat, best: nat, k: nat)
    requires lo <= from <= NO_MORE && NoneBehind(children, from) && IsSmallest(children, lo, best, k)
    ensures NoneBehind(children, best) && (best == NO_MORE || from <= best)
  {
    forall i | 0 <= i < |children| ensures Least(children[i].Den(), best, children[i].DocId()) {
      var f := First(children[i].Den(), from);
      assert children[i].DocId() == f;
    }
  }

  lemma {:induction false} SmallestIsFirst(children: seq<Iter>, lo: nat, from: nat, best: nat, k: nat)
    requires lo <= from <= NO_MORE && NoneBehind(children, from) && IsSmallest(children, lo, best, k)
    ensures Least(Join(Dens(children)), from, best)
  {
    var f := First(Join(Dens(children)), from);
    if f != NO_MORE {
      var i := FromSome(children, f);
      assert children[i].DocId() == First(children[i].Den(), from) <= f;
    }
    if best != NO_MORE {
      HasSome(children, k, best);
    }
  }

  /** With every child on its first document from `from` on, the smallest of
      them is the first document of the union. */
  method FirstOf(children: seq<Iter>, lo: nat, ghost from: nat) returns (best: nat)
    requires Apart(children) && AllInv(children) && lo <= from <= NO_MORE && NoneBehind(children, from)
    ensures Least(Join(Dens(children)), from, best) && NoneBehind(children, best)
  {
    ghost var k;
    best, k := Smallest(children, lo);
    NoneBehindSmallest(children, lo, from, best, k);
    SmallestIsFirst(children, lo, from, best, k);
  }

  /** A child that was on its first document from `cur` on and has been advanced
      to target is on its first document from target on. */
  lemma {:induction false} StillFirst(den: DocSet, cur: nat, d: nat, target: nat, r: nat)
    requires Least(den, cur, d) && d < target && d != NO_MORE
    requires r == NO_MORE || (target <= r < NO_MORE && r in den)
    requires forall x :: x in den && target <= x && d <= x ==> r <= x
    ensures cur <= target && Least(den, target, r)
  {
    var f := First(den, target);
  }

  class DisjunctionIterator {
    const children: seq<Iter>
    ghost const repr: set<object>
    ghost const den: DocSet
    ghost const height: nat
    const cost: nat
    var current: nat
    var totalFreq: nat

    /** The children stay as they are until the first call of Next. */
    constructor (kids: seq<Iter>)
      requires Apart(kids) && AllInv(kids) && AllFresh(kids)
      ensures Or(this).Shape() && Or(this).Inv() && Or(this).Fresh()
      ensures den == Join(Dens(kids)) && repr == {this} + Footprint(kids)
      ensures children == kids && cost == TotalCost(kids)
    {
      children := kids;
      repr := {this} + Footprint(kids);
      den := Join(Dens(kids));
      height := MaxHeight(kids) + 1;
      cost := TotalCost(kids);
      current, totalFreq := NO_MORE, 0;
      new;
      OutsideFootprint(kids, this);
      JoinInRange(children);
      NotStarted(children);
      Fold();
      assert Or(this).State() && Or(this).AtStart();
    }

    /** The parts of Shape that the methods work with. */
    ghost predicate Owns()
    {
      && Apart(children) && this in repr && Footprint(children) <= repr - {this}
      && den == Join(Dens(children)) && InRange(den)
      && forall i :: 0 <= i < |children| ==> children[i].Height() < height
    }

    lemma {:induction false} Unfold()
      requires Or(this).Shape()
      ensures Owns()
    {
      assert Or(this).Structure();
      FootprintWithin(children, repr - {this});
    }

    lemma {:induction false} Fold()
      requires Owns()
      ensures Or(this).Shape()
    {
      assert Or(this).Structure();
    }

    ghost predicate Settled()
      requires Owns()
      reads repr
    {
      && AllInv(children) && NoneBehind(children, current) && current <= NO_MORE
      && (current == NO_MORE || (current in den && totalFreq == den[current]))
    }

    /** Makes the smallest position the current document. */
    method Land(lo: nat, ghost from: nat) returns (best: nat)
      requires Owns() && AllInv(children) && lo <= from <= NO_MORE && NoneBehind(children, from)
      modifies this
      ensures Settled() && best == current && Least(den, from, best)
    {
      best := FirstOf(children, lo, from);
      var total := 0;
      if best != NO_MORE {
        total := SumFreqs(children, best);
      }
      current, totalFreq := best, total;
    }

    /** The loops over the children that have to move, for the first document
        and for the one after the current one. */
    method StartAll()
      requires Owns() && AllInv(children)
      requires forall i :: 0 <= i < |children| ==> children[i].Fresh()
      modifies Footprint(children)
      ensures AllInv(children) && NoneBehind(children, 0)
      decreases height, 0
    {
      for k := 0 to |children|
        invariant AllInv(children)
        invariant forall i :: k <= i < |children| ==> children[i].Fresh()
        invariant forall i :: 0 <= i < k ==> Least(children[i].Den(), 0, children[i].DocId())
      {
        Position(children[k]);
        if children[k].DocId() == NO_MORE {
          var d := NextChild(children, k);
        }
      }
    }

    method MoveAfter(after: nat)
      requires Owns() && AllInv(children) && after < NO_MORE && NoneBehind(children, after)
      modifies Footprint(children)
      ensures AllInv(children) && NoneBehind(children, after + 1)
      decreases height, 0
    {
      for k := 0 to |children|
        invariant AllInv(children)
        invariant forall i :: 0 <= i < k ==> Least(children[i].Den(), after + 1, children[i].DocId())
        invariant forall i :: k <= i < |children| ==> Least(children[i].Den(), after, children[i].DocId())
      {
        var d := children[k].DocId();
        if d != NO_MORE && d <= after {
          d := NextChild(children, k);
        }
      }
    }

    method MoveTo(target: nat)
      requires Owns() && Settled() && target <= NO_MORE
      modifies Footprint(children)
      ensures AllInv(children) && NoneBehind(children, if target < current then current else target)
      decreases height, 0
    {
      ghost var lo := if target < current then current else target;
      for k := 0 to |children|
        invariant AllInv(children)
        invariant forall i :: 0 <= i < k ==> Least(children[i].Den(), lo, children[i].DocId())
        invariant forall i :: k <= i < |children| ==> Least(children[i].Den(), current, children[i].DocId())
      {
        var d := children[k].DocId();
        if d != NO_MORE && d < target {
          var r := AdvanceChild(children, k, target);
          Landed(children[k]);
          StillFirst(children[k].Den(), current, d, target, r);
        }
      }
    }

    method Next() returns (r: nat)
      requires Or(this).Shape() && Or(this).Inv() && (Or(this).Fresh() || current != NO_MORE)
      modifies repr
      ensures Or(this).Inv() && r == current <= NO_MORE
      ensures Least(den, if old(current) == NO_MORE then 0 else old(current) + 1, r)
      decreases height, 1
    {
      Unfold();
      assert Or(this).State() && (Or(this).Fresh() ==> Or(this).AtStart());
      if current == NO_MORE {
        if children != [] { Position(children[0]); }
        var anyUnstarted := false;
        for k := 0 to |children|
          invariant anyUnstarted <==> exists i :: 0 <= i < k && children[i].DocId() == NO_MORE
        {
          if children[k].DocId() == NO_MORE { anyUnstarted := true; }
        }
        if anyUnstarted {
          StartAll();
          r := Land(0, 0);
        } else {
          assert children == [];
          r := current;
        }
      } else {
        MoveAfter(current);
        r := Land(current + 1, current + 1);
      }
      assert Or(this).State();
    }

    /** The first document from target and the current position on.  Before the
        first call of Next there is none, whatever the target. */
    method Advance(target: nat) returns (r: nat)
      requires Or(this).Shape() && Or(this).Inv() && target <= NO_MORE
      modifies repr
      ensures Or(this).Inv() && r == current
      ensures Least(den, if target < old(current) then old(current) else target, r)
      decreases height, 1
    {
      Unfold();
      assert Or(this).State();
      MoveTo(target);
      r := Land(target, if target < current then current else target);
      assert Or(this).State();
    }
  }

  /** Ascending documents of a set, all of them below d. */
  ghost predicate Found(docs: seq<nat>, den: DocSet, d: nat)
  {
    && (forall i, j :: 0 <= i < j < |docs| ==> docs[i] < docs[j])
    && (forall x :: x in docs ==> x in den && x < d)
    && (forall x :: x in den && x < d ==> x in docs)
  }

  lemma {:induction false} FoundNext(docs: seq<nat>, den: DocSet, d: nat, next: nat)
    requires Found(docs, den, d) && d in den && Least(den, d + 1, next) && d < NO_MORE
    ensures Found(docs + [d], den, next)
  {
    var longer := docs + [d];
    forall i, j | 0 <= i < j < |longer| ensures longer[i] < longer[j] {
      assert longer[i] in docs;
    }
    forall x | x in longer ensures x in den && x < next {
      if x != d { assert x in docs; }
    }
    forall x | x in den && x < next ensures x in longer {
      if x < d { assert x in docs; }
    }
  }

  /** Calls Next until nothing is left. */
  method Drain(it: Iter) returns (docs: seq<nat>)
    requires it.Shape() && it.Inv() && it.Fresh()
    modifies it.Repr()
    ensures Found(docs, it.Den(), NO_MORE)
    ensures forall d :: d in docs <==> d in it.Den()
  {
    docs := [];
    Position(it);
    DenInRange(it);
    var d := it.Next();
    while d != NO_MORE
      invariant it.Inv() && d == it.DocId() <= NO_MORE
      invariant d == NO_MORE || d in it.Den()
      invariant Found(docs, it.Den(), d)
      decreases NO_MORE - d
    {
      var next := it.Next();
      FoundNext(docs, it.Den(), d, next);
      docs := docs + [d];
      d := next;
    }
  }

  lemma {:induction false} DenInRange(it: Iter)
    requires it.Shape()
    ensures InRange(it.Den())
  {
    assert it.Structure();
  }
}
