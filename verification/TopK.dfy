/** Keeping the best matches in a bounded heap, and putting them in order. */
module TopK {

  datatype Scored = Scored(score: real, segment: nat, doc: nat)

  /** ScoredEntryCmp: a is popped later than b. */
  predicate Later(a: Scored, b: Scored)
  {
    if a.score != b.score then a.score > b.score
    else if a.segment != b.segment then a.segment > b.segment
    else a.doc > b.doc
  }

  /** A priority queue, written down in the order in which it pops. */
  ghost predicate Heaped(q: seq<Scored>)
  {
    forall i, j :: 0 <= i < j < |q| ==> !Later(q[i], q[j])
  }

  function Push(q: seq<Scored>, e: Scored): seq<Scored>
  {
    if q == [] || Later(q[0], e) then [e] + q else [q[0]] + Push(q[1..], e)
  }

  /** One match: it goes in while there is room, and afterwards only if it beats
      the worst score kept. */
  function Offer(q: seq<Scored>, e: Scored, n: nat): seq<Scored>
    requires n >= 1
  {
    if |q| < n then Push(q, e)
    else if e.score > q[0].score then Push(q[1..], e)
    else q
  }

  /** The heap after a stream of matches. */
  function Heap(stream: seq<Scored>, n: nat): seq<Scored>
    requires n >= 1
  {
    if stream == [] then [] else Offer(Heap(stream[..|stream| - 1], n), stream[|stream| - 1], n)
  }

  lemma {:induction false} PushKeeps(q: seq<Scored>, e: Scored)
    requires Heaped(q)
    ensures Heaped(Push(q, e)) && multiset(Push(q, e)) == multiset(q) + multiset{e}
    ensures |Push(q, e)| == |q| + 1
  {
    if q == [] || Later(q[0], e) {
    } else {
      var rest := q[1..];
      assert q == [q[0]] + rest;
      HeapTail(q);
      PushKeeps(rest, e);
      HeapFront(q[0], Push(rest, e), e, rest);
    }
  }

  lemma {:induction false} HeapTail(q: seq<Scored>)
    requires Heaped(q) && q != []
    ensures Heaped(q[1..]) && forall x :: x in q[1..] ==> !Later(q[0], x)
  {
  }

  lemma {:induction false} HeapFront(first: Scored, tail: seq<Scored>, e: Scored, rest: seq<Scored>)
    requires Heaped(tail) && multiset(tail) == multiset(rest) + multiset{e} && !Later(first, e)
    requires forall x :: x in rest ==> !Later(first, x)
    ensures Heaped([first] + tail)
  {
    forall j | 0 <= j < |tail| ensures !Later(first, tail[j]) {
      assert tail[j] in multiset(tail);
      if tail[j] != e { assert tail[j] in rest; }
    }
  }

  lemma {:induction false} PopKeeps(q: seq<Scored>)
    requires Heaped(q) && q != []
    ensures Heaped(q[1..]) && multiset(q) == multiset{q[0]} + multiset(q[1..])
    ensures forall y :: y in q ==> q[0].score <= y.score
  {
    assert q == [q[0]] + q[1..];
    forall y | y in q ensures q[0].score <= y.score {
      var j :| 0 <= j < |q| && q[j] == y;
      if j > 0 { assert !Later(q[0], q[j]); }
    }
  }

  /** How many entries score at least t. */
  function AtLeast(s: seq<Scored>, t: real): nat
  {
    if s == [] then 0 else AtLeast(s[1..], t) + if s[0].score >= t then 1 else 0
  }

  function Min(a: nat, b: nat): nat { if a < b then a else b }

  lemma {:induction false} AtLeastConcat(a: seq<Scored>, b: seq<Scored>, t: real)
    ensures AtLeast(a + b, t) == AtLeast(a, t) + AtLeast(b, t)
  {
    if a == [] {
      assert a + b == b;
    } else {
      assert (a + b)[0] == a[0] && (a + b)[1..] == a[1..] + b;
      AtLeastConcat(a[1..], b, t);
    }
  }

  lemma {:induction false} AtLeastSnoc(a: seq<Scored>, e: Scored, t: real)
    ensures AtLeast(a + [e], t) == AtLeast(a, t) + if e.score >= t then 1 else 0
  {
    AtLeastConcat(a, [e], t);
    assert [e][1..] == [];
  }

  lemma {:induction false} AtLeastPush(q: seq<Scored>, e: Scored, t: real)
    ensures AtLeast(Push(q, e), t) == AtLeast(q, t) + if e.score >= t then 1 else 0
  {
    if q == [] || Later(q[0], e) {
      assert ([e] + q)[1..] == q;
    } else {
      AtLeastPush(q[1..], e, t);
    }
  }

  lemma {:induction false} AtLeastBounds(s: seq<Scored>, t: real)
    ensures AtLeast(s, t) <= |s|
    ensures (forall y :: y in s ==> y.score >= t) ==> AtLeast(s, t) == |s|
    ensures s != [] && s[0].score < t ==> AtLeast(s, t) < |s|
  {
    if s != [] {
      AtLeastBounds(s[1..], t);
      assert s == [s[0]] + s[1..];
    }
  }

  /** One offer to a heap that counts right, when m scores reach t so far. */
  lemma {:induction false} OfferCounts(q: seq<Scored>, e: Scored, n: nat, seen: nat, m: nat, t: real)
    requires n >= 1 && Heaped(q) && |q| == Min(n, seen) && AtLeast(q, t) == Min(n, m) && m <= seen
    ensures var r := Offer(q, e, n);
      Heaped(r) && |r| == Min(n, seen + 1) && AtLeast(r, t) == Min(n, m + if e.score >= t then 1 else 0)
  {
    AtLeastBounds(q, t);
    if |q| < n {
      PushKeeps(q, e);
      AtLeastPush(q, e, t);
    } else {
      PopKeeps(q);
      if q[0].score >= t { assert forall y :: y in q ==> y.score >= t; }
      if e.score > q[0].score {
        PushKeeps(q[1..], e);
        AtLeastPush(q[1..], e, t);
      }
    }
  }

  /** The heap holds the best scores: at every threshold it has as many entries
      as the whole stream has, up to n. */
  lemma {:induction false} HeapIsBest(stream: seq<Scored>, n: nat, t: real)
    requires n >= 1
    ensures Heaped(Heap(stream, n)) && |Heap(stream, n)| == Min(n, |stream|)
    ensures AtLeast(Heap(stream, n), t) == Min(n, AtLeast(stream, t))
  {
    hide Heaped, Offer;
    if stream == [] {
      NothingHeaped();
    } else {
      var before, e := stream[..|stream| - 1], stream[|stream| - 1];
      assert stream == before + [e];
      HeapIsBest(before, n, t);
      AtLeastSnoc(before, e, t);
      AtLeastBounds(before, t);
      OfferCounts(Heap(before, n), e, n, |before|, AtLeast(before, t), t);
    }
  }

  lemma {:induction false} NothingHeaped()
    ensures Heaped([])
  {
  }

  /** No entry that is gone beats an entry that was kept. */
  ghost predicate Beaten(gone: multiset<Scored>, kept: seq<Scored>)
  {
    forall x, y :: x in gone && y in kept ==> x.score <= y.score
  }

  /** What one offer keeps, when all is what has been offered before. */
  lemma {:induction false} OfferKeeps(all: multiset<Scored>, q: seq<Scored>, e: Scored, n: nat)
    requires n >= 1 && Heaped(q) && |q| == Min(n, |all|) && multiset(q) <= all && Beaten(all - multiset(q), q)
    ensures var r := Offer(q, e, n);
      Heaped(r) && |r| == Min(n, |all| + 1) && multiset(r) <= all + multiset{e} && Beaten(all + multiset{e} - multiset(r), r)
  {
    if |q| < n {
      PushKeeps(q, e);
      SameSize(multiset(q), all);
    } else {
      PopKeeps(q);
      if e.score > q[0].score {
        PushKeeps(q[1..], e);
        Swap(all, multiset(q[1..]), q[0], e);
        WorstReplaced(all, q, e);
      } else {
        assert all + multiset{e} - multiset(q) == (all - multiset(q)) + multiset{e};
      }
    }
  }

  /** What an offer does to a heap of at most n entries: with room left it adds
      the entry; otherwise there is a worst entry, the least by score and, among
      equal scores, by segment and document, and a better score takes its
      place. */
  lemma {:induction false} OfferExactly(q: seq<Scored>, e: Scored, n: nat) returns (worst: Scored)
    requires n >= 1 && Heaped(q) && |q| <= n
    ensures |q| < n ==> multiset(Offer(q, e, n)) == multiset(q) + multiset{e}
    ensures |q| == n ==> worst in q
    ensures |q| == n ==> forall y :: y in q ==>
      worst.score < y.score
      || (worst.score == y.score && (worst.segment < y.segment || (worst.segment == y.segment && worst.doc <= y.doc)))
    ensures |q| == n && e.score <= worst.score ==> Offer(q, e, n) == q
    ensures |q| == n && e.score > worst.score ==> multiset(Offer(q, e, n)) == multiset(q) - multiset{worst} + multiset{e}
  {
    worst := if q == [] then e else q[0];
    if |q| < n {
      PushKeeps(q, e);
    } else {
      PopKeeps(q);
      PushKeeps(q[1..], e);
      forall y | y in q
        ensures worst.score < y.score
          || (worst.score == y.score && (worst.segment < y.segment || (worst.segment == y.segment && worst.doc <= y.doc)))
      {
        var j :| 0 <= j < |q| && q[j] == y;
        if j > 0 { assert !Later(q[0], q[j]); }
      }
    }
  }

  lemma {:induction false} WorstReplaced(all: multiset<Scored>, q: seq<Scored>, e: Scored)
    requires q != [] && Heaped(q) && e.score > q[0].score && multiset(q) <= all && Beaten(all - multiset(q), q)
    ensures Beaten((all - multiset(q)) + multiset{q[0]}, Push(q[1..], e))
  {
    PopKeeps(q);
    PushKeeps(q[1..], e);
    forall x, y | x in (all - multiset(q)) + multiset{q[0]} && y in Push(q[1..], e) ensures x.score <= y.score {
      assert y in multiset(Push(q[1..], e));
      assert y == e || y in q[1..];
      assert q[0] in q;
    }
  }

  /** Everything in the heap comes from the stream, and nothing that was dropped
      beats anything that was kept. */
  lemma {:induction false} DroppedNoBetter(stream: seq<Scored>, n: nat)
    requires n >= 1
    ensures Heaped(Heap(stream, n)) && |Heap(stream, n)| == Min(n, |stream|)
    ensures multiset(Heap(stream, n)) <= multiset(stream)
    ensures Beaten(multiset(stream) - multiset(Heap(stream, n)), Heap(stream, n))
  {
    if stream != [] {
      var before, e := stream[..|stream| - 1], stream[|stream| - 1];
      assert stream == before + [e];
      DroppedNoBetter(before, n);
      assert |multiset(before)| == |before|;
      OfferKeeps(multiset(before), Heap(before, n), e, n);
    }
  }

  lemma {:induction false} SameSize<T>(a: multiset<T>, b: multiset<T>)
    requires a <= b && |a| == |b|
    ensures a == b
  {
    assert b == a + (b - a);
    assert |b - a| == 0;
  }

  lemma {:induction false} Swap<T>(all: multiset<T>, rest: multiset<T>, out: T, into: T)
    requires multiset{out} + rest <= all
    ensures (all + multiset{into}) - (rest + multiset{into}) == (all - (multiset{out} + rest)) + multiset{out}
  {
  }

  // ----- the order of the hits -----

  ghost predicate NonIncreasing(s: seq<Scored>)
  {
    forall i, j :: 0 <= i < j < |s| ==> s[i].score >= s[j].score
  }

  function InsertByScore(e: Scored, s: seq<Scored>): seq<Scored>
  {
    if s == [] || e.score >= s[0].score then [e] + s else [s[0]] + InsertByScore(e, s[1..])
  }

  lemma {:induction false} InsertByScoreKeeps(e: Scored, s: seq<Scored>)
    requires NonIncreasing(s)
    ensures NonIncreasing(InsertByScore(e, s)) && multiset(InsertByScore(e, s)) == multiset(s) + multiset{e}
  {
    if s == [] || e.score >= s[0].score {
    } else {
      var rest := s[1..];
      assert s == [s[0]] + rest;
      TailOrdered(s);
      InsertByScoreKeeps(e, rest);
      FrontOrdered(s[0], InsertByScore(e, rest), e, rest);
    }
  }

  lemma {:induction false} TailOrdered(s: seq<Scored>)
    requires NonIncreasing(s) && s != []
    ensures NonIncreasing(s[1..]) && forall x :: x in s[1..] ==> s[0].score >= x.score
  {
  }

  lemma {:induction false} FrontOrdered(first: Scored, tail: seq<Scored>, e: Scored, rest: seq<Scored>)
    requires NonIncreasing(tail) && multiset(tail) == multiset(rest) + multiset{e} && first.score >= e.score
    requires forall x :: x in rest ==> first.score >= x.score
    ensures NonIncreasing([first] + tail)
  {
    forall j | 0 <= j < |tail| ensures first.score >= tail[j].score {
      assert tail[j] in multiset(tail);
      if tail[j] != e { assert tail[j] in rest; }
    }
  }

  /** Sorts the candidates by score and cuts them off at size. */
  method Order(candidates: seq<Scored>, size: nat) returns (hits: seq<Scored>, ghost rest: seq<Scored>)
    ensures |hits| == Min(size, |candidates|) && NonIncreasing(hits)
    ensures multiset(hits) + multiset(rest) == multiset(candidates)
    ensures forall x, y :: x in rest && y in hits ==> x.score <= y.score
  {
    var order := [];
    for i := 0 to |candidates|
      invariant NonIncreasing(order) && multiset(order) == multiset(candidates[..i])
    {
      InsertByScoreKeeps(candidates[i], order);
      assert candidates[..i + 1] == candidates[..i] + [candidates[i]];
      order := InsertByScore(candidates[i], order);
    }
    assert candidates[..|candidates|] == candidates;
    assert |order| == |multiset(order)| == |candidates|;
    var n := Min(size, |order|);
    hits, rest := order[..n], order[n..];
    assert order == hits + rest;
    forall x, y | x in rest && y in hits ensures x.score <= y.score {
      var i :| 0 <= i < n && hits[i] == y;
      var j :| 0 <= j < |rest| && rest[j] == x;
      assert order[i].score >= order[n + j].score;
    }
  }
}
