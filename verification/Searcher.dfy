/** Running a query over the segments of an index: every match is scored once,
    the best are kept, put in order and returned with their stored fields. */
module Searcher {
  import opened Base
  import opened DocSets
  import opened Documents
  import opened IndexStatistics
  import opened Iterators
  import opened MutableSegments
  import opened Queries
  import opened QueryPlan
  import opened Scoring
  import opened SealedSegments
  import opened SegmentReaders
  import opened TopK
  import Json
  import JsonParser

  // ----- the matches of a query, in the order of the walk -----

  /** Segment si's matching documents below n. */
  function MatchesIn(q: Query, schema: Schema, docs: seq<Document>, si: nat, n: nat): seq<(nat, nat)>
    requires n <= |docs|
  {
    if n == 0 then []
    else MatchesIn(q, schema, docs, si, n - 1) + if Matches(q, schema, docs[n - 1]) then [(si, n - 1)] else []
  }

  /** All matches, segment by segment. */
  function AllMatches(q: Query, schema: Schema, docs: seq<seq<Document>>): seq<(nat, nat)>
  {
    if docs == [] then []
    else
      var n := |docs| - 1;
      AllMatches(q, schema, docs[..n]) + MatchesIn(q, schema, docs[n], n, |docs[n]|)
  }

  function Places(stream: seq<Scored>): seq<(nat, nat)>
  {
    seq(|stream|, k requires 0 <= k < |stream| => (stream[k].segment, stream[k].doc))
  }

  lemma {:induction false} NoneBetween(q: Query, schema: Schema, docs: seq<Document>, si: nat, a: nat, b: nat)
    requires a <= b <= |docs| && forall x :: a <= x < b ==> !Matches(q, schema, docs[x])
    ensures MatchesIn(q, schema, docs, si, b) == MatchesIn(q, schema, docs, si, a)
    decreases b - a
  {
    if a < b { NoneBetween(q, schema, docs, si, a, b - 1); }
  }

  /** Where the walk of a segment is: every match below d has been seen. */
  function Bound(d: nat, n: nat): nat
  {
    if d < n then d else n
  }

  /** The next document is the next match. */
  lemma {:induction false} StepOver(q: Query, schema: Schema, docs: seq<Document>, si: nat, from: nat, next: nat)
    requires |docs| <= NO_MORE && from <= |docs| && Least(Answer(q, schema, docs), from, next)
    ensures from <= next <= NO_MORE && (next == NO_MORE || (next < |docs| && Matches(q, schema, docs[next])))
    ensures from <= Bound(next, |docs|)
    ensures MatchesIn(q, schema, docs, si, Bound(next, |docs|)) == MatchesIn(q, schema, docs, si, from)
  {
    hide Answer, Matches, First;
    FirstFacts(Answer(q, schema, docs), from, next);
    AnswerMatches(q, schema, docs, next);
    forall x | from <= x < Bound(next, |docs|) ensures !Matches(q, schema, docs[x]) {
      AnswerMatches(q, schema, docs, x);
      assert x < next;
    }
    NoneBetween(q, schema, docs, si, from, Bound(next, |docs|));
  }

  lemma {:induction false} FirstFacts(den: DocSet, lo: nat, r: nat)
    requires Least(den, lo, r)
    ensures r == NO_MORE || (r in den && lo <= r < NO_MORE)
    ensures forall x :: x in den && lo <= x < NO_MORE ==> r <= x
  {
  }

  /** The score of a match is that of the first pass. */
  ghost predicate ScoredRight(e: Scored, leaves: seq<Leaf>, schema: Schema, docs: seq<Document>, st: Statistics, p: Params)
    requires p.Valid() && st.Valid()
  {
    e.doc < |docs| <= NO_MORE && e.score == FirstPassScore(leaves, schema, docs, e.doc, st, p)
  }

  /** The entries are the matches of segment si below n, scored. */
  ghost predicate Seen(entries: seq<Scored>, q: Query, si: nat, n: nat, schema: Schema, leaves: seq<Leaf>, st: Statistics, p: Params,
                       docs: seq<Document>)
    requires p.Valid() && st.Valid()
  {
    && Places(entries) == MatchesIn(q, schema, docs, si, Bound(n, |docs|))
    && forall k :: 0 <= k < |entries| ==> entries[k].segment == si && ScoredRight(entries[k], leaves, schema, docs, st, p)
  }

  lemma {:induction false} SeenNext(entries: seq<Scored>, e: Scored, before: seq<Scored>, q: Query, si: nat, d: nat, schema: Schema,
                                    leaves: seq<Leaf>, st: Statistics, p: Params, docs: seq<Document>)
    requires p.Valid() && st.Valid() && d < |docs| && Seen(entries, q, si, d, schema, leaves, st, p, docs) && Matches(q, schema, docs[d])
    requires e.segment == si && e.doc == d && ScoredRight(e, leaves, schema, docs, st, p)
    ensures Seen(entries + [e], q, si, d + 1, schema, leaves, st, p, docs)
    ensures before + (entries + [e]) == (before + entries) + [e]
  {
    hide Matches, ScoredRight;
    assert Places(entries + [e]) == Places(entries) + [(si, d)];
  }

  /** Nothing was missed up to the next document. */
  lemma {:induction false} SeenOver(entries: seq<Scored>, q: Query, si: nat, from: nat, next: nat, schema: Schema,
                                    leaves: seq<Leaf>, st: Statistics, p: Params, docs: seq<Document>)
    requires p.Valid() && st.Valid() && |docs| <= NO_MORE && from <= |docs| && Seen(entries, q, si, from, schema, leaves, st, p, docs)
    requires Least(Answer(q, schema, docs), from, next)
    ensures from <= next <= NO_MORE && (next == NO_MORE || (next < |docs| && Matches(q, schema, docs[next])))
    ensures Seen(entries, q, si, next, schema, leaves, st, p, docs)
  {
    hide Answer, Matches, ScoredRight, First;
    StepOver(q, schema, docs, si, from, next);
  }

  /** An iterator that nothing has moved is where it was. */
  twostate lemma Untouched(it: Iter)
    requires it.Shape() && old(allocated(it)) && old(it.Inv()) && forall o :: o in it.Repr() ==> old(allocated(o)) && unchanged(o)
    ensures it.Inv() && it.DocId() == old(it.DocId())
  {
    assert it.Structure();
  }

  /** The loop body of the walk: the current match, then the next one. */
  method Turn(it: Iter, heap: seq<Scored>, ghost stream: seq<Scored>, d: nat, seg: SegmentReader, si: nat, schema: Schema,
              leaves: seq<Leaf>, st: Statistics, p: Params, topN: nat, ghost docs: seq<Document>)
    returns (r: seq<Scored>, next: nat, ghost e: Scored)
    requires it.Shape() && it.Inv() && d == it.DocId() < |docs| <= NO_MORE
    requires Reads(seg, schema, docs) && schema.Valid() && st.Valid() && p.Valid() && topN >= 1 && heap == Heap(stream, topN)
    modifies it.Repr()
    ensures it.Inv() && next == it.DocId() && Least(it.Den(), d + 1, next)
    ensures r == Heap(stream + [e], topN) && e.segment == si && e.doc == d
    ensures ScoredRight(e, leaves, schema, docs, st, p)
  {
    hide ScoredRight, Reads, Least, Heap, Schema.Valid, Statistics.Valid, Iter.Den;
    r, e := Consider(heap, stream, d, seg, si, schema, leaves, st, p, topN, docs);
    Untouched(it);
    next := it.Next();
  }

  /** The iterator of the query, on its first document. */
  method Start(q: Query, seg: SegmentReader, schema: Schema, ghost docs: seq<Document>) returns (it: Iter, d: nat)
    requires Reads(seg, schema, docs) && schema.Valid()
    ensures it.Shape() && it.Inv() && fresh(it.Repr()) && d == it.DocId()
    ensures it.Den() == Answer(q, schema, docs) && Least(it.Den(), 0, d)
  {
    hide Answer, Reads, Schema.Valid;
    it := Build(q, seg, schema, docs);
    Position(it);
    d := it.Next();
  }

  /** The first pass over one segment. */
  method WalkSegment(q: Query, seg: SegmentReader, si: nat, schema: Schema, leaves: seq<Leaf>, st: Statistics, p: Params,
                     topN: nat, start: seq<Scored>, ghost before: seq<Scored>, ghost docs: seq<Document>)
    returns (heap: seq<Scored>, hits: nat, ghost added: seq<Scored>)
    requires Reads(seg, schema, docs) && schema.Valid() && st.Valid() && p.Valid() && topN >= 1
    requires start == Heap(before, topN)
    ensures heap == Heap(before + added, topN) && hits == |added|
    ensures Seen(added, q, si, NO_MORE, schema, leaves, st, p, docs)
  {
    hide *;
    DocsFit(seg, schema, docs);
    heap, hits, added := start, 0, [];
    assert before + [] == before;
    NoneSeen(q, si, schema, leaves, st, p, docs);
    var it, d := Start(q, seg, schema, docs);
    SeenOver(added, q, si, 0, d, schema, leaves, st, p, docs);
    while d != NO_MORE
      invariant it.Shape() && it.Inv() && d == it.DocId() && (d == NO_MORE || (d < |docs| && Matches(q, schema, docs[d])))
      invariant heap == Heap(before + added, topN) && hits == |added|
      invariant Seen(added, q, si, d, schema, leaves, st, p, docs)
      decreases NO_MORE - d
    {
      hits := hits + 1;
      ghost var e;
      var next;
      heap, next, e := Turn(it, heap, before + added, d, seg, si, schema, leaves, st, p, topN, docs);
      SeenNext(added, e, before, q, si, d, schema, leaves, st, p, docs);
      added := added + [e];
      SeenOver(added, q, si, d + 1, next, schema, leaves, st, p, docs);
      d := next;
    }
  }

  lemma {:induction false} DocsFit(seg: SegmentReader, schema: Schema, docs: seq<Document>)
    requires Reads(seg, schema, docs)
    ensures |docs| <= NO_MORE
  {
  }

  lemma {:induction false} AllSeen(entries: seq<Scored>, q: Query, si: nat, schema: Schema, leaves: seq<Leaf>, st: Statistics,
                                   p: Params, docs: seq<Document>)
    requires p.Valid() && st.Valid() && |docs| <= NO_MORE && Seen(entries, q, si, NO_MORE, schema, leaves, st, p, docs)
    ensures Places(entries) == MatchesIn(q, schema, docs, si, |docs|)
    ensures forall k :: 0 <= k < |entries| ==> entries[k].segment == si && ScoredRight(entries[k], leaves, schema, docs, st, p)
  {
  }

  lemma {:induction false} NoneSeen(q: Query, si: nat, schema: Schema, leaves: seq<Leaf>, st: Statistics, p: Params, docs: seq<Document>)
    requires p.Valid() && st.Valid()
    ensures Seen([], q, si, 0, schema, leaves, st, p, docs)
  {
  }

  /** The loop body: scores a match and offers it to the heap. */
  method Consider(heap: seq<Scored>, ghost stream: seq<Scored>, d: nat, seg: SegmentReader, si: nat, schema: Schema,
                  leaves: seq<Leaf>, st: Statistics, p: Params, topN: nat, ghost docs: seq<Document>)
    returns (r: seq<Scored>, ghost e: Scored)
    requires Reads(seg, schema, docs) && schema.Valid() && st.Valid() && p.Valid() && topN >= 1 && d < |docs|
    requires heap == Heap(stream, topN)
    ensures r == Heap(stream + [e], topN) && e.segment == si && e.doc == d
    ensures ScoredRight(e, leaves, schema, docs, st, p)
  {
    DocsFit(seg, schema, docs);
    var score := StageOne(leaves, seg, schema, d, st, p, docs);
    e := Scored(score, si, d);
    assert (stream + [e])[..|stream|] == stream;
    if |heap| < topN {
      r := Push(heap, Scored(score, si, d));
    } else if score > heap[0].score {
      r := Push(heap[1..], Scored(score, si, d));
    } else {
      r := heap;
    }
  }

  ghost predicate AllScoredRight(stream: seq<Scored>, leaves: seq<Leaf>, schema: Schema, docs: seq<seq<Document>>, st: Statistics,
                                 p: Params)
    requires p.Valid() && st.Valid()
  {
    forall k :: 0 <= k < |stream| ==>
      stream[k].segment < |docs| && ScoredRight(stream[k], leaves, schema, docs[stream[k].segment], st, p)
  }

  lemma {:induction false} NothingYet(q: Query, schema: Schema, docs: seq<seq<Document>>, topN: nat)
    requires topN >= 1
    ensures Heap([], topN) == [] && Places([]) == AllMatches(q, schema, docs[..0])
  {
  }

  /** The first pass over all segments. */
  method Walk(q: Query, segs: seq<SegmentReader>, schema: Schema, leaves: seq<Leaf>, st: Statistics, p: Params, topN: nat,
              ghost docs: seq<seq<Document>>) returns (heap: seq<Scored>, totalHits: nat, ghost stream: seq<Scored>)
    requires ReadsAll(segs, schema, docs) && schema.Valid() && st.Valid() && p.Valid() && topN >= 1
    ensures heap == Heap(stream, topN) && totalHits == |stream| && Places(stream) == AllMatches(q, schema, docs)
    ensures AllScoredRight(stream, leaves, schema, docs, st, p)
  {
    hide Reads, ScoredRight, Schema.Valid, MatchesIn, Heap;
    heap, totalHits, stream := [], 0, [];
    NothingYet(q, schema, docs, topN);
    for si := 0 to |segs|
      invariant heap == Heap(stream, topN) && totalHits == |stream|
      invariant Places(stream) == AllMatches(q, schema, docs[..si])
      invariant AllScoredRight(stream, leaves, schema, docs, st, p)
    {
      var hits;
      ghost var added;
      heap, hits, added := WalkSegment(q, segs[si], si, schema, leaves, st, p, topN, heap, stream, docs[si]);
      DocsFit(segs[si], schema, docs[si]);
      AllSeen(added, q, si, schema, leaves, st, p, docs[si]);
      totalHits := totalHits + hits;
      assert docs[..si + 1][..si] == docs[..si];
      assert Places(stream + added) == Places(stream) + Places(added);
      stream := stream + added;
    }
    assert docs[..|segs|] == docs;
  }

  // ----- the second pass and the result -----

  /** How the candidates are ranked again: by the BM25 total, or by any function
      of the features. */
  datatype Ranker = Bm25 | Model(score: seq<real> -> real)

  datatype Hit = Hit(score: real, id: string, stored: string)

  /** Every field of the query is stored without payload and not boosted. */
  ghost predicate Unboosted(leaves: seq<Leaf>, schema: Schema, value: FloatBits -> real)
  {
    Plain(leaves, schema)
    && forall k :: 0 <= k < |leaves| ==>
         var id := FieldId(schema.Names(), leaves[k].field); id.Some? ==> value(schema.fields[id.value].boost) == 1.0
  }

  /** The quality that the features of a document hold: 0 without it, and read
      as a float if the schema stores it. */
  function QualityFeature(schema: Schema, doc: Document, value: FloatBits -> real): Option<real>
  {
    if schema.storeDocQuality then Some(value(QualityOf(doc))) else None
  }

  /** A candidate with the score that the ranker gives the features of its
      document. */
  ghost predicate RankedBy(r: Scored, c: Scored, ranker: Ranker, leaves: seq<Leaf>, schema: Schema, doc: Document, st: Statistics,
                           p: Params, exp: real -> real)
    requires p.Valid()
  {
    && r.segment == c.segment && r.doc == c.doc
    && exists v :: IsFeatures(v, ItemsFor(leaves, schema, doc, st), |leaves|, QualityFeature(schema, doc, st.value), p, exp)
                   && r.score == if ranker.Bm25? then v[0] else ranker.score(v)
  }

  method Rerank(c: Scored, ranker: Ranker, seg: SegmentReader, schema: Schema, leaves: seq<Leaf>, st: Statistics, p: Params,
                exp: real -> real, ghost docs: seq<Document>) returns (r: Scored)
    requires Reads(seg, schema, docs) && schema.Valid() && st.Valid() && p.Valid() && c.doc < |docs|
    requires ScoredRight(c, leaves, schema, docs, st, p)
    ensures RankedBy(r, c, ranker, leaves, schema, docs[c.doc], st, p, exp)
    ensures ranker.Bm25? && Unboosted(leaves, schema, st.value) ==> r == c
  {
    hide Reads, Schema.Valid, ItemFor, PlainField, Bm25Score, LeafScore, Tracks;
    QualityRead(seg, schema, docs, c.doc);
    var items := BuildContext(leaves, seg, schema, c.doc, st, docs);
    AllLengthsFit(leaves, schema, docs[c.doc], st);
    var quality := if seg.docQuality != [] then Some(st.value(QualityBits(seg.DocQuality(c.doc)))) else None;
    var v := ExtractFeatures(items, |leaves|, quality, p, exp);
    if Unboosted(leaves, schema, st.value) {
      PlainScore(leaves, schema, docs, c.doc, st, p);
      forall k | 0 <= k < |items| ensures items[k].boost == 1.0 { BoostOf(leaves[k], schema, docs[c.doc], st); }
      PassesAgree(items, p);
    }
    assert v[..4][0] == v[0];
    assert IsFeatures(v, ItemsFor(leaves, schema, docs[c.doc], st), |leaves|, quality, p, exp);
    return c.(score := if ranker.Bm25? then v[0] else ranker.score(v));
  }

  /** A quality read from a file is a 32-bit pattern. */
  function QualityBits(q: nat): FloatBits { if q < 0x1_0000_0000 then q else 0 }

  lemma {:induction false} QualityRead(seg: SegmentReader, schema: Schema, docs: seq<Document>, d: nat)
    requires Reads(seg, schema, docs) && d < |docs|
    ensures (seg.docQuality != []) == schema.storeDocQuality
    ensures schema.storeDocQuality ==> QualityBits(seg.DocQuality(d)) == QualityOf(docs[d])
  {
    hide ReadsField, SegmentReader.Valid, SegmentReader.DocQuality, SegmentReader.StoredFields, Blob;
  }

  lemma {:induction false} BoostOf(l: Leaf, schema: Schema, doc: Document, st: Statistics)
    requires var id := FieldId(schema.Names(), l.field); id.Some? ==> st.value(schema.fields[id.value].boost) == 1.0
    ensures ItemFor(l, schema, doc, st).boost == 1.0
  {
  }

  /** Every candidate of the pool has the score that the ranker gives it. */
  ghost predicate Reranked(candidates: seq<Scored>, pool: seq<Scored>, ranker: Ranker, leaves: seq<Leaf>, schema: Schema,
                           docs: seq<seq<Document>>, st: Statistics, p: Params, exp: real -> real)
    requires p.Valid()
  {
    |candidates| == |pool| && forall k :: 0 <= k < |pool| ==>
      && pool[k].segment < |docs| && pool[k].doc < |docs[pool[k].segment]|
      && RankedBy(candidates[k], pool[k], ranker, leaves, schema, docs[pool[k].segment][pool[k].doc], st, p, exp)
  }

  /** The new scores depend on the statistics only through what they say of the
      leaves. */
  lemma {:induction false} RerankedAgree(candidates: seq<Scored>, pool: seq<Scored>, ranker: Ranker, leaves: seq<Leaf>, schema: Schema,
                                         docs: seq<seq<Document>>, a: Statistics, b: Statistics, p: Params, exp: real -> real)
    requires p.Valid() && Agree(leaves, a, b) && a.value == b.value
    requires Reranked(candidates, pool, ranker, leaves, schema, docs, a, p, exp)
    ensures Reranked(candidates, pool, ranker, leaves, schema, docs, b, p, exp)
  {
    hide IsFeatures, Agree, ItemsFor;
    forall k | 0 <= k < |pool|
      ensures RankedBy(candidates[k], pool[k], ranker, leaves, schema, docs[pool[k].segment][pool[k].doc], b, p, exp)
    {
      var doc := docs[pool[k].segment][pool[k].doc];
      assert RankedBy(candidates[k], pool[k], ranker, leaves, schema, doc, a, p, exp);
      AgreeItems(leaves, schema, doc, a, b);
    }
  }

  method RerankAll(heap: seq<Scored>, ranker: Option<Ranker>, segs: seq<SegmentReader>, schema: Schema, leaves: seq<Leaf>,
                   st: Statistics, p: Params, exp: real -> real, ghost docs: seq<seq<Document>>)
    returns (r: seq<Scored>)
    requires ReadsAll(segs, schema, docs) && schema.Valid() && st.Valid() && p.Valid()
    requires AllScoredRight(heap, leaves, schema, docs, st, p)
    requires forall k :: 0 <= k < |heap| ==> heap[k].segment < |docs| && heap[k].doc < |docs[heap[k].segment]|
    ensures ranker.None? || (ranker.value.Bm25? && Unboosted(leaves, schema, st.value)) ==> r == heap
    ensures ranker.Some? ==> Reranked(r, heap, ranker.value, leaves, schema, docs, st, p, exp)
  {
    hide Reads, ScoredRight, Unboosted, Schema.Valid, Statistics.Valid, RankedBy;
    if ranker.None? { return heap; }
    r := [];
    for k := 0 to |heap|
      invariant |r| == k && Reranked(r, heap[..k], ranker.value, leaves, schema, docs, st, p, exp)
      invariant ranker.value.Bm25? && Unboosted(leaves, schema, st.value) ==> r == heap[..k]
    {
      var si := heap[k].segment;
      var c := Rerank(heap[k], ranker.value, segs[si], schema, leaves, st, p, exp, docs[si]);
      r := r + [c];
    }
    assert heap[..|heap|] == heap;
  }

  /** Looks up the stored fields of a hit and the identifier in them. */
  method Hydrate(c: Scored, seg: SegmentReader, schema: Schema, ghost docs: seq<Document>) returns (h: Hit)
    requires Reads(seg, schema, docs) && c.doc < |docs|
    ensures h == Hit(c.score, docs[c.doc].id, Blob(schema.fields, docs[c.doc]))
  {
    hide ReadsField, SegmentReader.Valid, Stored, Blob;
    var stored := seg.StoredFields(c.doc);
    StoredIdentifier(schema, docs[c.doc]);
    var parsed, stop := JsonParser.Parse(stored);
    var id := "";
    if parsed.Value? && parsed.value.Obj? {
      var value := Json.Find(parsed.value.o, ID_FIELD);
      if value.Some? && value.value.Str? { id := value.value.s; }
    }
    return Hit(c.score, id, stored);
  }

  /** The hits are those of the ordered candidates. */
  ghost predicate Hydrated(hits: seq<Hit>, order: seq<Scored>, schema: Schema, docs: seq<seq<Document>>)
  {
    |hits| == |order| && forall k :: 0 <= k < |hits| ==>
      && order[k].segment < |docs| && order[k].doc < |docs[order[k].segment]|
      && var doc := docs[order[k].segment][order[k].doc]; hits[k] == Hit(order[k].score, doc.id, Blob(schema.fields, doc))
  }

  method HydrateAll(order: seq<Scored>, segs: seq<SegmentReader>, schema: Schema, ghost docs: seq<seq<Document>>)
    returns (hits: seq<Hit>)
    requires ReadsAll(segs, schema, docs)
    requires forall k :: 0 <= k < |order| ==> order[k].segment < |docs| && order[k].doc < |docs[order[k].segment]|
    ensures Hydrated(hits, order, schema, docs)
  {
    hide Reads, Blob;
    hits := [];
    for k := 0 to |order|
      invariant |hits| == k && Hydrated(hits, order[..k], schema, docs)
    {
      var si := order[k].segment;
      var h := Hydrate(order[k], segs[si], schema, docs[si]);
      hits := hits + [h];
    }
    assert order[..|order|] == order;
  }

  // ----- the whole search -----

  datatype Options = Options(size: nat, rerankTopN: nat, ranker: Option<Ranker>, collectFeatures: bool, p: Params)

  function TopN(o: Options): nat
  {
    if o.ranker.Some? || o.collectFeatures then (if o.rerankTopN > o.size then o.rerankTopN else o.size) else o.size
  }

  /** Scores that the hits must have: at every threshold as many as the matches
      have, up to the size. */
  ghost predicate BestOf(order: seq<Scored>, stream: seq<Scored>, size: nat)
  {
    forall t: real :: AtLeast(order, t) == Min(size, AtLeast(stream, t))
  }

  lemma {:induction false} InPlace(q: Query, schema: Schema, docs: seq<seq<Document>>, k: nat)
    requires k < |AllMatches(q, schema, docs)|
    ensures var m := AllMatches(q, schema, docs)[k];
      m.0 < |docs| && m.1 < |docs[m.0]| && Matches(q, schema, docs[m.0][m.1])
  {
    var n := |docs| - 1;
    var before := AllMatches(q, schema, docs[..n]);
    if k < |before| { InPlace(q, schema, docs[..n], k); } else { InSegment(q, schema, docs[n], n, |docs[n]|, k - |before|); }
  }

  lemma {:induction false} InSegment(q: Query, schema: Schema, docs: seq<Document>, si: nat, n: nat, k: nat)
    requires n <= |docs| && k < |MatchesIn(q, schema, docs, si, n)|
    ensures var m := MatchesIn(q, schema, docs, si, n)[k]; m.0 == si && m.1 < n && Matches(q, schema, docs[m.1])
  {
    if k < |MatchesIn(q, schema, docs, si, n - 1)| { InSegment(q, schema, docs, si, n - 1, k); }
  }

  /** Every match is listed, once. */
  lemma {:induction false} MatchListed(q: Query, schema: Schema, docs: seq<seq<Document>>, si: nat, d: nat) returns (k: nat)
    requires si < |docs| && d < |docs[si]| && Matches(q, schema, docs[si][d])
    ensures k < |AllMatches(q, schema, docs)| && AllMatches(q, schema, docs)[k] == (si, d)
  {
    var n := |docs| - 1;
    if si == n {
      k := ListedInSegment(q, schema, docs[n], n, |docs[n]|, d);
      k := k + |AllMatches(q, schema, docs[..n])|;
    } else {
      k := MatchListed(q, schema, docs[..n], si, d);
    }
  }

  lemma {:induction false} ListedInSegment(q: Query, schema: Schema, docs: seq<Document>, si: nat, n: nat, d: nat) returns (k: nat)
    requires d < n <= |docs| && Matches(q, schema, docs[d])
    ensures k < |MatchesIn(q, schema, docs, si, n)| && MatchesIn(q, schema, docs, si, n)[k] == (si, d)
  {
    if d == n - 1 {
      k := |MatchesIn(q, schema, docs, si, n - 1)|;
    } else {
      k := ListedInSegment(q, schema, docs, si, n - 1, d);
    }
  }

  lemma {:induction false} MatchesAscend(q: Query, schema: Schema, docs: seq<seq<Document>>, i: nat, j: nat)
    requires i < j < |AllMatches(q, schema, docs)|
    ensures var a, b := AllMatches(q, schema, docs)[i], AllMatches(q, schema, docs)[j];
      a.0 < b.0 || (a.0 == b.0 && a.1 < b.1)
  {
    var n := |docs| - 1;
    var before := AllMatches(q, schema, docs[..n]);
    if j < |before| {
      MatchesAscend(q, schema, docs[..n], i, j);
    } else {
      InSegment(q, schema, docs[n], n, |docs[n]|, j - |before|);
      if i < |before| {
        InPlace(q, schema, docs[..n], i);
      } else {
        SegmentAscends(q, schema, docs[n], n, |docs[n]|, i - |before|, j - |before|);
      }
    }
  }

  lemma {:induction false} SegmentAscends(q: Query, schema: Schema, docs: seq<Document>, si: nat, n: nat, i: nat, j: nat)
    requires n <= |docs| && i < j < |MatchesIn(q, schema, docs, si, n)|
    ensures MatchesIn(q, schema, docs, si, n)[i].0 == MatchesIn(q, schema, docs, si, n)[j].0
    ensures MatchesIn(q, schema, docs, si, n)[i].1 < MatchesIn(q, schema, docs, si, n)[j].1
  {
    InSegment(q, schema, docs, si, n, i);
    InSegment(q, schema, docs, si, n, j);
    var before := MatchesIn(q, schema, docs, si, n - 1);
    if j < |before| {
      SegmentAscends(q, schema, docs, si, n - 1, i, j);
    } else {
      InSegment(q, schema, docs, si, n - 1, i);
    }
  }

  /** Candidates come from the matches. */
  lemma {:induction false} KeptArePlaced(stream: seq<Scored>, kept: seq<Scored>, q: Query, schema: Schema, docs: seq<seq<Document>>)
    requires Places(stream) == AllMatches(q, schema, docs) && multiset(kept) <= multiset(stream)
    ensures forall k :: 0 <= k < |kept| ==> kept[k].segment < |docs| && kept[k].doc < |docs[kept[k].segment]|
  {
    forall k | 0 <= k < |kept| ensures kept[k].segment < |docs| && kept[k].doc < |docs[kept[k].segment]| {
      assert kept[k] in multiset(kept);
      assert kept[k] in stream;
      var i :| 0 <= i < |stream| && stream[i] == kept[k];
      assert Places(stream)[i] == (kept[k].segment, kept[k].doc);
      InPlace(q, schema, docs, i);
    }
  }

  lemma {:induction false} KeptAreRight(stream: seq<Scored>, kept: seq<Scored>, leaves: seq<Leaf>, schema: Schema,
                                        docs: seq<seq<Document>>, st: Statistics, p: Params)
    requires p.Valid() && st.Valid() && AllScoredRight(stream, leaves, schema, docs, st, p) && multiset(kept) <= multiset(stream)
    ensures AllScoredRight(kept, leaves, schema, docs, st, p)
  {
    hide ScoredRight;
    forall k | 0 <= k < |kept|
      ensures kept[k].segment < |docs| && ScoredRight(kept[k], leaves, schema, docs[kept[k].segment], st, p)
    {
      assert kept[k] in multiset(kept);
      assert kept[k] in stream;
    }
  }

  /** Cutting the ordered candidates off keeps the best of them. */
  lemma {:induction false} CutIsBest(candidates: seq<Scored>, order: seq<Scored>, rest: seq<Scored>, size: nat)
    requires |order| == Min(size, |candidates|) && multiset(order) + multiset(rest) == multiset(candidates)
    requires forall x, y :: x in rest && y in order ==> x.score <= y.score
    ensures BestOf(order, candidates, size)
  {
    forall t: real ensures AtLeast(order, t) == Min(size, AtLeast(candidates, t)) {
      AtLeastMultiset(order + rest, candidates, t);
      AtLeastConcat(order, rest, t);
      AtLeastBounds(order, t);
      AtLeastBounds(rest, t);
      if AtLeast(rest, t) > 0 {
        var x := SomeAtLeast(rest, t);
        assert forall y :: y in order ==> y.score >= t;
      }
      assert |order + rest| == |multiset(order + rest)| == |candidates|;
    }
  }

  /** The best of the best are the best of all. */
  lemma {:induction false} BestAfterCut(stream: seq<Scored>, pool: seq<Scored>, order: seq<Scored>, n: nat, size: nat)
    requires size <= n && BestOf(pool, stream, n) && BestOf(order, pool, size)
    ensures BestOf(order, stream, size)
  {
    forall t: real ensures AtLeast(order, t) == Min(size, AtLeast(stream, t)) {
      assert AtLeast(pool, t) == Min(n, AtLeast(stream, t));
    }
  }

  lemma {:induction false} HeapHoldsBest(stream: seq<Scored>, n: nat)
    requires n >= 1
    ensures BestOf(Heap(stream, n), stream, n)
  {
    forall t: real ensures AtLeast(Heap(stream, n), t) == Min(n, AtLeast(stream, t)) { HeapIsBest(stream, n, t); }
  }

  lemma {:induction false} SomeAtLeast(s: seq<Scored>, t: real) returns (x: Scored)
    requires AtLeast(s, t) > 0
    ensures x in s && x.score >= t
  {
    if s[0].score >= t { x := s[0]; } else { x := SomeAtLeast(s[1..], t); }
  }

  lemma {:induction false} AtLeastWithout(b: seq<Scored>, k: nat, t: real)
    requires k < |b|
    ensures AtLeast(b, t) == AtLeast(b[..k] + b[k + 1..], t) + if b[k].score >= t then 1 else 0
  {
    var tail := [b[k]] + b[k + 1..];
    assert b == b[..k] + tail && tail[1..] == b[k + 1..];
    AtLeastConcat(b[..k], tail, t);
    AtLeastConcat(b[..k], b[k + 1..], t);
  }

  lemma {:induction false} AtLeastMultiset(a: seq<Scored>, b: seq<Scored>, t: real)
    requires multiset(a) == multiset(b)
    ensures AtLeast(a, t) == AtLeast(b, t)
  {
    if a == [] {
      assert |multiset(b)| == 0;
    } else {
      assert a[0] in multiset(b);
      var k :| 0 <= k < |b| && b[k] == a[0];
      WithoutFirst(a, b, k);
      AtLeastWithout(b, k, t);
      AtLeastMultiset(a[1..], b[..k] + b[k + 1..], t);
    }
  }

  /** Every match has the score that BM25 gives it, from the frequencies in its
      document and the statistics. */
  ghost predicate Bm25Scored(stream: seq<Scored>, leaves: seq<Leaf>, schema: Schema, docs: seq<seq<Document>>, st: Statistics, p: Params)
    requires p.Valid()
  {
    forall k :: 0 <= k < |stream| ==>
      var e := stream[k];
      && e.segment < |docs| && e.doc < |docs[e.segment]| && LengthsFit(leaves, schema, docs[e.segment][e.doc], st)
      && e.score == StageOneScore(ItemsFor(leaves, schema, docs[e.segment][e.doc], st), p)
  }

  /** A match that has every leaf once or not at all scores the sum of the idf of
      those that it has, whatever k1 and b. */
  lemma {:induction false} OnceEachMatch(stream: seq<Scored>, leaves: seq<Leaf>, schema: Schema, docs: seq<seq<Document>>,
                                         st: Statistics, p: Params, k: nat)
    requires p.Valid() && Bm25Scored(stream, leaves, schema, docs, st, p) && k < |stream|
    requires AtMostOnce(leaves, schema, docs[stream[k].segment][stream[k].doc])
    ensures stream[k].score == IdfSum(leaves, schema, docs[stream[k].segment][stream[k].doc], st)
  {
    hide TrueTf, StageOneScore, IdfSum, ItemsFor;
    OnceEach(leaves, schema, docs[stream[k].segment][stream[k].doc], st, p);
  }

  lemma {:induction false} ScoresAgree(stream: seq<Scored>, leaves: seq<Leaf>, schema: Schema, docs: seq<seq<Document>>,
                                       a: Statistics, b: Statistics, p: Params)
    requires p.Valid() && a.Valid() && b.Valid() && Agree(leaves, a, b) && AllScoredRight(stream, leaves, schema, docs, a, p)
    ensures AllScoredRight(stream, leaves, schema, docs, b, p)
  {
    hide FirstPassScore, Agree, Statistics.Valid;
    forall k | 0 <= k < |stream|
      ensures stream[k].segment < |docs| && ScoredRight(stream[k], leaves, schema, docs[stream[k].segment], b, p)
    {
      assert ScoredRight(stream[k], leaves, schema, docs[stream[k].segment], a, p);
      AgreeScore(leaves, schema, docs[stream[k].segment], stream[k].doc, a, b, p);
    }
  }

  lemma {:induction false} PlainScores(stream: seq<Scored>, leaves: seq<Leaf>, schema: Schema, docs: seq<seq<Document>>,
                                       st: Statistics, p: Params)
    requires p.Valid() && st.Valid() && AllScoredRight(stream, leaves, schema, docs, st, p) && Plain(leaves, schema)
    ensures Bm25Scored(stream, leaves, schema, docs, st, p)
  {
    hide FirstPassScore, StageOneScore, Plain, Statistics.Valid, ItemFor;
    forall k | 0 <= k < |stream|
      ensures stream[k].segment < |docs| && stream[k].doc < |docs[stream[k].segment]|
      ensures LengthsFit(leaves, schema, docs[stream[k].segment][stream[k].doc], st)
      ensures stream[k].score == StageOneScore(ItemsFor(leaves, schema, docs[stream[k].segment][stream[k].doc], st), p)
    {
      assert ScoredRight(stream[k], leaves, schema, docs[stream[k].segment], st, p);
      PlainScore(leaves, schema, docs[stream[k].segment], stream[k].doc, st, p);
    }
  }

  /** Scores from the tables are scores from a scan, unless two leaves share a
      key, and BM25 scores, unless a field of the query stores a payload. */
  lemma {:induction false} ScoresMean(stream: seq<Scored>, leaves: seq<Leaf>, schema: Schema, docs: seq<seq<Document>>,
                                      idf: (nat, nat) -> real, value: FloatBits -> real, p: Params)
    requires p.Valid() && AllScoredRight(stream, leaves, schema, docs, Tabled(leaves, schema, docs, idf, value), p)
    ensures !Clash(leaves, schema) ==> AllScoredRight(stream, leaves, schema, docs, Scanned(schema, docs, idf, value), p)
    ensures !Clash(leaves, schema) && Plain(leaves, schema) ==>
      Bm25Scored(stream, leaves, schema, docs, Scanned(schema, docs, idf, value), p)
  {
    hide Clash, Plain, AllScoredRight, Tabled, Scanned, Agree, Bm25Scored;
    if !Clash(leaves, schema) {
      TablesAgree(leaves, schema, docs, idf, value);
      ScoresAgree(stream, leaves, schema, docs, Tabled(leaves, schema, docs, idf, value), Scanned(schema, docs, idf, value), p);
      if Plain(leaves, schema) { PlainScores(stream, leaves, schema, docs, Scanned(schema, docs, idf, value), p); }
    }
  }

  /** How many candidates the second pass gets: enough for the result, and for a
      second pass at least as many as the options ask for. */
  lemma {:induction false} PoolSize(o: Options)
    ensures o.ranker.None? && !o.collectFeatures ==> TopN(o) == o.size
    ensures o.ranker.Some? || o.collectFeatures ==>
      TopN(o) >= o.size && TopN(o) >= o.rerankTopN && TopN(o) in {o.size, o.rerankTopN}
  {
  }

  /** Without a clash of keys, the new scores come from the features with the
      statistics of a scan. */
  lemma {:induction false} RankingMeans(candidates: seq<Scored>, pool: seq<Scored>, ranker: Ranker, leaves: seq<Leaf>, schema: Schema,
                                        docs: seq<seq<Document>>, idf: (nat, nat) -> real, value: FloatBits -> real, p: Params,
                                        exp: real -> real)
    requires p.Valid() && !Clash(leaves, schema)
    requires Reranked(candidates, pool, ranker, leaves, schema, docs, Tabled(leaves, schema, docs, idf, value), p, exp)
    ensures Reranked(candidates, pool, ranker, leaves, schema, docs, Scanned(schema, docs, idf, value), p, exp)
  {
    hide Clash, Reranked, Agree;
    TablesAgree(leaves, schema, docs, idf, value);
    RerankedAgree(candidates, pool, ranker, leaves, schema, docs, Tabled(leaves, schema, docs, idf, value),
                  Scanned(schema, docs, idf, value), p, exp);
  }

  /** Searcher::Search.  totalHits counts every match of every segment.  The pool
      is the best of the matches; the candidates are the pool, with the ranker's
      scores if there is one; the hits are the best of the candidates, in order
      of their scores and with the fields of their documents.  So without a
      ranker, or with the BM25 ranker on plain fields, no match that is left out
      beats one that is returned.  Every match is scored with the program's
      tables; when no keys clash and no field of the query stores a payload, that
      is BM25 with the document frequencies and average lengths of a scan of all
      documents.  idf and value stand for the logarithm and for reading a float. */
  method Search(q: Query, segs: seq<SegmentReader>, schema: Schema, idf: (nat, nat) -> real, value: FloatBits -> real,
                exp: real -> real, o: Options, ghost docs: seq<seq<Document>>)
    returns (totalHits: nat, hits: seq<Hit>, ghost order: seq<Scored>, ghost candidates: seq<Scored>, ghost pool: seq<Scored>,
             ghost stream: seq<Scored>)
    requires ReadsAll(segs, schema, docs) && schema.Valid() && o.p.Valid() && TopN(o) >= 1
    ensures totalHits == |stream| && Places(stream) == AllMatches(q, schema, docs)
    ensures AllScoredRight(stream, Leaves(q, schema), schema, docs, Tabled(Leaves(q, schema), schema, docs, idf, value), o.p)
    ensures !Clash(Leaves(q, schema), schema) && Plain(Leaves(q, schema), schema) ==>
      Bm25Scored(stream, Leaves(q, schema), schema, docs, Scanned(schema, docs, idf, value), o.p)
    ensures |pool| == Min(TopN(o), totalHits) && multiset(pool) <= multiset(stream) && BestOf(pool, stream, TopN(o))
    ensures if o.ranker.None? then candidates == pool
            else Reranked(candidates, pool, o.ranker.value, Leaves(q, schema), schema, docs,
                          Tabled(Leaves(q, schema), schema, docs, idf, value), o.p, exp)
    ensures |order| == Min(o.size, totalHits) && NonIncreasing(order)
    ensures multiset(order) <= multiset(candidates) && BestOf(order, candidates, o.size)
    ensures |hits| == |order| && Hydrated(hits, order, schema, docs)
    ensures o.ranker.None? || (o.ranker.value.Bm25? && Unboosted(Leaves(q, schema), schema, value)) ==>
      multiset(order) <= multiset(stream) && BestOf(order, stream, o.size)
  {
    hide Reads, Schema.Valid, Statistics.Valid, ScoredRight, Unboosted, Hydrated, BestOf, AllScoredRight, Heap, Places, AllMatches,
         Tabled, Scanned, Bm25Scored, Clash, Plain, Agree, RankedBy, Reranked, Beaten, Heaped;
    if segs == [] {
      NoMatches(q, schema, docs);
      EmptySearch(Leaves(q, schema), schema, docs, Tabled(Leaves(q, schema), schema, docs, idf, value), o, exp);
      ScoresMean([], Leaves(q, schema), schema, docs, idf, value, o.p);
      return 0, [], [], [], [], [];
    }
    var leaves := CollectLeaves(q, schema, []);
    assert leaves == Leaves(q, schema);
    var st := ReadStatistics(leaves, segs, schema, idf, value, docs);
    var n := TopN(o);
    var heap;
    heap, totalHits, stream := Walk(q, segs, schema, leaves, st, o.p, n, docs);
    pool := heap;
    DroppedNoBetter(stream, n);
    HeapHoldsBest(stream, n);
    KeptArePlaced(stream, heap, q, schema, docs);
    KeptAreRight(stream, heap, leaves, schema, docs, st, o.p);
    ScoresAgree(stream, leaves, schema, docs, st, Tabled(leaves, schema, docs, idf, value), o.p);
    ScoresMean(stream, leaves, schema, docs, idf, value, o.p);
    var ranked := RerankAll(heap, o.ranker, segs, schema, leaves, st, o.p, exp, docs);
    candidates := ranked;
    if o.ranker.Some? {
      RankedPlaces(ranked, heap, o.ranker.value, leaves, schema, docs, st, o.p, exp);
      RerankedAgree(ranked, heap, o.ranker.value, leaves, schema, docs, st, Tabled(leaves, schema, docs, idf, value), o.p, exp);
    }
    var kept;
    ghost var rest;
    kept, rest := Order(ranked, o.size);
    order := kept;
    CutArePlaced(ranked, kept, rest, docs);
    CutIsBest(ranked, kept, rest, o.size);
    hits := HydrateAll(kept, segs, schema, docs);
    HydratedLength(hits, kept, schema, docs);
    if ranked == heap { BestAfterCut(stream, heap, kept, n, o.size); }
  }

  lemma {:induction false} NoMatches(q: Query, schema: Schema, docs: seq<seq<Document>>)
    requires docs == []
    ensures Places([]) == AllMatches(q, schema, docs)
  {
  }

  lemma {:induction false} EmptySearch(leaves: seq<Leaf>, schema: Schema, docs: seq<seq<Document>>, st: Statistics, o: Options,
                                       exp: real -> real)
    requires o.p.Valid() && st.Valid()
    ensures AllScoredRight([], leaves, schema, docs, st, o.p) && Hydrated([], [], schema, docs)
    ensures BestOf([], [], o.size) && BestOf([], [], TopN(o))
    ensures o.ranker.Some? ==> Reranked([], [], o.ranker.value, leaves, schema, docs, st, o.p, exp)
  {
  }

  lemma {:induction false} RankedPlaces(a: seq<Scored>, b: seq<Scored>, ranker: Ranker, leaves: seq<Leaf>, schema: Schema,
                                        docs: seq<seq<Document>>, st: Statistics, p: Params, exp: real -> real)
    requires p.Valid() && Reranked(a, b, ranker, leaves, schema, docs, st, p, exp)
    ensures |a| == |b| && forall k :: 0 <= k < |a| ==> a[k].segment < |docs| && a[k].doc < |docs[a[k].segment]|
  {
    hide IsFeatures, ItemsFor;
    forall k | 0 <= k < |a| ensures a[k].segment < |docs| && a[k].doc < |docs[a[k].segment]| {
      assert RankedBy(a[k], b[k], ranker, leaves, schema, docs[b[k].segment][b[k].doc], st, p, exp);
    }
  }

  lemma {:induction false} CutArePlaced(candidates: seq<Scored>, kept: seq<Scored>, rest: seq<Scored>, docs: seq<seq<Document>>)
    requires multiset(kept) + multiset(rest) == multiset(candidates)
    requires forall k :: 0 <= k < |candidates| ==> candidates[k].segment < |docs| && candidates[k].doc < |docs[candidates[k].segment]|
    ensures forall k :: 0 <= k < |kept| ==> kept[k].segment < |docs| && kept[k].doc < |docs[kept[k].segment]|
  {
    forall k | 0 <= k < |kept| ensures kept[k].segment < |docs| && kept[k].doc < |docs[kept[k].segment]| {
      assert kept[k] in multiset(kept);
      assert kept[k] in multiset(candidates);
      assert kept[k] in candidates;
    }
  }

  lemma {:induction false} HydratedLength(hits: seq<Hit>, order: seq<Scored>, schema: Schema, docs: seq<seq<Document>>)
    requires Hydrated(hits, order, schema, docs)
    ensures |hits| == |order|
  {
  }
}
