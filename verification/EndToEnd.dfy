/** From documents to the answer of a query: index, seal, open, build, drain. */
module EndToEnd {
  import opened Base
  import opened DocSets
  import opened Documents
  import opened Iterators
  import opened MutableSegments
  import opened Queries
  import opened QueryPlan
  import opened SealedSegments
  import opened SegmentFormat
  import opened SegmentReaders
  import opened SegmentSizes
  import opened SegmentWriter

  /** The documents that AddDocument takes, of those offered in turn. */
  function Accepted(docs: seq<Document>): (r: seq<Document>)
    ensures |r| <= |docs| && |r| <= NO_MORE
  {
    if docs == [] then []
    else
      var before, doc := Accepted(docs[..|docs| - 1]), docs[|docs| - 1];
      if doc.id == "" || |before| == NO_MORE then before else before + [doc]
  }

  method IndexAll(schema: Schema, docs: seq<Document>) returns (segment: MutableSegment)
    ensures segment.Valid() && segment.schema == schema && segment.docs == Accepted(docs) && fresh(segment)
  {
    segment := new MutableSegment(schema);
    for k := 0 to |docs|
      invariant segment.Valid() && segment.docs == Accepted(docs[..k])
    {
      var id := segment.AddDocument(docs[k]);
      assert docs[..k + 1][..k] == docs[..k];
    }
    assert docs[..|docs|] == docs;
  }

  /** The lengths of everything that indexing the documents produces fit the
      format: by ModestIsSizable, documents below 64 MiB always do. */
  ghost predicate Sizable(schema: Schema, docs: seq<Document>)
  {
    forall c: Content :: Represents(c, schema, docs) ==> SizesFit(c)
  }

  lemma {:induction false} AcceptedFrom(docs: seq<Document>, d: nat) returns (i: nat)
    requires d < |Accepted(docs)|
    ensures i < |docs| && docs[i] == Accepted(docs)[d]
  {
    var n := |docs| - 1;
    if d < |Accepted(docs[..n])| { i := AcceptedFrom(docs[..n], d); } else { i := n; }
  }

  /** What a caller can check: every document offered is smaller than 64 MiB and
      every field name shorter than 4 GiB. */
  lemma {:induction false} ModestIsSizable(schema: Schema, docs: seq<Document>)
    requires Modest(schema, docs)
    ensures Sizable(schema, Accepted(docs))
  {
    hide Volume, Represents, SizesFit, Accepted;
    forall d | 0 <= d < |Accepted(docs)| ensures Volume(schema.fields, Accepted(docs)[d]) < VOLUME_LIMIT {
      var i := AcceptedFrom(docs, d);
    }
    forall c: Content | Represents(c, schema, Accepted(docs)) ensures SizesFit(c) { ModestFits(c, schema, Accepted(docs)); }
  }

  /** Draining the iterator of a query over a sealed and reopened segment gives,
      in ascending order, exactly the documents that satisfy the query. */
  method FindDocuments(schema: Schema, docs: seq<Document>, q: Query, stem: string) returns (ids: seq<nat>)
    requires schema.Valid() && Sizable(schema, Accepted(docs))
    ensures forall i, j :: 0 <= i < j < |ids| ==> ids[i] < ids[j]
    ensures forall d: nat :: d in ids <==> d < |Accepted(docs)| && Matches(q, schema, Accepted(docs)[d])
  {
    hide Represents, SizesFit, Reads, Matches, Answer;
    var segment := IndexAll(schema, docs);
    var dir := new Directory();
    ghost var c;
    var result;
    result, c := SealAndOpen(segment, dir, stem);
    ids := Query(q, result.reader, schema, Accepted(docs));
  }

  method Query(q: Queries.Query, seg: SegmentReader, schema: Schema, ghost docs: seq<Document>) returns (ids: seq<nat>)
    requires Reads(seg, schema, docs) && schema.Valid()
    ensures forall i, j :: 0 <= i < j < |ids| ==> ids[i] < ids[j]
    ensures forall d: nat :: d in ids <==> d < |docs| && Matches(q, schema, docs[d])
  {
    hide Reads, Matches, Answer;
    var it := Build(q, seg, schema, docs);
    ids := Drain(it);
    forall d: nat | d in ids ensures d < |docs| && Matches(q, schema, docs[d]) { AnswerMatches(q, schema, docs, d); }
    forall d: nat | d < |docs| && Matches(q, schema, docs[d]) ensures d in ids { AnswerMatches(q, schema, docs, d); }
  }
}
