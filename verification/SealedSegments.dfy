/** What a reader of a sealed segment finds: exactly what a scan of the indexed
    documents finds. */
module SealedSegments {
  import opened Base
  import opened Documents
  import opened MutableSegments
  import opened PostingFormat
  import opened SegmentFormat
  import opened SegmentReaders
  import opened SegmentRoundTrip
  import opened SegmentWriter
  import Json
  import JsonParser
  import JsonRoundTrip

  ghost predicate FieldSizesFit(r: FieldRecord)
  {
    |r.name| < U32 && |r.terms| < U64 && forall k :: 0 <= k < |r.terms| ==> |r.terms[k].term| < U32
  }

  /** Lengths that the format can write down. */
  ghost predicate SizesFit(c: Content)
  {
    && (forall i :: 0 <= i < |c.fields| ==> FieldSizesFit(c.fields[i]))
    && |Dictionaries(c.fields)| < U64 && |Postings(c.fields)| < U64 && |StoredBytes(c.blobs)| < U64
    && (forall d :: 0 <= d < |c.blobs| ==> |c.blobs[d]| < U32)
  }

  /** Nothing but the lengths can be too large. */
  lemma {:induction false} OnlySizesMatter(c: Content, schema: Schema, docs: seq<Document>)
    requires Represents(c, schema, docs) && schema.Valid() && SizesFit(c)
    ensures Fits(c) && AllInOrder(c.fields)
  {
    forall i | 0 <= i < |c.fields| ensures FieldFits(c.fields[i]) {
      FieldWithin(c.fields[i], schema.fields[i], docs);
    }
  }

  lemma {:induction false} FieldWithin(r: FieldRecord, f: FieldMapping, docs: seq<Document>)
    requires |docs| <= NO_MORE && FieldRepresents(r, f, docs)
    requires FieldSizesFit(r)
    ensures FieldFits(r)
  {
    forall k | 0 <= k < |r.terms| ensures TermFits(r.terms[k]) { ListFits(f, docs, r.terms[k].term); }
  }

  /** An entry of the opened dictionary leads to the term's posting list. */
  ghost predicate Leads(seg: SegmentReader, i: nat, te: TermEntry, f: FieldMapping, docs: seq<Document>)
    requires |docs| <= NO_MORE
  {
    var list := ListFor(f, docs, te.term);
    ListIsValid(f, docs, te.term);
    list != [] && te.df == |list| && te.totalTf == SumTf(list) && seg.PostingBytes(i, te) == List(EntriesOf(list), LayoutOf(f))
  }

  /** Field i of the reader is the field's part of the scan. */
  ghost predicate ReadsField(seg: SegmentReader, i: nat, f: FieldMapping, docs: seq<Document>)
    requires i < |seg.fields| && |docs| <= NO_MORE
  {
    var stats, terms := seg.fields[i].stats, seg.fields[i].terms;
    && stats.name == f.name && stats.boost == f.boost && stats.positionDecay == f.positionDecay
    && stats.layout == LayoutOf(f) && stats.docCount == DocsWith(f, docs)
    && stats.sumFieldLength == Mod64(TotalLength(f, docs)) && stats.termCount == |terms|
    && (forall k :: 0 <= k < |terms| ==> Leads(seg, i, terms[k], f, docs))
    && (forall term :: ListFor(f, docs, term) != [] ==> HasEntry(terms, term))
  }

  ghost predicate HasEntry(terms: seq<TermEntry>, term: string)
  {
    exists k :: 0 <= k < |terms| && terms[k].term == term
  }

  /** The reader stands for the documents. */
  ghost predicate Reads(seg: SegmentReader, schema: Schema, docs: seq<Document>)
  {
    && seg.Valid() && seg.docCount == |docs| <= NO_MORE && |seg.fields| == |schema.fields|
    && (forall i :: 0 <= i < |seg.fields| ==> ReadsField(seg, i, schema.fields[i], docs))
    && (forall d :: 0 <= d < |docs| ==> seg.StoredFields(d) == Blob(schema.fields, docs[d]))
    && (forall d :: 0 <= d < |docs| ==> seg.DocQuality(d) == if schema.storeDocQuality then QualityOf(docs[d]) else 0)
    && (seg.docQuality != [] <==> schema.storeDocQuality && docs != [])
  }

  lemma {:induction false} FieldRead(c: Content, i: nat, f: FieldMapping, docs: seq<Document>)
    requires i < |c.fields| && |docs| <= NO_MORE && FieldRepresents(c.fields[i], f, docs)
    ensures i < |ReaderOf(c).fields| && ReadsField(ReaderOf(c), i, f, docs)
  {
    hide ListFor, SumTf, EntriesOf, Dictionary, Lists, Postings, Offsets, StoredBytes;
    var seg, r := ReaderOf(c), c.fields[i];
    FieldAt(c.fields, 0, 0, i);
    var terms := seg.fields[i].terms;
    forall k | 0 <= k < |terms| ensures Leads(seg, i, terms[k], f, docs) {
      TermLookUp(c, i, k);
      assert TermRepresents(r.terms[k], f, docs);
    }
    forall term | ListFor(f, docs, term) != [] ensures HasEntry(terms, term) {
      assert term in TermNames(r.terms);
      var k :| 0 <= k < |r.terms| && r.terms[k].term == term;
      TermLookUp(c, i, k);
      assert terms[k].term == term;
    }
  }

  lemma {:induction false} ReaderStandsFor(c: Content, schema: Schema, docs: seq<Document>)
    requires Represents(c, schema, docs) && Fits(c) && ReaderOf(c).Valid()
    ensures Reads(ReaderOf(c), schema, docs)
  {
    hide FieldRepresents, ReadsField, FieldFits, FieldReads, Postings, StoredBytes, Offsets, Blob, SegmentReader.StoredFields,
         SegmentReader.DocQuality;
    forall i | 0 <= i < |c.fields| ensures i < |ReaderOf(c).fields| && ReadsField(ReaderOf(c), i, schema.fields[i], docs) {
      FieldRead(c, i, schema.fields[i], docs);
    }
    assert |ReaderOf(c).fields| == |c.fields|;
    forall d | 0 <= d < |docs|
      ensures ReaderOf(c).StoredFields(d) == Blob(schema.fields, docs[d])
      ensures ReaderOf(c).DocQuality(d) == if schema.storeDocQuality then QualityOf(docs[d]) else 0
    {
      DocumentLookUp(c, d);
      assert c.blobs[d] == Blob(schema.fields, docs[d]);
    }
  }

  /** Sealing and opening loses nothing, for every segment whose lengths fit. */
  method SealAndOpen(segment: MutableSegment, dir: Directory, stem: string) returns (r: Opened, ghost c: Content)
    requires segment.Valid() && segment.schema.Valid()
    modifies dir
    ensures Represents(c, segment.schema, segment.docs)
    ensures SizesFit(c) && (segment.schema.storeDocQuality || stem + QUALITY_EXT !in old(dir.files)) ==>
      r.Opened? && Reads(r.reader, segment.schema, segment.docs)
  {
    hide Represents, SizesFit, Reads, Fits, AllInOrder, Holds, OpenSpec, SegmentReader.Valid, ReaderOf;
    c := SealSegment(segment, dir, stem);
    r := Open(dir.files, stem);
    if SizesFit(c) && (segment.schema.storeDocQuality || stem + QUALITY_EXT !in old(dir.files)) {
      OnlySizesMatter(c, segment.schema, segment.docs);
      OpenBack(dir.files, stem, c);
      ReaderStandsFor(c, segment.schema, segment.docs);
    }
  }

  /** The quality of a document comes back as it was given, or as the pattern of
      0.0, if the schema stores it. */
  lemma {:induction false} QualityComesBack(seg: SegmentReader, schema: Schema, docs: seq<Document>, d: nat)
    requires Reads(seg, schema, docs) && d < |docs|
    ensures schema.storeDocQuality && docs[d].quality.Some? ==> seg.DocQuality(d) == docs[d].quality.value
    ensures !schema.storeDocQuality || docs[d].quality.None? ==> seg.DocQuality(d) == 0
  {
    hide ReadsField, SegmentReader.Valid, SegmentReader.DocQuality, SegmentReader.StoredFields, Blob;
  }

  /** The stored bytes of a document parse to an object that names it. */
  lemma {:induction false} StoredIdentifier(schema: Schema, doc: Document)
    ensures JsonParser.Document(Blob(schema.fields, doc))
         == JsonParser.Got(Json.Obj(Stored(schema.fields, doc)), |Blob(schema.fields, doc)|)
    ensures Json.Find(Stored(schema.fields, doc), ID_FIELD) == Some(Json.Str(doc.id))
  {
    StoredHolds(schema.fields, doc, ID_FIELD);
    StringsExact(Stored(schema.fields, doc));
    JsonRoundTrip.RoundTrip(Json.Obj(Stored(schema.fields, doc)), 0);
  }
}
