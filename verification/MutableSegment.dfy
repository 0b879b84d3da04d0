/** The in-memory index of one segment, and the scan of the documents that it
    must agree with. */
module MutableSegments {
  import opened Base
  import opened Analyzer
  import opened Documents
  import opened PostingFormat
  import Json
  import TokenWeight

  /** An entry of a posting list before it is stored. */
  datatype Posting = Posting(doc: nat, tf: nat, pos: nat, weight: real)

  datatype FieldData = FieldData(postings: map<string, seq<Posting>>, sumFieldLength: nat, docCount: nat)

  // ----- one document -----

  /** What is counted of one term while the tokens of a field go by. */
  datatype Tally = Tally(tf: nat, pos: nat, weight: real)

  const MAX_POSITION: nat := 0xFFFF

  function Saturated(pos: nat): nat
  {
    if pos < MAX_POSITION then pos else MAX_POSITION
  }

  /** The weight of a token; missing entries default to 1. */
  function WeightAt(weights: Option<seq<real>>, i: nat): real
  {
    if weights.Some? && i < |weights.value| then weights.value[i] else 1.0
  }

  predicate Occurs(tokens: seq<Token>, term: string, n: nat)
    requires n <= |tokens|
  {
    n > 0 && (tokens[n - 1].text == term || Occurs(tokens, term, n - 1))
  }

  /** One more occurrence, at ordinal i. */
  function Bumped(t: Tally, weights: Option<seq<real>>, i: nat): Tally
  {
    Tally(Mod32(t.tf + 1), if t.tf == 0 then Saturated(i) else t.pos,
          if weights.Some? && WeightAt(weights, i) > t.weight then WeightAt(weights, i) else t.weight)
  }

  function TallyOf(tokens: seq<Token>, weights: Option<seq<real>>, term: string, n: nat): Tally
    requires n <= |tokens|
  {
    if n == 0 then Tally(0, 0, 0.0)
    else
      var t := TallyOf(tokens, weights, term, n - 1);
      if tokens[n - 1].text == term then Bumped(t, weights, n - 1) else t
  }

  lemma {:induction false} AbsentTally(tokens: seq<Token>, weights: Option<seq<real>>, term: string, n: nat)
    requires n <= |tokens| && !Occurs(tokens, term, n)
    ensures TallyOf(tokens, weights, term, n) == Tally(0, 0, 0.0)
  {
    if n > 0 { AbsentTally(tokens, weights, term, n - 1); }
  }

  /** The first pass over the tokens of a field. */
  method TallyTokens(tokens: seq<Token>, weights: Option<seq<real>>) returns (stats: map<string, Tally>)
    ensures forall term :: term in stats <==> Occurs(tokens, term, |tokens|)
    ensures forall term :: term in stats ==> stats[term] == TallyOf(tokens, weights, term, |tokens|)
  {
    stats := map[];
    for pi := 0 to |tokens|
      invariant forall term :: term in stats <==> Occurs(tokens, term, pi)
      invariant forall term :: term in stats ==> stats[term] == TallyOf(tokens, weights, term, pi)
    {
      var text := tokens[pi].text;
      if text !in stats { AbsentTally(tokens, weights, text, pi); }
      var st := if text in stats then stats[text] else Tally(0, 0, 0.0);
      stats := stats[text := Bumped(st, weights, pi)];
    }
  }

  function PostingFrom(t: Tally, weighted: bool, id: nat): Posting
  {
    Posting(id, t.tf, t.pos, if weighted then t.weight else 1.0)
  }

  function Listed(postings: map<string, seq<Posting>>, term: string): seq<Posting>
  {
    if term in postings then postings[term] else []
  }

  /** What a counted term adds to its list. */
  function Added(stats: map<string, Tally>, term: string, weighted: bool, id: nat): seq<Posting>
  {
    if term in stats then [PostingFrom(stats[term], weighted, id)] else []
  }

  /** Appends one posting to the list of every counted term, in any order. */
  method AddPostings(postings: map<string, seq<Posting>>, stats: map<string, Tally>, id: nat, weighted: bool)
    returns (r: map<string, seq<Posting>>)
    ensures forall t :: t in r <==> t in postings || t in stats
    ensures forall t :: t in r ==> r[t] == Listed(postings, t) + Added(stats, t, weighted, id)
  {
    r := postings;
    var todo := stats.Keys;
    while todo != {}
      invariant todo <= stats.Keys
      invariant forall t :: t in r <==> t in postings || (t in stats && t !in todo)
      invariant forall t :: t in r && t !in todo ==> r[t] == Listed(postings, t) + Added(stats, t, weighted, id)
      invariant forall t :: t in todo ==> Listed(r, t) == Listed(postings, t)
      decreases |todo|
    {
      var term :| term in todo;
      todo := todo - {term};
      r := r[term := Listed(r, term) + Added(stats, term, weighted, id)];
    }
  }

  // ----- the scan -----

  function PostingOf(f: FieldMapping, doc: Document, id: nat, term: string): Posting
  {
    var tokens, weights := FieldTokens(f, doc), FieldWeights(f, doc);
    PostingFrom(TallyOf(tokens, weights, term, |tokens|), weights.Some?, id)
  }

  /** The term is a token of the document's field. */
  predicate HasTerm(f: FieldMapping, doc: Document, term: string)
  {
    Occurs(FieldTokens(f, doc), term, |FieldTokens(f, doc)|)
  }

  /** The posting list of a term, by looking at every document. */
  function ListFor(f: FieldMapping, docs: seq<Document>, term: string): seq<Posting>
  {
    if docs == [] then []
    else
      var n := |docs| - 1;
      ListFor(f, docs[..n], term) + if HasTerm(f, docs[n], term) then [PostingOf(f, docs[n], n, term)] else []
  }

  /** All tokens of a field. */
  function TotalLength(f: FieldMapping, docs: seq<Document>): nat
  {
    if docs == [] then 0
    else TotalLength(f, docs[..|docs| - 1]) + |FieldTokens(f, docs[|docs| - 1])|
  }

  /** How many documents have a token in the field. */
  function DocsWith(f: FieldMapping, docs: seq<Document>): (n: nat)
    ensures n <= |docs|
  {
    if docs == [] then 0
    else DocsWith(f, docs[..|docs| - 1]) + if FieldTokens(f, docs[|docs| - 1]) == [] then 0 else 1
  }

  /** The field's data is what the scan of the documents finds. */
  ghost predicate Indexes(fd: FieldData, f: FieldMapping, docs: seq<Document>)
  {
    && fd.sumFieldLength == Mod64(TotalLength(f, docs)) && fd.docCount == DocsWith(f, docs)
    && (forall term :: term in fd.postings <==> ListFor(f, docs, term) != [])
    && (forall term :: term in fd.postings ==> fd.postings[term] == ListFor(f, docs, term))
  }

  lemma {:induction false} NoTokens(f: FieldMapping, docs: seq<Document>, doc: Document, fd: FieldData)
    requires Indexes(fd, f, docs) && FieldTokens(f, doc) == []
    ensures Indexes(fd, f, docs + [doc])
  {
    var all := docs + [doc];
    assert all[..|docs|] == docs;
    forall term ensures ListFor(f, all, term) == ListFor(f, docs, term) {
      assert !HasTerm(f, doc, term);
    }
  }

  lemma {:induction false} ListNext(f: FieldMapping, docs: seq<Document>, doc: Document, term: string)
    ensures ListFor(f, docs + [doc], term)
         == ListFor(f, docs, term) + if HasTerm(f, doc, term) then [PostingOf(f, doc, |docs|, term)] else []
  {
    assert (docs + [doc])[..|docs|] == docs;
  }

  /** The loop body of AddDocument for one field. */
  method AddToField(fd: FieldData, f: FieldMapping, doc: Document, ghost docs: seq<Document>, id: nat)
    returns (r: FieldData)
    requires Indexes(fd, f, docs) && id == |docs| < NO_MORE
    ensures Indexes(r, f, docs + [doc])
  {
    ghost var all := docs + [doc];
    assert all[..|docs|] == docs && all[|docs|] == doc;
    var value := FieldText(f, doc);
    if value == None {
      NoTokens(f, docs, doc, fd);
      return fd;
    }
    var tokens := Analyze(f.kind, value.value);
    if tokens == [] {
      NoTokens(f, docs, doc, fd);
      return fd;
    }
    var weights := FieldWeights(f, doc);
    var stats := TallyTokens(tokens, weights);
    var postings := AddPostings(fd.postings, stats, id, weights.Some?);
    Mod64Twice(TotalLength(f, docs), |tokens|);
    r := FieldData(postings, Mod64(fd.sumFieldLength + |tokens|), Mod32(fd.docCount + 1));
    ListsGrow(fd, f, docs, doc, stats, postings, weights.Some?);
  }

  /** Appending the counted postings keeps up with the scan. */
  lemma {:induction false} ListsGrow(fd: FieldData, f: FieldMapping, docs: seq<Document>, doc: Document,
                                     stats: map<string, Tally>, postings: map<string, seq<Posting>>, weighted: bool)
    requires Indexes(fd, f, docs)
    requires forall t :: t in stats <==> HasTerm(f, doc, t)
    requires forall t :: t in stats ==> PostingFrom(stats[t], weighted, |docs|) == PostingOf(f, doc, |docs|, t)
    requires forall t :: t in postings <==> t in fd.postings || t in stats
    requires forall t :: t in postings ==> postings[t] == Listed(fd.postings, t) + Added(stats, t, weighted, |docs|)
    ensures forall t :: t in postings <==> ListFor(f, docs + [doc], t) != []
    ensures forall t :: t in postings ==> postings[t] == ListFor(f, docs + [doc], t)
  {
    hide HasTerm, PostingOf, PostingFrom;
    forall t ensures t in postings <==> ListFor(f, docs + [doc], t) != []
             ensures t in postings ==> postings[t] == ListFor(f, docs + [doc], t)
    {
      ListNext(f, docs, doc, t);
      assert Listed(fd.postings, t) == ListFor(f, docs, t);
    }
  }

  // ----- the segment -----

  function Blobs(schema: Schema, docs: seq<Document>): seq<string>
  {
    seq(|docs|, i requires 0 <= i < |docs| => Blob(schema.fields, docs[i]))
  }

  function Ids(docs: seq<Document>): seq<string>
  {
    seq(|docs|, i requires 0 <= i < |docs| => docs[i].id)
  }

  function QualityOf(doc: Document): FloatBits
  {
    if doc.quality.Some? then doc.quality.value else 0
  }

  /** The quality stripe; the pattern of 0.0 is 0. */
  function Qualities(schema: Schema, docs: seq<Document>): seq<nat>
  {
    if schema.storeDocQuality then seq(|docs|, i requires 0 <= i < |docs| => QualityOf(docs[i])) else []
  }

  lemma {:induction false} ColumnsNext(schema: Schema, docs: seq<Document>, doc: Document)
    ensures Blobs(schema, docs + [doc]) == Blobs(schema, docs) + [Blob(schema.fields, doc)]
    ensures Ids(docs + [doc]) == Ids(docs) + [doc.id]
    ensures Qualities(schema, docs + [doc]) == Qualities(schema, docs) + if schema.storeDocQuality then [QualityOf(doc)] else []
  {
  }

  method StoredMembers(fields: seq<FieldMapping>, doc: Document) returns (o: seq<Json.Member>)
    ensures o == Stored(fields, doc)
  {
    o := [Json.Member(ID_FIELD, Json.Str(doc.id))];
    for fi := 0 to |fields|
      invariant o == Stored(fields[..fi], doc)
    {
      var f := fields[fi];
      assert fields[..fi + 1][..fi] == fields[..fi];
      var value := FieldText(f, doc);
      if value.Some? && f.stored && f.name != ID_FIELD {
        o := Json.Insert(o, f.name, Json.Str(value.value));
      }
    }
    assert fields[..|fields|] == fields;
  }

  class MutableSegment {
    const schema: Schema
    var fieldData: seq<FieldData>
    var storedBlobs: seq<string>
    var docIds: seq<string>
    var docQuality: seq<nat>
    var nextDocId: nat
    ghost var docs: seq<Document>  // the accepted documents, in order

    /** Every part of the segment is what the accepted documents say. */
    ghost predicate Valid()
      reads this
    {
      && nextDocId == |docs| <= NO_MORE
      && (forall d :: 0 <= d < |docs| ==> docs[d].id != "")
      && storedBlobs == Blobs(schema, docs) && docIds == Ids(docs) && docQuality == Qualities(schema, docs)
      && |fieldData| == |schema.fields|
      && forall fi :: 0 <= fi < |fieldData| ==> Indexes(fieldData[fi], schema.fields[fi], docs)
    }

    constructor (schema: Schema)
      ensures Valid() && this.schema == schema && docs == []
    {
      this.schema := schema;
      fieldData := seq(|schema.fields|, _ => FieldData(map[], 0, 0));
      storedBlobs, docIds, docQuality, nextDocId, docs := [], [], [], 0, [];
    }

    /** The new id is the number of documents before it; a document that is
        refused leaves no trace. */
    method AddDocument(doc: Document) returns (r: Result<nat>)
      requires Valid()
      modifies this
      ensures Valid()
      ensures doc.id == "" ==> r == Err("document _id is empty")
      ensures doc.id != "" && |old(docs)| == NO_MORE ==> r == Err("doc id space exhausted")
      ensures r.Ok? <==> doc.id != "" && |old(docs)| < NO_MORE
      ensures r.Err? ==> unchanged(this)
      ensures r.Ok? ==> r.value == |old(docs)| && docs == old(docs) + [doc]
    {
      hide Indexes, Blobs, Ids, Qualities, Stored;
      if doc.id == "" { return Err("document _id is empty"); }
      if nextDocId == NO_MORE { return Err("doc id space exhausted"); }
      var id := nextDocId;
      var stored := StoredMembers(schema.fields, doc);
      var data := AddToFields(doc);
      var blob := Json.Serialize(Json.Obj(stored), 0);
      var quality := docQuality + if schema.storeDocQuality then [QualityOf(doc)] else [];
      ColumnsNext(schema, docs, doc);
      fieldData, storedBlobs, docIds, docQuality := data, storedBlobs + [blob], docIds + [doc.id], quality;
      nextDocId, docs := id + 1, docs + [doc];
      return Ok(id);
    }

    /** The loop over the fields. */
    method AddToFields(doc: Document) returns (data: seq<FieldData>)
      requires Valid() && nextDocId < NO_MORE
      ensures |data| == |schema.fields|
      ensures forall fi :: 0 <= fi < |data| ==> Indexes(data[fi], schema.fields[fi], docs + [doc])
    {
      data := fieldData;
      for fi := 0 to |schema.fields|
        invariant |data| == |schema.fields|
        invariant forall i :: fi <= i < |data| ==> data[i] == fieldData[i]
        invariant forall i :: 0 <= i < fi ==> Indexes(data[i], schema.fields[i], docs + [doc])
      {
        var fd := AddToField(data[fi], schema.fields[fi], doc, docs, nextDocId);
        data := data[fi := fd];
      }
    }
  }

  // ----- what the lists hold -----

  /** A listed document has the term, and its posting is that document's. */
  lemma {:induction false} ListedHasTerm(f: FieldMapping, docs: seq<Document>, term: string, i: nat)
    requires i < |ListFor(f, docs, term)|
    ensures var p := ListFor(f, docs, term)[i];
      p.doc < |docs| && HasTerm(f, docs[p.doc], term) && p == PostingOf(f, docs[p.doc], p.doc, term)
  {
    var n := |docs| - 1;
    if i < |ListFor(f, docs[..n], term)| { ListedHasTerm(f, docs[..n], term, i); }
  }

  /** A document with the term is listed. */
  lemma {:induction false} TermIsListed(f: FieldMapping, docs: seq<Document>, term: string, d: nat) returns (i: nat)
    requires d < |docs| && HasTerm(f, docs[d], term)
    ensures i < |ListFor(f, docs, term)| && ListFor(f, docs, term)[i] == PostingOf(f, docs[d], d, term)
  {
    var n := |docs| - 1;
    if d == n {
      i := |ListFor(f, docs[..n], term)|;
    } else {
      i := TermIsListed(f, docs[..n], term, d);
    }
  }

  /** One posting per document, in the order of the documents. */
  lemma {:induction false} ListAscends(f: FieldMapping, docs: seq<Document>, term: string, i: nat, j: nat)
    requires i < j < |ListFor(f, docs, term)|
    ensures ListFor(f, docs, term)[i].doc < ListFor(f, docs, term)[j].doc
  {
    var n := |docs| - 1;
    var before := ListFor(f, docs[..n], term);
    if j < |before| {
      ListAscends(f, docs[..n], term, i, j);
    } else {
      ListedHasTerm(f, docs[..n], term, i);
    }
  }

  /** How often the term is among the first n tokens. */
  function Count(tokens: seq<Token>, term: string, n: nat): (c: nat)
    requires n <= |tokens|
    ensures c <= n
  {
    if n == 0 then 0 else Count(tokens, term, n - 1) + if tokens[n - 1].text == term then 1 else 0
  }

  /** tf is the number of occurrences, the position is the least ordinal, cut
      off at 65535, and the weight is the greatest one that is not negative:
      for fields of fewer than 2^32 tokens. */
  lemma {:induction false} TallyMeans(tokens: seq<Token>, weights: Option<seq<real>>, term: string, n: nat, i: nat)
    requires n <= |tokens| && n < U32 && i < n && tokens[i].text == term
    ensures var t := TallyOf(tokens, weights, term, n);
      && t.tf == Count(tokens, term, n) > 0
      && ((forall k :: 0 <= k < i ==> tokens[k].text != term) ==> t.pos == if i < 65535 then i else 65535)
  {
    if i == n - 1 {
      if !Occurs(tokens, term, n - 1) {
        AbsentTally(tokens, weights, term, n - 1);
        CountZero(tokens, term, n - 1);
      } else {
        var k := LastOccurrence(tokens, term, n - 1);
        TallyMeans(tokens, weights, term, n - 1, k);
      }
    } else {
      TallyMeans(tokens, weights, term, n - 1, i);
    }
  }

  lemma {:induction false} CountZero(tokens: seq<Token>, term: string, n: nat)
    requires n <= |tokens| && !Occurs(tokens, term, n)
    ensures Count(tokens, term, n) == 0
  {
    if n > 0 { CountZero(tokens, term, n - 1); }
  }

  lemma {:induction false} LastOccurrence(tokens: seq<Token>, term: string, n: nat) returns (i: nat)
    requires n <= |tokens| && Occurs(tokens, term, n)
    ensures i < n && tokens[i].text == term
  {
    if tokens[n - 1].text == term { i := n - 1; } else { i := LastOccurrence(tokens, term, n - 1); }
  }

  /** Occurs is membership. */
  lemma {:induction false} OccursAt(tokens: seq<Token>, term: string, n: nat, i: nat)
    requires i < n <= |tokens| && tokens[i].text == term
    ensures Occurs(tokens, term, n)
  {
    if i < n - 1 { OccursAt(tokens, term, n - 1, i); }
  }

  /** The stored weight is the largest weight of an occurrence, or 0 when all
      are negative. */
  lemma {:induction false} WeightIsMax(tokens: seq<Token>, weights: Option<seq<real>>, term: string, n: nat)
    requires n <= |tokens| && weights.Some?
    ensures var w := TallyOf(tokens, weights, term, n).weight;
      && w >= 0.0 && (forall i :: 0 <= i < n && tokens[i].text == term ==> WeightAt(weights, i) <= w)
      && (w == 0.0 || exists i :: 0 <= i < n && tokens[i].text == term && WeightAt(weights, i) == w)
  {
    if n > 0 {
      WeightIsMax(tokens, weights, term, n - 1);
    }
  }

  // ----- the field length is the sum of the frequencies -----

  function SumTf(list: seq<Posting>): nat
  {
    if list == [] then 0 else SumTf(list[..|list| - 1]) + list[|list| - 1].tf
  }

  /** The frequencies in the lists of the given terms. */
  function SumLists(f: FieldMapping, docs: seq<Document>, terms: seq<string>): nat
  {
    if terms == [] then 0 else SumTf(ListFor(f, docs, terms[0])) + SumLists(f, docs, terms[1..])
  }

  function CountAll(tokens: seq<Token>, terms: seq<string>, n: nat): nat
    requires n <= |tokens|
  {
    if terms == [] then 0 else Count(tokens, terms[0], n) + CountAll(tokens, terms[1..], n)
  }

  ghost predicate Distinct(terms: seq<string>)
  {
    terms == [] || (terms[0] !in terms[1..] && Distinct(terms[1..]))
  }

  /** Every token of the field is among the terms. */
  ghost predicate Covers(terms: seq<string>, tokens: seq<Token>)
  {
    forall i :: 0 <= i < |tokens| ==> tokens[i].text in terms
  }

  lemma {:induction false} CountStep(tokens: seq<Token>, terms: seq<string>, n: nat)
    requires n < |tokens| && Distinct(terms)
    ensures CountAll(tokens, terms, n + 1) == CountAll(tokens, terms, n) + if tokens[n].text in terms then 1 else 0
  {
    if terms != [] {
      CountStep(tokens, terms[1..], n);
    }
  }

  /** Each token is counted for exactly one term. */
  lemma {:induction false} CountsCoverTokens(tokens: seq<Token>, terms: seq<string>, n: nat)
    requires n <= |tokens| && Distinct(terms) && Covers(terms, tokens)
    ensures CountAll(tokens, terms, n) == n
    decreases n
  {
    if n == 0 {
      NothingCounted(tokens, terms);
    } else {
      CountsCoverTokens(tokens, terms, n - 1);
      CountStep(tokens, terms, n - 1);
    }
  }

  lemma {:induction false} NothingCounted(tokens: seq<Token>, terms: seq<string>)
    ensures CountAll(tokens, terms, 0) == 0
  {
    if terms != [] { NothingCounted(tokens, terms[1..]); }
  }

  /** One more document adds its counts to the lists. */
  lemma {:induction false} SumListsStep(f: FieldMapping, docs: seq<Document>, doc: Document, terms: seq<string>)
    requires |FieldTokens(f, doc)| < U32
    ensures SumLists(f, docs + [doc], terms)
         == SumLists(f, docs, terms) + CountAll(FieldTokens(f, doc), terms, |FieldTokens(f, doc)|)
  {
    if terms != [] {
      SumListsStep(f, docs, doc, terms[1..]);
      var term, tokens := terms[0], FieldTokens(f, doc);
      ListNext(f, docs, doc, term);
      var before := ListFor(f, docs, term);
      if HasTerm(f, doc, term) {
        var i := LastOccurrence(tokens, term, |tokens|);
        TallyMeans(tokens, FieldWeights(f, doc), term, |tokens|, i);
        assert (before + [PostingOf(f, doc, |docs|, term)])[..|before|] == before;
      } else {
        CountZero(tokens, term, |tokens|);
        assert before + [] == before;
      }
    }
  }

  lemma {:induction false} NoDocuments(f: FieldMapping, terms: seq<string>)
    ensures SumLists(f, [], terms) == 0
  {
    if terms != [] { NoDocuments(f, terms[1..]); }
  }

  /** Whatever order the terms are listed in, their frequencies add up to the
      number of tokens of the field. */
  lemma {:induction false} SumFieldLength(f: FieldMapping, docs: seq<Document>, terms: seq<string>)
    requires Distinct(terms)
    requires forall d :: 0 <= d < |docs| ==> |FieldTokens(f, docs[d])| < U32 && Covers(terms, FieldTokens(f, docs[d]))
    ensures SumLists(f, docs, terms) == TotalLength(f, docs)
  {
    if docs == [] {
      NoDocuments(f, terms);
    } else {
      var n := |docs| - 1;
      var rest, doc := docs[..n], docs[n];
      assert docs == rest + [doc];
      SumFieldLength(f, rest, terms);
      SumListsStep(f, rest, doc, terms);
      CountsCoverTokens(FieldTokens(f, doc), terms, |FieldTokens(f, doc)|);
    }
  }

  // ----- the stored form of a list -----

  function EntryOf(p: Posting): Entry
  {
    Entry(p.doc, p.tf, p.pos, TokenWeight.Quantize(p.weight))
  }

  function EntriesOf(list: seq<Posting>): seq<Entry>
  {
    seq(|list|, i requires 0 <= i < |list| => EntryOf(list[i]))
  }

  lemma {:induction false} TallyBounds(tokens: seq<Token>, weights: Option<seq<real>>, term: string, n: nat)
    requires n <= |tokens|
    ensures TallyOf(tokens, weights, term, n).tf < U32 && TallyOf(tokens, weights, term, n).pos < U16
  {
    if n > 0 { TallyBounds(tokens, weights, term, n - 1); }
  }

  /** Every list of a segment has a byte form. */
  lemma {:induction false} ListIsValid(f: FieldMapping, docs: seq<Document>, term: string)
    requires |docs| <= NO_MORE
    ensures PostingFormat.Valid(EntriesOf(ListFor(f, docs, term)))
  {
    var list := ListFor(f, docs, term);
    var es := EntriesOf(list);
    forall i | 0 <= i < |es| ensures InBounds(es[i]) {
      ListedHasTerm(f, docs, term, i);
      var doc := docs[list[i].doc];
      TallyBounds(FieldTokens(f, doc), FieldWeights(f, doc), term, |FieldTokens(f, doc)|);
    }
    forall i, j | 0 <= i < j < |es| ensures es[i].doc < es[j].doc {
      ListAscends(f, docs, term, i, j);
    }
    AscendsFromOrder(es, 0);
  }
}
