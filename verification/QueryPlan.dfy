/** Building the iterator tree of a query over one sealed segment. */
module QueryPlan {
  import opened Base
  import opened Analyzer
  import opened DocSets
  import opened Documents
  import opened Iterators
  import opened LeafIterators
  import opened MutableSegments
  import opened PostingFormat
  import opened Queries
  import opened SealedSegments
  import opened SegmentReaders
  import opened SegmentWriter

  /** One more tree beside those that are there. */
  lemma {:induction false} AppendApart(kids: seq<Iter>, it: Iter)
    requires Apart(kids) && it.Shape() && it.Self() in it.Repr() && it.Repr() !! Footprint(kids)
    ensures Apart(kids + [it]) && Footprint(kids + [it]) == Footprint(kids) + it.Repr()
    ensures Dens(kids + [it]) == Dens(kids) + [it.Den()]
  {
    var all := kids + [it];
    if kids == [] {
      assert all[1..] == [] && Footprint([]) == {};
    } else {
      var rest := kids[1..];
      assert all[0] == kids[0] && all[1..] == rest + [it];
      forall i | 0 <= i < |rest| ensures rest[i].Shape() && rest[i].Self() in rest[i].Repr() { assert rest[i] == kids[i + 1]; }
      AppendApart(rest, it);
      forall i | 0 <= i < |all| ensures all[i].Shape() && all[i].Self() in all[i].Repr() {}
    }
  }

  /** A tree that has not moved and shares nothing with what was there. */
  ghost predicate Ready(it: Iter)
    reads it.Repr()
  {
    it.Self() in it.Repr() && it.Shape() && it.Inv() && it.Fresh()
  }

  ghost predicate AllReady(kids: seq<Iter>)
    reads Footprint(kids)
  {
    Apart(kids) && AllInv(kids) && AllFresh(kids)
  }

  /** MatchAllIterator(n). */
  method MakeAll(n: nat) returns (it: Iter)
    requires n <= NO_MORE
    ensures Ready(it) && fresh(it.Repr()) && it.Den() == FirstDocs(n)
  {
    var all := new MatchAllIterator(n);
    it := All(all);
    assert it.Structure() && it.State() && it.AtStart();
  }

  /** The iterator over one posting list. */
  method MakeTerm(seg: SegmentReader, i: nat, te: TermEntry, f: FieldMapping, ghost docs: seq<Document>) returns (it: Iter)
    requires i < |seg.fields| && |docs| <= NO_MORE && Leads(seg, i, te, f, docs) && seg.fields[i].stats.layout == LayoutOf(f)
    ensures Ready(it) && fresh(it.Repr()) && it.Den() == TermDocs(f, docs, te.term)
  {
    hide ListFor, SumTf, List, Frequencies, TermDocs, EntriesOf;
    ghost var entries := EntriesOf(ListFor(f, docs, te.term));
    ListStandsFor(f, docs, te.term);
    var term := new TermIterator(seg.PostingBytes(i, te), te.df, te.totalTf, seg.fields[i].stats.layout, entries);
    it := Iter.Term(term);
    TermDocsInRange(f, docs, te.term);
    assert it.Structure() && it.State() && it.AtStart();
  }

  lemma {:induction false} TermDocsInRange(f: FieldMapping, docs: seq<Document>, term: string)
    requires |docs| <= NO_MORE
    ensures InRange(TermDocs(f, docs, term))
  {
  }

  /** Adds a tree made after the others. */
  method Append(kids: seq<Iter>, it: Iter) returns (r: seq<Iter>)
    requires AllReady(kids) && Ready(it) && it.Repr() !! Footprint(kids)
    ensures r == kids + [it] && AllReady(r) && Footprint(r) == Footprint(kids) + it.Repr()
    ensures Dens(r) == Dens(kids) + [it.Den()]
  {
    AppendApart(kids, it);
    r := kids + [it];
  }

  /** The iterator over a term's postings, if the dictionary has the term. */
  method TermIteratorFor(seg: SegmentReader, i: nat, term: string, f: FieldMapping, ghost docs: seq<Document>)
    returns (it: Option<Iter>)
    requires seg.Valid() && i < |seg.fields| && |docs| <= NO_MORE && ReadsField(seg, i, f, docs)
    ensures it.None? ==> TermDocs(f, docs, term) == map[]
    ensures it.Some? ==> Ready(it.value) && fresh(it.value.Repr()) && it.value.Den() == TermDocs(f, docs, term)
  {
    hide ListFor, TermDocs, List, Leads, SegmentReader.Valid;
    var te := seg.FindTerm(i, term);
    if te.None? {
      NotIndexed(seg, i, f, docs, term);
      return None;
    }
    assert Leads(seg, i, te.value, f, docs);
    var leaf := MakeTerm(seg, i, te.value, f, docs);
    return Some(leaf);
  }

  /** One iterator per token; None when a token is not in the dictionary. */
  method TokenIterators(seg: SegmentReader, i: nat, tokens: seq<Token>, f: FieldMapping, ghost docs: seq<Document>)
    returns (kids: Option<seq<Iter>>)
    requires seg.Valid() && i < |seg.fields| && |docs| <= NO_MORE && ReadsField(seg, i, f, docs)
    ensures kids.None? ==> exists k :: 0 <= k < |tokens| && TermDocs(f, docs, tokens[k].text) == map[]
    ensures kids.Some? ==>
      AllReady(kids.value) && fresh(Footprint(kids.value)) && Dens(kids.value) == TokenDocs(f, docs, tokens)
  {
    hide TermDocs, ReadsField, SegmentReader.Valid;
    var all: seq<Iter> := [];
    ghost var owned: set<object> := {};
    for k := 0 to |tokens|
      invariant owned == Footprint(all) && AllReady(all) && fresh(owned) && Dens(all) == TokenDocs(f, docs, tokens[..k])
    {
      var it := TermIteratorFor(seg, i, tokens[k].text, f, docs);
      if it.None? { return None; }
      all := Append(all, it.value);
      owned := owned + it.value.Repr();
      assert tokens[..k + 1] == tokens[..k] + [tokens[k]];
    }
    assert tokens[..|tokens|] == tokens;
    return Some(all);
  }

  /** A term without a dictionary entry has no documents. */
  lemma {:induction false} NotIndexed(seg: SegmentReader, i: nat, f: FieldMapping, docs: seq<Document>, term: string)
    requires i < |seg.fields| && |docs| <= NO_MORE && ReadsField(seg, i, f, docs)
    requires forall k :: 0 <= k < |seg.fields[i].terms| ==> seg.fields[i].terms[k].term != term
    ensures TermDocs(f, docs, term) == map[]
  {
    assert !HasEntry(seg.fields[i].terms, term);
    ListStandsFor(f, docs, term);
    assert ListFor(f, docs, term) == [];
  }

  /** A conjunction of iterators; one alone is the conjunction itself. */
  method Conjoin(kids: seq<Iter>) returns (it: Iter)
    requires AllReady(kids) && forall k :: 0 <= k < |kids| ==> Bounded(kids[k].Den())
    modifies Footprint(kids)
    ensures Ready(it) && fresh(it.Repr() - Footprint(kids)) && it.Den() == Meet(Dens(kids))
  {
    if kids == [] {
      it := MakeAll(0);
    } else if |kids| == 1 {
      MeetOne(kids[0].Den());
      assert Dens(kids) == [kids[0].Den()];
      it := kids[0];
    } else {
      var c := new ConjunctionIterator(kids);
      it := And(c);
    }
  }

  method Disjoin(kids: seq<Iter>) returns (it: Iter)
    requires AllReady(kids) && forall k :: 0 <= k < |kids| ==> Bounded(kids[k].Den())
    ensures Ready(it) && fresh(it.Repr() - Footprint(kids)) && it.Den() == Join(Dens(kids))
  {
    if kids == [] {
      it := MakeAll(0);
    } else if |kids| == 1 {
      MeetOne(kids[0].Den());
      assert Dens(kids) == [kids[0].Den()];
      it := kids[0];
    } else {
      var c := new DisjunctionIterator(kids);
      it := Or(c);
    }
  }

  /** Build for a term query: every token of the analysed text. */
  method BuildTerm(field: string, text: string, seg: SegmentReader, schema: Schema, ghost docs: seq<Document>) returns (it: Iter)
    requires Reads(seg, schema, docs) && schema.Valid()
    ensures Ready(it) && fresh(it.Repr()) && it.Den() == Answer(Query.Term(field, text), schema, docs)
  {
    hide ReadsField, TermDocs, FieldId, Join;
    var fid := seg.GetFieldId(field);
    if fid.None? {
      NoSuchField(seg, schema, docs, field);
      it := MakeAll(0);
      return;
    }
    var i := fid.value;
    SameField(seg, schema, docs, field, i);
    var schemaId := FieldId(schema.Names(), field);
    var keyword := schemaId.Some? && schema.fields[schemaId.value].kind == FieldType.Keyword;
    var tokens := Analyze(if keyword then FieldType.Keyword else FieldType.Text, text);
    if tokens == [] {
      it := MakeAll(0);
      return;
    }
    var kids := TokenIterators(seg, i, tokens, schema.fields[i], docs);
    if kids.None? {
      NothingInCommon(schema.fields[i], docs, tokens);
      it := MakeAll(0);
      return;
    }
    forall k | 0 <= k < |kids.value| ensures Bounded(kids.value[k].Den()) {
      assert kids.value[k].Den() == Dens(kids.value)[k] == TermDocs(schema.fields[i], docs, tokens[k].text);
      TermDocsBounded(schema.fields[i], docs, tokens[k].text);
    }
    it := Conjoin(kids.value);
  }

  lemma {:induction false} NoSuchField(seg: SegmentReader, schema: Schema, docs: seq<Document>, field: string)
    requires Reads(seg, schema, docs) && forall k :: 0 <= k < |seg.fields| ==> seg.fields[k].stats.name != field
    ensures FieldId(schema.Names(), field) == None
  {
    forall k | 0 <= k < |schema.fields| ensures schema.Names()[k] != field {
      assert ReadsField(seg, k, schema.fields[k], docs);
    }
  }

  /** The segment and the schema number the fields alike. */
  lemma {:induction false} SameField(seg: SegmentReader, schema: Schema, docs: seq<Document>, field: string, i: nat)
    requires Reads(seg, schema, docs) && schema.Valid() && i < |seg.fields| && seg.fields[i].stats.name == field
    ensures FieldId(schema.Names(), field) == Some(i) && ReadsField(seg, i, schema.fields[i], docs)
  {
    assert ReadsField(seg, i, schema.fields[i], docs);
    assert schema.Names()[i] == field;
    forall k | 0 <= k < |schema.fields| && schema.Names()[k] == field ensures k == i {
      assert schema.fields[k].name == schema.fields[i].name;
    }
  }

  lemma {:induction false} NothingInCommon(f: FieldMapping, docs: seq<Document>, tokens: seq<Token>)
    requires exists k :: 0 <= k < |tokens| && TermDocs(f, docs, tokens[k].text) == map[]
    ensures Meet(TokenDocs(f, docs, tokens)) == map[]
  {
    var k :| 0 <= k < |tokens| && TermDocs(f, docs, tokens[k].text) == map[];
    assert TokenDocs(f, docs, tokens)[k] == map[];
  }

  /** Build: the tree stands for the answer to the query and has not moved. */
  method Build(q: Query, seg: SegmentReader, schema: Schema, ghost docs: seq<Document>) returns (it: Iter)
    requires Reads(seg, schema, docs) && schema.Valid()
    ensures Ready(it) && fresh(it.Repr()) && it.Den() == Answer(q, schema, docs)
    decreases q, 1
  {
    match q
    case MatchAll => it := MakeAll(seg.docCount);
    case Term(field, text) => it := BuildTerm(field, text, seg, schema, docs);
    case Conjunction(children) =>
      var kids := BuildAll(children, seg, schema, docs);
      AllBounded(kids, children, schema, docs);
      it := Conjoin(kids);
    case Disjunction(children) =>
      var kids := BuildAll(children, seg, schema, docs);
      AllBounded(kids, children, schema, docs);
      it := Disjoin(kids);
  }

  method BuildAll(children: seq<Query>, seg: SegmentReader, schema: Schema, ghost docs: seq<Document>) returns (kids: seq<Iter>)
    requires Reads(seg, schema, docs) && schema.Valid()
    ensures AllReady(kids) && fresh(Footprint(kids)) && Dens(kids) == Answers(children, schema, docs)
    decreases children, 0
  {
    hide Answer, Answers, Dens, Reads, Schema.Valid;
    AnswersPrefix(children, schema, docs, 0);
    kids := [];
    ghost var owned: set<object> := {};
    for k := 0 to |children|
      invariant owned == Footprint(kids) && AllReady(kids) && fresh(owned)
      invariant Dens(kids) == Answers(children, schema, docs)[..k]
    {
      var it := Build(children[k], seg, schema, docs);
      kids := Append(kids, it);
      owned := owned + it.Repr();
      AnswersPrefix(children, schema, docs, k + 1);
    }
  }

  lemma {:induction false} AnswersPrefix(children: seq<Query>, schema: Schema, docs: seq<Document>, k: nat)
    requires k <= |children|
    ensures |Answers(children, schema, docs)| == |children|
    ensures k == 0 ==> Dens([]) == Answers(children, schema, docs)[..k]
    ensures k > 0 ==>
      Answers(children, schema, docs)[..k] == Answers(children, schema, docs)[..k - 1] + [Answer(children[k - 1], schema, docs)]
    ensures k == |children| ==> Answers(children, schema, docs)[..k] == Answers(children, schema, docs)
  {
  }

  lemma {:induction false} AllBounded(kids: seq<Iter>, children: seq<Query>, schema: Schema, docs: seq<Document>)
    requires Dens(kids) == Answers(children, schema, docs)
    ensures forall k :: 0 <= k < |kids| ==> Bounded(kids[k].Den())
  {
    forall k | 0 <= k < |kids| ensures Bounded(kids[k].Den()) {
      assert kids[k].Den() == Dens(kids)[k] == Answer(children[k], schema, docs);
      AnswerBounded(children[k], schema, docs);
    }
  }
}
