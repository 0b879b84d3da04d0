/** Queries, and what they mean: which documents satisfy one, decided document
    by document. */
module Queries {
  import opened Base
  import opened Analyzer
  import opened DocSets
  import opened Documents
  import opened LeafIterators
  import opened MutableSegments
  import opened PostingFormat

  datatype Query =
    | MatchAll
    | Term(field: string, text: string)
    | Conjunction(children: seq<Query>)
    | Disjunction(children: seq<Query>)

  /** The document has every token of the text in the field, and there is at
      least one. */
  predicate HasTokens(schema: Schema, field: string, text: string, doc: Document)
  {
    match FieldId(schema.Names(), field)
    case None => false
    case Some(i) =>
      var f := schema.fields[i];
      var tokens := TokensOf(f.kind, text);
      tokens != [] && forall k :: 0 <= k < |tokens| ==> HasTerm(f, doc, tokens[k].text)
  }

  /** The document satisfies the query. */
  predicate Matches(q: Query, schema: Schema, doc: Document)
    decreases q
  {
    match q
    case MatchAll => true
    case Term(field, text) => HasTokens(schema, field, text, doc)
    case Conjunction(children) => children != [] && forall k :: 0 <= k < |children| ==> Matches(children[k], schema, doc)
    case Disjunction(children) => exists k :: 0 <= k < |children| && Matches(children[k], schema, doc)
  }

  // ----- the same as sets of documents with frequencies -----

  /** The documents with a term, and how often they have it. */
  ghost function TermDocs(f: FieldMapping, docs: seq<Document>, term: string): DocSet
  {
    map d: nat | d < |docs| && HasTerm(f, docs[d], term) :: PostingOf(f, docs[d], d, term).tf
  }

  ghost function TokenDocs(f: FieldMapping, docs: seq<Document>, tokens: seq<Token>): seq<DocSet>
  {
    seq(|tokens|, k requires 0 <= k < |tokens| => TermDocs(f, docs, tokens[k].text))
  }

  /** The answer to a query: meets and joins of the answers to its parts.  A
      document's frequency is the sum over the parts that it matches. */
  ghost function Answer(q: Query, schema: Schema, docs: seq<Document>): DocSet
    decreases q
  {
    match q
    case MatchAll => FirstDocs(|docs|)
    case Term(field, text) =>
      (match FieldId(schema.Names(), field)
       case None => map[]
       case Some(i) => Meet(TokenDocs(schema.fields[i], docs, TokensOf(schema.fields[i].kind, text))))
    case Conjunction(children) => Meet(Answers(children, schema, docs))
    case Disjunction(children) => Join(Answers(children, schema, docs))
  }

  ghost function Answers(children: seq<Query>, schema: Schema, docs: seq<Document>): (r: seq<DocSet>)
    ensures |r| == |children|
    ensures forall k :: 0 <= k < |children| ==> r[k] == Answer(children[k], schema, docs)
    decreases children
  {
    if children == [] then [] else [Answer(children[0], schema, docs)] + Answers(children[1..], schema, docs)
  }

  lemma {:induction false} TermAnswer(schema: Schema, field: string, text: string, docs: seq<Document>, d: nat)
    ensures d in Answer(Term(field, text), schema, docs) <==> d < |docs| && HasTokens(schema, field, text, docs[d])
  {
    var id := FieldId(schema.Names(), field);
    if id.Some? {
      var f := schema.fields[id.value];
      var tokens := TokensOf(f.kind, text);
      var dens := TokenDocs(f, docs, tokens);
      if d < |docs| && HasTokens(schema, field, text, docs[d]) {
        forall k | 0 <= k < |dens| ensures d in dens[k] { assert HasTerm(f, docs[d], tokens[k].text); }
      }
      if d in Meet(dens) {
        forall k | 0 <= k < |tokens| ensures d < |docs| && HasTerm(f, docs[d], tokens[k].text) { assert d in dens[k]; }
      }
    }
  }

  /** The answer holds exactly the documents that satisfy the query. */
  lemma {:induction false} AnswerMatches(q: Query, schema: Schema, docs: seq<Document>, d: nat)
    ensures d in Answer(q, schema, docs) <==> d < |docs| && Matches(q, schema, docs[d])
    decreases q
  {
    match q
    case MatchAll =>
    case Term(field, text) => TermAnswer(schema, field, text, docs, d);
    case Conjunction(children) =>
      var dens := Answers(children, schema, docs);
      forall k | 0 <= k < |children| ensures d in dens[k] <==> d < |docs| && Matches(children[k], schema, docs[d]) {
        AnswerMatches(children[k], schema, docs, d);
      }
      if d in Meet(dens) {
        assert d in dens[0];
      }
    case Disjunction(children) =>
      var dens := Answers(children, schema, docs);
      forall k | 0 <= k < |children| ensures d in dens[k] <==> d < |docs| && Matches(children[k], schema, docs[d]) {
        AnswerMatches(children[k], schema, docs, d);
      }
      if d in Join(dens) {
        var k := UnionFrom(dens, d);
      } else if d < |docs| {
        forall k | 0 <= k < |children| ensures !Matches(children[k], schema, docs[d]) {
          if d in dens[k] { UnionHas(dens, k, d); }
        }
      }
  }

  // ----- a single part stands for itself -----

  /** Frequencies are 32-bit numbers. */
  ghost predicate Bounded(den: DocSet)
  {
    forall d :: d in den ==> den[d] < U32
  }

  lemma {:induction false} MeetOne(den: DocSet)
    requires Bounded(den)
    ensures Meet([den]) == den && Join([den]) == den
  {
    assert [den][1..] == [];
    forall d | d in den ensures Total([den], d) == den[d] {}
    assert Union([den]) == den.Keys + Union([]);
  }

  lemma {:induction false} TermDocsBounded(f: FieldMapping, docs: seq<Document>, term: string)
    ensures Bounded(TermDocs(f, docs, term))
  {
    forall d | d in TermDocs(f, docs, term) ensures TermDocs(f, docs, term)[d] < U32 {
      var tokens := FieldTokens(f, docs[d]);
      TallyBounds(tokens, FieldWeights(f, docs[d]), term, |tokens|);
    }
  }

  lemma {:induction false} AnswerBounded(q: Query, schema: Schema, docs: seq<Document>)
    ensures Bounded(Answer(q, schema, docs))
  {
  }

  /** A posting list stands for the documents with the term. */
  lemma {:induction false} ListStandsFor(f: FieldMapping, docs: seq<Document>, term: string)
    requires |docs| <= NO_MORE
    ensures PostingFormat.Valid(EntriesOf(ListFor(f, docs, term)))
    ensures Frequencies(EntriesOf(ListFor(f, docs, term))) == TermDocs(f, docs, term)
  {
    ListIsValid(f, docs, term);
    var es := EntriesOf(ListFor(f, docs, term));
    forall d: nat ensures d in Frequencies(es) <==> d in TermDocs(f, docs, term)
                  ensures d in Frequencies(es) ==> Frequencies(es)[d] == TermDocs(f, docs, term)[d]
    {
      if d in Frequencies(es) {
        var i := FrequencyFrom(es, d);
        FrequencyAt(es, i);
        ListedHasTerm(f, docs, term, i);
      }
      if d < |docs| && HasTerm(f, docs[d], term) {
        var i := TermIsListed(f, docs, term, d);
        FrequencyAt(es, i);
      }
    }
  }

  // ----- the meaning of a term -----

  lemma {:induction false} OccursIs(tokens: seq<Token>, term: string)
    ensures Occurs(tokens, term, |tokens|) <==> exists k :: 0 <= k < |tokens| && tokens[k].text == term
  {
    if Occurs(tokens, term, |tokens|) { var k := LastOccurrence(tokens, term, |tokens|); }
    if k :| 0 <= k < |tokens| && tokens[k].text == term { OccursAt(tokens, term, |tokens|, k); }
  }

  /** What a document has in a field; nothing is the same as an empty text. */
  function ValueIn(name: string, doc: Document): string
  {
    if name == "_id" then doc.id else if name in doc.fields then doc.fields[name] else ""
  }

  lemma {:induction false} TermIsWord(f: FieldMapping, doc: Document, term: string)
    ensures f.kind == FieldType.Text ==> (HasTerm(f, doc, term) <==> HasWord(ValueIn(f.name, doc), term))
    ensures f.kind == FieldType.Keyword ==> (HasTerm(f, doc, term) <==> term != "" && ValueIn(f.name, doc) == term)
  {
    hide HasWord, Scan;
    OccursIs(FieldTokens(f, doc), term);
    var value := ValueIn(f.name, doc);
    if f.kind == FieldType.Text {
      TokensAreWords(value, term);
      NoTokens();
    } else {
      var tokens := KeywordTokens(value);
      assert tokens != [] ==> tokens[0].text == value;
    }
  }

  lemma {:induction false} NoTokens()
    ensures Scan("", 0, 0) == []
  {
  }

  lemma {:induction false} FieldIdOf(schema: Schema, i: nat)
    requires schema.Valid() && i < |schema.fields|
    ensures FieldId(schema.Names(), schema.fields[i].name) == Some(i)
  {
    var name := schema.fields[i].name;
    assert schema.Names()[i] == name;
    var k := FieldId(schema.Names(), name).value;
    assert schema.Names()[k] == schema.fields[k].name;
  }

  lemma {:induction false} TextMeans(f: FieldMapping, text: string, doc: Document)
    requires f.kind == FieldType.Text
    ensures var tokens := TokensOf(f.kind, text);
      (tokens != [] && forall k :: 0 <= k < |tokens| ==> HasTerm(f, doc, tokens[k].text)) <==>
      (exists w :: HasWord(text, w)) && forall w :: HasWord(text, w) ==> HasWord(ValueIn(f.name, doc), w)
  {
    hide HasWord, HasTerm, Scan, ValueIn;
    var tokens := TokensOf(f.kind, text);
    assert tokens == Scan(text, 0, 0);
    forall k | 0 <= k < |tokens|
      ensures HasWord(text, tokens[k].text) && (HasTerm(f, doc, tokens[k].text) <==> HasWord(ValueIn(f.name, doc), tokens[k].text))
    {
      assert Scan(text, 0, 0)[k].text == tokens[k].text;
      TokensAreWords(text, tokens[k].text);
      TermIsWord(f, doc, tokens[k].text);
    }
    forall w | HasWord(text, w) ensures exists k :: 0 <= k < |tokens| && tokens[k].text == w { TokensAreWords(text, w); }
    if tokens != [] { assert HasWord(text, tokens[0].text); }
  }

  /** Without reference to tokens: a term of a text field is satisfied when its
      text has a word and every word of it is a word of the document's text; a
      term of a keyword field, when it is not empty and the document has exactly
      this text; a term of an unknown field, never. */
  lemma {:induction false} TermMeans(schema: Schema, i: nat, text: string, doc: Document)
    requires schema.Valid() && i < |schema.fields|
    ensures var f := schema.fields[i];
      var value := ValueIn(f.name, doc);
      && (f.kind == FieldType.Text ==>
            (Matches(Term(f.name, text), schema, doc) <==>
               (exists w :: HasWord(text, w)) && forall w :: HasWord(text, w) ==> HasWord(value, w)))
      && (f.kind == FieldType.Keyword ==> (Matches(Term(f.name, text), schema, doc) <==> text != "" && value == text))
    ensures forall name :: (forall k :: 0 <= k < |schema.fields| ==> schema.fields[k].name != name) ==>
      !Matches(Term(name, text), schema, doc)
  {
    hide HasWord, HasTerm, Scan, ValueIn, Schema.Valid;
    var f := schema.fields[i];
    FieldIdOf(schema, i);
    if f.kind == FieldType.Text {
      TextMeans(f, text, doc);
    } else {
      TermIsWord(f, doc, text);
      KeywordToken(text);
    }
    forall name | forall k :: 0 <= k < |schema.fields| ==> schema.fields[k].name != name
      ensures !Matches(Term(name, text), schema, doc)
    {
      UnknownField(schema, name);
    }
  }

  lemma {:induction false} KeywordToken(text: string)
    ensures text != "" ==> |TokensOf(FieldType.Keyword, text)| == 1 && TokensOf(FieldType.Keyword, text)[0].text == text
    ensures text == "" ==> TokensOf(FieldType.Keyword, text) == []
  {
  }

  lemma {:induction false} UnknownField(schema: Schema, name: string)
    requires forall k :: 0 <= k < |schema.fields| ==> schema.fields[k].name != name
    ensures FieldId(schema.Names(), name) == None
  {
  }

  // ----- letter case -----

  /** Texts that an analyzer takes for the same: up to letter case in a text
      field, exactly in a keyword field. */
  predicate SameText(kind: FieldType, a: string, b: string)
  {
    if kind == FieldType.Text then SameButCase(a, b) else a == b
  }

  /** Documents that agree in every field of the schema up to that. */
  predicate SameFields(schema: Schema, a: Document, b: Document)
  {
    forall i :: 0 <= i < |schema.fields| ==>
      var f := schema.fields[i];
      var x, y := FieldText(f, a), FieldText(f, b);
      x.Some? == y.Some? && (x.Some? ==> SameText(f.kind, x.value, y.value))
  }

  predicate SameQuery(q: Query, r: Query, schema: Schema)
    decreases q
  {
    match q
    case MatchAll => r == MatchAll
    case Term(field, text) =>
      r.Term? && r.field == field
      && var id := FieldId(schema.Names(), field); id.Some? ==> SameText(schema.fields[id.value].kind, text, r.text)
    case Conjunction(children) =>
      r.Conjunction? && |r.children| == |children|
      && forall k :: 0 <= k < |children| ==> SameQuery(children[k], r.children[k], schema)
    case Disjunction(children) =>
      r.Disjunction? && |r.children| == |children|
      && forall k :: 0 <= k < |children| ==> SameQuery(children[k], r.children[k], schema)
  }

  lemma {:induction false} SameTokens(kind: FieldType, a: string, b: string)
    requires SameText(kind, a, b)
    ensures TokensOf(kind, a) == TokensOf(kind, b)
  {
    if kind == FieldType.Text { CaseDoesNotMatter(a, b, 0, 0); }
  }

  lemma {:induction false} SameTerm(schema: Schema, a: Document, b: Document, i: nat, term: string)
    requires SameFields(schema, a, b) && i < |schema.fields|
    ensures HasTerm(schema.fields[i], a, term) == HasTerm(schema.fields[i], b, term)
  {
    var f := schema.fields[i];
    var x, y := FieldText(f, a), FieldText(f, b);
    if x.Some? { SameTokens(f.kind, x.value, y.value); }
  }

  /** Letter case in text fields, of the query or of the document, does not
      change whether a document satisfies a query. */
  lemma {:induction false} CaseDoesNotMatterToMatching(q: Query, r: Query, schema: Schema, a: Document, b: Document)
    requires SameQuery(q, r, schema) && SameFields(schema, a, b)
    ensures Matches(q, schema, a) == Matches(r, schema, b)
    decreases q
  {
    match q
    case MatchAll =>
    case Term(field, text) =>
      var id := FieldId(schema.Names(), field);
      if id.Some? {
        hide HasTerm, SameFields;
        var f := schema.fields[id.value];
        SameTokens(f.kind, text, r.text);
        var tokens := TokensOf(f.kind, text);
        forall k | 0 <= k < |tokens| ensures HasTerm(f, a, tokens[k].text) == HasTerm(f, b, tokens[k].text) {
          SameTerm(schema, a, b, id.value, tokens[k].text);
        }
      }
    case Conjunction(children) =>
      forall k | 0 <= k < |children| ensures Matches(children[k], schema, a) == Matches(r.children[k], schema, b) {
        CaseDoesNotMatterToMatching(children[k], r.children[k], schema, a, b);
      }
    case Disjunction(children) =>
      forall k | 0 <= k < |children| ensures Matches(children[k], schema, a) == Matches(r.children[k], schema, b) {
        CaseDoesNotMatterToMatching(children[k], r.children[k], schema, a, b);
      }
  }
}
