/** The first pass builds every iterator as if its field stored no payload:
    exactly for which fields it still reads the right frequencies. */
module FirstPassExact {
  import opened Base
  import opened Analyzer
  import opened Documents
  import opened LeafIterators
  import opened MutableSegments
  import opened PostingFormat
  import opened Scoring
  import opened SegmentWriter
  import LittleEndian
  import TokenWeight
  import VarByte

  /** The documents of a segment, all with an identifier. */
  ghost predicate Identified(docs: seq<Document>)
  {
    |docs| <= NO_MORE && forall d :: 0 <= d < |docs| ==> docs[d].id != ""
  }

  /** A document whose text in the field is the single token x. */
  function Single(field: string): Document
  {
    Document("x", if field == ID_FIELD then map[] else map[field := "x"], map[], None)
  }

  lemma {:induction false} SingleToken(kind: FieldType)
    ensures TokensOf(kind, "x") == [Token("x", 0, 0, 1)]
  {
    assert RunEnd("x", 0) == 1 && "x"[0..1] == "x" && Analyzer.Lower("x") == "x" && Scan("x", 1, 1) == [];
    assert "x" !in STOP_WORDS;
  }

  lemma {:induction false} SinglePosting(f: FieldMapping, id: nat)
    ensures HasTerm(f, Single(f.name), "x") && PostingOf(f, Single(f.name), id, "x") == Posting(id, 1, 0, 1.0)
  {
    SingleToken(f.kind);
    var doc := Single(f.name);
    assert FieldText(f, doc) == Some("x");
    var tokens, weights := FieldTokens(f, doc), FieldWeights(f, doc);
    assert weights == None;
    assert TallyOf(tokens, weights, "x", 0) == Tally(0, 0, 0.0);
    assert TallyOf(tokens, weights, "x", 1) == Bumped(Tally(0, 0, 0.0), weights, 0);
  }

  lemma {:induction false} SingleList(f: FieldMapping)
    ensures EntriesOf(ListFor(f, [Single(f.name), Single(f.name)], "x")) == [Entry(0, 1, 0, 32), Entry(1, 1, 0, 32)]
  {
    hide HasTerm, PostingOf, Single;
    var doc := Single(f.name);
    SinglePosting(f, 0);
    SinglePosting(f, 1);
    assert [doc, doc][..1] == [doc] && [doc][..0] == [];
    assert ListFor(f, [], "x") == [];
    assert ListFor(f, [doc], "x") == [Posting(0, 1, 0, 1.0)];
    assert ListFor(f, [doc, doc], "x") == [Posting(0, 1, 0, 1.0), Posting(1, 1, 0, 1.0)];
    assert TokenWeight.Quantize(1.0) == 32;
  }

  function PayloadBytes(layout: Layout): string
  {
    (if layout.hasPositions then [0 as char, 0 as char] else "") + (if layout.hasTokenWeights then [32 as char] else "")
  }

  /** The bytes of that list. */
  function Bytes(layout: Layout): string
  {
    [2 as char] + (([0 as char, 1 as char] + PayloadBytes(layout)) + ([1 as char, 1 as char] + PayloadBytes(layout)))
  }

  lemma {:induction false} SingleBytes(layout: Layout)
    ensures var es := [Entry(0, 1, 0, 32), Entry(1, 1, 0, 32)]; PostingFormat.Valid(es) && List(es, layout) == Bytes(layout)
  {
    var a, b := Entry(0, 1, 0, 32), Entry(1, 1, 0, 32);
    var es := [a, b];
    assert es[1..] == [b] && [b][1..] == [];
    assert LittleEndian.Word(0, 1) == [0 as char] && LittleEndian.Word(0, 2) == [0 as char, 0 as char];
    assert Payload(a, layout) == PayloadBytes(layout) && Payload(b, layout) == PayloadBytes(layout);
    assert EntryBytes(a, 0, layout) == [0 as char, 1 as char] + PayloadBytes(layout);
    assert EntryBytes(b, 0, layout) == [1 as char, 1 as char] + PayloadBytes(layout);
    assert Entries([b], 0, layout) == EntryBytes(b, 0, layout);
    assert Entries(es, 0, layout) == EntryBytes(a, 0, layout) + Entries([b], 0, layout);
  }

  lemma {:induction false} OneByte(s: string, pos: nat)
    requires pos < |s| && s[pos] as int < 128
    ensures VarByte.DecodeSpec(s, pos, |s|, VarByte.W32) == VarByte.Decoded(Some(s[pos] as int), pos + 1)
  {
  }

  /** Two bytes read as an entry without payload. */
  lemma {:induction false} TwoBytes(s: string, c: Cursor)
    requires c.pos + 1 < |s| && s[c.pos] as int < 128 && s[c.pos + 1] as int < 128 && c.remaining > 0 && c.prev == 0
    ensures var d, n := s[c.pos] as int, NextState(s, Layout(false, false), c);
      n.pos == c.pos + 2 && n.remaining == c.remaining - 1 && n.current == n.prev == d && n.started
  {
    hide VarByte.DecodeSpec;
    OneByte(s, c.pos);
    OneByte(s, c.pos + 1);
  }

  /** Read without its payload, the list does not have document 1: the payload of
      document 0 is taken for the next entry. */
  lemma {:induction false} PayloadMisread(layout: Layout)
    requires layout != Layout(false, false)
    ensures AdvanceState(Bytes(layout), Layout(false, false), StartState(Bytes(layout)), 1).current != 1
  {
    hide NextState;
    var s, plain := Bytes(layout), Layout(false, false);
    assert s[0] == 2 as char && s[1] == 0 as char && s[2] == 1 as char;
    assert s[3] as int == (if layout.hasPositions then 0 else 32) && s[4] as int == (if layout.hasPositions then 0 else 1);
    OneByte(s, 0);
    var c := StartState(s);
    TwoBytes(s, c);
    var c1 := NextState(s, plain, c);
    TwoBytes(s, c1);
    var c2 := NextState(s, plain, c1);
    AdvanceStep(s, plain, c, 1);
    AdvanceStep(s, plain, c1, 1);
    AdvanceStep(s, plain, c2, 1);
    assert c2.remaining == 0;
    Exhausted(s, plain, c2);
  }

  lemma {:induction false} Exhausted(s: string, layout: Layout, c: Cursor)
    requires c.pos <= |s| && c.remaining == 0
    ensures NextState(s, layout, c).current == NO_MORE
  {
  }

  /** An instance for every field that stores a payload: in a segment of two
      documents with the term x, the first pass misses it in the second one. */
  lemma {:induction false} TermMissed(schema: Schema, field: string)
    requires !PlainField(schema, field)
    ensures var docs, l := [Single(field), Single(field)], Leaf(field, "x");
      FirstPassTf(l, schema, docs, 1) == None && TrueTf(l, schema, docs[1]) == Some(1)
  {
    hide AdvanceState, StartState, List, HasTerm, PostingOf;
    var f := schema.fields[FieldId(schema.Names(), field).value];
    assert f.name == field;
    SinglePosting(f, 0);
    SingleList(f);
    SingleBytes(LayoutOf(f));
    PayloadMisread(LayoutOf(f));
  }

  /** The exact condition: the first pass takes the right frequency of every term
      in every document of every segment, if and only if the field stores neither
      positions nor weights (or is not in the schema). */
  lemma {:induction false} FirstPassExactly(schema: Schema, field: string)
    ensures PlainField(schema, field) <==>
      forall docs: seq<Document>, d: nat, term: string :: Identified(docs) && d < |docs| ==>
        FirstPassTf(Leaf(field, term), schema, docs, d) == TrueTf(Leaf(field, term), schema, docs[d])
  {
    hide PlainField, FirstPassTf, TrueTf;
    if PlainField(schema, field) {
      forall docs: seq<Document>, d: nat, term: string | Identified(docs) && d < |docs|
        ensures FirstPassTf(Leaf(field, term), schema, docs, d) == TrueTf(Leaf(field, term), schema, docs[d])
      {
        PlainIsTrue(Leaf(field, term), schema, docs, d);
      }
    } else {
      TermMissed(schema, field);
      assert Identified([Single(field), Single(field)]);
    }
  }
}
