/** How large the files of a segment can become: documents of a modest size
    never exceed the widths of the format. */
module SegmentSizes {
  import opened Base
  import opened Analyzer
  import opened Documents
  import opened MutableSegments
  import opened PostingFormat
  import opened SegmentFormat
  import opened SegmentWriter
  import opened SealedSegments
  import Json
  import LittleEndian
  import VarByte

  /** The bytes of a document's field that is indexed. */
  function TextSize(f: FieldMapping, doc: Document): nat
  {
    match FieldText(f, doc)
    case None => 0
    case Some(text) => |text|
  }

  /** The size of a document: its identifier, and the names and texts of its
      fields. */
  function Volume(fields: seq<FieldMapping>, doc: Document): nat
  {
    if fields == [] then |doc.id| else |fields[0].name| + TextSize(fields[0], doc) + 1 + Volume(fields[1..], doc)
  }

  const VOLUME_LIMIT: nat := 0x400_0000

  /** Every document is smaller than 64 MiB and every field name shorter than
      4 GiB. */
  predicate Modest(schema: Schema, docs: seq<Document>)
  {
    && (forall i :: 0 <= i < |schema.fields| ==> |schema.fields[i].name| < U32)
    && (forall d :: 0 <= d < |docs| ==> Volume(schema.fields, docs[d]) < VOLUME_LIMIT)
  }

  // ----- tokens -----

  function TokenMass(tokens: seq<Token>, n: nat, w: string -> nat): nat
    requires n <= |tokens|
  {
    if n == 0 then 0 else TokenMass(tokens, n - 1, w) + w(tokens[n - 1].text)
  }

  /** The terms that occur among the first n tokens. */
  function OccurMass(tokens: seq<Token>, terms: seq<string>, n: nat, w: string -> nat): nat
    requires n <= |tokens|
  {
    if terms == [] then 0
    else (if Occurs(tokens, terms[0], n) then w(terms[0]) else 0) + OccurMass(tokens, terms[1..], n, w)
  }

  lemma {:induction false} NothingOccurs(tokens: seq<Token>, terms: seq<string>, w: string -> nat)
    ensures OccurMass(tokens, terms, 0, w) == 0
  {
    if terms != [] { NothingOccurs(tokens, terms[1..], w); }
  }

  lemma {:induction false} OccurStep(tokens: seq<Token>, terms: seq<string>, n: nat, w: string -> nat)
    requires n < |tokens| && Distinct(terms)
    ensures OccurMass(tokens, terms, n + 1, w)
         <= OccurMass(tokens, terms, n, w) + if tokens[n].text in terms then w(tokens[n].text) else 0
  {
    if terms != [] { OccurStep(tokens, terms[1..], n, w); }
  }

  /** Different terms use different tokens. */
  lemma {:induction false} OccurWithin(tokens: seq<Token>, terms: seq<string>, n: nat, w: string -> nat)
    requires n <= |tokens| && Distinct(terms)
    ensures OccurMass(tokens, terms, n, w) <= TokenMass(tokens, n, w)
  {
    if n == 0 {
      NothingOccurs(tokens, terms, w);
    } else {
      OccurWithin(tokens, terms, n - 1, w);
      OccurStep(tokens, terms, n - 1, w);
    }
  }

  /** What a term costs at most beside its postings: its text and four numbers. */
  function EntryCost(term: string): nat { |term| + 40 }

  function One(term: string): nat { 1 }

  lemma {:induction false} MassSnoc(tokens: seq<Token>, t: Token, n: nat, w: string -> nat)
    requires n <= |tokens|
    ensures TokenMass([t] + tokens, n + 1, w) == w(t.text) + TokenMass(tokens, n, w)
  {
    if n > 0 { MassSnoc(tokens, t, n - 1, w); }
  }

  /** Tokens are disjoint pieces of the text. */
  lemma {:induction false} ScanMass(s: string, i: nat, position: nat)
    requires i <= |s|
    ensures var tokens := Scan(s, i, position);
      |tokens| <= |s| - i && TokenMass(tokens, |tokens|, EntryCost) <= 41 * (|s| - i)
    decreases |s| - i
  {
    if i < |s| {
      if !IsTokenChar(s[i]) {
        ScanMass(s, i + 1, position);
      } else {
        var end := RunEnd(s, i);
        ScanMass(s, end, position + 1);
        var rest := Scan(s, end, position + 1);
        var t := Token(Analyzer.Lower(s[i..end]), position, i, end);
        MassSnoc(rest, t, |rest|, EntryCost);
      }
    }
  }

  lemma {:induction false} FieldMass(f: FieldMapping, doc: Document)
    ensures var tokens := FieldTokens(f, doc);
      |tokens| <= TextSize(f, doc) && TokenMass(tokens, |tokens|, EntryCost) <= 41 * TextSize(f, doc)
  {
    var text := FieldText(f, doc);
    if text.Some? {
      if f.kind == FieldType.Text {
        ScanMass(text.value, 0, 0);
      } else {
        var tokens := KeywordTokens(text.value);
        if tokens != [] { assert TokenMass(tokens, 1, EntryCost) == TokenMass(tokens, 0, EntryCost) + |text.value| + 40; }
      }
    }
  }

  lemma {:induction false} CountMass(tokens: seq<Token>, n: nat)
    requires n <= |tokens|
    ensures TokenMass(tokens, n, One) == n
  {
    if n > 0 { CountMass(tokens, n - 1); }
  }

  // ----- the terms of a field over all documents -----

  /** All text of a field. */
  function FieldSize(f: FieldMapping, docs: seq<Document>): nat
  {
    if docs == [] then 0 else FieldSize(f, docs[..|docs| - 1]) + TextSize(f, docs[|docs| - 1])
  }

  /** The postings of the terms. */
  function ListMass(f: FieldMapping, docs: seq<Document>, terms: seq<string>): nat
  {
    if terms == [] then 0 else |ListFor(f, docs, terms[0])| + ListMass(f, docs, terms[1..])
  }

  /** What the terms cost that some document has. */
  function TermMass(f: FieldMapping, docs: seq<Document>, terms: seq<string>): nat
  {
    if terms == [] then 0
    else (if ListFor(f, docs, terms[0]) == [] then 0 else EntryCost(terms[0])) + TermMass(f, docs, terms[1..])
  }

  lemma {:induction false} MassesNext(f: FieldMapping, docs: seq<Document>, doc: Document, terms: seq<string>)
    ensures var tokens := FieldTokens(f, doc);
      && ListMass(f, docs + [doc], terms) == ListMass(f, docs, terms) + OccurMass(tokens, terms, |tokens|, One)
      && TermMass(f, docs + [doc], terms) <= TermMass(f, docs, terms) + OccurMass(tokens, terms, |tokens|, EntryCost)
  {
    hide ListFor, PostingOf;
    if terms != [] {
      ListNext(f, docs, doc, terms[0]);
      MassesNext(f, docs, doc, terms[1..]);
    }
  }

  lemma {:induction false} NoMass(f: FieldMapping, terms: seq<string>)
    ensures ListMass(f, [], terms) == 0 && TermMass(f, [], terms) == 0
  {
    if terms != [] { NoMass(f, terms[1..]); }
  }

  /** Both are bounded by the text of the field. */
  lemma {:induction false} MassesWithin(f: FieldMapping, docs: seq<Document>, terms: seq<string>)
    requires Distinct(terms)
    ensures ListMass(f, docs, terms) <= FieldSize(f, docs) && TermMass(f, docs, terms) <= 41 * FieldSize(f, docs)
  {
    hide ListMass, TermMass, TokenMass, OccurMass, TextSize, FieldTokens, Distinct;
    if docs == [] {
      NoMass(f, terms);
    } else {
      var n := |docs| - 1;
      var rest, doc := docs[..n], docs[n];
      assert docs == rest + [doc];
      MassesWithin(f, rest, terms);
      MassesNext(f, rest, doc, terms);
      var tokens := FieldTokens(f, doc);
      OccurWithin(tokens, terms, |tokens|, One);
      OccurWithin(tokens, terms, |tokens|, EntryCost);
      CountMass(tokens, |tokens|);
      FieldMass(f, doc);
    }
  }

  // ----- bytes -----

  lemma {:induction false} PayloadSize(e: Entry, layout: Layout)
    requires e.quantised < 256
    ensures |Payload(e, layout)| <= 3
  {
  }

  lemma {:induction false} EntriesSize(es: seq<Entry>, prev: nat, layout: Layout)
    requires Ascends(es, prev)
    ensures |Entries(es, prev, layout)| <= 13 * |es|
  {
    hide VarByte.Encoding, Payload;
    if es != [] {
      PostingFormat.Lower(es[1..], es[0].doc + 1, es[0].doc);
      EntriesSize(es[1..], es[0].doc, layout);
      VarByte.LengthLimits(es[0].doc - prev);
      VarByte.LengthLimits(es[0].tf);
      PayloadSize(es[0], layout);
    }
  }

  lemma {:induction false} ListSize(es: seq<Entry>, layout: Layout)
    requires PostingFormat.Valid(es)
    ensures |List(es, layout)| <= 5 + 13 * |es|
  {
    CountFits(es);
    VarByte.LengthLimits(|es|);
    EntriesSize(es, 0, layout);
  }

  ghost predicate AllRepresent(terms: seq<TermRecord>, f: FieldMapping, docs: seq<Document>)
    requires |docs| <= NO_MORE
  {
    forall k :: 0 <= k < |terms| ==> TermRepresents(terms[k], f, docs)
  }

  lemma {:induction false} NamesTail(terms: seq<TermRecord>)
    requires terms != []
    ensures TermNames(terms)[0] == terms[0].term && TermNames(terms)[1..] == TermNames(terms[1..])
  {
  }

  lemma {:induction false} TailRepresents(terms: seq<TermRecord>, f: FieldMapping, docs: seq<Document>)
    requires |docs| <= NO_MORE && AllRepresent(terms, f, docs) && terms != []
    ensures TermRepresents(terms[0], f, docs) && AllRepresent(terms[1..], f, docs)
  {
    hide TermRepresents;
    forall k | 0 <= k < |terms[1..]| ensures TermRepresents(terms[1..][k], f, docs) { assert terms[1..][k] == terms[k + 1]; }
  }

  lemma {:induction false} ListsSize(terms: seq<TermRecord>, f: FieldMapping, docs: seq<Document>)
    requires |docs| <= NO_MORE && AllRepresent(terms, f, docs)
    ensures |Lists(terms)| <= 18 * ListMass(f, docs, TermNames(terms))
  {
    hide ListFor, List, EntriesOf;
    if terms != [] {
      NamesTail(terms);
      TailRepresents(terms, f, docs);
      ListsSize(terms[1..], f, docs);
      TermSize(terms[0], f, docs);
    }
  }

  lemma {:induction false} TermSize(t: TermRecord, f: FieldMapping, docs: seq<Document>)
    requires |docs| <= NO_MORE && TermRepresents(t, f, docs)
    ensures ListFor(f, docs, t.term) != [] && |t.list| <= 18 * |ListFor(f, docs, t.term)|
  {
    hide ListFor, List;
    ListIsValid(f, docs, t.term);
    ListSize(EntriesOf(ListFor(f, docs, t.term)), LayoutOf(f));
  }

  lemma {:induction false} StrSize(s: string)
    ensures |Str(s)| <= |s| + 5
  {
    VarByte.LengthLimits(Mod32(|s|));
  }

  lemma {:induction false} TermBytesSize(t: TermRecord, offset: nat)
    requires t.df < U32 && t.totalTf < U64 && offset < U64 && |t.list| < U64
    ensures |TermBytes(t, offset)| <= EntryCost(t.term)
  {
    hide VarByte.Encoding, Str;
    StrSize(t.term);
    VarByte.LengthLimits(t.df);
    VarByte.LengthLimits(t.totalTf);
    VarByte.LengthLimits(offset);
    VarByte.LengthLimits(|t.list|);
  }

  lemma {:induction false} RecordBytesSize(t: TermRecord, offset: nat, f: FieldMapping, docs: seq<Document>)
    requires |docs| <= NO_MORE && TermRepresents(t, f, docs) && offset + |t.list| < U64
    ensures ListFor(f, docs, t.term) != [] && |TermBytes(t, offset)| <= EntryCost(t.term)
  {
    hide ListFor, List, EntriesOf, TermBytes;
    ListFits(f, docs, t.term);
    TermBytesSize(t, offset);
  }

  lemma {:induction false} DictionarySize(terms: seq<TermRecord>, offset: nat, f: FieldMapping, docs: seq<Document>)
    requires |docs| <= NO_MORE && AllRepresent(terms, f, docs) && offset + |Lists(terms)| < U64
    ensures |Dictionary(terms, offset)| <= TermMass(f, docs, TermNames(terms))
  {
    hide ListFor, TermRepresents, TermBytes, EntryCost, TermNames, AllRepresent;
    if terms != [] {
      NamesTail(terms);
      TailRepresents(terms, f, docs);
      DictionarySize(terms[1..], offset + |terms[0].list|, f, docs);
      RecordBytesSize(terms[0], offset, f, docs);
      NonEmptyNames(terms);
    }
  }

  lemma {:induction false} NonEmptyNames(terms: seq<TermRecord>)
    ensures |TermNames(terms)| == |terms|
  {
  }

  lemma {:induction false} NamesDistinct(terms: seq<TermRecord>)
    requires InOrder(terms)
    ensures Distinct(TermNames(terms))
  {
    if terms != [] {
      NamesTail(terms);
      forall i, j | 0 <= i < j < |terms[1..]| ensures Less(terms[1..][i].term, terms[1..][j].term) {
        assert Less(terms[i + 1].term, terms[j + 1].term);
      }
      NamesDistinct(terms[1..]);
      LessIrreflexive(terms[0].term);
      forall k | 0 <= k < |terms[1..]| ensures TermNames(terms[1..])[k] != terms[0].term { assert Less(terms[0].term, terms[k + 1].term); }
    }
  }

  /** The files of one field. */
  lemma {:induction false} FieldFiles(r: FieldRecord, f: FieldMapping, docs: seq<Document>)
    requires |docs| <= NO_MORE && FieldRepresents(r, f, docs) && 41 * FieldSize(f, docs) < U64
    ensures |Lists(r.terms)| <= 18 * FieldSize(f, docs) && |Dictionary(r.terms, 0)| <= 41 * FieldSize(f, docs)
    ensures |r.terms| <= FieldSize(f, docs)
  {
    hide ListFor, Lists, Dictionary, TermMass, ListMass, FieldSize, TermRepresents, InOrder;
    NamesDistinct(r.terms);
    MassesWithin(f, docs, TermNames(r.terms));
    ListsSize(r.terms, f, docs);
    DictionarySize(r.terms, 0, f, docs);
    TermCount(r.terms, f, docs);
  }

  lemma {:induction false} TermCount(terms: seq<TermRecord>, f: FieldMapping, docs: seq<Document>)
    requires |docs| <= NO_MORE && AllRepresent(terms, f, docs)
    ensures |terms| <= ListMass(f, docs, TermNames(terms))
  {
    hide ListFor, List, EntriesOf;
    if terms != [] {
      NamesTail(terms);
      TailRepresents(terms, f, docs);
      TermCount(terms[1..], f, docs);
    }
  }

  lemma {:induction false} TokenInMass(tokens: seq<Token>, i: nat, n: nat, w: string -> nat)
    requires i < n <= |tokens|
    ensures w(tokens[i].text) <= TokenMass(tokens, n, w)
  {
    if i < n - 1 { TokenInMass(tokens, i, n - 1, w); }
  }

  /** A listed term is a token of some document. */
  lemma {:induction false} TermLength(f: FieldMapping, docs: seq<Document>, term: string)
    requires ListFor(f, docs, term) != [] && forall d :: 0 <= d < |docs| ==> TextSize(f, docs[d]) < VOLUME_LIMIT
    ensures |term| < U32
  {
    ListedHasTerm(f, docs, term, 0);
    var doc := docs[ListFor(f, docs, term)[0].doc];
    var tokens := FieldTokens(f, doc);
    var i := LastOccurrence(tokens, term, |tokens|);
    TokenInMass(tokens, i, |tokens|, EntryCost);
    FieldMass(f, doc);
  }

  // ----- all fields -----

  function TextTotal(fields: seq<FieldMapping>, docs: seq<Document>): nat
  {
    if fields == [] then 0 else FieldSize(fields[0], docs) + TextTotal(fields[1..], docs)
  }

  lemma {:induction false} TextTotalNext(fields: seq<FieldMapping>, docs: seq<Document>)
    requires docs != []
    ensures TextTotal(fields, docs) <= TextTotal(fields, docs[..|docs| - 1]) + Volume(fields, docs[|docs| - 1])
  {
    if fields != [] { TextTotalNext(fields[1..], docs); }
  }

  lemma {:induction false} NoText(fields: seq<FieldMapping>)
    ensures TextTotal(fields, []) == 0
  {
    if fields != [] { NoText(fields[1..]); }
  }

  lemma {:induction false} TextWithin(fields: seq<FieldMapping>, docs: seq<Document>)
    requires forall d :: 0 <= d < |docs| ==> Volume(fields, docs[d]) < VOLUME_LIMIT
    ensures TextTotal(fields, docs) <= |docs| * VOLUME_LIMIT
  {
    if docs == [] {
      NoText(fields);
    } else {
      hide Volume;
      TextWithin(fields, docs[..|docs| - 1]);
      TextTotalNext(fields, docs);
    }
  }

  lemma {:induction false} TextInVolume(fields: seq<FieldMapping>, doc: Document, i: nat)
    requires i < |fields|
    ensures TextSize(fields[i], doc) <= Volume(fields, doc)
  {
    if i > 0 { TextInVolume(fields[1..], doc, i - 1); }
  }

  ghost predicate Matching(rs: seq<FieldRecord>, fields: seq<FieldMapping>, docs: seq<Document>)
    requires |docs| <= NO_MORE
  {
    |rs| == |fields| && forall i :: 0 <= i < |rs| ==> FieldRepresents(rs[i], fields[i], docs)
  }

  /** The .tim and the .doc file. */
  lemma {:induction false} FilesSize(rs: seq<FieldRecord>, fields: seq<FieldMapping>, docs: seq<Document>)
    requires |docs| <= NO_MORE && Matching(rs, fields, docs) && 41 * TextTotal(fields, docs) < U64
    ensures |Dictionaries(rs)| <= 41 * TextTotal(fields, docs) && |Postings(rs)| <= 18 * TextTotal(fields, docs)
    ensures forall i :: 0 <= i < |rs| ==> |rs[i].terms| < U64
  {
    hide FieldRepresents, Lists, Dictionary, FieldSize;
    if rs != [] {
      FieldFiles(rs[0], fields[0], docs);
      assert Matching(rs[1..], fields[1..], docs) by {
        forall i | 0 <= i < |rs[1..]| ensures FieldRepresents(rs[1..][i], fields[1..][i], docs) {
          assert rs[1..][i] == rs[i + 1] && fields[1..][i] == fields[i + 1];
        }
      }
      FilesSize(rs[1..], fields[1..], docs);
      forall i | 0 <= i < |rs| ensures |rs[i].terms| < U64 { assert i > 0 ==> rs[i] == rs[1..][i - 1]; }
    }
  }

  // ----- stored fields -----

  /** The text of a member, with every byte escaped at full length. */
  function MemberCost(m: Json.Member): nat
  {
    6 * (|m.key| + if m.value.Str? then |m.value.s| else 0) + 6
  }

  function MembersCost(o: seq<Json.Member>): nat
  {
    if o == [] then 0 else MemberCost(o[0]) + MembersCost(o[1..])
  }

  lemma {:induction false} InsertCost(o: seq<Json.Member>, key: string, value: Json.Value)
    ensures MembersCost(Json.Insert(o, key, value)) <= MembersCost(o) + MemberCost(Json.Member(key, value))
  {
    if o != [] && key != o[0].key && !Less(key, o[0].key) {
      InsertCost(o[1..], key, value);
      var rest := Json.Insert(o[1..], key, value);
      assert ([o[0]] + rest)[1..] == rest;
    } else if o != [] && key == o[0].key {
      assert ([Json.Member(key, value)] + o[1..])[1..] == o[1..];
    } else {
      assert ([Json.Member(key, value)] + o)[1..] == o;
    }
  }

  lemma {:induction false} EscapeSize(s: string)
    ensures |Json.EscapeAll(s)| <= 6 * |s|
  {
    if s != "" { EscapeSize(s[1..]); }
  }

  lemma {:induction false} MembersSize(o: seq<Json.Member>)
    requires forall k :: 0 <= k < |o| ==> o[k].value.Str?
    ensures |Json.MemberTexts(o, 1, 0)| <= MembersCost(o)
  {
    hide Json.EscapeAll;
    if o != [] {
      EscapeSize(o[0].key);
      EscapeSize(o[0].value.s);
      assert |Json.MemberText(o[0], 1, 0)| <= MemberCost(o[0]) - 1;
      MembersSize(o[1..]);
    }
  }

  lemma {:induction false} VolumeSnoc(fields: seq<FieldMapping>, doc: Document)
    requires fields != []
    ensures var n := |fields| - 1;
      Volume(fields, doc) == Volume(fields[..n], doc) + |fields[n].name| + TextSize(fields[n], doc) + 1
  {
    var n := |fields| - 1;
    if n > 0 {
      VolumeSnoc(fields[1..], doc);
      assert fields[1..][..n - 1] == fields[..n][1..];
    }
  }

  lemma {:induction false} StoredCost(fields: seq<FieldMapping>, doc: Document)
    ensures MembersCost(Stored(fields, doc)) <= 6 * Volume(fields, doc) + 24
  {
    hide Volume;
    if fields == [] {
      var m := Json.Member(ID_FIELD, Json.Str(doc.id));
      assert [m][1..] == [] && MembersCost([m]) == MemberCost(m);
      assert Volume(fields, doc) == |doc.id| by { NoFields(doc); }
    } else {
      var n := |fields| - 1;
      var f := fields[n];
      StoredCost(fields[..n], doc);
      VolumeSnoc(fields, doc);
      if f.name != ID_FIELD && f.name in doc.fields && f.stored {
        InsertCost(Stored(fields[..n], doc), f.name, Json.Str(doc.fields[f.name]));
      }
    }
  }

  lemma {:induction false} NoFields(doc: Document)
    ensures Volume([], doc) == |doc.id|
  {
  }

  lemma {:induction false} BlobSize(fields: seq<FieldMapping>, doc: Document)
    ensures |Blob(fields, doc)| <= 6 * Volume(fields, doc) + 26
  {
    hide Json.MemberTexts, Json.EscapeAll, Volume, MembersCost;
    StoredHolds(fields, doc, ID_FIELD);
    StoredCost(fields, doc);
    MembersSize(Stored(fields, doc));
  }

  lemma {:induction false} StoredSize(blobs: seq<string>)
    requires forall d :: 0 <= d < |blobs| ==> |blobs[d]| < 0x1FFF_FFF0
    ensures |StoredBytes(blobs)| <= |blobs| * 0x2000_0000
  {
    hide Str;
    if blobs != [] {
      StrSize(blobs[0]);
      StoredSize(blobs[1..]);
    }
  }

  // ----- the whole segment -----

  lemma {:induction false} RecordSizes(c: Content, schema: Schema, docs: seq<Document>, i: nat)
    requires Represents(c, schema, docs) && Modest(schema, docs) && i < |c.fields|
    ensures |c.fields[i].name| < U32 && forall k :: 0 <= k < |c.fields[i].terms| ==> |c.fields[i].terms[k].term| < U32
  {
    hide Volume, TextSize, Blobs, Qualities, ListFor;
    var r, f := c.fields[i], schema.fields[i];
    assert FieldRepresents(r, f, docs);
    forall d | 0 <= d < |docs| ensures TextSize(f, docs[d]) < VOLUME_LIMIT { TextInVolume(schema.fields, docs[d], i); }
    forall k | 0 <= k < |r.terms| ensures |r.terms[k].term| < U32 {
      assert TermRepresents(r.terms[k], f, docs);
      TermLength(f, docs, r.terms[k].term);
    }
  }

  /** Modest documents never exceed the widths of the format, however many a
      segment takes. */
  lemma {:induction false} ModestFits(c: Content, schema: Schema, docs: seq<Document>)
    requires Represents(c, schema, docs) && Modest(schema, docs)
    ensures SizesFit(c)
  {
    hide Volume, FieldRepresents, TextTotal, Dictionaries, Postings, StoredBytes, Blob, Qualities;
    TextWithin(schema.fields, docs);
    assert 41 * TextTotal(schema.fields, docs) < U64;
    FilesSize(c.fields, schema.fields, docs);
    forall i | 0 <= i < |c.fields| ensures FieldSizesFit(c.fields[i]) { RecordSizes(c, schema, docs, i); }
    forall d | 0 <= d < |c.blobs| ensures |c.blobs[d]| < 0x1FFF_FFF0 {
      BlobSize(schema.fields, docs[d]);
      assert c.blobs[d] == Blob(schema.fields, docs[d]);
    }
    StoredSize(c.blobs);
  }
}
