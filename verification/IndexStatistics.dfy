/** The numbers that BM25 takes from the whole index: document frequencies over
    all segments, kept in a table under one string per leaf, and the average
    lengths of the fields. */
module IndexStatistics {
  import opened Base
  import opened Analyzer
  import opened Documents
  import opened MutableSegments
  import opened Queries
  import opened Scoring
  import opened SealedSegments
  import opened SegmentReaders
  import QueryPlan

  /** The readers stand for the documents, segment by segment. */
  ghost predicate ReadsAll(segs: seq<SegmentReader>, schema: Schema, docs: seq<seq<Document>>)
  {
    |segs| == |docs| && forall si :: 0 <= si < |segs| ==> Reads(segs[si], schema, docs[si])
  }

  /** How many documents have the term. */
  function CountWith(f: FieldMapping, docs: seq<Document>, term: string): nat
  {
    if docs == [] then 0
    else CountWith(f, docs[..|docs| - 1], term) + if HasTerm(f, docs[|docs| - 1], term) then 1 else 0
  }

  /** A posting list is as long as there are documents with the term. */
  lemma {:induction false} ListLength(f: FieldMapping, docs: seq<Document>, term: string)
    ensures |ListFor(f, docs, term)| == CountWith(f, docs, term)
  {
    if docs != [] { ListLength(f, docs[..|docs| - 1], term); }
  }

  /** Documents of the whole index that have a leaf's term in its field. */
  function DocsWithLeaf(l: Leaf, schema: Schema, docs: seq<seq<Document>>): nat
  {
    if docs == [] then 0
    else
      var n := |docs| - 1;
      DocsWithLeaf(l, schema, docs[..n])
      + match FieldId(schema.Names(), l.field)
        case None => 0
        case Some(i) => CountWith(schema.fields[i], docs[n], l.text)
  }

  method SegmentDf(l: Leaf, seg: SegmentReader, schema: Schema, ghost docs: seq<Document>) returns (df: nat)
    requires Reads(seg, schema, docs) && schema.Valid()
    ensures df == match FieldId(schema.Names(), l.field)
                  case None => 0
                  case Some(i) => CountWith(schema.fields[i], docs, l.text)
  {
    hide CountWith, ListFor, SegmentReader.Valid;
    var fid := seg.GetFieldId(l.field);
    if fid.None? {
      QueryPlan.NoSuchField(seg, schema, docs, l.field);
      return 0;
    }
    QueryPlan.SameField(seg, schema, docs, l.field, fid.value);
    var f := schema.fields[fid.value];
    ListLength(f, docs, l.text);
    var te := seg.FindTerm(fid.value, l.text);
    if te.None? {
      assert !HasEntry(seg.fields[fid.value].terms, l.text);
      return 0;
    }
    assert Leads(seg, fid.value, te.value, f, docs);
    return te.value.df;
  }

  /** The sum over the segments. */
  method GlobalDf(l: Leaf, segs: seq<SegmentReader>, schema: Schema, ghost docs: seq<seq<Document>>) returns (df: nat)
    requires ReadsAll(segs, schema, docs) && schema.Valid()
    ensures df == DocsWithLeaf(l, schema, docs)
  {
    hide Reads, Schema.Valid;
    df := 0;
    for si := 0 to |segs|
      invariant df == DocsWithLeaf(l, schema, docs[..si])
    {
      var n := SegmentDf(l, segs[si], schema, docs[si]);
      assert docs[..si + 1][..si] == docs[..si];
      df := df + n;
    }
    assert docs[..|segs|] == docs;
  }

  /** The key of a leaf in the tables. */
  function Key(l: Leaf): string
  {
    l.field + (":" + l.text)
  }

  /** Leaves of fields without a colon have different keys. */
  lemma {:induction false} KeyDistinguishes(a: Leaf, b: Leaf)
    requires Key(a) == Key(b) && ':' !in a.field && ':' !in b.field
    ensures a == b
  {
    FirstColon(a, b);
    FirstColon(b, a);
    assert Key(a)[..|a.field|] == a.field && Key(b)[..|b.field|] == b.field;
    assert Key(a)[|a.field| + 1..] == a.text && Key(b)[|b.field| + 1..] == b.text;
  }

  lemma {:induction false} FirstColon(a: Leaf, b: Leaf)
    requires Key(a) == Key(b) && ':' !in b.field
    ensures |b.field| <= |a.field|
  {
    assert Key(a)[|a.field|] == ':';
    forall i | 0 <= i < |b.field| ensures Key(b)[i] != ':' { assert Key(b)[i] == b.field[i]; }
  }

  /** A number kept under a name; names that are not there stand for 0. */
  function Lookup(m: map<string, real>, name: string): real
  {
    if name in m then m[name] else 0.0
  }

  /** The table that keeps, under each key, the value of the first leaf with that
      key. */
  ghost function TableOf(leaves: seq<Leaf>, value: Leaf -> real): map<string, real>
  {
    if leaves == [] then map[]
    else
      var l, before := leaves[|leaves| - 1], TableOf(leaves[..|leaves| - 1], value);
      if Key(l) in before then before else before[Key(l) := value(l)]
  }

  /** How many documents the index has, as the 32-bit number that the program
      adds up. */
  function IndexSize(docs: seq<seq<Document>>): nat
  {
    if docs == [] then 0 else Mod32(IndexSize(docs[..|docs| - 1]) + |docs[|docs| - 1]|)
  }

  /** The idf that a leaf should have. */
  ghost function LeafIdf(schema: Schema, docs: seq<seq<Document>>, idf: (nat, nat) -> real): Leaf -> real
  {
    (l: Leaf) => idf(IndexSize(docs), DocsWithLeaf(l, schema, docs))
  }

  method TotalDocCount(segs: seq<SegmentReader>, schema: Schema, ghost docs: seq<seq<Document>>) returns (n: nat)
    requires ReadsAll(segs, schema, docs)
    ensures n == IndexSize(docs)
  {
    n := 0;
    for si := 0 to |segs|
      invariant n == IndexSize(docs[..si])
    {
      assert docs[..si + 1][..si] == docs[..si];
      assert Reads(segs[si], schema, docs[si]);
      n := Mod32(n + segs[si].docCount);
    }
    assert docs[..|segs|] == docs;
  }

  /** The idf of every leaf, computed once per key from the document frequency
      of the first leaf with that key. */
  method IdfTable(leaves: seq<Leaf>, segs: seq<SegmentReader>, schema: Schema, totalDocs: nat, idf: (nat, nat) -> real,
                  ghost docs: seq<seq<Document>>) returns (table: map<string, real>)
    requires ReadsAll(segs, schema, docs) && schema.Valid() && totalDocs == IndexSize(docs)
    ensures table == TableOf(leaves, LeafIdf(schema, docs, idf))
  {
    hide Key, DocsWithLeaf, ReadsAll, Schema.Valid, IndexSize;
    table := map[];
    for n := 0 to |leaves|
      invariant table == TableOf(leaves[..n], LeafIdf(schema, docs, idf))
    {
      assert leaves[..n + 1][..n] == leaves[..n];
      var key := Key(leaves[n]);
      if key !in table {
        var df := GlobalDf(leaves[n], segs, schema, docs);
        table := table[key := idf(totalDocs, df)];
      }
    }
    assert leaves[..|leaves|] == leaves;
  }

  // ----- the average length of a field -----

  /** All tokens of a field, over the segments, as a 64-bit number. */
  function SumLength(f: FieldMapping, docs: seq<seq<Document>>): nat
  {
    if docs == [] then 0
    else Mod64(SumLength(f, docs[..|docs| - 1]) + Mod64(TotalLength(f, docs[|docs| - 1])))
  }

  /** How many documents have a token in the field. */
  function SumDocs(f: FieldMapping, docs: seq<seq<Document>>): nat
  {
    if docs == [] then 0 else Mod64(SumDocs(f, docs[..|docs| - 1]) + DocsWith(f, docs[|docs| - 1]))
  }

  /** The average number of tokens in the documents that have the field. */
  function AverageLength(schema: Schema, docs: seq<seq<Document>>, name: string): (avg: real)
    ensures avg >= 0.0
  {
    match FieldId(schema.Names(), name)
    case None => 0.0
    case Some(i) =>
      var n := SumDocs(schema.fields[i], docs);
      if n == 0 then 0.0 else Ratio(SumLength(schema.fields[i], docs), n)
  }

  function Ratio(a: nat, b: nat): (r: real)
    requires b > 0
    ensures r >= 0.0
  {
    a as real / b as real
  }

  /** The average times the number of documents that have the field is its
      length; it is 0 when none has it. */
  lemma {:induction false} AverageTimes(schema: Schema, docs: seq<seq<Document>>, name: string)
    ensures match FieldId(schema.Names(), name)
      case None => AverageLength(schema, docs, name) == 0.0
      case Some(i) =>
        var n := SumDocs(schema.fields[i], docs);
        if n == 0 then AverageLength(schema, docs, name) == 0.0
        else AverageLength(schema, docs, name) * n as real == SumLength(schema.fields[i], docs) as real
  {
    hide SumLength, SumDocs;
    var id := FieldId(schema.Names(), name);
    if id.Some? {
      var n := SumDocs(schema.fields[id.value], docs);
      if n > 0 { Quotient(SumLength(schema.fields[id.value], docs) as real, n as real); }
    }
  }

  function Counted(m: map<string, nat>, name: string): nat
  {
    if name in m then m[name] else 0
  }

  /** What the first n fields of a segment add to the sum kept under a name. */
  function Amount(schema: Schema, n: nat, amount: FieldMapping -> nat, name: string): nat
  {
    match FieldId(schema.Names(), name)
    case None => 0
    case Some(i) => if i < n then amount(schema.fields[i]) else 0
  }

  ghost predicate Adds(before: map<string, nat>, after: map<string, nat>, schema: Schema, n: nat, amount: FieldMapping -> nat)
    requires n <= |schema.fields|
  {
    && (forall name :: Counted(after, name)
          == if Named(schema, n, name) then Mod64(Counted(before, name) + Amount(schema, n, amount, name)) else Counted(before, name))
    && (forall name :: name in after <==> name in before || Named(schema, n, name))
  }

  /** One of the first n fields has the name. */
  predicate Named(schema: Schema, n: nat, name: string)
    requires n <= |schema.fields|
  {
    exists i :: 0 <= i < n && schema.fields[i].name == name
  }

  lemma {:induction false} AmountNext(schema: Schema, n: nat, amount: FieldMapping -> nat, name: string)
    requires schema.Valid() && n < |schema.fields|
    ensures Named(schema, n + 1, name) <==> Named(schema, n, name) || name == schema.fields[n].name
    ensures Named(schema, n, name) ==> name != schema.fields[n].name
    ensures Amount(schema, n + 1, amount, name)
         == if name == schema.fields[n].name then amount(schema.fields[n]) else Amount(schema, n, amount, name)
  {
    OwnId(schema, n);
    if Named(schema, n, name) {
      var i :| 0 <= i < n && schema.fields[i].name == name;
      assert schema.fields[i].name != schema.fields[n].name;
    }
  }

  /** The sum of one more field. */
  lemma {:induction false} AddsNext(before: map<string, nat>, after: map<string, nat>, schema: Schema, n: nat, amount: FieldMapping -> nat)
    requires schema.Valid() && n < |schema.fields| && Adds(before, after, schema, n, amount)
    ensures var f := schema.fields[n];
      Adds(before, after[f.name := Mod64(Counted(after, f.name) + amount(f))], schema, n + 1, amount)
  {
    hide Amount, Named, Schema.Valid, Mod64;
    var f := schema.fields[n];
    var m := after[f.name := Mod64(Counted(after, f.name) + amount(f))];
    forall name
      ensures Counted(m, name)
           == (if Named(schema, n + 1, name) then Mod64(Counted(before, name) + Amount(schema, n + 1, amount, name))
               else Counted(before, name))
      ensures name in m <==> name in before || Named(schema, n + 1, name)
    {
      AmountNext(schema, n, amount, name);
    }
  }

  lemma {:induction false} OwnId(schema: Schema, n: nat)
    requires schema.Valid() && n < |schema.fields|
    ensures FieldId(schema.Names(), schema.fields[n].name) == Some(n)
    ensures forall name :: FieldId(schema.Names(), name) == Some(n) ==> name == schema.fields[n].name
  {
    var id := FieldId(schema.Names(), schema.fields[n].name);
    assert schema.Names()[n] == schema.fields[n].name;
    assert schema.fields[id.value].name == schema.fields[n].name;
  }

  /** The sums over one segment. */
  method SumFields(seg: SegmentReader, schema: Schema, lengths: map<string, nat>, counts: map<string, nat>, ghost docs: seq<Document>)
    returns (lengths': map<string, nat>, counts': map<string, nat>)
    requires Reads(seg, schema, docs) && schema.Valid()
    ensures Adds(lengths, lengths', schema, |schema.fields|, (f: FieldMapping) => Mod64(TotalLength(f, docs)))
    ensures Adds(counts, counts', schema, |schema.fields|, (f: FieldMapping) => DocsWith(f, docs))
  {
    hide TotalLength, DocsWith, Schema.Valid, SegmentReader.Valid, Counted, Adds;
    lengths', counts' := lengths, counts;
    NothingAdded(lengths, schema, (f: FieldMapping) => Mod64(TotalLength(f, docs)));
    NothingAdded(counts, schema, (f: FieldMapping) => DocsWith(f, docs));
    for i := 0 to |seg.fields|
      invariant Adds(lengths, lengths', schema, i, (f: FieldMapping) => Mod64(TotalLength(f, docs)))
      invariant Adds(counts, counts', schema, i, (f: FieldMapping) => DocsWith(f, docs))
    {
      var stats := seg.fields[i].stats;
      assert ReadsField(seg, i, schema.fields[i], docs);
      AddsNext(lengths, lengths', schema, i, (f: FieldMapping) => Mod64(TotalLength(f, docs)));
      AddsNext(counts, counts', schema, i, (f: FieldMapping) => DocsWith(f, docs));
      lengths' := lengths'[stats.name := Mod64(Counted(lengths', stats.name) + stats.sumFieldLength)];
      counts' := counts'[stats.name := Mod64(Counted(counts', stats.name) + stats.docCount)];
    }
  }

  lemma {:induction false} NothingAdded(m: map<string, nat>, schema: Schema, amount: FieldMapping -> nat)
    ensures Adds(m, m, schema, 0, amount)
  {
  }

  /** The sums over the segments so far. */
  ghost predicate Summed(lengths: map<string, nat>, counts: map<string, nat>, schema: Schema, docs: seq<seq<Document>>)
  {
    forall name :: SummedAt(lengths, counts, schema, docs, name)
  }

  ghost predicate SummedAt(lengths: map<string, nat>, counts: map<string, nat>, schema: Schema, docs: seq<seq<Document>>, name: string)
  {
    && (name in lengths <==> name in counts)
    && match FieldId(schema.Names(), name)
       case None => name !in lengths
       case Some(i) =>
         && Counted(lengths, name) == SumLength(schema.fields[i], docs)
         && Counted(counts, name) == SumDocs(schema.fields[i], docs)
         && (docs != [] ==> name in lengths)
  }

  lemma {:induction false} SumsNext(f: FieldMapping, docs: seq<seq<Document>>, more: seq<Document>)
    ensures SumLength(f, docs + [more]) == Mod64(SumLength(f, docs) + Mod64(TotalLength(f, more)))
    ensures SumDocs(f, docs + [more]) == Mod64(SumDocs(f, docs) + DocsWith(f, more))
  {
    assert (docs + [more])[..|docs|] == docs;
  }

  lemma {:induction false} SummedNextAt(lengths: map<string, nat>, counts: map<string, nat>, lengths': map<string, nat>,
                                        counts': map<string, nat>, schema: Schema, docs: seq<seq<Document>>, more: seq<Document>,
                                        name: string)
    requires SummedAt(lengths, counts, schema, docs, name)
    requires Adds(lengths, lengths', schema, |schema.fields|, (f: FieldMapping) => Mod64(TotalLength(f, more)))
    requires Adds(counts, counts', schema, |schema.fields|, (f: FieldMapping) => DocsWith(f, more))
    ensures SummedAt(lengths', counts', schema, docs + [more], name)
  {
    hide TotalLength, DocsWith, Schema.Valid, SumLength, SumDocs, FieldId, Counted;
    var n, id := |schema.fields|, FieldId(schema.Names(), name);
    if id.Some? {
      SumsNext(schema.fields[id.value], docs, more);
      assert schema.fields[id.value].name == name;
      assert Named(schema, n, name);
    } else {
      forall i | 0 <= i < n ensures schema.fields[i].name != name { assert schema.Names()[i] == schema.fields[i].name; }
      assert !Named(schema, n, name);
    }
  }

  lemma {:induction false} SummedNext(lengths: map<string, nat>, counts: map<string, nat>, lengths': map<string, nat>,
                                      counts': map<string, nat>, schema: Schema, docs: seq<seq<Document>>, more: seq<Document>)
    requires Summed(lengths, counts, schema, docs)
    requires Adds(lengths, lengths', schema, |schema.fields|, (f: FieldMapping) => Mod64(TotalLength(f, more)))
    requires Adds(counts, counts', schema, |schema.fields|, (f: FieldMapping) => DocsWith(f, more))
    ensures Summed(lengths', counts', schema, docs + [more])
  {
    hide SummedAt, Adds;
    forall name ensures SummedAt(lengths', counts', schema, docs + [more], name) {
      SummedNextAt(lengths, counts, lengths', counts', schema, docs, more, name);
    }
  }

  /** The average length of every field over the whole index. */
  method Averages(segs: seq<SegmentReader>, schema: Schema, ghost docs: seq<seq<Document>>) returns (avgs: map<string, real>)
    requires ReadsAll(segs, schema, docs) && schema.Valid()
    ensures forall name :: Lookup(avgs, name) == AverageLength(schema, docs, name)
  {
    hide Reads, Schema.Valid, Adds, Counted, SumLength, SumDocs, AverageLength;
    var lengths: map<string, nat>, counts: map<string, nat> := map[], map[];
    NothingSummed(schema);
    for si := 0 to |segs|
      invariant Summed(lengths, counts, schema, docs[..si])
    {
      var l, c := SumFields(segs[si], schema, lengths, counts, docs[si]);
      SummedNext(lengths, counts, l, c, schema, docs[..si], docs[si]);
      assert docs[..si] + [docs[si]] == docs[..si + 1];
      lengths, counts := l, c;
    }
    assert docs[..|segs|] == docs;
    forall name | name in lengths ensures name in counts { assert SummedAt(lengths, counts, schema, docs, name); }
    avgs := map name | name in lengths :: if counts[name] == 0 then 0.0 else Ratio(lengths[name], counts[name]);
    forall name ensures Lookup(avgs, name) == AverageLength(schema, docs, name) { AverageOf(lengths, counts, schema, docs, name); }
  }

  lemma {:induction false} NothingSummed(schema: Schema)
    ensures Summed(map[], map[], schema, [])
  {
  }

  lemma {:induction false} AverageOf(lengths: map<string, nat>, counts: map<string, nat>, schema: Schema, docs: seq<seq<Document>>,
                                     name: string)
    requires Summed(lengths, counts, schema, docs)
    ensures AverageLength(schema, docs, name)
         == if name !in lengths || name !in counts || counts[name] == 0 then 0.0 else Ratio(lengths[name], counts[name])
  {
    assert SummedAt(lengths, counts, schema, docs, name);
  }

  // ----- when the table is right -----

  /** Every leaf finds its own value under its key. */
  ghost predicate Right(leaves: seq<Leaf>, value: Leaf -> real)
  {
    forall k :: 0 <= k < |leaves| ==>
      Key(leaves[k]) in TableOf(leaves, value) && TableOf(leaves, value)[Key(leaves[k])] == value(leaves[k])
  }

  /** Two different leaves, the first of them in a field of the schema, are kept
      under one key. */
  predicate Clash(leaves: seq<Leaf>, schema: Schema)
  {
    exists i, j :: 0 <= i < |leaves| && 0 <= j < |leaves| && leaves[i] != leaves[j] && Key(leaves[i]) == Key(leaves[j])
                   && FieldId(schema.Names(), leaves[i].field).Some?
  }

  /** Every key leads to the value of some leaf with that key. */
  lemma {:induction false} TableHas(leaves: seq<Leaf>, value: Leaf -> real, key: string)
    ensures key in TableOf(leaves, value) <==> exists k :: 0 <= k < |leaves| && Key(leaves[k]) == key
    ensures key in TableOf(leaves, value) ==>
      exists k :: 0 <= k < |leaves| && Key(leaves[k]) == key && TableOf(leaves, value)[key] == value(leaves[k])
  {
    hide Key;
    if leaves != [] {
      var n := |leaves| - 1;
      TableHas(leaves[..n], value, key);
      if key in TableOf(leaves[..n], value) {
        var k :| 0 <= k < n && Key(leaves[..n][k]) == key && TableOf(leaves[..n], value)[key] == value(leaves[..n][k]);
        assert leaves[k] == leaves[..n][k];
      } else {
        forall k | 0 <= k < n ensures Key(leaves[k]) != key { assert leaves[..n][k] == leaves[k]; }
      }
    }
  }

  lemma {:induction false} NotInIndex(l: Leaf, schema: Schema, docs: seq<seq<Document>>)
    requires FieldId(schema.Names(), l.field).None?
    ensures DocsWithLeaf(l, schema, docs) == 0
  {
    if docs != [] { NotInIndex(l, schema, docs[..|docs| - 1]); }
  }

  /** Without a clash the table is right, over every index. */
  lemma {:induction false} NoClashIsRight(leaves: seq<Leaf>, schema: Schema, docs: seq<seq<Document>>, idf: (nat, nat) -> real)
    requires !Clash(leaves, schema)
    ensures Right(leaves, LeafIdf(schema, docs, idf))
  {
    hide Key, DocsWithLeaf, IndexSize, FieldId;
    var value := LeafIdf(schema, docs, idf);
    forall k | 0 <= k < |leaves|
      ensures Key(leaves[k]) in TableOf(leaves, value) && TableOf(leaves, value)[Key(leaves[k])] == value(leaves[k])
    {
      TableHas(leaves, value, Key(leaves[k]));
      var i :| 0 <= i < |leaves| && Key(leaves[i]) == Key(leaves[k]) && TableOf(leaves, value)[Key(leaves[k])] == value(leaves[i]);
      if leaves[i] != leaves[k] {
        NotInIndex(leaves[i], schema, docs);
        NotInIndex(leaves[k], schema, docs);
      }
    }
  }

  /** Field and text of a leaf determine each other under a key. */
  lemma {:induction false} SameKey(a: Leaf, b: Leaf)
    requires Key(a) == Key(b) && a.field == b.field
    ensures a == b
  {
    assert Key(a)[|a.field| + 1..] == a.text && Key(b)[|b.field| + 1..] == b.text;
  }

  /** The text of a leaf is a token of its field's analyzer. */
  lemma {:induction false} LeafIsToken(q: Query, schema: Schema, l: Leaf)
    requires l in Leaves(q, schema)
    ensures TokensOf(KindOf(schema, l.field), l.text) == [Token(l.text, 0, 0, |l.text|)]
    decreases q, 1
  {
    match q
    case MatchAll =>
    case Term(field, text) => TokenLeaf(field, KindOf(schema, field), text, TokensOf(KindOf(schema, field), text), l);
    case Conjunction(children) => LeavesAreTokens(children, schema, l);
    case Disjunction(children) => LeavesAreTokens(children, schema, l);
  }

  lemma {:induction false} LeavesAreTokens(children: seq<Query>, schema: Schema, l: Leaf)
    requires l in AllLeaves(children, schema)
    ensures TokensOf(KindOf(schema, l.field), l.text) == [Token(l.text, 0, 0, |l.text|)]
    decreases children, 0
  {
    hide Leaves, KindOf, TokensOf;
    if l in Leaves(children[0], schema) {
      LeafIsToken(children[0], schema, l);
    } else {
      LeavesAreTokens(children[1..], schema, l);
    }
  }

  lemma {:induction false} TokenLeaf(field: string, kind: FieldType, text: string, tokens: seq<Token>, l: Leaf)
    requires l in TokenLeaves(field, tokens) && forall t :: t in tokens ==> t in TokensOf(kind, text)
    ensures l.field == field && TokensOf(kind, l.text) == [Token(l.text, 0, 0, |l.text|)]
  {
    if l == Leaf(field, tokens[0].text) {
      assert tokens[0] in TokensOf(kind, text);
      if kind == FieldType.Text { TokensAreStable(text, tokens[0]); }
    } else {
      TokenLeaf(field, kind, text, tokens[1..], l);
    }
  }

  /** The program keeps ids non-empty and segments within the id space. */
  ghost predicate Indexable(docs: seq<seq<Document>>)
  {
    forall si :: 0 <= si < |docs| ==> |docs[si]| <= NO_MORE && forall d :: 0 <= d < |docs[si]| ==> docs[si][d].id != ""
  }

  /** A document that has the leaf a, and none of another field's tokens text. */
  function Only(a: Leaf, other: string): Document
  {
    if a.field == ID_FIELD then Document(a.text, map[], map[], None)
    else Document(if other == "-" then "+" else "-", map[a.field := a.text], map[], None)
  }

  /** Neither sign is a token of text. */
  lemma {:induction false} SignsAreNoTokens(kind: FieldType, other: string)
    ensures var id := if other == "-" then "+" else "-"; forall t :: t in TokensOf(kind, id) ==> t.text != other
  {
    assert Scan("-", 1, 0) == [] && Scan("+", 1, 0) == [];
  }

  lemma {:induction false} NoOccurrence(tokens: seq<Token>, term: string, n: nat)
    requires n <= |tokens| && forall t :: t in tokens ==> t.text != term
    ensures !Occurs(tokens, term, n)
  {
    if n > 0 { NoOccurrence(tokens, term, n - 1); }
  }

  lemma {:induction false} OnlyHas(a: Leaf, b: Leaf, schema: Schema)
    requires FieldId(schema.Names(), a.field).Some? && a.field != b.field
    requires TokensOf(KindOf(schema, a.field), a.text) == [Token(a.text, 0, 0, |a.text|)]
    ensures Only(a, b.text).id != ""
    ensures DocsWithLeaf(a, schema, [[Only(a, b.text)]]) == 1 && DocsWithLeaf(b, schema, [[Only(a, b.text)]]) == 0
  {
    hide TokensOf;
    var doc := Only(a, b.text);
    var f := schema.fields[FieldId(schema.Names(), a.field).value];
    assert f.name == a.field && f.kind == KindOf(schema, a.field);
    assert FieldText(f, doc) == Some(a.text);
    assert Occurs(FieldTokens(f, doc), a.text, 1);
    if a.text == "" { assert TokensOf(f.kind, "") == [] by { EmptyText(f.kind); } }
    OneDocument(a, schema, doc);
    OneDocument(b, schema, doc);
    var id := FieldId(schema.Names(), b.field);
    if id.Some? {
      var g := schema.fields[id.value];
      assert g.name == b.field;
      if b.field == ID_FIELD { SignsAreNoTokens(g.kind, b.text); }
      NoOccurrence(FieldTokens(g, doc), b.text, |FieldTokens(g, doc)|);
    }
  }

  lemma {:induction false} EmptyText(kind: FieldType)
    ensures TokensOf(kind, "") == []
  {
  }

  lemma {:induction false} OneDocument(l: Leaf, schema: Schema, doc: Document)
    ensures DocsWithLeaf(l, schema, [[doc]])
         == match FieldId(schema.Names(), l.field)
            case None => 0
            case Some(i) => if HasTerm(schema.fields[i], doc, l.text) then 1 else 0
  {
    hide HasTerm;
    assert [[doc]][..0] == [] && DocsWithLeaf(l, schema, []) == 0;
    var id := FieldId(schema.Names(), l.field);
    if id.Some? {
      var f := schema.fields[id.value];
      assert [doc][..0] == [] && CountWith(f, [], l.text) == 0;
      assert CountWith(f, [doc], l.text) == if HasTerm(f, doc, l.text) then 1 else 0;
    }
  }

  /** A clash makes the table wrong for an index of a single document. */
  lemma {:induction false} ClashIsWrong(q: Query, schema: Schema, idf: (nat, nat) -> real) returns (docs: seq<seq<Document>>)
    requires Clash(Leaves(q, schema), schema) && idf(1, 0) != idf(1, 1)
    ensures Indexable(docs) && !Right(Leaves(q, schema), LeafIdf(schema, docs, idf))
  {
    hide Leaves, DocsWithLeaf, KindOf, TokensOf, Only, Key, TableOf, FieldId;
    var leaves := Leaves(q, schema);
    var i, j :| 0 <= i < |leaves| && 0 <= j < |leaves| && leaves[i] != leaves[j] && Key(leaves[i]) == Key(leaves[j])
                && FieldId(schema.Names(), leaves[i].field).Some?;
    var a, b := leaves[i], leaves[j];
    if a.field == b.field { SameKey(a, b); }
    LeafIsToken(q, schema, a);
    OnlyHas(a, b, schema);
    docs := [[Only(a, b.text)]];
    assert IndexSize(docs) == 1 by { assert docs[..0] == []; }
    var value := LeafIdf(schema, docs, idf);
    assert value(a) != value(b);
  }

  /** The exact condition, for every idf that tells a term that no document of
      one has from a term that it has, as the program's does: the table is right
      over every index if and only if no two different leaves of the query, one
      at least in a field of the schema, have the same key. */
  lemma {:induction false} TableExactly(q: Query, schema: Schema, idf: (nat, nat) -> real)
    requires idf(1, 0) != idf(1, 1)
    ensures !Clash(Leaves(q, schema), schema) <==>
      forall docs :: Indexable(docs) ==> Right(Leaves(q, schema), LeafIdf(schema, docs, idf))
  {
    hide Clash, Right, Leaves;
    if Clash(Leaves(q, schema), schema) {
      var docs := ClashIsWrong(q, schema, idf);
    } else {
      forall docs ensures Right(Leaves(q, schema), LeafIdf(schema, docs, idf)) {
        NoClashIsRight(Leaves(q, schema), schema, docs, idf);
      }
    }
  }

  /** A query none of whose fields has a colon has no clash. */
  lemma {:induction false} NoColonNoClash(leaves: seq<Leaf>, schema: Schema)
    requires forall k :: 0 <= k < |leaves| ==> ':' !in leaves[k].field
    ensures !Clash(leaves, schema)
  {
    hide Key;
    forall i, j | 0 <= i < |leaves| && 0 <= j < |leaves| && Key(leaves[i]) == Key(leaves[j]) ensures leaves[i] == leaves[j] {
      KeyDistinguishes(leaves[i], leaves[j]);
    }
  }

  // ----- the statistics of a search -----

  /** What a scan of all documents gives. */
  ghost function Scanned(schema: Schema, docs: seq<seq<Document>>, idf: (nat, nat) -> real, value: FloatBits -> real): (st: Statistics)
    ensures st.Valid()
  {
    Statistics((field: string, text: string) => idf(IndexSize(docs), DocsWithLeaf(Leaf(field, text), schema, docs)),
               (name: string) => AverageLength(schema, docs, name), value)
  }

  /** With the program's idf, of two leaves the one that fewer documents have
      weighs more; and it tells a term that no document has from one that the only
      document has. */
  lemma {:induction false} RarerLeafCountsMore(a: Leaf, b: Leaf, schema: Schema, docs: seq<seq<Document>>, ln: real -> real,
                                               value: FloatBits -> real)
    requires IsLogarithm(ln)
    ensures var idf := (total: nat, df: nat) => Bm25Idf(total, df, ln);
      var st := Scanned(schema, docs, idf, value);
      && idf(1, 0) != idf(1, 1)
      && (IndexSize(docs) > 0 && DocsWithLeaf(a, schema, docs) < DocsWithLeaf(b, schema, docs) ==>
            st.idf(a.field, a.text) > st.idf(b.field, b.text))
      && (IndexSize(docs) > 0 && DocsWithLeaf(a, schema, docs) <= IndexSize(docs) ==> st.idf(a.field, a.text) > 0.0)
  {
    hide DocsWithLeaf, IndexSize, Bm25Idf, IsLogarithm;
    RarerCountsMore(1, 0, 1, ln);
    RarerCountsMore(IndexSize(docs), DocsWithLeaf(a, schema, docs), DocsWithLeaf(b, schema, docs), ln);
    assert Leaf(a.field, a.text) == a && Leaf(b.field, b.text) == b;
  }

  /** What the program looks up in its tables. */
  ghost function Tabled(leaves: seq<Leaf>, schema: Schema, docs: seq<seq<Document>>, idf: (nat, nat) -> real,
                        value: FloatBits -> real): (st: Statistics)
    ensures st.Valid() && st.value == value
  {
    Statistics((field: string, text: string) => Lookup(TableOf(leaves, LeafIdf(schema, docs, idf)), Key(Leaf(field, text))),
               (name: string) => AverageLength(schema, docs, name), value)
  }

  /** Without a clash of keys they agree on the leaves of the query. */
  lemma {:induction false} TablesAgree(leaves: seq<Leaf>, schema: Schema, docs: seq<seq<Document>>, idf: (nat, nat) -> real,
                                       value: FloatBits -> real)
    requires !Clash(leaves, schema)
    ensures Agree(leaves, Tabled(leaves, schema, docs, idf, value), Scanned(schema, docs, idf, value))
  {
    hide Clash, Key, TableOf, DocsWithLeaf, IndexSize, AverageLength;
    NoClashIsRight(leaves, schema, docs, idf);
  }

  /** The tables of a search over the segments. */
  method ReadStatistics(leaves: seq<Leaf>, segs: seq<SegmentReader>, schema: Schema, idf: (nat, nat) -> real, value: FloatBits -> real,
                    ghost docs: seq<seq<Document>>) returns (st: Statistics)
    requires ReadsAll(segs, schema, docs) && schema.Valid()
    ensures st.Valid() && st.value == value && Agree(leaves, st, Tabled(leaves, schema, docs, idf, value))
  {
    hide ReadsAll, Schema.Valid, TableOf, AverageLength, Key;
    var total := TotalDocCount(segs, schema, docs);
    var table := IdfTable(leaves, segs, schema, total, idf, docs);
    var avgs := Averages(segs, schema, docs);
    st := Statistics((field: string, text: string) => Lookup(table, Key(Leaf(field, text))), (name: string) => Lookup(avgs, name), value);
  }

  /** Two fields whose leaves share a key. */
  const COLON_SCHEMA: Schema := Schema([FieldMapping("a:b", FieldType.Text, true, 1, 0, false),
                                        FieldMapping("a", FieldType.Keyword, true, 1, 0, false)], false)

  const COLON_QUERY: Query := Conjunction([Query.Term("a:b", "c"), Query.Term("a", "b:c")])

  /** An index in which a leaf gets the idf of another: the only document has "c"
      in the field "a:b", and the leaf of the field "a", which no document has,
      gets the same idf. */
  lemma {:induction false} KeysCollide(idf: (nat, nat) -> real)
    requires idf(1, 0) != idf(1, 1)
    ensures COLON_SCHEMA.Valid() && Leaves(COLON_QUERY, COLON_SCHEMA) == [Leaf("a:b", "c"), Leaf("a", "b:c")]
    ensures var docs := [[Document("-", map["a:b" := "c"], map[], None)]];
      var value := LeafIdf(COLON_SCHEMA, docs, idf);
      && value(Leaf("a", "b:c")) == idf(1, 0)
      && TableOf(Leaves(COLON_QUERY, COLON_SCHEMA), value) == map["a:b:c" := idf(1, 1)]
  {
    var a, b := Leaf("a:b", "c"), Leaf("a", "b:c");
    ColonLeaves();
    var docs := [[Only(a, b.text)]];
    assert Only(a, b.text) == Document("-", map["a:b" := "c"], map[], None);
    assert IndexSize(docs) == 1 by { assert docs[..0] == []; }
    OnlyHas(a, b, COLON_SCHEMA);
    var value := LeafIdf(COLON_SCHEMA, docs, idf);
    assert Key(a) == "a:b:c" && Key(b) == "a:b:c";
    assert [a, b][..1] == [a] && [a][..0] == [];
    assert TableOf([a], value) == map["a:b:c" := idf(1, 1)];
  }

  lemma {:induction false} ColonLeaves()
    ensures COLON_SCHEMA.Valid() && Leaves(COLON_QUERY, COLON_SCHEMA) == [Leaf("a:b", "c"), Leaf("a", "b:c")]
    ensures FieldId(COLON_SCHEMA.Names(), "a:b") == Some(0)
    ensures TokensOf(KindOf(COLON_SCHEMA, "a:b"), "c") == [Token("c", 0, 0, 1)]
  {
    var names := COLON_SCHEMA.Names();
    assert names == ["a:b", "a"] && names[1..] == ["a"];
    assert FieldId(["a"], "a") == Some(0) && FieldId(names, "a") == Some(1) && FieldId(names, "a:b") == Some(0);
    assert RunEnd("c", 0) == 1 && "c"[0..1] == "c" && Lower("c") == "c" && Scan("c", 1, 1) == [];
    assert "c" !in STOP_WORDS;
    var x, y := Query.Term("a:b", "c"), Query.Term("a", "b:c");
    assert Leaves(x, COLON_SCHEMA) == [Leaf("a:b", "c")];
    assert Leaves(y, COLON_SCHEMA) == [Leaf("a", "b:c")];
    assert AllLeaves([y], COLON_SCHEMA) == [Leaf("a", "b:c")] by { assert [y][1..] == []; }
    assert [x, y][1..] == [y];
  }
}
