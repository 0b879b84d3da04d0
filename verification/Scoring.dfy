/** BM25 over exact reals: the score of the first pass over the matches and the
    features that the second pass extracts. */
module Scoring {
  import opened Base
  import opened Analyzer
  import opened DocSets
  import opened Documents
  import opened LeafIterators
  import opened MutableSegments
  import opened PostingFormat
  import opened Queries
  import QueryPlan
  import opened SealedSegments
  import opened SegmentReaders
  import opened SegmentWriter
  import TokenWeight

  datatype Params = Params(k1: real, b: real)
  {
    predicate Valid() { k1 >= 0.0 && 0.0 <= b <= 1.0 }
  }

  /** The length normalisation in the denominator. */
  function Norm(docLen: real, avg: real, p: Params): (d: real)
    requires p.Valid() && docLen >= 0.0
    ensures d >= 0.0 && (docLen == avg ==> d == p.k1)
  {
    var ratio := if avg > 0.0 then docLen / avg else 1.0;
    NormFacts(docLen, avg, ratio, p);
    p.k1 * (1.0 - p.b + p.b * ratio)
  }

  lemma {:induction false} NormFacts(docLen: real, avg: real, ratio: real, p: Params)
    requires p.Valid() && docLen >= 0.0 && ratio == if avg > 0.0 then docLen / avg else 1.0
    ensures p.k1 * (1.0 - p.b + p.b * ratio) >= 0.0
    ensures docLen == avg ==> p.k1 * (1.0 - p.b + p.b * ratio) == p.k1
  {
    NotNegative(p.b, ratio);
    NotNegative(p.k1, 1.0 - p.b + p.b * ratio);
    if docLen == avg {
      if avg > 0.0 { DividedByItself(avg); }
      assert ratio == 1.0;
      assert p.b * ratio == p.b;
    }
  }

  lemma {:induction false} DividedByItself(x: real)
    requires x > 0.0
    ensures x / x == 1.0
  {
  }

  lemma {:induction false} Quotient(x: real, y: real)
    requires y != 0.0
    ensures (x / y) * y == x
  {
  }

  lemma {:induction false} NotNegative(x: real, y: real)
    requires x >= 0.0 && y >= 0.0
    ensures x * y >= 0.0
  {
  }

  function Bm25Score(idf: real, tf: nat, docLen: real, avg: real, p: Params): real
    requires p.Valid() && docLen >= 0.0
  {
    if tf == 0 then 0.0
    else idf * ((tf as real * (p.k1 + 1.0)) / (tf as real + Norm(docLen, avg, p)))
  }

  /** Cross-multiplied comparison of two fractions. */
  lemma {:induction false} FractionLess(x: real, y: real, z: real, w: real)
    requires y > 0.0 && w > 0.0 && x * w < z * y
    ensures x / y < z / w
  {
    assert x / y == (x * w) / (y * w);
    assert z / w == (z * y) / (y * w);
    assert y * w > 0.0;
  }

  lemma {:induction false} ScaledLess(idf: real, x: real, y: real)
    requires idf > 0.0 && x < y
    ensures idf * x < idf * y
  {
  }

  /** More occurrences score more, and no number of them reaches
      idf * (k1 + 1), for every length whose normalisation is positive.  Where it
      is 0, that is for k1 == 0 and for an empty field at b == 1, the first
      occurrence reaches that limit and more of them change nothing. */
  lemma {:induction false} ScoreGrows(idf: real, m: nat, n: nat, docLen: real, avg: real, p: Params)
    requires p.Valid() && idf > 0.0 && m < n && docLen >= 0.0
    ensures Norm(docLen, avg, p) > 0.0 ==>
      Bm25Score(idf, m, docLen, avg, p) < Bm25Score(idf, n, docLen, avg, p) < idf * (p.k1 + 1.0)
    ensures Norm(docLen, avg, p) == 0.0 ==>
      Bm25Score(idf, n, docLen, avg, p) == idf * (p.k1 + 1.0) && (m > 0 ==> Bm25Score(idf, m, docLen, avg, p) == idf * (p.k1 + 1.0))
  {
    hide Bm25Score, Saturation, Norm;
    var c, k := p.k1 + 1.0, Norm(docLen, avg, p);
    ScoreAt(idf, m, docLen, avg, p);
    ScoreAt(idf, n, docLen, avg, p);
    if k == 0.0 {
      AtOnce(n as real, c);
      if m > 0 { AtOnce(m as real, c); }
    } else {
      BelowLimit(n as real, c, k);
      ScaledLess(idf, Saturation(n as real, c, k), c);
      if m > 0 {
        GrowingFraction(m as real, n as real, c, k);
        ScaledLess(idf, Saturation(m as real, c, k), Saturation(n as real, c, k));
      } else {
        ScaledLess(idf, 0.0, Saturation(n as real, c, k));
      }
    }
  }

  /** When the normalisation is 0. */
  lemma {:induction false} NormIsZero(docLen: real, avg: real, p: Params)
    requires p.Valid() && docLen >= 0.0
    ensures Norm(docLen, avg, p) == 0.0 <==> p.k1 == 0.0 || (p.b == 1.0 && docLen == 0.0 && avg > 0.0)
  {
    var ratio := if avg > 0.0 then docLen / avg else 1.0;
    var inner := 1.0 - p.b + p.b * ratio;
    assert ratio >= 0.0 && (ratio == 0.0 <==> docLen == 0.0 && avg > 0.0) by {
      if avg > 0.0 { assert docLen == ratio * avg; }
    }
    NotNegative(p.b, ratio);
    if inner == 0.0 { assert p.b == 1.0; }
    if p.k1 > 0.0 && inner > 0.0 { assert p.k1 * inner > 0.0; }
  }

  /** tf's part of the score. */
  function Saturation(y: real, c: real, k: real): real
    requires y > 0.0 && k >= 0.0
  {
    (y * c) / (y + k)
  }

  lemma {:induction false} ScoreAt(idf: real, n: nat, docLen: real, avg: real, p: Params)
    requires p.Valid() && docLen >= 0.0
    ensures Bm25Score(idf, n, docLen, avg, p)
         == if n == 0 then 0.0 else idf * Saturation(n as real, p.k1 + 1.0, Norm(docLen, avg, p))
  {
  }

  lemma {:induction false} AtOnce(y: real, c: real)
    requires y > 0.0
    ensures Saturation(y, c, 0.0) == c
  {
    assert c * y == y * c;
  }

  /** The score times its denominator, at every length. */
  lemma {:induction false} ScoreTimes(idf: real, tf: nat, docLen: real, avg: real, p: Params)
    requires p.Valid() && docLen >= 0.0
    ensures tf > 0 ==>
      Bm25Score(idf, tf, docLen, avg, p) * (tf as real + Norm(docLen, avg, p)) == idf * (tf as real * (p.k1 + 1.0))
    ensures tf == 0 ==> Bm25Score(idf, tf, docLen, avg, p) == 0.0
  {
    if tf > 0 {
      var y, d := tf as real * (p.k1 + 1.0), tf as real + Norm(docLen, avg, p);
      assert (idf * (y / d)) * d == idf * y by { assert (y / d) * d == y; }
    }
  }

  /** In a field of average length the normalisation is k1: one occurrence scores
      the idf itself, and in general the score times tf + k1 is
      idf * tf * (k1 + 1). */
  lemma {:induction false} AverageLengthScore(idf: real, tf: nat, avg: real, p: Params)
    requires p.Valid() && avg >= 0.0
    ensures Bm25Score(idf, 1, avg, avg, p) == idf
    ensures tf > 0 ==> Bm25Score(idf, tf, avg, avg, p) * (tf as real + p.k1) == idf * (tf as real * (p.k1 + 1.0))
  {
    ScoreTimes(idf, 1, avg, avg, p);
    ScoreTimes(idf, tf, avg, avg, p);
    SameFactor(Bm25Score(idf, 1, avg, avg, p), idf, 1.0 + p.k1);
  }

  lemma {:induction false} SameFactor(x: real, y: real, c: real)
    requires c > 0.0 && x * c == y * c
    ensures x == y
  {
    assert x == (x * c) / c;
  }

  /** As many occurrences as the normalisation reach half of the limit. */
  lemma {:induction false} HalfOfTheLimit(idf: real, tf: nat, docLen: real, avg: real, p: Params)
    requires p.Valid() && docLen >= 0.0 && tf > 0 && tf as real == Norm(docLen, avg, p)
    ensures 2.0 * Bm25Score(idf, tf, docLen, avg, p) == idf * (p.k1 + 1.0)
  {
    ScoreTimes(idf, tf, docLen, avg, p);
    var n, s := tf as real, Bm25Score(idf, tf, docLen, avg, p);
    assert s * (n + n) == (2.0 * s) * n;
    assert idf * (n * (p.k1 + 1.0)) == (idf * (p.k1 + 1.0)) * n;
    SameFactor(2.0 * s, idf * (p.k1 + 1.0), n);
  }

  /** The normalisation: k1 at the average length, k1 * (1 - b) for an empty
      field, and in between and beyond on the line through both; k1 for every
      length when the average is 0. */
  lemma {:induction false} NormIsAffine(docLen: real, other: real, avg: real, p: Params)
    requires p.Valid() && docLen >= 0.0 && other >= 0.0 && avg >= 0.0
    ensures Norm(avg, avg, p) == p.k1
    ensures avg > 0.0 ==> Norm(0.0, avg, p) == p.k1 * (1.0 - p.b)
    ensures avg > 0.0 ==> Norm(docLen + other, avg, p) + Norm(0.0, avg, p) == Norm(docLen, avg, p) + Norm(other, avg, p)
    ensures avg > 0.0 ==> (Norm(docLen, avg, p) - Norm(0.0, avg, p)) * avg == p.k1 * (p.b * docLen)
    ensures avg == 0.0 ==> Norm(docLen, avg, p) == p.k1
  {
    if avg > 0.0 {
      hide Norm;
      NormAt(docLen, avg, p);
      NormAt(other, avg, p);
      NormAt(docLen + other, avg, p);
      NormAt(0.0, avg, p);
      SumOfQuotients(docLen, other, avg);
      Spread(p.k1, p.b, docLen / avg, other / avg);
      LineThrough(p.k1, p.b, docLen, avg);
    } else {
      FlatNorm(docLen, p);
    }
  }

  lemma {:induction false} FlatNorm(docLen: real, p: Params)
    requires p.Valid() && docLen >= 0.0
    ensures Norm(docLen, 0.0, p) == p.k1
  {
    assert p.b * 1.0 == p.b;
  }

  lemma {:induction false} SumOfQuotients(x: real, y: real, d: real)
    requires d > 0.0
    ensures (x + y) / d == x / d + y / d && 0.0 / d == 0.0
  {
  }

  lemma {:induction false} NormAt(docLen: real, avg: real, p: Params)
    requires p.Valid() && docLen >= 0.0 && avg > 0.0
    ensures Norm(docLen, avg, p) == p.k1 * (1.0 - p.b + p.b * (docLen / avg))
  {
  }

  lemma {:induction false} Spread(k: real, b: real, x: real, y: real)
    ensures k * (1.0 - b + b * (x + y)) + k * (1.0 - b + b * 0.0) == k * (1.0 - b + b * x) + k * (1.0 - b + b * y)
  {
    assert b * (x + y) == b * x + b * y;
    var u, v, w := 1.0 - b, b * x, b * y;
    assert b * 0.0 == 0.0;
    assert k * (u + (v + w)) == k * u + k * v + k * w;
    assert k * (u + v) == k * u + k * v && k * (u + w) == k * u + k * w;
  }

  lemma {:induction false} LineThrough(k: real, b: real, x: real, avg: real)
    requires avg > 0.0
    ensures (k * (1.0 - b + b * (x / avg)) - k * (1.0 - b + b * 0.0)) * avg == k * (b * x)
  {
    var r := x / avg;
    assert r * avg == x && b * 0.0 == 0.0;
    assert k * (1.0 - b + b * r) == k * (1.0 - b) + k * (b * r);
    assert (k * (b * r)) * avg == k * (b * (r * avg));
  }

  lemma {:induction false} BelowLimit(y: real, c: real, k: real)
    requires y > 0.0 && c > 0.0 && k > 0.0
    ensures 0.0 < Saturation(y, c, k) < c
  {
    assert y * c > 0.0 && c * k > 0.0;
    assert c * (y + k) == y * c + c * k;
    FractionLess(y * c, y + k, c, 1.0);
    FractionLess(0.0, 1.0, y * c, y + k);
  }

  lemma {:induction false} GrowingFraction(x: real, y: real, c: real, k: real)
    requires 0.0 < x < y && c > 0.0 && k > 0.0
    ensures Saturation(x, c, k) < Saturation(y, c, k)
  {
    assert c * k > 0.0;
    ScaledLess(c * k, x, y);
    assert (x * c) * (y + k) == x * c * y + (c * k) * x;
    assert (y * c) * (x + k) == x * c * y + (c * k) * y;
    FractionLess(x * c, x + k, y * c, y + k);
  }

  // ----- the idf -----

  /** What Bm25Idf takes the logarithm of. */
  function IdfArgument(total: nat, df: nat): real
  {
    (total as real - df as real + 0.5) / (df as real + 0.5) + 1.0
  }

  /** Bm25Idf; ln is std::log. */
  function Bm25Idf(total: nat, df: nat, ln: real -> real): real
  {
    if total == 0 then 0.0 else ln(IdfArgument(total, df))
  }

  ghost predicate IsLogarithm(ln: real -> real)
  {
    ln(1.0) == 0.0 && forall x, y :: 0.0 < x < y ==> ln(x) < ln(y)
  }

  /** The argument is (total + 1) / (df + 1/2): above 1 for every term that no
      more documents have than there are, and 2 for a term that half of them
      have. */
  lemma {:induction false} IdfArgumentIs(total: nat, df: nat)
    ensures IdfArgument(total, df) * (2 * df + 1) as real == 2.0 * (total + 1) as real
    ensures IdfArgument(total, df) > 0.0 && (df <= total ==> IdfArgument(total, df) > 1.0)
    ensures total == 2 * df ==> IdfArgument(total, df) == 2.0
  {
    var y, d := total as real - df as real + 0.5, df as real + 0.5;
    Quotient(y, d);
    var x := IdfArgument(total, df);
    assert x * d == y + d;
    assert x * (2 * df + 1) as real == 2.0 * (x * d);
    Above(x, d, y + d);
    if df <= total { Above(x - 1.0, d, y); }
    if total == 2 * df { SameFactor(x, 2.0, d); }
  }

  lemma {:induction false} Above(x: real, d: real, y: real)
    requires d > 0.0 && x * d == y && y > 0.0
    ensures x > 0.0
  {
    if x <= 0.0 { NotNegative(-x, d); }
  }

  /** A term that fewer documents have counts more, and every term counts
      something; in an empty index none does. */
  lemma {:induction false} RarerCountsMore(total: nat, a: nat, b: nat, ln: real -> real)
    requires IsLogarithm(ln)
    ensures Bm25Idf(0, a, ln) == 0.0
    ensures 0 < total && a < b ==> Bm25Idf(total, a, ln) > Bm25Idf(total, b, ln)
    ensures 0 < total && a <= total ==> Bm25Idf(total, a, ln) > 0.0
  {
    IdfArgumentIs(total, a);
    IdfArgumentIs(total, b);
    hide IdfArgument;
    if a < b { Shrinks(IdfArgument(total, a), IdfArgument(total, b), (2 * a + 1) as real, (2 * b + 1) as real); }
  }

  lemma {:induction false} Shrinks(x: real, y: real, c: real, d: real)
    requires x * c == y * d && y > 0.0 && 0.0 < c < d
    ensures x > y
  {
    assert y * d == y * c + y * (d - c) && y * (d - c) > 0.0;
    assert (x - y) * c == y * (d - c);
    Above(x - y, c, y * (d - c));
  }

  // ----- the leaves of a query -----

  datatype Leaf = Leaf(field: string, text: string)

  /** The analyzer type for a field name; unknown fields are text. */
  function KindOf(schema: Schema, field: string): FieldType
  {
    var id := FieldId(schema.Names(), field);
    if id.Some? then schema.fields[id.value].kind else FieldType.Text
  }

  function TokenLeaves(field: string, tokens: seq<Token>): seq<Leaf>
  {
    if tokens == [] then [] else [Leaf(field, tokens[0].text)] + TokenLeaves(field, tokens[1..])
  }

  /** The leaves in query order, repeated as often as they occur. */
  function Leaves(q: Query, schema: Schema): seq<Leaf>
    decreases q
  {
    match q
    case MatchAll => []
    case Term(field, text) => TokenLeaves(field, TokensOf(KindOf(schema, field), text))
    case Conjunction(children) => AllLeaves(children, schema)
    case Disjunction(children) => AllLeaves(children, schema)
  }

  function AllLeaves(children: seq<Query>, schema: Schema): seq<Leaf>
    decreases children
  {
    if children == [] then [] else Leaves(children[0], schema) + AllLeaves(children[1..], schema)
  }

  method CollectLeaves(q: Query, schema: Schema, out: seq<Leaf>) returns (r: seq<Leaf>)
    ensures r == out + Leaves(q, schema)
    decreases q
  {
    r := out;
    match q
    case MatchAll =>
    case Term(field, text) =>
      var tokens := Analyze(KindOf(schema, field), text);
      for k := 0 to |tokens|
        invariant r + TokenLeaves(field, tokens[k..]) == out + TokenLeaves(field, tokens)
      {
        assert tokens[k..][0] == tokens[k] && tokens[k..][1..] == tokens[k + 1..];
        r := r + [Leaf(field, tokens[k].text)];
      }
      assert tokens[|tokens|..] == [];
    case Conjunction(children) =>
      r := CollectAll(children, schema, out);
    case Disjunction(children) =>
      r := CollectAll(children, schema, out);
  }

  method CollectAll(children: seq<Query>, schema: Schema, out: seq<Leaf>) returns (r: seq<Leaf>)
    ensures r == out + AllLeaves(children, schema)
    decreases children
  {
    r := out;
    for k := 0 to |children|
      invariant r + AllLeaves(children[k..], schema) == out + AllLeaves(children, schema)
    {
      assert children[k..][0] == children[k] && children[k..][1..] == children[k + 1..];
      r := CollectLeaves(children[k], schema, r);
    }
    assert children[|children|..] == [];
  }

  // ----- what a leaf says about a document -----

  /** LeafContextItem.  Floats are exact reals. */
  datatype LeafItem = LeafItem(
    fieldId: nat, idf: real, boost: real, positionDecay: real, matched: bool, tf: nat, firstPos: nat, tokenWeight: real,
    fieldLen: real, avgFieldLen: real)

  /** Numbers that come from the whole index or from outside: the idf of a leaf,
      the average length of a field, and the value of a float's pattern. */
  datatype Statistics = Statistics(idf: (string, string) -> real, avg: string -> real, value: FloatBits -> real)
  {
    ghost predicate Valid() { forall name :: avg(name) >= 0.0 }
  }

  /** The item of a leaf, by looking at the document. */
  function ItemFor(l: Leaf, schema: Schema, doc: Document, st: Statistics): LeafItem
  {
    var avg := st.avg(l.field);
    match FieldId(schema.Names(), l.field)
    case None => LeafItem(INVALID_FIELD, st.idf(l.field, l.text), 1.0, 0.0, false, 0, 0, 1.0, avg, avg)
    case Some(i) =>
      var f := schema.fields[i];
      var matched := HasTerm(f, doc, l.text);
      var posting := PostingOf(f, doc, 0, l.text);
      var layout := LayoutOf(f);
      LeafItem(i, st.idf(l.field, l.text), st.value(f.boost), st.value(f.positionDecay), matched,
               if matched then posting.tf else 0,
               if matched && layout.hasPositions then posting.pos else 0,
               if matched && layout.hasTokenWeights then TokenWeight.Dequantize(TokenWeight.Quantize(posting.weight)) else 1.0,
               avg, avg)
  }

  function ItemsFor(leaves: seq<Leaf>, schema: Schema, doc: Document, st: Statistics): (items: seq<LeafItem>)
  {
    seq(|leaves|, k requires 0 <= k < |leaves| => ItemFor(leaves[k], schema, doc, st))
  }

  /** What a term iterator that reads the bytes of a list with some layout finds
      for a document: the layout need not be that of the field. */
  ghost function ListHit(f: FieldMapping, docs: seq<Document>, term: string, layout: Layout, d: nat): Option<Hit>
    requires |docs| <= NO_MORE
  {
    var list := ListFor(f, docs, term);
    if list == [] then None
    else
      ListIsValid(f, docs, term);
      var s := List(EntriesOf(list), LayoutOf(f));
      var r := AdvanceState(s, layout, StartState(s), d);
      if r.current == d then Some(r.hit) else None
  }

  /** With the field's own layout the hit is the document's posting. */
  lemma {:induction false} OwnLayout(f: FieldMapping, docs: seq<Document>, term: string, d: nat)
    requires d < |docs| <= NO_MORE
    ensures ListHit(f, docs, term, LayoutOf(f), d)
         == if HasTerm(f, docs[d], term) then Some(HitOf(MutableSegments.EntryOf(PostingOf(f, docs[d], d, term)), LayoutOf(f)))
            else None
  {
    hide PostingOf, HasTerm, ListFor, List, AdvanceState, HitOf;
    var list := ListFor(f, docs, term);
    ListIsValid(f, docs, term);
    var i := LookUp(EntriesOf(list), LayoutOf(f), d);
    var s := List(EntriesOf(list), LayoutOf(f));
    if HasTerm(f, docs[d], term) {
      var j := TermIsListed(f, docs, term, d);
      PostingNames(f, docs[d], d, term);
      assert EntriesOf(list)[j].doc == d;
    }
    if list != [] && AdvanceState(s, LayoutOf(f), StartState(s), d).current == d {
      ListedHasTerm(f, docs, term, i);
    }
  }

  lemma {:induction false} PostingNames(f: FieldMapping, doc: Document, d: nat, term: string)
    ensures PostingOf(f, doc, d, term).doc == d
  {
  }

  /** The hit of a term iterator that has been moved to a document. */
  method Probe(seg: SegmentReader, i: nat, te: TermEntry, layout: Layout, d: nat, f: FieldMapping, ghost docs: seq<Document>)
    returns (hit: Option<Hit>)
    requires i < |seg.fields| && |docs| <= NO_MORE && Leads(seg, i, te, f, docs) && d < |docs|
    ensures hit == ListHit(f, docs, te.term, layout, d)
  {
    hide PostingOf, HasTerm, List, AdvanceState;
    ghost var list := ListFor(f, docs, te.term);
    ListIsValid(f, docs, te.term);
    var it := new TermIterator(seg.PostingBytes(i, te), te.df, te.totalTf, layout, EntriesOf(list));
    var r := it.Advance(d);
    return if r == d then Some(it.hit) else None;
  }

  /** The first pass: every iterator is built for lists without payload. */
  function StageOneScore(items: seq<LeafItem>, p: Params): real
    requires p.Valid() && forall k :: 0 <= k < |items| ==> items[k].fieldLen >= 0.0
  {
    if items == [] then 0.0
    else
      var n := |items| - 1;
      var l := items[n];
      StageOneScore(items[..n], p)
      + if l.matched then Bm25Score(l.idf, l.tf, l.fieldLen, l.avgFieldLen, p) else 0.0
  }

  ghost predicate Plain(leaves: seq<Leaf>, schema: Schema)
  {
    forall k :: 0 <= k < |leaves| ==> PlainField(schema, leaves[k].field)
  }

  /** The field stores neither positions nor weights. */
  predicate PlainField(schema: Schema, field: string)
  {
    var id := FieldId(schema.Names(), field);
    id.None? || LayoutOf(schema.fields[id.value]) == Layout(false, false)
  }

  /** What the first pass takes for the frequency of a leaf in a document: the
      iterator is always built as if the field stored no payload. */
  ghost function FirstPassTf(l: Leaf, schema: Schema, docs: seq<Document>, d: nat): Option<nat>
    requires |docs| <= NO_MORE
  {
    match FieldId(schema.Names(), l.field)
    case None => None
    case Some(i) =>
      var hit := ListHit(schema.fields[i], docs, l.text, Layout(false, false), d);
      if hit.Some? then Some(hit.value.freq) else None
  }

  /** What it should be: the frequency, if the document has the term. */
  ghost function TrueTf(l: Leaf, schema: Schema, doc: Document): Option<nat>
  {
    match FieldId(schema.Names(), l.field)
    case None => None
    case Some(i) => if HasTerm(schema.fields[i], doc, l.text) then Some(PostingOf(schema.fields[i], doc, 0, l.text).tf) else None
  }

  /** One leaf of the first pass, for every layout of its field. */
  method StageOneLeaf(l: Leaf, seg: SegmentReader, schema: Schema, d: nat, ghost docs: seq<Document>) returns (tf: Option<nat>)
    requires Reads(seg, schema, docs) && schema.Valid() && d < |docs|
    ensures tf == FirstPassTf(l, schema, docs, d)
  {
    hide ListFor, HasTerm, SegmentReader.Valid, AdvanceState, List;
    var fid := seg.GetFieldId(l.field);
    if fid.None? {
      QueryPlan.NoSuchField(seg, schema, docs, l.field);
      return None;
    }
    var i := fid.value;
    QueryPlan.SameField(seg, schema, docs, l.field, i);
    var te := seg.FindTerm(i, l.text);
    if te.None? {
      assert !HasEntry(seg.fields[i].terms, l.text);
      return None;
    }
    assert Leads(seg, i, te.value, schema.fields[i], docs);
    var hit := Probe(seg, i, te.value, Layout(false, false), d, schema.fields[i], docs);
    return if hit.None? then None else Some(hit.value.freq);
  }

  /** Fields without payload are read with their own layout. */
  lemma {:induction false} PlainIsTrue(l: Leaf, schema: Schema, docs: seq<Document>, d: nat)
    requires d < |docs| <= NO_MORE && PlainField(schema, l.field)
    ensures FirstPassTf(l, schema, docs, d) == TrueTf(l, schema, docs[d])
  {
    hide ListHit, HasTerm;
    var id := FieldId(schema.Names(), l.field);
    if id.Some? { OwnLayout(schema.fields[id.value], docs, l.text, d); }
  }

  lemma {:induction false} TermAbsent(seg: SegmentReader, i: nat, f: FieldMapping, docs: seq<Document>, term: string, d: nat)
    requires i < |seg.fields| && |docs| <= NO_MORE && ReadsField(seg, i, f, docs) && d < |docs|
    requires forall k :: 0 <= k < |seg.fields[i].terms| ==> seg.fields[i].terms[k].term != term
    ensures !HasTerm(f, docs[d], term)
  {
    QueryPlan.NotIndexed(seg, i, f, docs, term);
    assert HasTerm(f, docs[d], term) <==> d in TermDocs(f, docs, term);
  }

  /** The score of the first pass, whatever the fields store. */
  ghost function FirstPassScore(leaves: seq<Leaf>, schema: Schema, docs: seq<Document>, d: nat, st: Statistics, p: Params): real
    requires |docs| <= NO_MORE && st.Valid() && p.Valid()
  {
    if leaves == [] then 0.0
    else
      var n := |leaves| - 1;
      FirstPassScore(leaves[..n], schema, docs, d, st, p) + LeafPart(leaves[n], FirstPassTf(leaves[n], schema, docs, d), st, p)
  }

  lemma {:induction false} TokenLeavesAt(field: string, tokens: seq<Token>)
    ensures |TokenLeaves(field, tokens)| == |tokens|
    ensures forall k :: 0 <= k < |tokens| ==> TokenLeaves(field, tokens)[k] == Leaf(field, tokens[k].text)
  {
    if tokens != [] {
      TokenLeavesAt(field, tokens[1..]);
      forall k | 1 <= k < |tokens| ensures TokenLeaves(field, tokens)[k] == Leaf(field, tokens[k].text) {
        assert tokens[1..][k - 1] == tokens[k];
      }
    }
  }

  /** The leaves of a term name its field and one token each, and a document
      satisfies the term exactly when it has them all and there are any. */
  lemma {:induction false} TermHasLeaves(field: string, text: string, schema: Schema, doc: Document)
    ensures var leaves := Leaves(Query.Term(field, text), schema);
      && (forall k :: 0 <= k < |leaves| ==> leaves[k].field == field)
      && (Matches(Query.Term(field, text), schema, doc) <==>
            leaves != [] && forall k :: 0 <= k < |leaves| ==> TrueTf(leaves[k], schema, doc).Some?)
  {
    hide HasTerm, PostingOf, TokensOf;
    TokenLeavesAt(field, TokensOf(KindOf(schema, field), text));
  }

  /** Operands have their leaves one after the other, under either operator. */
  lemma {:induction false} LeavesInOrder(a: seq<Query>, q: Query, b: seq<Query>, schema: Schema)
    ensures Leaves(Conjunction(a + [q] + b), schema)
         == Leaves(Conjunction(a), schema) + Leaves(q, schema) + Leaves(Conjunction(b), schema)
    ensures Leaves(Disjunction(a), schema) == Leaves(Conjunction(a), schema)
    ensures Leaves(Conjunction([]), schema) == Leaves(MatchAll, schema) == []
    decreases |a|
  {
    if a == [] {
      assert a + [q] + b == [q] + b && ([q] + b)[1..] == b;
    } else {
      assert (a + [q] + b)[1..] == a[1..] + [q] + b;
      LeavesInOrder(a[1..], q, b, schema);
    }
  }

  /** What a leaf adds to the score, if it has a frequency. */
  function LeafPart(l: Leaf, tf: Option<nat>, st: Statistics, p: Params): real
    requires p.Valid() && st.avg(l.field) >= 0.0
  {
    if tf.Some? then Bm25Score(st.idf(l.field, l.text), tf.value, st.avg(l.field), st.avg(l.field), p) else 0.0
  }

  /** Two sets of statistics that say the same of the leaves. */
  ghost predicate Agree(leaves: seq<Leaf>, a: Statistics, b: Statistics)
  {
    forall k :: 0 <= k < |leaves| ==>
      a.idf(leaves[k].field, leaves[k].text) == b.idf(leaves[k].field, leaves[k].text) && a.avg(leaves[k].field) == b.avg(leaves[k].field)
  }

  lemma {:induction false} AgreeScore(leaves: seq<Leaf>, schema: Schema, docs: seq<Document>, d: nat, a: Statistics, b: Statistics, p: Params)
    requires |docs| <= NO_MORE && a.Valid() && b.Valid() && p.Valid() && Agree(leaves, a, b)
    ensures FirstPassScore(leaves, schema, docs, d, a, p) == FirstPassScore(leaves, schema, docs, d, b, p)
  {
    hide FirstPassTf, Bm25Score;
    if leaves != [] {
      var n := |leaves| - 1;
      assert leaves[n] == leaves[..n + 1][n];
      AgreeScore(leaves[..n], schema, docs, d, a, b, p);
    }
  }

  /** The items of the second pass depend on the statistics only through what
      they say of the leaves. */
  lemma {:induction false} AgreeItems(leaves: seq<Leaf>, schema: Schema, doc: Document, a: Statistics, b: Statistics)
    requires Agree(leaves, a, b) && a.value == b.value
    ensures ItemsFor(leaves, schema, doc, a) == ItemsFor(leaves, schema, doc, b)
  {
    hide HasTerm, PostingOf;
    forall k | 0 <= k < |leaves| ensures ItemFor(leaves[k], schema, doc, a) == ItemFor(leaves[k], schema, doc, b) {}
  }

  method StageOne(leaves: seq<Leaf>, seg: SegmentReader, schema: Schema, d: nat, st: Statistics, p: Params, ghost docs: seq<Document>)
    returns (score: real)
    requires Reads(seg, schema, docs) && schema.Valid() && d < |docs| && st.Valid() && p.Valid()
    ensures score == FirstPassScore(leaves, schema, docs, d, st, p)
  {
    hide Reads, Schema.Valid, FirstPassTf, Bm25Score;
    ReadsFit(seg, schema, docs);
    score := 0.0;
    for k := 0 to |leaves|
      invariant score == FirstPassScore(leaves[..k], schema, docs, d, st, p)
    {
      assert leaves[..k + 1][..k] == leaves[..k];
      var tf := StageOneLeaf(leaves[k], seg, schema, d, docs);
      score := score + LeafPart(leaves[k], tf, st, p);
    }
    assert leaves[..|leaves|] == leaves;
  }

  lemma {:induction false} ReadsFit(seg: SegmentReader, schema: Schema, docs: seq<Document>)
    requires Reads(seg, schema, docs)
    ensures |docs| <= NO_MORE
  {
  }

  /** When no field of the query stores a payload, the score of the first pass is
      the sum over the leaves that the document has. */
  lemma {:induction false} PlainScore(leaves: seq<Leaf>, schema: Schema, docs: seq<Document>, d: nat, st: Statistics, p: Params)
    requires d < |docs| <= NO_MORE && st.Valid() && p.Valid() && Plain(leaves, schema)
    ensures LengthsFit(leaves, schema, docs[d], st)
    ensures FirstPassScore(leaves, schema, docs, d, st, p) == StageOneScore(ItemsFor(leaves, schema, docs[d], st), p)
  {
    hide Bm25Score, FirstPassTf, ItemFor, PlainField, TrueTf;
    AllLengthsFit(leaves, schema, docs[d], st);
    if leaves != [] {
      var n := |leaves| - 1;
      PlainScore(leaves[..n], schema, docs, d, st, p);
      var items := ItemsFor(leaves, schema, docs[d], st);
      assert items[..n] == ItemsFor(leaves[..n], schema, docs[d], st);
      assert PlainField(schema, leaves[n].field);
      PlainIsTrue(leaves[n], schema, docs, d);
      ItemNumbers(leaves[n], schema, docs[d], st);
    }
  }

  ghost predicate LengthsFit(leaves: seq<Leaf>, schema: Schema, doc: Document, st: Statistics)
  {
    forall k :: 0 <= k < |leaves| ==> ItemsFor(leaves, schema, doc, st)[k].fieldLen >= 0.0
  }

  lemma {:induction false} AllLengthsFit(leaves: seq<Leaf>, schema: Schema, doc: Document, st: Statistics)
    requires st.Valid()
    ensures LengthsFit(leaves, schema, doc, st)
  {
  }

  lemma {:induction false} ItemNumbers(l: Leaf, schema: Schema, doc: Document, st: Statistics)
    ensures var item := ItemFor(l, schema, doc, st);
      && item.idf == st.idf(l.field, l.text) && item.fieldLen == item.avgFieldLen == st.avg(l.field)
      && TrueTf(l, schema, doc) == if item.matched then Some(item.tf) else None
  {
  }

  /** The idf of the leaves that the document has. */
  ghost function IdfSum(leaves: seq<Leaf>, schema: Schema, doc: Document, st: Statistics): real
  {
    if leaves == [] then 0.0
    else
      var n := |leaves| - 1;
      IdfSum(leaves[..n], schema, doc, st) + if TrueTf(leaves[n], schema, doc).Some? then st.idf(leaves[n].field, leaves[n].text) else 0.0
  }

  /** The document has no leaf more than once. */
  ghost predicate AtMostOnce(leaves: seq<Leaf>, schema: Schema, doc: Document)
  {
    forall k :: 0 <= k < |leaves| ==> TrueTf(leaves[k], schema, doc) in {None, Some(1)}
  }

  /** A document that has every leaf once or not at all scores the sum of the idf
      of those that it has, whatever k1 and b. */
  lemma {:induction false} OnceEach(leaves: seq<Leaf>, schema: Schema, doc: Document, st: Statistics, p: Params)
    requires p.Valid() && LengthsFit(leaves, schema, doc, st)
    requires AtMostOnce(leaves, schema, doc)
    ensures StageOneScore(ItemsFor(leaves, schema, doc, st), p) == IdfSum(leaves, schema, doc, st)
  {
    hide Bm25Score, ItemFor, TrueTf;
    if leaves != [] {
      var n := |leaves| - 1;
      var items := ItemsFor(leaves, schema, doc, st);
      assert items[..n] == ItemsFor(leaves[..n], schema, doc, st);
      forall k | 0 <= k < n ensures ItemsFor(leaves[..n], schema, doc, st)[k].fieldLen >= 0.0 { assert items[k].fieldLen >= 0.0; }
      OnceEach(leaves[..n], schema, doc, st, p);
      ItemNumbers(leaves[n], schema, doc, st);
      assert TrueTf(leaves[n], schema, doc) in {None, Some(1)};
      assert items[n].fieldLen >= 0.0;
      AverageLengthScore(items[n].idf, 1, items[n].fieldLen, p);
    }
  }

  // ----- the second pass -----

  /** One item of the second pass, which reads the payload that the field
      stores. */
  method BuildItem(l: Leaf, seg: SegmentReader, schema: Schema, d: nat, st: Statistics, ghost docs: seq<Document>)
    returns (item: LeafItem)
    requires Reads(seg, schema, docs) && schema.Valid() && d < |docs|
    ensures item == ItemFor(l, schema, docs[d], st)
  {
    hide ListFor, HasTerm, SegmentReader.Valid;
    var avg := st.avg(l.field);
    item := LeafItem(INVALID_FIELD, st.idf(l.field, l.text), 1.0, 0.0, false, 0, 0, 1.0, avg, avg);
    var fid := seg.GetFieldId(l.field);
    if fid.None? {
      QueryPlan.NoSuchField(seg, schema, docs, l.field);
      return;
    }
    var i := fid.value;
    QueryPlan.SameField(seg, schema, docs, l.field, i);
    var stats := seg.fields[i].stats;
    item := item.(fieldId := i, boost := st.value(stats.boost), positionDecay := st.value(stats.positionDecay));
    var te := seg.FindTerm(i, l.text);
    if te.None? {
      TermAbsent(seg, i, schema.fields[i], docs, l.text, d);
      return;
    }
    assert Leads(seg, i, te.value, schema.fields[i], docs);
    var hit := Probe(seg, i, te.value, stats.layout, d, schema.fields[i], docs);
    OwnLayout(schema.fields[i], docs, l.text, d);
    if hit.Some? {
      item := item.(matched := true, tf := hit.value.freq);
      if stats.layout.hasPositions { item := item.(firstPos := hit.value.pos); }
      if stats.layout.hasTokenWeights { item := item.(tokenWeight := hit.value.weight); }
    }
  }

  method BuildContext(leaves: seq<Leaf>, seg: SegmentReader, schema: Schema, d: nat, st: Statistics, ghost docs: seq<Document>)
    returns (items: seq<LeafItem>)
    requires Reads(seg, schema, docs) && schema.Valid() && d < |docs|
    ensures items == ItemsFor(leaves, schema, docs[d], st)
  {
    hide Reads, ItemFor, Schema.Valid;
    items := [];
    for k := 0 to |leaves|
      invariant items == ItemsFor(leaves, schema, docs[d], st)[..k]
    {
      var item := BuildItem(leaves[k], seg, schema, d, st, docs);
      items := items + [item];
    }
  }

  /** A leaf's part of the total: its score times the boost of its field. */
  function LeafScore(l: LeafItem, p: Params): real
    requires p.Valid()
  {
    if l.fieldLen >= 0.0 then Bm25Score(l.idf, l.tf, l.fieldLen, l.avgFieldLen, p) * l.boost else 0.0
  }

  /** The sum of a quantity over the leaves that match. */
  function SumOver(items: seq<LeafItem>, g: LeafItem -> real): real
  {
    if items == [] then 0.0
    else
      var n := |items| - 1;
      SumOver(items[..n], g) + if items[n].matched then g(items[n]) else 0.0
  }

  predicate HasDecay(l: LeafItem)
  {
    l.matched && l.positionDecay > 0.0 && l.fieldLen > 0.0
  }

  /** x is the least g among the leaves chosen by a test, or 0 if there are
      none. */
  ghost predicate IsLeast(items: seq<LeafItem>, test: LeafItem -> bool, g: LeafItem -> real, any: bool, x: real)
  {
    && (any <==> exists k :: 0 <= k < |items| && test(items[k]))
    && (forall k :: 0 <= k < |items| && test(items[k]) ==> x <= g(items[k]))
    && (if any then exists k :: 0 <= k < |items| && test(items[k]) && g(items[k]) == x else x == 0.0)
  }

  lemma {:induction false} LeastNext(items: seq<LeafItem>, l: LeafItem, test: LeafItem -> bool, g: LeafItem -> real, any: bool, x: real)
    requires IsLeast(items, test, g, any, x)
    ensures !test(l) ==> IsLeast(items + [l], test, g, any, x)
    ensures test(l) ==> IsLeast(items + [l], test, g, true, if !any || g(l) < x then g(l) else x)
  {
    var all := items + [l];
    assert all[|items|] == l;
    if any {
      var k :| 0 <= k < |items| && test(items[k]) && g(items[k]) == x;
      assert all[k] == items[k];
    }
    if exists k :: 0 <= k < |all| && test(all[k]) {
      var k :| 0 <= k < |all| && test(all[k]);
      assert k < |items| ==> all[k] == items[k];
    }
  }

  /** The first pass and the total feature agree when no field is boosted. */
  lemma {:induction false} PassesAgree(items: seq<LeafItem>, p: Params)
    requires p.Valid() && forall k :: 0 <= k < |items| ==> items[k].fieldLen >= 0.0 && items[k].boost == 1.0
    ensures StageOneScore(items, p) == SumOver(items, (l: LeafItem) => LeafScore(l, p))
  {
    if items != [] {
      PassesAgree(items[..|items| - 1], p);
    }
  }

  /** A boost multiplies the score of a leaf. */
  lemma {:induction false} BoostScales(l: LeafItem, c: real, p: Params)
    requires p.Valid() && l.fieldLen >= 0.0
    ensures LeafScore(l.(boost := c * l.boost), p) == c * LeafScore(l, p)
    ensures l.boost == 1.0 ==> LeafScore(l, p) == Bm25Score(l.idf, l.tf, l.fieldLen, l.avgFieldLen, p)
  {
    var s := Bm25Score(l.idf, l.tf, l.fieldLen, l.avgFieldLen, p);
    assert s * (c * l.boost) == c * (s * l.boost);
  }

  // ----- the feature vector -----

  const FEATURES: nat := 19

  /** The leaves of one of the first four fields. */
  function InField(l: LeafItem, i: nat, p: Params): real
    requires p.Valid()
  {
    if l.fieldId == i then LeafScore(l, p) else 0.0
  }

  /** The argument of std::exp. */
  function Exponent(l: LeafItem): real
    requires l.fieldLen > 0.0
  {
    -l.positionDecay * (l.firstPos as real) / l.fieldLen
  }

  function DecayOf(l: LeafItem, exp: real -> real): real
  {
    if l.positionDecay > 0.0 && l.fieldLen > 0.0 then exp(Exponent(l)) else 0.0
  }

  function NormOf(l: LeafItem): real
  {
    if l.fieldLen > 0.0 then l.firstPos as real / l.fieldLen else 0.0
  }

  /** The position of a leaf relative to the length of its field, and its decay;
      both are 0 for fields without decay, or without length. */
  lemma {:induction false} PositionFeatures(l: LeafItem, exp: real -> real) returns (x: real)
    ensures l.fieldLen > 0.0 ==> NormOf(l) * l.fieldLen == l.firstPos as real
    ensures l.positionDecay > 0.0 && l.fieldLen > 0.0 ==>
      DecayOf(l, exp) == exp(x) && x * l.fieldLen == -(l.positionDecay * l.firstPos as real)
    ensures l.fieldLen <= 0.0 ==> NormOf(l) == 0.0
    ensures l.positionDecay <= 0.0 || l.fieldLen <= 0.0 ==> DecayOf(l, exp) == 0.0
  {
    x := if l.fieldLen > 0.0 then Exponent(l) else 0.0;
    if l.fieldLen > 0.0 {
      Quotient(l.firstPos as real, l.fieldLen);
      Quotient(-l.positionDecay * (l.firstPos as real), l.fieldLen);
      assert -l.positionDecay * (l.firstPos as real) == -(l.positionDecay * (l.firstPos as real));
    }
  }

  /** The sums that the loop carries. */
  datatype Sums = Sums(total: real, tf: real, idf: real, matched: real, field0: real, field1: real, field2: real, field3: real,
                       decay: real, weight: real)

  function SumsOf(items: seq<LeafItem>, p: Params, exp: real -> real): Sums
    requires p.Valid()
  {
    Sums(SumOver(items, (l: LeafItem) => LeafScore(l, p)), SumOver(items, (l: LeafItem) => l.tf as real),
         SumOver(items, (l: LeafItem) => l.idf), SumOver(items, (l: LeafItem) => 1.0),
         SumOver(items, (l: LeafItem) => InField(l, 0, p)), SumOver(items, (l: LeafItem) => InField(l, 1, p)),
         SumOver(items, (l: LeafItem) => InField(l, 2, p)), SumOver(items, (l: LeafItem) => InField(l, 3, p)),
         SumOver(items, (l: LeafItem) => DecayOf(l, exp)), SumOver(items, (l: LeafItem) => l.tokenWeight))
  }

  /** The loop body of ExtractFeatures on the sums. */
  function Accumulate(s: Sums, l: LeafItem, p: Params, exp: real -> real): Sums
    requires p.Valid()
  {
    var sc := LeafScore(l, p);
    Sums(s.total + sc, s.tf + l.tf as real, s.idf + l.idf, s.matched + 1.0,
         if l.fieldId == 0 then s.field0 + sc else s.field0, if l.fieldId == 1 then s.field1 + sc else s.field1,
         if l.fieldId == 2 then s.field2 + sc else s.field2, if l.fieldId == 3 then s.field3 + sc else s.field3,
         s.decay + DecayOf(l, exp), s.weight + l.tokenWeight)
  }

  lemma {:induction false} SumsNext(items: seq<LeafItem>, l: LeafItem, p: Params, exp: real -> real)
    requires p.Valid()
    ensures SumsOf(items + [l], p, exp)
         == if l.matched then Accumulate(SumsOf(items, p, exp), l, p, exp) else SumsOf(items, p, exp)
  {
    hide LeafScore, DecayOf;
    assert (items + [l])[..|items|] == items;
  }

  /** The fields' parts add up to the total when every match is in one of the
      first four fields. */
  lemma {:induction false} FieldsAddUp(items: seq<LeafItem>, p: Params, exp: real -> real)
    requires p.Valid() && forall k :: 0 <= k < |items| && items[k].matched ==> items[k].fieldId < 4
    ensures var s := SumsOf(items, p, exp); s.total == s.field0 + s.field1 + s.field2 + s.field3
  {
    hide LeafScore, DecayOf;
    if items != [] {
      var n := |items| - 1;
      assert items == items[..n] + [items[n]];
      FieldsAddUp(items[..n], p, exp);
      SumsNext(items[..n], items[n], p, exp);
    }
  }

  /** The extremes that the loop carries. */
  datatype Extremes = Extremes(weightMax: real, anyIdf: bool, minIdf: real, maxIdf: real, anyPos: bool, minNorm: real)

  /** The loop body of ExtractFeatures on the extremes. */
  function Widen(x: Extremes, l: LeafItem): Extremes
  {
    var norm := NormOf(l);
    var located := l.positionDecay > 0.0 && l.fieldLen > 0.0;
    Extremes(if l.tokenWeight > x.weightMax then l.tokenWeight else x.weightMax,
             true, if !x.anyIdf || l.idf < x.minIdf then l.idf else x.minIdf,
             if !x.anyIdf || l.idf > x.maxIdf then l.idf else x.maxIdf,
             x.anyPos || located, if located && (!x.anyPos || norm < x.minNorm) then norm else x.minNorm)
  }

  ghost predicate Tracks(items: seq<LeafItem>, x: Extremes)
  {
    && IsLeast(items, IsMatched, Idf, x.anyIdf, x.minIdf) && IsLeast(items, IsMatched, NegatedIdf, x.anyIdf, -x.maxIdf)
    && IsLeast(items, HasDecay, NormOf, x.anyPos, x.minNorm)
    && IsGreatest(items, x.weightMax)
  }

  /** w is the largest weight of a matching leaf, or 0 when there is none above
      0. */
  ghost predicate IsGreatest(items: seq<LeafItem>, w: real)
  {
    && w >= 0.0 && (forall k :: 0 <= k < |items| && items[k].matched ==> items[k].tokenWeight <= w)
    && (w == 0.0 || exists k :: 0 <= k < |items| && items[k].matched && items[k].tokenWeight == w)
  }

  lemma {:induction false} GreatestNext(items: seq<LeafItem>, l: LeafItem, w: real)
    requires IsGreatest(items, w)
    ensures IsGreatest(items + [l], if l.matched && l.tokenWeight > w then l.tokenWeight else w)
  {
    var all := items + [l];
    assert all[|items|] == l;
    if w != 0.0 {
      var k :| 0 <= k < |items| && items[k].matched && items[k].tokenWeight == w;
      assert all[k] == items[k];
    }
  }

  predicate IsMatched(l: LeafItem) { l.matched }

  function Idf(l: LeafItem): real { l.idf }

  function NegatedIdf(l: LeafItem): real { -l.idf }

  lemma {:induction false} TracksNext(items: seq<LeafItem>, l: LeafItem, x: Extremes)
    requires Tracks(items, x)
    ensures Tracks(items + [l], if l.matched then Widen(x, l) else x)
  {
    hide IsLeast, IsGreatest;
    GreatestNext(items, l, x.weightMax);
    LeastNext(items, l, IsMatched, Idf, x.anyIdf, x.minIdf);
    LeastNext(items, l, IsMatched, NegatedIdf, x.anyIdf, -x.maxIdf);
    LeastNext(items, l, HasDecay, NormOf, x.anyPos, x.minNorm);
  }

  /** The vector has the sums over the matching leaves and the extremes of their
      weight, idf and position. */
  ghost predicate IsFeatures(v: seq<real>, items: seq<LeafItem>, numQueryLeaves: nat, quality: Option<real>, p: Params, exp: real -> real)
    requires p.Valid()
  {
    && |v| == FEATURES
    && (var s := SumsOf(items, p, exp);
        && v[..4] == [s.total, s.tf, s.idf, s.matched]
        && v[4..8] == [numQueryLeaves as real, if items == [] || numQueryLeaves == 0 then 0.0 else s.matched / numQueryLeaves as real,
                       0.0, 0.0]
        && v[8..14] == [s.field0, s.field1, s.field2, s.field3, s.decay, s.weight])
    && v[15] == (if quality.Some? then quality.value else 0.0)
    && Tracks(items, Extremes(v[14], AnyOf(items, IsMatched), v[16], v[17], AnyOf(items, HasDecay), v[18]))
  }

  /** Nothing about the vector is left open. */
  lemma {:induction false} FeaturesUnique(v: seq<real>, w: seq<real>, items: seq<LeafItem>, numQueryLeaves: nat, quality: Option<real>,
                                          p: Params, exp: real -> real)
    requires p.Valid() && IsFeatures(v, items, numQueryLeaves, quality, p, exp) && IsFeatures(w, items, numQueryLeaves, quality, p, exp)
    ensures v == w
  {
    hide SumsOf, IsLeast, IsGreatest;
    LeastUnique(items, IsMatched, Idf, AnyOf(items, IsMatched), v[16], w[16]);
    LeastUnique(items, IsMatched, NegatedIdf, AnyOf(items, IsMatched), -v[17], -w[17]);
    LeastUnique(items, HasDecay, NormOf, AnyOf(items, HasDecay), v[18], w[18]);
    GreatestUnique(items, v[14], w[14]);
    assert v == v[..4] + v[4..8] + v[8..14] + [v[14], v[15], v[16], v[17], v[18]];
    assert w == w[..4] + w[4..8] + w[8..14] + [w[14], w[15], w[16], w[17], w[18]];
  }

  /** The features of a single leaf that matches, and of one that does not. */
  lemma {:induction false} OneLeafFeatures(v: seq<real>, l: LeafItem, n: nat, quality: Option<real>, p: Params, exp: real -> real)
    requires p.Valid() && IsFeatures(v, [l], n, quality, p, exp)
    ensures l.matched ==>
      && v[..4] == [LeafScore(l, p), l.tf as real, l.idf, 1.0]
      && v[8..12] == [if l.fieldId == 0 then v[0] else 0.0, if l.fieldId == 1 then v[0] else 0.0,
                      if l.fieldId == 2 then v[0] else 0.0, if l.fieldId == 3 then v[0] else 0.0]
      && v[12] == DecayOf(l, exp) && v[13] == l.tokenWeight && v[14] == (if l.tokenWeight > 0.0 then l.tokenWeight else 0.0)
      && v[16] == v[17] == l.idf && v[18] == if l.positionDecay > 0.0 then NormOf(l) else 0.0
    ensures !l.matched ==>
      v[..4] == [0.0, 0.0, 0.0, 0.0] && v[8..15] == [0.0, 0.0, 0.0, 0.0, 0.0, 0.0, 0.0] && v[16..] == [0.0, 0.0, 0.0]
    ensures v[4] == n as real && (n > 0 ==> v[5] * v[4] == v[3]) && v[15] == if quality.Some? then quality.value else 0.0
  {
    hide LeafScore, DecayOf, NormOf, SumsOf, Tracks;
    FeatureAt(v, [l], n, quality, p, exp);
    if n > 0 { Quotient(v[3], n as real); }
    SumsNext([], l, p, exp);
    NoItems(p, exp);
    assert [] + [l] == [l];
    OneLeafExtremes(l, Extremes(v[14], AnyOf([l], IsMatched), v[16], v[17], AnyOf([l], HasDecay), v[18]));
  }

  lemma {:induction false} OneLeafExtremes(l: LeafItem, x: Extremes)
    requires Tracks([l], x)
    ensures x.weightMax == if l.matched && l.tokenWeight > 0.0 then l.tokenWeight else 0.0
    ensures x.minIdf == x.maxIdf == if l.matched then l.idf else 0.0
    ensures x.minNorm == if l.matched && l.positionDecay > 0.0 then NormOf(l) else 0.0
  {
    assert [l][0] == l;
  }

  /** Where the sums are in the vector. */
  lemma {:induction false} FeatureAt(v: seq<real>, items: seq<LeafItem>, n: nat, quality: Option<real>, p: Params, exp: real -> real)
    requires p.Valid() && IsFeatures(v, items, n, quality, p, exp)
    ensures var s := SumsOf(items, p, exp);
      && v[0] == s.total && v[1] == s.tf && v[2] == s.idf && v[3] == s.matched
      && v[8] == s.field0 && v[9] == s.field1 && v[10] == s.field2 && v[11] == s.field3 && v[12] == s.decay && v[13] == s.weight
    ensures v[4] == n as real && v[6] == v[7] == 0.0
    ensures v[5] == if items == [] || n == 0 then 0.0 else v[3] / n as real
  {
    hide SumsOf, Tracks;
    assert v[0] == v[..4][0] && v[1] == v[..4][1] && v[2] == v[..4][2] && v[3] == v[..4][3];
    assert v[4] == v[4..8][0] && v[5] == v[4..8][1] && v[6] == v[4..8][2] && v[7] == v[4..8][3];
    assert v[8] == v[8..14][0] && v[9] == v[8..14][1] && v[10] == v[8..14][2] && v[11] == v[8..14][3];
    assert v[12] == v[8..14][4] && v[13] == v[8..14][5];
  }

  /** The features that are sums add up over the leaves. */
  lemma {:induction false} FeaturesAdd(u: seq<real>, v: seq<real>, w: seq<real>, a: seq<LeafItem>, b: seq<LeafItem>, n: nat,
                                       quality: Option<real>, p: Params, exp: real -> real)
    requires p.Valid() && IsFeatures(u, a, n, quality, p, exp) && IsFeatures(v, b, n, quality, p, exp)
    requires IsFeatures(w, a + b, n, quality, p, exp)
    ensures forall j :: 0 <= j < 4 || 8 <= j < 14 ==> w[j] == u[j] + v[j]
  {
    hide IsFeatures;
    FeatureAt(u, a, n, quality, p, exp);
    FeatureAt(v, b, n, quality, p, exp);
    FeatureAt(w, a + b, n, quality, p, exp);
    hide LeafScore, InField, DecayOf;
    SumOverConcat(a, b, (l: LeafItem) => LeafScore(l, p));
    SumOverConcat(a, b, (l: LeafItem) => l.tf as real);
    SumOverConcat(a, b, (l: LeafItem) => l.idf);
    SumOverConcat(a, b, (l: LeafItem) => 1.0);
    SumOverConcat(a, b, (l: LeafItem) => InField(l, 0, p));
    SumOverConcat(a, b, (l: LeafItem) => InField(l, 1, p));
    SumOverConcat(a, b, (l: LeafItem) => InField(l, 2, p));
    SumOverConcat(a, b, (l: LeafItem) => InField(l, 3, p));
    SumOverConcat(a, b, (l: LeafItem) => DecayOf(l, exp));
    SumOverConcat(a, b, (l: LeafItem) => l.tokenWeight);
  }

  lemma {:induction false} SumOverConcat(a: seq<LeafItem>, b: seq<LeafItem>, g: LeafItem -> real)
    ensures SumOver(a + b, g) == SumOver(a, g) + SumOver(b, g)
  {
    if b == [] {
      assert a + b == a;
    } else {
      var n := |b| - 1;
      assert (a + b)[..|a| + n] == a + b[..n];
      SumOverConcat(a, b[..n], g);
    }
  }

  lemma {:induction false} LeastUnique(items: seq<LeafItem>, test: LeafItem -> bool, g: LeafItem -> real, any: bool, x: real, y: real)
    requires IsLeast(items, test, g, any, x) && IsLeast(items, test, g, any, y)
    ensures x == y
  {
  }

  lemma {:induction false} GreatestUnique(items: seq<LeafItem>, x: real, y: real)
    requires IsGreatest(items, x) && IsGreatest(items, y)
    ensures x == y
  {
  }

  /** ExtractFeatures, up to the rounding to 32-bit floats.  exp is std::exp. */
  method ExtractFeatures(items: seq<LeafItem>, numQueryLeaves: nat, quality: Option<real>, p: Params, exp: real -> real)
    returns (v: seq<real>)
    requires p.Valid() && forall k :: 0 <= k < |items| ==> items[k].fieldLen >= 0.0
    ensures IsFeatures(v, items, numQueryLeaves, quality, p, exp)
  {
    hide SumsOf, Accumulate, Tracks, Widen;
    NoItems(p, exp);
    var s := Sums(0.0, 0.0, 0.0, 0.0, 0.0, 0.0, 0.0, 0.0, 0.0, 0.0);
    var x := Extremes(0.0, false, 0.0, 0.0, false, 0.0);
    for k := 0 to |items|
      invariant s == SumsOf(items[..k], p, exp) && Tracks(items[..k], x)
    {
      var l := items[k];
      assert items[..k + 1] == items[..k] + [l];
      SumsNext(items[..k], l, p, exp);
      TracksNext(items[..k], l, x);
      if l.matched { s, x := Accumulate(s, l, p, exp), Widen(x, l); }
    }
    assert items[..|items|] == items;
    TracksAny(items, x);
    var ratio := if items == [] || numQueryLeaves == 0 then 0.0 else s.matched / numQueryLeaves as real;
    v := [s.total, s.tf, s.idf, s.matched] + [numQueryLeaves as real, ratio, 0.0, 0.0]
         + [s.field0, s.field1, s.field2, s.field3, s.decay, s.weight]
         + [x.weightMax, if quality.Some? then quality.value else 0.0, x.minIdf, x.maxIdf, x.minNorm];
  }

  ghost predicate AnyOf(items: seq<LeafItem>, test: LeafItem -> bool)
  {
    exists k :: 0 <= k < |items| && test(items[k])
  }

  lemma {:induction false} NoItems(p: Params, exp: real -> real)
    requires p.Valid()
    ensures SumsOf([], p, exp) == Sums(0.0, 0.0, 0.0, 0.0, 0.0, 0.0, 0.0, 0.0, 0.0, 0.0)
    ensures Tracks([], Extremes(0.0, false, 0.0, 0.0, false, 0.0))
  {
  }

  lemma {:induction false} TracksAny(items: seq<LeafItem>, x: Extremes)
    requires Tracks(items, x)
    ensures x.anyIdf == AnyOf(items, IsMatched) && x.anyPos == AnyOf(items, HasDecay)
  {
  }
}
