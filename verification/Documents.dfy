/** Schemas, documents, and what of a document each field indexes and stores. */
module Documents {
  import opened Base
  import opened Analyzer
  import opened Json

  datatype FieldType = Text | Keyword

  /** The name of the identifier field. */
  const ID_FIELD: string := "_id"

  const INVALID_FIELD: nat := 0xFFFF

  datatype FieldMapping = FieldMapping(
    name: string, kind: FieldType, stored: bool, boost: FloatBits, positionDecay: FloatBits, storeTokenWeights: bool)

  /** A pattern stands for a float above zero: the sign bit is clear, it is not
      zero and not a NaN. */
  predicate Positive(bits: FloatBits)
  {
    0 < bits <= 0x7F80_0000
  }

  datatype Schema = Schema(fields: seq<FieldMapping>, storeDocQuality: bool)
  {
    /** What AddField keeps: names are distinct and not empty, and an id is left
        for "no such field". */
    ghost predicate Valid()
    {
      && |fields| <= INVALID_FIELD
      && (forall i :: 0 <= i < |fields| ==> fields[i].name != "")
      && (forall i, j :: 0 <= i < j < |fields| ==> fields[i].name != fields[j].name)
    }

    function Names(): seq<string>
    {
      seq(|fields|, i requires 0 <= i < |fields| => fields[i].name)
    }
  }

  /** The first place of a name in a list of names. */
  function FieldId(names: seq<string>, name: string): (id: Option<nat>)
    ensures id.Some? ==> id.value < |names| && names[id.value] == name
    ensures id.None? ==> name !in names
  {
    if names == [] then None
    else if names[0] == name then Some(0)
    else match FieldId(names[1..], name) case None => None case Some(i) => Some(i + 1)
  }

  /** A document.  Token weights are exact reals. */
  datatype Document = Document(
    id: string, fields: map<string, string>, tokenWeights: map<string, seq<real>>, quality: Option<FloatBits>)

  function TokensOf(kind: FieldType, text: string): seq<Token>
  {
    match kind
    case Text => Scan(text, 0, 0)
    case Keyword => KeywordTokens(text)
  }

  method Analyze(kind: FieldType, text: string) returns (tokens: seq<Token>)
    ensures tokens == TokensOf(kind, text)
  {
    if kind == FieldType.Keyword {
      tokens := Analyzer.Keyword(text);
    } else {
      tokens := Standard(text);
    }
  }

  /** The text of a document that a mapping indexes. */
  function FieldText(f: FieldMapping, doc: Document): Option<string>
  {
    if f.name == ID_FIELD then Some(doc.id)
    else if f.name in doc.fields then Some(doc.fields[f.name])
    else None
  }

  function FieldTokens(f: FieldMapping, doc: Document): seq<Token>
  {
    match FieldText(f, doc)
    case None => []
    case Some(text) => TokensOf(f.kind, text)
  }

  /** The caller's weights, if the mapping stores any. */
  function FieldWeights(f: FieldMapping, doc: Document): Option<seq<real>>
  {
    if f.storeTokenWeights && f.name in doc.tokenWeights then Some(doc.tokenWeights[f.name]) else None
  }

  /** The members of the stored JSON object: the identifier and the stored
      fields that the document has. */
  function Stored(fields: seq<FieldMapping>, doc: Document): (o: seq<Member>)
  {
    if fields == [] then [Member(ID_FIELD, Str(doc.id))]
    else
      var f := fields[|fields| - 1];
      var rest := Stored(fields[..|fields| - 1], doc);
      if f.name != ID_FIELD && f.name in doc.fields && f.stored then Insert(rest, f.name, Str(doc.fields[f.name]))
      else rest
  }

  /** The bytes kept for a document. */
  function Blob(fields: seq<FieldMapping>, doc: Document): string
  {
    Json.Text(Obj(Stored(fields, doc)), 0, 0)
  }

  // ----- what the stored object holds -----

  /** Members in key order whose values are strings. */
  ghost predicate Strings(o: seq<Member>)
  {
    && Ordered(o)
    && forall k :: 0 <= k < |o| ==> o[k].value.Str?
  }

  lemma {:induction false} StringsExact(o: seq<Member>)
    requires Strings(o)
    ensures Exact(Obj(o))
  {
    AllExact(o, 0);
    assert o[0..] == o;
  }

  lemma {:induction false} AllExact(o: seq<Member>, k: nat)
    requires k <= |o| && forall k :: 0 <= k < |o| ==> o[k].value.Str?
    ensures MembersExact(o[k..])
    decreases |o| - k
  {
    if k < |o| {
      AllExact(o, k + 1);
      assert o[k..][0].value == o[k].value && o[k..][1..] == o[k + 1..];
    }
  }

  /** Putting a member in leaves the keys in order and the others as they were. */
  lemma {:induction false} InsertKeeps(o: seq<Member>, key: string, text: string, other: string)
    requires Strings(o)
    ensures Strings(Insert(o, key, Str(text)))
    ensures Find(Insert(o, key, Str(text)), other) == if other == key then Some(Str(text)) else Find(o, other)
    ensures forall low: string :: Less(low, key) && (o != [] ==> Less(low, o[0].key))
              ==> Less(low, Insert(o, key, Str(text))[0].key)
  {
    if o != [] && key != o[0].key {
      if Less(key, o[0].key) {
        Prepended(o, Member(key, Str(text)));
      } else {
        LessTotal(key, o[0].key);
        TailOrdered(o);
        InsertKeeps(o[1..], key, text, other);
        assert Less(o[0].key, Insert(o[1..], key, Str(text))[0].key);
        Prepended(Insert(o[1..], key, Str(text)), o[0]);
      }
    } else if o != [] {
      TailOrdered(o);
      if |o| > 1 { assert Less(o[0].key, o[1].key); }
      Prepended(o[1..], Member(key, Str(text)));
    }
  }

  lemma {:induction false} TailOrdered(o: seq<Member>)
    requires Strings(o) && o != []
    ensures Strings(o[1..]) && (|o| > 1 ==> Less(o[0].key, o[1..][0].key))
  {
    if |o| > 1 { assert Less(o[0].key, o[1].key); }
    forall i, j | 0 <= i < j < |o[1..]| ensures Less(o[1..][i].key, o[1..][j].key) {
      assert Less(o[i + 1].key, o[j + 1].key);
    }
  }

  lemma {:induction false} Prepended(o: seq<Member>, m: Member)
    requires Strings(o) && m.value.Str? && (o != [] ==> Less(m.key, o[0].key))
    ensures Strings([m] + o)
  {
    var all := [m] + o;
    forall i, j | 0 <= i < j < |all| ensures Less(all[i].key, all[j].key) {
      if i > 0 {
        assert Less(o[i - 1].key, o[j - 1].key);
      } else if j > 1 {
        assert Less(o[0].key, o[j - 1].key);
        LessTransitive(m.key, o[0].key, o[j - 1].key);
      }
    }
  }

  /** The stored object has the identifier, the stored fields that the document
      has, and nothing else. */
  lemma {:induction false} StoredHolds(fields: seq<FieldMapping>, doc: Document, key: string)
    ensures Strings(Stored(fields, doc))
    ensures Find(Stored(fields, doc), key) ==
      if key == ID_FIELD then Some(Str(doc.id))
      else if key in doc.fields && (exists f :: f in fields && f.name == key && f.stored) then Some(Str(doc.fields[key]))
      else None
  {
    if fields == [] {
      assert [Member(ID_FIELD, Str(doc.id))][1..] == [];
    } else {
      var f, rest := fields[|fields| - 1], fields[..|fields| - 1];
      StoredHolds(rest, doc, key);
      assert fields == rest + [f];
      if f.name != ID_FIELD && f.name in doc.fields && f.stored {
        InsertKeeps(Stored(rest, doc), f.name, doc.fields[f.name], key);
      }
    }
  }
}
