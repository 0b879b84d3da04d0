/** The JSON form of a document in the log. */
module LogRecords {
  import opened Base
  import opened Documents
  import opened Json
  import opened JsonParser
  import opened JsonRoundTrip

  /** The members for the fields with the given keys, after the identifier. */
  ghost function MembersFor(doc: Document, keys: set<string>): seq<Member>
    requires keys <= doc.fields.Keys
  {
    if keys == {} then [Member(ID_FIELD, Str(doc.id))]
    else
      var k :| k in keys;
      Insert(MembersFor(doc, keys - {k}), k, Str(doc.fields[k]))
  }

  /** DocToJson. */
  ghost function Encode(doc: Document): string
  {
    Json.Text(Obj(MembersFor(doc, doc.fields.Keys)), 0, 0)
  }

  /** What a member list must say about a key. */
  function Expected(doc: Document, keys: set<string>, key: string): Option<Value>
    requires keys <= doc.fields.Keys
  {
    if key in keys then Some(Str(doc.fields[key])) else if key == ID_FIELD then Some(Str(doc.id)) else None
  }

  lemma {:induction false} MembersHold(doc: Document, keys: set<string>, key: string)
    requires keys <= doc.fields.Keys
    ensures Strings(MembersFor(doc, keys)) && Find(MembersFor(doc, keys), key) == Expected(doc, keys, key)
  {
    if keys == {} {
      assert [Member(ID_FIELD, Str(doc.id))][1..] == [];
    } else {
      var k :| k in keys && MembersFor(doc, keys) == Insert(MembersFor(doc, keys - {k}), k, Str(doc.fields[k]));
      MembersHold(doc, keys - {k}, key);
      InsertKeeps(MembersFor(doc, keys - {k}), k, doc.fields[k], key);
    }
  }

  lemma {:induction false} SmallestFirst(o: seq<Member>, key: string)
    requires Strings(o) && Find(o, key).Some?
    ensures o != [] && (o[0].key == key || Less(o[0].key, key))
  {
    if o[0].key != key {
      TailOrdered(o);
      SmallestFirst(o[1..], key);
      if o[1..][0].key != key { LessTransitive(o[0].key, o[1..][0].key, key); }
    }
  }

  lemma {:induction false} NotInTail(o: seq<Member>)
    requires Strings(o) && o != []
    ensures Find(o[1..], o[0].key) == None
  {
    TailOrdered(o);
    if Find(o[1..], o[0].key).Some? {
      SmallestFirst(o[1..], o[0].key);
      LessIrreflexive(o[0].key);
      if o[1..][0].key != o[0].key { LessTransitive(o[0].key, o[1..][0].key, o[0].key); }
    }
  }

  /** An object is determined by what can be found in it. */
  lemma {:induction false} SameObject(a: seq<Member>, b: seq<Member>)
    requires Strings(a) && Strings(b) && forall key :: Find(a, key) == Find(b, key)
    ensures a == b
  {
    if a == [] || b == [] {
      if a != [] { assert Find(a, a[0].key).Some?; }
      if b != [] { assert Find(b, b[0].key).Some?; }
    } else {
      SameHead(a, b);
      NotInTail(a);
      NotInTail(b);
      TailOrdered(a);
      TailOrdered(b);
      forall key ensures Find(a[1..], key) == Find(b[1..], key) {
        if key != a[0].key { assert Find(a, key) == Find(b, key); }
      }
      SameObject(a[1..], b[1..]);
      assert a == [a[0]] + a[1..] && b == [b[0]] + b[1..];
    }
  }

  lemma {:induction false} SameHead(a: seq<Member>, b: seq<Member>)
    requires Strings(a) && Strings(b) && a != [] && b != [] && forall key :: Find(a, key) == Find(b, key)
    ensures a[0] == b[0]
  {
    assert Find(a, a[0].key) == Some(a[0].value) && Find(b, b[0].key) == Some(b[0].value);
    SmallestFirst(b, a[0].key);
    SmallestFirst(a, b[0].key);
    if a[0].key != b[0].key {
      LessTransitive(a[0].key, b[0].key, a[0].key);
      LessIrreflexive(a[0].key);
    }
  }

  method DocToJson(doc: Document) returns (json: string)
    ensures json == Encode(doc)
  {
    var o := [Member(ID_FIELD, Str(doc.id))];
    assert o[1..] == [];
    var todo := doc.fields.Keys;
    while todo != {}
      invariant todo <= doc.fields.Keys && Strings(o)
      invariant forall key :: Find(o, key) == Expected(doc, doc.fields.Keys - todo, key)
      decreases |todo|
    {
      var k :| k in todo;
      forall key ensures Find(Insert(o, k, Str(doc.fields[k])), key) == Expected(doc, doc.fields.Keys - (todo - {k}), key) {
        InsertKeeps(o, k, doc.fields[k], key);
      }
      InsertKeeps(o, k, doc.fields[k], k);
      o := Insert(o, k, Str(doc.fields[k]));
      todo := todo - {k};
    }
    assert doc.fields.Keys - {} == doc.fields.Keys;
    forall key ensures Find(MembersFor(doc, doc.fields.Keys), key) == Find(o, key) { MembersHold(doc, doc.fields.Keys, key); }
    MembersHold(doc, doc.fields.Keys, "");
    SameObject(o, MembersFor(doc, doc.fields.Keys));
    json := Json.Serialize(Obj(o), 0);
  }

  // ----- reading a record -----

  /** The identifier and the text fields of an object; other values are
      skipped. */
  function Collect(o: seq<Member>): (string, map<string, string>)
  {
    if o == [] then ("", map[])
    else
      var before, m := Collect(o[..|o| - 1]), o[|o| - 1];
      if !m.value.Str? then before
      else if m.key == ID_FIELD then (m.value.s, before.1)
      else (before.0, before.1[m.key := m.value.s])
  }

  /** DocFromJson; None is a corrupt record. */
  function Decode(json: string): Option<Document>
  {
    match JsonParser.Document(json)
    case Failed(_, _) => None
    case Got(v, _) =>
      if !v.Obj? then None
      else
        var parts := Collect(v.o);
        if parts.0 == "" then None else Some(Documents.Document(parts.0, parts.1, map[], None))
  }

  method DocFromJson(json: string) returns (doc: Option<Document>)
    ensures doc == Decode(json)
  {
    var parsed, stop := Parse(json);
    if parsed.Error? || !parsed.value.Obj? { return None; }
    var o := parsed.value.o;
    var id, fields := "", map[];
    for k := 0 to |o|
      invariant (id, fields) == Collect(o[..k])
    {
      assert o[..k + 1][..k] == o[..k];
      if o[k].value.Str? {
        if o[k].key == ID_FIELD { id := o[k].value.s; } else { fields := fields[o[k].key := o[k].value.s]; }
      }
    }
    assert o[..|o|] == o;
    if id == "" { return None; }
    return Some(Documents.Document(id, fields, map[], None));
  }

  lemma {:induction false} FindSnoc(o: seq<Member>, key: string)
    requires o != [] && Strings(o)
    ensures Strings(o[..|o| - 1])
    ensures Find(o, key) == if key == o[|o| - 1].key then Some(o[|o| - 1].value) else Find(o[..|o| - 1], key)
  {
    var n := |o| - 1;
    if n == 0 {
      assert o[1..] == [];
    } else {
      assert Less(o[0].key, o[n].key);
      LessIrreflexive(o[0].key);
      TailOrdered(o);
      FindSnoc(o[1..], key);
      assert o[1..][..n - 1] == o[..n][1..];
    }
  }

  /** What Collect takes from an object of strings. */
  lemma {:induction false} CollectHolds(o: seq<Member>, key: string)
    requires Strings(o)
    ensures Collect(o).0 == match Find(o, ID_FIELD) case None => "" case Some(v) => if v.Str? then v.s else ""
    ensures key in Collect(o).1 <==> key != ID_FIELD && Find(o, key).Some?
    ensures key in Collect(o).1 ==> Find(o, key) == Some(Str(Collect(o).1[key]))
  {
    if o != [] {
      var n := |o| - 1;
      FindSnoc(o, ID_FIELD);
      FindSnoc(o, key);
      CollectHolds(o[..n], key);
    }
  }

  /** Documents that the log can bring back: an identifier and text fields. */
  predicate Recoverable(doc: Document)
  {
    doc.id != "" && ID_FIELD !in doc.fields && doc.tokenWeights == map[] && doc.quality == None
  }

  /** A record is read back as the document exactly when the document is
      recoverable. */
  lemma {:induction false} RecordBack(doc: Document)
    ensures Decode(Encode(doc)) == Some(doc) <==> Recoverable(doc)
    ensures ID_FIELD !in doc.fields && doc.id == "" ==> Decode(Encode(doc)) == None
  {
    var keys := doc.fields.Keys;
    var o := MembersFor(doc, keys);
    MembersHold(doc, keys, ID_FIELD);
    StringsExact(o);
    RoundTrip(Obj(o), 0);
    var parts := Collect(o);
    forall key ensures key in parts.1 <==> key in keys && key != ID_FIELD
               ensures key in parts.1 ==> parts.1[key] == doc.fields[key]
    {
      MembersHold(doc, keys, key);
      CollectHolds(o, key);
    }
    CollectHolds(o, ID_FIELD);
    if ID_FIELD !in doc.fields { assert parts.1 == doc.fields; }
  }

  /** A field named like the identifier takes its place in the record: such a
      document comes back under another name and without the field. */
  lemma {:induction false} FieldNamedId()
    ensures Decode(Encode(Documents.Document("a", map[ID_FIELD := "b"], map[], None))) == Some(Documents.Document("b", map[], map[], None))
  {
    var doc := Documents.Document("a", map[ID_FIELD := "b"], map[], None);
    var keys := doc.fields.Keys;
    assert keys == {ID_FIELD};
    var o := MembersFor(doc, keys);
    MembersHold(doc, keys, ID_FIELD);
    StringsExact(o);
    RoundTrip(Obj(o), 0);
    CollectHolds(o, ID_FIELD);
    var parts := Collect(o);
    forall key ensures key !in parts.1 {
      MembersHold(doc, keys, key);
      CollectHolds(o, key);
    }
    assert parts.1 == map[];
  }
}
