/** JSON values and their compact and pretty text forms. */
module Json {
  import opened Base

  datatype Member = Member(key: string, value: Value)

  /** An object lists its members as the ordered map iterates them.  A double is
      kept as the text it was read from; its numeric value is not modelled. */
  datatype Value =
    | Null
    | Bool(b: bool)
    | Int(i: int)
    | Double(text: string)
    | Str(s: string)
    | Arr(a: seq<Value>)
    | Obj(o: seq<Member>)

  const INT64_MIN: int := -0x8000_0000_0000_0000
  const INT64_MAX: int := 0x7FFF_FFFF_FFFF_FFFF

  /** Members in the order of their keys, without repetition. */
  ghost predicate Ordered(o: seq<Member>)
  {
    forall i, j :: 0 <= i < j < |o| ==> Less(o[i].key, o[j].key)
  }

  /** Values the program can hold, apart from doubles. */
  ghost predicate Exact(v: Value)
    decreases v
  {
    match v
    case Int(i) => INT64_MIN <= i <= INT64_MAX
    case Double(_) => false
    case Arr(a) => ItemsExact(a)
    case Obj(o) => Ordered(o) && MembersExact(o)
    case _ => true
  }

  ghost predicate ItemsExact(a: seq<Value>)
    decreases a
  {
    a == [] || (Exact(a[0]) && ItemsExact(a[1..]))
  }

  ghost predicate MembersExact(o: seq<Member>)
    decreases o
  {
    o == [] || (Exact(o[0].value) && MembersExact(o[1..]))
  }

  /** insert_or_assign on the ordered map. */
  function Insert(o: seq<Member>, key: string, value: Value): seq<Member>
  {
    if o == [] then [Member(key, value)]
    else if key == o[0].key then [Member(key, value)] + o[1..]
    else if Less(key, o[0].key) then [Member(key, value)] + o
    else [o[0]] + Insert(o[1..], key, value)
  }

  /** find on the ordered map. */
  function Find(o: seq<Member>, key: string): Option<Value>
  {
    if o == [] then None else if o[0].key == key then Some(o[0].value) else Find(o[1..], key)
  }

  // ----- text -----

  function Digit(d: nat): char
    requires d < 10
  {
    (d + '0' as int) as char
  }

  /** std::to_string of a number that is not negative. */
  function Decimal(n: nat): (r: string)
    ensures r != ""
  {
    if n < 10 then [Digit(n)] else Decimal(n / 10) + [Digit(n % 10)]
  }

  function IntText(i: int): string
  {
    if i < 0 then "-" + Decimal(-i) else Decimal(i)
  }

  function HexDigit(d: nat): char
    requires d < 16
  {
    if d < 10 then (d + '0' as int) as char else (d - 10 + 'a' as int) as char
  }

  function Escape(c: char): string
  {
    if c == '"' then ['\\', '"']
    else if c == '\\' then ['\\', '\\']
    else if c as int == 8 then ['\\', 'b']
    else if c as int == 12 then ['\\', 'f']
    else if c == '\n' then ['\\', 'n']
    else if c == '\r' then ['\\', 'r']
    else if c == '\t' then ['\\', 't']
    else if c as int < 0x20 then ['\\', 'u', '0', '0', HexDigit(c as int / 16), HexDigit(c as int % 16)]
    else [c]
  }

  function EscapeAll(s: string): string
  {
    if s == "" then "" else Escape(s[0]) + EscapeAll(s[1..])
  }

  /** EscapeStringInto. */
  method EscapeStringInto(s: string, out: string) returns (r: string)
    ensures r == out + EscapeAll(s)
  {
    r := out;
    for i := 0 to |s|
      invariant r + EscapeAll(s[i..]) == out + EscapeAll(s)
    {
      assert s[i..][1..] == s[i + 1..];
      r := r + Escape(s[i]);
    }
    assert s[|s|..] == "";
  }

  function Quoted(s: string): string
  {
    "\"" + (EscapeAll(s) + "\"")
  }

  function Spaces(n: nat): string
  {
    if n == 0 then "" else " " + Spaces(n - 1)
  }

  /** depth * indent spaces. */
  function Padding(depth: nat, indent: nat): string
  {
    if depth == 0 then "" else Spaces(indent) + Padding(depth - 1, indent)
  }

  /** AppendIndent: nothing in the compact form. */
  function Indent(depth: nat, indent: int): string
  {
    if indent <= 0 then "" else "\n" + Padding(depth, indent)
  }

  function Colon(indent: int): string
  {
    if indent > 0 then ": " else ":"
  }

  /** What Write appends for a value at the given depth. */
  function Text(v: Value, depth: nat, indent: int): string
    decreases v, 1
  {
    match v
    case Null => "null"
    case Bool(b) => if b then "true" else "false"
    case Int(i) => IntText(i)
    case Double(t) => t
    case Str(s) => Quoted(s)
    case Arr(a) => if a == [] then "[]" else "[" + (ItemTexts(a, depth + 1, indent) + (Indent(depth, indent) + "]"))
    case Obj(o) => if o == [] then "{}" else "{" + (MemberTexts(o, depth + 1, indent) + (Indent(depth, indent) + "}"))
  }

  function ItemTexts(a: seq<Value>, depth: nat, indent: int): string
    decreases a, 0
  {
    if a == [] then ""
    else
      var item := Indent(depth, indent) + Text(a[0], depth, indent);
      if |a| == 1 then item else item + ("," + ItemTexts(a[1..], depth, indent))
  }

  function MemberText(m: Member, depth: nat, indent: int): string
    decreases m, 2
  {
    Indent(depth, indent) + (Quoted(m.key) + (Colon(indent) + Text(m.value, depth, indent)))
  }

  function MemberTexts(o: seq<Member>, depth: nat, indent: int): string
    decreases o, 0
  {
    if o == [] then ""
    else
      var member := MemberText(o[0], depth, indent);
      if |o| == 1 then member else member + ("," + MemberTexts(o[1..], depth, indent))
  }

  lemma {:induction false} Regroup(a: string, b: string, c: string, d: string, e: string)
    ensures (((a + b) + c) + d) + e == a + (b + (c + (d + e)))
    ensures (a + b) + c == a + (b + c)
  {
  }

  /** Write: appends the text of a value. */
  method Write(v: Value, out: string, depth: nat, indent: int) returns (r: string)
    ensures r == out + Text(v, depth, indent)
    decreases v, 1
  {
    match v
    case Null => r := out + "null";
    case Bool(b) => r := out + if b then "true" else "false";
    case Int(i) => r := out + IntText(i);
    case Double(t) => r := out + t;
    case Str(s) => r := WriteEscapedString(s, out);
    case Arr(a) =>
      if a == [] {
        r := out + "[]";
      } else {
        r := WriteItems(a, out + "[", depth + 1, indent);
        Regroup(out, "[", ItemTexts(a, depth + 1, indent), Indent(depth, indent), "]");
        r := r + Indent(depth, indent) + "]";
      }
    case Obj(o) =>
      if o == [] {
        r := out + "{}";
      } else {
        r := WriteMembers(o, out + "{", depth + 1, indent);
        Regroup(out, "{", MemberTexts(o, depth + 1, indent), Indent(depth, indent), "}");
        r := r + Indent(depth, indent) + "}";
      }
  }

  method WriteEscapedString(s: string, out: string) returns (r: string)
    ensures r == out + Quoted(s)
  {
    r := EscapeStringInto(s, out + "\"");
    r := r + "\"";
    assert r == out + ("\"" + (EscapeAll(s) + "\""));
  }

  method WriteItems(a: seq<Value>, out: string, depth: nat, indent: int) returns (r: string)
    requires a != []
    ensures r == out + ItemTexts(a, depth, indent)
    decreases a, 0
  {
    r := out;
    for i := 0 to |a|
      invariant r + Pending(i, |a|, ItemTexts(a[i..], depth, indent)) == out + ItemTexts(a, depth, indent)
    {
      ghost var was, item := r, Indent(depth, indent) + Text(a[i], depth, indent);
      ghost var rest := Pending(i + 1, |a|, ItemTexts(a[i + 1..], depth, indent));
      assert a[i..][1..] == a[i + 1..];
      if i > 0 { r := r + ","; }
      Regroup(r, Indent(depth, indent), Text(a[i], depth, indent), "", "");
      r := Write(a[i], r + Indent(depth, indent), depth, indent);
      Glue(was, i, |a|, item, rest, ItemTexts(a[i..], depth, indent));
    }
  }

  method WriteMembers(o: seq<Member>, out: string, depth: nat, indent: int) returns (r: string)
    requires o != []
    ensures r == out + MemberTexts(o, depth, indent)
    decreases o, 0
  {
    r := out;
    var first := true;
    for i := 0 to |o|
      invariant first == (i == 0)
      invariant r + Pending(i, |o|, MemberTexts(o[i..], depth, indent)) == out + MemberTexts(o, depth, indent)
    {
      ghost var was, item := r, MemberText(o[i], depth, indent);
      ghost var rest := Pending(i + 1, |o|, MemberTexts(o[i + 1..], depth, indent));
      assert o[i..][1..] == o[i + 1..];
      if !first { r := r + ","; }
      first := false;
      r := WriteMember(o[i], r, depth, indent);
      Glue(was, i, |o|, item, rest, MemberTexts(o[i..], depth, indent));
    }
  }

  method WriteMember(m: Member, out: string, depth: nat, indent: int) returns (r: string)
    ensures r == out + MemberText(m, depth, indent)
    decreases m, 2
  {
    r := WriteEscapedString(m.key, out + Indent(depth, indent));
    r := r + Colon(indent);
    r := Write(m.value, r, depth, indent);
    assert r == out + (Indent(depth, indent) + (Quoted(m.key) + (Colon(indent) + Text(m.value, depth, indent))));
  }

  /** What is still to be written when i of n items are out: a comma comes
      before every item but the first. */
  function Pending(i: nat, n: nat, items: string): string
  {
    if i == n then "" else if i == 0 then items else "," + items
  }

  lemma {:induction false} Glue(was: string, i: nat, n: nat, item: string, rest: string, items: string)
    requires i < n && items == if i + 1 == n then item else item + rest
    requires i + 1 == n ==> rest == ""
    ensures was + Pending(i, n, items) == ((if i > 0 then was + "," else was) + item) + rest
  {
    assert items == item + rest;
    if i > 0 {
      assert was + ("," + (item + rest)) == ((was + ",") + item) + rest;
    } else {
      Regroup(was, item, rest, "", "");
    }
  }

  /** Serialize, and SerializePretty for a positive indent. */
  method Serialize(v: Value, indent: int) returns (r: string)
    ensures r == Text(v, 0, indent)
  {
    r := Write(v, "", 0, indent);
  }
}
