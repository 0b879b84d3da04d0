/** Parsing the text of a value gives the value back, for the compact form and
    for every indentation. */
module JsonRoundTrip {
  import opened Base
  import opened Json
  import opened JsonParser

  /** A number that ends at i is not continued there. */
  predicate Stops(s: string, i: nat)
  {
    i == |s| || (i < |s| && !IsDigit(s[i]) && s[i] != '.' && s[i] != 'e' && s[i] != 'E')
  }

  // ----- white space -----

  lemma {:induction false} SpacesLength(n: nat)
    ensures |Spaces(n)| == n
  {
    if n > 0 { SpacesLength(n - 1); }
  }

  lemma {:induction false} SkipSpaces(s: string, i: nat, n: nat)
    requires At(s, i, |s|, Spaces(n))
    ensures |Spaces(n)| == n && SkipWs(s, i) == SkipWs(s, i + n)
    decreases n
  {
    SpacesLength(n);
    if n > 0 {
      AtSplit(s, i, |s|, " ", Spaces(n - 1));
      AtChar(s, i, |s|, " ", 0);
      SkipSpaces(s, i + 1, n - 1);
    }
  }

  lemma {:induction false} SkipPadding(s: string, i: nat, depth: nat, indent: nat)
    requires At(s, i, |s|, Padding(depth, indent))
    ensures SkipWs(s, i) == SkipWs(s, i + |Padding(depth, indent)|)
    decreases depth
  {
    if depth > 0 {
      AtSplit(s, i, |s|, Spaces(indent), Padding(depth - 1, indent));
      SkipSpaces(s, i, indent);
      SkipPadding(s, i + indent, depth - 1, indent);
    }
  }

  lemma {:induction false} SkipIndent(s: string, i: nat, depth: nat, indent: int)
    requires At(s, i, |s|, Indent(depth, indent))
    ensures SkipWs(s, i) == SkipWs(s, i + |Indent(depth, indent)|)
  {
    if indent > 0 {
      AtSplit(s, i, |s|, "\n", Padding(depth, indent));
      AtChar(s, i, |s|, "\n", 0);
      SkipPadding(s, i + 1, depth, indent);
    }
  }

  lemma {:induction false} IndentStart(s: string, i: nat, depth: nat, indent: int)
    requires At(s, i, |s|, Indent(depth, indent)) && indent > 0
    ensures s[i] == '\n'
  {
    AtSplit(s, i, |s|, "\n", Padding(depth, indent));
    AtChar(s, i, |s|, "\n", 0);
  }

  // ----- numbers -----

  lemma {:induction false} DecimalDigits(n: nat)
    ensures forall k :: 0 <= k < |Decimal(n)| ==> IsDigit(Decimal(n)[k])
    ensures DigitsValue(Decimal(n)) == n
    ensures Decimal(n)[0] == '0' ==> n == 0
  {
    if n >= 10 {
      DecimalDigits(n / 10);
      var t := Decimal(n);
      assert t[..|t| - 1] == Decimal(n / 10);
    } else {
      var t := Decimal(n);
      assert t[..0] == "";
    }
  }

  /** Zero is the only number that is written with a leading zero. */
  lemma {:induction false} DecimalLength(n: nat)
    ensures Decimal(n)[0] == '0' ==> |Decimal(n)| == 1
  {
    DecimalDigits(n);
  }

  lemma {:induction false} SkipDigitsTo(s: string, i: nat, j: nat)
    requires i <= j <= |s| && (forall k :: i <= k < j ==> IsDigit(s[k])) && (j < |s| ==> !IsDigit(s[j]))
    ensures SkipDigits(s, i) == j
    decreases j - i
  {
    if i < j { SkipDigitsTo(s, i + 1, j); }
  }

  lemma {:induction false} DigitsAt(d: string, s: string, i: nat)
    requires At(s, i, |s|, d) && Stops(s, i + |d|) && forall k :: 0 <= k < |d| ==> IsDigit(d[k])
    ensures SkipDigits(s, i) == i + |d|
  {
    forall k | i <= k < i + |d| ensures IsDigit(s[k]) {
      AtChar(s, i, |s|, d, k - i);
    }
    SkipDigitsTo(s, i, i + |d|);
  }

  lemma {:induction false} DecimalAt(n: nat, s: string, i: nat)
    requires At(s, i, |s|, Decimal(n)) && Stops(s, i + |Decimal(n)|)
    ensures SkipDigits(s, i) == i + |Decimal(n)| && IsDigit(s[i])
    ensures s[i] == '0' ==> |Decimal(n)| == 1
  {
    DecimalDigits(n);
    DigitsAt(Decimal(n), s, i);
    AtChar(s, i, |s|, Decimal(n), 0);
    DecimalLength(n);
  }

  lemma {:induction false} PlainNumber(s: string, i: nat, j: nat)
    requires i < |s| && IntegerPart(s, i) == Got((), j) && Stops(s, j)
    ensures Number(s, i) == Got(IntegerValue(s[i..j]), j)
  {
  }

  lemma {:induction false} IntegerTextValue(v: int)
    requires INT64_MIN <= v <= INT64_MAX
    ensures IntegerValue(IntText(v)) == Int(v)
  {
    var n: nat := if v < 0 then -v else v;
    DecimalDigits(n);
    if v < 0 { assert IntText(v)[1..] == Decimal(n); }
  }

  lemma {:induction false} IntegerPartBack(v: int, s: string, i: nat)
    requires At(s, i, |s|, IntText(v)) && Stops(s, i + |IntText(v)|)
    ensures i < |s| && IntegerPart(s, i) == Got((), i + |IntText(v)|) && (s[i] == '-' || IsDigit(s[i]))
  {
    hide At, Decimal, SkipDigits;
    var n: nat := if v < 0 then -v else v;
    if v < 0 {
      AtSplit(s, i, |s|, "-", Decimal(n));
      AtChar(s, i, |s|, "-", 0);
      DecimalAt(n, s, i + 1);
    } else {
      DecimalAt(n, s, i);
    }
  }

  lemma {:induction false} IntegerBack(v: int, s: string, i: nat)
    requires INT64_MIN <= v <= INT64_MAX
    requires At(s, i, |s|, IntText(v)) && Stops(s, i + |IntText(v)|)
    ensures Number(s, i) == Got(Int(v), i + |IntText(v)|) && (s[i] == '-' || IsDigit(s[i]))
  {
    hide Number, IntegerPart, IntegerValue, IntText, Decimal;
    IntegerPartBack(v, s, i);
    IntegerTextValue(v);
    AtSlice(s, i, |s|, IntText(v));
    PlainNumber(s, i, i + |IntText(v)|);
  }

  // ----- strings -----

  /** One escaped character is read back as that character. */
  lemma {:induction false} EscapeBack(c: char, s: string, i: nat, out: string)
    requires At(s, i, |s|, Escape(c))
    ensures StringBody(s, i, out) == StringBody(s, i + |Escape(c)|, out + [c])
  {
    var e := Escape(c);
    AtChar(s, i, |s|, e, 0);
    if |e| == 6 {
      ControlBack(c, s, i);
    } else if |e| == 2 {
      AtChar(s, i, |s|, e, 1);
      assert Unescape(s, i + 1) == Got([c], i + 2);
    }
  }

  lemma {:induction false} ControlBack(c: char, s: string, i: nat)
    requires At(s, i, |s|, Escape(c)) && |Escape(c)| == 6
    ensures Unescape(s, i + 1) == Got([c], i + 6)
  {
    var e, h := Escape(c), c as int;
    forall k | 0 <= k < 6 ensures s[i + k] == e[k] { AtChar(s, i, |s|, e, k); }
    HexBack(h / 16);
    HexBack(h % 16);
    assert s[i + 1] == e[1] == 'u' && s[i + 2] == e[2] == '0' && s[i + 3] == e[3] == '0';
    assert s[i + 4] == e[4] && s[i + 5] == e[5];
    assert Hex4(s, i + 2) == Some(h);
  }

  lemma {:induction false} HexBack(d: nat)
    requires d < 16
    ensures HexValue(HexDigit(d)) == Some(d)
  {
  }

  lemma {:induction false} QuoteEnds(s: string, i: nat, out: string)
    requires At(s, i, |s|, "\"")
    ensures StringBody(s, i, out) == Got(out, i + 1)
  {
    AtChar(s, i, |s|, "\"", 0);
  }

  lemma {:induction false} BodyBack(t: string, s: string, i: nat, out: string)
    requires At(s, i, |s|, EscapeAll(t)) && At(s, i + |EscapeAll(t)|, |s|, "\"")
    ensures StringBody(s, i, out) == Got(out + t, i + |EscapeAll(t)| + 1)
    decreases t
  {
    hide StringBody, Escape, At;
    if t == "" {
      QuoteEnds(s, i, out);
      assert out + t == out;
    } else {
      AtSplit(s, i, |s|, Escape(t[0]), EscapeAll(t[1..]));
      EscapeBack(t[0], s, i, out);
      FirstMoved(out, t);
      BodyBack(t[1..], s, i + |Escape(t[0])|, out + [t[0]]);
    }
  }

  lemma {:induction false} StringBack(t: string, s: string, i: nat)
    requires At(s, i, |s|, Quoted(t))
    ensures s[i] == '"' && StringAt(s, i) == Got(t, i + |Quoted(t)|)
  {
    AtSplit(s, i, |s|, "\"", EscapeAll(t) + "\"");
    AtSplit(s, i + 1, |s|, EscapeAll(t), "\"");
    AtChar(s, i, |s|, "\"", 0);
    BodyBack(t, s, i + 1, "");
    assert "" + t == t;
  }

  // ----- objects -----

  /** Members that arrive in key order are appended. */
  lemma {:induction false} InsertLast(o: seq<Member>, key: string, value: Value)
    requires forall k :: 0 <= k < |o| ==> Less(o[k].key, key)
    ensures Insert(o, key, value) == o + [Member(key, value)]
  {
    if o != [] {
      LessIrreflexive(key);
      if Less(key, o[0].key) { LessTransitive(key, o[0].key, key); }
      InsertLast(o[1..], key, value);
      assert [o[0]] + (o[1..] + [Member(key, value)]) == o + [Member(key, value)];
    }
  }

  // ----- values -----

  /** The first character of a value's text. */
  predicate Opens(v: Value, c: char)
  {
    match v
    case Null => c == 'n'
    case Bool(b) => c == if b then 't' else 'f'
    case Int(_) => c == '-' || IsDigit(c)
    case Double(_) => false
    case Str(_) => c == '"'
    case Arr(_) => c == '['
    case Obj(_) => c == '{'
  }

  lemma {:induction false} TextStart(v: Value, s: string, i: nat, depth: nat, indent: int)
    requires Exact(v) && At(s, i, |s|, Text(v, depth, indent))
    ensures i < |s| && Opens(v, s[i]) && SkipWs(s, i) == i
  {
    var t := Text(v, depth, indent);
    if v.Int? && v.i >= 0 { DecimalDigits(v.i); }
    assert t != "" && Opens(v, t[0]);
    AtChar(s, i, |s|, t, 0);
  }

  /** The end of an array or object at the given depth. */
  function Close(depth: nat, indent: int, c: char): string
  {
    Indent(depth, indent) + [c]
  }

  lemma {:induction false} CloseAt(s: string, i: nat, depth: nat, indent: int, c: char)
    requires At(s, i, |s|, Close(depth, indent, c)) && (c == ']' || c == '}')
    ensures Stops(s, i)
    ensures var j := i + |Indent(depth, indent)|;
      SkipWs(s, i) == j && j < |s| && s[j] == c && j + 1 == i + |Close(depth, indent, c)|
  {
    AtSplit(s, i, |s|, Indent(depth, indent), [c]);
    AtChar(s, i + |Indent(depth, indent)|, |s|, [c], 0);
    SkipIndent(s, i, depth, indent);
    if indent > 0 { IndentStart(s, i, depth, indent); }
  }

  /** The first of several texts, and what follows it: a comma and the others,
      or nothing. */
  lemma {:induction false} FirstPiece(s: string, i: nat, first: string, n: nat, others: string)
    requires At(s, i, |s|, if n == 1 then first else first + ("," + others))
    ensures At(s, i, |s|, first)
    ensures n != 1 ==> i + |first| < |s| && s[i + |first|] == ',' && At(s, i + |first| + 1, |s|, others)
  {
    if n != 1 {
      AtSplit(s, i, |s|, first, "," + others);
      AtSplit(s, i + |first|, |s|, ",", others);
      AtChar(s, i + |first|, |s|, ",", 0);
    }
  }

  lemma {:induction false} WordBack(s: string, i: nat, lit: string)
    requires At(s, i, |s|, lit)
    ensures LiteralAt(s, i, lit)
    decreases |lit|
  {
    assert Standing(s, i, |s|, lit);
    if lit != "" { WordBack(s, i + 1, lit[1..]); }
  }

  lemma {:induction false} ValueBack(v: Value, s: string, i: nat, depth: nat, indent: int)
    requires Exact(v) && At(s, i, |s|, Text(v, depth, indent)) && Stops(s, i + |Text(v, depth, indent)|)
    ensures ValueAt(s, i) == Got(v, i + |Text(v, depth, indent)|)
    decreases v, 1
  {
    TextStart(v, s, i, depth, indent);
    match v
    case Null => WordBack(s, i, "null");
    case Bool(b) => WordBack(s, i, if b then "true" else "false");
    case Int(n) => IntegerBack(n, s, i);
    case Str(t) => StringBack(t, s, i);
    case Arr(a) => ArrayBack(a, s, i, depth, indent);
    case Obj(o) => ObjectBack(o, s, i, depth, indent);
  }

  // One step of each parsing function, for a known next character.

  lemma {:induction false} ArrayStep(s: string, i: nat, j: nat)
    requires i < |s| && SkipWs(s, i) == i && s[i] == '[' && j == SkipWs(s, i + 1) < |s| && s[j] != ']'
    ensures ValueAt(s, i) == Items(s, j, [])
  {
  }

  lemma {:induction false} ItemStep(s: string, i: nat, done: seq<Value>, v: Value, q: nat, j: nat)
    requires i <= |s| && ValueAt(s, i) == Got(v, q) && q <= |s| && SkipWs(s, q) == j < |s|
    ensures s[j] == ',' ==> Items(s, i, done) == Items(s, SkipWs(s, j + 1), done + [v])
    ensures s[j] == ']' ==> Items(s, i, done) == Got(Arr(done + [v]), j + 1)
  {
    if s[j] == ',' {
      assert ItemAt(s, i, done) == Got((done + [v], true), SkipWs(s, j + 1));
    } else if s[j] == ']' {
      assert ItemAt(s, i, done) == Got((done + [v], false), j + 1);
    }
  }

  lemma {:induction false} ObjectStep(s: string, i: nat, j: nat)
    requires i < |s| && SkipWs(s, i) == i && s[i] == '{' && j == SkipWs(s, i + 1) < |s| && s[j] != '}'
    ensures ValueAt(s, i) == Members(s, j, [])
  {
  }

  lemma {:induction false} MemberStep(s: string, i: nat, done: seq<Member>, key: string, c: nat, v: Value, q: nat)
    requires i <= |s| && SkipWs(s, i) == i && StringAt(s, i) == Got(key, c)
    requires c < |s| && s[c] == ':' && ValueAt(s, SkipWs(s, c + 1)) == Got(v, q)
    ensures MemberAt(s, i, done) == Got(Insert(done, key, v), q)
  {
    assert SkipWs(s, c) == c;
  }

  lemma {:induction false} MembersStep(s: string, i: nat, done: seq<Member>, next: seq<Member>, q: nat, j: nat)
    requires i <= |s| && MemberAt(s, i, done) == Got(next, q) && q <= |s| && SkipWs(s, q) == j < |s|
    ensures s[j] == ',' ==> Members(s, i, done) == Members(s, j + 1, next)
    ensures s[j] == '}' ==> Members(s, i, done) == Got(Obj(next), j + 1)
  {
    hide MemberAt, SkipWs;
  }

  /** Members skips white space before anything else. */
  lemma {:induction false} MembersSkip(s: string, i: nat, done: seq<Member>)
    requires i <= |s| && SkipWs(s, SkipWs(s, i)) == SkipWs(s, i)
    ensures Members(s, i, done) == Members(s, SkipWs(s, i), done)
  {
    hide SkipWs, StringAt, ValueAt, Insert;
    assert MemberAt(s, i, done) == MemberAt(s, SkipWs(s, i), done);
  }

  lemma {:induction false} EmptyBack(s: string, i: nat)
    requires i <= |s| && SkipWs(s, i) == i
    ensures At(s, i, |s|, "[]") ==> ValueAt(s, i) == Got(Arr([]), i + 2)
    ensures At(s, i, |s|, "{}") ==> ValueAt(s, i) == Got(Obj([]), i + 2)
  {
    if At(s, i, |s|, "[]") {
      AtChar(s, i, |s|, "[]", 0);
      AtChar(s, i, |s|, "[]", 1);
      assert SkipWs(s, i + 1) == i + 1;
    }
    if At(s, i, |s|, "{}") {
      AtChar(s, i, |s|, "{}", 0);
      AtChar(s, i, |s|, "{}", 1);
      assert SkipWs(s, i + 1) == i + 1;
    }
  }

  lemma {:induction false} ArrayParts(a: seq<Value>, s: string, i: nat, depth: nat, indent: int)
    requires a != [] && At(s, i, |s|, Text(Arr(a), depth, indent))
    ensures var body, close := ItemTexts(a, depth + 1, indent), Close(depth, indent, ']');
      && i < |s| && s[i] == '[' && At(s, i + 1, |s|, body) && At(s, i + 1 + |body|, |s|, close)
      && |Text(Arr(a), depth, indent)| == 1 + |body| + |close|
  {
    hide ItemTexts;
    Brackets(s, i, "[", ItemTexts(a, depth + 1, indent), Close(depth, indent, ']'));
  }

  lemma {:induction false} ObjectParts(o: seq<Member>, s: string, i: nat, depth: nat, indent: int)
    requires o != [] && At(s, i, |s|, Text(Obj(o), depth, indent))
    ensures var body, close := MemberTexts(o, depth + 1, indent), Close(depth, indent, '}');
      && i < |s| && s[i] == '{' && At(s, i + 1, |s|, body) && At(s, i + 1 + |body|, |s|, close)
      && |Text(Obj(o), depth, indent)| == 1 + |body| + |close|
  {
    hide MemberTexts;
    Brackets(s, i, "{", MemberTexts(o, depth + 1, indent), Close(depth, indent, '}'));
  }

  lemma {:induction false} EmptyTexts(depth: nat, indent: int)
    ensures Text(Arr([]), depth, indent) == "[]" && Text(Obj([]), depth, indent) == "{}"
  {
  }

  /** An opening bracket, the contents and the closing bracket. */
  lemma {:induction false} Brackets(s: string, i: nat, open: string, body: string, close: string)
    requires At(s, i, |s|, open + (body + close)) && |open| == 1
    ensures i < |s| && s[i] == open[0] && At(s, i + 1, |s|, body) && At(s, i + 1 + |body|, |s|, close)
    ensures |open + (body + close)| == 1 + |body| + |close|
  {
    AtSplit(s, i, |s|, open, body + close);
    AtChar(s, i, |s|, open, 0);
    AtSplit(s, i + 1, |s|, body, close);
  }

  lemma {:induction false} ArrayBack(a: seq<Value>, s: string, i: nat, depth: nat, indent: int)
    requires Exact(Arr(a)) && At(s, i, |s|, Text(Arr(a), depth, indent)) && SkipWs(s, i) == i
    ensures ValueAt(s, i) == Got(Arr(a), i + |Text(Arr(a), depth, indent)|)
    decreases a, 3
  {
    hide Text, ItemTexts, ValueAt, Items;
    EmptyTexts(depth, indent);
    if a == [] {
      EmptyBack(s, i);
    } else {
      ArrayParts(a, s, i, depth, indent);
      ItemsBack(a, [], s, i + 1, depth + 1, indent);
      ArrayStep(s, i, SkipWs(s, i + 1));
      assert [] + a == a;
    }
  }

  /** Where the first item and the others stand. */
  lemma {:induction false} ItemsAt(a: seq<Value>, s: string, i: nat, depth: nat, indent: int)
    requires a != [] && At(s, i, |s|, ItemTexts(a, depth, indent))
    ensures At(s, i, |s|, Indent(depth, indent)) && At(s, i + |Indent(depth, indent)|, |s|, Text(a[0], depth, indent))
    ensures var q := i + |Indent(depth, indent)| + |Text(a[0], depth, indent)|;
      if |a| == 1 then q == i + |ItemTexts(a, depth, indent)|
      else
        && q < |s| && s[q] == ',' && At(s, q + 1, |s|, ItemTexts(a[1..], depth, indent))
        && q + 1 + |ItemTexts(a[1..], depth, indent)| == i + |ItemTexts(a, depth, indent)|
  {
    var first := Indent(depth, indent) + Text(a[0], depth, indent);
    FirstPiece(s, i, first, |a|, ItemTexts(a[1..], depth, indent));
    AtSplit(s, i, |s|, Indent(depth, indent), Text(a[0], depth, indent));
  }

  lemma {:induction false} ItemsBack(a: seq<Value>, done: seq<Value>, s: string, i: nat, depth: nat, indent: int)
    requires a != [] && ItemsExact(a) && depth > 0
    requires At(s, i, |s|, ItemTexts(a, depth, indent))
    requires At(s, i + |ItemTexts(a, depth, indent)|, |s|, Close(depth - 1, indent, ']'))
    ensures SkipWs(s, i) < |s| && s[SkipWs(s, i)] != ']'
    ensures Items(s, SkipWs(s, i), done)
         == Got(Arr(done + a), i + |ItemTexts(a, depth, indent)| + |Close(depth - 1, indent, ']')|)
    decreases a, 2
  {
    hide ValueAt, Items, ItemAt, Text, ItemTexts, Close, Indent;
    ItemsAt(a, s, i, depth, indent);
    SkipIndent(s, i, depth, indent);
    var p := i + |Indent(depth, indent)|;
    TextStart(a[0], s, p, depth, indent);
    var q := p + |Text(a[0], depth, indent)|;
    FirstMoved(done, a);
    if |a| == 1 {
      CloseAt(s, q, depth - 1, indent, ']');
      ValueBack(a[0], s, p, depth, indent);
      ItemStep(s, p, done, a[0], q, SkipWs(s, q));
      assert done + [a[0]] == done + a;
    } else {
      ValueBack(a[0], s, p, depth, indent);
      ItemStep(s, p, done, a[0], q, q);
      ItemsBack(a[1..], done + [a[0]], s, q + 1, depth, indent);
    }
  }

  lemma {:induction false} ObjectBack(o: seq<Member>, s: string, i: nat, depth: nat, indent: int)
    requires Exact(Obj(o)) && At(s, i, |s|, Text(Obj(o), depth, indent)) && SkipWs(s, i) == i
    ensures ValueAt(s, i) == Got(Obj(o), i + |Text(Obj(o), depth, indent)|)
    decreases o, 3
  {
    hide Text, MemberTexts, ValueAt, Members;
    EmptyTexts(depth, indent);
    if o == [] {
      EmptyBack(s, i);
    } else {
      ObjectParts(o, s, i, depth, indent);
      MembersBack(o, [], s, i + 1, depth + 1, indent);
      ObjectStep(s, i, SkipWs(s, i + 1));
      assert [] + o == o;
    }
  }

  /** Where the parts of a member stand. */
  lemma {:induction false} MemberParts(m: Member, s: string, i: nat, depth: nat, indent: int) returns (p: nat, c: nat, d: nat)
    requires At(s, i, |s|, MemberText(m, depth, indent))
    ensures p == i + |Indent(depth, indent)| && At(s, i, |s|, Indent(depth, indent)) && At(s, p, |s|, Quoted(m.key))
    ensures c == p + |Quoted(m.key)| && At(s, c, |s|, Colon(indent)) && d == c + |Colon(indent)|
    ensures At(s, d, |s|, Text(m.value, depth, indent))
    ensures i + |MemberText(m, depth, indent)| == d + |Text(m.value, depth, indent)|
  {
    var lead, key, colon := Indent(depth, indent), Quoted(m.key), Colon(indent);
    var text := Text(m.value, depth, indent);
    AtSplit(s, i, |s|, lead, key + (colon + text));
    p := i + |lead|;
    AtSplit(s, p, |s|, key, colon + text);
    c := p + |key|;
    AtSplit(s, c, |s|, colon, text);
    d := c + |colon|;
  }

  lemma {:induction false} ColonAt(s: string, c: nat, indent: int)
    requires At(s, c, |s|, Colon(indent))
    ensures c < |s| && s[c] == ':' && SkipWs(s, c + 1) == SkipWs(s, c + |Colon(indent)|)
  {
    AtChar(s, c, |s|, Colon(indent), 0);
    if indent > 0 { AtChar(s, c, |s|, Colon(indent), 1); }
  }

  /** One member's text is read back and put at the end of the members. */
  lemma {:induction false} MemberBack(m: Member, done: seq<Member>, s: string, i: nat, depth: nat, indent: int)
    requires Exact(m.value) && forall k :: 0 <= k < |done| ==> Less(done[k].key, m.key)
    requires At(s, i, |s|, MemberText(m, depth, indent)) && Stops(s, i + |MemberText(m, depth, indent)|)
    ensures var p := SkipWs(s, i);
      && p < |s| && s[p] == '"' && SkipWs(s, p) == p
      && MemberAt(s, p, done) == Got(done + [m], i + |MemberText(m, depth, indent)|)
    decreases m, 2
  {
    hide ValueAt, MemberAt, StringAt, Text, MemberText, Colon, Quoted;
    var p, c, d := MemberParts(m, s, i, depth, indent);
    SkipIndent(s, i, depth, indent);
    StringBack(m.key, s, p);
    ColonAt(s, c, indent);
    TextStart(m.value, s, d, depth, indent);
    ValueBack(m.value, s, d, depth, indent);
    MemberStep(s, p, done, m.key, c, m.value, d + |Text(m.value, depth, indent)|);
    InsertLast(done, m.key, m.value);
  }

  lemma {:induction false} MembersAt(o: seq<Member>, s: string, i: nat, depth: nat, indent: int)
    requires o != [] && At(s, i, |s|, MemberTexts(o, depth, indent))
    ensures At(s, i, |s|, MemberText(o[0], depth, indent))
    ensures var q := i + |MemberText(o[0], depth, indent)|;
      if |o| == 1 then q == i + |MemberTexts(o, depth, indent)|
      else
        && q < |s| && s[q] == ',' && SkipWs(s, q) == q && At(s, q + 1, |s|, MemberTexts(o[1..], depth, indent))
        && q + 1 + |MemberTexts(o[1..], depth, indent)| == i + |MemberTexts(o, depth, indent)|
  {
    FirstPiece(s, i, MemberText(o[0], depth, indent), |o|, MemberTexts(o[1..], depth, indent));
  }

  /** The members before a member of an ordered object have smaller keys. */
  lemma {:induction false} SmallerKeys(done: seq<Member>, o: seq<Member>)
    requires o != [] && Ordered(done + o)
    ensures forall k :: 0 <= k < |done| ==> Less(done[k].key, o[0].key)
  {
    forall k | 0 <= k < |done| ensures Less(done[k].key, o[0].key) {
      assert (done + o)[k] == done[k] && (done + o)[|done|] == o[0];
    }
  }

  lemma {:induction false} MembersBack(o: seq<Member>, done: seq<Member>, s: string, i: nat, depth: nat, indent: int)
    requires o != [] && MembersExact(o) && Ordered(done + o) && depth > 0
    requires At(s, i, |s|, MemberTexts(o, depth, indent))
    requires At(s, i + |MemberTexts(o, depth, indent)|, |s|, Close(depth - 1, indent, '}'))
    ensures SkipWs(s, i) < |s| && s[SkipWs(s, i)] != '}'
    ensures Members(s, SkipWs(s, i), done)
         == Got(Obj(done + o), i + |MemberTexts(o, depth, indent)| + |Close(depth - 1, indent, '}')|)
    decreases o, 2
  {
    hide ValueAt, Members, MemberAt, MemberText, MemberTexts, StringAt, SkipWs, Close, Indent;
    MembersAt(o, s, i, depth, indent);
    SmallerKeys(done, o);
    FirstMoved(done, o);
    var q := i + |MemberText(o[0], depth, indent)|;
    if |o| == 1 {
      CloseAt(s, q, depth - 1, indent, '}');
      MemberBack(o[0], done, s, i, depth, indent);
      MembersStep(s, SkipWs(s, i), done, done + [o[0]], q, SkipWs(s, q));
      assert done + [o[0]] == done + o;
    } else {
      MemberBack(o[0], done, s, i, depth, indent);
      MembersStep(s, SkipWs(s, i), done, done + [o[0]], q, q);
      MembersBack(o[1..], done + [o[0]], s, q + 1, depth, indent);
      SkipTwice(s, q + 1);
      MembersSkip(s, q + 1, done + [o[0]]);
    }
  }

  /** The round trip: whatever the indentation, the parser returns the value and
      consumes the whole text. */
  lemma {:induction false} RoundTrip(v: Value, indent: int)
    requires Exact(v)
    ensures Document(Text(v, 0, indent)) == Got(v, |Text(v, 0, indent)|)
  {
    var s := Text(v, 0, indent);
    AtWhole(s);
    TextStart(v, s, 0, 0, indent);
    ValueBack(v, s, 0, 0, indent);
  }
}
