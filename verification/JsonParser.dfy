/** The recursive-descent JSON parser: what it returns for every input, as
    functions of a position, and the class that moves the position. */
module JsonParser {
  import opened Base
  import opened Json

  /** A parsed piece and the position after it, or what went wrong and where. */
  datatype Parsed<+T> = Got(value: T, pos: nat) | Failed(what: string, pos: nat)

  predicate IsSpace(c: char)
  {
    c == ' ' || c == '\t' || c == '\n' || c == '\r'
  }

  predicate IsDigit(c: char)
  {
    '0' <= c <= '9'
  }

  function SkipWs(s: string, i: nat): (r: nat)
    requires i <= |s|
    ensures i <= r <= |s|
    decreases |s| - i
  {
    if i < |s| && IsSpace(s[i]) then SkipWs(s, i + 1) else i
  }

  lemma {:induction false} SkipTwice(s: string, i: nat)
    requires i <= |s|
    ensures SkipWs(s, SkipWs(s, i)) == SkipWs(s, i)
    decreases |s| - i
  {
    if i < |s| && IsSpace(s[i]) { SkipTwice(s, i + 1); }
  }

  function SkipDigits(s: string, i: nat): (r: nat)
    requires i <= |s|
    ensures i <= r <= |s|
    ensures i < |s| && IsDigit(s[i]) ==> i < r
    decreases |s| - i
  {
    if i < |s| && IsDigit(s[i]) then SkipDigits(s, i + 1) else i
  }

  predicate LiteralAt(s: string, i: nat, lit: string)
    requires i <= |s|
    decreases |lit|
  {
    lit == "" || (i < |s| && s[i] == lit[0] && LiteralAt(s, i + 1, lit[1..]))
  }

  lemma {:induction false} LiteralSlice(s: string, i: nat, lit: string)
    requires i <= |s|
    ensures LiteralAt(s, i, lit) <==> i + |lit| <= |s| && s[i..i + |lit|] == lit
    decreases |lit|
  {
    if lit != "" && i + |lit| <= |s| {
      LiteralSlice(s, i + 1, lit[1..]);
      assert s[i..i + |lit|] == [s[i]] + s[i + 1..i + |lit|] && lit == [lit[0]] + lit[1..];
    } else if i < |s| && lit != "" {
      LiteralSlice(s, i + 1, lit[1..]);
    }
  }

  /** The number that a run of digits stands for. */
  function DigitsValue(t: string): int
  {
    if t == "" then 0 else 10 * DigitsValue(t[..|t| - 1]) + (t[|t| - 1] as int - '0' as int)
  }

  // ----- numbers -----

  /** The end of the integer part that starts at i. */
  function IntegerPart(s: string, i: nat): (r: Parsed<()>)
    requires i < |s|
    ensures r.Got? ==> i < r.pos
    ensures r.pos <= |s|
  {
    var j := if s[i] == '-' then i + 1 else i;
    if j == |s| then Failed("unterminated number", j)
    else if s[j] == '0' then Got((), j + 1)
    else if IsDigit(s[j]) then Got((), SkipDigits(s, j))
    else Failed("invalid number", j)
  }

  /** The end of an optional fraction; the flag says whether there is one. */
  function Fraction(s: string, i: nat): (r: Parsed<bool>)
    requires i <= |s|
    ensures i <= r.pos <= |s|
  {
    if i < |s| && s[i] == '.' then
      if i + 1 == |s| || !IsDigit(s[i + 1]) then Failed("expected digit after '.'", i + 1)
      else Got(true, SkipDigits(s, i + 1))
    else Got(false, i)
  }

  function Exponent(s: string, i: nat): (r: Parsed<bool>)
    requires i <= |s|
    ensures i <= r.pos <= |s|
  {
    if i < |s| && (s[i] == 'e' || s[i] == 'E') then
      var j := if i + 1 < |s| && (s[i + 1] == '+' || s[i + 1] == '-') then i + 2 else i + 1;
      if j == |s| || !IsDigit(s[j]) then Failed("expected digit in exponent", j)
      else Got(true, SkipDigits(s, j))
    else Got(false, i)
  }

  /** An integer literal, or a double when it does not fit 64 bits. */
  function IntegerValue(t: string): Value
    requires t != ""
  {
    var i := if t[0] == '-' then -DigitsValue(t[1..]) else DigitsValue(t);
    if INT64_MIN <= i <= INT64_MAX then Int(i) else Double(t)
  }

  function Number(s: string, i: nat): (r: Parsed<Value>)
    requires i < |s|
    ensures r.Got? ==> i < r.pos
    ensures r.pos <= |s|
  {
    var whole := IntegerPart(s, i);
    if whole.Failed? then Failed(whole.what, whole.pos) else
    var frac := Fraction(s, whole.pos);
    if frac.Failed? then Failed(frac.what, frac.pos) else
    var exp := Exponent(s, frac.pos);
    if exp.Failed? then Failed(exp.what, exp.pos) else
    if frac.value || exp.value then Got(Double(s[i..exp.pos]), exp.pos)
    else Got(IntegerValue(s[i..exp.pos]), exp.pos)
  }

  // ----- strings -----

  function HexValue(c: char): Option<nat>
  {
    if '0' <= c <= '9' then Some(c as int - '0' as int)
    else if 'a' <= c <= 'f' then Some(c as int - 'a' as int + 10)
    else if 'A' <= c <= 'F' then Some(c as int - 'A' as int + 10)
    else None
  }

  /** Four hexadecimal digits. */
  function Hex4(s: string, i: nat): (r: Option<nat>)
    requires i + 4 <= |s|
    ensures r.Some? ==> r.value < 0x1_0000
  {
    var a, b, c, d := HexValue(s[i]), HexValue(s[i + 1]), HexValue(s[i + 2]), HexValue(s[i + 3]);
    if a == None || b == None || c == None || d == None then None
    else Some(((a.value * 16 + b.value) * 16 + c.value) * 16 + d.value)
  }

  /** The digits from the k-th on, after those before it gave cp. */
  function Hex4From(s: string, i: nat, k: nat, cp: nat): Option<nat>
    requires i + 4 <= |s| && k <= 4
    decreases 4 - k
  {
    if k == 4 then Some(cp)
    else
      var d := HexValue(s[i + k]);
      if d == None then None else Hex4From(s, i, k + 1, cp * 16 + d.value)
  }

  /** The UTF-8 form of one code point; surrogates are not combined. */
  function Utf8(cp: nat): string
    requires cp < 0x1_0000
  {
    if cp < 0x80 then [cp as char]
    else if cp < 0x800 then [(0xC0 + cp / 0x40) as char, (0x80 + cp % 0x40) as char]
    else [(0xE0 + cp / 0x1000) as char, (0x80 + cp / 0x40 % 0x40) as char, (0x80 + cp % 0x40) as char]
  }

  /** The escape sequence whose letter stands at i. */
  function Unescape(s: string, i: nat): (r: Parsed<string>)
    requires i <= |s|
    ensures r.Got? ==> i < r.pos
    ensures r.pos <= |s|
  {
    if i == |s| then Failed("unterminated escape sequence", i)
    else match s[i]
      case '"' => Got("\"", i + 1)
      case '\\' => Got("\\", i + 1)
      case '/' => Got("/", i + 1)
      case 'b' => Got([8 as char], i + 1)
      case 'f' => Got([12 as char], i + 1)
      case 'n' => Got("\n", i + 1)
      case 'r' => Got("\r", i + 1)
      case 't' => Got("\t", i + 1)
      case 'u' =>
        if |s| - (i + 1) < 4 then Failed("truncated \\u escape", i + 1)
        else
          var cp := Hex4(s, i + 1);
          if cp == None then Failed("invalid hex digit in \\u escape", i + 1)
          else Got(Utf8(cp.value), i + 5)
      case _ => Failed("invalid escape character", i + 1)
  }

  /** The rest of a string after its opening quote; out is what came before. */
  function StringBody(s: string, i: nat, out: string): (r: Parsed<string>)
    requires i <= |s|
    ensures r.Got? ==> i < r.pos
    ensures r.pos <= |s|
    decreases |s| - i
  {
    if i == |s| then Failed("unterminated string", i)
    else if s[i] as int < 0x20 then Failed("unescaped control character in string", i)
    else if s[i] == '"' then Got(out, i + 1)
    else if s[i] == '\\' then
      var e := Unescape(s, i + 1);
      if e.Failed? then e else StringBody(s, e.pos, out + e.value)
    else StringBody(s, i + 1, out + [s[i]])
  }

  function StringAt(s: string, i: nat): (r: Parsed<string>)
    requires i <= |s|
    ensures r.Got? ==> i < r.pos
    ensures r.pos <= |s|
  {
    if i == |s| || s[i] != '"' then Failed("expected '\"'", i) else StringBody(s, i + 1, "")
  }

  // ----- values -----

  /** true, false and null. */
  function WordAt(s: string, i: nat): (r: Parsed<Value>)
    requires i < |s|
    ensures r.Got? ==> i < r.pos
    ensures r.pos <= |s|
  {
    LiteralSlice(s, i, "true");
    LiteralSlice(s, i, "false");
    LiteralSlice(s, i, "null");
    if s[i] == 't' || s[i] == 'f' then
      if LiteralAt(s, i, "true") then Got(Bool(true), i + 4)
      else if LiteralAt(s, i, "false") then Got(Bool(false), i + 5)
      else Failed("expected 'true' or 'false'", i)
    else
      if LiteralAt(s, i, "null") then Got(Null, i + 4) else Failed("expected 'null'", i)
  }

  function ValueAt(s: string, start: nat): (r: Parsed<Value>)
    requires start <= |s|
    ensures r.Got? ==> start < r.pos
    ensures r.pos <= |s|
    decreases |s| - start, 0
  {
    var i := SkipWs(s, start);
    if i == |s| then Failed("unexpected end of input", i)
    else if s[i] == '"' then
      var t := StringAt(s, i);
      if t.Failed? then Failed(t.what, t.pos) else Got(Str(t.value), t.pos)
    else if s[i] == '{' then
      var j := SkipWs(s, i + 1);
      if j < |s| && s[j] == '}' then Got(Obj([]), j + 1) else Members(s, j, [])
    else if s[i] == '[' then
      var j := SkipWs(s, i + 1);
      if j < |s| && s[j] == ']' then Got(Arr([]), j + 1) else Items(s, j, [])
    else if s[i] == 't' || s[i] == 'f' || s[i] == 'n' then WordAt(s, i)
    else if s[i] == '-' || IsDigit(s[i]) then Number(s, i)
    else Failed("unexpected character", i)
  }

  /** One item and the separator after it; true says that more items follow. */
  function ItemAt(s: string, i: nat, a: seq<Value>): (r: Parsed<(seq<Value>, bool)>)
    requires i <= |s|
    ensures r.Got? ==> i < r.pos
    ensures r.pos <= |s|
    decreases |s| - i, 1
  {
    var v := ValueAt(s, i);
    if v.Failed? then Failed(v.what, v.pos)
    else
      var j := SkipWs(s, v.pos);
      if j < |s| && s[j] == ',' then Got((a + [v.value], true), SkipWs(s, j + 1))
      else if j < |s| && s[j] == ']' then Got((a + [v.value], false), j + 1)
      else Failed("expected ',' or ']'", j)
  }

  /** The items of an array from i on; a holds those already read. */
  function Items(s: string, i: nat, a: seq<Value>): (r: Parsed<Value>)
    requires i <= |s|
    ensures r.Got? ==> i < r.pos
    ensures r.pos <= |s|
    decreases |s| - i, 2
  {
    var m := ItemAt(s, i, a);
    if m.Failed? then Failed(m.what, m.pos)
    else if m.value.1 then Items(s, m.pos, m.value.0)
    else Got(Arr(m.value.0), m.pos)
  }

  /** One member, put into the members already read. */
  function MemberAt(s: string, start: nat, o: seq<Member>): (r: Parsed<seq<Member>>)
    requires start <= |s|
    ensures r.Got? ==> start < r.pos
    ensures r.pos <= |s|
    decreases |s| - start, 1
  {
    var i := SkipWs(s, start);
    var key := StringAt(s, i);
    if key.Failed? then Failed(key.what, key.pos)
    else
      var c := SkipWs(s, key.pos);
      if c == |s| || s[c] != ':' then Failed("expected ':' after object key", c)
      else
        var v := ValueAt(s, SkipWs(s, c + 1));
        if v.Failed? then Failed(v.what, v.pos) else Got(Insert(o, key.value, v.value), v.pos)
  }

  /** The members of an object from start on; o holds those already read. */
  function Members(s: string, start: nat, o: seq<Member>): (r: Parsed<Value>)
    requires start <= |s|
    ensures r.Got? ==> start < r.pos
    ensures r.pos <= |s|
    decreases |s| - start, 2
  {
    var m := MemberAt(s, start, o);
    if m.Failed? then Failed(m.what, m.pos)
    else
      var j := SkipWs(s, m.pos);
      if j < |s| && s[j] == ',' then Members(s, j + 1, m.value)
      else if j < |s| && s[j] == '}' then Got(Obj(m.value), j + 1)
      else Failed("expected ',' or '}'", j)
  }

  /** Run: one value with nothing but white space around it. */
  function Document(s: string): Parsed<Value>
  {
    var v := ValueAt(s, SkipWs(s, 0));
    if v.Failed? then v
    else
      var end := SkipWs(s, v.pos);
      if end < |s| then Failed("trailing data after JSON value", end) else Got(v.value, end)
  }

  /** What a parsing method reports; the message of an error names the position
      the parser stopped at. */
  datatype Outcome<+T> = Value(value: T) | Error(what: string)
  {
    /** The method returned this with the parser at pos. */
    ghost predicate Agrees(pos: nat, p: Parsed<T>)
    {
      p == if Value? then Got(value, pos) else Failed(what, pos)
    }
  }

  class Parser {
    const input: string
    var pos: nat

    ghost predicate Inv()
      reads this
    {
      pos <= |input|
    }

    constructor (input: string)
      ensures Inv() && this.input == input && pos == 0
    {
      this.input := input;
      pos := 0;
    }

    predicate Eof()
      reads this
    {
      pos >= |input|
    }

    method SkipSpace()
      requires Inv()
      modifies this
      ensures Inv() && pos == SkipWs(input, old(pos))
    {
      var p := pos;
      while p < |input| && IsSpace(input[p])
        invariant p <= |input| && SkipWs(input, p) == SkipWs(input, pos)
      {
        p := p + 1;
      }
      pos := p;
    }

    method SkipDigitRun()
      requires Inv()
      modifies this
      ensures Inv() && pos == SkipDigits(input, old(pos))
    {
      var p := pos;
      while p < |input| && IsDigit(input[p])
        invariant p <= |input| && SkipDigits(input, p) == SkipDigits(input, pos)
      {
        p := p + 1;
      }
      pos := p;
    }

    method Consume(c: char) returns (b: bool)
      requires Inv()
      modifies this
      ensures Inv() && b == (old(pos) < |input| && input[old(pos)] == c)
      ensures pos == if b then old(pos) + 1 else old(pos)
    {
      if pos < |input| && input[pos] == c {
        pos := pos + 1;
        return true;
      }
      return false;
    }

    method ConsumeLiteral(lit: string) returns (b: bool)
      requires Inv()
      modifies this
      ensures Inv() && b == LiteralAt(input, old(pos), lit)
      ensures pos == if b then old(pos) + |lit| else old(pos)
    {
      LiteralSlice(input, pos, lit);
      if |input| - pos < |lit| || input[pos..pos + |lit|] != lit { return false; }
      pos := pos + |lit|;
      return true;
    }

    method ParseNumber() returns (r: Outcome<Json.Value>)
      requires Inv() && !Eof()
      modifies this
      ensures Inv() && r.Agrees(pos, Number(input, old(pos)))
    {
      var start := pos;
      if input[pos] == '-' { pos := pos + 1; }
      if Eof() { return Error("unterminated number"); }
      if input[pos] == '0' {
        pos := pos + 1;
      } else if IsDigit(input[pos]) {
        SkipDigitRun();
      } else {
        return Error("invalid number");
      }
      assert IntegerPart(input, start) == Got((), pos);
      r := FinishNumber(start);
    }

    method ParseFraction() returns (r: Outcome<bool>)
      requires Inv()
      modifies this
      ensures Inv() && r.Agrees(pos, Fraction(input, old(pos)))
    {
      if !Eof() && input[pos] == '.' {
        pos := pos + 1;
        if Eof() || !IsDigit(input[pos]) { return Error("expected digit after '.'"); }
        SkipDigitRun();
        return Value(true);
      }
      return Value(false);
    }

    method ParseExponent() returns (r: Outcome<bool>)
      requires Inv()
      modifies this
      ensures Inv() && r.Agrees(pos, Exponent(input, old(pos)))
    {
      if !Eof() && (input[pos] == 'e' || input[pos] == 'E') {
        pos := pos + 1;
        if !Eof() && (input[pos] == '+' || input[pos] == '-') { pos := pos + 1; }
        if Eof() || !IsDigit(input[pos]) { return Error("expected digit in exponent"); }
        SkipDigitRun();
        return Value(true);
      }
      return Value(false);
    }

    /** The fraction, the exponent and the conversion. */
    method FinishNumber(start: nat) returns (r: Outcome<Json.Value>)
      requires Inv() && start < |input| && IntegerPart(input, start) == Got((), pos)
      modifies this
      ensures Inv() && r.Agrees(pos, Number(input, start))
    {
      var frac := ParseFraction();
      if frac.Error? { return Error(frac.what); }
      var exp := ParseExponent();
      if exp.Error? { return Error(exp.what); }
      var tok := input[start..pos];
      if frac.value || exp.value { return Value(Double(tok)); }
      return Value(IntegerValue(tok));
    }

    method ParseHex4() returns (r: Outcome<string>)
      requires Inv()
      modifies this
      ensures Inv()
      ensures r.Agrees(pos,
                if |input| - old(pos) < 4 then Failed("truncated \\u escape", old(pos))
                else match Hex4(input, old(pos))
                     case None => Failed("invalid hex digit in \\u escape", old(pos))
                     case Some(cp) => Got(Utf8(cp), old(pos) + 4))
    {
      if |input| - pos < 4 { return Error("truncated \\u escape"); }
      var cp: nat := 0;
      for k := 0 to 4
        invariant cp < 0x1_0000 && (k < 4 ==> cp < 0x1000) && (k < 3 ==> cp < 0x100) && (k < 2 ==> cp < 0x10)
        invariant k == 0 ==> cp == 0
        invariant Hex4From(input, pos, k, cp) == Hex4(input, pos)
      {
        var d := HexValue(input[pos + k]);
        if d == None { return Error("invalid hex digit in \\u escape"); }
        cp := cp * 16 + d.value;
      }
      pos := pos + 4;
      return Value(Utf8(cp));
    }

    method ParseEscape() returns (r: Outcome<string>)
      requires Inv()
      modifies this
      ensures Inv() && r.Agrees(pos, Unescape(input, old(pos)))
    {
      if Eof() { return Error("unterminated escape sequence"); }
      var esc := input[pos];
      pos := pos + 1;
      match esc
      case '"' => return Value("\"");
      case '\\' => return Value("\\");
      case '/' => return Value("/");
      case 'b' => return Value([8 as char]);
      case 'f' => return Value([12 as char]);
      case 'n' => return Value("\n");
      case 'r' => return Value("\r");
      case 't' => return Value("\t");
      case 'u' => r := ParseHex4();
      case _ => return Error("invalid escape character");
    }

    method ParseStringInto() returns (r: Outcome<string>)
      requires Inv()
      modifies this
      ensures Inv() && r.Agrees(pos, StringAt(input, old(pos)))
    {
      var quote := Consume('"');
      if !quote { return Error("expected '\"'"); }
      var out := "";
      while !Eof()
        invariant Inv() && StringBody(input, pos, out) == StringAt(input, old(pos))
        decreases |input| - pos
      {
        var c := input[pos];
        if c as int < 0x20 { return Error("unescaped control character in string"); }
        if c == '"' {
          pos := pos + 1;
          return Value(out);
        }
        if c == '\\' {
          pos := pos + 1;
          var e := ParseEscape();
          if e.Error? { return e; }
          out := out + e.value;
        } else {
          out := out + [c];
          pos := pos + 1;
        }
      }
      return Error("unterminated string");
    }

    method ParseValue() returns (r: Outcome<Json.Value>)
      requires Inv()
      modifies this
      ensures Inv() && r.Agrees(pos, ValueAt(input, old(pos)))
      decreases |input| - pos, 1
    {
      SkipSpace();
      if Eof() { return Error("unexpected end of input"); }
      var c := input[pos];
      if c == '"' {
        var t := ParseStringInto();
        return if t.Error? then Error(t.what) else Value(Str(t.value));
      } else if c == '{' {
        r := ParseObject();
      } else if c == '[' {
        r := ParseArray();
      } else if c == 't' || c == 'f' {
        var b := ConsumeLiteral("true");
        if b { return Value(Bool(true)); }
        b := ConsumeLiteral("false");
        if b { return Value(Bool(false)); }
        return Error("expected 'true' or 'false'");
      } else if c == 'n' {
        var b := ConsumeLiteral("null");
        if b { return Value(Null); }
        return Error("expected 'null'");
      } else if c == '-' || IsDigit(c) {
        r := ParseNumber();
      } else {
        return Error("unexpected character");
      }
    }

    method ParseArray() returns (r: Outcome<Json.Value>)
      requires Inv() && pos < |input| && input[pos] == '['
      modifies this
      ensures Inv()
      ensures var j := SkipWs(input, old(pos) + 1);
        r.Agrees(pos, if j < |input| && input[j] == ']' then Got(Arr([]), j + 1) else Items(input, j, []))
      decreases |input| - pos, 0
    {
      var b := Consume('[');
      SkipSpace();
      b := Consume(']');
      if b { return Value(Arr([])); }
      r := ParseItems();
    }

    /** One turn of the loop over the items. */
    method ParseItem(a: seq<Json.Value>) returns (r: Outcome<(seq<Json.Value>, bool)>)
      requires Inv()
      modifies this
      ensures Inv() && r.Agrees(pos, ItemAt(input, old(pos), a))
      decreases |input| - pos, 2
    {
      var item := ParseValue();
      if item.Error? { return Error(item.what); }
      SkipSpace();
      var b := Consume(',');
      if b {
        SkipSpace();
        return Value((a + [item.value], true));
      }
      b := Consume(']');
      if b { return Value((a + [item.value], false)); }
      return Error("expected ',' or ']'");
    }

    method ParseItems() returns (r: Outcome<Json.Value>)
      requires Inv()
      modifies this
      ensures Inv() && r.Agrees(pos, Items(input, old(pos), []))
      decreases |input| - pos, 3
    {
      var a: seq<Json.Value> := [];
      while true
        invariant Inv() && old(pos) <= pos && Items(input, pos, a) == Items(input, old(pos), [])
        decreases |input| - pos
      {
        var m := ParseItem(a);
        if m.Error? { return Error(m.what); }
        a := m.value.0;
        if !m.value.1 { return Value(Arr(a)); }
      }
    }

    /** One turn of the loop over the members, up to the separator. */
    method ParseMember(o: seq<Member>) returns (r: Outcome<seq<Member>>)
      requires Inv()
      modifies this
      ensures Inv() && r.Agrees(pos, MemberAt(input, old(pos), o))
      decreases |input| - pos, 2
    {
      SkipSpace();
      var key := ParseStringInto();
      if key.Error? { return Error(key.what); }
      SkipSpace();
      var b := Consume(':');
      if !b { return Error("expected ':' after object key"); }
      SkipSpace();
      var v := ParseValue();
      if v.Error? { return Error(v.what); }
      return Value(Insert(o, key.value, v.value));
    }

    method ParseObject() returns (r: Outcome<Json.Value>)
      requires Inv() && pos < |input| && input[pos] == '{'
      modifies this
      ensures Inv()
      ensures var j := SkipWs(input, old(pos) + 1);
        r.Agrees(pos, if j < |input| && input[j] == '}' then Got(Obj([]), j + 1) else Members(input, j, []))
      decreases |input| - pos, 0
    {
      hide MemberAt, ValueAt;
      var b := Consume('{');
      var o: seq<Member> := [];
      SkipSpace();
      b := Consume('}');
      if b { return Value(Obj(o)); }
      ghost var first := pos;
      while true
        invariant Inv() && old(pos) < pos && Members(input, pos, o) == Members(input, first, [])
        decreases |input| - pos
      {
        var m := ParseMember(o);
        if m.Error? { return Error(m.what); }
        o := m.value;
        SkipSpace();
        b := Consume(',');
        if !b {
          b := Consume('}');
          if b { return Value(Obj(o)); }
          return Error("expected ',' or '}'");
        }
      }
    }

    method Run() returns (r: Outcome<Json.Value>)
      requires Inv() && pos == 0
      modifies this
      ensures Inv() && r.Agrees(pos, Document(input))
    {
      SkipSpace();
      r := ParseValue();
      if r.Error? { return; }
      SkipSpace();
      if pos != |input| { return Error("trailing data after JSON value"); }
    }
  }

  /** Parse: the outcome, and where the parser stopped. */
  method Parse(input: string) returns (r: Outcome<Json.Value>, stop: nat)
    ensures r.Agrees(stop, Document(input))
  {
    var p := new Parser(input);
    r := p.Run();
    stop := p.pos;
  }
}
