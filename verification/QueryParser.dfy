/** The query language: printing a query, and the recursive-descent parser, as
    functions of a position and as the class that moves the position. */
module QueryParser {
  import opened Base
  import opened JsonParser
  import opened Queries

  // ----- printing -----

  function Print(q: Query): string
    decreases q, 1
  {
    match q
    case MatchAll => "*"
    case Term(field, text) => field + (":" + text)
    case Conjunction(children) => "(" + (Join(children, " AND ") + ")")
    case Disjunction(children) => "(" + (Join(children, " OR ") + ")")
  }

  function Join(children: seq<Query>, op: string): string
    decreases children, 0
  {
    if children == [] then ""
    else if |children| == 1 then Print(children[0])
    else Print(children[0]) + (op + Join(children[1..], op))
  }

  /** ToString. */
  method ToString(q: Query) returns (s: string)
    ensures s == Print(q)
    decreases q, 1
  {
    match q
    case MatchAll => return "*";
    case Term(field, text) => return field + (":" + text);
    case Conjunction(children) => s := ListToString(children, " AND ");
    case Disjunction(children) => s := ListToString(children, " OR ");
  }

  method ListToString(children: seq<Query>, op: string) returns (s: string)
    ensures s == "(" + (Join(children, op) + ")")
    decreases children, 0
  {
    s := "(";
    for i := 0 to |children|
      invariant s + Pending(i, |children|, op, Join(children[i..], op)) == "(" + Join(children, op)
    {
      ghost var was, rest := s, Join(children[i + 1..], op);
      assert children[i..][0] == children[i] && children[i..][1..] == children[i + 1..];
      if i > 0 { s := s + op; }
      var item := ToString(children[i]);
      s := s + item;
      Glue(was, i, |children|, op, item, rest, Join(children[i..], op));
    }
    assert children[|children|..] == [];
    assert s + "" == s;
    s := s + ")";
    assert s == "(" + (Join(children, op) + ")");
  }

  /** What is still to be written when i of n children are out. */
  function Pending(i: nat, n: nat, op: string, items: string): string
  {
    if i == n then "" else if i == 0 then items else op + items
  }

  lemma {:induction false} Glue(was: string, i: nat, n: nat, op: string, item: string, rest: string, items: string)
    requires i < n && items == (if i + 1 == n then item else item + (op + rest))
    ensures was + Pending(i, n, op, items) == ((if i > 0 then was + op else was) + item) + Pending(i + 1, n, op, rest)
  {
  }

  // ----- words and keywords -----

  predicate IsIdentChar(c: char)
  {
    'a' <= c <= 'z' || 'A' <= c <= 'Z' || '0' <= c <= '9' || c == '_' || c == '-' || c == '.'
  }

  /** Where the run of identifier characters at i ends. */
  function IdentEnd(s: string, i: nat): (r: nat)
    requires i <= |s|
    ensures i <= r <= |s|
    decreases |s| - i
  {
    if i < |s| && IsIdentChar(s[i]) then IdentEnd(s, i + 1) else i
  }

  /** Where the next quote at or after i is, or the end. */
  function QuoteEnd(s: string, i: nat): (r: nat)
    requires i <= |s|
    ensures i <= r <= |s|
    decreases |s| - i
  {
    if i < |s| && s[i] != '"' then QuoteEnd(s, i + 1) else i
  }

  /** ReadIdentOrQuoted: the word, and the position after it.  A missing closing
      quote is forgiven. */
  function ReadWord(s: string, start: nat): (r: (string, nat))
    requires start <= |s|
    ensures start <= r.1 <= |s| && (r.0 != "" ==> start < r.1)
  {
    var i := SkipWs(s, start);
    if i < |s| && s[i] == '"' then
      var end := QuoteEnd(s, i + 1);
      (s[i + 1..end], if end < |s| then end + 1 else end)
    else
      var end := IdentEnd(s, i);
      (s[i..end], end)
  }

  /** ConsumeKeyword: the position after the keyword, which white space may
      precede and no identifier character may follow. */
  function Keyword(s: string, start: nat, kw: string): (r: Option<nat>)
    requires start <= |s|
    ensures r.Some? ==> start + |kw| <= r.value <= |s|
  {
    var i := SkipWs(s, start);
    if i + |kw| <= |s| && s[i..i + |kw|] == kw && (i + |kw| == |s| || !IsIdentChar(s[i + |kw|])) then Some(i + |kw|)
    else None
  }

  // ----- the parser -----

  function ParseOr(s: string, i: nat, field: string): (r: Parsed<Query>)
    requires i <= |s|
    ensures r.pos <= |s| && (r.Got? ==> i < r.pos)
    decreases |s| - i, 4
  {
    var left := ParseAnd(s, i, field);
    if left.Failed? then left else OrRest(s, left.pos, [left.value], field)
  }

  /** The operands from i on, after those already read. */
  function OrRest(s: string, i: nat, children: seq<Query>, field: string): (r: Parsed<Query>)
    requires i <= |s| && children != []
    ensures r.pos <= |s| && (r.Got? ==> i <= r.pos)
    decreases |s| - i, 0
  {
    match Keyword(s, i, "OR")
    case None => Got(if |children| == 1 then children[0] else Disjunction(children), i)
    case Some(p) =>
      var right := ParseAnd(s, p, field);
      if right.Failed? then right else OrRest(s, right.pos, children + [right.value], field)
  }

  function ParseAnd(s: string, i: nat, field: string): (r: Parsed<Query>)
    requires i <= |s|
    ensures r.pos <= |s| && (r.Got? ==> i < r.pos)
    decreases |s| - i, 3
  {
    var first := ParseAtom(s, i, field);
    if first.Failed? then first else AndRest(s, first.pos, [first.value], field)
  }

  /** Past an optional AND and white space. */
  function AfterAnd(s: string, i: nat): (r: nat)
    requires i <= |s|
    ensures i <= r <= |s|
  {
    var p := Keyword(s, i, "AND");
    SkipWs(s, if p.Some? then p.value else i)
  }

  /** No further operand of a conjunction stands at p. */
  predicate AndEnds(s: string, p: nat)
    requires p <= |s|
  {
    p == |s| || s[p] == ')' || Keyword(s, p, "OR").Some?
  }

  function AndRest(s: string, i: nat, children: seq<Query>, field: string): (r: Parsed<Query>)
    requires i <= |s| && children != []
    ensures r.pos <= |s| && (r.Got? ==> i <= r.pos)
    decreases |s| - i, 3
  {
    var p := AfterAnd(s, i);
    if AndEnds(s, p) then Got(if |children| == 1 then children[0] else Conjunction(children), i)
    else
      var next := ParseAtom(s, p, field);
      if next.Failed? then next else AndRest(s, next.pos, children + [next.value], field)
  }

  function ParseAtom(s: string, start: nat, field: string): (r: Parsed<Query>)
    requires start <= |s|
    ensures r.pos <= |s| && (r.Got? ==> start < r.pos)
    decreases |s| - start, 2
  {
    var i := SkipWs(s, start);
    if i == |s| then Failed("expected term", i)
    else if s[i] == '(' then
      var inner := ParseOr(s, i + 1, field);
      if inner.Failed? then inner
      else
        var close := SkipWs(s, inner.pos);
        if close == |s| || s[close] != ')' then Failed("expected ')'", close) else Got(inner.value, close + 1)
    else ParseTerm(s, i, field)
  }

  /** A term with or without a field. */
  function ParseTerm(s: string, i: nat, field: string): (r: Parsed<Query>)
    requires i <= |s|
    ensures r.pos <= |s| && (r.Got? ==> i < r.pos)
  {
    var word := ReadWord(s, i);
    if word.0 == "" then Failed("expected term", word.1)
    else
      var p := SkipWs(s, word.1);
      if p < |s| && s[p] == ':' then
        var text := ReadWord(s, SkipWs(s, p + 1));
        if text.0 == "" then Failed("expected term after ':'", text.1) else Got(Term(word.0, text.0), text.1)
      else Got(Term(field, word.0), p)
  }

  /** Run: a blank input matches everything. */
  function ParseQuery(s: string, field: string): Parsed<Query>
  {
    var i := SkipWs(s, 0);
    if i == |s| then Got(MatchAll, i)
    else
      var q := ParseOr(s, i, field);
      if q.Failed? then q
      else
        var end := SkipWs(s, q.pos);
        if end < |s| then Failed("trailing characters", end) else Got(q.value, end)
  }

  /** Recursive descent over one query string.  Each method reads from pos on and
      leaves pos behind what it has read, or where it found an error. */
  class Parser {
    const input: string
    const defaultField: string
    var pos: nat

    ghost predicate Inv()
      reads this
    {
      pos <= |input|
    }

    constructor (input: string, defaultField: string)
      ensures Inv() && this.input == input && this.defaultField == defaultField && pos == 0
    {
      this.input := input;
      this.defaultField := defaultField;
      pos := 0;
    }

    predicate Eof()
      reads this
    {
      pos >= |input|
    }

    method SkipSpace()
      requires Inv()
      modifies this
      ensures Inv() && pos == SkipWs(input, old(pos))
    {
      var p := pos;
      while p < |input| && IsSpace(input[p])
        invariant p <= |input| && SkipWs(input, p) == SkipWs(input, pos)
      {
        p := p + 1;
      }
      pos := p;
    }

    method ConsumeKeyword(kw: string) returns (b: bool)
      requires Inv()
      modifies this
      ensures Inv() && old(pos) <= pos
      ensures b == Keyword(input, old(pos), kw).Some?
      ensures pos == if b then Keyword(input, old(pos), kw).value else SkipWs(input, old(pos))
    {
      SkipSpace();
      if |input| - pos < |kw| { return false; }
      if input[pos..pos + |kw|] != kw { return false; }
      var after := pos + |kw|;
      if after < |input| && IsIdentChar(input[after]) { return false; }
      pos := after;
      return true;
    }

    method LookingAt(kw: string) returns (b: bool)
      requires Inv()
      modifies this
      ensures Inv() && pos == old(pos) && b == Keyword(input, pos, kw).Some?
    {
      var save := pos;
      SkipSpace();
      SkipTwice(input, save);
      b := ConsumeKeyword(kw);
      pos := save;
    }

    method ReadIdentOrQuoted() returns (word: string)
      requires Inv()
      modifies this
      ensures Inv() && (word, pos) == ReadWord(input, old(pos))
    {
      SkipSpace();
      word := "";
      if Eof() { return; }
      ghost var start := pos;
      assert start == SkipWs(input, old(pos));
      if input[pos] == '"' {
        pos := pos + 1;
        ghost var first := pos;
        while !Eof() && input[pos] != '"'
          invariant first <= pos <= |input| && word == input[first..pos] && QuoteEnd(input, pos) == QuoteEnd(input, first)
          decreases |input| - pos
        {
          word := word + [input[pos]];
          pos := pos + 1;
        }
        assert pos == QuoteEnd(input, first) && word == input[first..QuoteEnd(input, first)];
        if !Eof() { pos := pos + 1; }
        return;
      }
      while !Eof() && IsIdentChar(input[pos])
        invariant start <= pos <= |input| && word == input[start..pos] && IdentEnd(input, pos) == IdentEnd(input, start)
        decreases |input| - pos
      {
        word := word + [input[pos]];
        pos := pos + 1;
      }
      assert pos == IdentEnd(input, start) && word == input[start..IdentEnd(input, start)];
    }

    method ParseTermHere() returns (r: Outcome<Query>)
      requires Inv()
      modifies this
      ensures Inv() && r.Agrees(pos, ParseTerm(input, old(pos), defaultField))
    {
      var word := ReadIdentOrQuoted();
      if word == "" { return Error("expected term"); }
      SkipSpace();
      if !Eof() && input[pos] == ':' {
        pos := pos + 1;
        SkipSpace();
        var text := ReadIdentOrQuoted();
        if text == "" { return Error("expected term after ':'"); }
        return Value(Term(word, text));
      }
      return Value(Term(defaultField, word));
    }

    method ParseAtomHere() returns (r: Outcome<Query>)
      requires Inv()
      modifies this
      ensures Inv() && r.Agrees(pos, ParseAtom(input, old(pos), defaultField))
      decreases |input| - pos, 0
    {
      SkipSpace();
      if Eof() { return Error("expected term"); }
      if input[pos] == '(' {
        pos := pos + 1;
        r := ParseOrHere();
        if r.Error? { return; }
        SkipSpace();
        if Eof() || input[pos] != ')' { return Error("expected ')'"); }
        pos := pos + 1;
        return;
      }
      r := ParseTermHere();
    }

    method ParseAndHere() returns (r: Outcome<Query>)
      requires Inv()
      modifies this
      ensures Inv() && r.Agrees(pos, ParseAnd(input, old(pos), defaultField))
      decreases |input| - pos, 1
    {
      var first := ParseAtomHere();
      if first.Error? { return first; }
      var children := [first.value];
      ghost var start := pos;
      while true
        invariant Inv() && old(pos) < pos && children != []
        invariant AndRest(input, pos, children, defaultField) == AndRest(input, start, [first.value], defaultField)
        decreases |input| - pos
      {
        var save := pos;
        var b := ConsumeKeyword("AND");
        SkipSpace();
        SkipTwice(input, save);
        var ends := Eof() || input[pos] == ')';
        if !ends { ends := LookingAt("OR"); }
        if ends {
          pos := save;
          break;
        }
        var next := ParseAtomHere();
        if next.Error? { return next; }
        children := children + [next.value];
      }
      return Value(if |children| == 1 then children[0] else Conjunction(children));
    }

    method ParseOrHere() returns (r: Outcome<Query>)
      requires Inv()
      modifies this
      ensures Inv() && r.Agrees(pos, ParseOr(input, old(pos), defaultField))
      decreases |input| - pos, 2
    {
      var left := ParseAndHere();
      if left.Error? { return left; }
      var children := [left.value];
      ghost var start := pos;
      while true
        invariant Inv() && old(pos) < pos && children != []
        invariant OrRest(input, pos, children, defaultField) == OrRest(input, start, [left.value], defaultField)
        decreases |input| - pos
      {
        var save := pos;
        var b := ConsumeKeyword("OR");
        if !b {
          pos := save;
          break;
        }
        var right := ParseAndHere();
        if right.Error? { return right; }
        children := children + [right.value];
      }
      return Value(if |children| == 1 then children[0] else Disjunction(children));
    }

    method Run() returns (r: Outcome<Query>)
      requires Inv() && pos == 0
      modifies this
      ensures Inv() && r.Agrees(pos, ParseQuery(input, defaultField))
    {
      SkipSpace();
      if Eof() { return Value(MatchAll); }
      r := ParseOrHere();
      if r.Error? { return; }
      SkipSpace();
      if !Eof() { return Error("trailing characters"); }
    }
  }

  /** Parse: the outcome, and where the parser stopped. */
  method Parse(input: string, defaultField: string) returns (r: Outcome<Query>, stop: nat)
    ensures r.Agrees(stop, ParseQuery(input, defaultField))
  {
    var p := new Parser(input, defaultField);
    r := p.Run();
    stop := p.pos;
  }
}
