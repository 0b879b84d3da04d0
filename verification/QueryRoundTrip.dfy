/** When parsing a printed query gives the query back. */
module QueryRoundTrip {
  import opened Base
  import opened JsonParser
  import opened Queries
  import opened QueryParser

  ghost predicate IsIdent(w: string)
  {
    w != "" && forall k :: 0 <= k < |w| ==> IsIdentChar(w[k])
  }

  /** Every field and text is a non-empty identifier. */
  ghost predicate Named(q: Query)
    decreases q
  {
    match q
    case MatchAll => true
    case Term(field, text) => IsIdent(field) && IsIdent(text)
    case Conjunction(children) => AllNamed(children)
    case Disjunction(children) => AllNamed(children)
  }

  ghost predicate AllNamed(children: seq<Query>)
    decreases children
  {
    children == [] || (Named(children[0]) && AllNamed(children[1..]))
  }

  /** Every node has two children at least, and nothing matches all. */
  ghost predicate Shaped(q: Query)
    decreases q
  {
    match q
    case MatchAll => false
    case Term(_, _) => true
    case Conjunction(children) => |children| >= 2 && AllShaped(children)
    case Disjunction(children) => |children| >= 2 && AllShaped(children)
  }

  ghost predicate AllShaped(children: seq<Query>)
    decreases children
  {
    children == [] || (Shaped(children[0]) && AllShaped(children[1..]))
  }

  /** A query whose text starts with the word OR. */
  predicate StartsWithOr(q: Query)
  {
    q.Term? && q.field == "OR"
  }

  ghost predicate NoneStartsWithOr(children: seq<Query>)
  {
    children == [] || (!StartsWithOr(children[0]) && NoneStartsWithOr(children[1..]))
  }

  /** No operand of a conjunction, except a first one, starts with OR. */
  ghost predicate NoLateOr(q: Query)
    decreases q
  {
    match q
    case MatchAll => true
    case Term(_, _) => true
    case Conjunction(children) => AllFree(children) && (children == [] || NoneStartsWithOr(children[1..]))
    case Disjunction(children) => AllFree(children)
  }

  ghost predicate AllFree(children: seq<Query>)
    decreases children
  {
    children == [] || (NoLateOr(children[0]) && AllFree(children[1..]))
  }

  // ----- whatever is parsed is shaped -----

  lemma {:induction false} ShapedSnoc(children: seq<Query>, q: Query)
    requires AllShaped(children) && Shaped(q)
    ensures AllShaped(children + [q])
  {
    if children == [] {
      assert [q][1..] == [];
    } else {
      assert (children + [q])[0] == children[0] && (children + [q])[1..] == children[1..] + [q];
      ShapedSnoc(children[1..], q);
    }
  }

  lemma {:induction false} AtomShaped(s: string, start: nat, field: string)
    requires start <= |s|
    ensures var r := ParseAtom(s, start, field); r.Got? ==> Shaped(r.value)
    decreases |s| - start, 2
  {
    hide ReadWord, ParseOr;
    var i := SkipWs(s, start);
    if i < |s| && s[i] == '(' { OrShaped(s, i + 1, field); }
  }

  lemma {:induction false} AndShaped(s: string, i: nat, field: string)
    requires i <= |s|
    ensures var r := ParseAnd(s, i, field); r.Got? ==> Shaped(r.value)
    decreases |s| - i, 3
  {
    hide ParseAtom, AndRest;
    AtomShaped(s, i, field);
    var first := ParseAtom(s, i, field);
    if first.Got? {
      assert [first.value][1..] == [];
      AndRestShaped(s, first.pos, [first.value], field);
    }
  }

  lemma {:induction false} AndRestShaped(s: string, i: nat, children: seq<Query>, field: string)
    requires i <= |s| && children != [] && AllShaped(children)
    ensures var r := AndRest(s, i, children, field); r.Got? ==> Shaped(r.value)
    decreases |s| - i, 3
  {
    hide ParseAtom, AndEnds, AfterAnd;
    var p := AfterAnd(s, i);
    if !AndEnds(s, p) {
      AtomShaped(s, p, field);
      var next := ParseAtom(s, p, field);
      if next.Got? {
        ShapedSnoc(children, next.value);
        AndRestShaped(s, next.pos, children + [next.value], field);
      }
    }
  }

  lemma {:induction false} OrShaped(s: string, i: nat, field: string)
    requires i <= |s|
    ensures var r := ParseOr(s, i, field); r.Got? ==> Shaped(r.value)
    decreases |s| - i, 4
  {
    hide ParseAnd, OrRest;
    AndShaped(s, i, field);
    var left := ParseAnd(s, i, field);
    if left.Got? {
      assert [left.value][1..] == [];
      OrRestShaped(s, left.pos, [left.value], field);
    }
  }

  lemma {:induction false} OrRestShaped(s: string, i: nat, children: seq<Query>, field: string)
    requires i <= |s| && children != [] && AllShaped(children)
    ensures var r := OrRest(s, i, children, field); r.Got? ==> Shaped(r.value)
    decreases |s| - i, 0
  {
    hide ParseAnd, Keyword;
    var p := Keyword(s, i, "OR");
    if p.Some? && i < p.value {
      AndShaped(s, p.value, field);
      var right := ParseAnd(s, p.value, field);
      if right.Got? {
        ShapedSnoc(children, right.value);
        OrRestShaped(s, right.pos, children + [right.value], field);
      }
    }
  }

  // ----- words at a position -----

  /** An identifier at i is not continued after its end. */
  predicate Delimited(s: string, i: nat)
  {
    i == |s| || (i < |s| && !IsIdentChar(s[i]))
  }

  lemma {:induction false} IdentAt(w: string, s: string, i: nat)
    requires At(s, i, |s|, w) && (forall k :: 0 <= k < |w| ==> IsIdentChar(w[k])) && Delimited(s, i + |w|)
    ensures IdentEnd(s, i) == i + |w|
    decreases |w|
  {
    if w != "" {
      AtChar(s, i, |s|, w, 0);
      assert Standing(s, i, |s|, w);
      IdentAt(w[1..], s, i + 1);
    }
  }

  lemma {:induction false} WordAt(w: string, s: string, i: nat)
    requires IsIdent(w) && At(s, i, |s|, w) && Delimited(s, i + |w|)
    ensures i < |s| && IsIdentChar(s[i]) && SkipWs(s, i) == i && ReadWord(s, i) == (w, i + |w|)
  {
    AtChar(s, i, |s|, w, 0);
    IdentAt(w, s, i);
    AtSlice(s, i, |s|, w);
  }

  /** How a printed query starts. */
  lemma {:induction false} PrintStart(q: Query, s: string, i: nat)
    requires Shaped(q) && Named(q) && At(s, i, |s|, Print(q))
    ensures i < |s| && SkipWs(s, i) == i && (if q.Term? then IsIdentChar(s[i]) else s[i] == '(')
  {
    AtChar(s, i, |s|, Print(q), 0);
  }

  lemma {:induction false} TermBack(f: string, t: string, s: string, i: nat, field: string)
    requires IsIdent(f) && IsIdent(t) && At(s, i, |s|, Print(Term(f, t))) && Delimited(s, i + |Print(Term(f, t))|)
    ensures ParseAtom(s, i, field) == Got(Term(f, t), i + |Print(Term(f, t))|)
  {
    hide SkipWs, IdentEnd, QuoteEnd, At, ReadWord, IsIdent;
    AtSplit(s, i, |s|, f, ":" + t);
    AtSplit(s, i + |f|, |s|, ":", t);
    AtChar(s, i + |f|, |s|, ":", 0);
    WordAt(f, s, i);
    NotSpace(s, i + |f|);
    WordAt(t, s, i + |f| + 1);
  }

  lemma {:induction false} NotSpace(s: string, i: nat)
    requires i < |s| && !IsSpace(s[i])
    ensures SkipWs(s, i) == i
  {
  }

  lemma {:induction false} OneSpace(s: string, i: nat)
    requires i + 1 < |s| && s[i] == ' ' && !IsSpace(s[i + 1])
    ensures SkipWs(s, i) == i + 1
  {
    NotSpace(s, i + 1);
  }

  /** The word OR is looked at exactly when the query starts with it. */
  lemma {:induction false} LooksAtOr(q: Query, s: string, i: nat)
    requires Shaped(q) && Named(q) && At(s, i, |s|, Print(q))
    ensures i <= |s| && (Keyword(s, i, "OR").Some? <==> StartsWithOr(q))
  {
    PrintStart(q, s, i);
    if q.Term? {
      var f, rest := q.field, ":" + q.text;
      AtSplit(s, i, |s|, f, rest);
      AtSplit(s, i + |f|, |s|, ":", q.text);
      AtChar(s, i + |f|, |s|, ":", 0);
      AtSlice(s, i, |s|, f);
      if |f| == 1 {
        assert s[i..i + 2][1] == ':';
      } else {
        assert s[i..i + 2] == f[..2];
        if |f| > 2 { assert s[i + 2] == f[2]; }
        if |f| == 2 { assert f[..2] == f; }
      }
    } else {
      assert i + 2 <= |s| ==> s[i..i + 2][0] == '(';
    }
  }

  /** Around the end of a printed list: no keyword and no further operand. */
  lemma {:induction false} AtClose(s: string, i: nat)
    requires i < |s| && s[i] == ')'
    ensures SkipWs(s, i) == i && Keyword(s, i, "OR") == None && AfterAnd(s, i) == i && AndEnds(s, i)
  {
    assert i + 2 <= |s| ==> s[i..i + 2][0] == ')';
    assert i + 3 <= |s| ==> s[i..i + 3][0] == ')';
  }

  lemma {:induction false} AtEnd(s: string)
    ensures SkipWs(s, |s|) == |s| && Keyword(s, |s|, "OR") == None && AfterAnd(s, |s|) == |s| && AndEnds(s, |s|)
  {
  }

  /** Before " AND " and something that is no white space. */
  lemma {:induction false} AtAnd(s: string, i: nat)
    requires At(s, i, |s|, " AND ") && i + 5 < |s| && !IsSpace(s[i + 5])
    ensures Keyword(s, i, "OR") == None && AfterAnd(s, i) == i + 5 && SkipWs(s, i) == i + 1 && s[i + 1] == 'A'
  {
    forall k | 0 <= k < 5 ensures s[i + k] == " AND "[k] { AtChar(s, i, |s|, " AND ", k); }
    assert s[i] == ' ' && s[i + 1] == 'A' && s[i + 2] == 'N' && s[i + 3] == 'D' && s[i + 4] == ' ';
    OneSpace(s, i);
    OneSpace(s, i + 4);
    assert s[i + 1..i + 4] == "AND";
    assert s[i + 1..i + 3][0] == 'A';
  }

  /** Before " OR " and something that is no white space. */
  lemma {:induction false} AtOr(s: string, i: nat)
    requires At(s, i, |s|, " OR ") && i + 4 < |s| && !IsSpace(s[i + 4])
    ensures Keyword(s, i, "OR") == Some(i + 3) && AfterAnd(s, i) == i + 1 && AndEnds(s, i + 1) && SkipWs(s, i + 3) == i + 4
  {
    forall k | 0 <= k < 4 ensures s[i + k] == " OR "[k] { AtChar(s, i, |s|, " OR ", k); }
    assert s[i] == ' ' && s[i + 1] == 'O' && s[i + 2] == 'R' && s[i + 3] == ' ';
    OneSpace(s, i);
    OneSpace(s, i + 3);
    NotSpace(s, i + 1);
    assert s[i + 1..i + 3] == "OR";
    assert i + 4 <= |s| ==> s[i + 1..i + 4][0] == 'O';
  }

  lemma {:induction false} AtomSkip(s: string, i: nat, field: string)
    requires i <= |s|
    ensures ParseAtom(s, i, field) == ParseAtom(s, SkipWs(s, i), field)
  {
    hide ParseTerm, ParseOr;
    SkipTwice(s, i);
  }

  // ----- printed queries -----

  /** What remains of a list after some operands: an operator and the others. */
  ghost predicate RestAt(rest: seq<Query>, op: string, s: string, i: nat, end: nat)
  {
    if rest == [] then i == end
    else At(s, i, |s|, op) && At(s, i + |op|, |s|, Join(rest, op)) && end == i + |op| + |Join(rest, op)|
  }

  /** The first of a list, and where the others stand. */
  lemma {:induction false} JoinAt(children: seq<Query>, op: string, s: string, i: nat)
    requires children != [] && At(s, i, |s|, Join(children, op))
    ensures At(s, i, |s|, Print(children[0]))
    ensures var j := i + |Print(children[0])|;
      if |children| == 1 then j == i + |Join(children, op)|
      else RestAt(children[1..], op, s, j, i + |Join(children, op)|)
  {
    if |children| > 1 {
      AtSplit(s, i, |s|, Print(children[0]), op + Join(children[1..], op));
      AtSplit(s, i + |Print(children[0])|, |s|, op, Join(children[1..], op));
    }
  }

  lemma {:induction false} AndStep(s: string, i: nat, p: nat, done: seq<Query>, q: Query, next: nat, field: string)
    requires i <= |s| && done != [] && p == AfterAnd(s, i) && !AndEnds(s, p) && ParseAtom(s, p, field) == Got(q, next)
    ensures next <= |s| && AndRest(s, i, done, field) == AndRest(s, next, done + [q], field)
  {
  }

  lemma {:induction false} AndFails(s: string, i: nat, p: nat, done: seq<Query>, field: string)
    requires i <= |s| && done != [] && p == AfterAnd(s, i) && !AndEnds(s, p)
    ensures ParseAtom(s, p, field).Failed? ==> AndRest(s, i, done, field).Failed?
  {
  }

  lemma {:induction false} AndLeaves(s: string, i: nat, p: nat, done: seq<Query>, field: string)
    requires i <= |s| && done != [] && p == AfterAnd(s, i) && AndEnds(s, p)
    ensures AndRest(s, i, done, field).Got? && AndRest(s, i, done, field).pos == i
  {
  }

  /** Before the closing parenthesis. */
  lemma {:induction false} AndDone(s: string, i: nat, done: seq<Query>, field: string)
    requires i < |s| && s[i] == ')' && |done| >= 2
    ensures AndRest(s, i, done, field) == Got(Conjunction(done), i)
  {
    AtClose(s, i);
  }

  lemma {:induction false} OrDone(s: string, i: nat, done: seq<Query>, field: string)
    requires i < |s| && s[i] == ')' && |done| >= 2
    ensures OrRest(s, i, done, field) == Got(Disjunction(done), i)
  {
    AtClose(s, i);
  }

  /** The rest of a conjunction: it is read to its end, or an operand fails, or
      the list is left before an operand that starts with OR. */
  lemma {:induction false} AndBack(rest: seq<Query>, done: seq<Query>, s: string, i: nat, end: nat, field: string)
    requires done != [] && |done| + |rest| >= 2 && AllShaped(rest) && AllNamed(rest)
    requires RestAt(rest, " AND ", s, i, end) && end < |s| && s[end] == ')'
    ensures i <= |s|
    ensures AllFree(rest) && NoneStartsWithOr(rest) ==> AndRest(s, i, done, field) == Got(Conjunction(done + rest), end)
    ensures !(AllFree(rest) && NoneStartsWithOr(rest)) ==>
      var r := AndRest(s, i, done, field);
      r.Failed? || (Keyword(s, r.pos, "OR") == None && SkipWs(s, r.pos) < |s| && s[SkipWs(s, r.pos)] == 'A')
    decreases rest, 1
  {
    hide SkipWs, Keyword, AfterAnd, AndEnds, ParseAtom, Print, At, Shaped, Named, NoLateOr, AndRest;
    if rest == [] {
      AndDone(s, i, done, field);
      assert done + rest == done;
    } else {
      var p, first := i + 5, rest[0];
      JoinAt(rest, " AND ", s, p);
      PrintStart(first, s, p);
      AtAnd(s, i);
      NothingEnds(first, s, p);
      if StartsWithOr(first) {
        AndLeaves(s, i, p, done, field);
      } else {
        var j := p + |Print(first)|;
        if |rest| > 1 { SpaceAt(s, j, " AND "); }
        AtomBack(first, s, p, field);
        AndFails(s, i, p, done, field);
        if NoLateOr(first) {
          AndStep(s, i, p, done, first, j, field);
          FirstMoved(done, rest);
          AndBack(rest[1..], done + [first], s, j, end, field);
        }
      }
    }
  }

  lemma {:induction false} SpaceAt(s: string, i: nat, op: string)
    requires At(s, i, |s|, op) && op != "" && op[0] == ' '
    ensures i < |s| && s[i] == ' '
  {
    AtChar(s, i, |s|, op, 0);
  }

  /** A printed query does not end a conjunction, unless it starts with OR. */
  lemma {:induction false} NothingEnds(q: Query, s: string, i: nat)
    requires Shaped(q) && Named(q) && At(s, i, |s|, Print(q))
    ensures i <= |s| && (AndEnds(s, i) <==> StartsWithOr(q))
  {
    PrintStart(q, s, i);
    LooksAtOr(q, s, i);
  }

  lemma {:induction false} OrStep(s: string, i: nat, p: nat, done: seq<Query>, r: Parsed<Query>, field: string)
    requires i <= |s| && done != [] && Keyword(s, i, "OR") == Some(p) && p <= |s| && r == ParseAnd(s, p, field)
    ensures r.Failed? ==> OrRest(s, i, done, field).Failed?
    ensures r.Got? ==> r.pos <= |s| && OrRest(s, i, done, field) == OrRest(s, r.pos, done + [r.value], field)
  {
  }

  /** One operand of a disjunction. */
  lemma {:induction false} OperandBack(q: Query, s: string, start: nat, i: nat, field: string)
    requires Shaped(q) && Named(q) && At(s, i, |s|, Print(q)) && start <= |s| && SkipWs(s, start) == i
    requires var j := i + |Print(q)|; j < |s| && Delimited(s, j) && AndEnds(s, AfterAnd(s, j))
    ensures NoLateOr(q) ==> ParseAnd(s, start, field) == Got(q, i + |Print(q)|)
    ensures !NoLateOr(q) ==> ParseAnd(s, start, field).Failed?
    decreases q, 3
  {
    hide SkipWs, AfterAnd, AndEnds, ParseAtom, Print, At, Shaped, Named, NoLateOr;
    AtomSkip(s, start, field);
    AtomBack(q, s, i, field);
  }

  /** The rest of a disjunction. */
  lemma {:induction false} OrBack(rest: seq<Query>, done: seq<Query>, s: string, i: nat, end: nat, field: string)
    requires done != [] && |done| + |rest| >= 2 && AllShaped(rest) && AllNamed(rest)
    requires RestAt(rest, " OR ", s, i, end) && end < |s| && s[end] == ')'
    ensures i <= |s|
    ensures AllFree(rest) ==> OrRest(s, i, done, field) == Got(Disjunction(done + rest), end)
    ensures !AllFree(rest) ==> OrRest(s, i, done, field).Failed?
    decreases rest, 4
  {
    hide SkipWs, Keyword, AfterAnd, AndEnds, ParseAnd, Print, At, Shaped, Named, NoLateOr, OrRest;
    if rest == [] {
      OrDone(s, i, done, field);
      assert done + rest == done;
    } else {
      var first := rest[0];
      JoinAt(rest, " OR ", s, i + 4);
      PrintStart(first, s, i + 4);
      AtOr(s, i);
      var j := i + 4 + |Print(first)|;
      OperandEnds(rest, s, i + 4, end);
      OperandBack(first, s, i + 3, i + 4, field);
      OrStep(s, i, i + 3, done, ParseAnd(s, i + 3, field), field);
      if NoLateOr(first) {
        FirstMoved(done, rest);
        OrBack(rest[1..], done + [first], s, j, end, field);
      }
    }
  }

  /** After an operand of a disjunction comes OR or the end of the list. */
  lemma {:induction false} OperandEnds(rest: seq<Query>, s: string, i: nat, end: nat)
    requires rest != [] && AllShaped(rest) && AllNamed(rest) && At(s, i, |s|, Join(rest, " OR "))
    requires end == i + |Join(rest, " OR ")| < |s| && s[end] == ')'
    ensures var j := i + |Print(rest[0])|; j < |s| && Delimited(s, j) && AndEnds(s, AfterAnd(s, j))
  {
    hide Print, At, Shaped, Named, AfterAnd, AndEnds, Keyword, SkipWs;
    JoinAt(rest, " OR ", s, i);
    var j := i + |Print(rest[0])|;
    if |rest| == 1 {
      AtClose(s, j);
    } else {
      SpaceAt(s, j, " OR ");
      JoinAt(rest[1..], " OR ", s, j + 4);
      PrintStart(rest[1], s, j + 4);
      AtOr(s, j);
    }
  }

  /** A printed query is read as an atom, unless an operand somewhere in it
      comes too late to start with OR. */
  lemma {:induction false} AtomBack(q: Query, s: string, i: nat, field: string)
    requires Shaped(q) && Named(q) && At(s, i, |s|, Print(q)) && Delimited(s, i + |Print(q)|)
    ensures NoLateOr(q) ==> ParseAtom(s, i, field) == Got(q, i + |Print(q)|)
    ensures !NoLateOr(q) ==> ParseAtom(s, i, field).Failed?
    decreases q, 2
  {
    match q
    case Term(f, t) => TermBack(f, t, s, i, field);
    case Conjunction(children) => ConjunctionBack(children, s, i, field);
    case Disjunction(children) => DisjunctionBack(children, s, i, field);
  }

  /** Parentheses around what the parser of disjunctions reads. */
  lemma {:induction false} Parenthesised(body: string, s: string, i: nat, field: string)
    requires At(s, i, |s|, "(" + (body + ")"))
    ensures At(s, i + 1, |s|, body) && i + 1 + |body| < |s| && s[i + 1 + |body|] == ')'
    ensures |"(" + (body + ")")| == |body| + 2
    ensures var r := ParseOr(s, i + 1, field);
      && (r.Failed? ==> ParseAtom(s, i, field).Failed?)
      && (r.Got? && r.pos == i + 1 + |body| ==> ParseAtom(s, i, field) == Got(r.value, i + |body| + 2))
      && (r.Got? && (SkipWs(s, r.pos) < |s| && s[SkipWs(s, r.pos)] != ')') ==> ParseAtom(s, i, field).Failed?)
  {
    hide ParseOr, ParseTerm;
    AtSplit(s, i, |s|, "(", body + ")");
    AtChar(s, i, |s|, "(", 0);
    AtSplit(s, i + 1, |s|, body, ")");
    AtChar(s, i + 1 + |body|, |s|, ")", 0);
  }

  lemma {:induction false} ConjunctionBack(children: seq<Query>, s: string, i: nat, field: string)
    requires |children| >= 2 && AllShaped(children) && AllNamed(children) && At(s, i, |s|, Print(Conjunction(children)))
    ensures var q := Conjunction(children);
      && (NoLateOr(q) ==> ParseAtom(s, i, field) == Got(q, i + |Print(q)|))
      && (!NoLateOr(q) ==> ParseAtom(s, i, field).Failed?)
    decreases children, 2
  {
    hide SkipWs, Keyword, AfterAnd, AndEnds, ParseAtom, ParseAnd, ParseOr, At, Shaped, Named, AndRest, OrRest, Join;
    var body := Join(children, " AND ");
    Parenthesised(body, s, i, field);
    JoinAt(children, " AND ", s, i + 1);
    var first, j, end := children[0], i + 1 + |Print(children[0])|, i + 1 + |body|;
    SpaceAt(s, j, " AND ");
    AtClose(s, end);
    AtomBack(first, s, i + 1, field);
    assert [first] + children[1..] == children;
    FreeParts(children);
    if NoLateOr(first) { AndBack(children[1..], [first], s, j, end, field); }
    AndFollows(s, i + 1, first, j, field);
    OneOperand(s, i + 1, ParseAnd(s, i + 1, field), field);
  }

  lemma {:induction false} FreeParts(children: seq<Query>)
    requires children != []
    ensures AllFree(children) <==> NoLateOr(children[0]) && AllFree(children[1..])
  {
  }

  lemma {:induction false} AndFollows(s: string, i: nat, q: Query, next: nat, field: string)
    requires i <= |s| && next <= |s|
    ensures ParseAtom(s, i, field).Failed? ==> ParseAnd(s, i, field).Failed?
    ensures ParseAtom(s, i, field) == Got(q, next) ==> ParseAnd(s, i, field) == AndRest(s, next, [q], field)
  {
    hide ParseAtom, AndRest;
  }

  lemma {:induction false} OrFollows(s: string, i: nat, q: Query, next: nat, field: string)
    requires i <= |s| && next <= |s|
    ensures ParseAnd(s, i, field).Failed? ==> ParseOr(s, i, field).Failed?
    ensures ParseAnd(s, i, field) == Got(q, next) ==> ParseOr(s, i, field) == OrRest(s, next, [q], field)
  {
    hide ParseAnd, OrRest;
  }

  /** A conjunction that no OR follows is the whole disjunction. */
  lemma {:induction false} OneOperand(s: string, i: nat, r: Parsed<Query>, field: string)
    requires i <= |s| && r == ParseAnd(s, i, field) && r.pos <= |s|
    ensures r.Failed? ==> ParseOr(s, i, field).Failed?
    ensures r.Got? && Keyword(s, r.pos, "OR") == None ==> ParseOr(s, i, field) == r
  {
    hide Keyword, ParseAnd;
  }

  lemma {:induction false} DisjunctionBack(children: seq<Query>, s: string, i: nat, field: string)
    requires |children| >= 2 && AllShaped(children) && AllNamed(children) && At(s, i, |s|, Print(Disjunction(children)))
    ensures var q := Disjunction(children);
      && (NoLateOr(q) ==> ParseAtom(s, i, field) == Got(q, i + |Print(q)|))
      && (!NoLateOr(q) ==> ParseAtom(s, i, field).Failed?)
    decreases children, 4
  {
    hide SkipWs, Keyword, AfterAnd, AndEnds, ParseAtom, ParseAnd, ParseOr, At, Shaped, Named, OrRest, Join;
    var body := Join(children, " OR ");
    Parenthesised(body, s, i, field);
    JoinAt(children, " OR ", s, i + 1);
    var first, j, end := children[0], i + 1 + |Print(children[0])|, i + 1 + |body|;
    OperandEnds(children, s, i + 1, end);
    PrintStart(first, s, i + 1);
    OperandBack(first, s, i + 1, i + 1, field);
    assert [first] + children[1..] == children;
    FreeParts(children);
    if NoLateOr(first) { OrBack(children[1..], [first], s, j, end, field); }
    OrFollows(s, i + 1, first, j, field);
  }

  /** Whatever the default field, a query of identifiers is parsed back from its
      text exactly when every node has two children at least, nothing in it
      matches all, and no conjunction has a later operand with the field OR. */
  lemma {:induction false} RoundTrip(q: Query, field: string)
    requires Named(q)
    ensures ParseQuery(Print(q), field) == Got(q, |Print(q)|) <==> Shaped(q) && NoLateOr(q)
  {
    hide ParseAtom, ParseAnd, ParseOr, AndRest, NoLateOr, Shaped, AfterAnd, AndEnds, Keyword, SkipWs;
    var s := Print(q);
    FirstChar(q);
    AtWhole(s);
    OrShaped(s, 0, field);
    AtEnd(s);
    if Shaped(q) {
      AtomBack(q, s, 0, field);
      AndFollows(s, 0, q, |s|, field);
      AndAtEnd(s, q, field);
      OneOperand(s, 0, ParseAnd(s, 0, field), field);
    }
  }

  lemma {:induction false} AndAtEnd(s: string, q: Query, field: string)
    ensures AndRest(s, |s|, [q], field) == Got(q, |s|)
  {
    AtEnd(s);
  }

  lemma {:induction false} FirstChar(q: Query)
    requires Named(q)
    ensures Print(q) != "" && SkipWs(Print(q), 0) == 0
  {
  }

  // ----- an instance -----

  const LATE_OR: Query := Conjunction([Term("x", "a"), Term("OR", "b")])

  /** An operand with the field OR: the parser leaves the conjunction before it
      and misses the closing parenthesis. */
  lemma {:induction false} LateOrFails(field: string)
    ensures Shaped(LATE_OR) && Named(LATE_OR) && Print(LATE_OR) == "(x:a AND OR:b)"
    ensures ParseQuery("(x:a AND OR:b)", field).Failed?
  {
    LateOrParts();
    hide Shaped, Named, Print, NoLateOr, ParseAtom, ParseAnd, ParseOr, SkipWs, AndRest;
    var s := "(x:a AND OR:b)";
    AtWhole(s);
    PrintStart(LATE_OR, s, 0);
    AtomBack(LATE_OR, s, 0, field);
    AndFollows(s, 0, LATE_OR, 0, field);
    OneOperand(s, 0, ParseAnd(s, 0, field), field);
  }

  lemma {:induction false} LateOrParts()
    ensures Shaped(LATE_OR) && Named(LATE_OR) && !NoLateOr(LATE_OR) && Print(LATE_OR) == "(x:a AND OR:b)"
  {
    var a, b := Term("x", "a"), Term("OR", "b");
    assert [a, b][1..] == [b] && [b][1..] == [];
    assert Print(a) == "x:a" && Print(b) == "OR:b";
    assert Join([a, b], " AND ") == "x:a AND OR:b";
    assert AllShaped([b]) && AllNamed([b]) && !NoneStartsWithOr([b]);
  }
}
