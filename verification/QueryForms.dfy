/** Everything that can be written in the query language: words with and without
    a field, quoted texts, parentheses, AND written or left out, OR, and white
    space.  Each form is parsed to what it means. */
module QueryForms {
  import opened Base
  import opened JsonParser
  import opened JsonGrammar
  import opened Queries
  import opened QueryParser
  import opened QueryRoundTrip

  /** A word stands for itself, a quoted text for what is between the quotes. */
  datatype Word = Bare(w: string) | Quoted(w: string)

  /** A term, with its field and a colon or for the default field, or a form in
      parentheses. */
  datatype Unit = Item(field: Option<Field>, text: Word) | Group(left: string, form: OrForm, right: string)

  datatype Field = Field(name: Word, left: string, right: string)

  /** A further operand, after white space and perhaps AND. */
  datatype Step = Step(before: string, written: bool, after: string, operand: Unit)

  datatype AndForm = AndForm(first: Unit, steps: seq<Step>)

  datatype Branch = Branch(before: string, after: string, operand: AndForm)

  datatype OrForm = OrForm(first: AndForm, branches: seq<Branch>)

  // ----- what forms mean -----

  function UnitMeaning(u: Unit, field: string): Query
    decreases u, 0
  {
    match u
    case Item(f, text) => Term(if f.Some? then f.value.name.w else field, text.w)
    case Group(_, form, _) => OrMeaning(form, field)
  }

  function StepMeanings(steps: seq<Step>, field: string): (r: seq<Query>)
    ensures |r| == |steps|
    decreases steps, 0
  {
    if steps == [] then [] else [UnitMeaning(steps[0].operand, field)] + StepMeanings(steps[1..], field)
  }

  /** AND binds tighter than OR, and one operand is just itself. */
  function AndMeaning(a: AndForm, field: string): Query
    decreases a, 1
  {
    var first := UnitMeaning(a.first, field);
    if a.steps == [] then first else Conjunction([first] + StepMeanings(a.steps, field))
  }

  function BranchMeanings(branches: seq<Branch>, field: string): (r: seq<Query>)
    ensures |r| == |branches|
    decreases branches, 0
  {
    if branches == [] then [] else [AndMeaning(branches[0].operand, field)] + BranchMeanings(branches[1..], field)
  }

  function OrMeaning(o: OrForm, field: string): Query
    decreases o, 2
  {
    var first := AndMeaning(o.first, field);
    if o.branches == [] then first else Disjunction([first] + BranchMeanings(o.branches, field))
  }

  // ----- how they are written -----

  function WordText(x: Word): string
  {
    match x
    case Bare(w) => w
    case Quoted(w) => "\"" + (w + "\"")
  }

  function UnitText(u: Unit): string
    decreases u, 0
  {
    match u
    case Item(None, text) => WordText(text)
    case Item(Some(f), text) => WordText(f.name) + (f.left + (":" + (f.right + WordText(text))))
    case Group(left, form, right) => "(" + (left + (OrText(form) + (right + ")")))
  }

  function StepText(x: Step): string
    decreases x, 0
  {
    x.before + ((if x.written then "AND" + x.after else "") + UnitText(x.operand))
  }

  function StepTexts(steps: seq<Step>): string
    decreases steps, 0
  {
    if steps == [] then "" else StepText(steps[0]) + StepTexts(steps[1..])
  }

  function AndText(a: AndForm): string
    decreases a, 1
  {
    UnitText(a.first) + StepTexts(a.steps)
  }

  function BranchText(b: Branch): string
    decreases b, 2
  {
    b.before + ("OR" + (b.after + AndText(b.operand)))
  }

  function BranchTexts(branches: seq<Branch>): string
    decreases branches, 0
  {
    if branches == [] then "" else BranchText(branches[0]) + BranchTexts(branches[1..])
  }

  function OrText(o: OrForm): string
    decreases o, 2
  {
    AndText(o.first) + BranchTexts(o.branches)
  }

  // ----- well-formed forms -----

  ghost predicate GoodWord(x: Word)
  {
    match x
    case Bare(w) => IsIdent(w)
    case Quoted(w) => w != "" && '"' !in w
  }

  /** The bare word that the text starts with. */
  function Leading(u: Unit): Option<string>
  {
    if u.Group? then None
    else
      var x := if u.field.Some? then u.field.value.name else u.text;
      if x.Bare? then Some(x.w) else None
  }

  ghost predicate GoodUnit(u: Unit)
    decreases u, 0
  {
    match u
    case Item(f, text) => GoodWord(text) && (f.Some? ==> GoodWord(f.value.name) && IsGap(f.value.left) && IsGap(f.value.right))
    case Group(left, form, right) => IsGap(left) && IsGap(right) && GoodOr(form)
  }

  /** A further operand does not start with the word OR, nor with AND unless AND
      is written before it. */
  ghost predicate GoodStep(x: Step)
    decreases x, 0
  {
    && x.before != "" && IsGap(x.before) && x.after != "" && IsGap(x.after) && GoodUnit(x.operand)
    && Leading(x.operand) != Some("OR") && (!x.written ==> Leading(x.operand) != Some("AND"))
  }

  ghost predicate GoodSteps(steps: seq<Step>)
    decreases steps, 0
  {
    steps == [] || (GoodStep(steps[0]) && GoodSteps(steps[1..]))
  }

  ghost predicate GoodAnd(a: AndForm)
    decreases a, 1
  {
    GoodUnit(a.first) && GoodSteps(a.steps)
  }

  ghost predicate GoodBranches(branches: seq<Branch>)
    decreases branches, 0
  {
    branches == [] ||
    (var b := branches[0];
     && b.before != "" && IsGap(b.before) && b.after != "" && IsGap(b.after) && GoodAnd(b.operand) && GoodBranches(branches[1..]))
  }

  ghost predicate GoodOr(o: OrForm)
    decreases o, 2
  {
    GoodAnd(o.first) && GoodBranches(o.branches)
  }

  // ----- words -----

  /** Two positions between which there is only white space. */
  predicate SameSpot(s: string, a: nat, b: nat)
  {
    a <= |s| && b <= |s| && SkipWs(s, a) == SkipWs(s, b)
  }

  lemma {:induction false} QuoteEndAt(w: string, s: string, i: nat)
    requires At(s, i, |s|, w) && '"' !in w && i + |w| < |s| && s[i + |w|] == '"'
    ensures QuoteEnd(s, i) == i + |w|
    decreases |w|
  {
    if w != "" {
      AtChar(s, i, |s|, w, 0);
      assert w[0] in w;
      assert w[..1] + w[1..] == w;
      AtSplit(s, i, |s|, w[..1], w[1..]);
      QuoteEndAt(w[1..], s, i + 1);
    }
  }

  lemma {:induction false} WordRead(x: Word, s: string, i: nat)
    requires GoodWord(x) && At(s, i, |s|, WordText(x)) && Delimited(s, i + |WordText(x)|)
    ensures i < |s| && SkipWs(s, i) == i && ReadWord(s, i) == (x.w, i + |WordText(x)|) && x.w != ""
    ensures if x.Bare? then IsIdentChar(s[i]) else s[i] == '"'
  {
    match x
    case Bare(w) => QueryRoundTrip.WordAt(w, s, i);
    case Quoted(w) =>
      AtSplit(s, i, |s|, "\"", w + "\"");
      AtSplit(s, i + 1, |s|, w, "\"");
      AtChar(s, i, |s|, "\"", 0);
      AtChar(s, i + 1 + |w|, |s|, "\"", 0);
      QuoteEndAt(w, s, i + 1);
      AtSlice(s, i + 1, |s|, w);
  }

  /** A quoted text needs nothing after it. */
  lemma {:induction false} QuotedRead(w: string, s: string, i: nat)
    requires w != "" && '"' !in w && At(s, i, |s|, WordText(Quoted(w)))
    ensures i < |s| && s[i] == '"' && SkipWs(s, i) == i && ReadWord(s, i) == (w, i + |w| + 2)
  {
    AtSplit(s, i, |s|, "\"", w + "\"");
    AtSplit(s, i + 1, |s|, w, "\"");
    AtChar(s, i, |s|, "\"", 0);
    AtChar(s, i + 1 + |w|, |s|, "\"", 0);
    QuoteEndAt(w, s, i + 1);
    AtSlice(s, i + 1, |s|, w);
  }

  /** A keyword is seen exactly where that word stands. */
  lemma {:induction false} KeywordIsWord(w: string, s: string, i: nat, kw: string)
    requires IsIdent(w) && At(s, i, |s|, w) && Delimited(s, i + |w|) && IsIdent(kw)
    ensures i <= |s| && (Keyword(s, i, kw).Some? <==> w == kw)
  {
    QueryRoundTrip.WordAt(w, s, i);
    AtSlice(s, i, |s|, w);
    var n := |kw|;
    if i + n <= |s| && s[i..i + n] == kw {
      forall k | 0 <= k < n ensures s[i + k] == kw[k] { assert s[i..i + n][k] == kw[k]; }
      if n < |w| { assert s[i + n] == w[n]; }
    }
  }

  lemma {:induction false} NoKeyword(s: string, i: nat, kw: string)
    requires i < |s| && IsIdent(kw) && !IsIdentChar(s[i]) && !IsSpace(s[i])
    ensures Keyword(s, i, kw) == None
  {
    assert IsIdentChar(kw[0]);
    if i + |kw| <= |s| { assert s[i..i + |kw|][0] == s[i]; }
  }

  lemma {:induction false} KeywordsAreWords()
    ensures IsIdent("AND") && IsIdent("OR")
  {
  }

  // ----- positions -----

  /** Nothing but white space before p counts. */
  lemma {:induction false} SpotCounts(s: string, a: nat, b: nat, kw: string)
    requires SameSpot(s, a, b)
    ensures Keyword(s, a, kw) == Keyword(s, b, kw) && AfterAnd(s, a) == AfterAnd(s, b)
  {
  }

  /** What may follow an operand: something that neither continues a word nor
      makes it a field. */
  predicate Follows(s: string, i: nat)
  {
    Delimited(s, i) && (SkipWs(s, i) == |s| || s[SkipWs(s, i)] != ':')
  }

  /** The start of an operand. */
  lemma {:induction false} UnitStart(u: Unit, s: string, i: nat)
    requires GoodUnit(u) && At(s, i, |s|, UnitText(u)) && Delimited(s, i + |UnitText(u)|)
    ensures i < |s| && SkipWs(s, i) == i && s[i] != ')' && s[i] != ':'
    ensures forall kw :: kw == "AND" || kw == "OR" ==> (Keyword(s, i, kw).Some? <==> Leading(u) == Some(kw))
  {
    hide At, IsIdent, IsGap;
    KeywordsAreWords();
    match u
    case Item(None, text) => WordStart(text, s, i);
    case Item(Some(f), text) =>
      AtSplit(s, i, |s|, WordText(f.name), f.left + (":" + (f.right + WordText(text))));
      FieldEnds(f, text, s, i + |WordText(f.name)|);
      WordStart(f.name, s, i);
    case Group(left, form, right) =>
      AtSplit(s, i, |s|, "(", left + (OrText(form) + (right + ")")));
      AtChar(s, i, |s|, "(", 0);
      NoKeyword(s, i, "AND");
      NoKeyword(s, i, "OR");
  }

  lemma {:induction false} WordStart(x: Word, s: string, i: nat)
    requires GoodWord(x) && At(s, i, |s|, WordText(x)) && Delimited(s, i + |WordText(x)|)
    ensures i < |s| && SkipWs(s, i) == i && s[i] != ')' && s[i] != ':'
    ensures forall kw :: kw == "AND" || kw == "OR" ==> (Keyword(s, i, kw).Some? <==> x == Bare(kw))
  {
    KeywordsAreWords();
    WordRead(x, s, i);
    hide At, IsIdent, ReadWord, Keyword;
    match x
    case Bare(w) =>
      KeywordIsWord(w, s, i, "AND");
      KeywordIsWord(w, s, i, "OR");
    case Quoted(_) =>
      NoKeyword(s, i, "AND");
      NoKeyword(s, i, "OR");
  }

  /** After the name of a field come white space and the colon. */
  lemma {:induction false} FieldEnds(f: Field, text: Word, s: string, i: nat)
    requires IsGap(f.left) && At(s, i, |s|, f.left + (":" + (f.right + WordText(text))))
    ensures Delimited(s, i)
    ensures var c := i + |f.left|; c < |s| && SkipWs(s, i) == c && s[c] == ':' && At(s, c + 1, |s|, f.right + WordText(text))
  {
    hide At;
    AtSplit(s, i, |s|, f.left, ":" + (f.right + WordText(text)));
    AtSplit(s, i + |f.left|, |s|, ":", f.right + WordText(text));
    AtChar(s, i + |f.left|, |s|, ":", 0);
    GapSkipped(s, i, f.left);
    if f.left != "" { AtChar(s, i, |s|, f.left, 0); }
  }

  // ----- terms -----

  lemma {:induction false} PlainBack(text: Word, s: string, i: nat, field: string)
    requires GoodWord(text) && At(s, i, |s|, WordText(text)) && Follows(s, i + |WordText(text)|)
    ensures i <= |s|
    ensures var r := ParseAtom(s, i, field);
      r.Got? && r.value == Term(field, text.w) && SameSpot(s, r.pos, i + |WordText(text)|)
  {
    hide At, ReadWord, IsIdent, WordText;
    WordRead(text, s, i);
    SkipTwice(s, i + |WordText(text)|);
    AtomIsTerm(s, i, field);
  }

  lemma {:induction false} FieldBack(f: Field, text: Word, s: string, i: nat, field: string)
    requires GoodUnit(Item(Some(f), text)) && At(s, i, |s|, UnitText(Item(Some(f), text)))
    requires Delimited(s, i + |UnitText(Item(Some(f), text))|)
    ensures i <= |s|
    ensures ParseAtom(s, i, field) == Got(Term(f.name.w, text.w), i + |UnitText(Item(Some(f), text))|)
  {
    hide At, ReadWord, IsGap, IsIdent, WordText;
    AtSplit(s, i, |s|, WordText(f.name), f.left + (":" + (f.right + WordText(text))));
    var e := i + |WordText(f.name)|;
    FieldEnds(f, text, s, e);
    WordRead(f.name, s, i);
    var c := e + |f.left|;
    AtSplit(s, c + 1, |s|, f.right, WordText(text));
    GapSkipped(s, c + 1, f.right);
    WordRead(text, s, c + 1 + |f.right|);
    AtomIsTerm(s, i, field);
  }

  /** A term is read as its field, or the default field, and its text. */
  lemma {:induction false} ItemBack(f: Option<Field>, text: Word, s: string, i: nat, field: string)
    requires GoodUnit(Item(f, text)) && At(s, i, |s|, UnitText(Item(f, text))) && Follows(s, i + |UnitText(Item(f, text))|)
    ensures i <= |s|
    ensures var r := ParseAtom(s, i, field);
      r.Got? && r.value == UnitMeaning(Item(f, text), field) && SameSpot(s, r.pos, i + |UnitText(Item(f, text))|)
  {
    hide At, ParseAtom, GoodWord, WordText, IsGap, SkipWs;
    if f.None? {
      PlainBack(text, s, i, field);
    } else {
      FieldBack(f.value, text, s, i, field);
    }
  }

  lemma {:induction false} AtomIsTerm(s: string, i: nat, field: string)
    requires i < |s| && SkipWs(s, i) == i && s[i] != '('
    ensures ParseAtom(s, i, field) == ParseTerm(s, i, field)
  {
    hide ParseTerm;
  }

  // ----- conjunctions -----

  /** Where a conjunction ends: at the end, before a closing parenthesis, or
      before OR. */
  predicate AndStops(s: string, e: nat)
  {
    e <= |s| && Keyword(s, e, "AND") == None && AfterAnd(s, e) == SkipWs(s, e) && AndEnds(s, SkipWs(s, e))
  }

  /** Past white space and a written AND stands the operand. */
  lemma {:induction false} PastAnd(s: string, i: nat, before: string, after: string, u: Unit)
    requires before != "" && IsGap(before) && after != "" && IsGap(after)
    requires At(s, i, |s|, before + (("AND" + after) + UnitText(u)))
    requires GoodUnit(u) && Delimited(s, i + |before| + 3 + |after| + |UnitText(u)|)
    ensures Delimited(s, i) && SkipWs(s, i) < |s| && s[SkipWs(s, i)] != ':'
    ensures var p := i + |before| + 3 + |after|; At(s, p, |s|, UnitText(u)) && AfterAnd(s, i) == p
  {
    hide At, IsGap, GoodUnit, IsIdent, Leading, UnitText, AfterAnd;
    var unit, j := UnitText(u), i + |before|;
    AtSplit(s, i, |s|, before, ("AND" + after) + unit);
    AtSplit(s, j, |s|, "AND" + after, unit);
    AtSplit(s, j, |s|, "AND", after);
    AtChar(s, i, |s|, before, 0);
    AtChar(s, j, |s|, "AND", 0);
    AtChar(s, j + 3, |s|, after, 0);
    GapStart(before, after);
    GapSkipped(s, i, before);
    UnitStart(u, s, j + 3 + |after|);
    KeywordsAreWords();
    KeywordIsWord("AND", s, j, "AND");
    WrittenAnd(s, i, j, after, j + 3 + |after|);
  }

  /** Past white space alone stands an operand that does not start with AND. */
  lemma {:induction false} PastSpace(s: string, i: nat, before: string, u: Unit)
    requires before != "" && IsGap(before) && At(s, i, |s|, before + UnitText(u)) && Leading(u) != Some("AND")
    requires GoodUnit(u) && Delimited(s, i + |before| + |UnitText(u)|)
    ensures Delimited(s, i) && SkipWs(s, i) < |s| && s[SkipWs(s, i)] != ':'
    ensures var p := i + |before|; At(s, p, |s|, UnitText(u)) && AfterAnd(s, i) == p
  {
    hide At, IsGap, GoodUnit, IsIdent, Leading, UnitText;
    var j := i + |before|;
    AtSplit(s, i, |s|, before, UnitText(u));
    AtChar(s, i, |s|, before, 0);
    GapStart(before, before);
    GapSkipped(s, i, before);
    UnitStart(u, s, j);
    SpotCounts(s, i, j, "AND");
  }

  /** The parts of a step: past the white space and AND stands the operand. */
  lemma {:induction false} StepParts(x: Step, s: string, i: nat, rest: string)
    requires GoodStep(x) && At(s, i, |s|, StepText(x) + rest) && Delimited(s, i + |StepText(x)|)
    ensures Delimited(s, i) && SkipWs(s, i) < |s| && s[SkipWs(s, i)] != ':'
    ensures var p := i + |StepText(x)| - |UnitText(x.operand)|;
      && i <= p && At(s, p, |s|, UnitText(x.operand)) && AfterAnd(s, i) == p && !AndEnds(s, p)
      && At(s, i + |StepText(x)|, |s|, rest)
  {
    hide At, IsGap, GoodUnit, IsIdent, Leading, AfterAnd, UnitText, Keyword;
    AtSplit(s, i, |s|, StepText(x), rest);
    if x.written {
      PastAnd(s, i, x.before, x.after, x.operand);
    } else {
      assert "" + UnitText(x.operand) == UnitText(x.operand);
      PastSpace(s, i, x.before, x.operand);
    }
    UnitStart(x.operand, s, i + |StepText(x)| - |UnitText(x.operand)|);
  }

  lemma {:induction false} GapStart(g: string, h: string)
    requires g != "" && h != "" && IsGap(g) && IsGap(h)
    ensures IsSpace(g[0]) && !IsIdentChar(g[0]) && IsSpace(h[0]) && !IsIdentChar(h[0])
  {
  }

  /** Past a written AND. */
  lemma {:induction false} WrittenAnd(s: string, i: nat, j: nat, gap: string, p: nat)
    requires i <= |s| && j + 3 <= |s| && SkipWs(s, i) == SkipWs(s, j) && At(s, j, |s|, "AND") && Keyword(s, j, "AND").Some?
    requires IsGap(gap) && At(s, j + 3, |s|, gap) && p == j + 3 + |gap| && p <= |s| && SkipWs(s, p) == p
    ensures AfterAnd(s, i) == p && SkipWs(s, i) == j
  {
    AtChar(s, j, |s|, "AND", 0);
    assert SkipWs(s, j) == j;
    GapSkipped(s, j + 3, gap);
  }

  /** One further operand of a conjunction, from a position behind those before
      it. */
  lemma {:induction false} StepBack(x: Step, rest: string, done: seq<Query>, s: string, q: nat, i: nat, field: string)
      returns (next: nat)
    requires done != [] && GoodStep(x) && At(s, i, |s|, StepText(x) + rest) && SameSpot(s, q, i)
    requires Follows(s, i + |StepText(x)|)
    ensures SameSpot(s, next, i + |StepText(x)|)
    ensures AndRest(s, q, done, field) == AndRest(s, next, done + [UnitMeaning(x.operand, field)], field)
    decreases x, 3
  {
    hide At, SkipWs, Keyword, AfterAnd, AndEnds, ParseAtom, GoodUnit, UnitText, StepText, UnitMeaning, AndRest, IsGap, Leading;
    SpotCounts(s, q, i, "AND");
    StepParts(x, s, i, rest);
    var p := i + |StepText(x)| - |UnitText(x.operand)|;
    UnitBack(x.operand, s, p, field);
    var r := ParseAtom(s, p, field);
    next := r.pos;
    AndStep(s, q, p, done, r.value, next, field);
  }

  /** The operands of a conjunction, from the position behind one of them. */
  lemma {:induction false} StepsBack(steps: seq<Step>, done: seq<Query>, s: string, q: nat, i: nat, field: string)
    requires done != [] && GoodSteps(steps) && At(s, i, |s|, StepTexts(steps)) && SameSpot(s, q, i)
    requires var e := i + |StepTexts(steps)|; AndStops(s, e) && Follows(s, e)
    ensures var all := done + StepMeanings(steps, field);
      var r := AndRest(s, q, done, field);
      r.Got? && r.value == (if |all| == 1 then all[0] else Conjunction(all)) && SameSpot(s, r.pos, i + |StepTexts(steps)|)
    decreases steps, 3
  {
    hide At, AndStops, GoodStep, GoodSteps, StepText, StepTexts, StepMeanings, UnitMeaning, Follows, AndRest, SkipWs;
    NoSteps(field);
    if steps == [] {
      StepsEnd(s, q, i, done, field);
      assert done + [] == done;
    } else {
      FirstStep(steps, field);
      var m := UnitMeaning(steps[0].operand, field);
      EndOfStep(steps, s, i);
      var next := StepBack(steps[0], StepTexts(steps[1..]), done, s, q, i, field);
      StepsBack(steps[1..], done + [m], s, next, i + |StepText(steps[0])|, field);
      assert (done + [m]) + StepMeanings(steps[1..], field) == done + StepMeanings(steps, field);
    }
  }

  lemma {:induction false} StepsEnd(s: string, q: nat, i: nat, done: seq<Query>, field: string)
    requires done != [] && SameSpot(s, q, i) && AndStops(s, i)
    ensures q <= |s| && AndRest(s, q, done, field) == Got(if |done| == 1 then done[0] else Conjunction(done), q)
  {
    hide Keyword, AndEnds;
    SpotCounts(s, q, i, "AND");
  }

  lemma {:induction false} NoSteps(field: string)
    ensures StepTexts([]) == "" && StepMeanings([], field) == []
  {
  }

  lemma {:induction false} FirstStep(steps: seq<Step>, field: string)
    requires steps != [] && GoodSteps(steps)
    ensures GoodStep(steps[0]) && GoodSteps(steps[1..]) && StepTexts(steps) == StepText(steps[0]) + StepTexts(steps[1..])
    ensures StepMeanings(steps, field) == [UnitMeaning(steps[0].operand, field)] + StepMeanings(steps[1..], field)
  {
    hide GoodStep, StepText, UnitMeaning;
  }

  /** What follows the first of several steps. */
  lemma {:induction false} EndOfStep(steps: seq<Step>, s: string, i: nat)
    requires steps != [] && GoodSteps(steps) && At(s, i, |s|, StepTexts(steps)) && Follows(s, i + |StepTexts(steps)|)
    ensures GoodStep(steps[0]) && Follows(s, i + |StepText(steps[0])|) && Delimited(s, i + |StepText(steps[0])|)
    ensures At(s, i + |StepText(steps[0])|, |s|, StepTexts(steps[1..]))
    decreases steps
  {
    hide At, GoodStep, GoodSteps, StepText, StepTexts, SkipWs;
    var e, rest := i + |StepText(steps[0])|, steps[1..];
    FirstStep(steps, "");
    NoSteps("");
    AtSplit(s, i, |s|, StepText(steps[0]), StepTexts(rest));
    if rest != [] {
      EndOfStep(rest, s, e);
      FirstStep(rest, "");
      StepParts(rest[0], s, e, StepTexts(rest[1..]));
    }
  }

  /** An operand is read as what it means. */
  lemma {:induction false} UnitBack(u: Unit, s: string, i: nat, field: string)
    requires GoodUnit(u) && At(s, i, |s|, UnitText(u)) && Follows(s, i + |UnitText(u)|)
    ensures i <= |s|
    ensures var r := ParseAtom(s, i, field);
      r.Got? && r.value == UnitMeaning(u, field) && SameSpot(s, r.pos, i + |UnitText(u)|)
    decreases u, 3
  {
    match u
    case Item(f, text) => ItemBack(f, text, s, i, field);
    case Group(left, form, right) => GroupBack(left, form, right, s, i, field);
  }

  lemma {:induction false} GroupBack(left: string, form: OrForm, right: string, s: string, i: nat, field: string)
    requires GoodUnit(Group(left, form, right)) && At(s, i, |s|, UnitText(Group(left, form, right)))
    ensures i <= |s|
    ensures ParseAtom(s, i, field) == Got(OrMeaning(form, field), i + |UnitText(Group(left, form, right))|)
    decreases form, 6
  {
    hide At, SkipWs, IsGap, GoodOr, OrText, OrMeaning, ParseOr, Follows, AndStops;
    var inner := OrText(form);
    AtSplit(s, i, |s|, "(", left + (inner + (right + ")")));
    AtSplit(s, i + 1, |s|, left, inner + (right + ")"));
    var b := i + 1 + |left|;
    AtSplit(s, b, |s|, inner, right + ")");
    var e := b + |inner|;
    AtSplit(s, e, |s|, right, ")");
    AtChar(s, i, |s|, "(", 0);
    AtChar(s, e + |right|, |s|, ")", 0);
    GapSkipped(s, i + 1, left);
    ClosesForm(s, e, right);
    OrBack(form, s, i + 1, b, field);
    var r := ParseOr(s, i + 1, field);
    GroupRead(s, i, field, r, e + |right|);
  }

  lemma {:induction false} GroupRead(s: string, i: nat, field: string, r: Parsed<Query>, c: nat)
    requires i < |s| && s[i] == '(' && r == ParseOr(s, i + 1, field) && r.Got? && r.pos <= |s|
    requires SkipWs(s, r.pos) == c < |s| && s[c] == ')'
    ensures ParseAtom(s, i, field) == Got(r.value, c + 1)
  {
    hide ParseOr;
  }

  /** White space and a closing parenthesis end a form. */
  lemma {:induction false} ClosesForm(s: string, e: nat, gap: string)
    requires IsGap(gap) && At(s, e, |s|, gap) && e + |gap| < |s| && s[e + |gap|] == ')'
    ensures Follows(s, e) && AndStops(s, e) && Keyword(s, e, "OR") == None && SkipWs(s, e) == e + |gap|
  {
    GapSkipped(s, e, gap);
    AtClose(s, e + |gap|);
    if gap != "" { AtChar(s, e, |s|, gap, 0); }
    KeywordsAreWords();
    NoKeyword(s, e + |gap|, "AND");
    SpotCounts(s, e, e + |gap|, "AND");
    SpotCounts(s, e, e + |gap|, "OR");
  }

  // ----- disjunctions -----

  lemma {:induction false} AndBack(a: AndForm, s: string, start: nat, i: nat, field: string)
    requires GoodAnd(a) && At(s, i, |s|, AndText(a)) && SameSpot(s, start, i)
    requires var e := i + |AndText(a)|; AndStops(s, e) && Follows(s, e)
    ensures start <= |s|
    ensures var r := ParseAnd(s, start, field);
      r.Got? && r.value == AndMeaning(a, field) && SameSpot(s, r.pos, i + |AndText(a)|)
    decreases a, 4
  {
    hide At, SkipWs, GoodUnit, GoodSteps, UnitText, StepTexts, UnitMeaning, Follows, AndStops, ParseAtom, AndRest;
    AtSplit(s, i, |s|, UnitText(a.first), StepTexts(a.steps));
    var e := i + |UnitText(a.first)|;
    FirstFollowed(a, s, i);
    UnitBack(a.first, s, i, field);
    SpotAtom(s, start, i, field);
    var r := ParseAtom(s, start, field);
    StepsBack(a.steps, [r.value], s, r.pos, e, field);
  }

  lemma {:induction false} SpotAtom(s: string, a: nat, b: nat, field: string)
    requires SameSpot(s, a, b)
    ensures ParseAtom(s, a, field) == ParseAtom(s, b, field)
  {
    hide ParseOr, ParseTerm;
  }

  lemma {:induction false} FirstFollowed(a: AndForm, s: string, i: nat)
    requires GoodAnd(a) && At(s, i, |s|, AndText(a)) && Follows(s, i + |AndText(a)|)
    ensures Follows(s, i + |UnitText(a.first)|)
  {
    hide At, GoodStep, StepText, UnitText;
    AtSplit(s, i, |s|, UnitText(a.first), StepTexts(a.steps));
    if a.steps != [] {
      var e := i + |UnitText(a.first)|;
      EndOfStep(a.steps, s, e);
      StepParts(a.steps[0], s, e, StepTexts(a.steps[1..]));
    }
  }

  /** The start of a branch: white space, OR, white space, and its operand. */
  lemma {:induction false} BranchParts(b: Branch, s: string, i: nat, rest: string)
    requires b.before != "" && IsGap(b.before) && b.after != "" && IsGap(b.after) && GoodAnd(b.operand)
    requires At(s, i, |s|, BranchText(b) + rest)
    ensures Follows(s, i) && AndStops(s, i)
    ensures var k := i + |b.before| + 2; var p := k + |b.after|;
      && Keyword(s, i, "OR") == Some(k) && SameSpot(s, k, p) && At(s, p, |s|, AndText(b.operand))
      && p + |AndText(b.operand)| == i + |BranchText(b)| && At(s, i + |BranchText(b)|, |s|, rest)
  {
    hide At, IsGap, GoodAnd, AndText, IsIdent;
    AtSplit(s, i, |s|, BranchText(b), rest);
    AtSplit(s, i, |s|, b.before, "OR" + (b.after + AndText(b.operand)));
    var j := i + |b.before|;
    AtSplit(s, j, |s|, "OR", b.after + AndText(b.operand));
    AtSplit(s, j + 2, |s|, b.after, AndText(b.operand));
    AtChar(s, i, |s|, b.before, 0);
    AtChar(s, j, |s|, "OR", 0);
    AtChar(s, j + 2, |s|, b.after, 0);
    GapStart(b.before, b.after);
    GapSkipped(s, i, b.before);
    GapSkipped(s, j + 2, b.after);
    FitsIn(s, j + 2, b.after);
    KeywordsAreWords();
    KeywordIsWord("OR", s, j, "OR");
    KeywordIsWord("OR", s, j, "AND");
    OrStands(s, i, j);
  }

  lemma {:induction false} OrStands(s: string, i: nat, j: nat)
    requires i <= |s| && j + 2 < |s| && SkipWs(s, i) == SkipWs(s, j) && s[j] == 'O' && Keyword(s, j, "OR").Some?
    requires Keyword(s, j, "AND") == None
    ensures SkipWs(s, i) == j && Keyword(s, i, "OR") == Some(j + 2) && AndStops(s, i)
  {
    assert SkipWs(s, j) == j;
    SpotCounts(s, i, j, "AND");
    SpotCounts(s, i, j, "OR");
  }

  lemma {:induction false} BranchesBack(branches: seq<Branch>, done: seq<Query>, s: string, q: nat, i: nat, field: string)
    requires done != [] && GoodBranches(branches) && At(s, i, |s|, BranchTexts(branches)) && SameSpot(s, q, i)
    requires var e := i + |BranchTexts(branches)|; AndStops(s, e) && Follows(s, e) && Keyword(s, e, "OR") == None
    ensures var all := done + BranchMeanings(branches, field);
      var r := OrRest(s, q, done, field);
      r.Got? && r.value == (if |all| == 1 then all[0] else Disjunction(all)) && SameSpot(s, r.pos, i + |BranchTexts(branches)|)
    decreases branches, 5
  {
    hide At, SkipWs, Keyword, GoodAnd, AndText, BranchText, AndMeaning, ParseAnd, Follows, AndStops, IsGap;
    SpotCounts(s, q, i, "OR");
    if branches == [] {
      assert done + [] == done;
    } else {
      var b := branches[0];
      var e := i + |BranchText(b)|;
      BranchParts(b, s, i, BranchTexts(branches[1..]));
      EndOfBranch(branches, s, i);
      var k := i + |b.before| + 2;
      AndBack(b.operand, s, k, k + |b.after|, field);
      var r := ParseAnd(s, k, field);
      assert OrRest(s, q, done, field) == OrRest(s, r.pos, done + [r.value], field);
      BranchesBack(branches[1..], done + [r.value], s, r.pos, e, field);
      assert (done + [r.value]) + BranchMeanings(branches[1..], field) == done + BranchMeanings(branches, field);
    }
  }

  lemma {:induction false} EndOfBranch(branches: seq<Branch>, s: string, i: nat)
    requires branches != [] && GoodBranches(branches) && At(s, i, |s|, BranchTexts(branches))
    requires var e := i + |BranchTexts(branches)|; AndStops(s, e) && Follows(s, e)
    ensures var e := i + |BranchText(branches[0])|; AndStops(s, e) && Follows(s, e)
  {
    hide At, GoodAnd, BranchText, Follows, AndStops, IsGap;
    AtSplit(s, i, |s|, BranchText(branches[0]), BranchTexts(branches[1..]));
    if branches[1..] != [] {
      BranchParts(branches[1..][0], s, i + |BranchText(branches[0])|, BranchTexts(branches[1..][1..]));
    }
  }

  lemma {:induction false} OrBack(o: OrForm, s: string, start: nat, i: nat, field: string)
    requires GoodOr(o) && At(s, i, |s|, OrText(o)) && SameSpot(s, start, i)
    requires var e := i + |OrText(o)|; AndStops(s, e) && Follows(s, e) && Keyword(s, e, "OR") == None
    ensures start <= |s|
    ensures var r := ParseOr(s, start, field);
      r.Got? && r.value == OrMeaning(o, field) && SameSpot(s, r.pos, i + |OrText(o)|)
    decreases o, 5
  {
    hide At, SkipWs, Keyword, GoodAnd, GoodBranches, AndText, BranchTexts, AndMeaning, ParseAnd, OrRest, Follows, AndStops;
    AtSplit(s, i, |s|, AndText(o.first), BranchTexts(o.branches));
    FirstBranchFollows(o, s, i);
    AndBack(o.first, s, start, i, field);
    var r := ParseAnd(s, start, field);
    BranchesBack(o.branches, [r.value], s, r.pos, i + |AndText(o.first)|, field);
  }

  lemma {:induction false} FirstBranchFollows(o: OrForm, s: string, i: nat)
    requires GoodOr(o) && At(s, i, |s|, OrText(o))
    requires var e := i + |OrText(o)|; AndStops(s, e) && Follows(s, e)
    ensures var e := i + |AndText(o.first)|; AndStops(s, e) && Follows(s, e)
  {
    hide At, GoodAnd, AndText, BranchText, Follows, AndStops, IsGap;
    AtSplit(s, i, |s|, AndText(o.first), BranchTexts(o.branches));
    if o.branches != [] { BranchParts(o.branches[0], s, i + |AndText(o.first)|, BranchTexts(o.branches[1..])); }
  }

  // ----- whole queries -----

  /** Whatever is written, with white space around it, is parsed to what it
      means, for every default field. */
  lemma {:induction false} FormsAreParsed(o: OrForm, lead: string, trail: string, field: string)
    requires GoodOr(o) && IsGap(lead) && IsGap(trail)
    ensures var s := lead + (OrText(o) + trail); ParseQuery(s, field) == Got(OrMeaning(o, field), |s|)
  {
    hide At, GoodOr, OrText, OrMeaning, ParseOr, IsGap, AndStops, Follows;
    var s := lead + (OrText(o) + trail);
    AtWhole(s);
    AtSplit(s, 0, |s|, lead, OrText(o) + trail);
    AtSplit(s, |lead|, |s|, OrText(o), trail);
    var e := |lead| + |OrText(o)|;
    GapSkipped(s, 0, lead);
    GapSkipped(s, e, trail);
    EndsForm(s, e, trail);
    OrStart(o, s, |lead|);
    OrBack(o, s, |lead|, |lead|, field);
    assert SkipWs(s, |s|) == |s|;
  }

  lemma {:induction false} EndsForm(s: string, e: nat, gap: string)
    requires IsGap(gap) && At(s, e, |s|, gap) && e + |gap| == |s|
    ensures Follows(s, e) && AndStops(s, e) && Keyword(s, e, "OR") == None
  {
    GapSkipped(s, e, gap);
    AtEnd(s);
    if gap != "" { AtChar(s, e, |s|, gap, 0); }
    SpotCounts(s, e, |s|, "AND");
    SpotCounts(s, e, |s|, "OR");
  }

  /** A form starts with no white space. */
  lemma {:induction false} OrStart(o: OrForm, s: string, i: nat)
    requires GoodOr(o) && At(s, i, |s|, OrText(o))
    requires var e := i + |OrText(o)|; AndStops(s, e) && Follows(s, e)
    ensures i < |s| && SkipWs(s, i) == i
  {
    hide At, GoodUnit, GoodSteps, GoodBranches, UnitText, StepTexts, BranchTexts, AndStops;
    AtSplit(s, i, |s|, AndText(o.first), BranchTexts(o.branches));
    AtSplit(s, i, |s|, UnitText(o.first.first), StepTexts(o.first.steps));
    FirstBranchFollows(o, s, i);
    FirstFollowed(o.first, s, i);
    UnitStart(o.first.first, s, i);
  }

  /** A blank input matches everything. */
  lemma {:induction false} BlankMatchesAll(gap: string, field: string)
    requires IsGap(gap)
    ensures ParseQuery(gap, field) == Got(MatchAll, |gap|)
  {
    AtWhole(gap);
    GapSkipped(gap, 0, gap);
  }

  // ----- small instances -----

  function Plain(w: string): Unit { Item(None, Bare(w)) }

  function One(u: Unit): AndForm { AndForm(u, []) }

  lemma {:induction false} OneSpace()
    ensures IsGap(" ") && IsGap("")
  {
  }

  lemma {:induction false} PlainIs(w: string, field: string)
    requires IsIdent(w)
    ensures GoodUnit(Plain(w)) && UnitText(Plain(w)) == w && UnitMeaning(Plain(w), field) == Term(field, w)
    ensures Leading(Plain(w)) == Some(w)
  {
  }

  lemma {:induction false} OneIs(u: Unit, field: string)
    ensures AndText(One(u)) == UnitText(u) && AndMeaning(One(u), field) == UnitMeaning(u, field)
    ensures GoodAnd(One(u)) == GoodUnit(u)
  {
    hide UnitText, GoodUnit, UnitMeaning;
    assert UnitText(u) + "" == UnitText(u);
  }

  /** Two operands of a conjunction. */
  lemma {:induction false} TwoAre(u: Unit, x: Step, field: string)
    ensures var a := AndForm(u, [x]);
      && AndText(a) == UnitText(u) + StepText(x) && (GoodAnd(a) <==> GoodUnit(u) && GoodStep(x))
      && AndMeaning(a, field) == Conjunction([UnitMeaning(u, field), UnitMeaning(x.operand, field)])
  {
    hide UnitText, GoodUnit, UnitMeaning, StepText, GoodStep;
    assert [x][1..] == [] && StepTexts([]) == "" && StepText(x) + "" == StepText(x);
    assert StepTexts([x]) == StepText(x);
    assert GoodSteps([]) && StepMeanings([], field) == [];
    assert StepMeanings([x], field) == [UnitMeaning(x.operand, field)];
  }

  lemma {:induction false} AloneIs(a: AndForm, field: string)
    ensures OrText(OrForm(a, [])) == AndText(a) && OrMeaning(OrForm(a, []), field) == AndMeaning(a, field)
    ensures GoodOr(OrForm(a, [])) == GoodAnd(a)
  {
    hide AndText, GoodAnd, AndMeaning;
    assert AndText(a) + "" == AndText(a);
  }

  /** Two branches of a disjunction. */
  lemma {:induction false} EitherIs(a: AndForm, b: AndForm, field: string)
    ensures var o := OrForm(a, [Branch(" ", " ", b)]);
      && OrText(o) == AndText(a) + (" OR " + AndText(b)) && (GoodOr(o) <==> GoodAnd(a) && GoodAnd(b))
      && OrMeaning(o, field) == Disjunction([AndMeaning(a, field), AndMeaning(b, field)])
  {
    hide AndText, GoodAnd, AndMeaning;
    OneSpace();
    var y := Branch(" ", " ", b);
    assert [y][1..] == [] && BranchTexts([]) == "" && GoodBranches([]) && BranchMeanings([], field) == [];
    assert BranchText(y) == " OR " + AndText(b) && BranchText(y) + "" == BranchText(y);
    assert BranchTexts([y]) == BranchText(y);
    assert BranchMeanings([y], field) == [AndMeaning(b, field)];
  }

  lemma {:induction false} NextWord(w: string, written: bool)
    requires IsIdent(w) && w != "OR" && (w != "AND" || written)
    ensures var x := Step(" ", written, " ", Plain(w));
      GoodStep(x) && StepText(x) == (if written then " AND " else " ") + w
  {
    hide IsIdent;
    OneSpace();
    PlainIs(w, "");
    assert "" + w == w;
  }

  /** A form without white space around it. */
  lemma {:induction false} BareForm(o: OrForm, field: string)
    requires GoodOr(o)
    ensures ParseQuery(OrText(o), field) == Got(OrMeaning(o, field), |OrText(o)|)
  {
    hide ParseQuery, GoodOr, OrText, OrMeaning;
    OneSpace();
    assert "" + (OrText(o) + "") == OrText(o);
    FormsAreParsed(o, "", "", field);
  }

  /** A bare word, and a quoted text, for the default field. */
  lemma {:induction false} WordAlone(x: Word, field: string)
    requires GoodWord(x)
    ensures ParseQuery(WordText(x), field) == Got(Term(field, x.w), |WordText(x)|)
  {
    hide ParseQuery, GoodWord, WordText, OrText, AndText;
    var u := Item(None, x);
    OneIs(u, field);
    AloneIs(One(u), field);
    BareForm(OrForm(One(u), []), field);
  }

  /** Words side by side are words joined by AND. */
  lemma {:induction false} SideBySide(u: string, v: string, written: bool, field: string)
    requires IsIdent(u) && IsIdent(v) && v != "AND" && v != "OR"
    ensures var s := u + ((if written then " AND " else " ") + v);
      ParseQuery(s, field) == Got(Conjunction([Term(field, u), Term(field, v)]), |s|)
  {
    hide ParseQuery, IsIdent, OrText, AndText, UnitText, StepText, GoodAnd, GoodOr, GoodUnit, GoodStep, OrMeaning, AndMeaning,
         UnitMeaning;
    PlainIs(u, field);
    PlainIs(v, field);
    NextWord(v, written);
    var x := Step(" ", written, " ", Plain(v));
    TwoAre(Plain(u), x, field);
    AloneIs(AndForm(Plain(u), [x]), field);
    BareForm(OrForm(AndForm(Plain(u), [x]), []), field);
  }

  /** AND binds tighter than OR. */
  lemma {:induction false} AndBeforeOr(u: string, v: string, w: string, written: bool, field: string)
    requires IsIdent(u) && IsIdent(v) && IsIdent(w) && w != "AND" && w != "OR"
    ensures var s := u + (" OR " + (v + ((if written then " AND " else " ") + w)));
      ParseQuery(s, field) == Got(Disjunction([Term(field, u), Conjunction([Term(field, v), Term(field, w)])]), |s|)
  {
    hide ParseQuery, IsIdent, OrText, AndText, UnitText, StepText, GoodAnd, GoodOr, GoodUnit, GoodStep, OrMeaning, AndMeaning,
         UnitMeaning;
    PlainIs(u, field);
    PlainIs(v, field);
    PlainIs(w, field);
    NextWord(w, written);
    var x := Step(" ", written, " ", Plain(w));
    TwoAre(Plain(v), x, field);
    OneIs(Plain(u), field);
    EitherIs(One(Plain(u)), AndForm(Plain(v), [x]), field);
    BareForm(OrForm(One(Plain(u)), [Branch(" ", " ", AndForm(Plain(v), [x]))]), field);
  }

  /** Parentheses turn that round. */
  lemma {:induction false} OrInParentheses(u: string, v: string, w: string, written: bool, field: string)
    requires IsIdent(u) && IsIdent(v) && IsIdent(w) && w != "AND" && w != "OR"
    ensures var s := "(" + ((u + (" OR " + v)) + ")") + ((if written then " AND " else " ") + w);
      ParseQuery(s, field) == Got(Conjunction([Disjunction([Term(field, u), Term(field, v)]), Term(field, w)]), |s|)
  {
    hide ParseQuery, IsIdent, OrText, AndText, StepText, GoodAnd, GoodOr, GoodStep, OrMeaning, AndMeaning;
    PlainIs(u, field);
    PlainIs(v, field);
    PlainIs(w, field);
    NextWord(w, written);
    OneIs(Plain(u), field);
    OneIs(Plain(v), field);
    EitherIs(One(Plain(u)), One(Plain(v)), field);
    var inner := OrForm(One(Plain(u)), [Branch(" ", " ", One(Plain(v)))]);
    OneSpace();
    GroupIs(inner, field);
    hide UnitText, GoodUnit, UnitMeaning;
    var x := Step(" ", written, " ", Plain(w));
    TwoAre(Group("", inner, ""), x, field);
    AloneIs(AndForm(Group("", inner, ""), [x]), field);
    BareForm(OrForm(AndForm(Group("", inner, ""), [x]), []), field);
  }

  lemma {:induction false} GroupIs(o: OrForm, field: string)
    requires GoodOr(o)
    ensures GoodUnit(Group("", o, "")) && UnitText(Group("", o, "")) == "(" + (OrText(o) + ")")
    ensures UnitMeaning(Group("", o, ""), field) == OrMeaning(o, field)
  {
    hide GoodOr, OrText, OrMeaning;
    OneSpace();
    assert "" + (OrText(o) + ("" + ")")) == OrText(o) + ")";
  }
}
