/** Turning field text into tokens: the standard analyzer cuts out alphanumeric
    runs, the keyword analyzer keeps the text whole. */
module Analyzer {
  import opened Base

  datatype Token = Token(text: string, position: nat, start: nat, end: nat)

  predicate IsTokenChar(c: char)
  {
    'a' <= c <= 'z' || 'A' <= c <= 'Z' || '0' <= c <= '9'
  }

  function AsciiLower(c: char): char
  {
    if 'A' <= c <= 'Z' then (c as int - 'A' as int + 'a' as int) as char else c
  }

  const STOP_WORDS: set<string> := {
    "a", "an", "the", "and", "or", "not", "of", "to", "in", "is", "it", "for", "on", "with", "as", "by",
    "at", "from"
  }

  function Lower(s: string): (r: string)
    ensures |r| == |s|
  {
    if s == [] then [] else [AsciiLower(s[0])] + Lower(s[1..])
  }

  /** Where the run of token characters that contains i ends. */
  function RunEnd(input: string, i: nat): (e: nat)
    requires i <= |input|
    ensures i <= e <= |input|
    ensures forall k :: i <= k < e ==> IsTokenChar(input[k])
    ensures e < |input| ==> !IsTokenChar(input[e])
    decreases |input| - i
  {
    if i < |input| && IsTokenChar(input[i]) then RunEnd(input, i + 1) else i
  }

  /** The tokens from i on, where `position` runs have gone before. */
  function Scan(input: string, i: nat, position: nat): seq<Token>
    requires i <= |input|
    decreases |input| - i
  {
    if i == |input| then []
    else if !IsTokenChar(input[i]) then Scan(input, i + 1, position)
    else
      var end := RunEnd(input, i);
      var lower := Lower(input[i..end]);
      if lower in STOP_WORDS then Scan(input, end, position + 1)
      else [Token(lower, position, i, end)] + Scan(input, end, position + 1)
  }

  method LowerRun(input: string, start: nat, end: nat) returns (lower: string)
    requires start <= end <= |input|
    ensures lower == Lower(input[start..end])
  {
    lower := "";
    for k := start to end
      invariant lower + Lower(input[k..end]) == Lower(input[start..end])
    {
      assert input[k..end][1..] == input[k + 1..end];
      lower := lower + [AsciiLower(input[k])];
    }
    assert input[end..end] == [];
  }

  /** StandardAnalyzer::Analyze. */
  method Standard(input: string) returns (out: seq<Token>)
    ensures out == Scan(input, 0, 0)
  {
    out := [];
    var position, i := 0, 0;
    while i < |input|
      invariant 0 <= i <= |input| && position >= 0
      invariant out + Scan(input, i, position) == Scan(input, 0, 0)
    {
      while i < |input| && !IsTokenChar(input[i])
        invariant 0 <= i <= |input|
        invariant out + Scan(input, i, position) == Scan(input, 0, 0)
      {
        i := i + 1;
      }
      if i >= |input| { break; }
      var start := i;
      while i < |input| && IsTokenChar(input[i])
        invariant start <= i <= |input|
        invariant i == start ==> IsTokenChar(input[start])
        invariant RunEnd(input, i) == RunEnd(input, start)
      {
        i := i + 1;
      }
      var end := i;
      var lower := LowerRun(input, start, end);
      if lower in STOP_WORDS {
        position := position + 1;
      } else {
        out := out + [Token(lower, position, start, end)];
        position := position + 1;
      }
    }
  }

  function KeywordTokens(input: string): seq<Token>
  {
    if input == [] then [] else [Token(input, 0, 0, |input|)]
  }

  /** KeywordAnalyzer::Analyze. */
  method Keyword(input: string) returns (out: seq<Token>)
    ensures out == KeywordTokens(input)
  {
    out := [];
    if input == [] { return; }
    out := out + [Token(input, 0, 0, |input|)];
  }

  // ----- what the standard analyzer promises -----

  predicate StartsRun(input: string, k: nat)
    requires k < |input|
  {
    IsTokenChar(input[k]) && (k == 0 || !IsTokenChar(input[k - 1]))
  }

  /** input[s..e] is a maximal alphanumeric run. */
  predicate IsRun(input: string, s: nat, e: nat)
  {
    && s < e <= |input| && StartsRun(input, s)
    && (forall k :: s <= k < e ==> IsTokenChar(input[k]))
    && (e < |input| ==> !IsTokenChar(input[e]))
  }

  /** How many runs start before i. */
  function RunsBefore(input: string, i: nat): nat
    requires i <= |input|
  {
    if i == 0 then 0 else RunsBefore(input, i - 1) + if StartsRun(input, i - 1) then 1 else 0
  }

  /** i is not inside a run. */
  predicate Boundary(input: string, i: nat)
  {
    i <= |input| && (i == 0 || i == |input| || !(IsTokenChar(input[i - 1]) && IsTokenChar(input[i])))
  }

  /** No run starts inside another. */
  lemma {:induction false} OneRun(input: string, s: nat, e: nat)
    requires s < e <= |input| && StartsRun(input, s)
    requires forall k :: s <= k < e ==> IsTokenChar(input[k])
    ensures RunsBefore(input, e) == RunsBefore(input, s) + 1
  {
    if s + 1 < e { OneRun(input, s, e - 1); }
  }

  /** The token that stands for the run [s, e). */
  function TokenOf(input: string, s: nat, e: nat): Token
    requires s <= e <= |input|
  {
    Token(Lower(input[s..e]), RunsBefore(input, s), s, e)
  }

  /** The tokens from a boundary on are exactly those of the runs that start
      there or later and are no stop words. */
  lemma {:induction false} ScanExact(input: string, i: nat, t: Token)
    requires Boundary(input, i)
    ensures t in Scan(input, i, RunsBefore(input, i)) <==>
      i <= t.start && IsRun(input, t.start, t.end) && t == TokenOf(input, t.start, t.end) && t.text !in STOP_WORDS
    decreases |input| - i
  {
    if i < |input| {
      if !IsTokenChar(input[i]) {
        ScanExact(input, i + 1, t);
      } else {
        var end := RunEnd(input, i);
        OneRun(input, i, end);
        ScanExact(input, end, t);
        if IsRun(input, t.start, t.end) && i <= t.start < end {
          assert t.start == i;
          assert t.end == end;
        }
      }
    }
  }

  /** The output is the set of maximal alphanumeric runs, lower-cased, without
      the stop words, each with the number of runs before it. */
  lemma {:induction false} TokensAreRuns(input: string, t: Token)
    ensures t in Scan(input, 0, 0) <==>
      IsRun(input, t.start, t.end) && t == TokenOf(input, t.start, t.end) && t.text !in STOP_WORDS
  {
    ScanExact(input, 0, t);
  }

  /** The spans are in order and do not touch. */
  lemma {:induction false} SpansAscend(input: string, i: nat, position: nat, j: nat, k: nat)
    requires i <= |input|
    requires j < k < |Scan(input, i, position)|
    ensures i <= Scan(input, i, position)[j].start < Scan(input, i, position)[j].end < Scan(input, i, position)[k].start
    ensures Scan(input, i, position)[j].position < Scan(input, i, position)[k].position
    decreases |input| - i
  {
    if !IsTokenChar(input[i]) {
      SpansAscend(input, i + 1, position, j, k);
    } else {
      var end := RunEnd(input, i);
      if Lower(input[i..end]) in STOP_WORDS {
        SpansAscend(input, end, position + 1, j, k);
      } else if j > 0 {
        SpansAscend(input, end, position + 1, j - 1, k - 1);
      } else {
        LaterToken(input, end, position + 1, k - 1);
      }
    }
  }

  lemma {:induction false} LaterToken(input: string, i: nat, position: nat, k: nat)
    requires i <= |input| && k < |Scan(input, i, position)|
    ensures var t := Scan(input, i, position)[k];
      i <= t.start && position <= t.position && (i < |input| && !IsTokenChar(input[i]) ==> i < t.start)
    decreases |input| - i
  {
    if !IsTokenChar(input[i]) {
      LaterToken(input, i + 1, position, k);
    } else {
      var end := RunEnd(input, i);
      var stop := Lower(input[i..end]) in STOP_WORDS;
      if stop || k > 0 {
        LaterToken(input, end, position + 1, if stop then k else k - 1);
      }
    }
  }

  lemma {:induction false} LowerAt(s: string, i: nat)
    requires i < |s|
    ensures Lower(s)[i] == AsciiLower(s[i])
  {
    if i > 0 { LowerAt(s[1..], i - 1); }
  }

  lemma {:induction false} LowerTwice(s: string)
    ensures Lower(Lower(s)) == Lower(s)
  {
    if s != [] {
      LowerTwice(s[1..]);
      assert Lower(s)[1..] == Lower(s[1..]);
    }
  }

  /** Analysing the text of an emitted token again gives just that token. */
  lemma {:induction false} TokensAreStable(input: string, t: Token)
    requires t in Scan(input, 0, 0)
    ensures Scan(t.text, 0, 0) == [Token(t.text, 0, 0, |t.text|)]
  {
    TokensAreRuns(input, t);
    var w := t.text;
    forall k | 0 <= k < |w| ensures IsTokenChar(w[k]) {
      LowerAt(input[t.start..t.end], k);
    }
    assert RunEnd(w, 0) == |w|;
    assert w[0..|w|] == w;
    LowerTwice(input[t.start..t.end]);
  }

  lemma {:induction false} RunsWithin(input: string, i: nat)
    requires i <= |input|
    ensures RunsBefore(input, i) <= i
  {
    if i > 0 { RunsWithin(input, i - 1); }
  }

  /** Below 4 GiB of text every position and offset fits the 32 bits in which the
      program keeps it. */
  lemma {:induction false} NumbersFit(input: string, t: Token)
    requires t in Scan(input, 0, 0) && |input| < U32
    ensures t.position <= t.start < t.end < U32
  {
    TokensAreRuns(input, t);
    RunsWithin(input, t.start);
  }

  // ----- letters and words, by their codes -----

  /** The characters of a token are the ASCII letters and digits. */
  lemma {:induction false} TokenCharCodes(c: char)
    ensures IsTokenChar(c) <==> 48 <= c as int <= 57 || 65 <= c as int <= 90 || 97 <= c as int <= 122
  {
  }

  /** b is a, except that capital letters may have become small ones. */
  predicate Folded(a: string, b: string)
  {
    && |a| == |b|
    && forall k :: 0 <= k < |a| ==>
         if 65 <= a[k] as int <= 90 then b[k] as int == a[k] as int + 32 else b[k] == a[k]
  }

  lemma {:induction false} LowerFolds(s: string)
    ensures Folded(s, Lower(s))
  {
    forall k | 0 <= k < |s|
      ensures if 65 <= s[k] as int <= 90 then Lower(s)[k] as int == s[k] as int + 32 else Lower(s)[k] == s[k]
    {
      LowerAt(s, k);
    }
  }

  /** An emitted token is its span with every capital letter replaced by the
      small one, and consists of small letters and digits only. */
  lemma {:induction false} TokensAreLower(input: string, t: Token)
    requires t in Scan(input, 0, 0)
    ensures t.start < t.end <= |input| && Folded(input[t.start..t.end], t.text)
    ensures forall k :: 0 <= k < |t.text| ==> 48 <= t.text[k] as int <= 57 || 97 <= t.text[k] as int <= 122
  {
    TokensAreRuns(input, t);
    var span := input[t.start..t.end];
    LowerFolds(span);
    forall k | 0 <= k < |t.text| ensures 48 <= t.text[k] as int <= 57 || 97 <= t.text[k] as int <= 122 {
      assert span[k] == input[t.start + k] && IsTokenChar(span[k]);
    }
  }

  /** Two texts that differ only in the case of their letters. */
  predicate SameButCase(a: string, b: string)
  {
    && |a| == |b|
    && forall k :: 0 <= k < |a| ==>
         || a[k] == b[k]
         || (65 <= a[k] as int <= 90 && b[k] as int == a[k] as int + 32)
         || (65 <= b[k] as int <= 90 && a[k] as int == b[k] as int + 32)
  }

  lemma {:induction false} SameRunEnd(a: string, b: string, i: nat)
    requires SameButCase(a, b) && i <= |a|
    ensures RunEnd(a, i) == RunEnd(b, i)
    decreases |a| - i
  {
    if i < |a| && IsTokenChar(a[i]) { SameRunEnd(a, b, i + 1); }
  }

  lemma {:induction false} SameLower(a: string, b: string)
    requires SameButCase(a, b)
    ensures Lower(a) == Lower(b)
  {
    LowerFolds(a);
    LowerFolds(b);
  }

  /** Such texts have the same tokens: texts, positions and spans. */
  lemma {:induction false} CaseDoesNotMatter(a: string, b: string, i: nat, position: nat)
    requires SameButCase(a, b) && i <= |a|
    ensures Scan(a, i, position) == Scan(b, i, position)
    decreases |a| - i
  {
    hide RunEnd, Lower;
    if i < |a| {
      if !IsTokenChar(a[i]) {
        CaseDoesNotMatter(a, b, i + 1, position);
      } else {
        SameRunEnd(a, b, i);
        var end := RunEnd(a, i);
        RunStarts(a, i);
        SameLower(a[i..end], b[i..end]);
        CaseDoesNotMatter(a, b, end, position + 1);
      }
    }
  }

  lemma {:induction false} RunStarts(s: string, i: nat)
    requires i < |s| && IsTokenChar(s[i])
    ensures i < RunEnd(s, i)
  {
  }

  /** The words that are left out. */
  const LEFT_OUT: seq<string> := [
    "a", "an", "and", "as", "at", "by", "for", "from", "in", "is", "it", "not", "of", "on", "or", "the", "to", "with"]

  /** A word of small letters and digits alone is a token, unless it is one of
      these eighteen. */
  lemma {:induction false} WordAlone(w: string)
    requires w != "" && forall k :: 0 <= k < |w| ==> 48 <= w[k] as int <= 57 || 97 <= w[k] as int <= 122
    ensures Scan(w, 0, 0) == if w in LEFT_OUT then [] else [Token(w, 0, 0, |w|)]
    ensures |LEFT_OUT| == 18
  {
    assert RunEnd(w, 0) == |w| && w[0..|w|] == w && Scan(w, |w|, 1) == [];
    LowerFolds(w);
    assert Lower(w) == w;
    StopWordsAre(w);
  }

  lemma {:induction false} StopWordsAre(w: string)
    ensures w in STOP_WORDS <==> w in LEFT_OUT
  {
    if w in STOP_WORDS {
      var s := LEFT_OUT;
      assert s[0] == "a" && s[1] == "an" && s[2] == "and" && s[3] == "as" && s[4] == "at" && s[5] == "by" && s[6] == "for"
          && s[7] == "from" && s[8] == "in" && s[9] == "is" && s[10] == "it" && s[11] == "not" && s[12] == "of" && s[13] == "on"
          && s[14] == "or" && s[15] == "the" && s[16] == "to" && s[17] == "with";
    }
  }

  /** Some word of the text is w when its capitals are made small, and w is not
      left out.  A word is a maximal run of letters and digits. */
  ghost predicate HasWord(text: string, w: string)
  {
    w !in LEFT_OUT && exists s: nat, e: nat :: IsRun(text, s, e) && Folded(text[s..e], w)
  }

  lemma {:induction false} FoldedIsLower(a: string, b: string)
    ensures Folded(a, b) <==> b == Lower(a)
  {
    LowerFolds(a);
  }

  /** The texts of the tokens are the words of the text. */
  lemma {:induction false} TokensAreWords(text: string, w: string)
    ensures HasWord(text, w) <==> exists k :: 0 <= k < |Scan(text, 0, 0)| && Scan(text, 0, 0)[k].text == w
  {
    hide Scan, Folded, RunsBefore, StartsRun, IsTokenChar;
    StopWordsAre(w);
    if HasWord(text, w) {
      var s: nat, e: nat :| IsRun(text, s, e) && Folded(text[s..e], w);
      FoldedIsLower(text[s..e], w);
      var t := TokenOf(text, s, e);
      TokensAreRuns(text, t);
      var k :| 0 <= k < |Scan(text, 0, 0)| && Scan(text, 0, 0)[k] == t;
    }
    if k :| 0 <= k < |Scan(text, 0, 0)| && Scan(text, 0, 0)[k].text == w {
      var t := Scan(text, 0, 0)[k];
      TokensAreRuns(text, t);
      FoldedIsLower(text[t.start..t.end], w);
    }
  }
}
