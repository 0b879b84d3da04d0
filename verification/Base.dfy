/** Vocabulary shared by every module: integer widths, the "no more documents"
    sentinel, results, and byte strings.  A byte string is a Dafny string with
    one character per byte. */
module Base {

  const U16: nat := 0x1_0000
  const U32: nat := 0x1_0000_0000
  const U64: nat := 0x1_0000_0000_0000_0000

  /** Storing a number in a word of 16, 32 or 64 bits. */
  function Mod16(v: nat): nat { v % 0x1_0000 }
  function Mod32(v: nat): nat { v % 0x1_0000_0000 }
  function Mod64(v: nat): nat { v % 0x1_0000_0000_0000_0000 }

  /** Truncating before an addition makes no difference. */
  lemma {:induction false} Mod32Twice(a: nat, b: nat)
    ensures Mod32(Mod32(a) + b) == Mod32(a + b)
  {
    var q, x := a / 0x1_0000_0000, Mod32(a) + b;
    var p := x / 0x1_0000_0000;
    assert a + b == (p + q) * 0x1_0000_0000 + Mod32(x);
  }

  lemma {:induction false} Mod64Twice(a: nat, b: nat)
    ensures Mod64(Mod64(a) + b) == Mod64(a + b)
  {
    var q, x := a / 0x1_0000_0000_0000_0000, Mod64(a) + b;
    var p := x / 0x1_0000_0000_0000_0000;
    assert a + b == (p + q) * 0x1_0000_0000_0000_0000 + Mod64(x);
  }

  /** The 32-bit pattern of a float. */
  type FloatBits = x: int | 0 <= x < 0x1_0000_0000

  /** Document ids are 32-bit; the largest one is the sentinel that iterators
      return before the first and after the last document. */
  const NO_MORE: nat := 0xFFFF_FFFF

  /** A value or nothing; `:-` passes nothing on. */
  datatype Option<+T> = None | Some(value: T)
  {
    predicate IsFailure() { None? }

    function PropagateFailure<U>(): Option<U>
      requires None?
    {
      None
    }

    function Extract(): T
      requires Some?
    {
      value
    }
  }

  datatype Result<+T> = Ok(value: T) | Err(error: string)

  /** The bytes e stand in s at position pos and end no later than end.  At only
      names Standing, so that a proof looks at single bytes where it asks for
      them. */
  ghost predicate At(s: string, pos: nat, end: nat, e: string)
    decreases |e|, 1
  {
    pos + |e| <= end <= |s| && Standing(s, pos, end, e)
  }

  ghost predicate Standing(s: string, pos: nat, end: nat, e: string)
    requires pos + |e| <= end <= |s|
    decreases |e|, 0
  {
    e == "" || (s[pos] == e[0] && At(s, pos + 1, end, e[1..]))
  }

  lemma {:induction false} AtSlice(s: string, pos: nat, end: nat, e: string)
    ensures At(s, pos, end, e) <==> pos + |e| <= end <= |s| && s[pos..pos + |e|] == e
    decreases |e|
  {
    if pos + |e| <= end <= |s| {
      assert At(s, pos, end, e) == Standing(s, pos, end, e);
    }
    if e != "" && pos + |e| <= end <= |s| {
      AtSlice(s, pos + 1, end, e[1..]);
      var w := s[pos..pos + |e|];
      assert w == [s[pos]] + s[pos + 1..pos + |e|] && e == [e[0]] + e[1..];
    }
  }

  lemma {:induction false} AtWhole(s: string)
    ensures At(s, 0, |s|, s)
  {
    AtSlice(s, 0, |s|, s);
    assert s[0..|s|] == s;
  }

  /** Consecutive pieces can be looked at one after the other. */
  lemma {:induction false} AtSplit(s: string, pos: nat, end: nat, a: string, b: string)
    requires At(s, pos, end, a + b)
    ensures At(s, pos, end, a) && At(s, pos + |a|, end, b)
    ensures pos + |a| + |b| <= end <= |s|
    decreases |a|
  {
    assert Standing(s, pos, end, a + b);
    if a == "" {
      assert a + b == b;
    } else {
      assert (a + b)[0] == a[0] && (a + b)[1..] == a[1..] + b;
      AtSplit(s, pos + 1, end, a[1..], b);
    }
    assert Standing(s, pos, end, a);
  }

  lemma {:induction false} AtChar(s: string, pos: nat, end: nat, e: string, k: nat)
    requires At(s, pos, end, e) && k < |e|
    ensures pos + k < end <= |s| && s[pos + k] == e[k]
    decreases |e|
  {
    assert Standing(s, pos, end, e);
    if k > 0 { AtChar(s, pos + 1, end, e[1..], k - 1); }
  }

  /** Three pieces before a rest. */
  lemma {:induction false} AtSplit3(s: string, pos: nat, end: nat, a: string, b: string, c: string, rest: string)
    requires At(s, pos, end, (a + (b + c)) + rest)
    ensures At(s, pos, end, a) && At(s, pos + |a|, end, b) && At(s, pos + |a| + |b|, end, c)
    ensures At(s, pos + |a| + |b| + |c|, end, rest)
  {
    AtSplit(s, pos, end, a + (b + c), rest);
    AtSplit(s, pos, end, a, b + c);
    AtSplit(s, pos + |a|, end, b, c);
  }

  /** The first element moves from one list to the end of the other. */
  lemma {:induction false} FirstMoved<T>(a: seq<T>, b: seq<T>)
    requires b != []
    ensures (a + [b[0]]) + b[1..] == a + b
  {
  }

  /** Lexicographic order on byte strings, as std::string compares them. */
  predicate Less(a: string, b: string)
  {
    if b == [] then false
    else if a == [] then true
    else a[0] < b[0] || (a[0] == b[0] && Less(a[1..], b[1..]))
  }

  lemma {:induction false} LessIrreflexive(a: string)
    ensures !Less(a, a)
  {
    if a != [] { LessIrreflexive(a[1..]); }
  }

  lemma {:induction false} LessTransitive(a: string, b: string, c: string)
    requires Less(a, b) && Less(b, c)
    ensures Less(a, c)
  {
    if a != [] && b[0] == a[0] && b[0] == c[0] {
      LessTransitive(a[1..], b[1..], c[1..]);
    }
  }

  lemma {:induction false} LessTotal(a: string, b: string)
    ensures Less(a, b) || a == b || Less(b, a)
  {
    if a != [] && b != [] && a[0] == b[0] {
      LessTotal(a[1..], b[1..]);
      assert a == [a[0]] + a[1..] && b == [b[0]] + b[1..];
    }
  }
}
