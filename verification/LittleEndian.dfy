/** Fixed-width little-endian words, as the segment files and the translog
    frame them.  A float is the 32-bit pattern that memcpy moves. */
module LittleEndian {
  import opened Base

  /** The low n bytes of v, least significant first. */
  function Word(v: nat, n: nat): (w: string)
    ensures |w| == n
  {
    if n == 0 then [] else [(v % 256) as char] + Word(v / 256, n - 1)
  }

  /** The number that n bytes at pos stand for. */
  function Value(s: string, pos: nat, n: nat): nat
    requires pos + n <= |s|
    decreases n
  {
    if n == 0 then 0 else s[pos] as int + 256 * Value(s, pos + 1, n - 1)
  }

  /** Byte k of a word is the digit of weight 256^k. */
  lemma {:induction false} ByteAt(v: nat, n: nat, k: nat)
    requires k < n
    ensures Capacity(k) > 0 && Word(v, n)[k] as int == v / Capacity(k) % 256
  {
    if k > 0 {
      ByteAt(v / 256, n - 1, k - 1);
      DividedTwice(v, 256, Capacity(k - 1));
    }
  }

  lemma {:induction false} DividedTwice(v: nat, a: nat, b: nat)
    requires a > 0 && b > 0
    ensures a * b > 0 && v / a / b == v / (a * b)
  {
    var q, r := v / a, v % a;
    var p, s := q / b, q % b;
    assert a * s <= a * (b - 1) by { Scaled(a, s, b - 1); }
    Regrouped(a, b, p, s);
    Below(v, a * b, p, a * s + r);
  }

  lemma {:induction false} Scaled(a: nat, x: nat, y: nat)
    requires x <= y
    ensures a * x <= a * y
  {
  }

  lemma {:induction false} Regrouped(a: nat, b: nat, p: nat, s: nat)
    ensures a * (b * p + s) == (a * b) * p + a * s && a * (b - 1) == a * b - a
  {
  }

  lemma {:induction false} Below(v: nat, c: nat, p: nat, rest: nat)
    requires v == c * p + rest && rest < c
    ensures v / c == p
  {
    if v / c < p { Scaled(c, v / c + 1, p); }
    if v / c > p { Scaled(c, p + 1, v / c); }
  }

  /** AppendU16LE, AppendU32LE and AppendU64LE for n = 2, 4 and 8. */
  method Append(value: nat, n: nat, out: string) returns (r: string)
    ensures r == out + Word(value, n)
  {
    var v := value;
    r := out;
    for i := 0 to n
      invariant r + Word(v, n - i) == out + Word(value, n)
    {
      assert r + Word(v, n - i) == (r + [(v % 256) as char]) + Word(v / 256, n - i - 1);
      r := r + [(v % 256) as char];
      v := v / 256;
    }
    assert r + Word(v, 0) == r;
  }

  /** ReadU32LE and ReadU64LE: None when the bytes run out. */
  method Read(s: string, start: nat, end: nat, n: nat) returns (value: Option<nat>, pos: nat)
    requires start <= end <= |s|
    ensures end - start < n ==> value == None && pos == start
    ensures end - start >= n ==> value == Some(Value(s, start, n)) && pos == start + n
  {
    if end - start < n { return None, start; }
    var v: nat, scale: nat := 0, 1;
    for i := 0 to n
      invariant Value(s, start, n) == v + scale * Value(s, start + i, n - i)
    {
      assert scale * Value(s, start + i, n - i)
          == scale * (s[start + i] as int) + (scale * 256) * Value(s, start + i + 1, n - i - 1);
      v := v + scale * (s[start + i] as int);
      scale := scale * 256;
    }
    return Some(v), start + n;
  }

  /** 256 to the n: how many values fit in n bytes. */
  function Capacity(n: nat): nat
  {
    if n == 0 then 1 else 256 * Capacity(n - 1)
  }

  /** Reading a word back gives the value it was made from, if it fits. */
  lemma {:induction false} ValueOfWord(v: nat, n: nat, s: string, pos: nat, end: nat)
    requires At(s, pos, end, Word(v, n)) && v < Capacity(n)
    ensures Value(s, pos, n) == v
  {
    if n > 0 {
      var e := Word(v, n);
      AtSplit(s, pos, end, [(v % 256) as char], Word(v / 256, n - 1));
      ValueOfWord(v / 256, n - 1, s, pos + 1, end);
    }
  }

  lemma {:induction false} Capacities()
    ensures Capacity(2) == U16 && Capacity(4) == U32 && Capacity(8) == U64
  {
    assert Capacity(3) == 256 * Capacity(2);
    assert Capacity(5) == 256 * Capacity(4);
    assert Capacity(6) == 256 * Capacity(5);
    assert Capacity(7) == 256 * Capacity(6);
  }
}
