/** Variable-length unsigned integers: groups of seven bits, least significant
    first, with the high bit set on every byte but the last. */
module VarByte {
  import opened Base
  import LittleEndian

  /** The bytes that both encoders append. */
  function Encoding(v: nat): (e: string)
    ensures |e| >= 1
  {
    if v < 128 then [v as char]
    else
      [(128 + v % 128) as char] + Encoding(v / 128)
  }

  /** 128 to the n. */
  function Weight(n: nat): (w: nat)
    ensures w > 0
  {
    if n == 0 then 1 else 128 * Weight(n - 1)
  }

  /** Byte k carries the digit of weight 128^k, with the high bit set unless it
      is the last byte; the digits that are left out are 0, and the last digit
      of a longer encoding is not. */
  lemma {:induction false} GroupAt(v: nat, k: nat)
    ensures k < |Encoding(v)| ==>
      Encoding(v)[k] as int == v / Weight(k) % 128 + if k == |Encoding(v)| - 1 then 0 else 128
    ensures k < |Encoding(v)| <==> k == 0 || v / Weight(k) > 0
  {
    if k > 0 {
      LittleEndian.DividedTwice(v, 128, Weight(k - 1));
      if v >= 128 {
        GroupAt(v / 128, k - 1);
      } else {
        LittleEndian.DividedTwice(v, 128, Weight(k - 1));
        assert v / 128 == 0;
      }
    }
  }

  /** EncodeVarUint32 and EncodeVarUint64: the loop is the same, only the width
      of the argument differs. */
  method Encode(value: nat, out: string) returns (r: string)
    ensures r == out + Encoding(value)
  {
    var v := value;
    r := out;
    while v >= 0x80
      invariant r + Encoding(v) == out + Encoding(value)
    {
      assert r + Encoding(v) == (r + [(0x80 + v % 0x80) as char]) + Encoding(v / 0x80);
      r := r + [(0x80 + v % 0x80) as char];
      v := v / 0x80;
    }
    r := r + [v as char];
  }

  /** VarUint32Length. */
  method Length(value: nat) returns (n: nat)
    ensures n == |Encoding(value)|
  {
    var v := value;
    n := 1;
    while v >= 0x80
      invariant n >= 1 && n - 1 + |Encoding(v)| == |Encoding(value)|
    {
      v := v / 0x80;
      n := n + 1;
    }
  }

  /** The two decoders differ in the width of the word they fill. */
  datatype Width = W32 | W64

  function Bits(w: Width): nat { if w.W32? then 32 else 64 }

  /** Values of the width. */
  predicate Fits(v: nat, w: Width) { v < if w.W32? then U32 else U64 }

  function Truncate(v: nat, w: Width): (t: nat)
    ensures Fits(t, w) && (Fits(v, w) ==> t == v)
  {
    if w.W32? then Mod32(v) else Mod64(v)
  }

  /** What a decoder leaves behind: the value, or None for a corrupt input, and
      the cursor. */
  datatype Decoded = Decoded(value: Option<nat>, pos: nat)

  /** The groups from pos on, put together.  `room` is the number of bits left
      in the word; a group that starts beyond it is an overflow. */
  function Groups(s: string, pos: nat, end: nat, room: int): (d: Decoded)
    requires pos <= end <= |s|
    ensures pos <= d.pos <= end && (d.value.Some? ==> pos < d.pos)
    decreases end - pos
  {
    if pos == end then Decoded(None, pos)
    else if room <= 0 then Decoded(None, pos + 1)
    else
      var byte := s[pos] as int;
      if byte < 128 then Decoded(Some(byte), pos + 1)
      else
        var rest := Groups(s, pos + 1, end, room - 7);
        match rest.value
        case None => rest
        case Some(v) => Decoded(Some(byte % 128 + 128 * v), rest.pos)
  }

  /** What a decoder returns: bits that leave the word are dropped. */
  function DecodeSpec(s: string, pos: nat, end: nat, width: Width): (d: Decoded)
    requires pos <= end <= |s|
    ensures pos <= d.pos <= end && (d.value.Some? ==> pos < d.pos)
    ensures d.value.Some? ==> Fits(d.value.value, width)
  {
    var d := Groups(s, pos, end, Bits(width));
    match d.value
    case None => d
    case Some(v) => Decoded(Some(Truncate(v, width)), d.pos)
  }

  /** The loop has collected `result` and still has to add `scale` times what
      the remaining groups stand for. */
  ghost predicate Pending(rest: Decoded, result: nat, scale: nat, width: Width, whole: Decoded)
  {
    && rest.pos == whole.pos && rest.value.Some? == whole.value.Some?
    && (rest.value.Some? ==> Truncate(result + rest.value.value * scale, width) == whole.value.value)
  }

  lemma {:induction false} CarryGroup(result: nat, scale: nat, group: nat, v: nat, width: Width)
    ensures Truncate(Truncate(result + group * scale, width) + v * (scale * 128), width)
         == Truncate(result + (group + 128 * v) * scale, width)
  {
    var b: nat := v * (scale * 128);
    assert (group + 128 * v) * scale == group * scale + b;
    Mod32Twice(result + group * scale, b);
    Mod64Twice(result + group * scale, b);
  }

  /** Taking one group off the input keeps the account right. */
  lemma {:induction false} TakeGroup(s: string, pos: nat, end: nat, room: int, result: nat, scale: nat, width: Width, whole: Decoded)
    requires pos < end <= |s| && room > 0 && s[pos] as int >= 0x80
    requires Pending(Groups(s, pos, end, room), result, scale, width, whole)
    ensures Pending(Groups(s, pos + 1, end, room - 7),
                    Truncate(result + s[pos] as int % 0x80 * scale, width), scale * 128, width, whole)
  {
    var rest := Groups(s, pos + 1, end, room - 7);
    if rest.value.Some? {
      CarryGroup(result, scale, s[pos] as int % 0x80, rest.value.value, width);
    }
  }

  /** DecodeVarUint32 and DecodeVarUint64.  Setting the shifted bits with `|=`
      is an addition here, because result has no bit at or above shift. */
  method Decode(s: string, start: nat, end: nat, width: Width) returns (value: Option<nat>, pos: nat)
    requires start <= end <= |s|
    ensures Decoded(value, pos) == DecodeSpec(s, start, end, width)
  {
    var result: nat, shift: nat, scale: nat := 0, 0, 1;
    pos := start;
    ghost var whole := DecodeSpec(s, start, end, width);
    while pos < end
      invariant start <= pos <= end
      invariant Pending(Groups(s, pos, end, Bits(width) - shift), result, scale, width, whole)
    {
      var byte := s[pos] as int;
      pos := pos + 1;
      if shift >= Bits(width) { return None, pos; }
      if byte >= 0x80 { TakeGroup(s, pos - 1, end, Bits(width) - shift, result, scale, width, whole); }
      result := Truncate(result + byte % 0x80 * scale, width);
      if byte < 0x80 { return Some(result), pos; }
      shift := shift + 7;
      scale := scale * 128;
    }
    return None, pos;
  }

  // ----- what the encoding promises -----

  /** An encoding that fits the word is put together again, whatever follows. */
  lemma {:induction false} GroupsOfEncoding(v: nat, s: string, pos: nat, end: nat, room: int)
    requires At(s, pos, end, Encoding(v)) && 7 * (|Encoding(v)| - 1) < room
    ensures Groups(s, pos, end, room) == Decoded(Some(v), pos + |Encoding(v)|)
    decreases v
  {
    if v >= 128 {
      AtSplit(s, pos, end, [(128 + v % 128) as char], Encoding(v / 128));
      GroupsOfEncoding(v / 128, s, pos + 1, end, room - 7);
    }
  }

  /** 128 to the n: seven bits per byte. */
  function Capacity(n: nat): nat
  {
    if n == 0 then 1 else 128 * Capacity(n - 1)
  }

  lemma {:induction false} LengthBound(v: nat, n: nat)
    requires n >= 1 && v < Capacity(n)
    ensures |Encoding(v)| <= n
  {
    if v >= 128 {
      LengthBound(v / 128, n - 1);
    }
  }

  /** At most five bytes for 32 bits and ten for 64 bits. */
  lemma {:induction false} LengthLimits(v: nat)
    ensures v < U32 ==> |Encoding(v)| <= 5
    ensures v < U64 ==> |Encoding(v)| <= 10
  {
    assert Capacity(5) == 128 * 128 * 128 * 128 * 128;
    assert Capacity(7) == 128 * 128 * Capacity(5);
    assert Capacity(9) == 128 * 128 * Capacity(7);
    if v < U32 { LengthBound(v, 5); }
    if v < U64 { LengthBound(v, 10); }
  }

  /** A decoder reads back an encoded value of its width and stops exactly at
      the boundary, whatever follows. */
  lemma {:induction false} RoundTrip(v: nat, s: string, pos: nat, end: nat, width: Width)
    requires Fits(v, width)
    requires At(s, pos, end, Encoding(v))
    ensures DecodeSpec(s, pos, end, width) == Decoded(Some(v), pos + |Encoding(v)|)
  {
    LengthLimits(v);
    GroupsOfEncoding(v, s, pos, end, Bits(width));
  }

  /** The high bit marks every byte but the last. */
  lemma {:induction false} ContinuationBits(v: nat, i: nat)
    requires i < |Encoding(v)|
    ensures Encoding(v)[i] as int < 256
    ensures Encoding(v)[i] as int < 128 <==> i == |Encoding(v)| - 1
  {
    if v >= 128 && i > 0 {
      ContinuationBits(v / 128, i - 1);
    }
  }

  /** No proper prefix of an encoding decodes. */
  lemma {:induction false} UnfinishedFails(s: string, pos: nat, end: nat, room: int)
    requires pos <= end <= |s|
    requires forall i :: pos <= i < end ==> s[i] as int >= 128
    ensures Groups(s, pos, end, room).value == None
    decreases end - pos
  {
    if pos < end && room > 0 {
      UnfinishedFails(s, pos + 1, end, room - 7);
    }
  }

  lemma {:induction false} ProperPrefixFails(v: nat, k: nat, width: Width)
    requires k < |Encoding(v)|
    ensures DecodeSpec(Encoding(v)[..k], 0, k, width).value == None
  {
    forall i | 0 <= i < k ensures Encoding(v)[i] as int >= 128 { ContinuationBits(v, i); }
    UnfinishedFails(Encoding(v)[..k], 0, k, Bits(width));
  }

  /** Different values have encodings neither of which starts the other, so a
      stream of encodings can be cut in only one way. */
  lemma {:induction false} PrefixFree(v: nat, w: nat)
    requires Encoding(v) <= Encoding(w)
    ensures v == w
  {
    var e, f := Encoding(v), Encoding(w);
    assert e[0] == f[0];
    if v >= 128 {
      assert e[1..] == Encoding(v / 128) && f[1..] == Encoding(w / 128);
      assert e[1..] <= f[1..];
      PrefixFree(v / 128, w / 128);
    }
  }
}
