/** Eight-bit quantisation of token weights, over exact reals. */
module TokenWeight {

  const MAX_STORED: real := 8.0

  function Quantize(w: real): (q: nat)
    ensures q < 256
  {
    if w <= 0.0 then 0
    else if w >= MAX_STORED then 255
    else (w * (255.0 / MAX_STORED) + 0.5).Floor
  }

  function Dequantize(q: nat): real
  {
    q as real * (MAX_STORED / 255.0)
  }

  /** A stored weight is within half a step of the clamped original. */
  lemma {:induction false} QuantizationError(w: real)
    ensures var clamped := if w < 0.0 then 0.0 else if w > 8.0 then 8.0 else w;
      -4.0 / 255.0 <= Dequantize(Quantize(w)) - clamped <= 4.0 / 255.0
  {
    if 0.0 < w < MAX_STORED {
      var x := w * (255.0 / 8.0) + 0.5;
      var f := x.Floor as real;
      assert f <= x < f + 1.0;
      assert f * (8.0 / 255.0) <= w + 4.0 / 255.0;
    }
  }

  /** Every stored byte is the code of the weight it stands for. */
  lemma {:induction false} CodesAreFixed(q: nat)
    requires q < 256
    ensures Quantize(Dequantize(q)) == q
  {
    var w := Dequantize(q);
    if 0.0 < w < MAX_STORED {
      assert w * (255.0 / MAX_STORED) == q as real;
      assert (q as real + 0.5).Floor == q;
    }
  }

  /** A heavier token never gets a smaller code. */
  lemma {:induction false} Monotone(v: real, w: real)
    requires v <= w
    ensures Quantize(v) <= Quantize(w)
  {
    if 0.0 < v && w < MAX_STORED {
      var x, y := v * (255.0 / 8.0) + 0.5, w * (255.0 / 8.0) + 0.5;
      assert x <= y;
      assert x.Floor as real <= x && y < y.Floor as real + 1.0;
    }
  }
}
