/**
  Shared vocabulary of the model: an optional value (a JavaScript `NaN`, a
  `null` or a missing entry is `None`) and the JavaScript rounding function
  `Math.round` over exact reals.
 */
module Common {

  datatype Option<+T> = None | Some(value: T)

  /** `Math.round(x)`: the nearest integer, halves rounded up. */
  function Round(x: real): (r: int)
    ensures r as real <= x + 0.5 < r as real + 1.0
  {
    (x + 0.5).Floor
  }

  /** Rounding never reverses the order of its arguments. */
  lemma RoundMonotone(x: real, y: real)
    requires x <= y
    ensures Round(x) <= Round(y)
  {
    assert Round(x) as real < Round(y) as real + 1.0;
  }

  /** Multiplying by a positive number keeps a strict order, both ways. */
  lemma ScaleLess(a: real, b: real, c: real)
    requires c > 0.0
    ensures a < b <==> a * c < b * c
  {
    if a < b {
      assert (b - a) * c > 0.0;
    } else {
      assert (a - b) * c >= 0.0;
    }
  }
}
