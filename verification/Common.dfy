/** Datatypes shared by every component of the model. */
module Common {
  datatype Option<+T> = None | Some(value: T)

  /** The source's `Result`; error texts are not modelled. */
  datatype Result<+T> = Ok(value: T) | Err

  type byte = x: int | 0 <= x < 256

  function Pow2(n: nat): (r: nat)
    ensures r > 0
  {
    if n == 0 then 1 else 2 * Pow2(n - 1)
  }

  lemma {:induction false} AtLeast(k: int, d: int)
    requires k >= 1 && d > 0
    ensures k * d >= d
  {
    assert (k - 1) * d >= 0;
  }

  lemma {:induction false} Quotient(q: int, d: int, r: int)
    requires 0 <= r < d
    ensures (q * d + r) / d == q
  {
    var x := q * d + r;
    var k := x / d - q;
    assert k * d == r - x % d by {
      assert x == x / d * d + x % d;
    }
    if k >= 1 {
      AtLeast(k, d);
    } else if k <= -1 {
      AtLeast(-k, d);
    }
  }
}
