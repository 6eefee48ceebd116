/** Types shared by every module of the model. */
module Common {
  datatype Option<+T> = None | Some(value: T)

  /** A byte of a file, a string or a buffer. */
  type Byte = x: int | 0 <= x < 256
  type Bytes = seq<Byte>

  /** Quotient and remainder are determined by x == q * m + r. */
  lemma {:induction false} DivMod(x: int, m: int, q: int, r: int)
    requires 0 <= r < m && x == q * m + r
    ensures x / m == q && x % m == r
  {
    var d := x / m - q;
    assert m * d == r - x % m;
    assert d >= 1 ==> m * d >= m;
    assert d <= -1 ==> m * d <= -m;
  }
}
