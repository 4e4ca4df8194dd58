/** Integer division as the source performs it, and the facts about it used elsewhere. */
module Numbers {

  /** Division of signed integers truncating toward zero. */
  function TruncDiv(a: int, b: int): int
    requires b > 0
  {
    if a >= 0 then a / b else -((-a) / b)
  }

  /** types.CeilDiv. */
  function CeilDiv(a: int, b: int): int
    requires b > 0
  {
    TruncDiv(a + b - 1, b)
  }

  function Quotient(a: nat, b: nat): nat
    requires b > 0
  {
    a / b
  }

  function Max(a: int, b: int): int { if a >= b then a else b }

  function Min(a: int, b: int): int { if a <= b then a else b }

  /** a / b rounded up, for operands of any sign. */
  function Ceiling(a: int, b: int): (c: int)
    requires b > 0
    ensures a <= b * c < a + b
  {
    -((-a) / b)
  }

  lemma MulMonotone(n: int, a: int, b: int)
    requires n >= 0 && a <= b
    ensures n * a <= n * b
  {
  }

  lemma CeilingBound(n: int, a: int, b: int)
    requires b > 0 && b * n < a + b
    ensures n <= Ceiling(a, b)
  {
    var c := Ceiling(a, b);
    if n > c {
      MulMonotone(b, c + 1, n);
    }
  }

  lemma CeilingExact(w: int, b: int)
    requires b > 0
    ensures Ceiling(b * w, b) == w
  {
    var c := Ceiling(b * w, b);
    assert b * (w - 1) == b * w - b && b * (w + 1) == b * w + b;
    if c < w {
      MulMonotone(b, c, w - 1);
    } else if c > w {
      MulMonotone(b, w + 1, c);
    }
  }
}
