/** Integer division facts, and the rounding that the driver and the client share. */
module Arithmetic {

  lemma FarMultiple(d: int, g: nat)
    ensures d >= 1 ==> d * g >= g
    ensures d <= -1 ==> d * g <= -(g as int)
  {
    if d >= 1 {
      assert (d - 1) * g >= 0;
    } else if d <= -1 {
      assert (-1 - d) * g >= 0;
    }
  }

  /** Quotient and remainder are unique. */
  lemma DivModUnique(x: int, q: int, r: int, g: nat)
    requires 0 <= r < g && x == q * g + r
    ensures x / g == q && x % g == r
  {
    var d := q - x / g;
    assert d * g == q * g - (x / g) * g == x % g - r;
    FarMultiple(d, g);
  }

  /** The length that is allocated and mapped for a requested size. */
  function RoundUp(size: nat, gran: nat): nat
    requires gran > 0
  {
    if size % gran != 0 then (size / gran + 1) * gran else size
  }

  /** The mapped length is the least multiple of the granularity that covers the size; so a free
      of `size` bytes names the mapped length exactly when the size is a multiple itself. */
  lemma RoundUpBounds(size: nat, gran: nat)
    requires gran > 0
    ensures size <= RoundUp(size, gran) < size + gran
    ensures RoundUp(size, gran) % gran == 0
    ensures RoundUp(size, gran) == size <==> size % gran == 0
  {
    var q, r := size / gran, size % gran;
    assert size == q * gran + r;
    assert (q + 1) * gran == q * gran + gran;
    if r != 0 {
      DivModUnique((q + 1) * gran, q + 1, 0, gran);
    }
  }

  lemma MultipleOfMultiple(x: nat, y: nat, d: nat)
    requires d > 0 && x % d == 0
    ensures (x * y) % d == 0
  {
    var q := x / d;
    assert x == q * d;
    assert x * y == (q * y) * d;
    DivModUnique(x * y, q * y, 0, d);
  }

  lemma SumOfMultiples(x: nat, y: nat, d: nat)
    requires d > 0 && x % d == 0 && y % d == 0
    ensures (x + y) % d == 0
  {
    var p, q := x / d, y / d;
    assert x == p * d && y == q * d;
    assert (p + q) * d == p * d + q * d;
    DivModUnique(x + y, p + q, 0, d);
  }
}
