/** Facts about quotients that hold for every divisor. */
module Arithmetic {

  lemma AtLeast(k: int, d: int)
    requires k >= 1 && d > 0
    ensures k * d >= d
  {
  }

  lemma QuotientUnique(d: int, q: int, r: int, q': int, r': int)
    requires d > 0 && q * d + r == q' * d + r' && 0 <= r < d && 0 <= r' < d
    ensures q == q' && r == r'
  {
    assert (q' - q) * d == r - r';
    if q' > q {
      AtLeast(q' - q, d);
    } else if q' < q {
      assert (q - q') * d == r' - r;
      AtLeast(q - q', d);
    }
  }

  lemma Quotient(x: int, d: int, q: int, r: int)
    requires d > 0 && x == q * d + r && 0 <= r < d
    ensures x / d == q && x % d == r
  {
    assert x == x / d * d + x % d;
    QuotientUnique(d, q, r, x / d, x % d);
  }

  /** A quotient splits into the next one and a 9-bit field. */
  lemma DivTwice(x: nat, d: nat)
    requires d > 0
    ensures x / d == x / (d * 512) * 512 + x / d % 512
  {
    var q, r := x / d, x % d;
    assert x == (q / 512 * 512 + q % 512) * d + r;
    assert x == q / 512 * (d * 512) + (q % 512 * d + r);
    FieldBound(q % 512, d, r);
    Quotient(x, d * 512, q / 512, q % 512 * d + r);
  }

  lemma FieldBound(i: int, d: int, r: int)
    requires 0 <= i < 512 && d > 0 && 0 <= r < d
    ensures 0 <= i * d + r < d * 512
  {
    assert i * d <= 511 * d;
  }

  /** A 9-bit field is not affected by dropping bits above it. */
  lemma FieldBelow(p: nat, d: nat, k: nat)
    requires d > 0 && k > 0
    ensures p / d % 512 == p % (d * 512 * k) / d % 512
  {
    var big := d * 512 * k;
    var h, v := p / big, p % big;
    calc {
      p;
      h * big + v;
      h * (d * 512 * k) + v / d * d + v % d;
      (h * 512 * k + v / d) * d + v % d;
    }
    Quotient(p, d, h * 512 * k + v / d, v % d);
    var w := v / d;
    Quotient(h * 512 * k + w, 512, h * k + w / 512, w % 512);
  }
}
