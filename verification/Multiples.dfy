/**
 * Products and whole multiples. Proofs keep `Times` closed, so that they stay linear; `/` floors, as Math.floor
 * of a quotient.
 */
module Multiples {
  function Times(q: int, w: int): int {
    q * w
  }

  lemma Grows(a: int, b: int, w: int)
    requires w >= 0 && a <= b
    ensures Times(a, w) <= Times(b, w)
  {
    var d := b - a;
    assert d * w >= 0;
    assert b * w == a * w + d * w;
  }

  lemma Next(a: int, w: int)
    ensures Times(a + 1, w) == Times(a, w) + w
  {
  }

  lemma Divides(x: int, w: int)
    requires w > 0
    ensures Times(x / w, w) <= x < Times(x / w, w) + w
  {
    assert x == w * (x / w) + x % w;
  }

  lemma Unique(x: int, q: int, w: int)
    requires w > 0 && Times(q, w) <= x < Times(q, w) + w
    ensures x / w == q
  {
    hide Times;
    var r := x / w;
    Divides(x, w);
    Next(q, w);
    Next(r, w);
    if r >= q + 1 {
      Grows(q + 1, r, w);
    }
    if q >= r + 1 {
      Grows(r + 1, q, w);
    }
  }

  lemma Assoc(q: int, k: int, w: int)
    ensures Times(q, w * k) == Times(q * k, w)
  {
  }
}
