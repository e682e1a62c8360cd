/** Positions in a row-major grid, and the division that finds them again. */
module Grids {

  lemma ProductIsNatural(a: int, b: int)
    requires a >= 0 && b >= 0
    ensures a * b >= 0
  {
  }

  /** The next multiple is a whole step further. */
  lemma StepsGrow(a: nat, b: nat, pitch: int)
    requires a < b && pitch >= 0
    ensures a * pitch + pitch <= b * pitch
  {
    var d := b - a - 1;
    ProductIsNatural(d, pitch);
    assert d * pitch == b * pitch - a * pitch - pitch;
  }

  lemma CellInside(x: nat, y: nat, w: nat, h: nat)
    requires x < w && y < h
    ensures y * w + x < h * w
  {
    assert (y + 1) * w <= h * w;
  }

  lemma Division(k: int, w: int, q: int, r: int)
    requires k == q * w + r && 0 <= r < w
    ensures k / w == q && k % w == r
  {
    var d := k / w - q;
    assert d * w == r - k % w;
    assert d >= 1 ==> d * w >= w;
    assert d <= -1 ==> d * w <= -w;
  }

  lemma Quotient(k: int, w: int, q: int)
    requires w > 0
    ensures k / w <= q <==> k < q * w + w
    ensures k / w >= q <==> k >= q * w
  {
    var d := k / w - q;
    assert k == k / w * w + k % w;
    assert d * w == k / w * w - q * w;
    assert d >= 1 ==> d * w >= w;
    assert d <= 0 ==> d * w <= 0;
    assert d >= 0 ==> d * w >= 0;
    assert d <= -1 ==> d * w <= -w;
  }

  /** A position in the pixel vector is one cell, and the other way round. */
  lemma Cell(x: nat, y: nat, w: nat)
    requires x < w
    ensures (y * w + x) / w == y && (y * w + x) % w == x
  {
    Division(y * w + x, w, y, x);
  }

  lemma SidesArePositive(w: nat, h: nat)
    requires 0 < h * w
    ensures w > 0 && h > 0
  {
  }

  lemma CellOf(k: nat, w: nat, h: nat)
    requires k < h * w
    ensures w > 0 && 0 <= k / w < h && 0 <= k % w < w && k == k / w * w + k % w
  {
    SidesArePositive(w, h);
    Quotient(k, w, h - 1);
    assert (h - 1) * w + w == h * w;
  }
}
