/** The little arithmetic on reals that several modules need. */
module Numbers {

  function Max(a: real, b: real): real { if a > b then a else b }

  function Min(a: real, b: real): real { if a < b then a else b }

  lemma Scale(k: real, x: real, y: real)
    requires k > 0.0
    ensures k * x == k * y <==> x == y
    ensures k * x < k * y <==> x < y
  {
    if x < y { assert k * (y - x) > 0.0; }
    if y < x { assert k * (x - y) > 0.0; }
  }
}
