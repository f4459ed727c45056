/**
 * Drawing the operands of a practice question (src/App.tsx:72-73, 79-80).
 * `Math.random()` is not modelled as an entropy source: each draw is given
 * the value r it would have returned, 0 <= r < 1.
 */
module Question {

  /** True of the values `Math.random()` can return. */
  predicate IsRandom(r: real) {
    0.0 <= r < 1.0
  }

  /**
   * `2 + Math.floor(r * 8)`: the multiplicand, one of the eight tables 2..9.
   * The result is a exactly when r lies in [(a-2)/8, (a-1)/8): the eight
   * outcomes split [0,1) into intervals of equal length, so a uniform r
   * gives a uniform multiplicand.
   */
  function DrawA(r: real): (a: int)
    requires IsRandom(r)
    ensures 2 <= a <= 9
    ensures (a - 2) as real / 8.0 <= r < (a - 1) as real / 8.0
  {
    2 + (r * 8.0).Floor
  }

  /**
   * `1 + Math.floor(r * 10)`: the multiplier, one of the ten factors 1..10,
   * b exactly when r lies in [(b-1)/10, b/10).
   */
  function DrawB(r: real): (b: int)
    requires IsRandom(r)
    ensures 1 <= b <= 10
    ensures (b - 1) as real / 10.0 <= r < b as real / 10.0
  {
    1 + (r * 10.0).Floor
  }

  /** Every table 2..9 can be drawn. */
  lemma DrawAOnto(a: int)
    requires 2 <= a <= 9
    ensures exists r :: IsRandom(r) && DrawA(r) == a
  {
    var r := (a - 2) as real / 8.0;
    assert IsRandom(r) && DrawA(r) == a;
  }

  /** Every factor 1..10 can be drawn. */
  lemma DrawBOnto(b: int)
    requires 1 <= b <= 10
    ensures exists r :: IsRandom(r) && DrawB(r) == b
  {
    var r := (b - 1) as real / 10.0;
    assert IsRandom(r) && DrawB(r) == b;
  }
}
