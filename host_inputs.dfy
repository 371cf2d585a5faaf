/**
  Values the game takes from its host rather than computing itself: the
  results of the trigonometry on a heading angle, and the raw random numbers
  that the spawning code turns into rocks.
 */
module HostInputs {

  /** The sine and cosine of a heading, as the host's math library returns them. */
  datatype Heading = Heading(sin: real, cos: real) {
    /** Any pair the library can return lies on the unit circle. */
    predicate IsUnit() {
      sin * sin + cos * cos == 1.0
    }
  }

  /**
    The five uniform random numbers one spawned rock consumes, in the order the
    spawning loops draw them: x, y, x velocity, y velocity, radius. Each is what
    `random.random()` or `Math.random()` returns, a number in [0, 1).
   */
  datatype RockDraw = RockDraw(ux: real, uy: real, uvx: real, uvy: real, ur: real) {
    predicate IsUnit() {
      0.0 <= ux < 1.0 && 0.0 <= uy < 1.0 && 0.0 <= uvx < 1.0 && 0.0 <= uvy < 1.0 && 0.0 <= ur < 1.0
    }
  }

  predicate AllUnit(draws: seq<RockDraw>) {
    forall d <- draws :: d.IsUnit()
  }

  /**
    A draw u scales a span k into the span: u * k lies in [0, k] for u in
    [0, 1], and strictly below a positive k for u in [0, 1).
   */
  lemma ScaledDraw(k: real, u: real)
    ensures 0.0 <= k && 0.0 <= u <= 1.0 ==> 0.0 <= u * k <= k
    ensures 0.0 < k && 0.0 <= u < 1.0 ==> 0.0 <= u * k < k
  {
    if 0.0 <= k && 0.0 <= u <= 1.0 {
      assert k * (1.0 - u) >= 0.0;
      if u < 1.0 && 0.0 < k {
        assert k * (1.0 - u) > 0.0;
      }
    }
  }
}
