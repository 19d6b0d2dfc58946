/** Restart delays (internal/supervisor/backoff.go), in nanoseconds over the
    reals: exponential, capped, then randomised. */
module Backoff {

  const Second: int := 1_000_000_000
  const MaxInt64: int := 0x7fff_ffff_ffff_ffff

  datatype Curve = Curve(initial: int, max: int)

  function Pow2(n: nat): (r: real)
    ensures r >= 1.0
  {
    if n == 0 then 1.0 else 2.0 * Pow2(n - 1)
  }

  function Attempt(attempt: int): nat
  {
    if attempt < 1 then 1 else attempt
  }

  function First(c: Curve): int
  {
    if c.initial <= 0 then Second else c.initial
  }

  /** The highest delay before jitter. */
  function Cap(c: Curve): real {
    var half := (MaxInt64 / 2) as real;
    if c.max > 0 && c.max as real < half then c.max as real else half
  }

  /** The delay before jitter. */
  function Scaled(c: Curve, attempt: int): real {
    var scaled := First(c) as real * Pow2(Attempt(attempt) - 1);
    var capped := if c.max as real > 0.0 && scaled > c.max as real then c.max as real else scaled;
    if capped > (MaxInt64 / 2) as real then (MaxInt64 / 2) as real else capped
  }

  /** `draw` is the uniform random number; without a generator there is none. */
  function Jittered(scaled: real, jitter: real, draw: real): real {
    if jitter > 0.0 then scaled * (1.0 + jitter * (2.0 * draw - 1.0)) else scaled
  }

  /** Truncated to whole nanoseconds. */
  function Delay(c: Curve, attempt: int, jitter: real, draw: real): int {
    var d := Jittered(Scaled(c, attempt), jitter, draw);
    if d < 0.0 then 0 else d.Floor
  }

  /** Each attempt doubles the wait of the one before, until the cap. */
  lemma DoublesUpToCap(c: Curve, attempt: int)
    requires attempt >= 1
    ensures Scaled(c, 1) == if First(c) as real > Cap(c) then Cap(c) else First(c) as real
    ensures Scaled(c, attempt + 1) == if 2.0 * Scaled(c, attempt) > Cap(c) then Cap(c) else 2.0 * Scaled(c, attempt)
  {
    hide Scaled, Cap, First;
    Capped(c, 1);
    Capped(c, attempt);
    Capped(c, attempt + 1);
    assert First(c) as real * Pow2(attempt) == 2.0 * (First(c) as real * Pow2(attempt - 1));
  }

  lemma Capped(c: Curve, attempt: int)
    requires attempt >= 1
    ensures var x := First(c) as real * Pow2(attempt - 1);
      0.0 < Cap(c) && Scaled(c, attempt) == if x > Cap(c) then Cap(c) else x
  {
    hide Pow2;
  }

  /** The wait never shrinks from one attempt to a later one. */
  lemma {:induction false} NeverShrinks(c: Curve, a: int, b: int)
    requires a <= b
    ensures 0.0 < Scaled(c, a) <= Scaled(c, b) <= Cap(c)
    decreases b - a
  {
    assert First(c) as real * Pow2(Attempt(a) - 1) >= First(c) as real;
    if a < b {
      NeverShrinks(c, a, b - 1);
      if b > 1 { DoublesUpToCap(c, b - 1); }
    }
  }

  /** With a jitter of at most the whole delay, the result is within the jitter
      of the curve, and a representable, nonnegative duration however many
      attempts there were. */
  lemma DelayIsInRange(c: Curve, attempt: int, jitter: real, draw: real)
    requires 0.0 <= jitter <= 1.0 && 0.0 <= draw < 1.0
    ensures 0 <= Delay(c, attempt, jitter, draw) <= MaxInt64
    ensures Scaled(c, attempt) * (1.0 - jitter) - 1.0 < Delay(c, attempt, jitter, draw) as real
         <= Scaled(c, attempt) * (1.0 + jitter)
  {
    hide Scaled, Jittered;
    NeverShrinks(c, attempt, attempt);
    JitterIsBounded(Scaled(c, attempt), jitter, draw);
  }

  lemma JitterIsBounded(s: real, jitter: real, draw: real)
    requires s >= 0.0 && 0.0 <= jitter <= 1.0 && 0.0 <= draw < 1.0
    ensures 0.0 <= s * (1.0 - jitter) <= Jittered(s, jitter, draw) <= s * (1.0 + jitter) <= 2.0 * s
  {
    InUnit(jitter, 2.0 * draw - 1.0);
    Between(s, jitter * (2.0 * draw - 1.0), jitter);
    Between(s, jitter, 1.0);
    Between(s, -jitter, 1.0);
  }

  lemma InUnit(j: real, u: real)
    requires 0.0 <= j && -1.0 <= u <= 1.0
    ensures -j <= j * u <= j
  {
    assert j * (1.0 - u) >= 0.0;
    assert j * (1.0 + u) >= 0.0;
  }

  lemma Between(s: real, f: real, j: real)
    requires s >= 0.0 && -j <= f <= j
    ensures s * (1.0 - j) <= s * (1.0 + f) <= s * (1.0 + j)
  {
    assert s * (f + j) >= 0.0 && s * (j - f) >= 0.0;
  }

  /** The first wait is the configured one, or a second if none is configured, and
      no wait is beyond the configured maximum or half the range of 64 bits. */
  lemma FirstWait(c: Curve, attempt: int)
    ensures c.initial > 0 && (c.max <= 0 || c.initial <= c.max) && c.initial <= 4611686018427387903 ==> Scaled(c, 1) == c.initial as real
    ensures c.initial <= 0 && (c.max <= 0 || 1000000000 <= c.max) ==> Scaled(c, 1) == 1000000000.0
    ensures c.max > 0 ==> Scaled(c, attempt) <= c.max as real
    ensures Scaled(c, attempt) <= 4611686018427387903.0
    ensures attempt < 1 ==> Scaled(c, attempt) == Scaled(c, 1)
  {
  }
}
