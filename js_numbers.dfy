/**
 * The JavaScript number semantics the scoring code relies on: truthiness of
 * nullable numbers, `Math.round`, `toFixed(2)` and `Array.prototype.slice`.
 * Numbers are mathematical reals; floating-point rounding is not modelled.
 */
module JsNumbers {
  import opened Wrappers

  /** Truthiness of a nullable number: null, undefined, NaN (all `None`) and 0 are falsy. */
  predicate Truthy(x: Option<real>) {
    x.Some? && x.value != 0.0
  }

  predicate TruthyInt(x: Option<int>) {
    x.Some? && x.value != 0
  }

  /** A non-empty string is truthy. */
  predicate TruthyString(x: Option<string>) {
    x.Some? && x.value != ""
  }

  /** `x || null` */
  function OrNull(x: Option<real>): Option<real> {
    if Truthy(x) then x else None
  }

  /** `x || d` */
  function OrReal(x: Option<real>, d: real): real {
    if Truthy(x) then x.value else d
  }

  /** `x || d` on integers */
  function OrInt(x: Option<int>, d: int): int {
    if TruthyInt(x) then x.value else d
  }

  function Min(a: int, b: int): int { if a <= b then a else b }

  function Max(a: int, b: int): int { if a <= b then b else a }

  /** `Math.round(x)`: the integer nearest to x, a half rounded towards +infinity. */
  function MathRound(x: real): (n: int)
    ensures n as real - 0.5 <= x < n as real + 0.5
  {
    (x + 0.5).Floor
  }

  /** The contract of MathRound pins its result down: no other integer is that close. */
  lemma MathRoundUnique(x: real, m: int)
    requires m as real - 0.5 <= x < m as real + 0.5
    ensures MathRound(x) == m
  {
  }

  lemma MathRoundMonotone(x: real, y: real)
    requires x <= y
    ensures MathRound(x) <= MathRound(y)
  {
  }

  /** A real with at most two decimals. */
  predicate IsCents(r: real) {
    (r * 100.0).Floor as real == r * 100.0
  }

  /** `Math.round(x * 100) / 100`: x rounded to two decimals, a half cent rounded up. */
  function Round2(x: real): (r: real)
    ensures IsCents(r)
    ensures r - 0.005 <= x < r + 0.005
  {
    var n := MathRound(x * 100.0);
    assert (n as real / 100.0) * 100.0 == n as real;
    n as real / 100.0
  }

  lemma Round2Monotone(x: real, y: real)
    requires x <= y
    ensures Round2(x) <= Round2(y)
  {
    MathRoundMonotone(x * 100.0, y * 100.0);
  }

  /**
   * `Number(x.toFixed(2))`: the magnitude is rounded to two decimals with a
   * half cent rounded away from zero, so a negative tie rounds differently
   * from Math.round.
   */
  function ToFixed2(x: real): (r: real)
    ensures IsCents(r)
    ensures r - 0.005 <= x <= r + 0.005
    ensures x >= 0.0 ==> r == Round2(x)
  {
    if x < 0.0 then
      var m := Round2(-x);
      CentsNegate(m);
      -m
    else Round2(x)
  }

  lemma CentsNegate(m: real)
    requires IsCents(m)
    ensures IsCents(-m)
  {
    var n := (m * 100.0).Floor;
    assert (-m) * 100.0 == (-n) as real;
  }

  /** `s.slice(0, end)`: a negative end counts back from the end of s. */
  function SliceTo<T>(s: seq<T>, end: int): (r: seq<T>)
    ensures r <= s
    ensures |r| == if end >= 0 then Min(end, |s|) else Max(|s| + end, 0)
  {
    if end >= 0 then s[..Min(end, |s|)] else s[..Max(|s| + end, 0)]
  }
}
