/**
 * `formatConfidence` (frontend/src/App.jsx:44-48): clamp a confidence to [0, 1] and show it
 * as a percentage with two decimals. The displayed number is kept as an integer count of
 * hundredths of a percent (basis points of the unit interval), so 82.35% is 8235.
 */
module ConfidenceFormat {
  import opened Wrappers

  /** What the formatter shows: the placeholder dash, or a percentage in hundredths. */
  datatype Display = Dash | Percent(hundredths: int)

  /** `Math.min(Math.max(c, 0), 1)`. */
  function Clamp(c: real): (r: real)
    ensures 0.0 <= r <= 1.0
    ensures 0.0 <= c <= 1.0 ==> r == c
    ensures c >= 1.0 ==> r == 1.0
    ensures c <= 0.0 ==> r == 0.0
  {
    var lower := if c > 0.0 then c else 0.0;
    if lower < 1.0 then lower else 1.0
  }

  /** `Math.round`: the nearest integer, halves rounded up (floor of x + 1/2). */
  function RoundHalfUp(x: real): (n: int)
    ensures n as real - 0.5 <= x < n as real + 0.5
  {
    (x + 0.5).Floor
  }

  /** Any integer within the same half-open window is the same integer: the rounding is unique. */
  lemma RoundingIsUnique(x: real, n: int)
    requires n as real - 0.5 <= x < n as real + 0.5
    ensures RoundHalfUp(x) == n
  {
  }

  /** `formatConfidence(confidence)`, with `null` (or `undefined`) as `None`. */
  function FormatConfidence(confidence: Option<real>): (d: Display)
    ensures confidence.None? <==> d == Dash
    ensures d.Percent? ==> 0 <= d.hundredths <= 10000
  {
    match confidence
    case None => Dash
    case Some(c) =>
      var bp := RoundHalfUp(Clamp(c) * 10000.0);
      assert 0.0 <= Clamp(c) * 10000.0 <= 10000.0;
      Percent(bp)
  }

  /** A present confidence shows the percentage nearest to its clamped value. */
  lemma FormatIsNearest(c: real)
    ensures FormatConfidence(Some(c)).Percent?
    ensures var h := FormatConfidence(Some(c)).hundredths;
      h as real - 0.5 <= Clamp(c) * 10000.0 < h as real + 0.5
  {
  }

  /** Saturation: every input at or above 1 shows 100%, every input at or below 0 shows 0%. */
  lemma FormatSaturates(c: real)
    ensures c >= 1.0 ==> FormatConfidence(Some(c)) == Percent(10000)
    ensures c <= 0.0 ==> FormatConfidence(Some(c)) == Percent(0)
  {
    if c >= 1.0 {
      RoundingIsUnique(Clamp(c) * 10000.0, 10000);
    } else if c <= 0.0 {
      RoundingIsUnique(Clamp(c) * 10000.0, 0);
    }
  }

  /** A higher confidence never shows a lower percentage. */
  lemma FormatMonotone(a: real, b: real)
    requires a <= b
    ensures FormatConfidence(Some(a)).hundredths <= FormatConfidence(Some(b)).hundredths
  {
    assert Clamp(a) * 10000.0 <= Clamp(b) * 10000.0;
  }

  /** Worked values: 0.8234567 shows 82.35%, 0.87 shows 87%, 1.2 shows 100%, null shows a dash. */
  lemma FormatExamples()
    ensures FormatConfidence(Some(0.8234567)) == Percent(8235)
    ensures FormatConfidence(Some(0.87)) == Percent(8700)
    ensures FormatConfidence(Some(1.2)) == Percent(10000)
    ensures FormatConfidence(None) == Dash
  {
    RoundingIsUnique(Clamp(0.8234567) * 10000.0, 8235);
    RoundingIsUnique(Clamp(0.87) * 10000.0, 8700);
    FormatSaturates(1.2);
  }
}
