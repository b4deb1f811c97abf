/**
 * The progress bar component: it clamps the percentage it is given into
 * [0, 100], fills the track to that width and, when a label is given,
 * prints the clamped value rounded to a whole percent.
 */
module ProgressBar {
  import opened Wrappers

  /** `Math.min(Math.max(progress, 0), 100)`. */
  function Clamp(progress: real): (r: real)
    ensures 0.0 <= r <= 100.0
    ensures 0.0 <= progress <= 100.0 ==> r == progress
    ensures progress < 0.0 ==> r == 0.0
    ensures progress > 100.0 ==> r == 100.0
  {
    var atLeastZero := if progress > 0.0 then progress else 0.0;
    if atLeastZero < 100.0 then atLeastZero else 100.0
  }

  /** `Math.round`: the nearest integer, halves rounded upward. */
  function Round(x: real): (n: int)
    ensures n as real - 0.5 <= x < n as real + 0.5
  {
    (x + 0.5).Floor
  }

  /** What the component draws: the fill width (a percentage) and, when labelled, the label and the rounded value. */
  datatype Bar = Bar(fillWidth: real, caption: Option<(string, int)>)

  /** The rendered bar; `label && ...` hides the label row for a missing or empty label. */
  function Render(progress: real, labelText: Option<string>): (b: Bar)
    ensures b.fillWidth == Clamp(progress)
    ensures b.caption.Some? <==> labelText.Some? && labelText.value != ""
    ensures b.caption.Some? ==> b.caption.value.0 == labelText.value && 0 <= b.caption.value.1 <= 100
    ensures b.caption.Some? ==> b.caption.value.1 == Round(b.fillWidth)
  {
    var width := Clamp(progress);
    Bar(width, if labelText.Some? && labelText.value != "" then Some((labelText.value, Round(width))) else None)
  }

  /** Clamping a clamped value changes nothing. */
  lemma ClampIdempotent(progress: real)
    ensures Clamp(Clamp(progress)) == Clamp(progress)
  {
  }

  /** Clamping is monotone: a larger input never gives a smaller bar. */
  lemma ClampMonotone(p: real, q: real)
    requires p <= q
    ensures Clamp(p) <= Clamp(q)
  {
  }

  /**
   * For any label that shows, the printed value is the clamped progress,
   * rounded: the rounded input inside [0, 100], 0 at or below 0 and 100 at
   * or above 100.
   */
  lemma LabelOfPercentage(progress: real, caption: string)
    requires caption != ""
    ensures Render(progress, Some(caption)).caption == Some((caption, Round(Clamp(progress))))
    ensures 0.0 <= progress <= 100.0 ==> Render(progress, Some(caption)).caption.value.1 == Round(progress)
    ensures progress <= 0.0 ==> Render(progress, Some(caption)).caption.value.1 == 0
    ensures progress >= 100.0 ==> Render(progress, Some(caption)).caption.value.1 == 100
  {
  }
}
