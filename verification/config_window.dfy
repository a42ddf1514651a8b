/** The threshold field of the settings window (Windows/ConfigWindow.cs, `Draw`): an edited
    value is clamped to [1, 100], stored, and the configuration saved. */
module ConfigWindow {

  import opened Configuration
  import Debounce

  const MinThresholdPercent: int := 1
  const MaxThresholdPercent: int := 100

  /** `Math.Clamp(threshold, 1, 100)`. */
  function ClampPercent(v: int): (r: int)
    ensures MinThresholdPercent <= r <= MaxThresholdPercent
    ensures MinThresholdPercent <= v <= MaxThresholdPercent ==> r == v
    ensures v < MinThresholdPercent ==> r == MinThresholdPercent
    ensures v > MaxThresholdPercent ==> r == MaxThresholdPercent
  {
    if v < MinThresholdPercent then MinThresholdPercent
    else if v > MaxThresholdPercent then MaxThresholdPercent
    else v
  }

  /** Clamping twice is clamping once. */
  lemma ClampIdempotent(v: int)
    ensures ClampPercent(ClampPercent(v)) == ClampPercent(v)
  {
  }

  /** The clamped value is the point of [1, 100] nearest to the input. */
  lemma ClampIsNearest(v: int, w: int)
    requires MinThresholdPercent <= w <= MaxThresholdPercent
    ensures Dist(ClampPercent(v), v) <= Dist(w, v)
  {
  }

  function Dist(a: int, b: int): nat
  {
    if a <= b then b - a else a - b
  }

  /** What one frame of the threshold field leaves behind: the configuration and whether
      `Save` was called. */
  datatype EditOutcome = EditOutcome(config: Config, saved: bool)

  /** One frame of the field.  `edited` is what `ImGui.InputInt` returned and `input` the value
      it left in the local variable. */
  function ApplyThresholdEdit(c: Config, edited: bool, input: int): (r: EditOutcome)
    ensures !edited ==> r == EditOutcome(c, false)
    ensures edited ==> r.saved
    ensures edited ==> MinThresholdPercent <= r.config.hpThresholdPercent <= MaxThresholdPercent
    ensures edited && MinThresholdPercent <= input <= MaxThresholdPercent ==> r.config.hpThresholdPercent == input
    ensures edited && input < MinThresholdPercent ==> r.config.hpThresholdPercent == MinThresholdPercent
    ensures edited && input > MaxThresholdPercent ==> r.config.hpThresholdPercent == MaxThresholdPercent
    ensures r.config.(hpThresholdPercent := c.hpThresholdPercent) == c
  {
    if edited then EditOutcome(c.(hpThresholdPercent := ClampPercent(input)), true)
    else EditOutcome(c, false)
  }

  /** After any edit the ratio the monitor uses lies in (0, 1]. */
  lemma EditedRatioInUnitInterval(c: Config, input: int, chat: bool, sound: bool)
    ensures var a := Debounce.AlertsOf(ApplyThresholdEdit(c, true, input).config, chat, sound);
            0.0 < ThresholdRatio(a.thresholdPercent) <= 1.0
  {
    RatioInUnitInterval(ApplyThresholdEdit(c, true, input).config.hpThresholdPercent);
  }

  /** Re-entering the stored value changes nothing but saves again. */
  lemma ReEditIsStable(c: Config, input: int)
    ensures var once := ApplyThresholdEdit(c, true, input).config;
            ApplyThresholdEdit(once, true, once.hpThresholdPercent).config == once
  {
  }
}
