/** The persisted plugin settings (Configuration.cs) and the threshold ratio derived from them. */
module Configuration {

  /** The serialisable configuration record.  `Save` is persistence I/O and is not modelled here. */
  datatype Config = Config(
    version: int,
    hpThresholdPercent: int,
    chatWarningEnabled: bool,
    soundWarningEnabled: bool,
    soundVolumePercent: int)

  /** A fresh configuration, as built when no saved one exists. */
  function Default(): Config
  {
    Config(1, 60, true, true, 100)
  }

  /** `ThresholdRatio`: the percentage as a fraction of full health, computed exactly. */
  function ThresholdRatio(pct: int): (r: real)
    ensures r * 100.0 == pct as real
  {
    pct as real / 100.0
  }

  /** A percentage in [1, 100] gives a ratio in (0, 1]. */
  lemma RatioInUnitInterval(pct: int)
    requires 1 <= pct <= 100
    ensures 0.0 < ThresholdRatio(pct) <= 1.0
  {
  }

  /** For a positive maximum, "current / max is at or above the ratio" is the integer test
      `100 * current >= pct * max`; the float comparison of the source is decided exactly. */
  lemma AtOrAboveIffIntegerTest(cur: nat, max: nat, pct: int)
    requires max > 0
    ensures cur as real / max as real >= ThresholdRatio(pct) <==> 100 * cur >= pct * max
  {
  }

  /** The defaults warn below 60% of maximum health, sound and chat both on, at full volume. */
  lemma DefaultWarnsBelowSixtyPercent(cur: nat, max: nat)
    requires max > 0
    ensures Default().version == 1
    ensures Default().chatWarningEnabled && Default().soundWarningEnabled
    ensures Default().soundVolumePercent == 100
    ensures ThresholdRatio(Default().hpThresholdPercent) == 0.6
    ensures cur as real / max as real >= ThresholdRatio(Default().hpThresholdPercent) <==> 5 * cur >= 3 * max
  {
    AtOrAboveIffIntegerTest(cur, max, Default().hpThresholdPercent);
  }
}
