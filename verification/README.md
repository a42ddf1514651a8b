# HP Watcher low-HP debounce, modelled in Dafny

This project models the core of the HP Watcher plugin for Final Fantasy XIV. Every frame the plugin
reads the local player's HP and each party member's HP. It warns once, by chat line and/or sound,
when a character drops below a configured percentage of maximum HP. It stays quiet while that
character remains low. It re-arms once the character is back at or above the threshold. A
15-minute sweep drops the dictionary entries of everyone but the local player.

The model uses immutable state and pure step functions:

- `configuration.dfy` (module `Configuration`): the configuration record and its defaults.
  `ThresholdRatio` is a `real`. A lemma shows that the source's division test equals an integer
  cross-multiplication.
- `config_window.dfy` (module `ConfigWindow`): the threshold field of the settings window. An edit
  is clamped to [1, 100], stored and saved. If nothing was edited, nothing changes.
- `debounce.dfy` (module `Debounce`): `CheckAndWarn` as a step over the name-keyed
  `map<string, bool>`, and `Run`, the step folded over a sequence of samples. This file holds the
  edge-trigger theorem: for any interleaving of characters, the warnings for one name equal the
  low episodes of that name that begin in the sequence.
- `frame_check.dfy` (module `FrameCheck`): `CheckHp`. It checks the local player first, as self.
  It then checks each party member in list order, skipping the entry whose name and home world
  both equal the local player's. It is written as a loop, as in the source, and proved equal to
  the fold over the frame's samples.
- `cleanup.dfy` (module `Cleanup`): the time-gated sweep `CleanupLowHpWarnings` over the state
  `(lowHpWarnings, lastCleanupTime)`.
- `sink_failure.dfy` (module `SinkFailure`): `CheckAndWarn` and the frame as written, for the case
  where `PlaySound` throws (see "## Findings").
- `wrappers.dfy`: `Option`, used where the source has a nullable reference.

Decisions about how the source's behaviour is represented:

- **The threshold test is exact.** The source computes `(float)currentHp / maxHp >= threshold`
  with `threshold = HpThresholdPercent / 100f`. The model decides it exactly: a reading is low
  iff `100 * cur < pct * max`. `Debounce.IsLowMatchesRatio` proves that this equals
  "`cur / max` below `ThresholdRatio`" over the reals.
- **Zero maximum HP is modelled as the source computes it.** There is no guard:
  - `0/0` is NaN. Every comparison with NaN is false, so the reading counts as low and may warn.
  - `cur/0` with `cur > 0` is +infinity, so the reading counts as recovered.
- **The key is the name only.** This follows the code. The self-skip compares name and home
  world, but the dictionary is keyed by name. So a party member from another world who has the
  local player's name shares the local player's flag (`FrameCheck.NameTwinSharesTheFlag`).
- **Time is a .NET tick count (100 ns).** "More than 15 minutes" is `now - last > 9_000_000_000`.
  `TimeSpan.TotalMinutes` divides the tick count by the ticks per minute, so this integer test is
  the same condition. The source reads `DateTime.Now` twice, for the test and for the new
  `lastCleanupTime`. The model uses one `now` for both.
- **Warnings are records.** A warning carries the name, HP, the self flag, an optional chat line
  and a sound flag. The chat line is reduced to the choice between the "You are below" and the
  "<name> is below" wording. A warning is issued, and the flag set, even when both sinks are off.
- **The chat and sound switches are plain booleans.** `CheckHp` reads them from
  `Configuration.ThresholdAlerts`, which Configuration.cs does not define.
  `Configuration.ChatWarningEnabled` and `SoundWarningEnabled` are kept as the defaults.
- **The self-skip compares name text.** Plugin.cs:145 compares `member.Name == player.Name`. The
  model takes that to mean equal name text, which is what the `/php` command compares at
  Plugin.cs:114 (see "## Left out").

Facts of the code the model keeps:

- A zero maximum HP is not skipped (see above).
- State is keyed by name only, not by name and home world.
- The sweep needs strictly more than 15 minutes since the last one.

## Model

| member | source | states |
|---|---|---|
| Debounce.IsLow | Plugin.cs:156-158 | a reading is low iff the source's `hpPercent >= threshold` is false: for a positive maximum iff the exact ratio is below the threshold ratio (`Debounce.IsLowMatchesRatio`), and for a zero maximum iff the readout is 0/0 (`Debounce.ZeroMaximum`) |
| Debounce.Suppressed | Plugin.cs:164 | `GetValueOrDefault(name, false)`: an absent name reads as not yet warned |
| Debounce.CheckAndWarn | Plugin.cs:153-181 | one step writes only the sample's name. Afterwards that name is suppressed iff the reading was low. A warning is issued iff the reading is low and the name was not already suppressed (an absent name counts as not suppressed). A suppressed low reading leaves the dictionary unchanged. The warning has a chat line iff chat is enabled, worded for self or other, and a sound iff sound is enabled |
| Debounce.IsLowMatchesRatio | Plugin.cs:156-158 | for a positive maximum, the integer low test holds iff the exact ratio cur/max is below `HpThresholdPercent / 100` |
| Debounce.ZeroMaximum | Plugin.cs:156-158 | a 0/0 readout is always low and warns an unsuppressed name; any positive readout over a zero maximum is never low |
| Debounce.SinksDoNotGateTheFlag | Plugin.cs:167-180 | the dictionary update and whether a warning is issued do not depend on the chat/sound switches. An issued warning reaches the user iff at least one switch is on |
| Debounce.Run | Plugin.cs:138-150 | a fold over the samples issues at most one warning per sample |
| Debounce.RunFrame | Plugin.cs:160-180 | after a fold the keys are the old keys plus the sampled names, and every unsampled entry is unchanged |
| Debounce.RunAppend | Plugin.cs:129-151 | processing samples frame after frame is the same as processing the concatenated sample sequence: the final dictionary is the same and the warnings are concatenated |
| Debounce.EdgeTrigger | Plugin.cs:153-181 | for any interleaving of names, the warnings for one name equal the number of low readings of that name whose previous reading was not low. Before the first reading, "previous" means the entry as it stood |
| Debounce.FlagTracksLastReading | Plugin.cs:158-180 | after a fold, a name's flag is whether its last reading was low, or is unchanged if it was not read |
| Debounce.LowStretchWarnsOnce | Plugin.cs:164-165 | a stretch of consecutive low readings starts one episode if the name was not suppressed, and none otherwise |
| Debounce.LowStretchRunWarnsOnce | Plugin.cs:158-180 | a fold in which every reading of a name is low warns that name once if it is read and was not already suppressed, and never otherwise |
| Debounce.RecoveryRearms | Plugin.cs:158-180 | low, then at-or-above, then low warns again: recovery clears the suppression |
| Debounce.SixReadingsWarnTwice | Plugin.cs:153-181 | from an empty dictionary, readings 80%, 50%, 40%, 30%, 90%, 20% against a 60% threshold issue exactly two warnings |
| FrameCheck.PartySamples | Plugin.cs:142-150 | the party loop yields at most one not-self sample per member, each named after a party member |
| FrameCheck.FrameSamples | Plugin.cs:138-150 | with a local player, the first sample is the local player's, marked self. Without one, nothing is marked self. Every later sample is not-self |
| FrameCheck.PartySamplesAppend | Plugin.cs:142-150 | the party loop distributes over concatenation of the party list, so members are handled in list order |
| FrameCheck.PartySamplesOfOne | Plugin.cs:144-149 | a member is skipped iff there is a local player whose name and home world both equal the member's |
| FrameCheck.NonLocalMembersAreChecked | Plugin.cs:142-149 | every member that is not the local player's own entry is checked, as not-self |
| FrameCheck.CheckHp | Plugin.cs:129-151 | the loop of the source (self, then members with the self-skip) gives exactly the fold over the frame's samples |
| FrameCheck.NameTwinSharesTheFlag | Plugin.cs:138-181 | a same-name member from another world is not skipped but shares the local player's flag. When both go low in one frame, only the local player is warned |
| FrameCheck.IsLocalEntry | Plugin.cs:144-146 | a party entry is skipped iff there is a local player and both its name and its home world equal the local player's |
| Cleanup.CleanupDue | Plugin.cs:188 | the sweep runs iff strictly more than 15 minutes (9·10⁹ ticks) have passed since the last one |
| Cleanup.InitStartsTheClock | Plugin.cs:35-36 | the plugin starts with no entries and the cleanup clock at construction time: a sweep within 15 minutes of construction changes nothing, and a later one only restarts the clock |
| Cleanup.CleanupLowHpWarnings | Plugin.cs:183-204 | if no more than 15 minutes have passed, nothing changes. Otherwise the remaining keys are exactly the old keys equal to the local player's name (none without a local player), surviving entries keep their values, and the clock becomes now |
| Cleanup.SweepBoundsTheDictionary | Plugin.cs:188-200 | after a sweep at most one entry remains |
| Cleanup.SweepIsIntervalGated | Plugin.cs:188-203 | a second sweep within 15 minutes of one that ran changes nothing |
| Cleanup.SweepKeepsLocalFlag | Plugin.cs:190-200 | a suppressed local player stays suppressed through a sweep, so the sweep never re-warns the local player during one low episode |
| Cleanup.EvictionRearmsOthers | Plugin.cs:190-200 | after a sweep, a character other than the local player who is still low is warned again at its next reading |
| Configuration.ThresholdRatio | Configuration.cs:16 | the ratio is the percentage divided by 100: 100 times the ratio is the percentage |
| Configuration.Default | Configuration.cs:13-19 | a fresh configuration: version 1, threshold 60%, chat and sound on, volume 100 (stated by `Configuration.DefaultWarnsBelowSixtyPercent`) |
| Configuration.AtOrAboveIffIntegerTest | Plugin.cs:156-158 | for a positive maximum, cur/max ≥ pct/100 over the reals iff 100·cur ≥ pct·max |
| Configuration.RatioInUnitInterval | Configuration.cs:16 | a percentage in [1, 100] gives a threshold ratio in (0, 1] |
| Configuration.DefaultWarnsBelowSixtyPercent | Configuration.cs:13-19 | the defaults are version 1, threshold 60% (ratio 0.6), chat and sound on and volume 100. Under them a reading is at or above the threshold iff 5·cur ≥ 3·max |
| ConfigWindow.ClampPercent | Windows/ConfigWindow.cs:33 | the result lies in [1, 100]. An input already in range is kept, below 1 becomes 1 and above 100 becomes 100 |
| ConfigWindow.ClampIdempotent | Windows/ConfigWindow.cs:33 | clamping an already clamped value changes nothing |
| ConfigWindow.ClampIsNearest | Windows/ConfigWindow.cs:33 | the clamped value is the point of [1, 100] nearest to the input |
| ConfigWindow.ApplyThresholdEdit | Windows/ConfigWindow.cs:30-36 | without an edit the configuration is unchanged and not saved. With an edit, it is saved and only the threshold changes, to the clamped input |
| ConfigWindow.EditedRatioInUnitInterval | Windows/ConfigWindow.cs:33-34 | after any edit, the ratio of the percentage that `Debounce.AlertsOf` hands to the monitor lies in (0, 1] |
| ConfigWindow.ReEditIsStable | Windows/ConfigWindow.cs:30-36 | re-entering the stored value leaves the configuration as it is |
| SinkFailure.CheckAndWarnAsWritten | Plugin.cs:164-180 | with a working sound device it is `Debounce.CheckAndWarn`. It throws iff the sound device throws, sound is on, and the reading is low and not yet suppressed. A throw leaves the dictionary as it was, after the warning was attempted |
| SinkFailure.RunAsWritten | Plugin.cs:138-150 | the frame as written attempts at most one warning per sample |
| SinkFailure.AbortedFrameIgnoresTheRest | Plugin.cs:138-150 | once a frame as written has thrown, at any sample, the samples after it are never read: appending samples changes neither the dictionary nor the warnings |
| SinkFailure.WorkingDeviceMatchesRun | Plugin.cs:138-180 | with a working sound device the frame as written equals `Debounce.Run` and is never cut short |
| SinkFailure.ThrowDropsTheFrame | Plugin.cs:142-180 | a throw on the first sample leaves the whole dictionary unchanged, so no later sample of the frame is recorded |
| SinkFailure.ThrowingSoundWarnsEveryFrame | Plugin.cs:167-180 | as written, a character that stays low while the sound device throws is warned again in the next frame, and its flag is never set |
| SinkFailure.CorrectedStepWarnsOnceAcrossFrames | Plugin.cs:164-180 | with the step the model uses, a character that stays low over two frames is warned once and stays suppressed |

## Findings

| source | as written | input that shows it | evidently intended | confidence | as-written member | corrected member |
|---|---|---|---|---|---|---|
| Plugin.cs:167-180 | the chat line and `PlaySound` run before `lowHpWarnings[playerName] = true`, and nothing catches an exception from `PlaySound` (Plugin.cs:225-232) | sound on, the audio output device unavailable, one character at 1/10 HP against 60% over two frames: the chat line is printed in both frames and the flag stays unset (`SinkFailure.ThrowingSoundWarnsEveryFrame`); the rest of the party is not read in either frame (`SinkFailure.ThrowDropsTheFrame`) | a failed delivery must not undo the warning: the flag is set once the warning is issued, so the character is warned once per low episode | medium, not executed: it depends on `PlaySound` throwing and on the host calling `CheckHp` again after the exception | SinkFailure.CheckAndWarnAsWritten | Debounce.CheckAndWarn |

The rest of the model uses `Debounce.CheckAndWarn`, which sets the flag whatever the sinks do.
For it, `Debounce.EdgeTrigger` proves one warning per low episode and
`SinkFailure.CorrectedStepWarnsOnceAcrossFrames` proves the two-frame case.

## Left out

- Debounce.CheckAndWarn: assumes the chat and sound sinks return. When `PlaySound` throws, the
  source leaves the flag unset and ends the frame. That case is modelled separately by
  `SinkFailure.CheckAndWarnAsWritten` and `SinkFailure.RunAsWritten` (see "## Findings"). What the
  host does with the exception is not modelled; the model assumes the next frame runs `CheckHp`
  again.
- FrameCheck.PartySamplesOfOne: assumes that `member.Name == player.Name` (Plugin.cs:145)
  compares the name text. The name type's equality operator is not part of this model. If that
  `==` were reference equality, the skip would never fire. The local player's party entry would
  then be checked a second time, as not-self, under the same name key. When the party list's HP
  lags the player object's HP (one low, the other at or above the threshold), the two readings
  would set and clear the flag in turn, and the local player would be warned in every frame.
- Float rounding. The model compares exact ratios. The float32 test can disagree only when the
  exact ratio is strictly below the threshold but within one float32 step of it. Rounding is
  monotone, so the float test then reads "at or above" and the warning is missed. That needs
  the gap 1/(100·maxHp) to be under about 6·10⁻⁸, that is maxHp above roughly 1.6·10⁵.
  `(float)currentHp` is exact below 2²⁴.
- Integer widths. HP values are `uint` in the source and `nat` here. The model never forms a
  value that could overflow.
- Host wiring: the plugin services, command registration, the per-frame `Draw` subscription and
  `Dispose` (Plugin.cs:23-98). This is lifecycle plumbing of the host.
- The `/php` command (Plugin.cs:100-121). It only prints chat lines.
- `PlaySound` (Plugin.cs:216-240). It is audio-device I/O. A warning records only that a sound
  is requested.
- `RunPeriodicCleanup` (Plugin.cs:206-214). This is the 15-minute timer task. It runs the sweep
  concurrently with `CheckHp` on an unsynchronised dictionary. The sweep is modelled as one
  sequential step. The timer, its cancellation and the race are not modelled.
- `Configuration.Save` and the plugin's config loading. This is persistence I/O. The model records
  only whether `Save` was called.
- Chat message text beyond the choice between the self and the party-member wording.
- Windows/OverlayWindow.cs. It is on-screen drawing and does no debouncing.
- HP_Watcher/Plugin.cs. This earlier template revision has no threshold logic.
