/** The per-name low-HP debounce of Plugin.cs: `CheckAndWarn` as a pure step over the
    `lowHpWarnings` dictionary, and its fold over a sequence of samples. */
module Debounce {

  import opened Wrappers
  import Configuration

  /** `lowHpWarnings`: player name to "already warned during the current low episode". */
  type Warnings = map<string, bool>

  /** `GetValueOrDefault(name, false)`: an absent name is not suppressed. */
  predicate Suppressed(w: Warnings, name: string)
  {
    name in w && w[name]
  }

  /** Negation of the source's `(float)currentHp / maxHp >= threshold`, decided exactly.
      With a positive maximum this is `100 * cur < pct * max`.  The source does not guard a zero
      maximum: `0 / 0` is NaN, which compares false and so counts as low, while `cur / 0` with
      `cur > 0` is +infinity, which is at or above every threshold. */
  predicate IsLow(cur: nat, max: nat, pct: int)
  {
    if max == 0 then cur == 0 else 100 * cur < pct * max
  }

  /** With a positive maximum, low means the exact ratio current / max is below the configured
      `ThresholdRatio`. */
  lemma IsLowMatchesRatio(cur: nat, max: nat, pct: int)
    requires max > 0
    ensures IsLow(cur, max, pct) <==> cur as real / max as real < Configuration.ThresholdRatio(pct)
  {
    Configuration.AtOrAboveIffIntegerTest(cur, max, pct);
  }

  /** A zero maximum is not skipped: an empty 0/0 readout is low (NaN fails the comparison)
      whatever the threshold, and any positive readout over 0 is recovered (+infinity). */
  lemma ZeroMaximum(cur: nat, pct: int, name: string, w: Warnings, a: Alerts)
    ensures IsLow(0, 0, pct)
    ensures cur > 0 ==> !IsLow(cur, 0, pct)
    ensures !Suppressed(w, name) ==> CheckAndWarn(w, Sample(name, 0, 0, false), a).issued.Some?
  {
  }

  /** One call of `CheckAndWarn`: the health readout of one character. */
  datatype Sample = Sample(name: string, cur: nat, max: nat, isSelf: bool)

  /** The settings `CheckHp` hands to every step: the threshold percentage and the two sinks. */
  datatype Alerts = Alerts(thresholdPercent: int, chatEnabled: bool, soundEnabled: bool)

  /** The settings one frame reads from the configuration: its percentage, whose ratio is the
      threshold, and the two sink switches. */
  function AlertsOf(c: Configuration.Config, chat: bool, sound: bool): Alerts
  {
    Alerts(c.hpThresholdPercent, chat, sound)
  }

  /** The chat line, down to the choice between the self and the party-member wording. */
  datatype ChatLine =
    | YouAreBelow(pct: int, cur: nat, max: nat)
    | NameIsBelow(name: string, pct: int, cur: nat, max: nat)

  /** One issued warning.  It is issued even when both sinks are off; it is then silent. */
  datatype Warning = Warning(name: string, cur: nat, max: nat, isSelf: bool, chat: Option<ChatLine>, sound: bool)

  /** Whether a warning reaches the user at all. */
  predicate Audible(w: Warning)
  {
    w.chat.Some? || w.sound
  }

  /** The chat line of Plugin.cs:169-171: the self wording for the local player, the named
      wording for everyone else, both carrying the configured percentage and the readout. */
  function ChatFor(s: Sample, a: Alerts): ChatLine
  {
    if s.isSelf then YouAreBelow(a.thresholdPercent, s.cur, s.max)
    else NameIsBelow(s.name, a.thresholdPercent, s.cur, s.max)
  }

  datatype StepResult = StepResult(warnings: Warnings, issued: Option<Warning>)

  /** `CheckAndWarn`: a sample at or above the threshold clears the flag; a low sample that is
      not yet suppressed issues one warning and sets the flag; a suppressed low sample does
      nothing.  Only the sample's own name is read or written. */
  function CheckAndWarn(w: Warnings, s: Sample, a: Alerts): (r: StepResult)
    ensures r.warnings.Keys == w.Keys + {s.name}
    ensures forall k :: k in w && k != s.name ==> r.warnings[k] == w[k]
    ensures Suppressed(r.warnings, s.name) <==> IsLow(s.cur, s.max, a.thresholdPercent)
    ensures r.issued.Some? <==> IsLow(s.cur, s.max, a.thresholdPercent) && !Suppressed(w, s.name)
    ensures Suppressed(w, s.name) && IsLow(s.cur, s.max, a.thresholdPercent) ==> r.warnings == w
    ensures r.issued.Some? ==>
              && r.issued.value.name == s.name && r.issued.value.cur == s.cur
              && r.issued.value.max == s.max && r.issued.value.isSelf == s.isSelf
              && (r.issued.value.chat.Some? <==> a.chatEnabled)
              && (r.issued.value.chat.Some? ==> r.issued.value.chat.value == ChatFor(s, a))
              && r.issued.value.sound == a.soundEnabled
  {
    if !IsLow(s.cur, s.max, a.thresholdPercent) then
      StepResult(w[s.name := false], None)
    else if Suppressed(w, s.name) then
      StepResult(w, None)
    else
      var chat := if a.chatEnabled then Some(ChatFor(s, a)) else None;
      StepResult(w[s.name := true], Some(Warning(s.name, s.cur, s.max, s.isSelf, chat, a.soundEnabled)))
  }

  /** The warning is audible exactly when some sink is enabled; the flag does not care. */
  lemma SinksDoNotGateTheFlag(w: Warnings, s: Sample, a: Alerts, b: Alerts)
    requires a.thresholdPercent == b.thresholdPercent
    ensures CheckAndWarn(w, s, a).warnings == CheckAndWarn(w, s, b).warnings
    ensures CheckAndWarn(w, s, a).issued.Some? == CheckAndWarn(w, s, b).issued.Some?
    ensures CheckAndWarn(w, s, a).issued.Some? ==>
              (Audible(CheckAndWarn(w, s, a).issued.value) <==> a.chatEnabled || a.soundEnabled)
  {
  }

  function NamesOf(samples: seq<Sample>): set<string>
  {
    set i | 0 <= i < |samples| :: samples[i].name
  }

  datatype RunResult = RunResult(warnings: Warnings, issued: seq<Warning>)

  /** `CheckAndWarn` applied to each sample in order. */
  function Run(w: Warnings, samples: seq<Sample>, a: Alerts): (r: RunResult)
    ensures |r.issued| <= |samples|
    decreases |samples|
  {
    if |samples| == 0 then RunResult(w, [])
    else
      var step := CheckAndWarn(w, samples[0], a);
      var rest := Run(step.warnings, samples[1..], a);
      RunResult(rest.warnings, (if step.issued.Some? then [step.issued.value] else []) + rest.issued)
  }

  /** A run over a sample followed by more samples is the step and then the rest. */
  lemma RunCons(w: Warnings, x: Sample, rest: seq<Sample>, a: Alerts)
    ensures var step := CheckAndWarn(w, x, a);
            var tail := Run(step.warnings, rest, a);
            Run(w, [x] + rest, a)
            == RunResult(tail.warnings, (if step.issued.Some? then [step.issued.value] else []) + tail.issued)
  {
    assert ([x] + rest)[0] == x;
    assert ([x] + rest)[1..] == rest;
  }

  /** A run adds exactly the sampled names to the dictionary and leaves every other entry as
      it was. */
  lemma {:induction false} RunFrame(w: Warnings, samples: seq<Sample>, a: Alerts)
    ensures Run(w, samples, a).warnings.Keys == w.Keys + NamesOf(samples)
    ensures forall k :: k in w && k !in NamesOf(samples) ==> Run(w, samples, a).warnings[k] == w[k]
    decreases |samples|
  {
    if |samples| > 0 {
      var step := CheckAndWarn(w, samples[0], a);
      assert NamesOf(samples) == {samples[0].name} + NamesOf(samples[1..]);
      RunFrame(step.warnings, samples[1..], a);
    }
  }

  /** Running two batches one after the other is running their concatenation. */
  lemma {:induction false} RunAppend(w: Warnings, s1: seq<Sample>, s2: seq<Sample>, a: Alerts)
    ensures Run(w, s1 + s2, a).warnings == Run(Run(w, s1, a).warnings, s2, a).warnings
    ensures Run(w, s1 + s2, a).issued == Run(w, s1, a).issued + Run(Run(w, s1, a).warnings, s2, a).issued
    decreases |s1|
  {
    if |s1| == 0 {
      assert s1 + s2 == s2;
    } else {
      var step := CheckAndWarn(w, s1[0], a);
      var head := if step.issued.Some? then [step.issued.value] else [];
      assert (s1 + s2)[0] == s1[0];
      assert (s1 + s2)[1..] == s1[1..] + s2;
      RunAppend(step.warnings, s1[1..], s2, a);
      var mid := Run(step.warnings, s1[1..], a);
      var last := Run(mid.warnings, s2, a);
      calc {
        Run(w, s1 + s2, a).issued;
        head + Run(step.warnings, s1[1..] + s2, a).issued;
        head + (mid.issued + last.issued);
        (head + mid.issued) + last.issued;
        Run(w, s1, a).issued + last.issued;
      }
    }
  }

  /** The low/at-or-above readings of `name`, in order. */
  function LowsOf(samples: seq<Sample>, name: string, pct: int): seq<bool>
  {
    if |samples| == 0 then []
    else if samples[0].name == name then [IsLow(samples[0].cur, samples[0].max, pct)] + LowsOf(samples[1..], name, pct)
    else LowsOf(samples[1..], name, pct)
  }

  /** The number of low episodes that begin in `lows`: low readings whose predecessor (or
      `prev`, for the first) was not low. */
  function EpisodeStarts(prev: bool, lows: seq<bool>): nat
    decreases |lows|
  {
    if |lows| == 0 then 0
    else (if lows[0] && !prev then 1 else 0) + EpisodeStarts(lows[0], lows[1..])
  }

  /** Warnings issued for `name`. */
  function WarningsFor(ws: seq<Warning>, name: string): nat
  {
    if |ws| == 0 then 0
    else (if ws[0].name == name then 1 else 0) + WarningsFor(ws[1..], name)
  }

  lemma {:induction false} WarningsForAppend(xs: seq<Warning>, ys: seq<Warning>, name: string)
    ensures WarningsFor(xs + ys, name) == WarningsFor(xs, name) + WarningsFor(ys, name)
    decreases |xs|
  {
    if |xs| == 0 {
      assert xs + ys == ys;
    } else {
      assert (xs + ys)[1..] == xs[1..] + ys;
      WarningsForAppend(xs[1..], ys, name);
    }
  }

  /** Edge trigger: over any interleaving of samples, the warnings issued for one name are
      exactly the low episodes of that name that begin in the sequence, counting a low first
      reading as a beginning unless the name was already suppressed. */
  lemma {:induction false} EdgeTrigger(w: Warnings, samples: seq<Sample>, a: Alerts, name: string)
    ensures WarningsFor(Run(w, samples, a).issued, name)
            == EpisodeStarts(Suppressed(w, name), LowsOf(samples, name, a.thresholdPercent))
    decreases |samples|
  {
    if |samples| > 0 {
      var step := CheckAndWarn(w, samples[0], a);
      var rest := Run(step.warnings, samples[1..], a);
      var head := if step.issued.Some? then [step.issued.value] else [];
      WarningsForAppend(head, rest.issued, name);
      EdgeTrigger(step.warnings, samples[1..], a, name);
      if samples[0].name != name {
        assert Suppressed(step.warnings, name) == Suppressed(w, name);
        assert WarningsFor(head, name) == 0;
      } else {
        if step.issued.Some? {
          assert head[1..] == [];
        }
      }
    }
  }

  /** After a run the flag of `name` records whether its last reading was low. */
  lemma {:induction false} FlagTracksLastReading(w: Warnings, samples: seq<Sample>, a: Alerts, name: string)
    ensures var lows := LowsOf(samples, name, a.thresholdPercent);
            Suppressed(Run(w, samples, a).warnings, name)
            == if |lows| == 0 then Suppressed(w, name) else lows[|lows| - 1]
    decreases |samples|
  {
    if |samples| > 0 {
      var step := CheckAndWarn(w, samples[0], a);
      var tail := LowsOf(samples[1..], name, a.thresholdPercent);
      FlagTracksLastReading(step.warnings, samples[1..], a, name);
      assert Run(w, samples, a).warnings == Run(step.warnings, samples[1..], a).warnings;
      if samples[0].name == name {
        var lows := LowsOf(samples, name, a.thresholdPercent);
        assert lows == [IsLow(samples[0].cur, samples[0].max, a.thresholdPercent)] + tail;
        if |tail| > 0 {
          assert lows[|lows| - 1] == tail[|tail| - 1];
        }
      } else {
        assert LowsOf(samples, name, a.thresholdPercent) == tail;
        assert Suppressed(step.warnings, name) == Suppressed(w, name);
      }
    }
  }

  /** A stretch of low readings of one name warns at most once, and exactly once when the
      name was not already suppressed. */
  lemma {:induction false} LowStretchWarnsOnce(prev: bool, n: nat)
    ensures EpisodeStarts(prev, seq(n, _ => true)) == if n > 0 && !prev then 1 else 0
    decreases n
  {
    if n > 0 {
      assert seq(n, _ => true)[1..] == seq(n - 1, _ => true);
      LowStretchWarnsOnce(true, n - 1);
    }
  }

  /** Every reading of `name` in `samples` is low. */
  predicate AllLowFor(samples: seq<Sample>, name: string, pct: int)
  {
    forall i :: 0 <= i < |samples| && samples[i].name == name ==> IsLow(samples[i].cur, samples[i].max, pct)
  }

  lemma {:induction false} LowsOfAllLow(samples: seq<Sample>, name: string, pct: int)
    requires AllLowFor(samples, name, pct)
    ensures LowsOf(samples, name, pct) == seq(|LowsOf(samples, name, pct)|, _ => true)
    ensures |LowsOf(samples, name, pct)| > 0 <==> name in NamesOf(samples)
    decreases |samples|
  {
    if |samples| > 0 {
      assert AllLowFor(samples[1..], name, pct) by {
        forall i | 0 <= i < |samples[1..]| && samples[1..][i].name == name
          ensures IsLow(samples[1..][i].cur, samples[1..][i].max, pct)
        {
          assert samples[1..][i] == samples[i + 1];
        }
      }
      LowsOfAllLow(samples[1..], name, pct);
      assert NamesOf(samples) == {samples[0].name} + NamesOf(samples[1..]);
    }
  }

  /** A run in which every reading of `name` is low warns `name` once when it is read and was
      not already suppressed, and never otherwise. */
  lemma LowStretchRunWarnsOnce(w: Warnings, samples: seq<Sample>, a: Alerts, name: string)
    requires AllLowFor(samples, name, a.thresholdPercent)
    ensures WarningsFor(Run(w, samples, a).issued, name)
            == if name in NamesOf(samples) && !Suppressed(w, name) then 1 else 0
  {
    EdgeTrigger(w, samples, a, name);
    LowsOfAllLow(samples, name, a.thresholdPercent);
    LowStretchWarnsOnce(Suppressed(w, name), |LowsOf(samples, name, a.thresholdPercent)|);
  }

  /** Recovery re-arms: a name that was warned, then read at or above the threshold, then low
      again, is warned again. */
  lemma RecoveryRearms(w: Warnings, name: string, low1: nat, high: nat, low2: nat, max: nat, a: Alerts)
    requires IsLow(low1, max, a.thresholdPercent) && IsLow(low2, max, a.thresholdPercent)
    requires !IsLow(high, max, a.thresholdPercent)
    ensures var w1 := CheckAndWarn(w, Sample(name, low1, max, false), a).warnings;
            var w2 := CheckAndWarn(w1, Sample(name, high, max, false), a).warnings;
            Suppressed(w1, name) && !Suppressed(w2, name)
            && CheckAndWarn(w2, Sample(name, low2, max, false), a).issued.Some?
  {
  }

  /** Six readings of one character, 80%, 50%, 40%, 30%, 90%, 20% of a maximum of 10. */
  function SixReadings(name: string): seq<Sample>
  {
    [Sample(name, 8, 10, true), Sample(name, 5, 10, true), Sample(name, 4, 10, true),
     Sample(name, 3, 10, true), Sample(name, 9, 10, true), Sample(name, 2, 10, true)]
  }

  lemma SixReadingsLows(name: string)
    ensures LowsOf(SixReadings(name), name, 60) == [false, true, true, true, false, true]
  {
    var s := SixReadings(name);
    var lows := [false, true, true, true, false, true];
    assert LowsOf(s[6..], name, 60) == [];
    assert LowsOf(s[5..], name, 60) == lows[5..];
    assert LowsOf(s[4..], name, 60) == lows[4..];
    assert LowsOf(s[3..], name, 60) == lows[3..];
    assert LowsOf(s[2..], name, 60) == lows[2..];
    assert LowsOf(s[1..], name, 60) == lows[1..];
  }

  lemma SixReadingsStarts()
    ensures EpisodeStarts(false, [false, true, true, true, false, true]) == 2
  {
    var lows := [false, true, true, true, false, true];
    assert EpisodeStarts(true, lows[5..]) == 0;
    assert EpisodeStarts(false, lows[5..]) == 1;
    assert EpisodeStarts(true, lows[4..]) == 1;
    assert EpisodeStarts(true, lows[3..]) == 1;
    assert EpisodeStarts(true, lows[2..]) == 1;
    assert EpisodeStarts(false, lows[1..]) == 2;
  }

  /** Six readings, 80%, 50%, 40%, 30%, 90%, 20%, against a 60% threshold warn twice. */
  lemma SixReadingsWarnTwice(name: string, chat: bool, sound: bool)
    ensures WarningsFor(Run(map[], SixReadings(name), Alerts(60, chat, sound)).issued, name) == 2
  {
    EdgeTrigger(map[], SixReadings(name), Alerts(60, chat, sound), name);
    SixReadingsLows(name);
    SixReadingsStarts();
  }
}
