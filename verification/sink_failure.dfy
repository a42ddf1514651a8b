/** A sound sink that throws.  In Plugin.cs the chat line and `PlaySound` run before the flag is
    set, and nothing catches an exception from `PlaySound` (opening the audio file or the output
    device), so a throw leaves the flag unset and ends `CheckHp` for that frame.  This module
    models that behaviour as written next to the step the rest of the model uses, in which a
    sink failure cannot undo the flag. */
module SinkFailure {

  import opened Wrappers
  import opened Debounce

  /** How `PlaySound` behaves: it returns, or it throws. */
  datatype SoundDevice = Working | Throwing

  /** One `CheckAndWarn` call as written: it returns with the step's result, or it throws after
      the chat line was printed and the sound attempted, leaving the dictionary as it was. */
  datatype Attempt = Returned(step: StepResult) | Threw(warnings: Warnings, attempted: Warning)

  /** `CheckAndWarn` as written, with the sound sink's behaviour as a parameter. */
  function CheckAndWarnAsWritten(w: Warnings, s: Sample, a: Alerts, device: SoundDevice): (r: Attempt)
    ensures r.Threw? <==> device == Throwing && a.soundEnabled
                          && IsLow(s.cur, s.max, a.thresholdPercent) && !Suppressed(w, s.name)
    ensures r.Threw? ==> r.warnings == w && Some(r.attempted) == CheckAndWarn(w, s, a).issued
    ensures r.Returned? ==> r.step == CheckAndWarn(w, s, a)
  {
    var step := CheckAndWarn(w, s, a);
    if device == Throwing && a.soundEnabled && step.issued.Some? then Threw(w, step.issued.value)
    else Returned(step)
  }

  /** One frame as written: the dictionary after it, the warnings attempted, and whether a throw
      cut the frame short. */
  datatype FrameOutcome = FrameOutcome(warnings: Warnings, issued: seq<Warning>, aborted: bool)

  /** The fold of `CheckHp` as written: a throw ends the frame, so later samples are not read. */
  function RunAsWritten(w: Warnings, samples: seq<Sample>, a: Alerts, device: SoundDevice): (r: FrameOutcome)
    ensures |r.issued| <= |samples|
    decreases |samples|
  {
    if |samples| == 0 then FrameOutcome(w, [], false)
    else
      match CheckAndWarnAsWritten(w, samples[0], a, device)
      case Threw(kept, attempted) => FrameOutcome(kept, [attempted], true)
      case Returned(step) =>
        var rest := RunAsWritten(step.warnings, samples[1..], a, device);
        FrameOutcome(rest.warnings, (if step.issued.Some? then [step.issued.value] else []) + rest.issued, rest.aborted)
  }

  /** With a working sound device the source and the model agree sample by sample. */
  lemma {:induction false} WorkingDeviceMatchesRun(w: Warnings, samples: seq<Sample>, a: Alerts)
    ensures RunAsWritten(w, samples, a, Working)
            == FrameOutcome(Run(w, samples, a).warnings, Run(w, samples, a).issued, false)
    decreases |samples|
  {
    if |samples| > 0 {
      WorkingDeviceMatchesRun(CheckAndWarn(w, samples[0], a).warnings, samples[1..], a);
    }
  }

  /** As written, once a frame has thrown nothing after the throw is read: appending samples
      changes neither the dictionary nor the warnings. */
  lemma {:induction false} AbortedFrameIgnoresTheRest(w: Warnings, s1: seq<Sample>, s2: seq<Sample>, a: Alerts, device: SoundDevice)
    requires RunAsWritten(w, s1, a, device).aborted
    ensures RunAsWritten(w, s1 + s2, a, device) == RunAsWritten(w, s1, a, device)
    decreases |s1|
  {
    assert (s1 + s2)[0] == s1[0];
    assert (s1 + s2)[1..] == s1[1..] + s2;
    match CheckAndWarnAsWritten(w, s1[0], a, device)
    case Threw(_, _) =>
    case Returned(step) =>
      AbortedFrameIgnoresTheRest(step.warnings, s1[1..], s2, a, device);
  }

  /** As written, a throw on the first sample leaves the whole dictionary untouched: neither
      that name's flag nor any later sample of the frame is recorded. */
  lemma ThrowDropsTheFrame(w: Warnings, samples: seq<Sample>, a: Alerts)
    requires |samples| > 0 && a.soundEnabled
    requires IsLow(samples[0].cur, samples[0].max, a.thresholdPercent) && !Suppressed(w, samples[0].name)
    ensures var r := RunAsWritten(w, samples, a, Throwing);
            r.aborted && r.warnings == w && |r.issued| == 1
  {
  }

  /** As written, a character that stays low while the sound device throws is warned again in
      every frame: the chat line is repeated and the flag never set. */
  lemma ThrowingSoundWarnsEveryFrame(w: Warnings, s: Sample, a: Alerts)
    requires a.soundEnabled && IsLow(s.cur, s.max, a.thresholdPercent) && !Suppressed(w, s.name)
    ensures var first := RunAsWritten(w, [s], a, Throwing);
            var second := RunAsWritten(first.warnings, [s], a, Throwing);
            |first.issued| == 1 && second.issued == first.issued
            && !Suppressed(second.warnings, s.name)
  {
  }

  /** The step the rest of the model uses keeps the flag however the sinks fare: the same
      character staying low over two frames is warned once. */
  lemma CorrectedStepWarnsOnceAcrossFrames(w: Warnings, s: Sample, a: Alerts)
    requires IsLow(s.cur, s.max, a.thresholdPercent) && !Suppressed(w, s.name)
    ensures var first := Run(w, [s], a);
            var second := Run(first.warnings, [s], a);
            |first.issued| == 1 && second.issued == [] && Suppressed(second.warnings, s.name)
  {
  }
}
