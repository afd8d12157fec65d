/** The reward-progress projection of the active meeting
    (src/pages/Index.tsx:416, 421, 425): the meeting is measured against a
    fixed target of two hours. Durations are whole minutes; the ratio the
    screen computes with JavaScript numbers is stated here over exact reals,
    and the integer formulas are proved to agree with it. */
module MeetingProgress {

  /** The meeting length that earns the reward, in minutes. */
  const TargetMinutes: nat := 120

  /** `duration / 120 * 100`, the unrounded share of the target, in percent. */
  function ExactPercent(duration: nat): real
  {
    duration as real / TargetMinutes as real * 100.0
  }

  /** `Math.round`: the nearest integer, halves rounded up. */
  function RoundHalfUp(x: real): int
  {
    (x + 0.5).Floor
  }

  /** The percentage label, rounded and deliberately not clamped. */
  function ProgressPercent(duration: nat): (percent: nat)
    ensures 6 * percent - 3 <= 5 * duration < 6 * percent + 3
  {
    (5 * duration + 3) / 6
  }

  /** The integer label is `Math.round` applied to the exact share. */
  lemma ProgressPercentIsRoundedShare(duration: nat)
    ensures ProgressPercent(duration) == RoundHalfUp(ExactPercent(duration))
  {
  }

  /** The label reaches 100 exactly when the target is reached, and passes it
      once the meeting runs over: 135 minutes show 113%. */
  lemma ProgressPercentAgainstTarget(duration: nat)
    ensures ProgressPercent(duration) >= 100 <==> duration >= TargetMinutes
    ensures ProgressPercent(duration) == 100 <==> duration == TargetMinutes
    ensures ProgressPercent(duration) > 100 <==> duration > TargetMinutes
  {
  }

  /** The label never goes down as the meeting goes on. */
  lemma ProgressPercentMonotonic(shorter: nat, longer: nat)
    requires shorter <= longer
    ensures ProgressPercent(shorter) <= ProgressPercent(longer)
  {
  }

  /** The width of the progress bar in percent: the exact share, capped at
      a full bar. */
  function BarWidth(duration: nat): (width: real)
    ensures 0.0 <= width <= 100.0
    ensures width <= ExactPercent(duration)
    ensures width == ExactPercent(duration) || width == 100.0
    ensures width == 100.0 <==> duration >= TargetMinutes
  {
    if ExactPercent(duration) < 100.0 then ExactPercent(duration) else 100.0
  }

  /** The minutes still missing to the target, never negative. */
  function RemainingMinutes(duration: nat): (remaining: nat)
    ensures remaining == 0 <==> duration >= TargetMinutes
    ensures remaining > 0 ==> duration + remaining == TargetMinutes
  {
    if TargetMinutes - duration > 0 then TargetMinutes - duration else 0
  }

  /** The three read-outs agree on whether the reward is reached, and before
      it is reached the bar and the countdown describe the same point. */
  lemma ProgressReadoutsAgree(duration: nat)
    ensures RemainingMinutes(duration) == 0 <==> BarWidth(duration) == 100.0
    ensures BarWidth(duration) == 100.0 <==> ProgressPercent(duration) >= 100
    ensures duration < TargetMinutes ==>
      BarWidth(duration) == 100.0 - RemainingMinutes(duration) as real * 100.0 / TargetMinutes as real
  {
    ProgressPercentAgainstTarget(duration);
  }

  /** The sample active meeting (45 minutes) and the sample history entry
      (135 minutes). */
  lemma SampleMeetingsProgress()
    ensures ProgressPercent(45) == 38 && BarWidth(45) == 37.5 && RemainingMinutes(45) == 75
    ensures ProgressPercent(135) == 113 && BarWidth(135) == 100.0 && RemainingMinutes(135) == 0
  {
  }
}
