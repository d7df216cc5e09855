/**
 * lib/utils/time-estimation.ts: the "about …" processing-time hint, at a
 * rate of two and a half minutes of processing per hour of audio.
 */
module TimeEstimation {
  import opened Strings
  import opened RealMath

  /** `Math.ceil((durationInSeconds / 3600) * 150)`. */
  function EstimatedSeconds(duration: real): (r: int)
    ensures (r - 1) as real < duration / 24.0 <= r as real
  {
    Ceil(duration / 3600.0 * 150.0)
  }

  /** `Math.ceil(estimatedSeconds / 60)`. */
  function EstimatedMinutes(estimated: int): (r: int)
    ensures (r - 1) * 60 < estimated <= r * 60
  {
    Ceil(estimated as real / 60.0)
  }

  /** `estimateProcessingTime`. */
  function EstimateProcessingTime(duration: real): string {
    var estimated := EstimatedSeconds(duration);
    if estimated < 60 then "about " + IntToString(estimated) + " seconds"
    else
      var minutes := EstimatedMinutes(estimated);
      if minutes == 1 then "about 1 minute"
      else "about " + IntToString(minutes) + " minutes"
  }

  /** A longer recording never gets a shorter estimate. */
  lemma EstimateMonotone(shorter: real, longer: real)
    requires shorter <= longer
    ensures EstimatedSeconds(shorter) <= EstimatedSeconds(longer)
    ensures EstimatedMinutes(EstimatedSeconds(shorter)) <= EstimatedMinutes(EstimatedSeconds(longer))
  {
  }

  /**
   * Which of the three messages appears: seconds up to 23 min 36 s of audio,
   * the singular minute up to 24 min, whole minutes (at least two) beyond.
   */
  lemma EstimateMessages(duration: real)
    ensures duration <= 1416.0 ==>
              EstimateProcessingTime(duration) == "about " + IntToString(EstimatedSeconds(duration)) + " seconds"
    ensures 1416.0 < duration <= 1440.0 <==> EstimateProcessingTime(duration) == "about 1 minute"
    ensures duration > 1440.0 ==>
              EstimatedMinutes(EstimatedSeconds(duration)) >= 2
              && EstimateProcessingTime(duration)
                 == "about " + IntToString(EstimatedMinutes(EstimatedSeconds(duration))) + " minutes"
  {
    var estimated := EstimatedSeconds(duration);
    var r := EstimateProcessingTime(duration);
    if estimated < 60 {
      assert r[|r| - 1] == 's';
    } else if EstimatedMinutes(estimated) != 1 {
      assert r[|r| - 1] == 's';
    }
  }

  /** No audio needs no time; anything up to 24 seconds of audio needs one second. */
  lemma EstimateExamples()
    ensures EstimateProcessingTime(0.0) == "about 0 seconds"
    ensures EstimateProcessingTime(24.0) == "about 1 seconds"
    ensures EstimateProcessingTime(3600.0) == "about 3 minutes"
  {
    assert EstimatedSeconds(0.0) == 0;
    assert EstimatedSeconds(24.0) == 1;
    assert EstimatedSeconds(3600.0) == 150;
    assert EstimatedMinutes(150) == 3;
  }
}
