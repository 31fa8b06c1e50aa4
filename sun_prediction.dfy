/**
 * The forward search behind `predictSunnyTimes`: from "now", step through
 * future instants and find when a sunny terrace loses the sun (10-minute
 * steps) or when a shaded one receives it (15-minute steps), both within an
 * 8-hour horizon and bounded by sunset.
 *
 * Instants are integer milliseconds. The clock, the ephemeris (sunset and the
 * sign of the sun's altitude) and the scene's occlusion test are inputs.
 */
module SunPrediction {
  import opened JsValues

  const MinuteMs: int := 60000
  /** The search looks at most this many minutes ahead. */
  const HorizonMinutes: int := 480
  /** Step of the search for a sunny terrace. */
  const SunnyStepMinutes: int := 10
  /** Step of the search for a shaded terrace. */
  const ShadedStepMinutes: int := 15

  /**
   * A `Date` in milliseconds, or the Invalid Date that the ephemeris reports
   * for a sunset that does not happen (polar day or night).
   */
  datatype Stamp = Valid(ms: int) | Invalid

  /** `t > sunset` on dates: an Invalid Date compares as NaN, so nothing is after it. */
  predicate After(t: int, sunset: Stamp)
  {
    sunset.Valid? && t > sunset.ms
  }

  /**
   * What the predictor reads from outside: the current instant, today's
   * sunset, "the sun's altitude is positive at `t`", and the answer of the
   * scene object's `checkSunAtPosition(x, z, v)`, where `v` is the normalised
   * vector `sunPositionToVector` gives for the sun's position at `t`. How that
   * object aims its ray from `v` is not part of this model.
   */
  datatype Sky = Sky(now: int, sunset: Stamp, sunUp: int -> bool, sunlit: (real, real, int) -> bool)

  /** `now + mins * 60000`. */
  function StepTime(now: int, mins: int): int
  {
    now + mins * MinuteMs
  }

  /** The venue at `(x, z)` counts as lit at `t`: the sun is up and the scene's test answers sunny. */
  predicate LitAt(sky: Sky, x: real, z: real, t: int)
  {
    sky.sunUp(t) && sky.sunlit(x, z, t)
  }

  /** The sunny search, from minute `mins` on (the loop body of the sunny branch). */
  function ShadeScan(sky: Sky, x: real, z: real, mins: int): Stamp
    decreases HorizonMinutes - mins
  {
    if mins > HorizonMinutes then sky.sunset
    else
      var futureTime := StepTime(sky.now, mins);
      if After(futureTime, sky.sunset) then sky.sunset
      else if !sky.sunUp(futureTime) then Valid(futureTime)
      else if !sky.sunlit(x, z, futureTime) then Valid(futureTime)
      else ShadeScan(sky, x, z, mins + SunnyStepMinutes)
  }

  /**
   * When a sunny venue is predicted to lose the sun (`shadesAt`), the search
   * starting 10 minutes ahead: never after a real sunset, and a prediction
   * other than the sunset lies strictly after `now` and at most 480 minutes ahead.
   */
  function ShadesAt(sky: Sky, x: real, z: real): (r: Stamp)
    ensures sky.sunset.Valid? ==> r.Valid? && r.ms <= sky.sunset.ms
    ensures r != sky.sunset ==> r.Valid? && sky.now < r.ms <= sky.now + HorizonMinutes * MinuteMs
  {
    ShadeScanCases(sky, x, z, 1);
    ShadeScan(sky, x, z, SunnyStepMinutes)
  }

  /** The shaded search, from minute `mins` on (the loop body of the shaded branch). */
  function SunScan(sky: Sky, x: real, z: real, mins: int): Option<int>
    decreases HorizonMinutes - mins
  {
    if mins > HorizonMinutes then None
    else
      var futureTime := StepTime(sky.now, mins);
      if After(futureTime, sky.sunset) then None
      else if !sky.sunUp(futureTime) then SunScan(sky, x, z, mins + ShadedStepMinutes)
      else if sky.sunlit(x, z, futureTime) then Some(futureTime)
      else SunScan(sky, x, z, mins + ShadedStepMinutes)
  }

  /**
   * When a shaded venue is predicted to get sun (`sunnyAt`), the search
   * starting 15 minutes ahead: a prediction lies strictly after `now`, at most
   * 480 minutes ahead, never after a real sunset, with the sun up and the
   * venue lit there.
   */
  function SunnyAt(sky: Sky, x: real, z: real): (r: Option<int>)
    ensures r.Some? ==>
      sky.now < r.value <= sky.now + HorizonMinutes * MinuteMs &&
      (sky.sunset.Valid? ==> r.value <= sky.sunset.ms) &&
      sky.sunUp(r.value) && sky.sunlit(x, z, r.value)
  {
    var r := SunScan(sky, x, z, ShadedStepMinutes);
    if r.Some? then SunScanFound(sky, x, z, 1); r else r
  }

  /** The `k`-th step of the sunny search, `now + 10k` minutes (k from 1 to 48). */
  function SunnyStep(sky: Sky, k: int): int
  {
    StepTime(sky.now, SunnyStepMinutes * k)
  }

  /** The `k`-th step of the shaded search, `now + 15k` minutes (k from 1 to 32). */
  function ShadedStep(sky: Sky, k: int): int
  {
    StepTime(sky.now, ShadedStepMinutes * k)
  }

  /** Step `k` of the shaded search is not past sunset and the venue is lit there. */
  predicate SunStepQualifies(sky: Sky, x: real, z: real, k: int)
  {
    !After(ShadedStep(sky, k), sky.sunset) && LitAt(sky, x, z, ShadedStep(sky, k))
  }

  // ---------------------------------------------------------------------------
  // The sunny branch

  lemma {:induction false} ShadeScanFindsShade(sky: Sky, x: real, z: real, k0: int, k: int)
    requires 1 <= k0 <= k <= 48
    requires !After(SunnyStep(sky, k), sky.sunset) && !LitAt(sky, x, z, SunnyStep(sky, k))
    requires forall j :: k0 <= j < k ==> LitAt(sky, x, z, SunnyStep(sky, j))
    ensures ShadeScan(sky, x, z, SunnyStepMinutes * k0) == Valid(SunnyStep(sky, k))
    decreases k - k0
  {
    if k0 < k {
      assert !After(SunnyStep(sky, k0), sky.sunset);
      assert LitAt(sky, x, z, SunnyStep(sky, k0));
      assert SunnyStepMinutes * k0 + SunnyStepMinutes == SunnyStepMinutes * (k0 + 1);
      ShadeScanFindsShade(sky, x, z, k0 + 1, k);
    }
  }

  lemma {:induction false} ShadeScanReachesSunset(sky: Sky, x: real, z: real, k0: int)
    requires 1 <= k0 <= 49
    requires forall k :: k0 <= k <= 48 && !After(SunnyStep(sky, k), sky.sunset) ==> LitAt(sky, x, z, SunnyStep(sky, k))
    ensures ShadeScan(sky, x, z, SunnyStepMinutes * k0) == sky.sunset
    decreases 49 - k0
  {
    if k0 <= 48 && !After(SunnyStep(sky, k0), sky.sunset) {
      assert LitAt(sky, x, z, SunnyStep(sky, k0));
      assert SunnyStepMinutes * k0 + SunnyStepMinutes == SunnyStepMinutes * (k0 + 1);
      ShadeScanReachesSunset(sky, x, z, k0 + 1);
    }
  }

  lemma {:induction false} ShadeScanCases(sky: Sky, x: real, z: real, k0: int)
    requires 1 <= k0 <= 49
    ensures var r := ShadeScan(sky, x, z, SunnyStepMinutes * k0);
      r == sky.sunset ||
      exists k :: k0 <= k <= 48 && r == Valid(SunnyStep(sky, k)) &&
        !After(SunnyStep(sky, k), sky.sunset) && !LitAt(sky, x, z, SunnyStep(sky, k)) &&
        forall j :: k0 <= j < k ==> LitAt(sky, x, z, SunnyStep(sky, j))
    decreases 49 - k0
  {
    var r := ShadeScan(sky, x, z, SunnyStepMinutes * k0);
    if k0 <= 48 && !After(SunnyStep(sky, k0), sky.sunset) {
      if !LitAt(sky, x, z, SunnyStep(sky, k0)) {
        assert r == Valid(SunnyStep(sky, k0));
      } else {
        assert SunnyStepMinutes * k0 + SunnyStepMinutes == SunnyStepMinutes * (k0 + 1);
        ShadeScanCases(sky, x, z, k0 + 1);
      }
    }
  }

  /**
   * If step `k` is the first step at which the venue is shaded (the sun down
   * or the venue blocked) and it is not past sunset, the prediction is that step.
   */
  lemma ShadesAtEarliestShadedStep(sky: Sky, x: real, z: real, k: int)
    requires 1 <= k <= 48
    requires !After(SunnyStep(sky, k), sky.sunset) && !LitAt(sky, x, z, SunnyStep(sky, k))
    requires forall j :: 1 <= j < k ==> LitAt(sky, x, z, SunnyStep(sky, j))
    ensures ShadesAt(sky, x, z) == Valid(SunnyStep(sky, k))
  {
    ShadeScanFindsShade(sky, x, z, 1, k);
  }

  /**
   * If the venue is lit at every step up to sunset (no building in the way and
   * the sun up), the prediction falls back to sunset itself.
   */
  lemma ShadesAtSunsetWhenNeverShaded(sky: Sky, x: real, z: real)
    requires forall k :: 1 <= k <= 48 && !After(SunnyStep(sky, k), sky.sunset) ==> LitAt(sky, x, z, SunnyStep(sky, k))
    ensures ShadesAt(sky, x, z) == sky.sunset
  {
    ShadeScanReachesSunset(sky, x, z, 1);
  }

  /**
   * The prediction is sunset, or a step `now + 10k` minutes (1 <= k <= 48) not
   * past sunset at which the venue is shaded, every earlier step being lit.
   */
  lemma ShadesAtIsSunsetOrFirstShadedStep(sky: Sky, x: real, z: real)
    ensures var r := ShadesAt(sky, x, z);
      r == sky.sunset ||
      exists k :: 1 <= k <= 48 && r == Valid(SunnyStep(sky, k)) &&
        !After(SunnyStep(sky, k), sky.sunset) && !LitAt(sky, x, z, SunnyStep(sky, k)) &&
        forall j :: 1 <= j < k ==> LitAt(sky, x, z, SunnyStep(sky, j))
  {
    ShadeScanCases(sky, x, z, 1);
  }

  // ---------------------------------------------------------------------------
  // The shaded branch

  lemma {:induction false} SunScanFindsSun(sky: Sky, x: real, z: real, k0: int, k: int)
    requires 1 <= k0 <= k <= 32
    requires SunStepQualifies(sky, x, z, k)
    requires forall j :: k0 <= j < k ==> !SunStepQualifies(sky, x, z, j)
    ensures SunScan(sky, x, z, ShadedStepMinutes * k0) == Some(ShadedStep(sky, k))
    decreases k - k0
  {
    if k0 < k {
      assert !SunStepQualifies(sky, x, z, k0);
      assert !After(ShadedStep(sky, k0), sky.sunset);
      assert !LitAt(sky, x, z, ShadedStep(sky, k0));
      assert ShadedStepMinutes * k0 + ShadedStepMinutes == ShadedStepMinutes * (k0 + 1);
      SunScanFindsSun(sky, x, z, k0 + 1, k);
    }
  }

  lemma {:induction false} SunScanFound(sky: Sky, x: real, z: real, k0: int)
    requires 1 <= k0 <= 33
    requires SunScan(sky, x, z, ShadedStepMinutes * k0).Some?
    ensures exists k :: k0 <= k <= 32 && SunScan(sky, x, z, ShadedStepMinutes * k0) == Some(ShadedStep(sky, k)) &&
                        SunStepQualifies(sky, x, z, k) && forall j :: k0 <= j < k ==> !SunStepQualifies(sky, x, z, j)
    decreases 33 - k0
  {
    var r := SunScan(sky, x, z, ShadedStepMinutes * k0);
    if !SunStepQualifies(sky, x, z, k0) {
      assert ShadedStepMinutes * k0 + ShadedStepMinutes == ShadedStepMinutes * (k0 + 1);
      SunScanFound(sky, x, z, k0 + 1);
    } else {
      assert r == Some(ShadedStep(sky, k0));
    }
  }

  lemma {:induction false} SunScanNone(sky: Sky, x: real, z: real, k0: int)
    requires 1 <= k0 <= 33
    ensures SunScan(sky, x, z, ShadedStepMinutes * k0).None? <==>
      forall k :: k0 <= k <= 32 ==> !SunStepQualifies(sky, x, z, k)
    decreases 33 - k0
  {
    if k0 <= 32 {
      var t := ShadedStep(sky, k0);
      if After(t, sky.sunset) {
        forall k | k0 <= k <= 32 ensures !SunStepQualifies(sky, x, z, k) {
          assert After(ShadedStep(sky, k), sky.sunset);
        }
      } else if LitAt(sky, x, z, t) {
        assert SunStepQualifies(sky, x, z, k0);
      } else {
        assert ShadedStepMinutes * k0 + ShadedStepMinutes == ShadedStepMinutes * (k0 + 1);
        SunScanNone(sky, x, z, k0 + 1);
      }
    }
  }

  /**
   * `sunnyAt` is `now + 15k` minutes exactly when step `k` (1 <= k <= 32) is
   * the earliest step not past sunset at which the sun is up and the venue lit.
   */
  lemma SunnyAtIsEarliestLitStep(sky: Sky, x: real, z: real, k: int)
    requires 1 <= k <= 32
    ensures SunnyAt(sky, x, z) == Some(ShadedStep(sky, k)) <==>
      SunStepQualifies(sky, x, z, k) && forall j :: 1 <= j < k ==> !SunStepQualifies(sky, x, z, j)
  {
    if SunStepQualifies(sky, x, z, k) && forall j :: 1 <= j < k ==> !SunStepQualifies(sky, x, z, j) {
      SunScanFindsSun(sky, x, z, 1, k);
    }
    if SunnyAt(sky, x, z) == Some(ShadedStep(sky, k)) {
      SunScanFound(sky, x, z, 1);
    }
  }

  /** No `sunnyAt` is predicted exactly when no step up to the horizon or sunset has the venue lit. */
  lemma SunnyAtNoneIffNeverLit(sky: Sky, x: real, z: real)
    ensures SunnyAt(sky, x, z).None? <==> forall k :: 1 <= k <= 32 ==> !SunStepQualifies(sky, x, z, k)
  {
    SunScanNone(sky, x, z, 1);
  }

  /** At night (the sun down at every step) a shaded venue gets no `sunnyAt`. */
  lemma NightGivesNoSunnyAt(sky: Sky, x: real, z: real)
    requires forall k :: 1 <= k <= 32 ==> !sky.sunUp(ShadedStep(sky, k))
    ensures SunnyAt(sky, x, z).None?
  {
    SunScanNone(sky, x, z, 1);
  }
}
