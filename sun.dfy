/** Instants and time differences as chrono represents them: an instant is a
    whole number of nanoseconds, and a difference of two instants is exact. */
module Sun {

  const NanosPerSecond: int := 1_000_000_000

  /** Today's local time, sunrise and sunset (src/suninfo.rs), in nanoseconds. */
  datatype SunInfo = SunInfo(now: int, sunrise: int, sunset: int)

  /** `TimeDelta::num_seconds`: whole seconds of a difference, rounded toward zero. */
  function NumSeconds(delta: int): (seconds: int)
    ensures delta >= 0 ==> 0 <= seconds && seconds * NanosPerSecond <= delta < (seconds + 1) * NanosPerSecond
    ensures delta < 0 ==> seconds <= 0 && (seconds - 1) * NanosPerSecond < delta <= seconds * NanosPerSecond
  {
    if delta >= 0 then delta / NanosPerSecond else -((-delta) / NanosPerSecond)
  }

  /** A difference has a positive number of whole seconds exactly when it is at
      least one full second. */
  lemma PositiveSeconds(delta: int)
    ensures NumSeconds(delta) > 0 <==> delta >= NanosPerSecond
  {
  }
}
