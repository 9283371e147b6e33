/** The sun-position brightness policy (src/brightness.rs): the day is split at
    sunrise and sunset, and only the stretch between them gets `max`. */
module BrightnessPolicy {
  import opened Common
  import opened Configuration
  import opened Sun

  /** Sunrise lies at least one whole second ahead of `now`. */
  predicate SunriseAhead(info: SunInfo) {
    NumSeconds(info.sunrise - info.now) > 0
  }

  /** Sunset lies at least one whole second ahead of `now`. */
  predicate SunsetAhead(info: SunInfo) {
    NumSeconds(info.sunset - info.now) > 0
  }

  /** The inputs for which `calculate` does not reach its `unreachable!()` arm:
      sunrise still ahead while sunset is not. */
  predicate InDomain(info: SunInfo) {
    !(SunriseAhead(info) && !SunsetAhead(info))
  }

  /** `brightness::calculate`. */
  function Calculate(brightness: Brightness, info: SunInfo): (target: Byte)
    requires InDomain(info)
    ensures target == brightness.min || target == brightness.max
  {
    if SunriseAhead(info) then
      // region 1; sunrise ahead with sunset behind is excluded by InDomain
      brightness.min
    else if SunsetAhead(info) then
      // region 2
      brightness.max
    else
      // region 3
      brightness.min
  }

  /** A day whose sunrise is not after its sunset never reaches the
      unreachable arm, so `Calculate` is total on such days. */
  lemma OrderedDayInDomain(info: SunInfo)
    requires info.sunrise <= info.sunset
    ensures InDomain(info)
  {
  }

  /** Exactly the inputs whose sunset is at least a second ahead whenever their
      sunrise is are in the domain. */
  lemma InDomainCharacterised(info: SunInfo)
    ensures InDomain(info) <==>
              (info.now + NanosPerSecond <= info.sunrise ==> info.now + NanosPerSecond <= info.sunset)
  {
  }

  /** Region 1: at least one second before sunrise the target is `min`. */
  lemma BeforeSunrise(brightness: Brightness, info: SunInfo)
    requires info.sunrise <= info.sunset
    requires info.now + NanosPerSecond <= info.sunrise
    ensures InDomain(info) && Calculate(brightness, info) == brightness.min
  {
  }

  /** Region 2: from (just under a second before) sunrise until a second
      before sunset the target is `max`. */
  lemma Daytime(brightness: Brightness, info: SunInfo)
    requires info.sunrise < info.now + NanosPerSecond <= info.sunset
    ensures InDomain(info) && Calculate(brightness, info) == brightness.max
  {
  }

  /** Region 3: from (just under a second before) sunset on the target is `min`. */
  lemma AfterSunset(brightness: Brightness, info: SunInfo)
    requires info.sunrise <= info.sunset
    requires info.sunset < info.now + NanosPerSecond
    ensures InDomain(info) && Calculate(brightness, info) == brightness.min
  {
  }

  /** When the bounds differ, `max` is chosen exactly in region 2. */
  lemma MaxExactlyInDaytime(brightness: Brightness, info: SunInfo)
    requires InDomain(info)
    requires brightness.min != brightness.max
    ensures Calculate(brightness, info) == brightness.max <==>
              info.sunrise < info.now + NanosPerSecond <= info.sunset
  {
  }

  /** Differences are truncated to whole seconds, so a `now` less than one
      second before sunrise already counts as daytime. */
  lemma SubSecondBeforeSunriseIsDaytime(brightness: Brightness, info: SunInfo)
    requires info.sunrise - NanosPerSecond < info.now < info.sunrise
    requires info.sunrise + NanosPerSecond <= info.sunset
    ensures InDomain(info) && Calculate(brightness, info) == brightness.max
  {
  }

  /** The target depends on the bounds only: `step` and `num` play no part. */
  lemma IgnoresStepAndNum(brightness: Brightness, info: SunInfo, step: Byte, num: Byte)
    requires InDomain(info)
    ensures Calculate(brightness.(step := step, num := num), info) == Calculate(brightness, info)
  {
  }
}
