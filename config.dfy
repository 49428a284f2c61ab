/** Build-time configuration and the two enumerations every component shares
    (config.example.h). Only what the modelled core reads is mirrored here. */
module Config {

  /** Number of pixels on the strip (`NUM_LEDS`). */
  const NUM_LEDS: nat := 60

  /** Weather as the lamp understands it (`enum WeatherCondition`). */
  datatype WeatherCondition = Clear | Cloudy | PartlyCloudy | Rain | Storm | Snow | Fog | Unknown

  /** Daylight period (`enum TimeOfDay`), in the order of a day. */
  datatype TimeOfDay = Night | Dawn | Sunrise | Day | Sunset | Dusk
}
