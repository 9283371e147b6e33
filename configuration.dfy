/** The part of the configuration file the core reads (src/config.rs). */
module Configuration {
  import opened Common

  /** `brightness` section: bounds, the (unused) step and the device channel. */
  datatype Brightness = Brightness(min: Byte, max: Byte, step: Byte, num: Byte)

  /** `clock.server` and `brightness`; coordinates, timezone and date format
      only feed the sun computation, which is an input of this model. */
  datatype Config = Config(server: string, brightness: Brightness)
}
