/** The parts of Kotlin's `Double` the calculator calls into. Values are reals;
    the library routines whose IEEE behaviour is not modelled (`toDoubleOrNull`,
    `Double.toString`, `sqrt`, `pow`, `%`, `toLong`) are fields of a
    `Platform` record and so stay uninterpreted: every property proved holds
    whatever they compute. */
module Doubles {
  import opened Wrappers

  const LONG_MIN: int := -0x8000_0000_0000_0000
  const LONG_MAX: int := 0x7FFF_FFFF_FFFF_FFFF

  /** Kotlin's 64-bit `Long`. */
  type Long = n: int | LONG_MIN <= n <= LONG_MAX

  datatype Platform = Platform(
    parse: string -> Option<real>,   // String.toDoubleOrNull()
    show: real -> string,            // Double.toString()
    sqrt: real -> real,              // kotlin.math.sqrt
    pow: (real, real) -> real,       // Double.pow / Math.pow
    rem: (real, real) -> real,       // Double % Double
    toLong: real -> Long)            // Double.toLong()

  /** `value % 1 == 0.0`: the value has no fractional part. */
  predicate IsIntegral(p: Platform, v: real) {
    p.rem(v, 1.0) == 0.0
  }
}
