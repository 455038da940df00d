/** Shared vocabulary. */
module Prelude {

  datatype Option<+T> = None | Some(value: T)

  /** JSON payloads are opaque to every component, so their text stands for them. */
  type Json = string

  /** A time that is not before the clock, if the clock has been read. */
  predicate Later(clock: Option<int>, now: int) {
    clock.Some? ==> clock.value <= now
  }

  predicate ColonFree(s: string) {
    ':' !in s
  }
}
