/** Go's `time.Time` as an opaque instant. The core never computes a time; it
    only copies timestamps or leaves them at the zero value. */
module Timestamps {

  datatype Time = ZeroTime | Instant(nanos: int)
}
