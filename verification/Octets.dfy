/** Bytes, and the number a run of them denotes. */
module Octets {

  type byte = x: int | 0 <= x < 256

  /** Unsigned, most significant byte first. */
  function Number(s: seq<byte>): nat {
    if s == [] then 0 else Number(s[..|s| - 1]) * 0x100 + s[|s| - 1]
  }
}
