/**
 * The fingerprint the wrapper takes of the map: `crc32fast::hash`, the
 * CRC-32 of ISO-HDLC / IEEE 802.3 (reflected polynomial 0xEDB88320, initial
 * value and final XOR 0xFFFFFFFF).  The crate computes it with tables and
 * SIMD; here it is written bit by bit, which defines the same function.
 */
module Crc32 {
  import opened Types

  const Polynomial: bv32 := 0xEDB8_8320

  /** One bit of the reflected shift register. */
  function Shift(crc: bv32): bv32 {
    if crc & 1 == 1 then (crc >> 1) ^ Polynomial else crc >> 1
  }

  /** `k` bits of the shift register. */
  function ShiftBits(crc: bv32, k: nat): bv32
    decreases k
  {
    if k == 0 then crc else ShiftBits(Shift(crc), k - 1)
  }

  /** Feeds `data` into the register, one byte (eight bits) at a time. */
  function Update(crc: bv32, data: seq<u8>): bv32
    decreases |data|
  {
    if data == [] then crc
    else Update(ShiftBits(crc ^ (data[0] as int as bv32), 8), data[1..])
  }

  /** `crc32fast::hash(data)`: deterministic, since it is a function of `data` alone. */
  function Hash(data: seq<u8>): bv32 {
    Update(0xFFFF_FFFF, data) ^ 0xFFFF_FFFF
  }
}
