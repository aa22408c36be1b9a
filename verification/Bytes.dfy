/** Bytes and 32-bit words, as numbers in their range. */
module Bytes {

  type byte = x: nat | x < 256

  type word = x: nat | x < 0x1_0000_0000

  /** A hexadecimal digit, in lower case. */
  function HexDigit(n: nat): char
    requires n < 16
  {
    if n < 10 then '0' + n as char else 'a' + (n - 10) as char
  }
}
