/** Bytes, as the C++ `char` of a buffer or a string. */
module Octets {
  type octet = c: char | c as int < 256
  type Bytes = seq<octet>

  datatype Option<+T> = None | Some(value: T)

  function Min(a: nat, b: nat): nat {
    if a < b then a else b
  }
}
