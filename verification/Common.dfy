/** Values shared by every module. */
module Common {
  newtype byte = x: int | 0 <= x < 256
  type Bytes = seq<byte>

  datatype Option<+T> = None | Some(value: T)

  /** SHA-256 as an injective function: a digest determines the bytes it was computed from. */
  datatype Digest = Sha256(preimage: Bytes)

  /** str.isspace */
  predicate IsWhite(c: char) {
    var v := c as int;
    9 <= v <= 13 || 28 <= v <= 32 || v == 0x85 || v == 0xA0 || v == 0x1680 || 0x2000 <= v <= 0x200A
    || v == 0x2028 || v == 0x2029 || v == 0x202F || v == 0x205F || v == 0x3000
  }
}
