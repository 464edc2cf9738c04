/** The curve constants of section 2.7.1 of SEC 2. */
module Secp256k1 {
  /** The order n of the generator. */
  const N: int := 0xFFFFFFFFFFFFFFFFFFFFFFFFFFFFFFFEBAAEDCE6AF48A03BBFD25E8CD0364141

  /** The field prime p = 2^256 - 0x1000003D1. */
  const FIELD_P: int := 0xFFFFFFFFFFFFFFFFFFFFFFFFFFFFFFFFFFFFFFFFFFFFFFFFFFFFFFFEFFFFFC2F

  const P_MINUS_ORDER: int := 0x14551231950B75FC4402DA1722FC9BAEE

  /** The factor by which the endomorphism multiplies. */
  const LAMBDA: int := 0x5363AD4CC05C30E0A5261C028812645A122E22EA20816678DF02967C1B23BD72
}
