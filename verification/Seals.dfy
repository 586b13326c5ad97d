/** Sealed definitions.  A predicate behind a seal says what it says only to a proof that asserts
    Opened of that seal; elsewhere it is a name that is passed along, which keeps arithmetic and
    quantifiers out of proofs that do not need them. */
module Seals {
  datatype Seal =
    | Fit | Encoder | Scales | Row | Tiles | Matrix | Chunk | Conversion
    | Region | Checksum | Stream | Plan | File | Entry | Field
    | Decoding | Layers | Reply | Delivery | Law

  /** Always true. */
  ghost predicate Opened(seal: Seal) {
    true
  }

  /** A product of real numbers. */
  ghost predicate IsProduct(p: real, a: real, b: real) {
    forall seal {:trigger Opened(seal)} | Opened(seal) && seal == Law :: p == a * b
  }
}
