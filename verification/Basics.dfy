/** Vocabulary shared by the components: optional values, results and bytes. */
module Basics {

  datatype Option<+T> = None | Some(value: T)

  datatype Result<+T, +E> = Ok(value: T) | Err(error: E)

  type Byte = b: int | 0 <= b < 256

  type Bytes = seq<Byte>

  /** A SHA-256 text field. Digests are taken to be collision free, so a well-formed one
      is represented by the bytes it was computed from; anything that does not look like
      a digest is `Malformed`. */
  datatype Digest = Sha256(data: Bytes) | Malformed

  function Min(a: int, b: int): int {
    if a < b then a else b
  }
}
