/** Names that several components share. */
module Common {

  datatype Option<T> = None | Some(value: T)

  type Id = nat
  type Digest = nat
  type Bytes = seq<bv8>
  type Hash = Bytes -> Digest
}
