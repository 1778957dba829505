/** The scalar types of the protocol and its build-time parameters. */
module Types {
  type View = int    // -1 where the source uses a negative view for "none"
  type Seqno = int
  type Digest = int  // the digest of a message; hashes are uninterpreted and never null

  const NULL_DIGEST: Digest := 0

  /** The digest of a pre-prepare without requests, which stands for a null request. */
  const NULL_REQUEST: Digest := 1

  /** Default values of src/parameters.h. */
  const MAX_OUT: nat := 256
  const CHECKPOINT_INTERVAL: nat := 128

  function Max(a: int, b: int): int {
    if a >= b then a else b
  }
}
