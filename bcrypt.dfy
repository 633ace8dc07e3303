/**
 * The two bcrypt operations the application calls. Their algorithm, the salt
 * generator and the work factor are foreign to this model: callers pass the
 * functions in, and nothing is assumed about them beyond what a lemma states
 * in its own requires clause.
 */
module Bcrypt {

  /** `bcrypt.hashSync(plaintext, salt)`: the stored digest. */
  type HashSync = (string, string) -> string

  /** `bcrypt.compareSync(plaintext, digest)`: whether the plaintext matches. */
  type CompareSync = (string, string) -> bool
}
