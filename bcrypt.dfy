/**
 * The password hasher, idealised. bcrypt is foreign code, so a digest is a
 * symbolic term: it records the cost factor, the salt drawn by the library and
 * the preimage, and the only way the rest of the model looks inside it is
 * Compare. A digest is never a string, so no stored password can be plaintext.
 */
module Bcrypt {
  import opened Wrappers

  /** The cost factor both createUser and resetPassword pass to bcrypt.hash. */
  const Cost: nat := 11

  datatype Digest = Digest(cost: nat, salt: nat, preimage: string)

  /** What the bcrypt.hash callback receives: a digest (from a salt) or an error. */
  datatype HashOutcome = Hashed(salt: nat) | HashFailed(message: string)

  /** bcrypt.hash(plain, cost) once the library has drawn `salt`. */
  function Hash(plain: string, cost: nat, salt: nat): (d: Digest)
    ensures d.cost == cost && d.salt == salt
    ensures Compare(plain, Some(d))
  {
    Digest(cost, salt, plain)
  }

  /**
   * bcrypt.compare(plain, stored || ""). A missing stored password is compared
   * against the empty string, which is not a digest, so the answer is false.
   */
  function Compare(plain: string, stored: Option<Digest>): (ok: bool)
    ensures stored.None? ==> !ok
  {
    stored.Some? && stored.value.preimage == plain
  }

  /** A digest of one password never matches another password. */
  lemma CompareRejectsOther(plain: string, other: string, cost: nat, salt: nat)
    requires plain != other
    ensures !Compare(other, Some(Hash(plain, cost, salt)))
  {
  }
}
