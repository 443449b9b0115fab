/** Shared vocabulary: results, bytes and digests. */
module Basics {

  datatype Option<+T> = None | Some(value: T)

  /** The error classes of src/contracts/errors.js that the modelled code throws. */
  datatype ErrorCode = UsageError | SafetyRefusal | InfraError | VerificationFailed | NotFound

  datatype Result<+T> = Ok(value: T) | Err(error: ErrorCode)

  newtype byte = x: int | 0 <= x < 0x100

  type Bytes = seq<byte>

  /** SHA-256 as an injective function: a digest is determined by, and determines, what it was taken of. */
  datatype Sha256<T> = Sha256(of: T)

  function Lookup<K, V>(m: map<K, V>, k: K): Option<V> {
    if k in m then Some(m[k]) else None
  }

  lemma SameLookups<K, V>(left: map<K, V>, right: map<K, V>)
    requires forall k :: Lookup(left, k) == Lookup(right, k)
    ensures left == right
  {
    forall k
      ensures k in left <==> k in right
      ensures k in left && k in right ==> left[k] == right[k]
    {
      assert Lookup(left, k) == Lookup(right, k);
    }
  }
}
