/**
 * Release versions and their order.  `packaging.version.parse` is an oracle
 * `string -> Option<Version>` (None: the string is not a valid version); the
 * parsed value is a release triple compared lexicographically.
 */
module Versions {

  datatype Version = Version(major: nat, minor: nat, patch: nat)

  /** `a <= b` in release order. */
  predicate Le(a: Version, b: Version)
  {
    || a.major < b.major
    || (a.major == b.major && a.minor < b.minor)
    || (a.major == b.major && a.minor == b.minor && a.patch <= b.patch)
  }

  /** `a < b` in release order. */
  predicate Lt(a: Version, b: Version)
  {
    !Le(b, a)
  }

  /** Release order is a total order: two versions comparing equal are equal. */
  lemma LeIsTotalOrder()
    ensures forall a, b :: Le(a, b) || Le(b, a)
    ensures forall a, b, c :: Le(a, b) && Le(b, c) ==> Le(a, c)
    ensures forall a, b :: Le(a, b) && Le(b, a) ==> a == b
    ensures forall a, b :: Lt(a, b) <==> Le(a, b) && a != b
  {
  }
}
