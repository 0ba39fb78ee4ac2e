/** Semantic versions (Semantic Versioning 2.0.0) as the tag generator sees them:
    a numeric triple, the pre-release identifiers and the build metadata
    identifiers. Parsing and printing belong to the semver crate and are not
    part of this model; only the comparisons the tag generator performs are. */
module SemVer {

  datatype Version = Version(major: nat, minor: nat, patch: nat, pre: seq<string>, build: seq<string>)

  /** The version `major.minor.patch`, with neither pre-release nor build metadata. */
  function Release(major: nat, minor: nat, patch: nat): Version
  {
    Version(major, minor, patch, [], [])
  }

  /** `0.1.0`: versions below it get no abbreviated tag. */
  const FirstMinorRelease: Version := Release(0, 1, 0)

  /** `1.0.0`: versions below it get no bare major tag. */
  const FirstMajorRelease: Version := Release(1, 0, 0)

  /** A version whose pre-release is empty. */
  predicate IsRelease(v: Version)
  {
    v.pre == []
  }

  /** The version with its build metadata removed. */
  function StripBuild(v: Version): Version
  {
    v.(build := [])
  }

  predicate SameTriple(a: Version, b: Version)
  {
    a.major == b.major && a.minor == b.minor && a.patch == b.patch
  }

  /** `a.major.minor.patch` is below `b.major.minor.patch`, lexicographically. */
  predicate TripleLt(a: Version, b: Version)
  {
    || a.major < b.major
    || (a.major == b.major && a.minor < b.minor)
    || (a.major == b.major && a.minor == b.minor && a.patch < b.patch)
  }

  /** `a <= b` in the semver crate's total order on versions, for the one shape
      of `b` the tag generator compares against: a release without build
      metadata. The crate orders by the numeric triple, then by pre-release (an
      empty pre-release above every non-empty one), then by build metadata
      (empty metadata below every non-empty one). */
  predicate AtMost(a: Version, b: Version)
    requires IsRelease(b) && b.build == []
  {
    TripleLt(a, b) || (SameTriple(a, b) && (!IsRelease(a) || a.build == []))
  }

  /** `a <= b` fails whenever `a`'s numeric triple is above `b`'s; it is
      reflexive; and between two releases without build metadata it is exactly
      the order of the numeric triples, and antisymmetric. */
  lemma AtMostMeaning(a: Version, b: Version)
    requires IsRelease(b) && b.build == []
    ensures TripleLt(b, a) ==> !AtMost(a, b)
    ensures IsRelease(a) && a.build == [] ==> (AtMost(a, b) <==> !TripleLt(b, a))
    ensures AtMost(b, b)
    ensures IsRelease(a) && a.build == [] && AtMost(a, b) && !TripleLt(a, b) ==> a == b
  {
  }

  /** Build metadata on `a` is the only thing that can put a release with
      `b`'s numeric triple above `b`. */
  lemma BuildMetadataOrdersAbove(a: Version, b: Version)
    requires IsRelease(b) && b.build == []
    requires IsRelease(a) && SameTriple(a, b)
    ensures AtMost(a, b) <==> a.build == []
    ensures AtMost(StripBuild(a), b)
  {
  }

  /** The two floors, compared in the crate's order, reduce to conditions on
      the major and minor numbers. */
  lemma FloorsMeaning(v: Version)
    requires IsRelease(v) && v.build == []
    ensures AtMost(FirstMinorRelease, v) <==> !(v.major == 0 && v.minor == 0)
    ensures AtMost(FirstMajorRelease, v) <==> v.major >= 1
  {
  }
}
