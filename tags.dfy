/** The tag generator of src/lib.rs: for a candidate version, the versions
    already published and a list of alias names ("latest", "stable", ...), the
    ordered list of tags to attach to the candidate. */
module SemverTags {
  import opened SemVer

  /** A tag. `Full` is the candidate printed as `major.minor.patch[-pre]`;
      `MinorTag` prints as `major.minor`, `MajorTag` as `major`; `Alias` is a
      caller-supplied literal. */
  datatype Tag = Full(version: Version) | MinorTag(major: nat, minor: nat) | MajorTag(major: nat) | Alias(name: string)

  /** Position class of a tag in the output: full, then minor, then major, then aliases. */
  function Rank(t: Tag): nat
  {
    match t
    case Full(_) => 0
    case MinorTag(_, _) => 1
    case MajorTag(_) => 2
    case Alias(_) => 3
  }

  /** The alias names as tags, all of them and in the given order. */
  function AliasTags(names: seq<string>): (r: seq<Tag>)
    ensures |r| == |names|
    ensures forall i :: 0 <= i < |names| ==> r[i] == Alias(names[i])
  {
    if names == [] then [] else [Alias(names[0])] + AliasTags(names[1..])
  }

  // ---------------------------------------------------------------------------
  // The iterator pipeline of the source: `filter`, `any` and `all`.
  // ---------------------------------------------------------------------------

  /** The versions without a pre-release, in their original order. */
  function Released(vs: seq<Version>): (r: seq<Version>)
    ensures forall v :: v in r <==> v in vs && IsRelease(v)
    ensures |r| <= |vs|
  {
    if vs == [] then []
    else if IsRelease(vs[0]) then [vs[0]] + Released(vs[1..])
    else Released(vs[1..])
  }

  /** Filtering keeps the order: the filter of a concatenation is the
      concatenation of the filtered parts. */
  lemma {:induction false} ReleasedOfConcat(a: seq<Version>, b: seq<Version>)
    ensures Released(a + b) == Released(a) + Released(b)
  {
    if a == [] {
      assert a + b == b;
    } else {
      assert (a + b)[1..] == a[1..] + b;
      ReleasedOfConcat(a[1..], b);
    }
  }

  /** Some element satisfies `p`. */
  function Any(vs: seq<Version>, p: Version -> bool): (r: bool)
    ensures r <==> exists i :: 0 <= i < |vs| && p(vs[i])
  {
    if vs == [] then false else p(vs[0]) || Any(vs[1..], p)
  }

  /** Every element satisfies `p`. */
  function All(vs: seq<Version>, p: Version -> bool): (r: bool)
    ensures r <==> forall i :: 0 <= i < |vs| ==> p(vs[i])
  {
    if vs == [] then true else p(vs[0]) && All(vs[1..], p)
  }

  // ---------------------------------------------------------------------------
  // The two version requirements the source builds from the candidate `c`,
  // evaluated on a release `e` as the semver crate evaluates comparators: each
  // comparator decides on the first numeric field where `e` differs from it, a
  // field the comparator leaves out answers "no match", and equal triples fall
  // through to the pre-release comparison, which two empty pre-releases fail.
  // ---------------------------------------------------------------------------

  /** `>c.major.c.minor.c.patch, <c.major.(c.minor+1)`. */
  predicate MatchesMinorRequirement(e: Version, c: Version)
  {
    TripleLt(c, e) && (e.major < c.major || (e.major == c.major && e.minor < c.minor + 1))
  }

  /** `>c.major.c.minor.c.patch, <(c.major+1)`. */
  predicate MatchesMajorRequirement(e: Version, c: Version)
  {
    TripleLt(c, e) && e.major < c.major + 1
  }

  /** The minor requirement holds of exactly the later patches of `c`'s minor line. */
  lemma MinorRequirementMeaning(e: Version, c: Version)
    ensures MatchesMinorRequirement(e, c) <==> e.major == c.major && e.minor == c.minor && e.patch > c.patch
  {
  }

  /** The major requirement holds of exactly the versions of `c`'s major line above `c`. */
  lemma MajorRequirementMeaning(e: Version, c: Version)
    ensures MatchesMajorRequirement(e, c) <==> e.major == c.major && TripleLt(c, e)
  {
  }

  // ---------------------------------------------------------------------------
  // The tags due to a candidate, stated on the unfiltered existing versions.
  // ---------------------------------------------------------------------------

  /** A published release of `v`'s minor line has a higher patch number. */
  predicate NewerPatchPublished(v: Version, existing: seq<Version>)
  {
    exists e :: e in existing && IsRelease(e) && e.major == v.major && e.minor == v.minor && e.patch > v.patch
  }

  /** A published release of `v`'s major line is above `v`. */
  predicate NewerInMajorPublished(v: Version, existing: seq<Version>)
  {
    exists e :: e in existing && IsRelease(e) && e.major == v.major && TripleLt(v, e)
  }

  /** Every published release is at most `v` in the crate's order. */
  predicate IsLatest(v: Version, existing: seq<Version>)
    requires IsRelease(v) && v.build == []
  {
    forall e :: e in existing && IsRelease(e) ==> AtMost(e, v)
  }

  /** The tags a release `v` gets from its own numbers: its full tag, then
      `major.minor` unless it is 0.0.x or a later patch of its minor line is
      published, then `major` unless it is 0.x.y or a later version of its
      major line is published. */
  function VersionTags(v: Version, existing: seq<Version>): (r: seq<Tag>)
    ensures 1 <= |r| <= 3 && r[0] == Full(v)
    ensures forall t :: t in r ==> !t.Alias?
  {
    [Full(v)]
    + (if !(v.major == 0 && v.minor == 0) && !NewerPatchPublished(v, existing)
       then [MinorTag(v.major, v.minor)] else [])
    + (if v.major >= 1 && !NewerInMajorPublished(v, existing)
       then [MajorTag(v.major)] else [])
  }

  /** The tags due to `candidate`: its full tag only, for a pre-release; for
      a release, its version tags followed by the aliases if no published
      release is above it. */
  function DueTags(candidate: Version, existing: seq<Version>, aliases: seq<string>): seq<Tag>
  {
    var v := StripBuild(candidate);
    if !IsRelease(v) then [Full(v)]
    else VersionTags(v, existing) + (if IsLatest(v, existing) then AliasTags(aliases) else [])
  }

  // ---------------------------------------------------------------------------
  // The generator itself.
  // ---------------------------------------------------------------------------

  /** Builds the tag list step by step: the full tag, an early return for a
      pre-release, then the filtered existing versions decide the minor tag,
      the major tag and the aliases. */
  method GenSemverTags(forVersion: Version, existingVersions: seq<Version>, latestTags: seq<string>)
    returns (tags: seq<Tag>)
    ensures tags == DueTags(forVersion, existingVersions, latestTags)
  {
    var v := StripBuild(forVersion);
    tags := [Full(v)];
    if !IsRelease(v) {
      return;
    }

    var released := Released(existingVersions);
    FloorsMeaning(v);
    if AtMost(FirstMinorRelease, v) {
      var superseded := Any(released, e => MatchesMinorRequirement(e, v));
      MinorCheckDecidesNewerPatch(v, existingVersions);
      if !superseded {
        tags := tags + [MinorTag(v.major, v.minor)];
      }
      if AtMost(FirstMajorRelease, v) {
        var overtaken := Any(released, e => MatchesMajorRequirement(e, v));
        MajorCheckDecidesNewerInMajor(v, existingVersions);
        if !overtaken {
          tags := tags + [MajorTag(v.major)];
        }
      }
    }

    assert tags == VersionTags(v, existingVersions);

    var latest := All(released, e => AtMost(e, v));
    LatestCheckDecidesIsLatest(v, existingVersions);
    if latest {
      tags := tags + AliasTags(latestTags);
    }
  }

  /** The `any` over the filtered versions with the minor requirement is
      true exactly when a later patch of `v`'s minor line is published. */
  lemma MinorCheckDecidesNewerPatch(v: Version, existing: seq<Version>)
    ensures Any(Released(existing), e => MatchesMinorRequirement(e, v)) <==> NewerPatchPublished(v, existing)
  {
  }

  /** The `any` over the filtered versions with the major requirement is
      true exactly when a later version of `v`'s major line is published. */
  lemma MajorCheckDecidesNewerInMajor(v: Version, existing: seq<Version>)
    ensures Any(Released(existing), e => MatchesMajorRequirement(e, v)) <==> NewerInMajorPublished(v, existing)
  {
  }

  /** The `all` over the filtered versions is true exactly when every
      published release is at most `v`. */
  lemma LatestCheckDecidesIsLatest(v: Version, existing: seq<Version>)
    requires IsRelease(v) && v.build == []
    ensures All(Released(existing), e => AtMost(e, v)) <==> IsLatest(v, existing)
  {
  }

  // ---------------------------------------------------------------------------
  // Properties of the tags due to a candidate.
  // ---------------------------------------------------------------------------

  /** The result is never empty; its first tag is the candidate's full tag
      without build metadata (spelled out field by field: the printed full tag
      has the candidate's numbers and pre-release and no `+build` part), no
      other tag is a full tag, and there are at most two abbreviated tags
      besides the aliases. */
  lemma FullTagFirst(c: Version, ex: seq<Version>, a: seq<string>)
    ensures var r := DueTags(c, ex, a);
      && |r| >= 1
      && r[0] == Full(StripBuild(c))
      && r[0].version.build == [] && SameTriple(r[0].version, c) && r[0].version.pre == c.pre
      && (forall i :: 1 <= i < |r| ==> !r[i].Full?)
      && |r| <= 3 + |a|
  {
  }

  /** A pre-release candidate gets its full tag and nothing else. */
  lemma PreReleaseGetsOnlyFullTag(c: Version, ex: seq<Version>, a: seq<string>)
    requires !IsRelease(c)
    ensures DueTags(c, ex, a) == [Full(StripBuild(c))]
  {
  }

  /** Build metadata on the candidate changes nothing. */
  lemma CandidateBuildIgnored(c: Version, b: seq<string>, ex: seq<Version>, a: seq<string>)
    ensures DueTags(c.(build := b), ex, a) == DueTags(c, ex, a)
  {
  }

  /** The result depends on the existing versions only through the set of
      published releases among them: order, duplicates and pre-releases do
      not matter. */
  lemma SameReleasesSameTags(c: Version, ex1: seq<Version>, ex2: seq<Version>, a: seq<string>)
    requires forall e :: e in ex1 && IsRelease(e) <==> e in ex2 && IsRelease(e)
    ensures DueTags(c, ex1, a) == DueTags(c, ex2, a)
  {
  }

  /** Filtering out the pre-releases first gives the same tags. */
  lemma PreReleasesFilteredOut(c: Version, ex: seq<Version>, a: seq<string>)
    ensures DueTags(c, Released(ex), a) == DueTags(c, ex, a)
  {
  }

  /** Adding a pre-release anywhere among the existing versions changes nothing. */
  lemma PreReleaseInsertionIgnored(c: Version, ex: seq<Version>, k: nat, p: Version, a: seq<string>)
    requires k <= |ex| && !IsRelease(p)
    ensures DueTags(c, ex[..k] + [p] + ex[k..], a) == DueTags(c, ex, a)
  {
  }

  /** Reordering the existing versions changes nothing. */
  lemma PermutationIgnored(c: Version, ex1: seq<Version>, ex2: seq<Version>, a: seq<string>)
    requires multiset(ex1) == multiset(ex2)
    ensures DueTags(c, ex1, a) == DueTags(c, ex2, a)
  {
    forall e ensures e in ex1 <==> e in ex2 {
      assert e in ex1 <==> e in multiset(ex1);
      assert e in ex2 <==> e in multiset(ex2);
    }
    SameReleasesSameTags(c, ex1, ex2, a);
  }

  /** Equality is not "newer": publishing the candidate itself (without build
      metadata) before tagging it changes nothing, aliases included. */
  lemma RepublishingIsIdempotent(c: Version, ex: seq<Version>, k: nat, a: seq<string>)
    requires IsRelease(c) && k <= |ex|
    ensures DueTags(c, ex[..k] + [StripBuild(c)] + ex[k..], a) == DueTags(c, ex, a)
  {
  }

  /** The `major.minor` tag is emitted exactly when the candidate is a release
      at or above 0.1.0 and no published release of its minor line has a
      higher patch; it is the only minor tag that can appear. */
  lemma MinorTagRule(c: Version, ex: seq<Version>, a: seq<string>)
    ensures var r := DueTags(c, ex, a);
      && (MinorTag(c.major, c.minor) in r <==>
           && IsRelease(c)
           && !(c.major == 0 && c.minor == 0)
           && !(exists e :: e in ex && IsRelease(e) && e.major == c.major && e.minor == c.minor && e.patch > c.patch))
      && (forall t :: t in r && t.MinorTag? ==> t == MinorTag(c.major, c.minor))
  {
  }

  /** The bare `major` tag is emitted exactly when the candidate is a release
      at or above 1.0.0 and no published release of its major line is above
      it; it is the only major tag that can appear. */
  lemma MajorTagRule(c: Version, ex: seq<Version>, a: seq<string>)
    ensures var r := DueTags(c, ex, a);
      && (MajorTag(c.major) in r <==>
           && IsRelease(c)
           && c.major >= 1
           && !(exists e :: e in ex && IsRelease(e) && e.major == c.major && TripleLt(c, e)))
      && (forall t :: t in r && t.MajorTag? ==> t == MajorTag(c.major))
  {
  }

  /** For a release candidate, the aliases are appended, all of them, in the
      given order and at the end, when every published release is at most the
      candidate in the crate's order; otherwise no alias appears. Every alias
      tag comes from the given names. */
  lemma AliasRule(c: Version, ex: seq<Version>, a: seq<string>)
    requires IsRelease(c)
    ensures var r := DueTags(c, ex, a);
      && ((forall e :: e in ex && IsRelease(e) ==> AtMost(e, StripBuild(c))) ==>
            |r| >= |a| + 1 && r[|r| - |a|..] == AliasTags(a)
            && (forall i :: 0 <= i < |r| - |a| ==> !r[i].Alias?))
      && (!(forall e :: e in ex && IsRelease(e) ==> AtMost(e, StripBuild(c))) ==>
            forall t :: t in r ==> !t.Alias?)
      && (forall t :: t in r && t.Alias? ==> t.name in a)
  {
    if forall e :: e in ex && IsRelease(e) ==> AtMost(e, StripBuild(c)) {
      assert IsLatest(StripBuild(c), ex);
    }
  }

  /** Tags come in the order full, `major.minor`, `major`, aliases, and each
      derived tag appears once. */
  lemma TagOrder(c: Version, ex: seq<Version>, a: seq<string>)
    ensures var r := DueTags(c, ex, a);
      forall i, j :: 0 <= i < j < |r| ==> Rank(r[i]) < Rank(r[j]) || (Rank(r[i]) == 3 && Rank(r[j]) == 3)
  {
  }

  /** A `major` tag never comes without the `major.minor` tag. */
  lemma MajorTagImpliesMinorTag(c: Version, ex: seq<Version>, a: seq<string>)
    ensures MajorTag(c.major) in DueTags(c, ex, a) ==> MinorTag(c.major, c.minor) in DueTags(c, ex, a)
  {
  }

  /** Aliases go only to a candidate that no published release of its own
      line has overtaken: with aliases present, a candidate at or above 0.1.0
      has its `major.minor` tag and one at or above 1.0.0 also its `major` tag. */
  lemma AliasesImplyAbbreviatedTags(c: Version, ex: seq<Version>, a: seq<string>)
    requires exists t :: t in DueTags(c, ex, a) && t.Alias?
    ensures !(c.major == 0 && c.minor == 0) ==> MinorTag(c.major, c.minor) in DueTags(c, ex, a)
    ensures c.major >= 1 ==> MajorTag(c.major) in DueTags(c, ex, a)
  {
  }

  /** Build metadata on an existing release is not ignored by the "latest"
      check: a published copy of the candidate's triple with build metadata
      ranks above the candidate and withholds the aliases, although it blocks
      neither abbreviated tag. */
  lemma ExistingBuildMetadataWithholdsAliases(c: Version, b: seq<string>, ex: seq<Version>, a: seq<string>)
    requires IsRelease(c) && b != [] && c.(build := b) in ex
    ensures forall t :: t in DueTags(c, ex, a) ==> !t.Alias?
    ensures MinorTag(c.major, c.minor) in DueTags(c, ex, a) <==> MinorTag(c.major, c.minor) in DueTags(c, ex + [StripBuild(c)], a)
    ensures MajorTag(c.major) in DueTags(c, ex, a) <==> MajorTag(c.major) in DueTags(c, ex + [StripBuild(c)], a)
  {
  }

  /** With no release published, a release candidate gets every tag its
      floors allow, followed by all aliases. */
  lemma NothingPublishedAllTags(c: Version, ex: seq<Version>, a: seq<string>)
    requires IsRelease(c)
    requires forall e :: e in ex ==> !IsRelease(e)
    ensures DueTags(c, ex, a) ==
      [Full(StripBuild(c))]
      + (if !(c.major == 0 && c.minor == 0) then [MinorTag(c.major, c.minor)] else [])
      + (if c.major >= 1 then [MajorTag(c.major)] else [])
      + AliasTags(a)
  {
  }
}
