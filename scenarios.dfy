/** The scenarios of the unit tests of src/lib.rs, stated on the tags due to a
    candidate. */
module SemverTagsScenarios {
  import opened SemVer
  import opened SemverTags

  /** `major.minor.patch-pre`. */
  function Pre(major: nat, minor: nat, patch: nat): Version
  {
    Version(major, minor, patch, ["pre"], [])
  }

  /** `major.minor.patch+build`. */
  function Built(major: nat, minor: nat, patch: nat): Version
  {
    Version(major, minor, patch, [], ["build"])
  }

  const Latest: seq<string> := ["latest"]

  /** The published versions shared by the first test. */
  const Published: seq<Version> := [
    Release(0, 0, 1), Release(0, 0, 2), Release(0, 1, 0), Release(0, 1, 1), Release(0, 2, 0),
    Release(1, 0, 0), Release(1, 0, 1), Release(1, 1, 0), Release(1, 1, 1),
    Release(2, 0, 0), Release(2, 0, 1), Release(2, 1, 0), Release(2, 1, 1)
  ]

  /** The highest published patch of each minor line (-1: none published). */
  function TopPatch(major: nat, minor: nat): int
  {
    match (major, minor)
    case (0, 0) => 2
    case (0, 1) => 1
    case (0, 2) => 0
    case (1, 0) => 1
    case (1, 1) => 1
    case (2, 0) => 1
    case (2, 1) => 1
    case _ => -1
  }

  /** The highest published minor of each major line (-1: none published). */
  function TopMinor(major: nat): int
  {
    match major
    case 0 => 2
    case 1 => 1
    case 2 => 1
    case _ => -1
  }

  /** `e` is a release at or below the top of its lines. */
  predicate WithinTops(e: Version)
  {
    IsRelease(e) && e.build == [] && e.major <= 2 && e.minor <= TopMinor(e.major) && e.patch <= TopPatch(e.major, e.minor)
  }

  /** Every published version lies at or below the top of its lines. */
  lemma PublishedBounds()
    ensures forall e :: e in Published ==> WithinTops(e)
  {
    forall i | 0 <= i < |Published| ensures WithinTops(Published[i]) {
    }
  }

  /** The three decisions against the published versions, in terms of the
      tops of the candidate's lines. */
  lemma PublishedPredicates(v: Version)
    requires IsRelease(v) && v.build == []
    ensures NewerPatchPublished(v, Published) <==> v.patch < TopPatch(v.major, v.minor)
    ensures NewerInMajorPublished(v, Published) <==>
      v.minor < TopMinor(v.major) || (v.minor == TopMinor(v.major) && v.patch < TopPatch(v.major, v.minor))
    ensures IsLatest(v, Published) <==> !TripleLt(v, Release(2, 1, 1))
  {
    PublishedBounds();
    if v.patch < TopPatch(v.major, v.minor) {
      assert Release(v.major, v.minor, TopPatch(v.major, v.minor)) in Published;
    }
    if v.minor < TopMinor(v.major) {
      var m := TopMinor(v.major) as nat;
      assert Release(v.major, m, TopPatch(v.major, m)) in Published;
    }
    if TripleLt(v, Release(2, 1, 1)) {
      assert Release(2, 1, 1) in Published;
    }
  }

  // The first test: each candidate against the shared published versions.

  lemma PublishedRow0_0_1()
    ensures DueTags(Release(0, 0, 1), Published, Latest) == [Full(Release(0, 0, 1))]
  {
    PublishedPredicates(Release(0, 0, 1));
  }

  lemma PublishedRow0_0_2()
    ensures DueTags(Release(0, 0, 2), Published, Latest) == [Full(Release(0, 0, 2))]
  {
    PublishedPredicates(Release(0, 0, 2));
  }

  lemma PublishedRow0_0_3()
    ensures DueTags(Release(0, 0, 3), Published, Latest) == [Full(Release(0, 0, 3))]
  {
    PublishedPredicates(Release(0, 0, 3));
  }

  lemma PublishedRow0_1_0()
    ensures DueTags(Release(0, 1, 0), Published, Latest) == [Full(Release(0, 1, 0))]
  {
    PublishedPredicates(Release(0, 1, 0));
  }

  lemma PublishedRow0_1_1()
    ensures DueTags(Release(0, 1, 1), Published, Latest) == [Full(Release(0, 1, 1)), MinorTag(0, 1)]
  {
    PublishedPredicates(Release(0, 1, 1));
  }

  lemma PublishedRow0_1_2()
    ensures DueTags(Release(0, 1, 2), Published, Latest) == [Full(Release(0, 1, 2)), MinorTag(0, 1)]
  {
    PublishedPredicates(Release(0, 1, 2));
  }

  lemma PublishedRow0_2_0()
    ensures DueTags(Release(0, 2, 0), Published, Latest) == [Full(Release(0, 2, 0)), MinorTag(0, 2)]
  {
    PublishedPredicates(Release(0, 2, 0));
  }

  lemma PublishedRow0_3_0()
    ensures DueTags(Release(0, 3, 0), Published, Latest) == [Full(Release(0, 3, 0)), MinorTag(0, 3)]
  {
    PublishedPredicates(Release(0, 3, 0));
  }

  lemma PublishedRow1_0_0()
    ensures DueTags(Release(1, 0, 0), Published, Latest) == [Full(Release(1, 0, 0))]
  {
    PublishedPredicates(Release(1, 0, 0));
  }

  lemma PublishedRow1_0_1()
    ensures DueTags(Release(1, 0, 1), Published, Latest) == [Full(Release(1, 0, 1)), MinorTag(1, 0)]
  {
    PublishedPredicates(Release(1, 0, 1));
  }

  lemma PublishedRow1_0_2()
    ensures DueTags(Release(1, 0, 2), Published, Latest) == [Full(Release(1, 0, 2)), MinorTag(1, 0)]
  {
    PublishedPredicates(Release(1, 0, 2));
  }

  lemma PublishedRow1_1_0()
    ensures DueTags(Release(1, 1, 0), Published, Latest) == [Full(Release(1, 1, 0))]
  {
    PublishedPredicates(Release(1, 1, 0));
  }

  lemma PublishedRow1_1_1()
    ensures DueTags(Release(1, 1, 1), Published, Latest) == [Full(Release(1, 1, 1)), MinorTag(1, 1), MajorTag(1)]
  {
    PublishedPredicates(Release(1, 1, 1));
  }

  lemma PublishedRow1_1_2()
    ensures DueTags(Release(1, 1, 2), Published, Latest) == [Full(Release(1, 1, 2)), MinorTag(1, 1), MajorTag(1)]
  {
    PublishedPredicates(Release(1, 1, 2));
  }

  lemma PublishedRow1_2_0()
    ensures DueTags(Release(1, 2, 0), Published, Latest) == [Full(Release(1, 2, 0)), MinorTag(1, 2), MajorTag(1)]
  {
    PublishedPredicates(Release(1, 2, 0));
  }

  lemma PublishedRow2_0_0()
    ensures DueTags(Release(2, 0, 0), Published, Latest) == [Full(Release(2, 0, 0))]
  {
    PublishedPredicates(Release(2, 0, 0));
  }

  lemma PublishedRow2_0_1()
    ensures DueTags(Release(2, 0, 1), Published, Latest) == [Full(Release(2, 0, 1)), MinorTag(2, 0)]
  {
    PublishedPredicates(Release(2, 0, 1));
  }

  lemma PublishedRow2_1_0()
    ensures DueTags(Release(2, 1, 0), Published, Latest) == [Full(Release(2, 1, 0))]
  {
    PublishedPredicates(Release(2, 1, 0));
  }

  lemma PublishedRow2_1_1()
    ensures DueTags(Release(2, 1, 1), Published, Latest) == [Full(Release(2, 1, 1)), MinorTag(2, 1), MajorTag(2), Alias("latest")]
  {
    PublishedPredicates(Release(2, 1, 1));
  }

  lemma PublishedRow2_1_2()
    ensures DueTags(Release(2, 1, 2), Published, Latest) == [Full(Release(2, 1, 2)), MinorTag(2, 1), MajorTag(2), Alias("latest")]
  {
    PublishedPredicates(Release(2, 1, 2));
  }

  lemma PublishedRow2_2_0()
    ensures DueTags(Release(2, 2, 0), Published, Latest) == [Full(Release(2, 2, 0)), MinorTag(2, 2), MajorTag(2), Alias("latest")]
  {
    PublishedPredicates(Release(2, 2, 0));
  }

  lemma PublishedRow3_0_0()
    ensures DueTags(Release(3, 0, 0), Published, Latest) == [Full(Release(3, 0, 0)), MinorTag(3, 0), MajorTag(3), Alias("latest")]
  {
    PublishedPredicates(Release(3, 0, 0));
  }

  // The second test: a candidate at or above every published release gets
  // "latest", equal versions included.

  lemma LatestAppliedToEqualOrNewer()
    ensures Alias("latest") in DueTags(Release(0, 0, 1), [Release(0, 0, 1)], Latest)
    ensures Alias("latest") in DueTags(Release(0, 0, 2), [Release(0, 0, 1)], Latest)
    ensures Alias("latest") in DueTags(Release(0, 1, 0), [Release(0, 1, 0)], Latest)
    ensures Alias("latest") in DueTags(Release(0, 1, 1), [Release(0, 1, 0)], Latest)
    ensures Alias("latest") in DueTags(Release(0, 2, 0), [Release(0, 2, 0)], Latest)
    ensures Alias("latest") in DueTags(Release(1, 0, 0), [Release(1, 0, 0)], Latest)
    ensures Alias("latest") in DueTags(Release(1, 0, 1), [Release(1, 0, 0)], Latest)
    ensures Alias("latest") in DueTags(Release(1, 1, 0), [Release(1, 0, 0)], Latest)
    ensures Alias("latest") in DueTags(Release(2, 0, 0), [Release(1, 0, 0)], Latest)
  {
    LatestOverOne(Release(0, 0, 1), Release(0, 0, 1));
    LatestOverOne(Release(0, 0, 2), Release(0, 0, 1));
    LatestOverOne(Release(0, 1, 0), Release(0, 1, 0));
    LatestOverOne(Release(0, 1, 1), Release(0, 1, 0));
    LatestOverOne(Release(0, 2, 0), Release(0, 2, 0));
    LatestOverOne(Release(1, 0, 0), Release(1, 0, 0));
    LatestOverOne(Release(1, 0, 1), Release(1, 0, 0));
    LatestOverOne(Release(1, 1, 0), Release(1, 0, 0));
    LatestOverOne(Release(2, 0, 0), Release(1, 0, 0));
  }

  /** A release at or above the one published release gets "latest". */
  lemma LatestOverOne(c: Version, e: Version)
    requires IsRelease(c) && c.build == [] && IsRelease(e) && e.build == [] && !TripleLt(c, e)
    ensures Alias("latest") in DueTags(c, [e], Latest)
  {
    AliasRule(c, [e], Latest);
    var r := DueTags(c, [e], Latest);
    assert r[|r| - 1] == Alias("latest");
  }

  // The third test: several aliases, all appended in order.

  lemma MultipleAliasesApplied()
    ensures var r := DueTags(Release(1, 2, 3), [], ["latest", "stable"]);
      Alias("latest") in r && Alias("stable") in r
  {
    var r := DueTags(Release(1, 2, 3), [], ["latest", "stable"]);
    assert r[|r| - 2..] == AliasTags(["latest", "stable"]);
  }

  lemma MultipleAliasesAppliedInOrder()
    ensures DueTags(Release(3, 0, 0), [], ["latest", "stable"])
      == [Full(Release(3, 0, 0)), MinorTag(3, 0), MajorTag(3), Alias("latest"), Alias("stable")]
  {
  }

  // The fourth test: published pre-releases neither supersede nor outrank.

  const WithPreReleasesA: seq<Version> := [Release(0, 0, 1), Pre(0, 0, 2)]
  const WithPreReleasesB: seq<Version> := [Release(0, 1, 0), Pre(0, 1, 1), Pre(0, 2, 0)]
  const WithPreReleasesC: seq<Version> := [Release(1, 0, 0), Pre(1, 0, 1), Pre(1, 1, 0), Pre(2, 0, 0)]

  lemma PreReleasesIgnoredRow0_0_1()
    ensures DueTags(Release(0, 0, 1), WithPreReleasesA, Latest) == [Full(Release(0, 0, 1)), Alias("latest")]
  {
  }

  lemma PreReleasesIgnoredRow0_0_2()
    ensures DueTags(Release(0, 0, 2), WithPreReleasesA, Latest) == [Full(Release(0, 0, 2)), Alias("latest")]
  {
  }

  lemma PreReleasesIgnoredRow0_1_0()
    ensures DueTags(Release(0, 1, 0), WithPreReleasesB, Latest) == [Full(Release(0, 1, 0)), MinorTag(0, 1), Alias("latest")]
  {
  }

  lemma PreReleasesIgnoredRow0_1_1()
    ensures DueTags(Release(0, 1, 1), WithPreReleasesB, Latest) == [Full(Release(0, 1, 1)), MinorTag(0, 1), Alias("latest")]
  {
  }

  lemma PreReleasesIgnoredRow0_2_0()
    ensures DueTags(Release(0, 2, 0), WithPreReleasesB, Latest) == [Full(Release(0, 2, 0)), MinorTag(0, 2), Alias("latest")]
  {
  }

  lemma PreReleasesIgnoredRow1_0_0()
    ensures DueTags(Release(1, 0, 0), WithPreReleasesC, Latest) == [Full(Release(1, 0, 0)), MinorTag(1, 0), MajorTag(1), Alias("latest")]
  {
  }

  lemma PreReleasesIgnoredRow1_0_1()
    ensures DueTags(Release(1, 0, 1), WithPreReleasesC, Latest) == [Full(Release(1, 0, 1)), MinorTag(1, 0), MajorTag(1), Alias("latest")]
  {
  }

  lemma PreReleasesIgnoredRow1_1_0()
    ensures DueTags(Release(1, 1, 0), WithPreReleasesC, Latest) == [Full(Release(1, 1, 0)), MinorTag(1, 1), MajorTag(1), Alias("latest")]
  {
  }

  lemma PreReleasesIgnoredRow2_0_0()
    ensures DueTags(Release(2, 0, 0), WithPreReleasesC, Latest) == [Full(Release(2, 0, 0)), MinorTag(2, 0), MajorTag(2), Alias("latest")]
  {
  }

  // The fifth test: a pre-release candidate gets only its full tag.

  lemma PreReleaseCandidates()
    ensures DueTags(Pre(0, 0, 1), [], Latest) == [Full(Pre(0, 0, 1))]
    ensures DueTags(Pre(0, 1, 0), [], Latest) == [Full(Pre(0, 1, 0))]
    ensures DueTags(Pre(1, 0, 0), [], Latest) == [Full(Pre(1, 0, 0))]
  {
  }

  // The sixth test: the candidate's build metadata is dropped, and with no
  // aliases a superseded candidate gets only its full tag.

  lemma CandidateBuildMetadataDropped()
    ensures DueTags(Built(0, 0, 1), [Release(0, 1, 1), Release(1, 0, 1)], []) == [Full(Release(0, 0, 1))]
    ensures DueTags(Built(0, 1, 0), [Release(0, 1, 1), Release(1, 0, 1)], []) == [Full(Release(0, 1, 0))]
    ensures DueTags(Built(1, 0, 0), [Release(0, 1, 1), Release(1, 0, 1)], []) == [Full(Release(1, 0, 0))]
  {
  }

  // Not covered by the tests: build metadata on a published release takes
  // part in the "latest" check, which uses the crate's full order.

  lemma PublishedBuildMetadataWithholdsAliases()
    ensures DueTags(Release(1, 0, 0), [Built(1, 0, 0)], Latest) == [Full(Release(1, 0, 0)), MinorTag(1, 0), MajorTag(1)]
    ensures DueTags(Release(1, 0, 0), [Release(1, 0, 0)], Latest)
      == [Full(Release(1, 0, 0)), MinorTag(1, 0), MajorTag(1), Alias("latest")]
  {
  }
}
