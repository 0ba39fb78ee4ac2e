# gen-semver-tags: tag derivation, in Dafny

This project models the tag generator of the `gen-semver-tags` crate
(`gen_semver_tags` in src/lib.rs). Given a candidate semantic version, the
versions already published and a list of alias names such as `latest`, it
returns the ordered list of tags to attach to the candidate: its full version
(always), `major.minor` if no later patch of that minor line is published and
the candidate is at or above 0.1.0, `major` if no later version of that major
line is published and the candidate is at or above 1.0.0, and the aliases if
no published release is above the candidate. Pre-release candidates get only
their full tag; published pre-releases are ignored; the candidate's build
metadata is dropped.

Files:

- `semver.dfy`, module `SemVer`: the `Version` record, the two floor constants
  `FirstMinorRelease` (0.1.0) and `FirstMajorRelease` (1.0.0), the numeric
  triple order, and the semver crate's `<=` on the shapes the generator compares.
- `tags.dfy`, module `SemverTags`: the `Tag` datatype; the `filter`/`any`/`all`
  steps as recursive functions; the two version requirements the generator
  builds, evaluated as the crate evaluates comparators; `DueTags`, a
  declarative statement of which tags are due, written on the unfiltered
  existing versions; the method `GenSemverTags`, which builds the list step by
  step as the source does and is proved to return `DueTags`; and the
  properties of `DueTags`.
- `scenarios.dfy`, module `SemverTagsScenarios`: every scenario of the unit
  tests in src/lib.rs as a lemma over `DueTags`.

Where the doc comment of `gen_semver_tags` (src/lib.rs:22-35) and the code
disagree, the model follows the code:

- The comment says `major` and the `latest_tags` are included together, for
  the latest major version (src/lib.rs:27-28). In the code the alias check
  sits outside both floor blocks (src/lib.rs:106), so a 0.x.y or 0.0.x
  candidate that is the latest release receives the aliases without any
  `major` tag; the test at src/lib.rs:211 expects `latest` for 0.0.1
  (`AliasRule`, `PreReleasesIgnoredRow0_0_1`).
- The comment promises `major.minor` to the latest minor version of the
  major line (src/lib.rs:26-27). The code at src/lib.rs:77-81 gives it to the
  latest patch of the candidate's own minor line, whatever later minors of
  the major line exist: the test at src/lib.rs:142 expects `1.0` for 1.0.1
  although 1.1.0 and 1.1.1 are published (`MinorTagRule`,
  `PublishedRow1_0_1`).
- The comment says build metadata is ignored (src/lib.rs:35). The candidate's
  is stripped, but on the existing versions it is not ignored everywhere. The two
  version requirements ignore it, but the latest check at src/lib.rs:108 uses
  the crate's total order on `Version`, which ranks `1.0.0+build` above
  `1.0.0`. So a published `X+meta` withholds the aliases from candidate `X`
  (`ExistingBuildMetadataWithholdsAliases`,
  `PublishedBuildMetadataWithholdsAliases`).

## Model

| member | source | states |
|---|---|---|
| SemVer.AtMostMeaning | src/lib.rs:106-108 | The crate's `<=` used by the latest check: fails whenever the existing version's triple is above the candidate's, is reflexive, and for releases without build metadata it is exactly the triple order (antisymmetric). With equal triples, build metadata alone can make it fail (`BuildMetadataOrdersAbove`). |
| SemVer.BuildMetadataOrdersAbove | src/lib.rs:106-108 | A release with the candidate's triple is `<=` the candidate iff it has no build metadata; with its metadata stripped it always is. |
| SemVer.FloorsMeaning | src/lib.rs:6-20 | For a release without build metadata, `>= 0.1.0` holds iff it is not 0.0.x, and `>= 1.0.0` iff its major is at least 1. |
| SemverTags.AliasTags | src/lib.rs:110 | The appended alias tags are all the names, one tag per name, in the given order. |
| SemverTags.Released | src/lib.rs:51-54 | The filter keeps exactly the existing versions with an empty pre-release, and never more entries than it was given. |
| SemverTags.ReleasedOfConcat | src/lib.rs:51-54 | The filter keeps the order of the kept versions: filtering a concatenation gives the concatenation of the filtered parts. |
| SemverTags.Any | src/lib.rs:77-79 | `any` is true iff some element satisfies the predicate. |
| SemverTags.All | src/lib.rs:106-108 | `all` is true iff every element satisfies the predicate (vacuously on an empty list). |
| SemverTags.MinorRequirementMeaning | src/lib.rs:57-76 | The requirement `>M.m.p, <M.(m+1)` matches a release iff it has the same major and minor and a strictly greater patch. |
| SemverTags.MajorRequirementMeaning | src/lib.rs:85-96 | The requirement `>M.m.p, <(M+1)` matches a release iff it has the same major and is strictly above the candidate. |
| SemverTags.VersionTags | src/lib.rs:45-102 | The tags a release gets from its own numbers: at least one and at most three, the full tag first, and never an alias. |
| SemverTags.GenSemverTags | src/lib.rs:36-114 | The step-by-step generator (strip build, full tag, early return on pre-release, filter, floor checks, `any` checks, `all` check, extend) returns exactly the tags due by the declarative rules on the unfiltered existing versions. |
| SemverTags.MinorCheckDecidesNewerPatch | src/lib.rs:77-79 | The `any` over the filtered versions with the minor requirement is true iff an existing release of the candidate's minor line has a greater patch. |
| SemverTags.MajorCheckDecidesNewerInMajor | src/lib.rs:97-99 | The `any` over the filtered versions with the major requirement is true iff an existing release of the candidate's major line is above it. |
| SemverTags.LatestCheckDecidesIsLatest | src/lib.rs:106-108 | The `all` over the filtered versions is true iff every existing release is `<=` the candidate. |
| SemverTags.FullTagFirst | src/lib.rs:41-45 | The result is never empty; its first tag is the candidate's full tag without build metadata and with its own triple and pre-release; no other tag is a full tag; the length is at most 3 + the number of aliases. |
| SemverTags.PreReleaseGetsOnlyFullTag | src/lib.rs:47-49 | A pre-release candidate yields exactly its full tag, whatever the existing versions and aliases. |
| SemverTags.CandidateBuildIgnored | src/lib.rs:41-44 | Changing the candidate's build metadata changes nothing in the output. |
| SemverTags.SameReleasesSameTags | src/lib.rs:51-54 | Two existing lists with the same releases (pre-releases aside) give the same output. |
| SemverTags.PreReleasesFilteredOut | src/lib.rs:51-54 | Filtering the existing list first gives the same output. |
| SemverTags.PreReleaseInsertionIgnored | src/lib.rs:51-54 | Inserting a pre-release anywhere among the existing versions changes nothing. |
| SemverTags.PermutationIgnored | src/lib.rs:77-108 | Reordering the existing versions changes nothing: the `any`/`all` checks do not depend on order. |
| SemverTags.RepublishingIsIdempotent | src/lib.rs:56-111 | Equality is not newer: adding the candidate without its build metadata to the existing versions leaves every tag, aliases included, unchanged. A published copy that carries build metadata does withhold the aliases (`ExistingBuildMetadataWithholdsAliases`). |
| SemverTags.MinorTagRule | src/lib.rs:56-82 | `major.minor` is present iff the candidate is a release, not 0.0.x, and no existing release has the same major and minor and a greater patch; no other minor tag appears. |
| SemverTags.MajorTagRule | src/lib.rs:84-102 | `major` is present iff the candidate is a release with major >= 1 and no existing release of the same major is above it; no other major tag appears. |
| SemverTags.AliasRule | src/lib.rs:106-111 | For a release candidate: if every existing release is `<=` it, the result ends with all aliases in order and no alias tag comes before them, so they are appended once, after the derived tags; otherwise no alias tag appears; every alias tag is one of the given names. Applies to 0.0.x too. |
| SemverTags.TagOrder | src/lib.rs:45-111 | Tags come in the order full, `major.minor`, `major`, aliases, and each derived tag appears at most once. |
| SemverTags.MajorTagImpliesMinorTag | src/lib.rs:81-101 | A `major` tag implies the `major.minor` tag is present. |
| SemverTags.AliasesImplyAbbreviatedTags | src/lib.rs:56-111 | If any alias is emitted, a candidate at or above 0.1.0 has its `major.minor` tag, and one at or above 1.0.0 also its `major` tag. |
| SemverTags.ExistingBuildMetadataWithholdsAliases | src/lib.rs:106-108 | An existing copy of the candidate's triple with build metadata withholds all aliases, while both abbreviated tags are as if it carried none. |
| SemverTags.NothingPublishedAllTags | src/lib.rs:56-111 | With no existing release, a release candidate gets its full tag, the abbreviated tags its floors allow, then all aliases. |
| SemverTagsScenarios.PublishedRow0_0_1 | src/lib.rs:133 | Against the thirteen published versions of the first test, 0.0.1 gets exactly the tags that row expects. |
| SemverTagsScenarios.PublishedRow0_0_2 | src/lib.rs:134 | Against the thirteen published versions of the first test, 0.0.2 gets exactly the tags that row expects. |
| SemverTagsScenarios.PublishedRow0_0_3 | src/lib.rs:135 | Against the thirteen published versions of the first test, 0.0.3 gets exactly the tags that row expects. |
| SemverTagsScenarios.PublishedRow0_1_0 | src/lib.rs:136 | Against the thirteen published versions of the first test, 0.1.0 gets exactly the tags that row expects. |
| SemverTagsScenarios.PublishedRow0_1_1 | src/lib.rs:137 | Against the thirteen published versions of the first test, 0.1.1 gets exactly the tags that row expects. |
| SemverTagsScenarios.PublishedRow0_1_2 | src/lib.rs:138 | Against the thirteen published versions of the first test, 0.1.2 gets exactly the tags that row expects. |
| SemverTagsScenarios.PublishedRow0_2_0 | src/lib.rs:139 | Against the thirteen published versions of the first test, 0.2.0 gets exactly the tags that row expects. |
| SemverTagsScenarios.PublishedRow0_3_0 | src/lib.rs:140 | Against the thirteen published versions of the first test, 0.3.0 gets exactly the tags that row expects. |
| SemverTagsScenarios.PublishedRow1_0_0 | src/lib.rs:141 | Against the thirteen published versions of the first test, 1.0.0 gets exactly the tags that row expects. |
| SemverTagsScenarios.PublishedRow1_0_1 | src/lib.rs:142 | Against the thirteen published versions of the first test, 1.0.1 gets exactly the tags that row expects. |
| SemverTagsScenarios.PublishedRow1_0_2 | src/lib.rs:143 | Against the thirteen published versions of the first test, 1.0.2 gets exactly the tags that row expects. |
| SemverTagsScenarios.PublishedRow1_1_0 | src/lib.rs:144 | Against the thirteen published versions of the first test, 1.1.0 gets exactly the tags that row expects. |
| SemverTagsScenarios.PublishedRow1_1_1 | src/lib.rs:145 | Against the thirteen published versions of the first test, 1.1.1 gets exactly the tags that row expects. |
| SemverTagsScenarios.PublishedRow1_1_2 | src/lib.rs:146 | Against the thirteen published versions of the first test, 1.1.2 gets exactly the tags that row expects. |
| SemverTagsScenarios.PublishedRow1_2_0 | src/lib.rs:147 | Against the thirteen published versions of the first test, 1.2.0 gets exactly the tags that row expects. |
| SemverTagsScenarios.PublishedRow2_0_0 | src/lib.rs:148 | Against the thirteen published versions of the first test, 2.0.0 gets exactly the tags that row expects. |
| SemverTagsScenarios.PublishedRow2_0_1 | src/lib.rs:149 | Against the thirteen published versions of the first test, 2.0.1 gets exactly the tags that row expects. |
| SemverTagsScenarios.PublishedRow2_1_0 | src/lib.rs:150 | Against the thirteen published versions of the first test, 2.1.0 gets exactly the tags that row expects. |
| SemverTagsScenarios.PublishedRow2_1_1 | src/lib.rs:151 | Against the thirteen published versions of the first test, 2.1.1 gets exactly the tags that row expects. |
| SemverTagsScenarios.PublishedRow2_1_2 | src/lib.rs:152 | Against the thirteen published versions of the first test, 2.1.2 gets exactly the tags that row expects. |
| SemverTagsScenarios.PublishedRow2_2_0 | src/lib.rs:153 | Against the thirteen published versions of the first test, 2.2.0 gets exactly the tags that row expects. |
| SemverTagsScenarios.PublishedRow3_0_0 | src/lib.rs:154 | Against the thirteen published versions of the first test, 3.0.0 gets exactly the tags that row expects. |
| SemverTagsScenarios.PublishedPredicates | src/lib.rs:122-125 | Against those published versions, the three decisions reduce to comparisons with the top patch and top minor of the candidate's lines and with 2.1.1. |
| SemverTagsScenarios.LatestAppliedToEqualOrNewer | src/lib.rs:170-198 | Each of the nine candidates, equal to or above its one published release, gets `latest`. |
| SemverTagsScenarios.LatestOverOne | src/lib.rs:187-196 | A release not below the single published release gets `latest`. |
| SemverTagsScenarios.MultipleAliasesApplied | src/lib.rs:200-205 | 1.2.3 with nothing published gets both `latest` and `stable`. |
| SemverTagsScenarios.MultipleAliasesAppliedInOrder | src/lib.rs:200-205 | 3.0.0 with nothing published gets full, `3.0`, `3`, `latest`, `stable`, in that order. |
| SemverTagsScenarios.PreReleasesIgnoredRow0_0_1 | src/lib.rs:211 | With published pre-releases above it, 0.0.1 gets exactly the tags of that row: the pre-releases neither withhold a tag nor `latest`. |
| SemverTagsScenarios.PreReleasesIgnoredRow0_0_2 | src/lib.rs:212 | With published pre-releases above it, 0.0.2 gets exactly the tags of that row: the pre-releases neither withhold a tag nor `latest`. |
| SemverTagsScenarios.PreReleasesIgnoredRow0_1_0 | src/lib.rs:213-217 | With published pre-releases above it, 0.1.0 gets exactly the tags of that row: the pre-releases neither withhold a tag nor `latest`. |
| SemverTagsScenarios.PreReleasesIgnoredRow0_1_1 | src/lib.rs:218-222 | With published pre-releases above it, 0.1.1 gets exactly the tags of that row: the pre-releases neither withhold a tag nor `latest`. |
| SemverTagsScenarios.PreReleasesIgnoredRow0_2_0 | src/lib.rs:223-227 | With published pre-releases above it, 0.2.0 gets exactly the tags of that row: the pre-releases neither withhold a tag nor `latest`. |
| SemverTagsScenarios.PreReleasesIgnoredRow1_0_0 | src/lib.rs:228-232 | With published pre-releases above it, 1.0.0 gets exactly the tags of that row: the pre-releases neither withhold a tag nor `latest`. |
| SemverTagsScenarios.PreReleasesIgnoredRow1_0_1 | src/lib.rs:233-237 | With published pre-releases above it, 1.0.1 gets exactly the tags of that row: the pre-releases neither withhold a tag nor `latest`. |
| SemverTagsScenarios.PreReleasesIgnoredRow1_1_0 | src/lib.rs:238-242 | With published pre-releases above it, 1.1.0 gets exactly the tags of that row: the pre-releases neither withhold a tag nor `latest`. |
| SemverTagsScenarios.PreReleasesIgnoredRow2_0_0 | src/lib.rs:243-247 | With published pre-releases above it, 2.0.0 gets exactly the tags of that row: the pre-releases neither withhold a tag nor `latest`. |
| SemverTagsScenarios.PreReleaseCandidates | src/lib.rs:267-277 | 0.0.1-pre, 0.1.0-pre and 1.0.0-pre get only their full tag. |
| SemverTagsScenarios.CandidateBuildMetadataDropped | src/lib.rs:279-301 | Candidates with build metadata get their full tag without it, and nothing else against 0.1.1 and 1.0.1 with no aliases. |
| SemverTagsScenarios.PublishedBuildMetadataWithholdsAliases | src/lib.rs:106-108 | 1.0.0 against a published 1.0.0+build gets full, `1.0`, `1` but no `latest`; against a published 1.0.0 it also gets `latest`. |

## Left out

- Version parsing and printing (the semver crate): a tag is the `Tag` datatype, not a string. `Full(v)` stands for `v` printed as `major.minor.patch[-pre]`, `MinorTag(M, m)` for `M.m`, `MajorTag(M)` for `M`. So the model does not capture a caller alias whose text equals a derived tag.
- The command-line program in src/main.rs: argument parsing, reading versions from standard input, parse errors, printing the tags, and the trimming and empty-name filtering of alias names. These are I/O around the generator.
- The crate's comparator evaluation in general. Only the two requirements the generator builds are modelled, evaluated on releases, where the crate's pre-release compatibility rule never applies.
- Ordering between two non-empty pre-releases (section 11 of Semantic Versioning 2.0.0). The generator never compares two of them. `SemVer.AtMost` only covers comparisons against a release without build metadata.
- The crate's build metadata order beyond one fact: empty metadata is below any non-empty metadata. That is the only case the generator meets, because the candidate's metadata is stripped.
- `u64` overflow of `minor + 1` and `major + 1` (src/lib.rs:71, :90). Version numbers are unbounded `nat`s.
- The borrowed/owned `Cow` distinction in the result type, which is a performance detail.
