# drone-release-drafter, modelled in Dafny

drone-release-drafter is a Drone CI plugin that keeps one draft GitHub release ahead of the latest
published release. On each run it:

- decides whether to run at all: the branch must be allowed, a published release must exist, and the
  commit must be the head of `main` when that is enforced;
- collects the closed pull requests merged since the latest published release;
- computes the next calendar-version tag (`$YEAR.$MONTH-$MICRO` and similar templates);
- renders a changelog that groups the pull requests under configured categories;
- writes the result into the newest draft release, or creates a release when there is no draft.

The release is published, rather than left a draft, exactly when all of these hold: the build
succeeded, `PLUGIN_RELEASE_LABELS` is set to a non-empty list, at least one pull request was merged,
and every merged pull request carries one of the release labels.

The model has these modules:

- `Wrappers`: `Option` and `Result`.
- `Enumerable`: the small part of Ruby's `Enumerable` and `String` that the core uses, with lemmas:
  - `select`, `flat_map`, `all?`, `find` and `reverse`;
  - a stable `sort_by`;
  - `include?` on strings;
  - `join`.
- `Pulls`: the pull request record.
- `ReleaseVersion`: `ReleaseVersion.next_tag_name` and its template matching, as loops over the four
  tag parts.
- `ReleaseChangelog`: `_categorize_pulls` as two nested loops over a table keyed by title, and
  `generate_body` as pure functions.
- `ChangelogExample`: the five-pull, four-category changelog worked out to the letter.
- `Github`: two classes.
  - `Host` holds the repository's releases. It also holds the three read-only queries: head commit,
    compare and commit pulls.
  - `GithubClient` holds the client's operations over the host. `upsert_draft_release` updates the
    host's release list in place.
- `ReleaseDrafter`:
  - the environment as a record;
  - `should_run?`, `should_release?` and `dry_run?`;
  - a specification `Plan`/`AfterRun` of one run;
  - the class `Drafter`, whose `Draft` method is `draft!` and is proved against that specification.

Points where the model follows the code rather than its apparent intent:

- The day part is formatted with the year's `strftime` pattern (release_version.rb line 10). So a
  configured day without a configured year is an error, and a configured day carries the year's value.
- The client's committish branch is always `main`, because `draft!` never passes one. So the head
  commit and the compare range are taken against `main`, whatever branch the build is on.
- `PLUGIN_BRANCHES` is tested with `String#include?`. So the branch `lease` is allowed by
  `main,release`.
- An unset `PLUGIN_BRANCHES` makes `ENV.fetch` raise. The model returns an error there instead.
- `draft!` requires `release_drafter/changelog` and `release_drafter/version_resolver`, and calls
  `Changelog.generate_body` and `VersionResolver.next_tag_name`. Those two files are not part of this
  model. In their place it uses the `ReleaseChangelog` and `ReleaseVersion` classes, which are part
  of the core. The drafter passes them the `categories` list and the `calver` entry of its
  configuration.

## Model

| member | source | states |
|---|---|---|
| ReleaseVersion.DigitSucc | lib/release_drafter/release_version.rb:16 | `String#next` on a digit string is a numeral one greater. It keeps the width unless every digit is 9, and then grows by one digit |
| ReleaseVersion.ExtractTagParts | lib/release_drafter/release_version.rb:31-37 | rewriting each part's placeholder into a named capture, one part at a time, gives the tag pattern, and the captures are the match of the tag against it |
| ReleaseVersion.CurrentParts | lib/release_drafter/release_version.rb:7-12 | exactly the configured parts get a value; micro starts at "0"; the day gets the year-pattern value; the hash cannot be built exactly when a day is configured without a year |
| ReleaseVersion.Rollover | lib/release_drafter/release_version.rb:15 | a rollover happens exactly when some date part is present on both sides with different values; a part missing on either side never triggers one |
| ReleaseVersion.NextParts | lib/release_drafter/release_version.rb:15-17 | the date parts are the current ones; micro is reset after a rollover, else it is the previous micro plus one |
| ReleaseVersion.NextTag | lib/release_drafter/release_version.rb:5-27 | it raises "Unable to detect new version" exactly when there is no calver entry; a success means the template exists and the previous tag matched it; a missing micro fails only when the template has no micro |
| ReleaseVersion.Substitute | lib/release_drafter/release_version.rb:19-22 | the substitution loop yields the template with every part that has a value put in its placeholders' place |
| ReleaseVersion.NextTagName | lib/release_drafter/release_version.rb:5-27 | the imperative `next_tag_name` computes exactly its specification `NextTag`, error cases included |
| ReleaseVersion.SearchSound | lib/release_drafter/release_version.rb:31-37 | conversely, when the previous tag parses under a template without repeated parts, the tag contains the template filled in with the parsed values, so the captures describe a real match |
| ReleaseVersion.RoundTrip | lib/release_drafter/release_version.rb:19-36 | a tag filled in from a separated template parses back under that template into exactly the values of the parts it names |
| ReleaseVersion.NextTagParsesUnderItsTemplate | lib/release_drafter/release_version.rb:5-36 | the new tag parses under its own template: it reads back the current date parts, and micro 0 after a rollover or the previous micro plus one otherwise |
| ReleaseVersion.NextTagComputes | lib/release_drafter/release_version.rb:13-23 | once both part tables exist and a micro is there to increment, the new tag is the template filled with the next parts |
| ReleaseVersion.NextTagSucceeded | lib/release_drafter/release_version.rb:13-23 | a successful result came from matching the previous tag and filling the template with the next parts |
| ReleaseVersion.YearRolloverExample | spec/release_drafter/release_version_spec.rb:15-19 | `21.12-8` in January 2022 gives `22.01-0` |
| ReleaseVersion.MonthRolloverExample | spec/release_drafter/release_version_spec.rb:21-25 | `22.09-5` in October 2022 gives `22.10-0` |
| ReleaseVersion.MicroIncrementExample | spec/release_drafter/release_version_spec.rb:27-31 | `22.01-0` in January 2022 gives `22.01-1` |
| ReleaseChangelog.WildcardCategories | lib/release_drafter/release_changelog.rb:27-29 | exactly the configured categories whose labels include `*` |
| ReleaseChangelog.MatchingCategories | lib/release_drafter/release_changelog.rb:31-33 | exactly the configured categories that share a label with the pull |
| ReleaseChangelog.TargetsMembers | lib/release_drafter/release_changelog.rb:31-34 | a pull is filed under its matching categories, or under the wildcard categories when none match |
| ReleaseChangelog.FilePull | lib/release_drafter/release_changelog.rb:36-39 | the inner loop appends the pull, once per target category, to the entry of that category's title, and leaves the rest of the table alone |
| ReleaseChangelog.FilePulls | lib/release_drafter/release_changelog.rb:30-40 | after the outer loop, the table holds, for each title, exactly that title's non-empty bucket of pulls in input order |
| ReleaseChangelog.CategorizePulls | lib/release_drafter/release_changelog.rb:24-48 | the imperative `_categorize_pulls` computes its specification `Categorize` |
| ReleaseChangelog.BucketMembers | lib/release_drafter/release_changelog.rb:30-40 | a pull is in a title's bucket exactly when it is one of the pulls and one of its target categories has that title |
| ReleaseChangelog.SectionsInOrder | lib/release_drafter/release_changelog.rb:42-47 | the section titles are, in configuration order, those of the categories with pulls; every section is non-empty, sorted by merge time, and a permutation of its bucket |
| ReleaseChangelog.NonEmptyListed | lib/release_drafter/release_changelog.rb:42-47 | every configured category that has pulls gets its own section |
| ReleaseChangelog.CategorizeAt | lib/release_drafter/release_changelog.rb:42-47 | each section is that of a configured category with pulls |
| ReleaseChangelog.SectionMembers | lib/release_drafter/release_changelog.rb:30-47 | a pull listed in a section is one of the input pulls, filed under a category of that title |
| ReleaseChangelog.ListedUnderEveryMatch | lib/release_drafter/release_changelog.rb:30-39 | a pull is listed under the title of every category it shares a label with |
| ReleaseChangelog.WildcardFallback | lib/release_drafter/release_changelog.rb:27-34 | a pull that matches no category is listed under every wildcard category |
| ReleaseChangelog.ListedOnlyUnderTargets | lib/release_drafter/release_changelog.rb:30-47 | a pull appears only under titles of configured categories, and only if it is one of the input pulls |
| ReleaseChangelog.UnmatchedOmitted | lib/release_drafter/release_changelog.rb:27-34 | without a wildcard category, a pull that matches no category appears in no section |
| ReleaseChangelog.BodyFrame | lib/release_drafter/release_changelog.rb:12-19 | the body opens with the generator comment and the "What's Changed" heading, and ends with the compare link from the previous tag to the new one |
| ReleaseChangelog.BlockContents | lib/release_drafter/release_changelog.rb:4-9 | a section's block holds its `### title` heading and the line of each of its pulls |
| ReleaseChangelog.ListedRendered | lib/release_drafter/release_changelog.rb:3-20 | every section heading and every entry listed under it appears in the body |
| ReleaseChangelog.MatchRendered | lib/release_drafter/release_changelog.rb:3-39 | each pull's entry line, and the heading of every category it matches, appear in the body |
| ChangelogExample.ExampleCategorize | spec/release_drafter/changelog_spec.rb:6-71 | the five example pulls fall into the four example sections in configuration order, and the pull whose label matches no category falls under Other Changes |
| ChangelogExample.ExampleBody | spec/release_drafter/changelog_spec.rb:72-94 | the rendered body of the example is, character for character, the expected changelog |
| Enumerable.SortBy | lib/release_drafter/release_changelog.rb:45 | `sort_by` returns its input reordered (a permutation) and non-decreasing in the key |
| Enumerable.SortBySorted | lib/release_drafter/release_changelog.rb:45 | input already sorted by the key comes back unchanged; this holds only because the model's sort is stable (see Left out) |
| Enumerable.All | lib/release_drafter.rb:102-104 | `all?` holds exactly when the block holds for every element |
| Github.FirstPage | lib/release_drafter/github_client.rb:58 | one page of 100: the first 100 releases, or all of them when there are fewer |
| Github.LatestReleaseFound | lib/release_drafter/github_client.rb:57-63 | nothing is found exactly when no release on the first page has the wanted draft flag; a found release is on that page and has the flag |
| Github.LatestReleaseMaximal | lib/release_drafter/github_client.rb:57-63 | no release with the wanted flag on the first page has a later publication (or creation) time than the one found |
| Github.LatestReleaseIgnoresLaterPages | lib/release_drafter/github_client.rb:58 | releases beyond the first 100 never affect the result |
| Github.UpsertUpdatesDraft | lib/release_drafter/github_client.rb:23-33 | with a draft present, the list keeps its length, the newest draft is rewritten with the new attributes in place keeping its url and creation time, and every other release is untouched |
| Github.UpsertCreatesRelease | lib/release_drafter/github_client.rb:23-35 | with no draft, exactly one release is added, carrying the new attributes, and the old releases are kept |
| Github.UpsertKeepsUrlsUnique | lib/release_drafter/github_client.rb:32-36 | an upsert with a fresh url for a created release keeps release urls unique |
| Github.DraftUpsertLeavesDraft | lib/release_drafter/github_client.rb:23-36 | after writing a draft, a draft release exists |
| Github.DraftUpsertTwice | lib/release_drafter/github_client.rb:23-36 | two upserts whose first writes a draft add at most one release |
| Github.UpsertKeepsDraftsUnpublished | lib/release_drafter/github_client.rb:23-36 | an upsert keeps the host's invariant that a draft has no publication time |
| Github.RewrittenDraftStaysLatest | lib/release_drafter/github_client.rb:32-33 | rewriting the latest draft as a draft keeps it the latest draft, because its sort key does not move |
| Github.CreatedDraftIsLatest | lib/release_drafter/github_client.rb:34-35 | a draft created when there was none is the latest draft afterwards |
| Github.SecondUpsertRewritesFirst | lib/release_drafter/github_client.rb:23-37 | after a draft upsert, the next upsert finds the release the first one wrote as the latest draft and rewrites it in place, so it adds nothing |
| Github.ClosedPullsMembers | lib/release_drafter/github_client.rb:49-55 | a pull is returned exactly when it is closed and is associated with one of the commits |
| Github.ClosedPullsAppend | lib/release_drafter/github_client.rb:49-55 | the pulls of two commit ranges are the first range's followed by the second's |
| Github.ClosedPullsKeepDuplicates | lib/release_drafter/github_client.rb:49-55 | a pull associated with two commits is returned twice |
| Github.Host.CreateRelease | lib/release_drafter/github_client.rb:35 | the host stores the new release ahead of the existing ones and returns it |
| Github.Host.UpdateRelease | lib/release_drafter/github_client.rb:33 | the host rewrites the release with the given url; the returned release carries the new attributes; nothing is returned when no release has that url |
| Github.GithubClient.constructor | lib/release_drafter/github_client.rb:5-9 | the client keeps the repository and the committish branch, `main` by default |
| Github.GithubClient.LatestPublished | lib/release_drafter/github_client.rb:11-17 | `latest_release` is the newest published release of the first page |
| Github.GithubClient.HeadCommitSha | lib/release_drafter/github_client.rb:39-41 | the head commit of the committish branch |
| Github.GithubClient.MergedPullRequestsFromRelease | lib/release_drafter/github_client.rb:19-21 | the closed pulls of the commits between the release's tag and the committish branch |
| Github.GithubClient.UpsertDraftRelease | lib/release_drafter/github_client.rb:23-37 | the host's releases become the upsert of the attributes, with the committish branch as target; the returned release is stored and carries those attributes |
| ReleaseDrafter.Downcase | lib/release_drafter.rb:20 | no ASCII capital is left; each capital becomes the small letter at its place in the alphabet; every other character stays where it was |
| ReleaseDrafter.DowncaseIdempotent | lib/release_drafter.rb:20 | downcasing an already downcased name changes nothing |
| ReleaseDrafter.DowncaseExample | lib/release_drafter.rb:20 | `Acme/Repo-2` becomes `acme/repo-2` |
| ReleaseDrafter.ShouldRunGates | lib/release_drafter.rb:87-96 | it fails exactly when PLUGIN_BRANCHES is unset; it runs exactly when the branch is listed, a published release exists, and the head check passes or is not enforced |
| ReleaseDrafter.BranchGateFirst | lib/release_drafter.rb:89 | an unlisted branch stops the run before anything is computed or written |
| ReleaseDrafter.FirstReleaseGate | lib/release_drafter.rb:91 | without a published release nothing is drafted |
| ReleaseDrafter.HeadOnlyWhenEnforced | lib/release_drafter.rb:93 | when PLUGIN_ENFORCE_HEAD is blank, the head commit does not matter |
| ReleaseDrafter.BranchListIsSubstring | lib/release_drafter.rb:89 | the branch test is substring containment: `lease` passes with `main,release` |
| ReleaseDrafter.ShouldReleaseNeeds | lib/release_drafter.rb:98-105 | a release is final only if the build succeeded, release labels are set and non-empty, there are pulls, and every pull has a release label |
| ReleaseDrafter.ShouldReleaseWhen | lib/release_drafter.rb:98-105 | conversely, those conditions make the release final |
| ReleaseDrafter.UnlabelledPullDrafts | lib/release_drafter.rb:102-104 | one pull without labels keeps the release a draft |
| ReleaseDrafter.ShouldReleaseAppend | lib/release_drafter.rb:98-105 | for two non-empty batches of pulls, the release is final for both together exactly when it is final for each |
| ReleaseDrafter.PlanDrafts | lib/release_drafter.rb:46-67 | a run that drafts passed the gates; it starts from the latest published tag, whose successor is the new tag; its pulls are those of the compare range; it is a draft exactly when it should not release |
| ReleaseDrafter.PublishedOnlyWhenLabelled | lib/release_drafter.rb:67 | a non-draft result means the build succeeded and every merged pull carries a release label |
| ReleaseDrafter.DryRunComputesTheSame | lib/release_drafter.rb:33-35 | the dry-run flag does not change what a run computes |
| ReleaseDrafter.DryRunWritesNothing | lib/release_drafter.rb:73-82 | a dry run leaves the releases unchanged |
| ReleaseDrafter.RunWritesOnce | lib/release_drafter.rb:73-82 | a real run adds at most one release, and some release then carries the new tag as tag and name, the body, the draft flag and the `main` target |
| ReleaseDrafter.Drafter.ShouldRunGates | lib/release_drafter.rb:87-96 | the imperative `should_run?` computes its specification `ShouldRun` |
| ReleaseDrafter.Drafter.Draft | lib/release_drafter.rb:41-83 | `draft!` builds a fresh client on `main` for the repository, computes exactly the planned draft, and leaves the host's releases as the specification of one run says |

## Left out

- The Octokit transport, the access token, pagination requests and the number of API calls: `Host`
  stands for the GitHub API, holding the releases and answering the three read-only queries as
  functions.
- The url and the time the host assigns to a written release are parameters.
- `Github.Host.CreateRelease`: a created release is stored ahead of the existing ones. GitHub's
  storage order is outside the model, and only the sort by time matters to the core.
- A release written as non-draft gets `publishedAt = now`, and a draft gets none. This stands for
  GitHub's own publishing, which the source cannot see.
- `Github.SecondUpsertRewritesFirst` assumes the host's invariant `DraftsUnpublished`: a draft has no
  publication time. The model's own writes keep it (`Github.UpsertKeepsDraftsUnpublished`). A host
  that lists a draft with a publication time is outside the model.
- `ReleaseVersion.SearchSound` covers templates without repeated parts only. When a part repeats, the
  match keeps the value it captured last, as Ruby's `named_captures` does. The converse for an
  arbitrary tag is not proved: a tag that contains the filled-in template is not shown to parse.
  `ReleaseVersion.RoundTrip` covers the tags made from the template.
- The clock: `Time.now.strftime` is a parameter from pattern to formatted text.
- Logging, colours, `color?` and `PLUGIN_LOGGING`.
- The environment and YAML parsing. `Env` holds the parsed values, and an unset variable read with
  `ENV.fetch` becomes an error. The raise of `ENV.fetch('DRONE_REPO')` and
  `ENV.fetch('DRONE_SOURCE_BRANCH')` in `initialize` is not modelled.
- The YAML values have fixed shapes in `Env`:
  - the release labels are a list of strings;
  - the categories are a list of title-and-labels records;
  - the calver entry is a record of optional entries.
  A value of another shape would make the Ruby code raise: a hash of release labels raises
  `TypeError` at `Array#&`, and a scalar raises `NoMethodError` at `any?`. Those raises are not
  modelled.
- `Downcase` lowers only ASCII letters; Ruby's full Unicode case mapping is not modelled.
- Ruby regular-expression syntax in a template: the literal text of a template is matched as written.
  Metacharacters are not modelled.
- `gsub` also rewrites a placeholder spelled inside literal text after substitution. The model keeps
  templates as pieces, so a substituted value that itself spells `$MONTH` is not rewritten again.
- `Enumerable.SortBySorted`: Ruby's `sort_by` is not stable. The model sorts stably, so equal keys
  keep their input order. Ruby promises only what `Enumerable.SortBy` states. The worked changelog
  example relies on this stable order for its two New Features pulls, which have equal merge times.
- A missing `merged_at` (`nil`) is not modelled: the merge time is an integer.
- `!!draft` on a non-boolean argument is not modelled: `draft` is a `bool`.
- What `draft!` returns (the value of its last log call) and the `drafted_release` log line.
- lib/release_drafter/changelog.rb and lib/release_drafter/version_resolver.rb are not part of this
  model.
