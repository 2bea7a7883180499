/**
 * `ReleaseDrafter::Drafter`: the plugin run. Three gates decide whether to draft at all; then the
 * next tag and the changelog body are computed from the latest published release and the closed
 * pulls merged since, the release is marked final only when every pull carries a release label,
 * and, unless in dry run, the draft is written with one upsert. The environment the plugin reads
 * is an explicit, already parsed `Env` record.
 */
module ReleaseDrafter {
  import opened Wrappers
  import opened Enumerable
  import opened Pulls
  import opened Github
  import ReleaseVersion
  import ReleaseChangelog

  /** The environment variables the run reads; `None` is an unset variable (`ENV[...]` is `nil`). */
  datatype Env = Env(
    droneRepo: string,                                        // DRONE_REPO
    sourceBranch: string,                                     // DRONE_SOURCE_BRANCH
    branches: Option<string>,                                 // PLUGIN_BRANCHES
    enforceHead: Option<string>,                              // PLUGIN_ENFORCE_HEAD
    commitSha: Option<string>,                                // DRONE_COMMIT_SHA
    buildStatus: Option<string>,                              // DRONE_BUILD_STATUS
    releaseLabels: Option<seq<string>>,                       // PLUGIN_RELEASE_LABELS, as YAML
    dryRun: Option<string>,                                   // PLUGIN_DRY_RUN
    categories: Option<seq<ReleaseChangelog.Category>>,       // PLUGIN_CHANGELOG's `categories`, as YAML
    calver: Option<ReleaseVersion.CalverConfig>)              // PLUGIN_VERSION_RESOLVER's `calver`, as YAML

  /** What makes a run raise. */
  datatype DrafterError =
    | BranchesUnset                              // `ENV.fetch('PLUGIN_BRANCHES')` raises `KeyError`
    | Version(error: ReleaseVersion.VersionError) // `next_tag_name` raises
    | CategoriesUnset                            // `nil['categories']`, or `select` on `nil`

  /** The branch the client is constructed with: `GithubClient.new`'s default `committish_branch`. */
  const Committish: string := "main"

  /** `.to_s.empty?` of a variable. */
  predicate Blank(v: Option<string>) {
    v.None? || v.value == ""
  }

  predicate IsUpper(c: char) {
    'A' <= c <= 'Z'
  }

  /**
   * `String#downcase`, on ASCII letters: no capital is left, every capital becomes the small
   * letter at its place in the alphabet, and every other character stays where it was.
   */
  function Downcase(s: string): (r: string)
    ensures |r| == |s|
    ensures forall i :: 0 <= i < |r| ==> !IsUpper(r[i])
    ensures forall i :: 0 <= i < |s| && !IsUpper(s[i]) ==> r[i] == s[i]
    ensures forall i :: 0 <= i < |s| && IsUpper(s[i]) ==>
              'a' <= r[i] <= 'z' && r[i] as int - 'a' as int == s[i] as int - 'A' as int
  {
    seq(|s|, i requires 0 <= i < |s| => if IsUpper(s[i]) then (s[i] as int + 32) as char else s[i])
  }

  /** Downcasing twice is downcasing once. */
  lemma {:induction false} DowncaseIdempotent(s: string)
    ensures Downcase(Downcase(s)) == Downcase(s)
  {
    var r := Downcase(s);
    assert forall i :: 0 <= i < |r| ==> !IsUpper(r[i]);
    assert forall i :: 0 <= i < |r| ==> Downcase(r)[i] == r[i];
  }

  /** A repository slug as Drone spells it, and as `draft!` uses it. */
  lemma {:induction false} DowncaseExample()
    ensures Downcase("Acme/Repo-2") == "acme/repo-2"
  {
    var r := Downcase("Acme/Repo-2");
    assert r[0] == 'a' && r[5] == 'r';
  }

  // ---------------------------------------------------------------------------------------------
  // The decisions

  /**
   * `should_run?`: the three gates in order, each ending the check. `headSha` is the head of the
   * committish branch, consulted only by the third gate.
   */
  function ShouldRun(env: Env, releases: seq<Release>, headSha: string): Result<bool, DrafterError> {
    if env.branches.None? then Failure(BranchesUnset)
    else if !Contains(env.branches.value, env.sourceBranch) then Success(false)
    else if LatestRelease(releases, false).None? then Success(false)
    else if !Blank(env.enforceHead) && Some(headSha) != env.commitSha then Success(false)
    else Success(true)
  }

  /** `(pull['labels'].map { |l| l['name'] } & release_labels).any?`. */
  function Labelled(labels: seq<string>): Pull -> bool {
    (p: Pull) => SharesLabel(p.labels, labels)
  }

  /**
   * `should_release?`: a successful build, some release labels, some pulls, and every pull sharing
   * a label with the release labels.
   */
  predicate ShouldRelease(env: Env, pulls: seq<Pull>) {
    if !(env.buildStatus == Some("success") && env.releaseLabels.Some? && |env.releaseLabels.value| > 0 && |pulls| > 0)
    then false
    else All(pulls, Labelled(env.releaseLabels.value))
  }

  /** `dry_run?`. */
  predicate DryRun(env: Env) {
    !Blank(env.dryRun)
  }

  /** What a run that passes the gates computes, in the order it computes it. */
  datatype Drafting = Drafting(previousTag: string, pulls: seq<Pull>, tag: string, body: string, draft: bool)

  /**
   * The outcome of `draft!` on a host holding `releases`: an error, `None` when a gate stops the
   * run, or what is drafted. `compare` and `commitPulls` are the host's commit data.
   */
  function Plan(env: Env, releases: seq<Release>, headSha: string, compare: (string, string) -> seq<string>,
                commitPulls: string -> seq<Pull>, strftime: string -> string): Result<Option<Drafting>, DrafterError>
  {
    match ShouldRun(env, releases, headSha)
    case Failure(e) => Failure(e)
    case Success(run) =>
      if !run then Success(None)
      else
        var previousTag := LatestRelease(releases, false).value.tagName;
        var pulls := ClosedPulls(compare(previousTag, Committish), commitPulls);
        match ReleaseVersion.NextTag(previousTag, env.calver, strftime)
        case Failure(e) => Failure(Version(e))
        case Success(tag) =>
          if env.categories.None? then Failure(CategoriesUnset)
          else
            var body := ReleaseChangelog.GenerateBody(pulls, env.categories.value, previousTag, tag, Downcase(env.droneRepo));
            Success(Some(Drafting(previousTag, pulls, tag, body, !ShouldRelease(env, pulls))))
  }

  /** The releases after a run: one upsert of a planned draft, unless in dry run. */
  function AfterRun(env: Env, releases: seq<Release>, plan: Result<Option<Drafting>, DrafterError>, url: string, now: int)
    : seq<Release>
  {
    if plan.Success? && plan.value.Some? && !DryRun(env) then
      var d := plan.value.value;
      Upserted(releases, ReleaseAttrs(d.tag, d.tag, d.body, d.draft, Committish), url, now)
    else releases
  }

  // ---------------------------------------------------------------------------------------------
  // Properties of the decisions

  /** A run goes ahead exactly when every gate lets it, and raises only for an unset branch list. */
  lemma {:induction false} ShouldRunGates(env: Env, releases: seq<Release>, headSha: string)
    ensures ShouldRun(env, releases, headSha).Failure? <==> env.branches.None?
    ensures ShouldRun(env, releases, headSha) == Success(true)
        <==> && env.branches.Some? && Contains(env.branches.value, env.sourceBranch)
             && LatestRelease(releases, false).Some?
             && (Blank(env.enforceHead) || env.commitSha == Some(headSha))
  {
  }

  /** A branch the list does not name stops the run whatever the releases, the head, or the configuration. */
  lemma {:induction false} BranchGateFirst(env: Env, releases: seq<Release>, headSha: string,
                                           compare: (string, string) -> seq<string>, commitPulls: string -> seq<Pull>,
                                           strftime: string -> string)
    requires env.branches.Some? && !Contains(env.branches.value, env.sourceBranch)
    ensures Plan(env, releases, headSha, compare, commitPulls, strftime) == Success(None)
    ensures AfterRun(env, releases, Plan(env, releases, headSha, compare, commitPulls, strftime), "", 0) == releases
  {
  }

  /** With no published release there is nothing to compare against: no tag, no body, no write. */
  lemma {:induction false} FirstReleaseGate(env: Env, releases: seq<Release>, headSha: string,
                                            compare: (string, string) -> seq<string>, commitPulls: string -> seq<Pull>,
                                            strftime: string -> string)
    requires env.branches.Some? && LatestRelease(releases, false).None?
    ensures Plan(env, releases, headSha, compare, commitPulls, strftime) == Success(None)
  {
  }

  /** The head is consulted only when it is enforced. */
  lemma {:induction false} HeadOnlyWhenEnforced(env: Env, releases: seq<Release>, h1: string, h2: string)
    requires Blank(env.enforceHead)
    ensures ShouldRun(env, releases, h1) == ShouldRun(env, releases, h2)
  {
  }

  /** PLUGIN_BRANCHES is one string: any branch whose name occurs in it passes the first gate. */
  lemma {:induction false} BranchListIsSubstring(env: Env, releases: seq<Release>, headSha: string)
    requires env.branches == Some("main,release") && env.sourceBranch == "lease"
    requires LatestRelease(releases, false).Some? && Blank(env.enforceHead)
    ensures ShouldRun(env, releases, headSha) == Success(true)
  {
    LeaseInList();
  }

  lemma {:induction false} LeaseInList()
    ensures Contains("main,release", "lease")
  {
    ContainsStart("lease", "lease", "");
    assert "lease" + "" == "lease";
    ContainsAfter("main,re", "lease", "lease");
    assert "main,re" + "lease" == "main,release";
  }

  /** No pulls, or no release labels, or a build that did not succeed: the release stays a draft. */
  lemma {:induction false} ShouldReleaseNeeds(env: Env, pulls: seq<Pull>)
    requires ShouldRelease(env, pulls)
    ensures env.buildStatus == Some("success")
    ensures env.releaseLabels.Some? && env.releaseLabels.value != []
    ensures pulls != []
    ensures forall p :: p in pulls ==> SharesLabel(p.labels, env.releaseLabels.value)
  {
    forall p | p in pulls ensures SharesLabel(p.labels, env.releaseLabels.value) {
      var i :| 0 <= i < |pulls| && pulls[i] == p;
      assert Labelled(env.releaseLabels.value)(pulls[i]);
    }
  }

  /** Given the build and the labels, every pull carrying a release label makes the release final. */
  lemma {:induction false} ShouldReleaseWhen(env: Env, pulls: seq<Pull>)
    requires env.buildStatus == Some("success")
    requires env.releaseLabels.Some? && env.releaseLabels.value != []
    requires pulls != []
    requires forall p :: p in pulls ==> SharesLabel(p.labels, env.releaseLabels.value)
    ensures ShouldRelease(env, pulls)
  {
    forall i | 0 <= i < |pulls| ensures Labelled(env.releaseLabels.value)(pulls[i]) {
      assert pulls[i] in pulls;
    }
  }

  /** A pull with no labels keeps the release a draft. */
  lemma {:induction false} UnlabelledPullDrafts(env: Env, pulls: seq<Pull>, p: Pull)
    requires p in pulls && p.labels == []
    ensures !ShouldRelease(env, pulls)
  {
    if ShouldRelease(env, pulls) {
      ShouldReleaseNeeds(env, pulls);
      assert false;
    }
  }

  /** Releasing two batches of pulls together is releasing each of them. */
  lemma {:induction false} ShouldReleaseAppend(env: Env, a: seq<Pull>, b: seq<Pull>)
    requires a != [] && b != []
    ensures ShouldRelease(env, a + b) <==> ShouldRelease(env, a) && ShouldRelease(env, b)
  {
    if ShouldRelease(env, a + b) {
      ShouldReleaseNeeds(env, a + b);
      ShouldReleaseWhen(env, a);
      ShouldReleaseWhen(env, b);
    }
    if ShouldRelease(env, a) && ShouldRelease(env, b) {
      ShouldReleaseNeeds(env, a);
      ShouldReleaseNeeds(env, b);
      forall p | p in a + b ensures SharesLabel(p.labels, env.releaseLabels.value) {
        assert p in a || p in b;
      }
      ShouldReleaseWhen(env, a + b);
    }
  }

  /** A run that goes ahead drafts the next tag of the latest published release, from the pulls merged since. */
  lemma {:induction false} PlanDrafts(env: Env, releases: seq<Release>, headSha: string,
                                      compare: (string, string) -> seq<string>, commitPulls: string -> seq<Pull>,
                                      strftime: string -> string)
    requires Plan(env, releases, headSha, compare, commitPulls, strftime).Success?
    requires Plan(env, releases, headSha, compare, commitPulls, strftime).value.Some?
    ensures var d := Plan(env, releases, headSha, compare, commitPulls, strftime).value.value;
            && ShouldRun(env, releases, headSha) == Success(true)
            && LatestRelease(releases, false).Some?
            && d.previousTag == LatestRelease(releases, false).value.tagName
            && ReleaseVersion.NextTag(d.previousTag, env.calver, strftime) == Success(d.tag)
            && (d.draft <==> !ShouldRelease(env, d.pulls))
            && forall p :: p in d.pulls <==> IsClosed(p) && exists i :: 0 <= i < |compare(d.previousTag, Committish)|
                                                                 && p in commitPulls(compare(d.previousTag, Committish)[i])
  {
    var d := Plan(env, releases, headSha, compare, commitPulls, strftime).value.value;
    forall p ensures p in d.pulls <==> IsClosed(p) && exists i :: 0 <= i < |compare(d.previousTag, Committish)|
                                                          && p in commitPulls(compare(d.previousTag, Committish)[i]) {
      ClosedPullsMembers(compare(d.previousTag, Committish), commitPulls, p);
    }
  }

  /** A release is published, not drafted, only when the build succeeded and every pull is labelled. */
  lemma {:induction false} PublishedOnlyWhenLabelled(env: Env, releases: seq<Release>, headSha: string,
                                                     compare: (string, string) -> seq<string>,
                                                     commitPulls: string -> seq<Pull>, strftime: string -> string)
    requires Plan(env, releases, headSha, compare, commitPulls, strftime).Success?
    requires Plan(env, releases, headSha, compare, commitPulls, strftime).value.Some?
    requires !Plan(env, releases, headSha, compare, commitPulls, strftime).value.value.draft
    ensures var d := Plan(env, releases, headSha, compare, commitPulls, strftime).value.value;
            && env.buildStatus == Some("success") && d.pulls != []
            && env.releaseLabels.Some? && forall p :: p in d.pulls ==> SharesLabel(p.labels, env.releaseLabels.value)
  {
    var d := Plan(env, releases, headSha, compare, commitPulls, strftime).value.value;
    PlanDrafts(env, releases, headSha, compare, commitPulls, strftime);
    ShouldReleaseNeeds(env, d.pulls);
  }

  /** Dry run changes nothing that is computed, only whether it is written. */
  lemma {:induction false} DryRunComputesTheSame(env: Env, flag: Option<string>, releases: seq<Release>, headSha: string,
                                                 compare: (string, string) -> seq<string>,
                                                 commitPulls: string -> seq<Pull>, strftime: string -> string)
    ensures Plan(env.(dryRun := flag), releases, headSha, compare, commitPulls, strftime)
         == Plan(env, releases, headSha, compare, commitPulls, strftime)
  {
    var e := env.(dryRun := flag);
    assert ShouldRun(e, releases, headSha) == ShouldRun(env, releases, headSha);
    if ShouldRun(env, releases, headSha) == Success(true) {
      var previousTag := LatestRelease(releases, false).value.tagName;
      var pulls := ClosedPulls(compare(previousTag, Committish), commitPulls);
      assert ShouldRelease(e, pulls) == ShouldRelease(env, pulls);
    }
  }

  /** In dry run the releases are left as they were; otherwise a drafted run writes exactly once. */
  lemma {:induction false} DryRunWritesNothing(env: Env, releases: seq<Release>, plan: Result<Option<Drafting>, DrafterError>,
                                               url: string, now: int)
    requires DryRun(env)
    ensures AfterRun(env, releases, plan, url, now) == releases
  {
  }

  /** A drafted run that is not a dry run adds at most one release, carrying the new tag as its name. */
  lemma {:induction false} RunWritesOnce(env: Env, releases: seq<Release>, plan: Result<Option<Drafting>, DrafterError>,
                                         url: string, now: int)
    requires UniqueUrls(releases)
    requires plan.Success? && plan.value.Some? && !DryRun(env)
    ensures var after := AfterRun(env, releases, plan, url, now);
            var d := plan.value.value;
            && |releases| <= |after| <= |releases| + 1
            && exists k :: 0 <= k < |after| && after[k].tagName == d.tag && after[k].name == d.tag
                           && after[k].body == d.body && after[k].draft == d.draft
                           && after[k].targetCommitish == Committish
  {
    var d := plan.value.value;
    var a := ReleaseAttrs(d.tag, d.tag, d.body, d.draft, Committish);
    if LatestRelease(releases, true).Some? {
      UpsertUpdatesDraft(releases, a, url, now);
    } else {
      UpsertCreatesRelease(releases, a, url, now);
    }
  }

  // ---------------------------------------------------------------------------------------------
  // The plugin object

  class Drafter {
    const env: Env
    const repository: string
    const currentBranch: string
    const host: Host
    var githubClient: GithubClient?

    predicate Valid() {
      repository == Downcase(env.droneRepo) && currentBranch == env.sourceBranch
    }

    /** `Drafter.new`, with the environment already read and parsed. */
    constructor(env: Env, host: Host)
      ensures this.env == env && this.host == host && githubClient == null
      ensures Valid()
    {
      this.env := env;
      this.host := host;
      repository := Downcase(env.droneRepo);
      currentBranch := env.sourceBranch;
      githubClient := null;
    }

    /** `should_run?`, gate after gate. */
    method ShouldRunGates() returns (r: Result<bool, DrafterError>)
      requires Valid()
      requires githubClient != null && githubClient.host == host && githubClient.committishBranch == Committish
      ensures r == ShouldRun(env, host.releases, host.headSha(Committish))
    {
      if env.branches.None? {
        return Failure(BranchesUnset);
      }
      if !Contains(env.branches.value, currentBranch) {
        return Success(false);
      }
      var latest := githubClient.LatestPublished();
      if latest.None? {
        return Success(false);
      }
      if !Blank(env.enforceHead) {
        var head := githubClient.HeadCommitSha();
        if Some(head) != env.commitSha {
          return Success(false);
        }
      }
      return Success(true);
    }

    /**
     * `draft!`. `strftime` formats the current time; `url` and `now` are what the host assigns to
     * a release it creates.
     */
    method Draft(strftime: string -> string, url: string, now: int) returns (r: Result<Option<Drafting>, DrafterError>)
      requires Valid()
      modifies this, host
      ensures githubClient != null && fresh(githubClient)
      ensures githubClient.host == host && githubClient.repository == repository
      ensures githubClient.committishBranch == Committish
      ensures r == Plan(env, old(host.releases), host.headSha(Committish), host.compare, host.commitPulls, strftime)
      ensures host.releases == AfterRun(env, old(host.releases), r, url, now)
    {
      githubClient := new GithubClient(repository, host);
      var run := ShouldRunGates();
      if run.Failure? {
        return Failure(run.error);
      }
      if !run.value {
        return Success(None);
      }
      var latest := githubClient.LatestPublished();
      assert latest.Some?;
      var previousTag := latest.value.tagName;
      var pulls := githubClient.MergedPullRequestsFromRelease(latest.value);
      var tag := ReleaseVersion.NextTagName(previousTag, env.calver, strftime);
      if tag.Failure? {
        return Failure(Version(tag.error));
      }
      if env.categories.None? {
        return Failure(CategoriesUnset);
      }
      var sections := ReleaseChangelog.CategorizePulls(pulls, env.categories.value);
      var body := ReleaseChangelog.RenderBody(sections, previousTag, tag.value, repository);
      var draft := !ShouldRelease(env, pulls);
      if !DryRun(env) {
        var written := githubClient.UpsertDraftRelease(tag.value, tag.value, body, draft, url, now);
      }
      r := Success(Some(Drafting(previousTag, pulls, tag.value, body, draft)));
    }
  }
}
