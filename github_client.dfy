/**
 * The drafter's view of GitHub: the release list of a repository, the choice of the latest release
 * (and of the latest draft), the update-or-create of the draft, and the closed pulls associated
 * with the commits since a tag. The remote repository is an in-memory `Host` object; Octokit's
 * transport is not modelled.
 */
module Github {
  import opened Wrappers
  import opened Enumerable
  import opened Pulls

  /** A release as the API lists it. `published_at` is `nil` until the release is published. */
  datatype Release = Release(
    tagName: string,
    name: string,
    body: string,
    draft: bool,
    targetCommitish: string,
    publishedAt: Option<int>,
    createdAt: int,
    url: string)

  /** `release.published_at || release.created_at`. */
  function SortKey(r: Release): int {
    if r.publishedAt.Some? then r.publishedAt.value else r.createdAt
  }

  /** `releases(repo, per_page: 100)`: one page, the first 100 releases as the host lists them. */
  const PerPage: nat := 100

  function FirstPage(rs: seq<Release>): (r: seq<Release>)
    ensures |r| == if |rs| < PerPage then |rs| else PerPage
    ensures forall i :: 0 <= i < |r| ==> r[i] == rs[i]
  {
    if |rs| < PerPage then rs else rs[..PerPage]
  }

  /** `release.draft? == draft`. */
  function Flagged(draft: bool): Release -> bool {
    (r: Release) => r.draft == draft
  }

  /**
   * `_latest_release(draft:)`: the first page sorted by `SortKey`, reversed, and the first release
   * with the requested draft flag.
   */
  function LatestRelease(rs: seq<Release>, draft: bool): Option<Release> {
    Find(Reverse(SortBy(FirstPage(rs), SortKey)), Flagged(draft))
  }

  lemma {:induction false} ReverseMembers<T>(s: seq<T>, x: T)
    ensures x in Reverse(s) <==> x in s
  {
    var r := Reverse(s);
    if x in s {
      var j :| 0 <= j < |s| && s[j] == x;
      assert r[|s| - 1 - j] == x;
    }
    if x in r {
      var k :| 0 <= k < |r| && r[k] == x;
      assert s[|s| - 1 - k] == x;
    }
  }

  lemma {:induction false} SortedMembers(s: seq<Release>, x: Release)
    ensures x in SortBy(s, SortKey) <==> x in s
  {
    assert x in SortBy(s, SortKey) <==> x in multiset(SortBy(s, SortKey));
    assert x in s <==> x in multiset(s);
  }

  /** A release of the first page carries the requested flag exactly when one is returned, and it carries it. */
  lemma {:induction false} LatestReleaseFound(rs: seq<Release>, draft: bool)
    ensures LatestRelease(rs, draft).None? <==> forall x :: x in FirstPage(rs) ==> x.draft != draft
    ensures LatestRelease(rs, draft).Some? ==>
              LatestRelease(rs, draft).value in FirstPage(rs) && LatestRelease(rs, draft).value.draft == draft
  {
    var page := FirstPage(rs);
    var v := Reverse(SortBy(page, SortKey));
    forall x ensures x in v <==> x in page {
      ReverseMembers(SortBy(page, SortKey), x);
      SortedMembers(page, x);
    }
    assert forall x :: Flagged(draft)(x) <==> x.draft == draft;
  }

  /** No release with the requested flag in the first page sorts after the one returned. */
  lemma {:induction false} LatestReleaseMaximal(rs: seq<Release>, draft: bool, x: Release)
    requires LatestRelease(rs, draft).Some?
    requires x in FirstPage(rs) && x.draft == draft
    ensures SortKey(x) <= SortKey(LatestRelease(rs, draft).value)
  {
    var s := SortBy(FirstPage(rs), SortKey);
    SortedMembers(FirstPage(rs), x);
    var j :| 0 <= j < |s| && s[j] == x;
    assert Flagged(draft)(s[j]);
    LastFoundIsGreatest(s, SortKey, Flagged(draft), j);
  }

  /** In a sorted sequence, the first match from the end has the greatest key among the matches. */
  lemma {:induction false} LastFoundIsGreatest<T>(s: seq<T>, key: T -> int, f: T -> bool, j: nat)
    requires SortedBy(s, key) && j < |s| && f(s[j])
    ensures Find(Reverse(s), f).Some? && key(s[j]) <= key(Find(Reverse(s), f).value)
  {
    var v := Reverse(s);
    var i := FirstIndex(v, f);
    assert v[|s| - 1 - j] == s[j];
    assert i <= |s| - 1 - j;
    assert v[i] == s[|s| - 1 - i];
    if j < |s| - 1 - i {
      assert key(s[j]) <= key(s[|s| - 1 - i]);
    }
  }

  /** Releases past the first hundred are never considered. */
  lemma {:induction false} LatestReleaseIgnoresLaterPages(rs: seq<Release>, more: seq<Release>, draft: bool)
    requires |rs| >= PerPage
    ensures LatestRelease(rs + more, draft) == LatestRelease(rs, draft)
  {
    assert FirstPage(rs + more) == FirstPage(rs);
  }

  // ---------------------------------------------------------------------------------------------
  // Upsert of the draft release

  /** The attributes `upsert_draft_release` writes. */
  datatype ReleaseAttrs = ReleaseAttrs(tagName: string, name: string, body: string, draft: bool, targetCommitish: string)

  /** The release carries the written attributes. */
  predicate Written(r: Release, a: ReleaseAttrs) {
    && r.tagName == a.tagName && r.name == a.name && r.body == a.body
    && r.draft == a.draft && r.targetCommitish == a.targetCommitish
  }

  /** `published_at` as the host sets it on a write: `nil` for a draft, the time of the write otherwise. */
  function Stamp(draft: bool, now: int): Option<int> {
    if draft then None else Some(now)
  }

  /** A release the host creates from `a`, with the url it assigns and the time of creation. */
  function Created(a: ReleaseAttrs, url: string, now: int): (r: Release)
    ensures Written(r, a) && r.url == url && r.createdAt == now
  {
    Release(a.tagName, a.name, a.body, a.draft, a.targetCommitish, Stamp(a.draft, now), now, url)
  }

  /** `r` after an update with `a`: the attributes replaced, url and creation time kept. */
  function Updated(r: Release, a: ReleaseAttrs, now: int): (u: Release)
    ensures Written(u, a) && u.url == r.url && u.createdAt == r.createdAt
  {
    r.(tagName := a.tagName, name := a.name, body := a.body, draft := a.draft,
       targetCommitish := a.targetCommitish, publishedAt := Stamp(a.draft, now))
  }

  /** `update_release(url, attrs)` on the host's list: the release at `url` is updated in place. */
  function UpdateAt(rs: seq<Release>, url: string, a: ReleaseAttrs, now: int): (r: seq<Release>)
    ensures |r| == |rs|
  {
    seq(|rs|, i requires 0 <= i < |rs| => if rs[i].url == url then Updated(rs[i], a, now) else rs[i])
  }

  /**
   * The host's releases after `upsert_draft_release`: the latest draft, if there is one, is
   * updated by its url; otherwise a new release is created, and the host lists it first.
   */
  function Upserted(rs: seq<Release>, a: ReleaseAttrs, url: string, now: int): seq<Release> {
    match LatestRelease(rs, true)
    case Some(d) => UpdateAt(rs, d.url, a, now)
    case None => [Created(a, url, now)] + rs
  }

  predicate UniqueUrls(rs: seq<Release>) {
    forall i, j :: 0 <= i < j < |rs| ==> rs[i].url != rs[j].url
  }

  predicate FreshUrl(rs: seq<Release>, url: string) {
    forall i :: 0 <= i < |rs| ==> rs[i].url != url
  }

  /**
   * With a draft present, nothing is created: the count is unchanged, the draft carries the new
   * attributes, and every other release is untouched.
   */
  lemma {:induction false} UpsertUpdatesDraft(rs: seq<Release>, a: ReleaseAttrs, url: string, now: int)
    requires UniqueUrls(rs)
    requires LatestRelease(rs, true).Some?
    ensures var d := LatestRelease(rs, true).value;
            var r := Upserted(rs, a, url, now);
            && |r| == |rs|
            && exists k :: 0 <= k < |rs| && rs[k] == d && Written(r[k], a) && r[k].url == d.url
                           && r[k].createdAt == d.createdAt
                           && forall i :: 0 <= i < |rs| && i != k ==> r[i] == rs[i]
  {
    var d := LatestRelease(rs, true).value;
    LatestReleaseFound(rs, true);
    var k :| 0 <= k < |FirstPage(rs)| && FirstPage(rs)[k] == d;
    var r := Upserted(rs, a, url, now);
    assert r == UpdateAt(rs, d.url, a, now);
    assert r[k] == Updated(d, a, now);
    forall i | 0 <= i < |rs| && i != k ensures r[i] == rs[i] {
      assert rs[i].url != rs[k].url;
    }
  }

  /** With no draft on the first page, exactly one release is created, ahead of the others. */
  lemma {:induction false} UpsertCreatesRelease(rs: seq<Release>, a: ReleaseAttrs, url: string, now: int)
    requires LatestRelease(rs, true).None?
    ensures var r := Upserted(rs, a, url, now);
            && |r| == |rs| + 1
            && Written(r[0], a) && r[0].url == url && r[0].createdAt == now
            && r[1..] == rs
  {
    var r := Upserted(rs, a, url, now);
    assert r == [Created(a, url, now)] + rs;
  }

  /** The host never lists two releases at one url, as long as it assigns fresh urls. */
  lemma {:induction false} UpsertKeepsUrlsUnique(rs: seq<Release>, a: ReleaseAttrs, url: string, now: int)
    requires UniqueUrls(rs) && FreshUrl(rs, url)
    ensures UniqueUrls(Upserted(rs, a, url, now))
  {
    match LatestRelease(rs, true)
    case Some(d) =>
      UpdateKeepsUrls(rs, d.url, a, now);
    case None =>
      CreateKeepsUrlsUnique(rs, Created(a, url, now));
  }

  lemma {:induction false} UpdateKeepsUrls(rs: seq<Release>, url: string, a: ReleaseAttrs, now: int)
    requires UniqueUrls(rs)
    ensures UniqueUrls(UpdateAt(rs, url, a, now))
  {
    var r := UpdateAt(rs, url, a, now);
    forall i, j | 0 <= i < j < |r| ensures r[i].url != r[j].url {
      assert r[i].url == rs[i].url && r[j].url == rs[j].url;
    }
  }

  lemma {:induction false} CreateKeepsUrlsUnique(rs: seq<Release>, n: Release)
    requires UniqueUrls(rs) && FreshUrl(rs, n.url)
    ensures UniqueUrls([n] + rs)
  {
    var r := [n] + rs;
    forall i, j | 0 <= i < j < |r| ensures r[i].url != r[j].url {
      assert r[j] == rs[j - 1];
      if i > 0 {
        assert r[i] == rs[i - 1];
      }
    }
  }

  /** After an upsert of a draft, the first page holds a draft, so the next upsert updates it. */
  lemma {:induction false} DraftUpsertLeavesDraft(rs: seq<Release>, a: ReleaseAttrs, url: string, now: int)
    requires a.draft
    ensures LatestRelease(Upserted(rs, a, url, now), true).Some?
  {
    var r := Upserted(rs, a, url, now);
    LatestReleaseFound(rs, true);
    LatestReleaseFound(r, true);
    match LatestRelease(rs, true)
    case Some(d) =>
      var k :| 0 <= k < |FirstPage(rs)| && FirstPage(rs)[k] == d;
      assert r == UpdateAt(rs, d.url, a, now);
      assert r[k].draft;
      assert FirstPage(r)[k] == r[k];
    case None =>
      assert r == [Created(a, url, now)] + rs;
      assert r[0].draft;
      assert FirstPage(r)[0] == r[0];
  }

  /** Upserting drafts twice creates at most one release. */
  lemma {:induction false} DraftUpsertTwice(rs: seq<Release>, a: ReleaseAttrs, b: ReleaseAttrs, u1: string, u2: string,
                                            n1: int, n2: int)
    requires a.draft
    ensures |Upserted(Upserted(rs, a, u1, n1), b, u2, n2)| <= |rs| + 1
  {
    var r := Upserted(rs, a, u1, n1);
    DraftUpsertLeavesDraft(rs, a, u1, n1);
    match LatestRelease(rs, true)
    case Some(d) =>
      assert |r| == |rs|;
    case None =>
      assert |r| == |rs| + 1;
  }

  /** The host's invariant: a release that is still a draft has not been published. */
  predicate DraftsUnpublished(rs: seq<Release>) {
    forall i :: 0 <= i < |rs| && rs[i].draft ==> rs[i].publishedAt.None?
  }

  /** Every upsert keeps the drafts unpublished. */
  lemma {:induction false} UpsertKeepsDraftsUnpublished(rs: seq<Release>, a: ReleaseAttrs, url: string, now: int)
    requires DraftsUnpublished(rs)
    ensures DraftsUnpublished(Upserted(rs, a, url, now))
  {
    var r := Upserted(rs, a, url, now);
    match LatestRelease(rs, true)
    case Some(d) =>
      assert r == UpdateAt(rs, d.url, a, now);
    case None =>
      assert r == [Created(a, url, now)] + rs;
      forall i | 0 <= i < |r| && r[i].draft ensures r[i].publishedAt.None? {
        if i > 0 {
          assert r[i] == rs[i - 1];
        }
      }
  }

  /** The release an upsert writes: the latest draft updated, or a release newly created. */
  function Wrote(rs: seq<Release>, a: ReleaseAttrs, url: string, now: int): Release {
    match LatestRelease(rs, true)
    case Some(d) => Updated(d, a, now)
    case None => Created(a, url, now)
  }

  /** `UpdateAt` as a map over the release list. */
  function Rewrite(url: string, a: ReleaseAttrs, now: int): Release -> Release {
    (r: Release) => if r.url == url then Updated(r, a, now) else r
  }

  lemma {:induction false} UpdateAtRewrites(rs: seq<Release>, url: string, a: ReleaseAttrs, now: int)
    ensures UpdateAt(rs, url, a, now) == Map(rs, Rewrite(url, a, now))
  {
    var u := UpdateAt(rs, url, a, now);
    var m := Map(rs, Rewrite(url, a, now));
    assert forall i :: 0 <= i < |u| ==> u[i] == m[i];
  }

  lemma {:induction false} FirstPageMap(rs: seq<Release>, g: Release -> Release)
    ensures FirstPage(Map(rs, g)) == Map(FirstPage(rs), g)
  {
    var a := FirstPage(Map(rs, g));
    var b := Map(FirstPage(rs), g);
    assert forall i :: 0 <= i < |a| ==> a[i] == b[i];
  }

  /**
   * Rewriting the latest draft as a draft keeps it the latest draft: an unpublished draft keeps its
   * creation time as sort key, so it stays in its place in the sorted page.
   */
  lemma {:induction false} RewrittenDraftStaysLatest(rs: seq<Release>, a: ReleaseAttrs, now: int)
    requires UniqueUrls(rs) && DraftsUnpublished(rs) && a.draft
    requires LatestRelease(rs, true).Some?
    ensures var d := LatestRelease(rs, true).value;
            LatestRelease(UpdateAt(rs, d.url, a, now), true) == Some(Updated(d, a, now))
  {
    var d := LatestRelease(rs, true).value;
    var g := Rewrite(d.url, a, now);
    var page := FirstPage(rs);
    LatestReleaseFound(rs, true);
    var k :| 0 <= k < |page| && page[k] == d;
    assert rs[k] == d;
    forall y | y in page ensures SortKey(g(y)) == SortKey(y) && Flagged(true)(g(y)) == Flagged(true)(y) {
      var i :| 0 <= i < |page| && page[i] == y;
      assert rs[i] == y;
      if y.url == d.url {
        assert i == k;
      }
    }
    UpdateAtRewrites(rs, d.url, a, now);
    FirstPageMap(rs, g);
    SortByMap(page, SortKey, g);
    var sorted := SortBy(page, SortKey);
    ReverseMap(sorted, g);
    forall y | y in Reverse(sorted) ensures Flagged(true)(g(y)) == Flagged(true)(y) {
      ReverseMembers(sorted, y);
      SortedMembers(page, y);
    }
    FindMap(Reverse(sorted), Flagged(true), g);
    assert LatestRelease(UpdateAt(rs, d.url, a, now), true) == Find(Map(Reverse(sorted), g), Flagged(true));
  }

  /** The first page after a release is put in front: that release, then releases of the old first page. */
  lemma {:induction false} FirstPageCons(w: Release, rs: seq<Release>)
    ensures FirstPage([w] + rs)[0] == w
    ensures forall m :: 0 < m < |FirstPage([w] + rs)| ==> FirstPage([w] + rs)[m] in FirstPage(rs)
  {
    var page := FirstPage([w] + rs);
    forall m | 0 < m < |page| ensures page[m] in FirstPage(rs) {
      assert page[m] == rs[m - 1] == FirstPage(rs)[m - 1];
    }
  }

  /** With no draft on the first page, a release put in front is the only draft on the new first page. */
  lemma {:induction false} OnlyNewDraft(rs: seq<Release>, w: Release)
    requires LatestRelease(rs, true).None?
    ensures forall y :: y in FirstPage([w] + rs) && y.draft ==> y == w
  {
    var page := FirstPage([w] + rs);
    FirstPageCons(w, rs);
    LatestReleaseFound(rs, true);
    forall y | y in page && y.draft ensures y == w {
      var m :| 0 <= m < |page| && page[m] == y;
      assert m == 0;
    }
  }

  /** A draft created when there is none is the latest draft afterwards. */
  lemma {:induction false} CreatedDraftIsLatest(rs: seq<Release>, a: ReleaseAttrs, url: string, now: int)
    requires LatestRelease(rs, true).None? && a.draft
    ensures LatestRelease([Created(a, url, now)] + rs, true) == Some(Created(a, url, now))
  {
    var w := Created(a, url, now);
    var r := [w] + rs;
    OnlyNewDraft(rs, w);
    FirstPageCons(w, rs);
    assert w in FirstPage(r);
    LatestReleaseFound(r, true);
  }

  /**
   * Upserting twice, the first time a draft: the second call finds the release the first one wrote
   * as the latest draft and rewrites it in place, so the second call creates nothing.
   */
  lemma {:induction false} SecondUpsertRewritesFirst(rs: seq<Release>, a: ReleaseAttrs, b: ReleaseAttrs,
                                                     u1: string, u2: string, n1: int, n2: int)
    requires a.draft && UniqueUrls(rs) && DraftsUnpublished(rs)
    ensures var r1 := Upserted(rs, a, u1, n1);
            var w := Wrote(rs, a, u1, n1);
            && Written(w, a)
            && LatestRelease(r1, true) == Some(w)
            && w in r1
            && Upserted(r1, b, u2, n2) == UpdateAt(r1, w.url, b, n2)
            && |Upserted(r1, b, u2, n2)| == |r1| <= |rs| + 1
  {
    var r1 := Upserted(rs, a, u1, n1);
    var w := Wrote(rs, a, u1, n1);
    assert LatestRelease(r1, true) == Some(w) && |r1| <= |rs| + 1 by {
      match LatestRelease(rs, true)
      case Some(d) =>
        assert r1 == UpdateAt(rs, d.url, a, n1) && w == Updated(d, a, n1);
        RewrittenDraftStaysLatest(rs, a, n1);
      case None =>
        assert r1 == [Created(a, u1, n1)] + rs && w == Created(a, u1, n1);
        CreatedDraftIsLatest(rs, a, u1, n1);
    }
    assert w in r1 by {
      LatestReleaseFound(r1, true);
    }
    assert Upserted(r1, b, u2, n2) == UpdateAt(r1, w.url, b, n2);
  }

  // ---------------------------------------------------------------------------------------------
  // Merged pulls since a release

  /**
   * `_get_commit_associated_closed_pulls`: the pulls associated with each commit, concatenated in
   * commit order, with only the closed ones kept.
   */
  function ClosedPulls(commits: seq<string>, commitPulls: string -> seq<Pull>): seq<Pull> {
    Select(FlatMap(commits, commitPulls), IsClosed)
  }

  lemma {:induction false} ClosedPullsMembers(commits: seq<string>, commitPulls: string -> seq<Pull>, x: Pull)
    ensures x in ClosedPulls(commits, commitPulls)
        <==> IsClosed(x) && exists i :: 0 <= i < |commits| && x in commitPulls(commits[i])
  {
    assert x in ClosedPulls(commits, commitPulls) <==> x in FlatMap(commits, commitPulls) && IsClosed(x);
  }

  /** The pulls of later commits come after those of earlier ones. */
  lemma {:induction false} ClosedPullsAppend(a: seq<string>, b: seq<string>, commitPulls: string -> seq<Pull>)
    ensures ClosedPulls(a + b, commitPulls) == ClosedPulls(a, commitPulls) + ClosedPulls(b, commitPulls)
  {
    FlatMapAppend(a, b, commitPulls);
    SelectAppend(FlatMap(a, commitPulls), FlatMap(b, commitPulls), IsClosed);
  }

  lemma {:induction false} ClosedPullsOfOne(c: string, commitPulls: string -> seq<Pull>)
    ensures ClosedPulls([c], commitPulls) == Select(commitPulls(c), IsClosed)
  {
    assert [c][..0] == [];
    assert FlatMap([c], commitPulls) == [] + commitPulls(c);
    assert [] + commitPulls(c) == commitPulls(c);
  }

  lemma {:induction false} ClosedPullsOfClosedOne(c: string, commitPulls: string -> seq<Pull>, p: Pull)
    requires commitPulls(c) == [p] && IsClosed(p)
    ensures ClosedPulls([c], commitPulls) == [p]
  {
    ClosedPullsOfOne(c, commitPulls);
    SelectSingle(p, IsClosed);
  }

  /** A pull associated with two commits is listed twice: duplicates are kept. */
  lemma {:induction false} ClosedPullsKeepDuplicates(c1: string, c2: string, commitPulls: string -> seq<Pull>, p: Pull)
    requires commitPulls(c1) == [p] && commitPulls(c2) == [p] && IsClosed(p)
    ensures ClosedPulls([c1, c2], commitPulls) == [p, p]
  {
    var a := ClosedPulls([c1], commitPulls);
    var b := ClosedPulls([c2], commitPulls);
    assert a == [p] by {
      ClosedPullsOfClosedOne(c1, commitPulls, p);
    }
    assert b == [p] by {
      ClosedPullsOfClosedOne(c2, commitPulls, p);
    }
    assert ClosedPulls([c1, c2], commitPulls) == a + b by {
      assert [c1] + [c2] == [c1, c2];
      ClosedPullsAppend([c1], [c2], commitPulls);
    }
  }

  // ---------------------------------------------------------------------------------------------
  // The remote and the client

  /**
   * The remote repository: its release list, which the client's writes change, and the commit
   * data it answers queries with.
   */
  class Host {
    var releases: seq<Release>
    /** The head sha of a branch: `commits(repo, branch, per_page: 1).first.sha`. */
    const headSha: string -> string
    /** The shas of `compare(repo, base, head)['commits']`. */
    const compare: (string, string) -> seq<string>
    /** `commit_pulls(repo, sha)`. */
    const commitPulls: string -> seq<Pull>

    constructor(releases: seq<Release>, headSha: string -> string, compare: (string, string) -> seq<string>,
                commitPulls: string -> seq<Pull>)
      ensures this.releases == releases && this.headSha == headSha
      ensures this.compare == compare && this.commitPulls == commitPulls
    {
      this.releases := releases;
      this.headSha := headSha;
      this.compare := compare;
      this.commitPulls := commitPulls;
    }

    /** `create_release`: a new release, with a url the host assigns, listed first. */
    method CreateRelease(a: ReleaseAttrs, url: string, now: int) returns (r: Release)
      modifies this
      ensures r == Created(a, url, now)
      ensures releases == [r] + old(releases)
    {
      r := Created(a, url, now);
      releases := [r] + releases;
    }

    /** `update_release(url, attrs)`: the release at `url` is updated; it is returned if there is one. */
    method UpdateRelease(url: string, a: ReleaseAttrs, now: int) returns (r: Option<Release>)
      modifies this
      ensures releases == UpdateAt(old(releases), url, a, now)
      ensures r.Some? ==> r.value in releases && Written(r.value, a) && r.value.url == url
      ensures r.None? ==> FreshUrl(old(releases), url)
    {
      var k := FirstIndex(releases, (x: Release) => x.url == url);
      releases := UpdateAt(releases, url, a, now);
      if k < |releases| {
        r := Some(releases[k]);
      } else {
        r := None;
      }
    }
  }

  /** `GithubClient`: one repository on one host, with the committish branch new releases target. */
  class GithubClient {
    const repository: string
    const committishBranch: string
    const host: Host

    /** `GithubClient.new(repository:, access_token:, committish_branch: 'main')`. */
    constructor(repository: string, host: Host, committishBranch: string := "main")
      ensures this.repository == repository && this.host == host && this.committishBranch == committishBranch
    {
      this.repository := repository;
      this.host := host;
      this.committishBranch := committishBranch;
    }

    /** `latest_release`: the latest release that is not a draft. */
    method LatestPublished() returns (r: Option<Release>)
      ensures r == LatestRelease(host.releases, false)
    {
      r := LatestRelease(host.releases, false);
    }

    method HeadCommitSha() returns (sha: string)
      ensures sha == host.headSha(committishBranch)
    {
      sha := host.headSha(committishBranch);
    }

    /** `merged_pull_requests_from_release`: the closed pulls of the commits from the release's tag to the branch. */
    method MergedPullRequestsFromRelease(release: Release) returns (pulls: seq<Pull>)
      ensures pulls == ClosedPulls(host.compare(release.tagName, committishBranch), host.commitPulls)
    {
      var commits := host.compare(release.tagName, committishBranch);
      pulls := ClosedPulls(commits, host.commitPulls);
    }

    /**
     * `upsert_draft_release`: writes the tag, the name, the changelog as body, the draft flag and
     * the committish branch as target, to the latest draft if there is one and to a new release
     * otherwise. `url` and `now` are the url and the time the host assigns.
     */
    method UpsertDraftRelease(tagName: string, releaseName: string, changelog: string, draft: bool, url: string, now: int)
      returns (written: Release)
      modifies host
      ensures host.releases
           == Upserted(old(host.releases), ReleaseAttrs(tagName, releaseName, changelog, draft, committishBranch), url, now)
      ensures written in host.releases
      ensures Written(written, ReleaseAttrs(tagName, releaseName, changelog, draft, committishBranch))
    {
      var attrs := ReleaseAttrs(tagName, releaseName, changelog, draft, committishBranch);
      var latestDraft := LatestRelease(host.releases, true);
      if latestDraft.Some? {
        LatestReleaseFound(host.releases, true);
        var updated := host.UpdateRelease(latestDraft.value.url, attrs, now);
        if updated.Some? {
          written := updated.value;
        } else {
          assert false;
        }
      } else {
        written := host.CreateRelease(attrs, url, now);
      }
    }
  }
}
