/**
 * The changelog of a release: each merged pull is filed under every category whose labels it
 * shares, or under the wildcard (`*`) categories when it shares none; categories keep their
 * configured order, empty ones are dropped, each category lists its pulls by merge time, and the
 * whole is rendered as a Markdown body that ends in a compare link.
 */
module ReleaseChangelog {
  import opened Enumerable
  import opened Pulls

  /** One entry of the `categories` list of the changelog configuration. */
  datatype Category = Category(title: string, labels: seq<string>)

  /** One heading of the changelog with the pulls listed under it. */
  datatype Section = Section(title: string, pulls: seq<Pull>)

  predicate IsWildcard(c: Category) {
    "*" in c.labels
  }

  predicate Matches(p: Pull, c: Category) {
    SharesLabel(p.labels, c.labels)
  }

  function WildcardCategories(config: seq<Category>): (r: seq<Category>)
    ensures forall c :: c in r <==> c in config && IsWildcard(c)
  {
    Select(config, IsWildcard)
  }

  function MatchingCategories(p: Pull, config: seq<Category>): (r: seq<Category>)
    ensures forall c :: c in r <==> c in config && Matches(p, c)
  {
    Select(config, c => Matches(p, c))
  }

  /**
   * The categories a pull is filed under: those it shares a label with, or, when there are none,
   * the wildcard categories.
   */
  function Targets(p: Pull, config: seq<Category>): seq<Category> {
    var m := MatchingCategories(p, config);
    if m == [] then WildcardCategories(config) else m
  }

  /** How many of `cs` carry the title `t`. */
  function Count(t: string, cs: seq<Category>): nat
    decreases |cs|
  {
    if cs == [] then 0
    else Count(t, cs[..|cs| - 1]) + (if cs[|cs| - 1].title == t then 1 else 0)
  }

  function Repeat(x: Pull, n: nat): seq<Pull> {
    seq(n, _ => x)
  }

  /**
   * A pull is filed under the categories it shares a label with, or, when there are none, under
   * the wildcard categories.
   */
  lemma {:induction false} TargetsMembers(p: Pull, config: seq<Category>)
    ensures (exists c :: c in config && Matches(p, c)) ==>
              forall c :: c in Targets(p, config) <==> c in config && Matches(p, c)
    ensures (forall c :: c in config ==> !Matches(p, c)) ==>
              forall c :: c in Targets(p, config) <==> c in config && IsWildcard(c)
  {
    var m := MatchingCategories(p, config);
    if m != [] {
      assert m[0] in m;
    }
  }

  lemma {:induction false} CountPositive(t: string, cs: seq<Category>)
    ensures Count(t, cs) > 0 <==> exists c :: c in cs && c.title == t
    decreases |cs|
  {
    if cs != [] {
      var init := cs[..|cs| - 1];
      assert cs == init + [cs[|cs| - 1]];
      CountPositive(t, init);
    }
  }

  lemma {:induction false} RepeatMembers(x: Pull, n: nat, y: Pull)
    ensures y in Repeat(x, n) <==> n > 0 && y == x
  {
    if n > 0 {
      assert Repeat(x, n)[0] == x;
    }
  }

  /**
   * What `categorized[t]` holds once every pull has been filed: the pulls in their given order,
   * each repeated once per category titled `t` it is filed under (the table is keyed by title).
   */
  function Bucket(pulls: seq<Pull>, config: seq<Category>, t: string): (r: seq<Pull>)
    decreases |pulls|
  {
    if pulls == [] then []
    else
      var last := pulls[|pulls| - 1];
      Bucket(pulls[..|pulls| - 1], config, t) + Repeat(last, Count(t, Targets(last, config)))
  }

  /** The sections that the categories `cs` contribute, in their order. */
  function Sections(pulls: seq<Pull>, config: seq<Category>, cs: seq<Category>): seq<Section>
    decreases |cs|
  {
    if cs == [] then []
    else
      var c := cs[|cs| - 1];
      var bucket := Bucket(pulls, config, c.title);
      Sections(pulls, config, cs[..|cs| - 1])
        + (if bucket == [] then [] else [Section(c.title, SortBy(bucket, MergedAt))])
  }

  /** The result of `_categorize_pulls`. */
  function Categorize(pulls: seq<Pull>, config: seq<Category>): seq<Section> {
    Sections(pulls, config, config)
  }

  lemma {:induction false} RepeatSnoc(x: Pull, n: nat)
    ensures Repeat(x, n + 1) == Repeat(x, n) + [x]
  {
  }

  lemma {:induction false} CountSnoc(t: string, cs: seq<Category>, c: Category)
    ensures Count(t, cs + [c]) == Count(t, cs) + (if c.title == t then 1 else 0)
  {
    assert (cs + [c])[..|cs|] == cs;
  }

  /** A table keyed by title holds exactly the non-empty buckets of `pulls`. */
  ghost predicate Filed(categorized: map<string, seq<Pull>>, pulls: seq<Pull>, config: seq<Category>) {
    forall t :: (t in categorized <==> Bucket(pulls, config, t) != [])
                && (t in categorized ==> categorized[t] == Bucket(pulls, config, t))
  }

  lemma {:induction false} BucketSnoc(pulls: seq<Pull>, p: Pull, config: seq<Category>, t: string)
    ensures Bucket(pulls + [p], config, t) == Bucket(pulls, config, t) + Repeat(p, Count(t, Targets(p, config)))
  {
    assert (pulls + [p])[..|pulls|] == pulls;
  }

  /** `categorized[t] || []`. */
  function Entry(categorized: map<string, seq<Pull>>, t: string): seq<Pull> {
    if t in categorized then categorized[t] else []
  }

  /** `r` is `base` with `pull` appended once per category of `cs` to that category's title. */
  ghost predicate Appended(r: map<string, seq<Pull>>, base: map<string, seq<Pull>>, pull: Pull, cs: seq<Category>) {
    forall t :: (t in r <==> t in base || Count(t, cs) > 0)
                && (t in r ==> r[t] == Entry(base, t) + Repeat(pull, Count(t, cs)))
  }

  lemma {:induction false} AppendedStep(r: map<string, seq<Pull>>, base: map<string, seq<Pull>>, pull: Pull, cs: seq<Category>, c: Category)
    requires Appended(r, base, pull, cs)
    ensures Appended(r[c.title := Entry(r, c.title) + [pull]], base, pull, cs + [c])
  {
    var r' := r[c.title := Entry(r, c.title) + [pull]];
    forall t ensures (t in r' <==> t in base || Count(t, cs + [c]) > 0)
                     && (t in r' ==> r'[t] == Entry(base, t) + Repeat(pull, Count(t, cs + [c])))
    {
      CountSnoc(t, cs, c);
      if t == c.title {
        RepeatSnoc(pull, Count(t, cs));
      }
    }
  }

  lemma {:induction false} AppendedNothing(base: map<string, seq<Pull>>, pull: Pull)
    ensures Appended(base, base, pull, [])
  {
    forall t ensures (t in base <==> t in base || Count(t, []) > 0)
                     && (t in base ==> base[t] == Entry(base, t) + Repeat(pull, Count(t, [])))
    {
      assert Repeat(pull, 0) == [];
    }
  }

  /** The inner loop of `_categorize_pulls`: appends `pull` to the entry of each category's title. */
  method FilePull(categorized: map<string, seq<Pull>>, pull: Pull, categories: seq<Category>)
    returns (r: map<string, seq<Pull>>)
    ensures Appended(r, categorized, pull, categories)
  {
    r := categorized;
    AppendedNothing(categorized, pull);
    assert categories[..0] == [];
    for j := 0 to |categories|
      invariant Appended(r, categorized, pull, categories[..j])
    {
      var title := categories[j].title;
      var bucket := Entry(r, title);
      AppendedStep(r, categorized, pull, categories[..j], categories[j]);
      r := r[title := bucket + [pull]];
      assert categories[..j + 1] == categories[..j] + [categories[j]];
    }
    assert categories[..|categories|] == categories;
  }

  /** The outer loop of `_categorize_pulls`: files every pull under its target categories. */
  method FilePulls(pulls: seq<Pull>, config: seq<Category>) returns (categorized: map<string, seq<Pull>>)
    ensures Filed(categorized, pulls, config)
  {
    categorized := map[];
    var wildcards := WildcardCategories(config);
    for i := 0 to |pulls|
      invariant Filed(categorized, pulls[..i], config)
    {
      var pull := pulls[i];
      var categories := MatchingCategories(pull, config);
      if categories == [] {
        categories := wildcards;
      }
      assert categories == Targets(pull, config);
      ghost var before := categorized;
      categorized := FilePull(categorized, pull, categories);
      assert pulls[..i + 1] == pulls[..i] + [pull];
      forall t ensures Bucket(pulls[..i + 1], config, t) == Bucket(pulls[..i], config, t) + Repeat(pull, Count(t, categories)) {
        BucketSnoc(pulls[..i], pull, config, t);
        assert t in before ==> before[t] == Entry(before, t);
      }
    }
    assert pulls[..|pulls|] == pulls;
  }

  /** `_categorize_pulls`: files the pulls in a table keyed by title, then lists the categories in order. */
  method CategorizePulls(pulls: seq<Pull>, config: seq<Category>) returns (sections: seq<Section>)
    ensures sections == Categorize(pulls, config)
  {
    var categorized := FilePulls(pulls, config);
    sections := [];
    for j := 0 to |config|
      invariant sections == Sections(pulls, config, config[..j])
    {
      var c := config[j];
      if c.title in categorized {
        sections := sections + [Section(c.title, SortBy(categorized[c.title], MergedAt))];
      }
      assert config[..j + 1][..j] == config[..j];
    }
    assert config[..|config|] == config;
  }

  // ---------------------------------------------------------------------------------------------
  // What the categorisation promises

  /** A pull is in the bucket of `t` exactly when it is one of the pulls and is filed under a category titled `t`. */
  lemma {:induction false} BucketMembers(pulls: seq<Pull>, config: seq<Category>, t: string, x: Pull)
    ensures x in Bucket(pulls, config, t) <==> x in pulls && exists c :: c in Targets(x, config) && c.title == t
    decreases |pulls|
  {
    if pulls != [] {
      var init := pulls[..|pulls| - 1];
      var last := pulls[|pulls| - 1];
      assert pulls == init + [last];
      BucketMembers(init, config, t, x);
      RepeatMembers(last, Count(t, Targets(last, config)), x);
      CountPositive(t, Targets(last, config));
    }
  }


  /** Some pull is filed under the title of `c`. */
  predicate HasPulls(pulls: seq<Pull>, config: seq<Category>, c: Category) {
    Bucket(pulls, config, c.title) != []
  }

  /** The categories of `cs` that get a section, in their order. */
  function Listed(pulls: seq<Pull>, config: seq<Category>, cs: seq<Category>): (r: seq<Category>)
    ensures forall c :: c in r <==> c in cs && HasPulls(pulls, config, c)
    decreases |cs|
  {
    if cs == [] then []
    else
      var init := cs[..|cs| - 1];
      var c := cs[|cs| - 1];
      assert cs == init + [c];
      Listed(pulls, config, init) + (if HasPulls(pulls, config, c) then [c] else [])
  }

  /** The section of a category: its title and its bucket sorted by merge time. */
  function SectionOf(pulls: seq<Pull>, config: seq<Category>, c: Category): Section {
    Section(c.title, SortBy(Bucket(pulls, config, c.title), MergedAt))
  }

  /** The sections are, in order, those of the categories that have pulls. */
  lemma {:induction false} SectionsListed(pulls: seq<Pull>, config: seq<Category>, cs: seq<Category>)
    ensures |Sections(pulls, config, cs)| == |Listed(pulls, config, cs)|
    ensures forall k :: 0 <= k < |Sections(pulls, config, cs)| ==>
              Sections(pulls, config, cs)[k] == SectionOf(pulls, config, Listed(pulls, config, cs)[k])
    decreases |cs|
  {
    if cs != [] {
      var init := cs[..|cs| - 1];
      var c := cs[|cs| - 1];
      SectionsListed(pulls, config, init);
      var front := Sections(pulls, config, init);
      var listedFront := Listed(pulls, config, init);
      var last := if HasPulls(pulls, config, c) then [SectionOf(pulls, config, c)] else [];
      var listedLast := if HasPulls(pulls, config, c) then [c] else [];
      assert Sections(pulls, config, cs) == front + last;
      assert Listed(pulls, config, cs) == listedFront + listedLast;
      forall k | 0 <= k < |front + last|
        ensures (front + last)[k] == SectionOf(pulls, config, (listedFront + listedLast)[k])
      {
        if k < |front| {
          assert (front + last)[k] == front[k];
          assert (listedFront + listedLast)[k] == listedFront[k];
        }
      }
    }
  }

  /** Section `k` of the changelog is that of a configured category with pulls. */
  lemma {:induction false} CategorizeAt(pulls: seq<Pull>, config: seq<Category>, k: nat)
    requires k < |Categorize(pulls, config)|
    ensures k < |Listed(pulls, config, config)|
    ensures var c := Listed(pulls, config, config)[k];
            Categorize(pulls, config)[k] == SectionOf(pulls, config, c) && c in config && HasPulls(pulls, config, c)
  {
    SectionsListed(pulls, config, config);
    assert Listed(pulls, config, config)[k] in Listed(pulls, config, config);
  }

  /** Every configured category with pulls gets a section of its own title. */
  lemma {:induction false} NonEmptyListed(pulls: seq<Pull>, config: seq<Category>, c: Category)
    requires c in config && HasPulls(pulls, config, c)
    ensures exists k :: 0 <= k < |Categorize(pulls, config)| && Categorize(pulls, config)[k] == SectionOf(pulls, config, c)
  {
    SectionsListed(pulls, config, config);
    var listed := Listed(pulls, config, config);
    assert c in listed;
    var k :| 0 <= k < |listed| && listed[k] == c;
    assert Categorize(pulls, config)[k] == SectionOf(pulls, config, c);
  }

  /**
   * Sections come in configuration order, one per configured category with pulls; each lists its
   * bucket, non-decreasing in merge time.
   */
  lemma {:induction false} SectionsInOrder(pulls: seq<Pull>, config: seq<Category>)
    ensures SectionTitles(Categorize(pulls, config)) == Titles(Listed(pulls, config, config))
    ensures forall k :: 0 <= k < |Categorize(pulls, config)| ==>
              var s := Categorize(pulls, config)[k];
              && s.pulls != []
              && SortedBy(s.pulls, MergedAt)
              && multiset(s.pulls) == multiset(Bucket(pulls, config, s.title))
  {
    SectionsListed(pulls, config, config);
    forall k | 0 <= k < |Categorize(pulls, config)|
      ensures var s := Categorize(pulls, config)[k];
              && s.pulls != []
              && SortedBy(s.pulls, MergedAt)
              && multiset(s.pulls) == multiset(Bucket(pulls, config, s.title))
    {
      CategorizeAt(pulls, config, k);
    }
  }

  /** A listed pull is listed under the section of its own title. */
  lemma {:induction false} SectionMembers(pulls: seq<Pull>, config: seq<Category>, k: nat, x: Pull)
    requires k < |Categorize(pulls, config)|
    ensures var s := Categorize(pulls, config)[k];
            x in s.pulls <==> x in pulls && exists c :: c in Targets(x, config) && c.title == s.title
  {
    CategorizeAt(pulls, config, k);
    var s := Categorize(pulls, config)[k];
    assert x in s.pulls <==> x in multiset(s.pulls);
    BucketMembers(pulls, config, s.title, x);
  }

  /** The pull is listed in a section titled `t`. */
  ghost predicate ListedUnder(pulls: seq<Pull>, config: seq<Category>, x: Pull, t: string) {
    exists k :: 0 <= k < |Categorize(pulls, config)| && Categorize(pulls, config)[k].title == t
                && x in Categorize(pulls, config)[k].pulls
  }

  /** A pull is listed under the title of every category it shares a label with. */
  lemma {:induction false} ListedUnderEveryMatch(pulls: seq<Pull>, config: seq<Category>, x: Pull, c: Category)
    requires x in pulls && c in config && Matches(x, c)
    ensures ListedUnder(pulls, config, x, c.title)
  {
    TargetsMembers(x, config);
    assert c in Targets(x, config);
    ListedUnderTarget(pulls, config, x, c);
  }

  /** A pull that shares no label with any category is listed under every wildcard category. */
  lemma {:induction false} WildcardFallback(pulls: seq<Pull>, config: seq<Category>, x: Pull, c: Category)
    requires x in pulls && c in config && IsWildcard(c)
    requires forall c' :: c' in config ==> !Matches(x, c')
    ensures ListedUnder(pulls, config, x, c.title)
  {
    TargetsMembers(x, config);
    assert c in Targets(x, config);
    ListedUnderTarget(pulls, config, x, c);
  }

  lemma {:induction false} ListedUnderTarget(pulls: seq<Pull>, config: seq<Category>, x: Pull, c: Category)
    requires x in pulls && c in config && c in Targets(x, config)
    ensures ListedUnder(pulls, config, x, c.title)
  {
    BucketMembers(pulls, config, c.title, x);
    NonEmptyListed(pulls, config, c);
    var k :| 0 <= k < |Categorize(pulls, config)| && Categorize(pulls, config)[k] == SectionOf(pulls, config, c);
    SectionMembers(pulls, config, k, x);
  }

  /**
   * Conversely, a pull is listed under `t` only if it is one of the pulls and `t` is the title of a
   * category it matches, or, when it matches none, of a wildcard category.
   */
  lemma {:induction false} ListedOnlyUnderTargets(pulls: seq<Pull>, config: seq<Category>, x: Pull, t: string)
    requires ListedUnder(pulls, config, x, t)
    ensures x in pulls
    ensures exists c :: c in config && c.title == t
                        && (Matches(x, c) || (IsWildcard(c) && forall c' :: c' in config ==> !Matches(x, c')))
  {
    var k :| 0 <= k < |Categorize(pulls, config)| && Categorize(pulls, config)[k].title == t
             && x in Categorize(pulls, config)[k].pulls;
    SectionMembers(pulls, config, k, x);
    var c :| c in Targets(x, config) && c.title == t;
    if !(exists c' :: c' in config && Matches(x, c')) {
      assert c in config && IsWildcard(c);
    }
  }

  /** With no wildcard category, a pull that shares no label with any category is not listed at all. */
  lemma {:induction false} UnmatchedOmitted(pulls: seq<Pull>, config: seq<Category>, x: Pull)
    requires forall c :: c in config ==> !Matches(x, c) && !IsWildcard(c)
    ensures forall k :: 0 <= k < |Categorize(pulls, config)| ==> x !in Categorize(pulls, config)[k].pulls
  {
    forall k | 0 <= k < |Categorize(pulls, config)| ensures x !in Categorize(pulls, config)[k].pulls {
      SectionMembers(pulls, config, k, x);
    }
  }

  function Titles(cs: seq<Category>): (r: seq<string>)
    ensures |r| == |cs| && forall k :: 0 <= k < |cs| ==> r[k] == cs[k].title
  {
    seq(|cs|, k requires 0 <= k < |cs| => cs[k].title)
  }

  function SectionTitles(ss: seq<Section>): (r: seq<string>)
    ensures |r| == |ss| && forall k :: 0 <= k < |ss| ==> r[k] == ss[k].title
  {
    seq(|ss|, k requires 0 <= k < |ss| => ss[k].title)
  }

  // ---------------------------------------------------------------------------------------------
  // Rendering (`generate_body`)

  /** One entry: `* TITLE by @LOGIN in URL`. */
  function EntryLine(p: Pull): string {
    "* " + p.title + " by @" + p.login + " in " + p.url
  }

  function EntryLines(ps: seq<Pull>): (r: seq<string>)
    ensures |r| == |ps| && forall i :: 0 <= i < |ps| ==> r[i] == EntryLine(ps[i])
  {
    seq(|ps|, i requires 0 <= i < |ps| => EntryLine(ps[i]))
  }

  /** The heading of a section followed by its entries, one per line. */
  function SectionBlock(s: Section): string {
    "### " + s.title + "\n" + Join(EntryLines(s.pulls), "\n") + "\n"
  }

  function SectionBlocks(ss: seq<Section>): (r: seq<string>)
    ensures |r| == |ss| && forall i :: 0 <= i < |ss| ==> r[i] == SectionBlock(ss[i])
  {
    seq(|ss|, i requires 0 <= i < |ss| => SectionBlock(ss[i]))
  }

  const Header: string := "<!-- Release notes generated using Drone plugin -->\n\n## What's Changed\n"

  function Footer(repo: string, previousTag: string, tag: string): string {
    "\n\n**Full Changelog**: https://github.com/" + repo + "/compare/" + previousTag + "..." + tag + "\n"
  }

  /** The header, the sections and the compare link. */
  function RenderBody(sections: seq<Section>, previousTag: string, tag: string, repo: string): string {
    Header + Join(SectionBlocks(sections), "") + Footer(repo, previousTag, tag)
  }

  /** `generate_body`. */
  function GenerateBody(pulls: seq<Pull>, config: seq<Category>, previousTag: string, tag: string, repo: string): string {
    RenderBody(Categorize(pulls, config), previousTag, tag, repo)
  }

  /** The body opens with the generator comment and the header, and closes with the compare link. */
  lemma {:induction false} BodyFrame(pulls: seq<Pull>, config: seq<Category>, previousTag: string, tag: string, repo: string)
    ensures var body := GenerateBody(pulls, config, previousTag, tag, repo);
            var footer := Footer(repo, previousTag, tag);
            && Header <= body
            && |footer| <= |body| && body[|body| - |footer|..] == footer
  {
    Framed(Header, Join(SectionBlocks(Categorize(pulls, config)), ""), Footer(repo, previousTag, tag));
  }

  lemma {:induction false} Framed(front: string, middle: string, back: string)
    ensures front <= front + middle + back
    ensures |back| <= |front + middle + back|
    ensures (front + middle + back)[|front + middle + back| - |back|..] == back
  {
  }

  /** A section's block holds its heading line and each of its entries. */
  lemma {:induction false} BlockContents(s: Section, x: Pull)
    requires x in s.pulls
    ensures Contains(SectionBlock(s), "### " + s.title + "\n")
    ensures Contains(SectionBlock(s), EntryLine(x))
  {
    var heading := "### " + s.title + "\n";
    var lines := Join(EntryLines(s.pulls), "\n");
    assert SectionBlock(s) == heading + (lines + "\n");
    ContainsStart(SectionBlock(s), heading, lines + "\n");
    var i :| 0 <= i < |s.pulls| && s.pulls[i] == x;
    ContainsStart(EntryLine(x), EntryLine(x), "");
    assert EntryLine(x) + "" == EntryLine(x);
    JoinContains(EntryLines(s.pulls), "\n", i, EntryLine(x));
    ContainsBefore(lines, "\n", EntryLine(x));
    ContainsAfter(heading, lines + "\n", EntryLine(x));
  }

  /** Whatever a section's block holds, the body holds. */
  lemma {:induction false} BlockInBody(ss: seq<Section>, previousTag: string, tag: string, repo: string, k: nat, needle: string)
    requires k < |ss| && Contains(SectionBlock(ss[k]), needle)
    ensures Contains(RenderBody(ss, previousTag, tag, repo), needle)
  {
    var middle := Join(SectionBlocks(ss), "");
    var footer := Footer(repo, previousTag, tag);
    JoinContains(SectionBlocks(ss), "", k, needle);
    ContainsBefore(middle, footer, needle);
    ContainsAfter(Header, middle + footer, needle);
    assert Header + middle + footer == Header + (middle + footer);
  }

  /** Every section's heading and every entry listed under it appear in the body. */
  lemma {:induction false} ListedRendered(pulls: seq<Pull>, config: seq<Category>, previousTag: string, tag: string, repo: string, k: nat, x: Pull)
    requires k < |Categorize(pulls, config)| && x in Categorize(pulls, config)[k].pulls
    ensures Contains(GenerateBody(pulls, config, previousTag, tag, repo), "### " + Categorize(pulls, config)[k].title + "\n")
    ensures Contains(GenerateBody(pulls, config, previousTag, tag, repo), EntryLine(x))
  {
    var ss := Categorize(pulls, config);
    BlockContents(ss[k], x);
    BlockInBody(ss, previousTag, tag, repo, k, "### " + ss[k].title + "\n");
    BlockInBody(ss, previousTag, tag, repo, k, EntryLine(x));
  }

  /** Each pull is rendered under every category it shares a label with. */
  lemma {:induction false} MatchRendered(pulls: seq<Pull>, config: seq<Category>, previousTag: string, tag: string, repo: string, x: Pull, c: Category)
    requires x in pulls && c in config && Matches(x, c)
    ensures Contains(GenerateBody(pulls, config, previousTag, tag, repo), "### " + c.title + "\n")
    ensures Contains(GenerateBody(pulls, config, previousTag, tag, repo), EntryLine(x))
  {
    ListedUnderEveryMatch(pulls, config, x, c);
    var k :| 0 <= k < |Categorize(pulls, config)| && Categorize(pulls, config)[k].title == c.title
             && x in Categorize(pulls, config)[k].pulls;
    ListedRendered(pulls, config, previousTag, tag, repo, k, x);
  }
}
