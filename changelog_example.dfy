/**
 * The worked example of the changelog: five pulls, no merge times (all equal), and four
 * categories of which the last is the wildcard.
 */
module ChangelogExample {
  import opened Enumerable
  import opened Pulls
  import opened ReleaseChangelog

  const P1: Pull := Pull("Pull request 1", ["test"], "user2", "https://github.com/test/test/pulls/1", 0, "closed")
  const P2: Pull := Pull("Pull request 2", ["new feature"], "user1", "https://github.com/test/test/pulls/2", 0, "closed")
  const P3: Pull := Pull("Pull request 3", ["dependencies"], "user3", "https://github.com/test/test/pulls/3", 0, "closed")
  const P4: Pull := Pull("Pull request 4", ["bugfix"], "user1", "https://github.com/test/test/pulls/4", 0, "closed")
  const P5: Pull := Pull("Pull request 5", ["enhancement"], "user2", "https://github.com/test/test/pulls/5", 0, "closed")

  const ExamplePulls: seq<Pull> := [P4, P2, P3, P1, P5]

  /**
   * The labels and merge times of the example pulls, in their given order; the lemmas below hold
   * of any pulls of this shape.
   */
  predicate Shaped(ps: seq<Pull>) {
    && |ps| == 5
    && ps[0].labels == ["bugfix"]
    && ps[1].labels == ["new feature"]
    && ps[2].labels == ["dependencies"]
    && ps[3].labels == ["test"]
    && ps[4].labels == ["enhancement"]
    && ps[1].mergedAt <= ps[4].mergedAt
  }

  const Features: Category := Category("New Features", ["new feature", "enhancement"])
  const Bugfixes: Category := Category("Bugfixes", ["bugfix"])
  const Dependencies: Category := Category("Dependencies update", ["dependencies"])
  const Other: Category := Category("Other Changes", ["*"])

  const ExampleConfig: seq<Category> := [Features, Bugfixes, Dependencies, Other]

  /** The expected release body, one line per piece (an entry line split before its url). */
  const ExpectedBody: string :=
    "<!-- Release notes generated using Drone plugin -->\n\n## What's Changed\n"
    + "### New Features\n"
    + "* Pull request 2 by @user1 in " + "https://github.com/test/test/pulls/2" + "\n"
    + "* Pull request 5 by @user2 in " + "https://github.com/test/test/pulls/5" + "\n"
    + "### Bugfixes\n"
    + "* Pull request 4 by @user1 in " + "https://github.com/test/test/pulls/4" + "\n"
    + "### Dependencies update\n"
    + "* Pull request 3 by @user3 in " + "https://github.com/test/test/pulls/3" + "\n"
    + "### Other Changes\n"
    + "* Pull request 1 by @user2 in " + "https://github.com/test/test/pulls/1" + "\n"
    + "\n\n**Full Changelog**: https://github.com/test/test/compare/" + "v1.0.0...v1.1.0\n"

  lemma {:induction false} SelectConfig(f: Category -> bool)
    ensures Select(ExampleConfig, f)
         == (if f(Features) then [Features] else []) + (if f(Bugfixes) then [Bugfixes] else [])
          + (if f(Dependencies) then [Dependencies] else []) + (if f(Other) then [Other] else [])
  {
    assert ExampleConfig == [Features] + [Bugfixes] + [Dependencies] + [Other];
    SelectAppend([Features] + [Bugfixes] + [Dependencies], [Other], f);
    SelectAppend([Features] + [Bugfixes], [Dependencies], f);
    SelectAppend([Features], [Bugfixes], f);
    SelectSingle(Features, f);
    SelectSingle(Bugfixes, f);
    SelectSingle(Dependencies, f);
    SelectSingle(Other, f);
  }

  lemma {:induction false} MatchesOneLabel(p: Pull, c: Category)
    requires |p.labels| == 1
    ensures Matches(p, c) <==> p.labels[0] in c.labels
  {
    if p.labels[0] in c.labels {
      assert p.labels[0] in p.labels;
    }
  }

  lemma {:induction false} MatchingOf(p: Pull)
    requires |p.labels| == 1
    ensures MatchingCategories(p, ExampleConfig)
         == (if p.labels[0] in Features.labels then [Features] else [])
          + (if p.labels[0] in Bugfixes.labels then [Bugfixes] else [])
          + (if p.labels[0] in Dependencies.labels then [Dependencies] else [])
          + (if p.labels[0] in Other.labels then [Other] else [])
  {
    SelectConfig(c => Matches(p, c));
    MatchesOneLabel(p, Features);
    MatchesOneLabel(p, Bugfixes);
    MatchesOneLabel(p, Dependencies);
    MatchesOneLabel(p, Other);
  }

  /** A pull labelled only `test` shares no label with any category and falls back to the wildcard. */
  lemma {:induction false} TargetsOfTest(p: Pull)
    requires p.labels == ["test"]
    ensures Targets(p, ExampleConfig) == [Other]
  {
    MatchingOf(p);
    SelectConfig(IsWildcard);
  }

  lemma {:induction false} TargetsOfFeature(p: Pull)
    requires p.labels == ["new feature"] || p.labels == ["enhancement"]
    ensures Targets(p, ExampleConfig) == [Features]
  {
    MatchingOf(p);
  }

  lemma {:induction false} TargetsOfDependencies(p: Pull)
    requires p.labels == ["dependencies"]
    ensures Targets(p, ExampleConfig) == [Dependencies]
  {
    MatchingOf(p);
  }

  lemma {:induction false} TargetsOfBugfix(p: Pull)
    requires p.labels == ["bugfix"]
    ensures Targets(p, ExampleConfig) == [Bugfixes]
  {
    MatchingOf(p);
  }

  /** One copy of `p` when `c` is titled `t`, none otherwise. */
  function Once(p: Pull, c: Category, t: string): seq<Pull> {
    if c.title == t then [p] else []
  }

  lemma {:induction false} FiledOnce(pulls: seq<Pull>, p: Pull, c: Category, t: string)
    requires Targets(p, ExampleConfig) == [c]
    ensures Bucket(pulls + [p], ExampleConfig, t) == Bucket(pulls, ExampleConfig, t) + Once(p, c, t)
  {
    BucketSnoc(pulls, p, ExampleConfig, t);
    assert [c][..0] == [];
    assert Count(t, [c]) == if c.title == t then 1 else 0;
  }

  /** The buckets of the example: each pull once, under the title of its one target category. */
  lemma {:induction false} ExampleBucket(ps: seq<Pull>, t: string)
    requires Shaped(ps)
    ensures Bucket(ps, ExampleConfig, t)
         == Once(ps[0], Bugfixes, t) + Once(ps[1], Features, t) + Once(ps[2], Dependencies, t)
          + Once(ps[3], Other, t) + Once(ps[4], Features, t)
  {
    assert ps[..1] == [] + [ps[0]];
    assert ps[..2] == ps[..1] + [ps[1]];
    assert ps[..3] == ps[..2] + [ps[2]];
    assert ps[..4] == ps[..3] + [ps[3]];
    assert ps == ps[..4] + [ps[4]];
    TargetsOfBugfix(ps[0]);
    FiledOnce([], ps[0], Bugfixes, t);
    TargetsOfFeature(ps[1]);
    FiledOnce(ps[..1], ps[1], Features, t);
    TargetsOfDependencies(ps[2]);
    FiledOnce(ps[..2], ps[2], Dependencies, t);
    TargetsOfTest(ps[3]);
    FiledOnce(ps[..3], ps[3], Other, t);
    TargetsOfFeature(ps[4]);
    FiledOnce(ps[..4], ps[4], Features, t);
  }

  lemma {:induction false} FeaturesBucket(ps: seq<Pull>)
    requires Shaped(ps)
    ensures Bucket(ps, ExampleConfig, Features.title) == [ps[1], ps[4]]
  {
    ExampleBucket(ps, Features.title);
  }

  lemma {:induction false} ExampleBuckets(ps: seq<Pull>)
    requires Shaped(ps)
    ensures Bucket(ps, ExampleConfig, Features.title) == [ps[1], ps[4]]
    ensures Bucket(ps, ExampleConfig, Bugfixes.title) == [ps[0]]
    ensures Bucket(ps, ExampleConfig, Dependencies.title) == [ps[2]]
    ensures Bucket(ps, ExampleConfig, Other.title) == [ps[3]]
  {
    FeaturesBucket(ps);
    ExampleBucket(ps, Bugfixes.title);
    ExampleBucket(ps, Dependencies.title);
    ExampleBucket(ps, Other.title);
  }

  lemma {:induction false} ExampleListed(ps: seq<Pull>)
    requires Shaped(ps)
    ensures Listed(ps, ExampleConfig, ExampleConfig) == ExampleConfig
  {
    ExampleBuckets(ps);
    assert HasPulls(ps, ExampleConfig, Features);
    assert HasPulls(ps, ExampleConfig, Bugfixes);
    assert HasPulls(ps, ExampleConfig, Dependencies);
    assert HasPulls(ps, ExampleConfig, Other);
    ListedFour(ps, ExampleConfig, Features, Bugfixes, Dependencies, Other);
  }

  /** Four categories that all have pulls are all listed, in their order. */
  lemma {:induction false} ListedFour(ps: seq<Pull>, config: seq<Category>, a: Category, b: Category, c: Category, d: Category)
    requires HasPulls(ps, config, a) && HasPulls(ps, config, b)
    requires HasPulls(ps, config, c) && HasPulls(ps, config, d)
    ensures Listed(ps, config, [a, b, c, d]) == [a, b, c, d]
  {
    assert Listed(ps, config, [a]) == [a] by {
      assert [] + [a] == [a];
      ListedSnoc(ps, config, [], a);
    }
    assert Listed(ps, config, [a, b]) == [a, b] by {
      assert [a] + [b] == [a, b];
      ListedSnoc(ps, config, [a], b);
    }
    assert Listed(ps, config, [a, b, c]) == [a, b, c] by {
      assert [a, b] + [c] == [a, b, c];
      ListedSnoc(ps, config, [a, b], c);
    }
    assert [a, b, c] + [d] == [a, b, c, d];
    ListedSnoc(ps, config, [a, b, c], d);
  }

  lemma {:induction false} ListedSnoc(ps: seq<Pull>, config: seq<Category>, cs: seq<Category>, c: Category)
    requires HasPulls(ps, config, c)
    ensures Listed(ps, config, cs + [c]) == Listed(ps, config, cs) + [c]
  {
    assert (cs + [c])[..|cs|] == cs;
  }

  lemma {:induction false} BugfixesSection(ps: seq<Pull>)
    requires Shaped(ps)
    ensures SectionOf(ps, ExampleConfig, Bugfixes) == Section(Bugfixes.title, [ps[0]])
  {
    ExampleBucket(ps, Bugfixes.title);
    SingleSection(ps, Bugfixes, ps[0]);
  }

  lemma {:induction false} DependenciesSection(ps: seq<Pull>)
    requires Shaped(ps)
    ensures SectionOf(ps, ExampleConfig, Dependencies) == Section(Dependencies.title, [ps[2]])
  {
    ExampleBucket(ps, Dependencies.title);
    SingleSection(ps, Dependencies, ps[2]);
  }

  lemma {:induction false} OtherSection(ps: seq<Pull>)
    requires Shaped(ps)
    ensures SectionOf(ps, ExampleConfig, Other) == Section(Other.title, [ps[3]])
  {
    ExampleBucket(ps, Other.title);
    SingleSection(ps, Other, ps[3]);
  }

  /** The two feature pulls are already in merge order. */
  lemma {:induction false} FeaturesSection(ps: seq<Pull>)
    requires Shaped(ps)
    ensures SectionOf(ps, ExampleConfig, Features) == Section(Features.title, [ps[1], ps[4]])
  {
    FeaturesBucket(ps);
    SortBySorted([ps[1], ps[4]], MergedAt);
  }

  lemma {:induction false} SingleSection(ps: seq<Pull>, c: Category, p: Pull)
    requires Bucket(ps, ExampleConfig, c.title) == [p]
    ensures SectionOf(ps, ExampleConfig, c) == Section(c.title, [p])
  {
    SortBySorted([p], MergedAt);
  }

  /** Every category has pulls, so each gets its section, in configuration order. */
  lemma {:induction false} ExampleCategorize(ps: seq<Pull>)
    requires Shaped(ps)
    ensures Categorize(ps, ExampleConfig)
         == [ Section(Features.title, [ps[1], ps[4]]),
              Section(Bugfixes.title, [ps[0]]),
              Section(Dependencies.title, [ps[2]]),
              Section(Other.title, [ps[3]]) ]
  {
    ExampleListed(ps);
    SectionsListed(ps, ExampleConfig, ExampleConfig);
    FeaturesSection(ps);
    BugfixesSection(ps);
    DependenciesSection(ps);
    OtherSection(ps);
    var r := Categorize(ps, ExampleConfig);
    SeqOfFour(r, Section(Features.title, [ps[1], ps[4]]), Section(Bugfixes.title, [ps[0]]),
              Section(Dependencies.title, [ps[2]]), Section(Other.title, [ps[3]]));
  }

  lemma {:induction false} SeqOfFour(r: seq<Section>, a: Section, b: Section, c: Section, d: Section)
    requires |r| == 4 && r[0] == a && r[1] == b && r[2] == c && r[3] == d
    ensures r == [a, b, c, d]
  {
  }

  // ---------------------------------------------------------------------------------------------
  // The rendered body of the example

  lemma {:induction false} ExampleShaped()
    ensures Shaped(ExamplePulls)
  {
  }

  lemma {:induction false} ExampleSectionsLiteral()
    ensures Categorize(ExamplePulls, ExampleConfig)
         == [ Section("New Features", [P2, P5]), Section("Bugfixes", [P4]),
              Section("Dependencies update", [P3]), Section("Other Changes", [P1]) ]
  {
    ExampleShaped();
    ExampleCategorize(ExamplePulls);
  }

  lemma {:induction false} BlockOfOne(t: string, x: Pull)
    ensures SectionBlock(Section(t, [x])) == "### " + t + "\n" + (EntryLine(x) + "\n")
  {
    assert EntryLines([x]) == [EntryLine(x)];
  }

  lemma {:induction false} BlockOfTwo(t: string, x: Pull, y: Pull)
    ensures SectionBlock(Section(t, [x, y])) == "### " + t + "\n" + (EntryLine(x) + "\n") + (EntryLine(y) + "\n")
  {
    var lines := EntryLines([x, y]);
    assert lines == [EntryLine(x), EntryLine(y)];
    assert lines[1..] == [EntryLine(y)];
    assert Join(lines, "\n") == EntryLine(x) + "\n" + EntryLine(y);
  }

  lemma {:induction false} JoinFour(a: string, b: string, c: string, d: string)
    ensures Join([a, b, c, d], "") == a + b + c + d
  {
    assert [c, d][1..] == [d];
    assert Join([c, d], "") == c + d;
    assert [b, c, d][1..] == [c, d];
    assert Join([b, c, d], "") == b + (c + d);
    assert [a, b, c, d][1..] == [b, c, d];
    assert Join([a, b, c, d], "") == a + (b + (c + d));
  }

  lemma {:induction false} EntryOf(p: Pull, prefix: string)
    requires "* " + p.title + " by @" + p.login + " in " == prefix
    ensures EntryLine(p) + "\n" == prefix + p.url + "\n"
  {
  }

  lemma {:induction false} Line1()
    ensures EntryLine(P1) + "\n" == "* Pull request 1 by @user2 in " + "https://github.com/test/test/pulls/1" + "\n"
  {
    assert "* " + "Pull request 1" == "* Pull request 1";
    assert "* Pull request 1" + " by @" == "* Pull request 1 by @";
    assert "* Pull request 1 by @" + "user2" == "* Pull request 1 by @user2";
    assert "* Pull request 1 by @user2" + " in " == "* Pull request 1 by @user2 in ";
    EntryOf(P1, "* Pull request 1 by @user2 in ");
  }

  lemma {:induction false} Line2()
    ensures EntryLine(P2) + "\n" == "* Pull request 2 by @user1 in " + "https://github.com/test/test/pulls/2" + "\n"
  {
    assert "* " + "Pull request 2" == "* Pull request 2";
    assert "* Pull request 2" + " by @" == "* Pull request 2 by @";
    assert "* Pull request 2 by @" + "user1" == "* Pull request 2 by @user1";
    assert "* Pull request 2 by @user1" + " in " == "* Pull request 2 by @user1 in ";
    EntryOf(P2, "* Pull request 2 by @user1 in ");
  }

  lemma {:induction false} Line3()
    ensures EntryLine(P3) + "\n" == "* Pull request 3 by @user3 in " + "https://github.com/test/test/pulls/3" + "\n"
  {
    assert "* " + "Pull request 3" == "* Pull request 3";
    assert "* Pull request 3" + " by @" == "* Pull request 3 by @";
    assert "* Pull request 3 by @" + "user3" == "* Pull request 3 by @user3";
    assert "* Pull request 3 by @user3" + " in " == "* Pull request 3 by @user3 in ";
    EntryOf(P3, "* Pull request 3 by @user3 in ");
  }

  lemma {:induction false} Line4()
    ensures EntryLine(P4) + "\n" == "* Pull request 4 by @user1 in " + "https://github.com/test/test/pulls/4" + "\n"
  {
    assert "* " + "Pull request 4" == "* Pull request 4";
    assert "* Pull request 4" + " by @" == "* Pull request 4 by @";
    assert "* Pull request 4 by @" + "user1" == "* Pull request 4 by @user1";
    assert "* Pull request 4 by @user1" + " in " == "* Pull request 4 by @user1 in ";
    EntryOf(P4, "* Pull request 4 by @user1 in ");
  }

  lemma {:induction false} Line5()
    ensures EntryLine(P5) + "\n" == "* Pull request 5 by @user2 in " + "https://github.com/test/test/pulls/5" + "\n"
  {
    assert "* " + "Pull request 5" == "* Pull request 5";
    assert "* Pull request 5" + " by @" == "* Pull request 5 by @";
    assert "* Pull request 5 by @" + "user2" == "* Pull request 5 by @user2";
    assert "* Pull request 5 by @user2" + " in " == "* Pull request 5 by @user2 in ";
    EntryOf(P5, "* Pull request 5 by @user2 in ");
  }

  lemma {:induction false} ExampleFooter()
    ensures Footer("test/test", "v1.0.0", "v1.1.0")
         == "\n\n**Full Changelog**: https://github.com/test/test/compare/" + "v1.0.0...v1.1.0\n"
  {
    assert "\n\n**Full Changelog**: https://github.com/" + "test/test" + "/compare/"
        == "\n\n**Full Changelog**: https://github.com/test/test/compare/";
    assert "v1.0.0" + "..." + "v1.1.0" + "\n" == "v1.0.0...v1.1.0\n";
  }

  lemma {:induction false} FeaturesHeading()
    ensures "### " + "New Features" + "\n" == "### New Features\n"
  {
  }

  lemma {:induction false} BugfixesHeading()
    ensures "### " + "Bugfixes" + "\n" == "### Bugfixes\n"
  {
  }

  lemma {:induction false} DependenciesHeading()
    ensures "### " + "Dependencies update" + "\n" == "### Dependencies update\n"
  {
  }

  lemma {:induction false} OtherHeading()
    ensures "### " + "Other Changes" + "\n" == "### Other Changes\n"
  {
  }

  /** The blocks and the footer, taken apart into the lines (and line pieces) they are made of. */
  lemma {:induction false} Regroup(h: string, b1: string, b2: string, b3: string, b4: string, f: string,
                                   t1: string, t2: string, t3: string, t4: string,
                                   p1: string, p2: string, p3: string, p4: string, p5: string,
                                   u1: string, u2: string, u3: string, u4: string, u5: string,
                                   f1: string, f2: string)
    requires b1 == t1 + (p2 + u2 + "\n") + (p5 + u5 + "\n")
    requires b2 == t2 + (p4 + u4 + "\n")
    requires b3 == t3 + (p3 + u3 + "\n")
    requires b4 == t4 + (p1 + u1 + "\n")
    requires f == f1 + f2
    ensures h + (b1 + b2 + b3 + b4) + f
         == h + t1 + p2 + u2 + "\n" + p5 + u5 + "\n" + t2 + p4 + u4 + "\n" + t3 + p3 + u3 + "\n"
          + t4 + p1 + u1 + "\n" + f1 + f2
  {
  }

  /**
   * The release body of the example: the sections in configuration order, the two feature pulls in
   * merge order, every other pull under its one category, the test-only pull under the wildcard.
   */
  lemma {:induction false} ExampleBody()
    ensures GenerateBody(ExamplePulls, ExampleConfig, "v1.0.0", "v1.1.0", "test/test") == ExpectedBody
  {
    ExampleSectionsLiteral();
    var ss := [ Section("New Features", [P2, P5]), Section("Bugfixes", [P4]),
                Section("Dependencies update", [P3]), Section("Other Changes", [P1]) ];
    var b1 := SectionBlock(ss[0]);
    var b2 := SectionBlock(ss[1]);
    var b3 := SectionBlock(ss[2]);
    var b4 := SectionBlock(ss[3]);
    assert SectionBlocks(ss) == [b1, b2, b3, b4];
    JoinFour(b1, b2, b3, b4);
    BlockOfTwo("New Features", P2, P5);
    BlockOfOne("Bugfixes", P4);
    BlockOfOne("Dependencies update", P3);
    BlockOfOne("Other Changes", P1);
    FeaturesHeading();
    BugfixesHeading();
    DependenciesHeading();
    OtherHeading();
    Line1();
    Line2();
    Line3();
    Line4();
    Line5();
    ExampleFooter();
    Regroup(Header, b1, b2, b3, b4, Footer("test/test", "v1.0.0", "v1.1.0"),
            "### New Features\n", "### Bugfixes\n", "### Dependencies update\n", "### Other Changes\n",
            "* Pull request 1 by @user2 in ", "* Pull request 2 by @user1 in ", "* Pull request 3 by @user3 in ",
            "* Pull request 4 by @user1 in ", "* Pull request 5 by @user2 in ",
            P1.url, P2.url, P3.url, P4.url, P5.url,
            "\n\n**Full Changelog**: https://github.com/test/test/compare/", "v1.0.0...v1.1.0\n");
  }
}
