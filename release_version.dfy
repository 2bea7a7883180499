/**
 * Calendar-version tag resolution (`ReleaseDrafter::ReleaseVersion`).
 *
 * A tag template such as `$YEAR.$MONTH-$MICRO` is a sequence of pieces. The previous tag is parsed
 * with the regular expression derived from the template (every placeholder becomes a named `\d+`
 * capture), the tracked date parts are compared with the current ones, and the micro counter is
 * bumped or reset to `0` before the parts are substituted back into the template.
 */
module ReleaseVersion {
  import opened Wrappers
  import opened Enumerable

  datatype Part = Year | Month | Day | Micro

  /** `VALID_TAG_PARTS`, in the order the source walks them. */
  const ValidTagParts: seq<Part> := [Year, Month, Day, Micro]

  lemma IsValidTagPart(p: Part)
    ensures p in ValidTagParts
  {
  }

  /** The parts whose change is a rollover. */
  const DateParts: seq<Part> := [Year, Month, Day]

  /** `"$#{part.upcase}"`. */
  function PlaceholderName(p: Part): string {
    match p
    case Year => "$YEAR"
    case Month => "$MONTH"
    case Day => "$DAY"
    case Micro => "$MICRO"
  }

  function GroupName(p: Part): string {
    match p
    case Year => "year"
    case Month => "month"
    case Day => "day"
    case Micro => "micro"
  }

  /**
   * A piece of template or regular-expression text: literal text, a `$PART` placeholder, or the
   * named capture `(?<part>\d+)` that `_extract_tag_parts` writes in place of a placeholder.
   */
  datatype Piece = Lit(text: string) | Placeholder(part: Part) | Capture(part: Part)

  type Format = seq<Piece>

  /** Part values by part: `named_captures` of a match, or the `tag_parts` hash without its nils. */
  type Captures = map<Part, string>

  /**
   * The `calver` configuration: `strftime` patterns for the tracked date parts (`None` when not
   * configured) and the tag template `format`.
   */
  datatype CalverConfig = CalverConfig(year: Option<string>, month: Option<string>, day: Option<string>, format: Option<Format>)

  datatype VersionError =
    | NoCalverConfig    // `raise 'Unable to detect new version'`
    | NilTimePattern    // `strftime(nil)` for `day` when `year` is not configured
    | NilFormat         // `nil.gsub` when the template is missing
    | TagMismatch       // the previous tag does not match: `nil.named_captures`
    | NilMicro          // no `$MICRO` in the template and no reset: `nil.next`

  function RenderPiece(x: Piece): string {
    match x
    case Lit(t) => t
    case Placeholder(p) => PlaceholderName(p)
    case Capture(p) => "(?<" + GroupName(p) + ">\\d+)"
  }

  /** The text of a template or pattern. */
  function Render(f: Format): string
    decreases |f|
  {
    if f == [] then "" else RenderPiece(f[0]) + Render(f[1..])
  }

  /** `gsub` of one placeholder: every `$PART` of part `p` becomes `by`. */
  function ReplacePart(f: Format, p: Part, with: Piece): (r: Format)
    ensures |r| == |f|
    ensures forall k :: 0 <= k < |f| ==> r[k] == if f[k] == Placeholder(p) then with else f[k]
  {
    seq(|f|, k requires 0 <= k < |f| => if f[k] == Placeholder(p) then with else f[k])
  }

  /** The pattern derived from a template: every placeholder is a named digit capture. */
  function ToPattern(f: Format): (r: Format)
    ensures |r| == |f|
  {
    seq(|f|, k requires 0 <= k < |f| => if f[k].Placeholder? then Capture(f[k].part) else f[k])
  }

  /** The template with every placeholder whose part has a value replaced by that value. */
  function Fill(f: Format, values: Captures): (r: Format)
    ensures |r| == |f|
  {
    seq(|f|, k requires 0 <= k < |f| =>
      if f[k].Placeholder? && f[k].part in values then Lit(values[f[k].part]) else f[k])
  }

  /** The parts that have a placeholder in the template. */
  function PartsOf(f: Format): set<Part>
    decreases |f|
  {
    if f == [] then {} else (if f[0].Placeholder? then {f[0].part} else {}) + PartsOf(f[1..])
  }

  /** The parts that have a named capture in a pattern. */
  function GroupsOf(f: Format): set<Part>
    decreases |f|
  {
    if f == [] then {} else (if f[0].Capture? then {f[0].part} else {}) + GroupsOf(f[1..])
  }

  // ---------------------------------------------------------------------------------------------
  // Digits and `String#next`

  predicate IsDigit(c: char) {
    '0' <= c <= '9'
  }

  predicate AllDigits(s: string) {
    forall i :: 0 <= i < |s| ==> IsDigit(s[i])
  }

  /** What `\d+` matches: one or more ASCII digits. */
  predicate IsNumeral(s: string) {
    |s| > 0 && AllDigits(s)
  }

  predicate AllNumerals(caps: Captures) {
    forall p :: p in caps ==> IsNumeral(caps[p])
  }

  /** The number a digit string denotes. */
  function NumeralValue(s: string): nat
    requires AllDigits(s)
    decreases |s|
  {
    if s == [] then 0 else 10 * NumeralValue(s[..|s| - 1]) + (s[|s| - 1] as int - '0' as int)
  }

  lemma {:induction false} NumeralValueSnoc(s: string, c: char)
    requires AllDigits(s) && IsDigit(c)
    ensures AllDigits(s + [c])
    ensures NumeralValue(s + [c]) == 10 * NumeralValue(s) + (c as int - '0' as int)
  {
    assert (s + [c])[..|s|] == s;
  }

  /**
   * `String#next` on a string of digits: the decimal successor, keeping the width (and so any
   * leading zeros) unless every digit is a nine (`"09"` gives `"10"`, `"99"` gives `"100"`).
   */
  function DigitSucc(s: string): (r: string)
    requires AllDigits(s)
    ensures IsNumeral(r)
    ensures NumeralValue(r) == NumeralValue(s) + 1
    ensures |s| <= |r| <= |s| + 1
    ensures (exists i :: 0 <= i < |s| && s[i] != '9') ==> |r| == |s|
    decreases |s|
  {
    if s == [] then "1"
    else
      var init := s[..|s| - 1];
      var last := s[|s| - 1];
      assert s == init + [last];
      if last == '9' then
        var r := DigitSucc(init) + "0";
        NumeralValueSnoc(DigitSucc(init), '0');
        assert (exists i :: 0 <= i < |s| && s[i] != '9') ==> (exists i :: 0 <= i < |init| && init[i] != '9') by {
          if exists i :: 0 <= i < |s| && s[i] != '9' {
            var i :| 0 <= i < |s| && s[i] != '9';
            assert init[i] == s[i];
          }
        }
        r
      else
        var next := (last as int + 1) as char;
        NumeralValueSnoc(init, last);
        NumeralValueSnoc(init, next);
        init + [next]
  }

  // ---------------------------------------------------------------------------------------------
  // The regular-expression match `tag.match(regex).named_captures`

  /** The length of the run of digits that starts `s`. */
  function DigitRun(s: string): (n: nat)
    ensures n <= |s|
    ensures forall i :: 0 <= i < n ==> IsDigit(s[i])
    ensures n < |s| ==> !IsDigit(s[n])
    decreases |s|
  {
    if s == [] || !IsDigit(s[0]) then 0 else 1 + DigitRun(s[1..])
  }

  /**
   * The first match, in backtracking order, of `pat` against a prefix of `s`, extending the
   * captures `caps`. A capture is greedy: it tries the longest run of digits first and gives back
   * one digit at a time. A capture that occurs twice keeps the value it matched last. A
   * placeholder left in a pattern is the end-of-line anchor `$` followed by letters, which no
   * single-line tag matches.
   */
  function MatchAt(pat: Format, s: string, caps: Captures): (r: Option<Captures>)
    requires AllNumerals(caps)
    ensures r.Some? ==> AllNumerals(r.value)
    ensures r.Some? ==> r.value.Keys == caps.Keys + GroupsOf(pat)
    decreases |pat|, |s| + 1
  {
    if pat == [] then Some(caps)
    else match pat[0]
      case Lit(t) =>
        if t <= s then MatchAt(pat[1..], s[|t|..], caps) else None
      case Placeholder(_) => None
      case Capture(p) => TryRuns(p, pat[1..], s, caps, DigitRun(s))
  }

  /** Backtracking over the length `k` of the digits a capture of part `p` takes. */
  function TryRuns(p: Part, rest: Format, s: string, caps: Captures, k: nat): (r: Option<Captures>)
    requires AllNumerals(caps)
    requires k <= DigitRun(s)
    ensures r.Some? ==> AllNumerals(r.value)
    ensures r.Some? ==> r.value.Keys == caps.Keys + {p} + GroupsOf(rest)
    decreases |rest| + 1, k
  {
    if k == 0 then None
    else
      var m := MatchAt(rest, s[k..], caps[p := s[..k]]);
      if m.Some? then m else TryRuns(p, rest, s, caps, k - 1)
  }

  /** An unanchored search: the match at the leftmost position where there is one. */
  function SearchFrom(pat: Format, s: string, i: nat): (r: Option<Captures>)
    requires i <= |s|
    ensures r.Some? ==> AllNumerals(r.value) && r.value.Keys == GroupsOf(pat)
    decreases |s| - i
  {
    var m := MatchAt(pat, s[i..], map[]);
    if m.Some? then m
    else if i == |s| then None
    else SearchFrom(pat, s, i + 1)
  }

  function Search(pat: Format, s: string): (r: Option<Captures>)
    ensures r.Some? ==> AllNumerals(r.value) && r.value.Keys == GroupsOf(pat)
  {
    SearchFrom(pat, s, 0)
  }

  lemma {:induction false} GroupsOfPattern(f: Format)
    ensures GroupsOf(ToPattern(f)) == PartsOf(f) + GroupsOf(f)
    decreases |f|
  {
    if f != [] {
      assert ToPattern(f)[1..] == ToPattern(f[1..]);
      GroupsOfPattern(f[1..]);
    }
  }

  /**
   * `_extract_tag_parts`: rewrites each part's placeholder into its named capture, one part at a
   * time, then matches the previous tag against the resulting pattern.
   */
  method ExtractTagParts(tag: string, format: Format) returns (parts: Option<Captures>)
    ensures parts == Search(ToPattern(format), tag)
  {
    var regex := format;
    for i := 0 to |ValidTagParts|
      invariant |regex| == |format|
      invariant forall k :: 0 <= k < |format| ==>
        regex[k] == if format[k].Placeholder? && format[k].part in ValidTagParts[..i]
                    then Capture(format[k].part) else format[k]
    {
      var part := ValidTagParts[i];
      assert ValidTagParts[..i + 1] == ValidTagParts[..i] + [part];
      regex := ReplacePart(regex, part, Capture(part));
    }
    assert ValidTagParts[..|ValidTagParts|] == ValidTagParts;
    forall k | 0 <= k < |format| && format[k].Placeholder? ensures format[k].part in ValidTagParts {
      IsValidTagPart(format[k].part);
    }
    assert regex == ToPattern(format);
    parts := Search(regex, tag);
  }

  // ---------------------------------------------------------------------------------------------
  // `next_tag_name`

  /**
   * The `tag_parts` hash: the current value of every configured part, formatted by `strftime`
   * (the clock, given as a function from pattern to formatted text), and micro `"0"`. The day is
   * formatted with the YEAR pattern, as the source does, so a configured day without a
   * configured year is `strftime(nil)`, which raises.
   */
  function CurrentParts(c: CalverConfig, strftime: string -> string): (r: Result<Captures, VersionError>)
    ensures r.Failure? <==> c.day.Some? && c.year.None?
    ensures r.Success? ==> Micro in r.value && r.value[Micro] == "0"
    ensures r.Success? ==> (Year in r.value <==> c.year.Some?) && (Month in r.value <==> c.month.Some?)
    ensures r.Success? ==> (Day in r.value <==> c.day.Some?)
    ensures r.Success? && c.year.Some? ==> r.value[Year] == strftime(c.year.value)
    ensures r.Success? && c.month.Some? ==> r.value[Month] == strftime(c.month.value)
    ensures r.Success? && c.day.Some? ==> r.value[Day] == strftime(c.year.value)
  {
    if c.day.Some? && c.year.None? then Failure(NilTimePattern)
    else
      var year: Captures := if c.year.Some? then map[Year := strftime(c.year.value)] else map[];
      var month: Captures := if c.month.Some? then map[Month := strftime(c.month.value)] else map[];
      var day: Captures := if c.day.Some? then map[Day := strftime(c.year.value)] else map[];
      Success(year + month + day + map[Micro := "0"])
  }

  /** The tracked part `p` has a value in both the previous tag and now, and the two differ. */
  predicate Changed(prev: Captures, cur: Captures, p: Part) {
    p in prev && p in cur && prev[p] != cur[p]
  }

  /**
   * Some date part has changed since the previous tag. A part missing from either side (not
   * configured, or absent from the template) never counts.
   */
  function Rollover(prev: Captures, cur: Captures): (rolled: bool)
    ensures rolled <==> exists p :: p in DateParts && Changed(prev, cur, p)
    ensures rolled ==> exists p :: p in DateParts && p in prev && p in cur
  {
    Changed(prev, cur, Year) || Changed(prev, cur, Month) || Changed(prev, cur, Day)
  }

  /** The parts substituted into the new tag: micro reset on a rollover, else the previous micro's successor. */
  function NextParts(prev: Captures, cur: Captures): (r: Captures)
    requires AllNumerals(prev)
    requires Micro in cur && IsNumeral(cur[Micro])
    requires Rollover(prev, cur) || Micro in prev
    ensures r.Keys == cur.Keys
    ensures forall p :: p in cur && p != Micro ==> r[p] == cur[p]
    ensures IsNumeral(r[Micro])
    ensures Rollover(prev, cur) ==> r[Micro] == cur[Micro]
    ensures !Rollover(prev, cur) ==> NumeralValue(r[Micro]) == NumeralValue(prev[Micro]) + 1
  {
    if Rollover(prev, cur) then cur else cur[Micro := DigitSucc(prev[Micro])]
  }

  /** The previous tag's parts, when the configuration gets that far. */
  function PreviousParts(previousTag: string, c: CalverConfig): Option<Captures>
    requires c.format.Some?
  {
    Search(ToPattern(c.format.value), previousTag)
  }

  /** The specification of `next_tag_name`. */
  function NextTag(previousTag: string, config: Option<CalverConfig>, strftime: string -> string)
    : (r: Result<string, VersionError>)
    ensures config.None? <==> r == Failure(NoCalverConfig)
    ensures r.Success? ==> config.value.format.Some? && PreviousParts(previousTag, config.value).Some?
    ensures r == Failure(NilMicro) ==>
      config.Some? && config.value.format.Some? && Micro !in PartsOf(config.value.format.value)
  {
    if config.None? then Failure(NoCalverConfig)
    else
      var c := config.value;
      match CurrentParts(c, strftime)
      case Failure(e) => Failure(e)
      case Success(cur) =>
        if c.format.None? then Failure(NilFormat)
        else
          GroupsOfPattern(c.format.value);
          match PreviousParts(previousTag, c)
          case None => Failure(TagMismatch)
          case Some(prev) =>
            if !Rollover(prev, cur) && Micro !in prev then Failure(NilMicro)
            else Success(Render(Fill(c.format.value, NextParts(prev, cur))))
  }

  /** The substitution loop of `next_tag_name`: each part's placeholders are replaced by its value, if it has one. */
  method Substitute(format: Format, tagParts: Captures) returns (tag: string)
    ensures tag == Render(Fill(format, tagParts))
  {
    var tagName := format;
    for i := 0 to |ValidTagParts|
      invariant |tagName| == |format|
      invariant forall k :: 0 <= k < |format| ==>
        tagName[k] == if format[k].Placeholder? && format[k].part in ValidTagParts[..i] && format[k].part in tagParts
                      then Lit(tagParts[format[k].part]) else format[k]
    {
      var part := ValidTagParts[i];
      assert ValidTagParts[..i + 1] == ValidTagParts[..i] + [part];
      if part in tagParts {
        tagName := ReplacePart(tagName, part, Lit(tagParts[part]));
      }
    }
    assert ValidTagParts[..|ValidTagParts|] == ValidTagParts;
    forall k | 0 <= k < |format| && format[k].Placeholder? ensures format[k].part in ValidTagParts {
      IsValidTagPart(format[k].part);
    }
    assert tagName == Fill(format, tagParts);
    tag := Render(tagName);
  }

  /** `ReleaseVersion.next_tag_name`. */
  method NextTagName(previousTag: string, config: Option<CalverConfig>, strftime: string -> string)
    returns (r: Result<string, VersionError>)
    ensures r == NextTag(previousTag, config, strftime)
  {
    if config.None? {
      return Failure(NoCalverConfig);
    }
    var c := config.value;
    var current := CurrentParts(c, strftime);
    if current.Failure? {
      return Failure(current.error);
    }
    var tagParts := current.value;
    if c.format.None? {
      return Failure(NilFormat);
    }
    var format := c.format.value;
    var previous := ExtractTagParts(previousTag, format);
    if previous.None? {
      return Failure(TagMismatch);
    }
    var prev := previous.value;
    if !Rollover(prev, tagParts) {
      if Micro !in prev {
        return Failure(NilMicro);
      }
      tagParts := tagParts[Micro := DigitSucc(prev[Micro])];
    }
    var tagName := Substitute(format, tagParts);
    r := Success(tagName);
  }

  // ---------------------------------------------------------------------------------------------
  // Round trip: a tag produced from a template parses back under that template

  /**
   * The template has no capture text, and a placeholder is never followed directly by another
   * placeholder or by a digit, so that each substituted numeral ends where its digits end.
   */
  predicate Separated(f: Format) {
    && (forall k :: 0 <= k < |f| ==> !f[k].Capture?)
    && (forall k :: 0 <= k < |f| - 1 && f[k].Placeholder? ==>
          f[k + 1].Lit? && f[k + 1].text != [] && !IsDigit(f[k + 1].text[0]))
  }

  /** Every placeholder of the template has a numeral value. */
  predicate Covers(values: Captures, f: Format) {
    forall k :: 0 <= k < |f| && f[k].Placeholder? ==> f[k].part in values && IsNumeral(values[f[k].part])
  }

  function Restrict(values: Captures, parts: set<Part>): Captures {
    map p | p in parts && p in values :: values[p]
  }

  lemma {:induction false} DigitRunOfDigits(v: string, rest: string)
    requires AllDigits(v)
    requires rest == [] || !IsDigit(rest[0])
    ensures DigitRun(v + rest) == |v|
    decreases |v|
  {
    if v == [] {
      assert v + rest == rest;
    } else {
      assert (v + rest)[0] == v[0];
      assert (v + rest)[1..] == v[1..] + rest;
      DigitRunOfDigits(v[1..], rest);
    }
  }

  lemma {:induction false} MatchRendered(f: Format, values: Captures, suffix: string, caps: Captures)
    requires Separated(f) && Covers(values, f) && AllNumerals(caps)
    requires f != [] && f[|f| - 1].Placeholder? ==> suffix == [] || !IsDigit(suffix[0])
    ensures MatchAt(ToPattern(f), Render(Fill(f, values)) + suffix, caps)
         == Some(caps + Restrict(values, PartsOf(f)))
    decreases |f|, 1
  {
    if f == [] {
      assert ToPattern(f) == [];
      assert Render(Fill(f, values)) + suffix == suffix;
      assert caps + Restrict(values, PartsOf(f)) == caps;
    } else {
      TailFacts(f, values);
      assert !f[0].Capture?;
      if f[0].Lit? {
        MatchRenderedLit(f, values, suffix, caps);
      } else {
        MatchRenderedPlaceholder(f, values, suffix, caps);
      }
    }
  }

  lemma {:induction false} TailFacts(f: Format, values: Captures)
    requires f != [] && Separated(f) && Covers(values, f)
    ensures Separated(f[1..]) && Covers(values, f[1..])
    ensures ToPattern(f)[0] == (if f[0].Placeholder? then Capture(f[0].part) else f[0])
    ensures ToPattern(f)[1..] == ToPattern(f[1..])
    ensures Fill(f, values)[1..] == Fill(f[1..], values)
    ensures Render(Fill(f, values)) == RenderPiece(Fill(f, values)[0]) + Render(Fill(f[1..], values))
  {
    var tailF := f[1..];
    forall k | 0 <= k < |tailF| ensures !tailF[k].Capture? {
      assert tailF[k] == f[k + 1];
    }
    forall k | 0 <= k < |tailF| - 1 && tailF[k].Placeholder?
      ensures tailF[k + 1].Lit? && tailF[k + 1].text != [] && !IsDigit(tailF[k + 1].text[0])
    {
      assert tailF[k] == f[k + 1] && tailF[k + 1] == f[k + 2];
    }
    forall k | 0 <= k < |tailF| && tailF[k].Placeholder?
      ensures tailF[k].part in values && IsNumeral(values[tailF[k].part])
    {
      assert tailF[k] == f[k + 1];
    }
    assert Fill(f, values)[1..] == Fill(tailF, values);
  }

  lemma {:induction false} MatchRenderedLit(f: Format, values: Captures, suffix: string, caps: Captures)
    requires f != [] && f[0].Lit?
    requires Separated(f) && Covers(values, f) && AllNumerals(caps)
    requires Separated(f[1..]) && Covers(values, f[1..])
    requires f[|f| - 1].Placeholder? ==> suffix == [] || !IsDigit(suffix[0])
    requires ToPattern(f)[0] == f[0] && ToPattern(f)[1..] == ToPattern(f[1..])
    requires Render(Fill(f, values)) == f[0].text + Render(Fill(f[1..], values))
    ensures MatchAt(ToPattern(f), Render(Fill(f, values)) + suffix, caps)
         == Some(caps + Restrict(values, PartsOf(f)))
    decreases |f|, 0
  {
    var t := f[0].text;
    var rest := Render(Fill(f[1..], values)) + suffix;
    var s := Render(Fill(f, values)) + suffix;
    assert s == t + rest;
    assert t <= s && s[|t|..] == rest;
    MatchRendered(f[1..], values, suffix, caps);
    assert PartsOf(f) == PartsOf(f[1..]);
  }

  lemma {:induction false} MatchRenderedPlaceholder(f: Format, values: Captures, suffix: string, caps: Captures)
    requires f != [] && f[0].Placeholder?
    requires Separated(f) && Covers(values, f) && AllNumerals(caps)
    requires Separated(f[1..]) && Covers(values, f[1..])
    requires f[|f| - 1].Placeholder? ==> suffix == [] || !IsDigit(suffix[0])
    requires ToPattern(f)[0] == Capture(f[0].part) && ToPattern(f)[1..] == ToPattern(f[1..])
    requires Render(Fill(f, values)) == values[f[0].part] + Render(Fill(f[1..], values))
    ensures MatchAt(ToPattern(f), Render(Fill(f, values)) + suffix, caps)
         == Some(caps + Restrict(values, PartsOf(f)))
    decreases |f|, 0
  {
    var tailF := f[1..];
    var p := f[0].part;
    var v := values[p];
    var rest := Render(Fill(tailF, values)) + suffix;
    var s := Render(Fill(f, values)) + suffix;
    assert s == v + rest;
    if tailF != [] {
      assert tailF[0] == f[1];
      assert Fill(tailF, values)[0] == tailF[0];
      RenderStartsWith(Fill(tailF, values));
      assert rest[0] == tailF[0].text[0];
    } else {
      assert rest == suffix;
    }
    var pat := ToPattern(f);
    assert pat[0] == Capture(p);
    assert MatchAt(pat, s, caps) == TryRuns(p, pat[1..], s, caps, DigitRun(s));
    MatchRendered(tailF, values, suffix, caps[p := v]);
    CaptureTakesRun(p, pat[1..], caps, v, rest);
    assert PartsOf(f) == {p} + PartsOf(tailF);
    RestrictCons(caps, values, p, PartsOf(tailF));
  }

  /** A capture followed by a non-digit takes the whole run of digits if the rest then matches. */
  lemma {:induction false} CaptureTakesRun(p: Part, rest: Format, caps: Captures, v: string, tail: string)
    requires AllNumerals(caps) && IsNumeral(v)
    requires tail == [] || !IsDigit(tail[0])
    requires MatchAt(rest, tail, caps[p := v]).Some?
    ensures DigitRun(v + tail) == |v|
    ensures TryRuns(p, rest, v + tail, caps, |v|) == MatchAt(rest, tail, caps[p := v])
  {
    var s := v + tail;
    DigitRunOfDigits(v, tail);
    assert s[..|v|] == v && s[|v|..] == tail;
  }

  lemma {:induction false} RestrictCons(caps: Captures, values: Captures, p: Part, parts: set<Part>)
    requires p in values
    ensures caps[p := values[p]] + Restrict(values, parts) == caps + Restrict(values, {p} + parts)
  {
  }

  lemma {:induction false} RenderStartsWith(f: Format)
    requires f != [] && f[0].Lit? && f[0].text != []
    ensures Render(f) != [] && Render(f)[0] == f[0].text[0]
  {
  }

  /**
   * Parsing a tag produced by substituting numerals into a separated template recovers exactly the
   * substituted values, one per part that has a placeholder.
   */
  lemma {:induction false} RoundTrip(f: Format, values: Captures)
    requires Separated(f) && Covers(values, f)
    ensures Search(ToPattern(f), Render(Fill(f, values))) == Some(Restrict(values, PartsOf(f)))
  {
    var s := Render(Fill(f, values));
    MatchRendered(f, values, "", map[]);
    assert s + "" == s && s[0..] == s;
    assert map[] + Restrict(values, PartsOf(f)) == Restrict(values, PartsOf(f));
  }

  /**
   * The tag `next_tag_name` produces parses under its own template, provided the template is
   * separated and every part it names is tracked with a numeral current value. The date parts read
   * back are the current ones; the micro read back is `0` after a rollover and otherwise the
   * previous micro plus one.
   */
  lemma {:induction false} NextTagParsesUnderItsTemplate(previousTag: string, c: CalverConfig, strftime: string -> string, tag: string)
    requires NextTag(previousTag, Some(c), strftime) == Success(tag)
    requires c.format.Some? && Separated(c.format.value)
    requires CurrentParts(c, strftime).Success?
    requires forall p :: p in PartsOf(c.format.value) && p != Micro ==>
               p in CurrentParts(c, strftime).value && IsNumeral(CurrentParts(c, strftime).value[p])
    ensures PreviousParts(tag, c).Some?
    ensures forall p :: p in PartsOf(c.format.value) && p != Micro ==>
              p in PreviousParts(tag, c).value && PreviousParts(tag, c).value[p] == CurrentParts(c, strftime).value[p]
    ensures Micro in PartsOf(c.format.value) ==>
              && Micro in PreviousParts(tag, c).value
              && (Rollover(PreviousParts(previousTag, c).value, CurrentParts(c, strftime).value) ==>
                    PreviousParts(tag, c).value[Micro] == "0")
              && (!Rollover(PreviousParts(previousTag, c).value, CurrentParts(c, strftime).value) ==>
                    && Micro in PreviousParts(previousTag, c).value
                    && NumeralValue(PreviousParts(tag, c).value[Micro])
                       == NumeralValue(PreviousParts(previousTag, c).value[Micro]) + 1)
  {
    var f := c.format.value;
    var cur := CurrentParts(c, strftime).value;
    var prev := PreviousParts(previousTag, c).value;
    NextTagSucceeded(previousTag, c, strftime, tag);
    var values := NextParts(prev, cur);
    forall k | 0 <= k < |f| && f[k].Placeholder? ensures f[k].part in values && IsNumeral(values[f[k].part]) {
      PartsOfMember(f, k);
    }
    assert Covers(values, f);
    RoundTrip(f, values);
    var back := Restrict(values, PartsOf(f));
    assert PreviousParts(tag, c) == Some(back);
  }

  /** Conversely, once both tags parse and a micro is there to increment, the next tag is the filled template. */
  lemma {:induction false} NextTagComputes(previousTag: string, c: CalverConfig, strftime: string -> string, prev: Captures, cur: Captures)
    requires c.format.Some?
    requires CurrentParts(c, strftime) == Success(cur)
    requires PreviousParts(previousTag, c) == Some(prev)
    requires Rollover(prev, cur) || Micro in prev
    ensures NextTag(previousTag, Some(c), strftime) == Success(Render(Fill(c.format.value, NextParts(prev, cur))))
  {
  }

  /** What a successful `next_tag_name` has computed on the way. */
  lemma {:induction false} NextTagSucceeded(previousTag: string, c: CalverConfig, strftime: string -> string, tag: string)
    requires NextTag(previousTag, Some(c), strftime) == Success(tag)
    ensures CurrentParts(c, strftime).Success? && c.format.Some? && PreviousParts(previousTag, c).Some?
    ensures Rollover(PreviousParts(previousTag, c).value, CurrentParts(c, strftime).value)
         || Micro in PreviousParts(previousTag, c).value
    ensures tag == Render(Fill(c.format.value, NextParts(PreviousParts(previousTag, c).value, CurrentParts(c, strftime).value)))
  {
  }

  lemma {:induction false} PartsOfMember(f: Format, k: nat)
    requires k < |f| && f[k].Placeholder?
    ensures f[k].part in PartsOf(f)
    decreases k
  {
    if k > 0 {
      PartsOfMember(f[1..], k - 1);
    }
  }

  // ---------------------------------------------------------------------------------------------
  // Soundness: a successful parse is a real occurrence of the filled-in template

  /** The text a pattern stands for once each capture takes the value `caps` holds for its part. */
  function Instantiate(pat: Format, caps: Captures): string
    decreases |pat|
  {
    if pat == [] then ""
    else
      var head := match pat[0]
        case Lit(t) => t
        case Placeholder(p) => PlaceholderName(p)
        case Capture(p) => if p in caps then caps[p] else "";
      head + Instantiate(pat[1..], caps)
  }

  /** No part is captured twice in the pattern. */
  predicate UniqueGroups(pat: Format)
    decreases |pat|
  {
    pat != [] ==> (pat[0].Capture? ==> pat[0].part !in GroupsOf(pat[1..])) && UniqueGroups(pat[1..])
  }

  /** No part has two placeholders in the template. */
  predicate UniqueParts(f: Format)
    decreases |f|
  {
    f != [] ==> (f[0].Placeholder? ==> f[0].part !in PartsOf(f[1..])) && UniqueParts(f[1..])
  }

  lemma {:induction false} PrefixConcat(t: string, u: string, s: string)
    requires t <= s && u <= s[|t|..]
    ensures t + u <= s
  {
    forall i | 0 <= i < |t + u| ensures (t + u)[i] == s[i] {
      if i >= |t| {
        assert (t + u)[i] == u[i - |t|] == s[|t|..][i - |t|];
      }
    }
  }

  /**
   * A match of a pattern without repeated captures starts with the text the pattern stands for
   * under the captures it returns, and leaves the captures it was given for other parts alone.
   */
  lemma {:induction false} MatchSound(pat: Format, s: string, caps: Captures)
    requires AllNumerals(caps) && UniqueGroups(pat)
    requires MatchAt(pat, s, caps).Some?
    ensures var r := MatchAt(pat, s, caps).value;
            && Instantiate(pat, r) <= s
            && forall q :: q in caps && q !in GroupsOf(pat) ==> q in r && r[q] == caps[q]
    decreases |pat|, |s| + 1
  {
    if pat != [] {
      var r := MatchAt(pat, s, caps).value;
      var rest := pat[1..];
      match pat[0]
      case Lit(t) =>
        assert t <= s && r == MatchAt(rest, s[|t|..], caps).value;
        MatchSound(rest, s[|t|..], caps);
        PrefixConcat(t, Instantiate(rest, r), s);
      case Capture(p) =>
        assert r == TryRuns(p, rest, s, caps, DigitRun(s)).value;
        TrySound(p, rest, s, caps, DigitRun(s));
        assert Instantiate(pat, r) == r[p] + Instantiate(rest, r);
    }
  }

  lemma {:induction false} TrySound(p: Part, rest: Format, s: string, caps: Captures, k: nat)
    requires AllNumerals(caps) && k <= DigitRun(s)
    requires UniqueGroups(rest) && p !in GroupsOf(rest)
    requires TryRuns(p, rest, s, caps, k).Some?
    ensures var r := TryRuns(p, rest, s, caps, k).value;
            && p in r && r[p] + Instantiate(rest, r) <= s
            && forall q :: q in caps && q != p && q !in GroupsOf(rest) ==> q in r && r[q] == caps[q]
    decreases |rest| + 1, k
  {
    var r := TryRuns(p, rest, s, caps, k).value;
    var run := s[..k];
    assert IsNumeral(run);
    var m := MatchAt(rest, s[k..], caps[p := run]);
    if m.Some? {
      assert r == m.value;
      MatchSound(rest, s[k..], caps[p := run]);
      assert |run| == k && s[|run|..] == s[k..];
      PrefixConcat(run, Instantiate(rest, r), s);
    } else {
      TrySound(p, rest, s, caps, k - 1);
    }
  }

  lemma {:induction false} SearchFromSound(pat: Format, s: string, i: nat)
    requires i <= |s| && UniqueGroups(pat)
    requires SearchFrom(pat, s, i).Some?
    ensures Contains(s[i..], Instantiate(pat, SearchFrom(pat, s, i).value))
    decreases |s| - i
  {
    var m := MatchAt(pat, s[i..], map[]);
    if m.Some? {
      MatchSound(pat, s[i..], map[]);
    } else {
      SearchFromSound(pat, s, i + 1);
      assert s[i..][1..] == s[i + 1..];
    }
  }

  /** The template has no capture text. */
  predicate NoCaptures(f: Format) {
    forall k :: 0 <= k < |f| ==> !f[k].Capture?
  }

  lemma {:induction false} PatternOfTemplate(f: Format, c: Captures)
    requires NoCaptures(f) && UniqueParts(f) && PartsOf(f) <= c.Keys
    ensures GroupsOf(ToPattern(f)) == PartsOf(f)
    ensures UniqueGroups(ToPattern(f))
    ensures Instantiate(ToPattern(f), c) == Render(Fill(f, c))
    decreases |f|
  {
    if f != [] {
      var tail := f[1..];
      assert ToPattern(f)[1..] == ToPattern(tail);
      assert Fill(f, c)[1..] == Fill(tail, c);
      assert NoCaptures(tail) by {
        forall k | 0 <= k < |tail| ensures !tail[k].Capture? {
          assert tail[k] == f[k + 1];
        }
      }
      assert f[0] in f;
      PatternOfTemplate(tail, c);
    }
  }

  /**
   * A previous tag that parses under a template without capture text or repeated parts contains
   * the template filled in with the parsed values: the captures describe a real match.
   */
  lemma {:induction false} SearchSound(f: Format, s: string)
    requires NoCaptures(f) && UniqueParts(f)
    requires Search(ToPattern(f), s).Some?
    ensures Contains(s, Render(Fill(f, Search(ToPattern(f), s).value)))
  {
    var c := Search(ToPattern(f), s).value;
    GroupsOfPattern(f);
    PatternOfTemplate(f, c);
    SearchFromSound(ToPattern(f), s, 0);
    assert s[0..] == s;
  }

  // ---------------------------------------------------------------------------------------------
  // The three cases of the source's own examples: template `$YEAR.$MONTH-$MICRO`, year `%y`, month `%m`

  const ExampleFormat: Format := [Placeholder(Year), Lit("."), Placeholder(Month), Lit("-"), Placeholder(Micro)]

  const ExampleConfig: CalverConfig := CalverConfig(Some("%y"), Some("%m"), None, Some(ExampleFormat))

  /** A clock whose `%y` and `%m` read `yy` and `mm`. */
  function ClockAt(yy: string, mm: string): string -> string {
    pattern => if pattern == "%y" then yy else if pattern == "%m" then mm else ""
  }

  lemma ExampleSeparated()
    ensures Separated(ExampleFormat)
  {
  }

  lemma {:induction false} ExampleRender(yy: string, mm: string, micro: string)
    ensures Render(Fill(ExampleFormat, map[Year := yy, Month := mm, Micro := micro])) == yy + "." + mm + "-" + micro
  {
    var values := map[Year := yy, Month := mm, Micro := micro];
    var filled := Fill(ExampleFormat, values);
    assert filled == [Lit(yy), Lit("."), Lit(mm), Lit("-"), Lit(micro)];
    assert Render(filled[4..]) == micro;
    assert Render(filled[3..]) == "-" + micro;
    assert Render(filled[2..]) == mm + "-" + micro;
    assert Render(filled[1..]) == "." + mm + "-" + micro;
  }

  /** An example tag reads back as its three parts. */
  lemma {:induction false} ExamplePrevious(yy: string, mm: string, micro: string)
    requires IsNumeral(yy) && IsNumeral(mm) && IsNumeral(micro)
    ensures PreviousParts(yy + "." + mm + "-" + micro, ExampleConfig) == Some(map[Year := yy, Month := mm, Micro := micro])
  {
    var values := map[Year := yy, Month := mm, Micro := micro];
    ExampleRender(yy, mm, micro);
    ExampleSeparated();
    RoundTrip(ExampleFormat, values);
    assert PartsOf(ExampleFormat) == {Year, Month, Micro};
    assert Restrict(values, {Year, Month, Micro}) == values;
  }

  /** The example clock reads the current year and month; micro starts at zero. */
  lemma {:induction false} ExampleCurrent(nowY: string, nowM: string)
    ensures CurrentParts(ExampleConfig, ClockAt(nowY, nowM)) == Success(map[Year := nowY, Month := nowM, Micro := "0"])
  {
    var clock := ClockAt(nowY, nowM);
    assert clock("%y") == nowY && clock("%m") == nowM;
    var r := CurrentParts(ExampleConfig, clock);
    var expected := map[Year := nowY, Month := nowM, Micro := "0"];
    assert r.value.Keys == expected.Keys;
    assert r.value[Year] == nowY && r.value[Month] == nowM && r.value[Micro] == "0";
    assert r.value == expected;
  }

  /** What `next_tag_name` does with an example tag at a given year and month. */
  lemma {:induction false} ExampleNext(yy: string, mm: string, micro: string, nowY: string, nowM: string)
    requires IsNumeral(yy) && IsNumeral(mm) && IsNumeral(micro)
    ensures NextTag(yy + "." + mm + "-" + micro, Some(ExampleConfig), ClockAt(nowY, nowM))
         == Success(nowY + "." + nowM + "-" + (if yy != nowY || mm != nowM then "0" else DigitSucc(micro)))
  {
    var prev := map[Year := yy, Month := mm, Micro := micro];
    var cur := map[Year := nowY, Month := nowM, Micro := "0"];
    var m := if yy != nowY || mm != nowM then "0" else DigitSucc(micro);
    ExamplePrevious(yy, mm, micro);
    ExampleCurrent(nowY, nowM);
    ExampleNextParts(yy, mm, micro, nowY, nowM);
    NextTagComputes(yy + "." + mm + "-" + micro, ExampleConfig, ClockAt(nowY, nowM), prev, cur);
    ExampleRender(nowY, nowM, m);
  }

  /** The parts of the next example tag: the current date, and micro reset or incremented. */
  lemma {:induction false} ExampleNextParts(yy: string, mm: string, micro: string, nowY: string, nowM: string)
    requires IsNumeral(yy) && IsNumeral(mm) && IsNumeral(micro)
    ensures NextParts(map[Year := yy, Month := mm, Micro := micro], map[Year := nowY, Month := nowM, Micro := "0"])
         == map[Year := nowY, Month := nowM, Micro := if yy != nowY || mm != nowM then "0" else DigitSucc(micro)]
  {
    var prev := map[Year := yy, Month := mm, Micro := micro];
    var cur := map[Year := nowY, Month := nowM, Micro := "0"];
    assert Changed(prev, cur, Year) <==> yy != nowY;
    assert Changed(prev, cur, Month) <==> mm != nowM;
    assert !Changed(prev, cur, Day);
    var next := NextParts(prev, cur);
    assert next.Keys == {Year, Month, Micro};
  }

  /** `21.12-8` in January 2022 gives `22.01-0` (a new year resets micro). */
  lemma {:induction false} YearRolloverExample()
    ensures NextTag("21.12-8", Some(ExampleConfig), ClockAt("22", "01")) == Success("22.01-0")
  {
    assert "21" + "." + "12" + "-" + "8" == "21.12-8";
    assert "22" + "." + "01" + "-" + "0" == "22.01-0";
    ExampleNext("21", "12", "8", "22", "01");
  }

  /** `22.09-5` in October 2022 gives `22.10-0` (a new month resets micro). */
  lemma {:induction false} MonthRolloverExample()
    ensures NextTag("22.09-5", Some(ExampleConfig), ClockAt("22", "10")) == Success("22.10-0")
  {
    assert "22" + "." + "09" + "-" + "5" == "22.09-5";
    assert "22" + "." + "10" + "-" + "0" == "22.10-0";
    ExampleNext("22", "09", "5", "22", "10");
  }

  /** `22.01-0` in January 2022 gives `22.01-1` (same period: micro plus one). */
  lemma {:induction false} MicroIncrementExample()
    ensures NextTag("22.01-0", Some(ExampleConfig), ClockAt("22", "01")) == Success("22.01-1")
  {
    assert "22" + "." + "01" + "-" + "0" == "22.01-0";
    assert "22" + "." + "01" + "-" + "1" == "22.01-1";
    assert DigitSucc("0") == "1";
    ExampleNext("22", "01", "0", "22", "01");
  }
}
