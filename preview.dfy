/**
 * The link preview of `functions/index.js`: `makeSample` cuts the fetched
 * page down to its head and a bounded part of its body, and `extractPreview`
 * picks a description (a meta tag, a JSON-LD description, or the first good
 * paragraph), cleans it with `stripHtml`, `decodeEntities` and
 * `normalizeSpaces`, cuts it to one sentence or 220 characters, and drops a
 * leading enumeration mark. The regular expressions that find the meta tags,
 * the JSON-LD block and the paragraphs are not modelled: their results are
 * the inputs of `ExtractPreview`.
 */
module Preview {
  import opened Strings
  import opened Json
  import opened Limits

  /** How much of the body is kept after `</head>`. */
  const BodyExtra: nat := 50000

  /** How much of a page without `</head>` is kept. */
  const CapNoHead: nat := 150000

  const HeadClose: string := "</head>"

  /** Where `</head>` starts in the page, matched without regard to case; `-1` when absent. */
  function HeadEnd(html: string): (h: int)
    ensures -1 <= h < |html|
  {
    IndexOfSub(ToLower(html), HeadClose)
  }

  /**
   * `makeSample(html)`: the page up to `BodyExtra` characters past the end
   * of `</head>`, or its first `CapNoHead` characters when it has no head.
   */
  function MakeSample(html: string): (sample: string)
    ensures |sample| == Min(|html|, if HeadEnd(html) >= 0 then HeadEnd(html) + |HeadClose| + BodyExtra else CapNoHead)
    ensures |sample| <= |html| && sample == html[..|sample|]
    ensures HeadEnd(html) >= 0 ==> |sample| <= HeadEnd(html) + |HeadClose| + BodyExtra
    ensures HeadEnd(html) < 0 ==> |sample| <= CapNoHead
    ensures |sample| == |html| || |sample| >= |HeadClose| + BodyExtra
  {
    var headEnd := HeadEnd(html);
    var end := if headEnd >= 0 then headEnd + |HeadClose| + BodyExtra else CapNoHead;
    if end < |html| then html[..end] else html
  }

  /** A page no longer than the body allowance is kept whole. */
  lemma MakeSampleShort(html: string)
    requires |html| <= |HeadClose| + BodyExtra
    ensures MakeSample(html) == html
  {
  }

  lemma LowerPrefix(s: string, n: nat)
    requires n <= |s|
    ensures ToLower(s[..n]) == ToLower(s)[..n]
  {
  }

  /** The sample keeps the whole head: `</head>` is found in it where it was found in the page. */
  lemma MakeSampleKeepsHead(html: string)
    requires HeadEnd(html) >= 0
    ensures HeadEnd(MakeSample(html)) == HeadEnd(html)
  {
    var h := HeadEnd(html);
    var sample := MakeSample(html);
    var n := |sample|;
    LowerPrefix(html, n);
    var low := ToLower(html);
    var lowSample := ToLower(sample);
    assert lowSample == low[..n];
    assert MatchAt(lowSample, HeadClose, h) by {
      assert lowSample[h..h + |HeadClose|] == low[h..h + |HeadClose|];
    }
    forall j | 0 <= j < h
      ensures !MatchAt(lowSample, HeadClose, j)
    {
      assert !MatchAt(low, HeadClose, j);
      if j + |HeadClose| <= n {
        assert lowSample[j..j + |HeadClose|] == low[j..j + |HeadClose|];
      }
    }
  }

  // ---------------------------------------------------------------------
  // stripHtml: every `<…>` tag becomes one space
  // ---------------------------------------------------------------------

  /**
   * `s.replace(/<[^>]+>/g, ' ')`: a `<` followed by at least one character
   * other than `>` and then a `>` is a tag; each tag, read from the left,
   * becomes a single space and every other character is kept.
   */
  function StripHtml(s: string): (r: string)
    ensures |r| <= |s|
    decreases |s|
  {
    if |s| == 0 then ""
    else if s[0] == '<' && IndexOf(s, '>') >= 2 then " " + StripHtml(s[IndexOf(s, '>') + 1..])
    else [s[0]] + StripHtml(s[1..])
  }

  /** A tag starts at `i`. */
  predicate TagAt(s: string, i: int)
    requires 0 <= i < |s|
  {
    s[i] == '<' && IndexOf(s[i..], '>') >= 2
  }

  predicate NoTags(s: string) {
    forall i :: 0 <= i < |s| ==> !TagAt(s, i)
  }

  lemma NoTagsSuffix(s: string)
    requires |s| > 0 && NoTags(s)
    ensures NoTags(s[1..])
  {
    forall i | 0 <= i < |s[1..]|
      ensures !TagAt(s[1..], i)
    {
      assert s[1..][i..] == s[i + 1..];
      assert !TagAt(s, i + 1);
    }
  }

  /** Text without a tag is left as it is. */
  lemma {:induction false} StripHtmlNoTags(s: string)
    requires NoTags(s)
    ensures StripHtml(s) == s
    decreases |s|
  {
    if |s| > 0 {
      assert s[0..] == s;
      assert !TagAt(s, 0);
      NoTagsSuffix(s);
      StripHtmlNoTags(s[1..]);
      assert s == [s[0]] + s[1..];
    }
  }

  /** Text before the first `<` is kept as it is. */
  lemma {:induction false} StripHtmlPlainPrefix(pre: string, rest: string)
    requires NoChar(pre, '<')
    ensures StripHtml(pre + rest) == pre + StripHtml(rest)
    decreases |pre|
  {
    if |pre| > 0 {
      var s := pre + rest;
      StripHtmlPlainChar(s);
      assert s[0] == pre[0] && s[1..] == pre[1..] + rest;
      StripHtmlPlainPrefix(pre[1..], rest);
      assert [pre[0]] + (pre[1..] + StripHtml(rest)) == pre + StripHtml(rest);
    } else {
      assert pre + rest == rest;
    }
  }

  /** A first character other than `<` is kept. */
  lemma StripHtmlPlainChar(s: string)
    requires |s| > 0 && s[0] != '<'
    ensures StripHtml(s) == [s[0]] + StripHtml(s[1..])
  {
  }

  /** A tag after plain text becomes exactly one space. */
  lemma StripHtmlTag(pre: string, inner: string, post: string)
    requires NoChar(pre, '<') && |inner| > 0 && NoChar(inner, '>')
    ensures StripHtml(pre + "<" + inner + ">" + post) == pre + " " + StripHtml(post)
  {
    var tag := "<" + inner + ">" + post;
    assert pre + "<" + inner + ">" + post == pre + tag;
    StripHtmlPlainPrefix(pre, tag);
    StripHtmlLeadingTag(inner, post);
    assert pre + (" " + StripHtml(post)) == pre + " " + StripHtml(post);
  }

  /** A text that opens with a tag loses the tag to one space. */
  lemma StripHtmlLeadingTag(inner: string, post: string)
    requires |inner| > 0 && NoChar(inner, '>')
    ensures StripHtml("<" + inner + ">" + post) == " " + StripHtml(post)
  {
    var tag := "<" + inner + ">" + post;
    TagClose(inner, post);
    assert tag[0] == '<';
    assert tag[|inner| + 2..] == post;
  }

  /** The first `>` of a tag is the one right after its inner text. */
  lemma TagClose(inner: string, post: string)
    requires NoChar(inner, '>')
    ensures IndexOf("<" + inner + ">" + post, '>') == |inner| + 1
  {
    var tag := "<" + inner + ">" + post;
    assert tag[|inner| + 1] == '>';
    forall j | 0 <= j < |inner| + 1
      ensures tag[j] != '>'
    {
      if j > 0 {
        assert tag[j] == inner[j - 1];
      }
    }
  }

  /** What `stripHtml` returns holds no tag, so stripping twice changes nothing more. */
  lemma {:induction false} StripHtmlLeavesNoTags(s: string)
    ensures NoTags(StripHtml(s))
    decreases |s|
  {
    if |s| > 0 {
      var r := StripHtml(s);
      if s[0] == '<' && IndexOf(s, '>') >= 2 {
        var rest := s[IndexOf(s, '>') + 1..];
        StripHtmlLeavesNoTags(rest);
        NoTagsCons(' ', StripHtml(rest));
      } else {
        StripHtmlLeavesNoTags(s[1..]);
        var tail := StripHtml(s[1..]);
        assert r == [s[0]] + tail;
        if s[0] == '<' {
          if IndexOf(s, '>') == 1 {
            assert s[1] == '>';
            assert s[1..] == [s[1]] + s[2..];
            assert tail[0] == '>';
            assert r[0..][1] == '>';
            assert IndexOf(r[0..], '>') == 1;
          } else {
            assert NoChar(s[1..], '>');
            StripHtmlNoClose(s[1..]);
            assert NoChar(r[0..], '>') by {
              assert r[0..] == [s[0]] + s[1..];
            }
          }
          assert !TagAt(r, 0);
        }
        NoTagsCons(s[0], tail);
      }
    }
  }

  lemma StripHtmlIdempotent(s: string)
    ensures StripHtml(StripHtml(s)) == StripHtml(s)
  {
    StripHtmlLeavesNoTags(s);
    StripHtmlNoTags(StripHtml(s));
  }

  /** Text with no `>` has no tag and is kept as it is. */
  lemma {:induction false} StripHtmlNoClose(s: string)
    requires NoChar(s, '>')
    ensures StripHtml(s) == s
    decreases |s|
  {
    if |s| > 0 {
      assert IndexOf(s, '>') == -1;
      assert NoChar(s[1..], '>');
      StripHtmlNoClose(s[1..]);
      assert s == [s[0]] + s[1..];
    }
  }

  /** Putting a character in front of tag-free text adds a tag only if that character opens one. */
  lemma NoTagsCons(c: char, t: string)
    requires NoTags(t)
    requires c == '<' ==> !TagAt([c] + t, 0)
    ensures NoTags([c] + t)
  {
    var s := [c] + t;
    forall i | 0 <= i < |s|
      ensures !TagAt(s, i)
    {
      if i > 0 {
        assert s[i..] == t[i - 1..];
        assert !TagAt(t, i - 1);
      }
    }
  }

  // ---------------------------------------------------------------------
  // normalizeSpaces: every run of white space becomes one space
  // ---------------------------------------------------------------------

  /** `s.replace(/\s+/g, ' ')`: each maximal run of white space becomes one `' '`. */
  function NormalizeSpaces(s: string): (r: string)
    ensures |r| <= |s|
    ensures |r| == 0 <==> |s| == 0
    decreases |s|
  {
    if |s| == 0 then ""
    else if IsSpace(s[0]) then " " + NormalizeSpaces(TrimStart(s))
    else [s[0]] + NormalizeSpaces(s[1..])
  }

  /** Every white-space character is a plain space and no two of them are adjacent. */
  predicate SingleSpaced(s: string) {
    forall i :: 0 <= i < |s| && IsSpace(s[i]) ==> s[i] == ' ' && (i + 1 < |s| ==> !IsSpace(s[i + 1]))
  }

  lemma SingleSpacedSlice(s: string, i: nat, j: nat)
    requires i <= j <= |s| && SingleSpaced(s)
    ensures SingleSpaced(s[i..j])
  {
    var t := s[i..j];
    forall k | 0 <= k < |t| && IsSpace(t[k])
      ensures t[k] == ' ' && (k + 1 < |t| ==> !IsSpace(t[k + 1]))
    {
      assert t[k] == s[i + k];
      if k + 1 < |t| {
        assert t[k + 1] == s[i + k + 1];
      }
    }
  }

  lemma SingleSpacedCons(c: char, t: string)
    requires SingleSpaced(t)
    requires IsSpace(c) ==> c == ' ' && (|t| == 0 || !IsSpace(t[0]))
    ensures SingleSpaced([c] + t)
  {
    var s := [c] + t;
    forall k | 0 <= k < |s| && IsSpace(s[k])
      ensures s[k] == ' ' && (k + 1 < |s| ==> !IsSpace(s[k + 1]))
    {
      if k > 0 {
        assert s[k] == t[k - 1];
        if k + 1 < |s| {
          assert s[k + 1] == t[k];
        }
      }
    }
  }

  /** Whatever `normalizeSpaces` returns is single-spaced. */
  lemma {:induction false} NormalizeSpacesSingle(s: string)
    ensures SingleSpaced(NormalizeSpaces(s))
    decreases |s|
  {
    if |s| > 0 {
      if IsSpace(s[0]) {
        var rest := TrimStart(s);
        NormalizeSpacesSingle(rest);
        SingleSpacedCons(' ', NormalizeSpaces(rest));
      } else {
        NormalizeSpacesSingle(s[1..]);
        SingleSpacedCons(s[0], NormalizeSpaces(s[1..]));
      }
    }
  }

  /** Single-spaced text is left as it is. */
  lemma {:induction false} NormalizeSpacesFixed(s: string)
    requires SingleSpaced(s)
    ensures NormalizeSpaces(s) == s
    decreases |s|
  {
    if |s| > 0 {
      SingleSpacedSlice(s, 1, |s|);
      assert s[1..|s|] == s[1..];
      NormalizeSpacesFixed(s[1..]);
      if IsSpace(s[0]) {
        SingleSpaceRun(s);
      }
      assert s == [s[0]] + s[1..];
    }
  }

  /** In single-spaced text a run of white space is one plain space. */
  lemma SingleSpaceRun(s: string)
    requires |s| > 0 && IsSpace(s[0]) && SingleSpaced(s)
    ensures s[0] == ' ' && TrimStart(s) == s[1..]
  {
    assert |s| == 1 || !IsSpace(s[1]);
    TrimStartOfTrimmed(s[1..]);
  }

  lemma NormalizeSpacesIdempotent(s: string)
    ensures NormalizeSpaces(NormalizeSpaces(s)) == NormalizeSpaces(s)
  {
    NormalizeSpacesSingle(s);
    NormalizeSpacesFixed(NormalizeSpaces(s));
  }

  // ---------------------------------------------------------------------
  // decodeEntities: six replacements, in order
  // ---------------------------------------------------------------------

  /**
   * `decodeEntities(s)`: `&nbsp;`, `&amp;`, `&quot;`, `&#39;`, `&lt;` and
   * `&gt;` replaced, each everywhere, one after the other in that order.
   */
  function DecodeEntities(s: string): (r: string)
    ensures |r| <= |s|
  {
    var s1 := ReplaceAll(s, "&nbsp;", " ");
    ReplaceAllShrinks(s, "&nbsp;", " ");
    var s2 := ReplaceAll(s1, "&amp;", "&");
    ReplaceAllShrinks(s1, "&amp;", "&");
    var s3 := ReplaceAll(s2, "&quot;", "\"");
    ReplaceAllShrinks(s2, "&quot;", "\"");
    var s4 := ReplaceAll(s3, "&#39;", "'");
    ReplaceAllShrinks(s3, "&#39;", "'");
    var s5 := ReplaceAll(s4, "&lt;", "<");
    ReplaceAllShrinks(s4, "&lt;", "<");
    ReplaceAllShrinks(s5, "&gt;", ">");
    ReplaceAll(s5, "&gt;", ">")
  }

  /** An entity starts with `&`, so text without one has none. */
  lemma NoAmpNoEntity(s: string, pat: string)
    requires |pat| > 0 && pat[0] == '&' && NoChar(s, '&')
    ensures !Contains(s, pat)
  {
    forall j | 0 <= j && j + |pat| <= |s|
      ensures !MatchAt(s, pat, j)
    {
      assert s[j..j + |pat|][0] == s[j];
    }
  }

  /** Text without `&` is left as it is. */
  lemma DecodeEntitiesPlain(s: string)
    requires NoChar(s, '&')
    ensures DecodeEntities(s) == s
  {
    NoAmpNoEntity(s, "&nbsp;");
    ReplaceAllAbsent(s, "&nbsp;", " ");
    NoAmpNoEntity(s, "&amp;");
    ReplaceAllAbsent(s, "&amp;", "&");
    NoAmpNoEntity(s, "&quot;");
    ReplaceAllAbsent(s, "&quot;", "\"");
    NoAmpNoEntity(s, "&#39;");
    ReplaceAllAbsent(s, "&#39;", "'");
    NoAmpNoEntity(s, "&lt;");
    ReplaceAllAbsent(s, "&lt;", "<");
    NoAmpNoEntity(s, "&gt;");
    ReplaceAllAbsent(s, "&gt;", ">");
  }

  /** No pattern fits in a shorter text. */
  lemma TooShort(s: string, pat: string)
    requires 0 < |pat| && |s| < |pat|
    ensures !Contains(s, pat)
  {
  }

  /**
   * `&amp;` is decoded before `&lt;`, so an escaped entity is decoded twice:
   * `&amp;lt;` comes out as `<`, not as `&lt;`.
   */
  lemma DecodeEntitiesTwice()
    ensures DecodeEntities("&amp;lt;") == "<"
  {
    NoNbspInEscapedLt();
    AmpStep();
    TooShort("&lt;", "&quot;");
    ReplaceAllAbsent("&lt;", "&quot;", "\"");
    TooShort("&lt;", "&#39;");
    ReplaceAllAbsent("&lt;", "&#39;", "'");
    LtStep();
    TooShort("<", "&gt;");
    ReplaceAllAbsent("<", "&gt;", ">");
  }

  lemma NoNbspInEscapedLt()
    ensures ReplaceAll("&amp;lt;", "&nbsp;", " ") == "&amp;lt;"
  {
    var s := "&amp;lt;";
    assert !Contains(s, "&nbsp;") by {
      forall j | 0 <= j && j + 6 <= |s| ensures !MatchAt(s, "&nbsp;", j) {
        assert s[j..j + 6][1] == s[j + 1];
      }
    }
    ReplaceAllAbsent(s, "&nbsp;", " ");
  }

  lemma AmpStep()
    ensures ReplaceAll("&amp;lt;", "&amp;", "&") == "&lt;"
  {
    var s := "&amp;lt;";
    assert StartsWith(s, "&amp;");
    assert s[5..] == "lt;";
    TooShort("lt;", "&amp;");
    ReplaceAllAbsent("lt;", "&amp;", "&");
  }

  lemma LtStep()
    ensures ReplaceAll("&lt;", "&lt;", "<") == "<"
  {
    assert StartsWith("&lt;", "&lt;");
    assert "&lt;"[4..] == "";
  }

  // ---------------------------------------------------------------------
  // extractPreview
  // ---------------------------------------------------------------------

  /** `normalizeSpaces(decodeEntities(stripHtml(s))).trim()`. */
  function Clean(s: string): (r: string)
  {
    Trim(NormalizeSpaces(DecodeEntities(StripHtml(s))))
  }

  lemma SingleSpacedTrim(s: string)
    requires SingleSpaced(s)
    ensures SingleSpaced(Trim(s))
  {
    var t := TrimStart(s);
    SingleSpacedSlice(s, |s| - |t|, |s|);
    assert s[|s| - |t|..|s|] == t;
    SingleSpacedSlice(t, 0, |Trim(s)|);
    assert t[0..|Trim(s)|] == Trim(s);
  }

  /** Cleaned text is trimmed and single-spaced. */
  lemma CleanShape(s: string)
    ensures Trimmed(Clean(s)) && SingleSpaced(Clean(s))
  {
    NormalizeSpacesSingle(DecodeEntities(StripHtml(s)));
    SingleSpacedTrim(NormalizeSpaces(DecodeEntities(StripHtml(s))));
  }

  /** The characters of `[:).\-]`, the mark after an enumeration number. */
  predicate MarkChar(c: char) {
    c == ':' || c == ')' || c == '.' || c == '-'
  }

  /**
   * The length of the `^\s*\d+\s*[).\-:]` at the start of `s`, without
   * the white space after it; `0` when `s` does not start so.
   */
  function NumberMarkLen(s: string): (n: nat)
    ensures n <= |s|
  {
    var t := TrimStart(s);
    var d := |LeadingDigits(t)|;
    var u := TrimStart(t[d..]);
    if d > 0 && |u| > 0 && MarkChar(u[0]) then |s| - |u| + 1 else 0
  }

  /**
   * The length of the `^(step|part)\s*\d+[:).\-]` at the start of `s`,
   * with `step` and `part` in any case; `0` when `s` does not start so.
   */
  function StepMarkLen(s: string): (n: nat)
    ensures n <= |s|
  {
    if |s| >= 4 && (ToLower(s[..4]) == "step" || ToLower(s[..4]) == "part") then
      var t := TrimStart(s[4..]);
      var d := |LeadingDigits(t)|;
      if d > 0 && d < |t| && MarkChar(t[d]) then |s| - |t| + d + 1 else 0
    else 0
  }

  /** `isEnum(s)`: after leading white space, `s` opens with a step or a number mark. */
  predicate IsEnum(s: string) {
    StepMarkLen(TrimStart(s)) > 0 || NumberMarkLen(TrimStart(s)) > 0
  }

  /** `/^(by |posted )/i`. */
  predicate ByLine(s: string) {
    var low := ToLower(s);
    StartsWith(low, "by ") || StartsWith(low, "posted ")
  }

  /** `/cookie|subscribe/i`. */
  predicate Boilerplate(s: string) {
    var low := ToLower(s);
    Includes(low, "cookie") || Includes(low, "subscribe")
  }

  /** The shortest paragraph the first pass accepts. */
  const MinParagraph: nat := 40

  /** A cleaned paragraph the first pass takes as the description. */
  predicate Good(plain: string) {
    |plain| >= MinParagraph && !IsEnum(plain) && !ByLine(plain) && !Boilerplate(plain)
  }

  /** A cleaned paragraph the second pass takes: any that is not empty. */
  predicate NonEmpty(plain: string) {
    |plain| > 0
  }

  /**
   * A pass over the paragraphs from `i` on: the first paragraph whose
   * cleaned text `keep` accepts, cleaned; `""` when there is none.
   */
  function FirstKept(paras: seq<string>, clean: string -> string, keep: string -> bool, i: nat): (r: string)
    requires i <= |paras|
    decreases |paras| - i
  {
    if i == |paras| then ""
    else if keep(clean(paras[i])) then clean(paras[i])
    else FirstKept(paras, clean, keep, i + 1)
  }

  /** A pass picks the first paragraph it accepts. */
  lemma {:induction false} FirstKeptIsFirst(paras: seq<string>, clean: string -> string, keep: string -> bool, i: nat, k: nat)
    requires i <= k < |paras|
    requires forall j :: i <= j < k ==> !keep(clean(paras[j]))
    requires keep(clean(paras[k]))
    ensures FirstKept(paras, clean, keep, i) == clean(paras[k])
    decreases k - i
  {
    if i < k {
      FirstKeptIsFirst(paras, clean, keep, i + 1, k);
    }
  }

  /** A pass that accepts no paragraph finds nothing. */
  lemma {:induction false} FirstKeptNone(paras: seq<string>, clean: string -> string, keep: string -> bool, i: nat)
    requires i <= |paras|
    requires forall j :: i <= j < |paras| ==> !keep(clean(paras[j]))
    ensures FirstKept(paras, clean, keep, i) == ""
    decreases |paras| - i
  {
    if i < |paras| {
      FirstKeptNone(paras, clean, keep, i + 1);
    }
  }

  /** Whatever a pass finds it accepts, and it is the cleaned text of some paragraph. */
  lemma {:induction false} FirstKeptKept(paras: seq<string>, clean: string -> string, keep: string -> bool, i: nat)
    requires i <= |paras|
    ensures var r := FirstKept(paras, clean, keep, i);
      r == "" || (keep(r) && exists j :: i <= j < |paras| && r == clean(paras[j]))
    decreases |paras| - i
  {
    if i < |paras| && !keep(clean(paras[i])) {
      FirstKeptKept(paras, clean, keep, i + 1);
    }
  }

  /** The first pass: the first good cleaned paragraph. */
  function FirstGood(paras: seq<string>): string {
    FirstKept(paras, Clean, Good, 0)
  }

  /** The second pass: the first cleaned paragraph that is not empty. */
  function FirstNonEmpty(paras: seq<string>): string {
    FirstKept(paras, Clean, NonEmpty, 0)
  }

  /** A pass over paragraphs that all clean to nothing finds nothing. */
  lemma {:induction false} FirstKeptAllEmpty(paras: seq<string>, keep: string -> bool, i: nat)
    requires i <= |paras|
    requires forall j :: i <= j < |paras| ==> |Clean(paras[j])| == 0
    ensures FirstKept(paras, Clean, keep, i) == ""
    decreases |paras| - i
  {
    if i < |paras| && !keep(Clean(paras[i])) {
      FirstKeptAllEmpty(paras, keep, i + 1);
    }
  }

  /** `a || b || c || d` over the four meta lookups: the first one that is not empty, or `""`. */
  function FirstTruthy(xs: seq<string>): (r: string)
    ensures |r| == 0 ==> forall i :: 0 <= i < |xs| ==> |xs[i]| == 0
    ensures |r| > 0 ==> exists i :: 0 <= i < |xs| && r == xs[i] && forall j :: 0 <= j < i ==> |xs[j]| == 0
  {
    if |xs| == 0 then ""
    else if |xs[0]| > 0 then xs[0]
    else
      var r := FirstTruthy(xs[1..]);
      if |r| > 0 then
        var i :| 0 <= i < |xs[1..]| && r == xs[1..][i] && forall j :: 0 <= j < i ==> |xs[1..][j]| == 0;
        assert r == xs[i + 1] && forall j :: 0 <= j < i + 1 ==> |xs[j]| == 0;
        r
      else r
  }

  /** `.`, `!` or `?`. */
  predicate Terminal(c: char) {
    c == '.' || c == '!' || c == '?'
  }

  /** `/[.!?]\s/` matches at `i`. */
  predicate SentenceEndAt(s: string, i: nat)
    requires i < |s|
  {
    Terminal(s[i]) && i + 1 < |s| && IsSpace(s[i + 1])
  }

  /** Where `/[.!?]\s/` first matches in `s[i..]`, as an index of `s`; `-1` when it does not. */
  function SentenceEndFrom(s: string, i: nat): (m: int)
    requires i <= |s|
    ensures m == -1 || (i <= m < |s| && SentenceEndAt(s, m))
    ensures forall j :: i <= j < |s| && (m == -1 || j < m) ==> !SentenceEndAt(s, j)
    decreases |s| - i
  {
    if i == |s| then -1
    else if SentenceEndAt(s, i) then i
    else SentenceEndFrom(s, i + 1)
  }

  /** A sentence end at or after this index cuts the text there. */
  const SentenceMin: nat := 60

  /** Longer text without such a sentence end is cut to this many characters. */
  const PreviewMax: nat := 220

  /**
   * The cut: just after the first sentence end when it lies at index 60 or
   * later; else, for text over 220 characters, its first 220 characters
   * trimmed, with `…` appended; else the text as it is.
   */
  function Cut(text: string): (r: string)
    ensures |r| <= |text|
  {
    var m := SentenceEndFrom(text, 0);
    if m >= SentenceMin then text[..m + 1]
    else if |text| > PreviewMax then Trim(text[..PreviewMax]) + "…"
    else text
  }

  /**
   * A sentence end at index 60 or later cuts the text just after it;
   * otherwise longer text becomes at most 220 trimmed characters and `…`,
   * and shorter text is kept.
   */
  lemma CutLength(text: string)
    ensures var r := Cut(text); var m := SentenceEndFrom(text, 0);
      (m >= SentenceMin ==>
         r == text[..m + 1] && Terminal(r[m]) && forall j :: 0 <= j < m ==> !SentenceEndAt(text, j))
      && (m < SentenceMin && |text| > PreviewMax ==>
            r == Trim(text[..PreviewMax]) + "…" && |r| <= PreviewMax + 1 && Trimmed(r[..|r| - 1]))
      && (m < SentenceMin && |text| <= PreviewMax ==> r == text)
  {
    var m := SentenceEndFrom(text, 0);
    if m < SentenceMin && |text| > PreviewMax {
      var t := Trim(text[..PreviewMax]);
      assert Cut(text) == t + "…";
      assert (t + "…")[..|t|] == t;
    }
  }

  /** Short text without a late sentence end is not cut. */
  lemma CutShort(text: string)
    requires |text| <= PreviewMax
    requires forall j :: SentenceMin <= j < |text| ==> !SentenceEndAt(text, j)
    ensures Cut(text) == text
  {
  }

  /** The leading number mark `^\s*\d+\s*[).\-:]` removed, with the white space after it. */
  function StripNumberMark(s: string): (r: string)
  {
    var n := NumberMarkLen(s);
    if n > 0 then TrimStart(s[n..]) else s
  }

  /** The leading step mark `^(step|part)\s*\d+[:).\-]`, in any case, removed with the white space after it. */
  function StripStepMark(s: string): (r: string)
  {
    var n := StepMarkLen(s);
    if n > 0 then TrimStart(s[n..]) else s
  }

  /** The cut text, then without its leading number mark, then without its leading step mark. */
  function Tail(text: string): (r: string)
  {
    StripStepMark(StripNumberMark(Cut(text)))
  }

  /** The text found, cleaned (once more) and cut; `None` when nothing is left. */
  function Finish(text: string): (r: Option<string>)
  {
    if |text| == 0 then None
    else
      var t := Clean(text);
      if |t| == 0 then None else Some(Tail(t))
  }

  /**
   * What `extractPreview(sample)` returns, for the four meta lookups `metas`
   * (`og:description`, `twitter:description` by name and by property,
   * `description`; `""` where none matched), the JSON-LD description `ld`
   * (`""` when there is none) and the paragraph bodies `paras`.
   */
  function Describe(metas: seq<string>, ld: string, paras: seq<string>): (r: Option<string>)
    ensures ((forall i :: 0 <= i < |metas| ==> |metas[i]| == 0) && |ld| == 0
             && (forall i :: 0 <= i < |paras| ==> |Clean(paras[i])| == 0)) ==> r.None?
  {
    var meta := FirstTruthy(metas);
    if |meta| > 0 then Finish(meta)
    else if |ld| > 0 then Finish(ld)
    else
      assert (forall i :: 0 <= i < |paras| ==> |Clean(paras[i])| == 0) ==>
        FirstGood(paras) == "" && FirstNonEmpty(paras) == "" by {
        if forall i :: 0 <= i < |paras| ==> |Clean(paras[i])| == 0 {
          FirstKeptAllEmpty(paras, Good, 0);
          FirstKeptAllEmpty(paras, NonEmpty, 0);
        }
      }
      var good := FirstGood(paras);
      if |good| > 0 then Finish(good) else Finish(FirstNonEmpty(paras))
  }

  /** A meta description, when there is one, decides: the JSON-LD block and the paragraphs do not matter. */
  lemma MetaWins(metas: seq<string>, ld1: string, paras1: seq<string>, ld2: string, paras2: seq<string>)
    requires exists i :: 0 <= i < |metas| && |metas[i]| > 0
    ensures Describe(metas, ld1, paras1) == Describe(metas, ld2, paras2)
  {
  }

  /** Without a meta description, a JSON-LD description decides, whatever the paragraphs hold. */
  lemma LdWins(metas: seq<string>, ld: string, paras: seq<string>)
    requires forall i :: 0 <= i < |metas| ==> |metas[i]| == 0
    requires |ld| > 0
    ensures Describe(metas, ld, paras) == Finish(ld)
  {
    NoMeta(metas);
  }

  /** Without a meta or JSON-LD description, the first good paragraph is the description. */
  lemma GoodParagraphWins(metas: seq<string>, paras: seq<string>, k: nat)
    requires forall i :: 0 <= i < |metas| ==> |metas[i]| == 0
    requires k < |paras| && Good(Clean(paras[k]))
    requires forall j :: 0 <= j < k ==> !Good(Clean(paras[j]))
    ensures Describe(metas, "", paras) == Finish(Clean(paras[k]))
  {
    FirstKeptIsFirst(paras, Clean, Good, 0, k);
    GoodNonEmpty(Clean(paras[k]));
    NoMeta(metas);
    assert |FirstGood(paras)| > 0;
  }

  lemma NoMeta(metas: seq<string>)
    requires forall i :: 0 <= i < |metas| ==> |metas[i]| == 0
    ensures FirstTruthy(metas) == ""
  {
  }

  lemma GoodNonEmpty(plain: string)
    requires Good(plain)
    ensures |plain| > 0
  {
  }

  /**
   * Without a meta or JSON-LD description and without a good paragraph, the
   * first paragraph that cleans to something is the description.
   */
  lemma NonEmptyParagraphWins(metas: seq<string>, paras: seq<string>, k: nat)
    requires forall i :: 0 <= i < |metas| ==> |metas[i]| == 0
    requires forall j :: 0 <= j < |paras| ==> !Good(Clean(paras[j]))
    requires k < |paras| && |Clean(paras[k])| > 0
    requires forall j :: 0 <= j < k ==> |Clean(paras[j])| == 0
    ensures Describe(metas, "", paras) == Finish(Clean(paras[k]))
  {
    FirstKeptNone(paras, Clean, Good, 0);
    FirstKeptIsFirst(paras, Clean, NonEmpty, 0, k);
  }

  /** A suffix of single-spaced text that does not start with white space. */
  predicate Shaped(s: string) {
    SingleSpaced(s) && (|s| == 0 || !IsSpace(s[0]))
  }

  lemma TrimStartShaped(s: string)
    requires SingleSpaced(s)
    ensures Shaped(TrimStart(s))
  {
    var r := TrimStart(s);
    SingleSpacedSlice(s, |s| - |r|, |s|);
    assert s[|s| - |r|..|s|] == r;
  }

  lemma SingleSpacedSnoc(t: string, c: char)
    requires SingleSpaced(t) && !IsSpace(c)
    ensures SingleSpaced(t + [c])
  {
    var s := t + [c];
    forall k | 0 <= k < |s| && IsSpace(s[k])
      ensures s[k] == ' ' && (k + 1 < |s| ==> !IsSpace(s[k + 1]))
    {
      assert s[k] == t[k];
      if k + 1 < |t| {
        assert s[k + 1] == t[k + 1];
      }
    }
  }

  lemma CutShaped(text: string)
    requires Shaped(text)
    ensures Shaped(Cut(text))
  {
    var m := SentenceEndFrom(text, 0);
    if m >= SentenceMin {
      SingleSpacedSlice(text, 0, m + 1);
      assert text[0..m + 1] == text[..m + 1];
    } else if |text| > PreviewMax {
      var head := Trim(text[..PreviewMax]);
      SingleSpacedSlice(text, 0, PreviewMax);
      assert text[0..PreviewMax] == text[..PreviewMax];
      SingleSpacedTrim(text[..PreviewMax]);
      SingleSpacedSnoc(head, '…');
      assert head + "…" == head + ['…'];
    }
  }

  /** Dropping a prefix and the white space after it leaves shaped text. */
  lemma DropShaped(s: string, n: nat)
    requires n <= |s| && SingleSpaced(s)
    ensures Shaped(TrimStart(s[n..]))
  {
    SingleSpacedSlice(s, n, |s|);
    assert s[n..|s|] == s[n..];
    TrimStartShaped(s[n..]);
  }

  lemma StripNumberMarkShaped(s: string)
    requires Shaped(s)
    ensures Shaped(StripNumberMark(s))
  {
    DropShaped(s, NumberMarkLen(s));
  }

  lemma StripStepMarkShaped(s: string)
    requires Shaped(s)
    ensures Shaped(StripStepMark(s))
  {
    DropShaped(s, StepMarkLen(s));
  }

  /** A preview is single-spaced and never starts with white space. */
  lemma FinishShaped(text: string)
    ensures Finish(text).Some? ==> Shaped(Finish(text).value)
  {
    if |text| > 0 && |Clean(text)| > 0 {
      var t := Clean(text);
      CleanShape(text);
      CutShaped(t);
      StripNumberMarkShaped(Cut(t));
      StripStepMarkShaped(StripNumberMark(Cut(t)));
    }
  }

  lemma DescribeShaped(metas: seq<string>, ld: string, paras: seq<string>)
    ensures Describe(metas, ld, paras).Some? ==> Shaped(Describe(metas, ld, paras).value)
  {
    FinishShaped(FirstTruthy(metas));
    FinishShaped(ld);
    FinishShaped(FirstGood(paras));
    FinishShaped(FirstNonEmpty(paras));
  }

  /**
   * `extractPreview(sample)`, with the four meta lookups, the JSON-LD
   * description and the paragraph bodies as its inputs. The two passes over
   * the paragraphs are the loops of the source.
   */
  method ExtractPreview(metas: seq<string>, ld: string, paras: seq<string>) returns (preview: Option<string>)
    ensures preview == Describe(metas, ld, paras)
  {
    var text := FirstTruthy(metas);
    if |text| == 0 {
      text := ld;
    }
    if |text| == 0 {
      text := ScanParagraphs(paras, Clean, Good);
      if |text| == 0 {
        text := ScanParagraphs(paras, Clean, NonEmpty);
      }
    }
    preview := Polish(text);
  }

  /** The tail of `extractPreview`: clean the text found once more, cut it, drop the marks. */
  method Polish(found: string) returns (preview: Option<string>)
    ensures preview == Finish(found)
  {
    if |found| == 0 {
      return None;
    }
    var text := Clean(found);
    if |text| == 0 {
      return None;
    }
    text := CutText(text);
    text := StripNumberMark(text);
    text := StripStepMark(text);
    preview := Some(text);
  }

  /** The `if (m && m.index >= 60) … else if (text.length > 220) …` step of the method's tail. */
  method CutText(text: string) returns (r: string)
    ensures r == Cut(text)
  {
    r := text;
    var m := SentenceEndFrom(text, 0);
    if m >= SentenceMin {
      r := text[..m + 1];
    } else if |text| > PreviewMax {
      r := Trim(text[..PreviewMax]) + "…";
    }
  }

  /** One of the two `for (const p of paras)` loops: the first paragraph `keep` accepts, cleaned. */
  method ScanParagraphs(paras: seq<string>, clean: string -> string, keep: string -> bool) returns (text: string)
    ensures text == FirstKept(paras, clean, keep, 0)
  {
    text := "";
    var i := 0;
    while i < |paras|
      invariant 0 <= i <= |paras|
      invariant FirstKept(paras, clean, keep, i) == FirstKept(paras, clean, keep, 0)
    {
      var plain := clean(paras[i]);
      if keep(plain) {
        text := plain;
        return;
      }
      i := i + 1;
    }
  }
}
