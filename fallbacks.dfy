/**
 * The deterministic replies `api/ai.js` gives when the model's answer is
 * unusable: `heuristicIdeasFallback` with `composeIdea` and `capitalize`,
 * `heuristicSolutionsFallback`, `heuristicMilestoneFallback` and
 * `heuristicSearchFallback`.
 */
module Fallbacks {
  import opened Strings
  import opened Json
  import opened Limits
  import opened Lists
  import opened Normalize
  import opened Search

  /** `capitalize(str)`: the first character upper-cased, the rest unchanged. */
  function Capitalize(str: string): (r: string)
    ensures |r| == |str|
    ensures |str| > 0 ==> r[0] == UpperChar(str[0]) && r[1..] == str[1..]
  {
    if |str| == 0 then str else [UpperChar(str[0])] + str[1..]
  }

  // ---------------------------------------------------------------- ideas

  /** What `heuristicIdeasFallback` looks for in the topic. */
  datatype Flags = Flags(hasCheap: bool, hasFood: bool, hasProduct: bool)

  /** `/(cheap|low cost|budget)/`, `/food/` and `/product/` tested on the topic. */
  function FlagsOf(base: string): Flags {
    Flags(Includes(base, "cheap") || Includes(base, "low cost") || Includes(base, "budget"),
          Includes(base, "food"), Includes(base, "product"))
  }

  /** `parts.filter(p => !seedLower.includes(p.toLowerCase()))`. */
  function KeepAbsent(parts: seq<string>, seedLower: string): (r: seq<string>)
    ensures |r| <= |parts|
    ensures forall i :: 0 <= i < |r| ==> r[i] in parts && !Includes(seedLower, ToLower(r[i]))
  {
    if |parts| == 0 then []
    else (if Includes(seedLower, ToLower(parts[0])) then [] else [parts[0]]) + KeepAbsent(parts[1..], seedLower)
  }

  /** A qualifier is kept exactly when it is one of the parts and the seed does not mention it. */
  lemma {:induction false} KeepAbsentMembers(parts: seq<string>, seedLower: string, p: string)
    ensures p in KeepAbsent(parts, seedLower) <==> p in parts && !Includes(seedLower, ToLower(p))
  {
    if |parts| > 0 {
      KeepAbsentMembers(parts[1..], seedLower, p);
      assert p in parts <==> p == parts[0] || p in parts[1..];
    }
  }

  /** The filter works part by part, so the kept qualifiers stay in input order. */
  lemma {:induction false} KeepAbsentAppend(a: seq<string>, b: seq<string>, seedLower: string)
    ensures KeepAbsent(a + b, seedLower) == KeepAbsent(a, seedLower) + KeepAbsent(b, seedLower)
  {
    if |a| == 0 {
      assert a + b == b;
    } else {
      assert (a + b)[0] == a[0] && (a + b)[1..] == a[1..] + b;
      KeepAbsentAppend(a[1..], b, seedLower);
    }
  }

  /** The qualifiers the flags call for, in order. */
  function Qualifiers(flags: Flags): seq<string> {
    (if flags.hasCheap then ["Low-cost"] else [])
    + (if flags.hasFood then ["Food Stall"] else [])
    + (if flags.hasProduct then ["Product"] else [])
  }

  /**
   * `composeIdea(base, seed, flags)`: the seed itself for an empty topic;
   * otherwise the qualifiers the seed does not already mention, then the
   * seed, joined by spaces. The seed always ends the idea.
   */
  function ComposeIdea(base: string, seed: string, flags: Flags): (r: string)
    ensures |base| == 0 ==> r == seed
    ensures |r| >= |seed| && r[|r| - |seed|..] == seed
  {
    if |base| == 0 then seed
    else
      var filtered := KeepAbsent(Qualifiers(flags), ToLower(seed)) + [seed];
      JoinEndsWithLast(filtered, " ");
      Join(filtered, " ")
  }

  const Seeds: seq<string> := [
    "Subscription kit", "Mobile app service", "On-demand support", "Digital template shop",
    "Local delivery network", "Community micro-learning", "Pop-up experience booth",
    "Data insight dashboard", "Eco-friendly packaging", "AI assisted workflow"]

  /**
   * `(String(query || '').trim() || 'business').toLowerCase()`, for the
   * `query` text `String(query || '')` (`StrOr` of the request field).
   */
  function IdeasTopic(query: string): string {
    var t := Trim(query);
    ToLower(if |t| == 0 then "business" else t)
  }

  /** The idea a seed gives for a topic: `capitalize(composeIdea(base, s, flags))`. */
  function IdeaFor(base: string): string -> string {
    s => Capitalize(ComposeIdea(base, s, FlagsOf(base)))
  }

  predicate Distinct(xs: seq<string>) {
    forall i, j :: 0 <= i < j < |xs| ==> xs[i] != xs[j]
  }

  /** The distinct entries in order of first occurrence: what `Array.from(new Set(xs))` yields. */
  function Dedup(xs: seq<string>): (r: seq<string>)
    ensures |r| <= |xs|
    ensures Distinct(r)
  {
    if |xs| == 0 then []
    else
      var d := Dedup(xs[..|xs| - 1]);
      if xs[|xs| - 1] in d then d else d + [xs[|xs| - 1]]
  }

  /** The set holds exactly the entries seen. */
  lemma {:induction false} DedupMembers(xs: seq<string>, x: string)
    ensures x in Dedup(xs) <==> x in xs
  {
    if |xs| > 0 {
      var init := xs[..|xs| - 1];
      DedupMembers(init, x);
      assert xs == init + [xs[|xs| - 1]];
    }
  }

  /** The set after one more entry: unchanged when it already holds it, else that entry appended. */
  lemma DedupStep(xs: seq<string>, k: nat)
    requires k < |xs|
    ensures Dedup(xs[..k + 1]) == if xs[k] in Dedup(xs[..k]) then Dedup(xs[..k]) else Dedup(xs[..k]) + [xs[k]]
  {
    assert xs[..k + 1][..k] == xs[..k];
  }

  /** Deduplicating a prefix gives a prefix of the deduplicated whole. */
  lemma {:induction false} DedupPrefix(xs: seq<string>, k: nat)
    requires k <= |xs|
    ensures var d := Dedup(xs[..k]); |d| <= |Dedup(xs)| && Dedup(xs)[..|d|] == d
    decreases |xs| - k
  {
    if k < |xs| {
      DedupPrefix(xs, k + 1);
      assert xs[..k + 1][..k] == xs[..k];
    } else {
      assert xs[..k] == xs;
    }
  }

  /** The idea of every seed for a topic, in seed order, before deduplication. */
  function SeedIdeas(base: string): seq<string> {
    MapSeq(IdeaFor(base), Seeds)
  }

  /** `sanitizeLimit(limit)` with the ideas defaults: 8, at most 12. */
  function IdeasLimit(limit: int): (n: int)
    ensures 1 <= n <= 12
  {
    SanitizeInt(limit, 8, 12)
  }

  /**
   * `heuristicIdeasFallback(query, limit)`: the ideas of the seeds in order,
   * each added to a set until it holds `sanitizeLimit(limit)` of them. The
   * reply is never empty, never longer than the limit, and has no duplicate.
   */
  method HeuristicIdeasFallback(query: string, limit: int) returns (r: seq<string>)
    ensures r == Take(Dedup(SeedIdeas(IdeasTopic(query))), IdeasLimit(limit))
    ensures 1 <= |r| <= IdeasLimit(limit)
    ensures Distinct(r)
  {
    var base := IdeasTopic(query);
    var n := IdeasLimit(limit);
    r := CollectIdeas(Seeds, IdeaFor(base), n);
  }

  /**
   * The loop of `heuristicIdeasFallback`: each seed's idea added to a set,
   * stopping once it holds `n`; then `Array.from`, the default for an empty
   * set, and `slice(0, n || 8)`.
   */
  method CollectIdeas(seeds: seq<string>, idea: string -> string, n: int) returns (r: seq<string>)
    requires |seeds| > 0 && n >= 1
    ensures r == Take(Dedup(MapSeq(idea, seeds)), n)
    ensures 1 <= |r| <= n
    ensures Distinct(r)
  {
    ghost var ideas := MapSeq(idea, seeds);
    var uniq: seq<string> := [];
    var k := 0;
    while k < |seeds|
      invariant 0 <= k <= |seeds|
      invariant uniq == Dedup(ideas[..k])
      invariant |uniq| <= n
    {
      if |uniq| >= n {
        break;
      }
      var next := idea(seeds[k]);
      DedupStep(ideas, k);
      if next !in uniq {
        uniq := uniq + [next];
      }
      k := k + 1;
    }
    DedupPrefix(ideas, k);
    if k == |seeds| {
      assert ideas[..k] == ideas;
    }
    assert |ideas[..1]| == 1;
    DedupPrefix(ideas, 1);
    var arr := uniq;
    if |arr| == 0 {
      arr := ["Simple local service startup"];
    }
    // `slice(0, limit || 8)`: the limit is at least 1, so the default never applies.
    r := Take(arr, n);
  }

  // ------------------------------------------------------------ solutions

  // The five fixed solutions of `heuristicSolutionsFallback`. The longer texts
  // are written as two literals joined, which is the same string.

  const ClarifyCoreIssue := Solution("Clarify Core Issue",
    "Establish a precise shared " + "understanding before investing effort.",
    ["List top 3 pain points", "Rank by impact and urgency", "Define success in 1 sentence",
     "Choose single primary objective"])

  const LightweightPilotTest := Solution("Lightweight Pilot Test",
    "Validate a minimal approach " + "with fast feedback and low risk.",
    ["Pick smallest viable test scope", "Draft quick checklist for execution",
     "Run pilot with limited audience", "Collect feedback in structured format", "Decide iterate or expand"])

  const ProcessSimplificationSprint := Solution("Process Simplification Sprint",
    "Eliminate avoidable complexity " + "slowing consistent progress.",
    ["Map current workflow steps", "Mark friction or delays", "Remove or merge low-value steps",
     "Document new streamlined flow"])

  const MetricsAlignmentSetup := Solution("Metrics Alignment Setup",
    "Create objective signals " + "guiding iteration confidently.",
    ["Select 2 leading indicators", "Define simple tracking sheet", "Review metrics weekly",
     "Set threshold triggers for action"])

  const StakeholderFeedbackLoop := Solution("Stakeholder Feedback Loop",
    "Incorporate real user or team " + "insight early to avoid misalignment.",
    ["Identify 3 representative stakeholders", "Schedule recurring short sync",
     "Share concise progress snapshot", "Capture decisions and adjustments"])

  /** The stock solutions, in the order `heuristicSolutionsFallback` lists them. */
  const StockSolutions: seq<Solution> := [ClarifyCoreIssue, LightweightPilotTest,
    ProcessSimplificationSprint, MetricsAlignmentSetup, StakeholderFeedbackLoop]

  /** Each stock solution has the shape `normalizeSolutions` keeps. */
  lemma StockSolutionsValid()
    ensures |StockSolutions| == 5
    ensures forall i :: 0 <= i < |StockSolutions| ==> ValidSolution(StockSolutions[i])
  {
    ClarifyCoreIssueValid();
    LightweightPilotTestValid();
    ProcessSimplificationSprintValid();
    MetricsAlignmentSetupValid();
    StakeholderFeedbackLoopValid();
  }

  lemma ClarifyCoreIssueValid()
    ensures ValidSolution(ClarifyCoreIssue)
  {
    var s := ClarifyCoreIssue;
    forall j | 0 <= j < |s.steps| ensures |s.steps[j]| > 0 && Trimmed(s.steps[j]) {
    }
  }

  lemma LightweightPilotTestValid()
    ensures ValidSolution(LightweightPilotTest)
  {
    var s := LightweightPilotTest;
    forall j | 0 <= j < |s.steps| ensures |s.steps[j]| > 0 && Trimmed(s.steps[j]) {
    }
  }

  lemma ProcessSimplificationSprintValid()
    ensures ValidSolution(ProcessSimplificationSprint)
  {
    var s := ProcessSimplificationSprint;
    forall j | 0 <= j < |s.steps| ensures |s.steps[j]| > 0 && Trimmed(s.steps[j]) {
    }
  }

  lemma MetricsAlignmentSetupValid()
    ensures ValidSolution(MetricsAlignmentSetup)
  {
    var s := MetricsAlignmentSetup;
    forall j | 0 <= j < |s.steps| ensures |s.steps[j]| > 0 && Trimmed(s.steps[j]) {
    }
  }

  lemma StakeholderFeedbackLoopValid()
    ensures ValidSolution(StakeholderFeedbackLoop)
  {
    var s := StakeholderFeedbackLoop;
    forall j | 0 <= j < |s.steps| ensures |s.steps[j]| > 0 && Trimmed(s.steps[j]) {
    }
  }

  /** `sanitizeLimit(limitRaw || 3, 3, 5)`. */
  function SolutionsLimit(limitRaw: Json): (n: int)
    ensures 1 <= n <= 5
  {
    SanitizeLimit(if Truthy(limitRaw) then limitRaw else JNum(3.0), 3, 5)
  }

  /** The `|| 3` changes nothing: every falsy limit already sanitises to the default 3. */
  lemma SolutionsLimitDefault(limitRaw: Json)
    ensures SolutionsLimit(limitRaw) == SanitizeLimit(limitRaw, 3, 5)
  {
    if !Truthy(limitRaw) {
      SanitizeLimitOfInRange(3, 3, 5);
      match limitRaw
      case JNull =>
        assert ToStr(limitRaw) == "null";
        assert ParseIntOf(limitRaw).None?;
      case JBool(b) =>
        assert ToStr(limitRaw) == "false";
        assert ParseIntOf(limitRaw).None?;
      case JNum(n) =>
        assert n == 0.0;
        NumToStrOfInt(0);
        ParseIntOfInt(0);
      case JStr(s) =>
        assert ParseIntOf(limitRaw).None?;
    }
  }

  /**
   * `(x || def).trim()`: the default when `x` is falsy, the trimmed text of a
   * truthy string; `trim` on any other truthy value throws a `TypeError`.
   */
  function TrimOr(x: Json, def: string): (r: Result<string>)
    ensures r.TypeError? <==> Truthy(x) && !x.JStr?
    ensures r.Ok? ==> Trimmed(r.value)
    ensures !Truthy(x) ==> r == Ok(Trim(def))
    ensures Truthy(x) && x.JStr? ==> r == Ok(Trim(x.s))
  {
    if !Truthy(x) then Ok(Trim(def))
    else if x.JStr? then Ok(Trim(x.s))
    else TypeError
  }

  /** The stock solutions `heuristicSolutionsFallback` returns: the first `SolutionsLimit(limitRaw)`, each valid. */
  function StockPrefix(limitRaw: Json): (r: seq<Solution>)
    ensures 1 <= |r| <= 5 && |r| == SolutionsLimit(limitRaw)
    ensures r == StockSolutions[..|r|]
    ensures forall i :: 0 <= i < |r| ==> ValidSolution(r[i])
  {
    StockSolutionsValid();
    Take(StockSolutions, SolutionsLimit(limitRaw))
  }

  /**
   * `heuristicSolutionsFallback(activity, problem, goal, limit)`: the first
   * `sanitizeLimit(limit || 3, 3, 5)` stock solutions, at least one, in order,
   * each valid. The trimmed activity and problem are not used in the reply,
   * but `(activity || 'business activity').trim()` and
   * `(problem || 'common challenge').trim()` throw on a truthy value that is
   * not a string; the goal is not read.
   */
  function HeuristicSolutionsFallback(activity: Json, problem: Json, limitRaw: Json): (r: Result<seq<Solution>>)
    ensures r.TypeError? <==> (Truthy(activity) && !activity.JStr?) || (Truthy(problem) && !problem.JStr?)
    ensures r.Ok? ==> 1 <= |r.value| <= 5 && |r.value| == SolutionsLimit(limitRaw)
    ensures r.Ok? ==> r.value == StockSolutions[..|r.value|]
    ensures r.Ok? ==> forall i :: 0 <= i < |r.value| ==> ValidSolution(r.value[i])
  {
    match TrimOr(activity, "business activity")
    case TypeError => TypeError
    case Ok(_) =>
      match TrimOr(problem, "common challenge")
      case TypeError => TypeError
      case Ok(_) => Ok(StockPrefix(limitRaw))
  }

  /** The fallback's solutions, when it does not throw, pass through `normalizeSolutions` unchanged. */
  lemma SolutionsFallbackNormal(activity: Json, problem: Json, limitRaw: Json)
    ensures var r := HeuristicSolutionsFallback(activity, problem, limitRaw);
      r.Ok? ==> NormalizeSolutions(SolutionsPayload(r.value)) == Ok(r.value)
  {
    NormalizeSolutionsRoundTrip(StockPrefix(limitRaw));
  }

  // ------------------------------------------------------------ milestone

  const MilestonePrefix: string := "Foundational progress toward: "

  const StockMilestoneSteps: seq<string> := [
    "Define exact success criteria", "List essential sub-deliverables",
    "Assign single owner per deliverable", "Set review and checkpoint dates",
    "Capture risks and mitigation actions"]

  /**
   * `(title || 'Core Milestone').trim()`: the default topic for a falsy
   * title, the trimmed text of a string; a `TypeError` for any other title.
   */
  function MilestoneTopic(title: Json): (t: Result<string>)
    ensures t.TypeError? <==> Truthy(title) && !title.JStr?
    ensures t.Ok? ==> Trimmed(t.value)
    ensures !Truthy(title) ==> t == Ok("Core Milestone")
    ensures Truthy(title) && title.JStr? ==> t == Ok(Trim(title.s))
  {
    TrimOfTrimmed("Core Milestone");
    TrimOr(title, "Core Milestone")
  }

  /**
   * `heuristicMilestoneFallback(title)`: the definition is the prefix and the
   * topic cut to 120 characters; the five stock steps follow. A title that
   * `trim` cannot be called on throws.
   */
  function HeuristicMilestoneFallback(title: Json): (m: Result<Milestone>)
    ensures m.TypeError? <==> MilestoneTopic(title).TypeError?
    ensures m.Ok? ==> var full := MilestonePrefix + MilestoneTopic(title).value;
      |m.value.definition| == Min(120, |full|) && m.value.definition == full[..|m.value.definition|]
    ensures m.Ok? ==> m.value.steps == StockMilestoneSteps
  {
    match MilestoneTopic(title)
    case TypeError => TypeError
    case Ok(t) => Ok(Milestone(Shortened(MilestonePrefix + t, 120), StockMilestoneSteps))
  }

  /** `s.slice(0, n)`: the first `n` characters, or all of them. */
  function Shortened(s: string, n: nat): (r: string)
    ensures |r| == Min(n, |s|) && r == s[..|r|]
  {
    Take(s, n)
  }

  lemma MilestonePrefixStart()
    ensures |MilestonePrefix| == 30 && !IsSpace(MilestonePrefix[0])
  {
  }

  /** The stock steps are five clean entries. */
  lemma StockMilestoneStepsClean()
    ensures |StockMilestoneSteps| == 5 && CleanList(StockMilestoneSteps)
  {
  }

  /**
   * A title short enough not to be cut gives a milestone that
   * `normalizeMilestone` leaves unchanged.
   */
  lemma MilestoneFallbackNormal(title: Json)
    requires title.JStr? ==> |Trim(title.s)| <= 120 - |MilestonePrefix|
    requires title.JStr? ==> |title.s| == 0 || |Trim(title.s)| > 0
    ensures var m := HeuristicMilestoneFallback(title);
      m.Ok? ==> NormalizeMilestone(MilestonePayload(m.value)) == m.value
  {
    var topic := MilestoneTopic(title);
    if topic.Ok? {
      TopicFits(title);
      TopicMilestoneNormal(topic.value);
    }
  }

  /** Under the lemma's requirements, the topic is non-empty and short enough not to be cut. */
  lemma TopicFits(title: Json)
    requires title.JStr? ==> |Trim(title.s)| <= 120 - |MilestonePrefix|
    requires title.JStr? ==> |title.s| == 0 || |Trim(title.s)| > 0
    ensures var t := MilestoneTopic(title);
      t.Ok? ==> 0 < |t.value| <= 120 - |MilestonePrefix|
  {
    if !Truthy(title) {
      assert MilestoneTopic(title).value == "Core Milestone";
    }
  }

  /** The fallback milestone of a non-empty trimmed topic short enough not to be cut survives `normalizeMilestone`. */
  lemma TopicMilestoneNormal(t: string)
    requires |t| > 0 && Trimmed(t) && |t| <= 120 - |MilestonePrefix|
    ensures var m := Milestone(Shortened(MilestonePrefix + t, 120), StockMilestoneSteps);
      NormalizeMilestone(MilestonePayload(m)) == m
  {
    MilestonePrefixStart();
    StockMilestoneStepsClean();
    PrefixedMilestoneNormal(MilestonePrefix, t, StockMilestoneSteps);
  }

  /**
   * A definition made of a prefix that starts with a visible character and a
   * non-empty trimmed topic, within 120 characters, with at most seven clean
   * steps, survives `normalizeMilestone`.
   */
  lemma PrefixedMilestoneNormal(prefix: string, t: string, steps: seq<string>)
    requires |prefix| > 0 && !IsSpace(prefix[0])
    requires |t| > 0 && Trimmed(t) && |prefix| + |t| <= 120
    requires |steps| <= 7 && CleanList(steps)
    ensures var m := Milestone(Take(prefix + t, 120), steps);
      NormalizeMilestone(MilestonePayload(m)) == m
  {
    var full := prefix + t;
    PrefixedTrimmed(prefix, t);
    assert Take(full, 120) == full;
    NormalizeMilestoneRoundTrip(Milestone(full, steps));
  }

  lemma PrefixedTrimmed(prefix: string, t: string)
    requires |prefix| > 0 && !IsSpace(prefix[0])
    requires |t| > 0 && Trimmed(t)
    ensures Trimmed(prefix + t)
  {
    var full := prefix + t;
    assert full[0] == prefix[0];
    assert full[|full| - 1] == t[|t| - 1];
  }

  // --------------------------------------------------------------- search

  /** One entry of `bases` in `heuristicSearchFallback`: `{ t, s, r }`. */
  datatype Base = Base(t: string, s: string, r: int)

  // The table `bases` of `heuristicSearchFallback`, column by column.

  const BaseTitles: seq<string> := [
    "Core Overview Guide", "Strategic Framing Insight", "Validation Workflow Outline",
    "Key Metrics Snapshot", "Execution Roadmap Draft", "Risk Pattern Breakdown",
    "Pricing & Value Signals", "Growth Experiment Seeds", "Capital Efficiency Levers",
    "Capability Build Stack"]

  const BaseSnippets: seq<string> := [
    "High-level orientation, core concepts, early missteps to avoid, initial leverage points.",
    "How to convert broad intent into structured actionable focus and sequencing.",
    "Lean loops to test demand signals and refine offering before scaling effort.",
    "Essential quantitative indicators to track traction, efficiency, and retention early.",
    "Suggested phased progression balancing build, learning, and commercialization.",
    "Common failure patterns, detection signals, and mitigation leverage points.",
    "Approaches to exploring willingness to pay and refining value articulation.",
    "Lightweight demand generation trial ideas prioritized by learning speed.",
    "Practical ways to extend runway while compounding validated learning.",
    "Minimal tool and process stack supporting iteration velocity and clarity."]

  const BaseRelevances: seq<int> := [96, 92, 89, 86, 83, 80, 77, 74, 71, 68]

  /** The rows of a table given by its columns. */
  function Rows(ts: seq<string>, ss: seq<string>, rs: seq<int>): (r: seq<Base>)
    requires |ts| == |ss| == |rs|
    ensures |r| == |ts| && forall i :: 0 <= i < |r| ==> r[i] == Base(ts[i], ss[i], rs[i])
  {
    seq(|ts|, i requires 0 <= i < |ts| == |ss| == |rs| => Base(ts[i], ss[i], rs[i]))
  }

  const SearchBases: seq<Base> := Rows(BaseTitles, BaseSnippets, BaseRelevances)

  /** Relevance never rises along the list and stays within `[lo, hi]`. */
  predicate BasesRanked(bases: seq<Base>, lo: int, hi: int) {
    (forall i, j :: 0 <= i < j < |bases| ==> bases[i].r >= bases[j].r)
    && (forall i :: 0 <= i < |bases| ==> lo <= bases[i].r <= hi)
  }

  lemma SearchBasesRanked()
    ensures |SearchBases| == 10 && BasesRanked(SearchBases, 68, 96)
  {
    assert forall i :: 0 <= i < 10 ==> BaseRelevances[i] == if i == 0 then 96 else 95 - 3 * i;
    assert forall i :: 0 <= i < 10 ==> SearchBases[i].r == BaseRelevances[i];
  }

  /** No white space in the string. */
  predicate NoSpace(w: string) {
    forall i :: 0 <= i < |w| ==> !IsSpace(w[i])
  }

  /** The index of the first white-space character, or the length when there is none. */
  function FirstSpace(s: string): (k: nat)
    ensures k <= |s| && NoSpace(s[..k])
    ensures k < |s| ==> IsSpace(s[k])
  {
    if |s| == 0 || IsSpace(s[0]) then 0
    else
      var k := FirstSpace(s[1..]);
      assert s[..k + 1] == [s[0]] + s[1..][..k];
      k + 1
  }

  /**
   * The pieces of `s` between white-space characters, empty pieces included.
   * `q.split(/\s+/)` yields the same pieces without the empty ones, and
   * `heuristicSearchFallback` drops those anyway with its length filter.
   */
  function SplitSpace(s: string): (r: seq<string>)
    ensures |r| >= 1
    ensures forall i :: 0 <= i < |r| ==> NoSpace(r[i])
    decreases |s|
  {
    var k := FirstSpace(s);
    if k == |s| then [s] else [s[..k]] + SplitSpace(s[k + 1..])
  }

  /** The only white space is the plain space. */
  predicate PlainSpaces(s: string) {
    forall i :: 0 <= i < |s| ==> IsSpace(s[i]) ==> s[i] == ' '
  }

  /** Joining the pieces with single spaces gives the string back. */
  lemma {:induction false} SplitSpaceJoin(s: string)
    requires PlainSpaces(s)
    ensures Join(SplitSpace(s), " ") == s
    decreases |s|
  {
    var k := FirstSpace(s);
    if k < |s| {
      var rest := s[k + 1..];
      PlainSpacesSuffix(s, k + 1);
      SplitSpaceJoin(rest);
      assert SplitSpace(s)[1..] == SplitSpace(rest);
      assert s == s[..k] + [s[k]] + rest;
    }
  }

  lemma PlainSpacesSuffix(s: string, k: nat)
    requires PlainSpaces(s) && k <= |s|
    ensures PlainSpaces(s[k..])
  {
    forall i | 0 <= i < |s[k..]| && IsSpace(s[k..][i]) ensures s[k..][i] == ' ' {
      assert s[k..][i] == s[k + i];
    }
  }

  /** `.filter(t => t.length > 3)`. */
  function LongWords(ws: seq<string>): (r: seq<string>)
    ensures |r| <= |ws|
    ensures forall i :: 0 <= i < |r| ==> |r[i]| > 3 && r[i] in ws
  {
    if |ws| == 0 then []
    else (if |ws[0]| > 3 then [ws[0]] else []) + LongWords(ws[1..])
  }

  /** A word is kept exactly when it is one of the words and longer than three characters. */
  lemma {:induction false} LongWordsMembers(ws: seq<string>, w: string)
    ensures w in LongWords(ws) <==> w in ws && |w| > 3
  {
    if |ws| > 0 {
      LongWordsMembers(ws[1..], w);
      assert w in ws <==> w == ws[0] || w in ws[1..];
    }
  }

  /** The filter works word by word, so the kept words stay in input order. */
  lemma {:induction false} LongWordsAppend(a: seq<string>, b: seq<string>)
    ensures LongWords(a + b) == LongWords(a) + LongWords(b)
  {
    if |a| == 0 {
      assert a + b == b;
    } else {
      assert (a + b)[0] == a[0] && (a + b)[1..] == a[1..] + b;
      LongWordsAppend(a[1..], b);
    }
  }

  /** `(String(query || '').trim() || 'business strategy').toLowerCase()`. */
  function SearchTopic(query: string): string {
    var t := Trim(query);
    ToLower(if |t| == 0 then "business strategy" else t)
  }

  /** `q.split(/\s+/).filter(t => t.length > 3).slice(0, 2)`: at most two words of more than three characters. */
  function SearchTokens(q: string): (tokens: seq<string>)
    ensures |tokens| <= 2
    ensures forall i :: 0 <= i < |tokens| ==> |tokens[i]| > 3 && NoSpace(tokens[i])
  {
    Take(LongWords(SplitSpace(q)), 2)
  }

  /**
   * The `i`-th result: the base's title after the capitalised token `i` picks
   * in turn, the base's snippet with a `Focus:` list of the tokens, and the
   * base's relevance less `i`. With no token both texts are the base's own.
   */
  function ResultAt(b: Base, i: nat, tokens: seq<string>): (x: SearchResult)
    ensures x.relevance == b.r - i
    ensures |x.title| >= |b.t| && x.title[|x.title| - |b.t|..] == b.t
    ensures |x.snippet| >= |b.s| && x.snippet[..|b.s|] == b.s
    ensures |tokens| == 0 ==> x.title == b.t && x.snippet == b.s
    ensures |tokens| > 0 ==>
      && x.title == Capitalize(tokens[i % |tokens|]) + " " + b.t
      && x.snippet == b.s + " Focus: " + Join(tokens, ", ") + "."
  {
    var title := (if |tokens| > 0 then Capitalize(tokens[i % |tokens|]) + " " else "") + b.t;
    var snippet := b.s + (if |tokens| > 0 then " Focus: " + Join(tokens, ", ") + "." else "");
    SearchResult(title, snippet, b.r - i)
  }

  /** `bases.slice(0, n).map((b, i) => ...)`. */
  function SearchFallbackOf(bases: seq<Base>, tokens: seq<string>, n: nat): (r: seq<SearchResult>)
    ensures |r| == Min(n, |bases|)
    ensures forall i :: 0 <= i < |r| ==> r[i] == ResultAt(bases[i], i, tokens)
  {
    var m := Min(n, |bases|);
    seq(m, i requires 0 <= i < m && m <= |bases| => ResultAt(bases[i], i, tokens))
  }

  /**
   * Subtracting the position makes relevance strictly decreasing along any
   * list of ranked bases, so the results need no sort; and it stays in
   * `[lo - (n - 1), hi]`.
   */
  lemma {:induction false} SearchFallbackRanked(bases: seq<Base>, lo: int, hi: int, tokens: seq<string>, n: nat)
    requires BasesRanked(bases, lo, hi)
    ensures var r := SearchFallbackOf(bases, tokens, n);
      (forall i, j :: 0 <= i < j < |r| ==> r[i].relevance > r[j].relevance)
      && Sorted(r)
      && forall i :: 0 <= i < |r| ==> lo - (|r| - 1) <= r[i].relevance <= hi
  {
    var r := SearchFallbackOf(bases, tokens, n);
    forall i, j | 0 <= i < j < |r| ensures r[i].relevance > r[j].relevance {
      assert r[i].relevance == bases[i].r - i && r[j].relevance == bases[j].r - j;
    }
  }

  /** A smaller limit gives a prefix of the same results. */
  lemma SearchFallbackPrefix(bases: seq<Base>, tokens: seq<string>, n: nat, m: nat)
    requires n <= m
    ensures var short := SearchFallbackOf(bases, tokens, n);
      short == SearchFallbackOf(bases, tokens, m)[..|short|]
  {
  }

  /** `heuristicSearchFallback(query, limit)`, for the `query` text `String(query || '')`. */
  function HeuristicSearchFallback(query: string, limit: int): (r: seq<SearchResult>)
    ensures |r| <= SanitizeInt(limit, 8, 12)
    ensures r == SearchFallbackOf(SearchBases, SearchTokens(SearchTopic(query)), SanitizeInt(limit, 8, 12))
  {
    var n := SanitizeInt(limit, 8, 12);
    assert 1 <= n <= 12;
    var r := SearchFallbackOf(SearchBases, SearchTokens(SearchTopic(query)), n);
    assert |r| <= n;
    r
  }

  /**
   * The search fallback gives `min(sanitizeLimit(limit), 10)`
   * results with strictly decreasing relevance in `[59, 96]`.
   */
  lemma HeuristicSearchFallbackRanked(query: string, limit: int)
    ensures var r := HeuristicSearchFallback(query, limit);
      |r| == Min(SanitizeInt(limit, 8, 12), 10)
      && (forall i, j :: 0 <= i < j < |r| ==> r[i].relevance > r[j].relevance)
      && Sorted(r)
      && forall i :: 0 <= i < |r| ==> 59 <= r[i].relevance <= 96
  {
    SearchBasesRanked();
    TenBasesRanked(SearchBases, SearchTokens(SearchTopic(query)), SanitizeInt(limit, 8, 12));
  }

  /** Ten bases ranked within `[68, 96]` give results ranked within `[59, 96]`. */
  lemma TenBasesRanked(bases: seq<Base>, tokens: seq<string>, n: nat)
    requires |bases| == 10 && BasesRanked(bases, 68, 96)
    ensures var r := SearchFallbackOf(bases, tokens, n);
      |r| == Min(n, 10)
      && (forall i, j :: 0 <= i < j < |r| ==> r[i].relevance > r[j].relevance)
      && Sorted(r)
      && forall i :: 0 <= i < |r| ==> 59 <= r[i].relevance <= 96
  {
    SearchFallbackRanked(bases, 68, 96, tokens, n);
  }
}
