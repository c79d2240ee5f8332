/**
 * The normalisers that coerce a parsed model reply into the ideas, solutions
 * and milestone response shapes (`api/ai.js`). Each reads its input through the
 * JavaScript coercions of module `Json`; a property read on a `null` array
 * element is a `TypeError`.
 */
module Normalize {
  import opened Strings
  import opened Json
  import opened Limits
  import opened Lists

  // ---------------------------------------------------------------- ideas

  /**
   * `normalizeIdeas(obj, limit)`: the first `sanitizeLimit(limit)` non-empty
   * trimmed renderings of `obj.ideas`, in input order.
   */
  function NormalizeIdeas(obj: Json, limit: int): (r: seq<string>)
    ensures |r| <= SanitizeInt(limit, 8, 12) <= 12
    ensures CleanList(r)
    ensures var c := CleanStrings(ArrayOr(Get(obj, "ideas")));
      |r| == Min(SanitizeInt(limit, 8, 12), |c|) && r == c[..|r|]
  {
    var c := CleanStrings(ArrayOr(Get(obj, "ideas")));
    var n := SanitizeInt(limit, 8, 12);
    assert 1 <= n <= 12;
    TakeClean(c, n as nat);
    Take(c, n as nat)
  }

  /** The reply `{"ideas": [...]}` that carries a list of ideas. */
  function IdeasPayload(ideas: seq<string>): Json {
    JObj(map["ideas" := JArr(StrPayload(ideas))])
  }

  /** Normalising the normaliser's own output, under the same limit, changes nothing. */
  lemma NormalizeIdeasIdempotent(obj: Json, limit: int)
    ensures NormalizeIdeas(IdeasPayload(NormalizeIdeas(obj, limit)), limit) == NormalizeIdeas(obj, limit)
  {
    var r := NormalizeIdeas(obj, limit);
    assert Get(IdeasPayload(r), "ideas") == JArr(StrPayload(r));
    CleanStringsOfPayload(r);
  }

  // ------------------------------------------------------------ solutions

  datatype Solution = Solution(title: string, rationale: string, steps: seq<string>)

  /** What every kept solution looks like: a title and one to eight steps, all trimmed. */
  predicate ValidSolution(s: Solution) {
    |s.title| > 0 && Trimmed(s.title) && Trimmed(s.rationale)
    && 1 <= |s.steps| <= 8 && CleanList(s.steps)
  }

  /** One element of `obj.solutions` mapped to the solution shape, before filtering. */
  function SolutionOf(s: Json): (r: Solution)
    requires !s.JNull?
    ensures Trimmed(r.title) && Trimmed(r.rationale)
    ensures |r.steps| <= 8 && CleanList(r.steps)
  {
    Solution(Trim(StrOr(Get(s, "title"))), Trim(StrOr(Get(s, "rationale"))),
             Take(CleanStrings(ArrayOr(Get(s, "steps"))), 8))
  }

  /** `obj.solutions.map(solutionOf)`, defined when no element is `null`. */
  function MapSolutions(xs: seq<Json>): (r: seq<Solution>)
    requires NoNull(xs)
    ensures |r| == |xs| && forall i :: 0 <= i < |xs| ==> r[i] == SolutionOf(xs[i])
  {
    seq(|xs|, i requires 0 <= i < |xs| && NoNull(xs) => SolutionOf(xs[i]))
  }

  /** `.filter(s => s.title && s.steps.length)`: the kept solutions, in order. */
  function KeepSolutions(ss: seq<Solution>): (r: seq<Solution>)
    ensures |r| <= |ss|
    ensures forall i :: 0 <= i < |r| ==> |r[i].title| > 0 && |r[i].steps| > 0 && r[i] in ss
  {
    if |ss| == 0 then []
    else (if |ss[0].title| > 0 && |ss[0].steps| > 0 then [ss[0]] else []) + KeepSolutions(ss[1..])
  }

  /** A solution is kept exactly when it is in the input and has a title and a step. */
  lemma {:induction false} KeepSolutionsMembers(ss: seq<Solution>, s: Solution)
    ensures s in KeepSolutions(ss) <==> s in ss && |s.title| > 0 && |s.steps| > 0
  {
    if |ss| > 0 {
      KeepSolutionsMembers(ss[1..], s);
      assert s in ss <==> s == ss[0] || s in ss[1..];
    }
  }

  /** The filter works element by element, so the kept solutions stay in input order. */
  lemma {:induction false} KeepSolutionsAppend(a: seq<Solution>, b: seq<Solution>)
    ensures KeepSolutions(a + b) == KeepSolutions(a) + KeepSolutions(b)
  {
    if |a| == 0 {
      assert a + b == b;
    } else {
      assert (a + b)[0] == a[0] && (a + b)[1..] == a[1..] + b;
      KeepSolutionsAppend(a[1..], b);
    }
  }

  /** What `solutionOf` gives for any element: the fields trimmed and at most eight clean steps. */
  predicate Mapped(s: Solution) {
    Trimmed(s.title) && Trimmed(s.rationale) && |s.steps| <= 8 && CleanList(s.steps)
  }

  /** The filter leaves only valid solutions of mapped ones. */
  lemma {:induction false} KeptValid(ss: seq<Solution>)
    requires forall i :: 0 <= i < |ss| ==> Mapped(ss[i])
    ensures forall i :: 0 <= i < |KeepSolutions(ss)| ==> ValidSolution(KeepSolutions(ss)[i])
  {
    if |ss| > 0 {
      KeptValid(ss[1..]);
    }
  }

  lemma SolutionMapped(j: Json, s: Solution)
    requires !j.JNull? && s == SolutionOf(j)
    ensures Mapped(s)
  {
  }

  lemma MappedKeptValid(sols: seq<Json>)
    requires NoNull(sols)
    ensures var kept := KeepSolutions(MapSolutions(sols));
      |kept| <= |sols| && forall i :: 0 <= i < |kept| ==> ValidSolution(kept[i])
  {
    var mapped := MapSolutions(sols);
    forall i | 0 <= i < |mapped|
      ensures Mapped(mapped[i])
    {
      SolutionMapped(sols[i], mapped[i]);
    }
    KeptValid(mapped);
  }

  /**
   * `sols.map(solutionOf).filter(...)`: fails exactly when some element is
   * `null`; otherwise every solution it keeps is valid.
   */
  function ShapeSolutions(sols: seq<Json>): (r: Result<seq<Solution>>)
    ensures r.Ok? <==> NoNull(sols)
    ensures r.Ok? ==> |r.value| <= |sols|
    ensures r.Ok? ==> forall i :: 0 <= i < |r.value| ==> ValidSolution(r.value[i])
  {
    if NoNull(sols) then
      MappedKeptValid(sols);
      Ok(KeepSolutions(MapSolutions(sols)))
    else TypeError
  }

  /**
   * On input without `null`, a solution is in the result exactly when some
   * element maps to it and it has a title and a step.
   */
  lemma ShapeSolutionsMembers(sols: seq<Json>, s: Solution)
    requires NoNull(sols)
    ensures s in ShapeSolutions(sols).value <==>
      (exists i :: 0 <= i < |sols| && s == SolutionOf(sols[i])) && |s.title| > 0 && |s.steps| > 0
  {
    var mapped := MapSolutions(sols);
    ShapeIsKept(sols);
    KeepSolutionsMembers(mapped, s);
    if s in mapped {
      var i :| 0 <= i < |mapped| && mapped[i] == s;
      assert s == SolutionOf(sols[i]);
    }
    if exists i :: 0 <= i < |sols| && s == SolutionOf(sols[i]) {
      var i :| 0 <= i < |sols| && s == SolutionOf(sols[i]);
      assert mapped[i] == s;
    }
  }

  /** Mapping and filtering keep the input order: shaping a concatenation concatenates the shaped parts. */
  lemma ShapeSolutionsAppend(a: seq<Json>, b: seq<Json>)
    requires NoNull(a) && NoNull(b)
    ensures NoNull(a + b)
    ensures ShapeSolutions(a + b).value == ShapeSolutions(a).value + ShapeSolutions(b).value
  {
    MapSolutionsAppend(a, b);
    ShapeIsKept(a);
    ShapeIsKept(b);
    ShapeIsKept(a + b);
    KeepSolutionsAppend(MapSolutions(a), MapSolutions(b));
  }

  lemma ShapeIsKept(sols: seq<Json>)
    requires NoNull(sols)
    ensures ShapeSolutions(sols) == Ok(KeepSolutions(MapSolutions(sols)))
  {
  }

  lemma MapSolutionsAppend(a: seq<Json>, b: seq<Json>)
    requires NoNull(a) && NoNull(b)
    ensures NoNull(a + b)
    ensures MapSolutions(a + b) == MapSolutions(a) + MapSolutions(b)
  {
    NoNullAppend(a, b);
    var ab := a + b;
    var m, ma, mb := MapSolutions(ab), MapSolutions(a), MapSolutions(b);
    forall i | 0 <= i < |ab| ensures m[i] == (ma + mb)[i] {
      if i < |a| {
        assert ab[i] == a[i] && (ma + mb)[i] == ma[i];
      } else {
        assert ab[i] == b[i - |a|] && (ma + mb)[i] == mb[i - |a|];
      }
    }
  }

  /**
   * `normalizeSolutions(obj)`: fails exactly when some element of
   * `obj.solutions` is `null`; otherwise every solution it keeps is valid.
   */
  function NormalizeSolutions(obj: Json): (r: Result<seq<Solution>>)
    ensures r.Ok? <==> NoNull(ArrayOr(Get(obj, "solutions")))
    ensures r.Ok? ==> |r.value| <= |ArrayOr(Get(obj, "solutions"))|
    ensures r.Ok? ==> forall i :: 0 <= i < |r.value| ==> ValidSolution(r.value[i])
  {
    ShapeSolutions(ArrayOr(Get(obj, "solutions")))
  }

  function SolutionJson(s: Solution): Json {
    JObj(map["title" := JStr(s.title), "rationale" := JStr(s.rationale), "steps" := JArr(StrPayload(s.steps))])
  }

  function SolutionsJson(sols: seq<Solution>): (r: seq<Json>)
    ensures |r| == |sols| && forall i :: 0 <= i < |sols| ==> r[i] == SolutionJson(sols[i])
  {
    seq(|sols|, i requires 0 <= i < |sols| => SolutionJson(sols[i]))
  }

  /** The reply `{"solutions": [...]}` that carries a list of solutions. */
  function SolutionsPayload(sols: seq<Solution>): Json {
    JObj(map["solutions" := JArr(SolutionsJson(sols))])
  }

  lemma SolutionJsonFields(s: Solution)
    ensures Get(SolutionJson(s), "title") == JStr(s.title)
    ensures Get(SolutionJson(s), "rationale") == JStr(s.rationale)
    ensures Get(SolutionJson(s), "steps") == JArr(StrPayload(s.steps))
  {
  }

  lemma SolutionOfJsonTitle(s: Solution)
    requires Trimmed(s.title)
    ensures SolutionOf(SolutionJson(s)).title == s.title
  {
    SolutionJsonFields(s);
    TrimOfTrimmed(s.title);
  }

  lemma SolutionOfJsonRationale(s: Solution)
    requires Trimmed(s.rationale)
    ensures SolutionOf(SolutionJson(s)).rationale == s.rationale
  {
    SolutionJsonFields(s);
    TrimOfTrimmed(s.rationale);
  }

  lemma SolutionOfJsonSteps(s: Solution)
    requires |s.steps| <= 8 && CleanList(s.steps)
    ensures SolutionOf(SolutionJson(s)).steps == s.steps
  {
    SolutionJsonFields(s);
    CleanStringsOfPayload(s.steps);
  }

  /** A valid solution read back from its JSON form is itself. */
  lemma SolutionOfJson(s: Solution)
    requires ValidSolution(s)
    ensures SolutionOf(SolutionJson(s)) == s
  {
    SolutionOfJsonTitle(s);
    SolutionOfJsonRationale(s);
    SolutionOfJsonSteps(s);
  }

  lemma {:induction false} KeepValidSolutions(ss: seq<Solution>)
    requires forall i :: 0 <= i < |ss| ==> ValidSolution(ss[i])
    ensures KeepSolutions(ss) == ss
  {
    if |ss| > 0 {
      KeepValidSolutions(ss[1..]);
    }
  }

  /** Valid solutions survive the trip through JSON and the normaliser unchanged. */
  lemma NormalizeSolutionsRoundTrip(sols: seq<Solution>)
    requires forall i :: 0 <= i < |sols| ==> ValidSolution(sols[i])
    ensures NormalizeSolutions(SolutionsPayload(sols)) == Ok(sols)
  {
    var xs := SolutionsJson(sols);
    assert Get(SolutionsPayload(sols), "solutions") == JArr(xs);
    assert NoNull(xs);
    forall i | 0 <= i < |sols| ensures MapSolutions(xs)[i] == sols[i] {
      SolutionOfJson(sols[i]);
    }
    assert MapSolutions(xs) == sols;
    KeepValidSolutions(sols);
  }

  // ------------------------------------------------------------ milestone

  datatype Milestone = Milestone(definition: string, steps: seq<string>)

  /** `normalizeMilestone(obj)`: a trimmed definition and at most seven clean steps. */
  function NormalizeMilestone(obj: Json): (r: Milestone)
    ensures Trimmed(r.definition)
    ensures |r.steps| <= 7 && CleanList(r.steps)
    ensures var c := CleanStrings(ArrayOr(Get(obj, "steps")));
      |r.steps| == Min(7, |c|) && r.steps == c[..|r.steps|]
  {
    Milestone(Trim(StrOr(Get(obj, "definition"))), Take(CleanStrings(ArrayOr(Get(obj, "steps"))), 7))
  }

  function MilestonePayload(m: Milestone): Json {
    JObj(map["definition" := JStr(m.definition), "steps" := JArr(StrPayload(m.steps))])
  }

  lemma MilestonePayloadFields(m: Milestone)
    ensures Get(MilestonePayload(m), "definition") == JStr(m.definition)
    ensures Get(MilestonePayload(m), "steps") == JArr(StrPayload(m.steps))
  {
  }

  lemma MilestoneOfPayloadDefinition(m: Milestone)
    requires Trimmed(m.definition)
    ensures NormalizeMilestone(MilestonePayload(m)).definition == m.definition
  {
    MilestonePayloadFields(m);
    TrimOfTrimmed(m.definition);
  }

  lemma MilestoneOfPayloadSteps(m: Milestone)
    requires |m.steps| <= 7 && CleanList(m.steps)
    ensures NormalizeMilestone(MilestonePayload(m)).steps == m.steps
  {
    MilestonePayloadFields(m);
    CleanStringsOfPayload(m.steps);
  }

  /** A normalised milestone survives the trip through JSON and the normaliser unchanged. */
  lemma NormalizeMilestoneRoundTrip(m: Milestone)
    requires Trimmed(m.definition) && |m.steps| <= 7 && CleanList(m.steps)
    ensures NormalizeMilestone(MilestonePayload(m)) == m
  {
    MilestoneOfPayloadDefinition(m);
    MilestoneOfPayloadSteps(m);
  }
}
