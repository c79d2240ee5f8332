/**
 * `normalizeSearch` (`api/ai.js`): search results coerced to bounded titles
 * and snippets, relevance clamped to [0, 100], ordered by a stable sort on
 * decreasing relevance and cut to the sanitised limit.
 */
module Search {
  import opened Strings
  import opened Json
  import opened Limits
  import opened Lists

  datatype SearchResult = SearchResult(title: string, snippet: string, relevance: int)

  /** An element of `obj.results` after the `map`, with `None` for a `NaN` relevance. */
  datatype Row = Row(title: string, snippet: string, relevance: Option<int>)

  /** `Math.max(0, Math.min(100, v))`. */
  function Clamp(v: int): (r: int)
    ensures 0 <= r <= 100
    ensures 0 <= v <= 100 ==> r == v
    ensures v < 0 ==> r == 0
    ensures v > 100 ==> r == 100
  {
    if v < 0 then 0 else if v > 100 then 100 else v
  }

  /** `parseInt(r.relevance || 0, 10)`. */
  function RelevanceOf(r: Json): Option<int> {
    ParseIntOrZero(Get(r, "relevance"))
  }

  /** One element of `obj.results` after the `map`: its title and snippet trimmed and cut, its relevance parsed. */
  function RowOf(r: Json): (row: Row)
    ensures var t := Trim(StrOr(Get(r, "title"))); |row.title| == Min(120, |t|) && row.title == t[..|row.title|]
    ensures var t := Trim(StrOr(Get(r, "snippet"))); |row.snippet| == Min(320, |t|) && row.snippet == t[..|row.snippet|]
    ensures row.relevance == ParseIntOrZero(Get(r, "relevance"))
  {
    Row(Clip(StrOr(Get(r, "title")), 120), Clip(StrOr(Get(r, "snippet")), 320), RelevanceOf(r))
  }

  /** `String(x).trim().slice(0, n)`: the trimmed string, cut to its first `n` characters. */
  function Clip(s: string, n: nat): (c: string)
    ensures |c| == Min(n, |Trim(s)|) && c == Trim(s)[..|c|]
  {
    var t := Trim(s);
    var c := Take(t, n);
    assert |c| == Min(n, |t|);
    c
  }

  function MapRows(xs: seq<Json>): (r: seq<Row>)
    ensures |r| == |xs| && forall i :: 0 <= i < |xs| ==> r[i] == RowOf(xs[i])
  {
    seq(|xs|, i requires 0 <= i < |xs| => RowOf(xs[i]))
  }

  /** `.filter(r => r.title && r.snippet)` survives this row. */
  predicate Kept(row: Row) {
    |row.title| > 0 && |row.snippet| > 0
  }

  /**
   * Every row the filter keeps has a relevance that parses. With a `NaN`
   * relevance the comparator is inconsistent and the order `sort` produces is
   * implementation-defined, so the model asks for this.
   */
  predicate RelevancesParse(rows: seq<Row>) {
    forall i :: 0 <= i < |rows| ==> Kept(rows[i]) ==> rows[i].relevance.Some?
  }

  /** A row as the `map` leaves it, with a relevance that parses if the filter keeps it. */
  predicate RowReady(row: Row) {
    |row.title| <= 120 && |row.snippet| <= 320 && (Kept(row) ==> row.relevance.Some?)
  }

  predicate Ready(rows: seq<Row>) {
    forall i :: 0 <= i < |rows| ==> RowReady(rows[i])
  }

  /** The mapped rows are cut to size, so only the relevance needs asking for. */
  lemma MapRowsReady(xs: seq<Json>)
    requires RelevancesParse(MapRows(xs))
    ensures Ready(MapRows(xs))
  {
    var rows := MapRows(xs);
    forall i | 0 <= i < |rows| ensures RowReady(rows[i]) {
      assert rows[i] == RowOf(xs[i]);
    }
  }

  lemma ReadyAppend(a: seq<Row>, b: seq<Row>)
    requires Ready(a) && Ready(b)
    ensures Ready(a + b)
  {
    forall i | 0 <= i < |a + b| ensures RowReady((a + b)[i]) {
      if i < |a| { assert (a + b)[i] == a[i]; } else { assert (a + b)[i] == b[i - |a|]; }
    }
  }

  /** A result as the filter leaves it: non-empty, bounded, relevance in [0, 100]. */
  predicate ValidResult(x: SearchResult) {
    0 < |x.title| <= 120 && 0 < |x.snippet| <= 320 && 0 <= x.relevance <= 100
  }

  predicate AllValid(s: seq<SearchResult>) {
    forall i :: 0 <= i < |s| ==> ValidResult(s[i])
  }

  /** The result a kept row becomes: its title, its snippet and its relevance clamped to [0, 100]. */
  function CandidateOf(row: Row): (x: SearchResult)
    requires RowReady(row) && Kept(row)
    ensures ValidResult(x)
  {
    SearchResult(row.title, row.snippet, Clamp(row.relevance.value))
  }

  /** `.filter(r => r.title && r.snippet)` on the mapped rows, with the relevance clamped. */
  function Candidates(rows: seq<Row>): (r: seq<SearchResult>)
    requires Ready(rows)
    ensures |r| <= |rows|
    ensures AllValid(r)
  {
    if |rows| == 0 then []
    else
      var row := rows[0];
      assert Ready(rows[1..]) by {
        forall i | 0 <= i < |rows[1..]| ensures RowReady(rows[1..][i]) {
          assert rows[1..][i] == rows[i + 1];
        }
      }
      if Kept(row) then [CandidateOf(row)] + Candidates(rows[1..])
      else Candidates(rows[1..])
  }

  /** A result is a candidate exactly when some row the filter keeps becomes it. */
  lemma {:induction false} CandidatesMembers(rows: seq<Row>, x: SearchResult)
    requires Ready(rows)
    ensures x in Candidates(rows) <==> exists i :: 0 <= i < |rows| && Kept(rows[i]) && x == CandidateOf(rows[i])
  {
    if |rows| > 0 {
      var tail := rows[1..];
      assert Ready(tail) by {
        forall i | 0 <= i < |tail| ensures RowReady(tail[i]) {
          assert tail[i] == rows[i + 1];
        }
      }
      CandidatesMembers(tail, x);
      if exists i :: 0 <= i < |tail| && Kept(tail[i]) && x == CandidateOf(tail[i]) {
        var i :| 0 <= i < |tail| && Kept(tail[i]) && x == CandidateOf(tail[i]);
        assert tail[i] == rows[i + 1];
      }
      if exists i :: 0 <= i < |rows| && Kept(rows[i]) && x == CandidateOf(rows[i]) {
        var i :| 0 <= i < |rows| && Kept(rows[i]) && x == CandidateOf(rows[i]);
        if i > 0 {
          assert tail[i - 1] == rows[i];
        }
      }
    }
  }

  /** The filter works row by row, so the candidates stay in input order. */
  lemma {:induction false} CandidatesAppend(a: seq<Row>, b: seq<Row>)
    requires Ready(a) && Ready(b)
    ensures Ready(a + b)
    ensures Candidates(a + b) == Candidates(a) + Candidates(b)
  {
    ReadyAppend(a, b);
    if |a| == 0 {
      assert a + b == b;
    } else {
      var tail := a[1..];
      assert Ready(tail) by {
        forall i | 0 <= i < |tail| ensures RowReady(tail[i]) {
          assert tail[i] == a[i + 1];
        }
      }
      assert (a + b)[0] == a[0] && (a + b)[1..] == tail + b;
      CandidatesAppend(tail, b);
    }
  }

  // ------------------------------------------------------------- sorting

  /** Non-increasing relevance. */
  predicate Sorted(s: seq<SearchResult>) {
    forall i, j :: 0 <= i < j < |s| ==> s[i].relevance >= s[j].relevance
  }

  /** Put `x` in front of the first element that is not more relevant than it. */
  function Insert(x: SearchResult, s: seq<SearchResult>): (r: seq<SearchResult>)
    ensures |r| == |s| + 1
    ensures multiset(r) == multiset(s) + multiset{x}
    ensures AllValid(s) && ValidResult(x) ==> AllValid(r)
  {
    if |s| == 0 then [x]
    else if x.relevance >= s[0].relevance then [x] + s
    else
      assert s == [s[0]] + s[1..];
      [s[0]] + Insert(x, s[1..])
  }

  /**
   * `.sort((a, b) => b.relevance - a.relevance)`, which is stable: an insertion
   * sort that inserts each element in front of the equally relevant ones after it.
   */
  function SortByRelevance(s: seq<SearchResult>): (r: seq<SearchResult>)
    ensures |r| == |s|
    ensures multiset(r) == multiset(s)
    ensures AllValid(s) ==> AllValid(r)
  {
    if |s| == 0 then []
    else
      assert s == [s[0]] + s[1..];
      Insert(s[0], SortByRelevance(s[1..]))
  }

  lemma {:induction false} InsertSorted(x: SearchResult, s: seq<SearchResult>)
    requires Sorted(s)
    ensures Sorted(Insert(x, s))
  {
    if |s| > 0 && x.relevance < s[0].relevance {
      InsertSorted(x, s[1..]);
      InsertBounded(x, s[1..], s[0].relevance);
    }
  }

  /** Inserting keeps every relevance at most `b` when it was so before. */
  lemma {:induction false} InsertBounded(x: SearchResult, s: seq<SearchResult>, b: int)
    requires x.relevance <= b && forall j :: 0 <= j < |s| ==> s[j].relevance <= b
    ensures forall j :: 0 <= j < |Insert(x, s)| ==> Insert(x, s)[j].relevance <= b
  {
    if |s| > 0 && x.relevance < s[0].relevance {
      InsertBounded(x, s[1..], b);
    }
  }

  /** The sort orders by non-increasing relevance. */
  lemma {:induction false} SortSorted(s: seq<SearchResult>)
    ensures Sorted(SortByRelevance(s))
  {
    if |s| > 0 {
      SortSorted(s[1..]);
      InsertSorted(s[0], SortByRelevance(s[1..]));
    }
  }

  /** The results of relevance `k`, in order. */
  function WithRelevance(s: seq<SearchResult>, k: int): seq<SearchResult> {
    if |s| == 0 then []
    else Pick(s[0], k) + WithRelevance(s[1..], k)
  }

  lemma {:induction false} InsertWithRelevance(x: SearchResult, s: seq<SearchResult>, k: int)
    ensures WithRelevance(Insert(x, s), k) == Pick(x, k) + WithRelevance(s, k)
  {
    if |s| > 0 {
      if x.relevance >= s[0].relevance {
        WithRelevanceCons(x, s, k);
      } else {
        InsertStep(x, s);
        InsertWithRelevance(x, s[1..], k);
        WithRelevanceCons(s[0], Insert(x, s[1..]), k);
        WithRelevanceCons(s[0], s[1..], k);
        assert [s[0]] + s[1..] == s;
        PicksCommute(s[0], x, WithRelevance(s[1..], k), k);
      }
    }
  }

  /** `[x]` when `x` has relevance `k`, otherwise nothing. */
  function Pick(x: SearchResult, k: int): seq<SearchResult> {
    if x.relevance == k then [x] else []
  }

  lemma WithRelevanceCons(a: SearchResult, t: seq<SearchResult>, k: int)
    ensures WithRelevance([a] + t, k) == Pick(a, k) + WithRelevance(t, k)
  {
    var r := [a] + t;
    assert r[0] == a && r[1..] == t;
  }

  lemma InsertStep(x: SearchResult, s: seq<SearchResult>)
    requires |s| > 0 && x.relevance < s[0].relevance
    ensures Insert(x, s) == [s[0]] + Insert(x, s[1..])
  {
  }

  /** Two results of different relevance cannot both be picked, so their order does not matter. */
  lemma PicksCommute(a: SearchResult, x: SearchResult, w: seq<SearchResult>, k: int)
    requires x.relevance < a.relevance
    ensures Pick(x, k) + (Pick(a, k) + w) == Pick(a, k) + (Pick(x, k) + w)
  {
  }

  /** The sort is stable: equally relevant results keep their input order. */
  lemma {:induction false} SortStable(s: seq<SearchResult>, k: int)
    ensures WithRelevance(SortByRelevance(s), k) == WithRelevance(s, k)
  {
    if |s| > 0 {
      SortStable(s[1..], k);
      InsertWithRelevance(s[0], SortByRelevance(s[1..]), k);
    }
  }

  // -------------------------------------------------------- normalisation

  /**
   * `normalizeSearch(obj, limit)`: a `TypeError` exactly when some element of
   * `obj.results` is `null`; otherwise at most `sanitizeLimit(limit, 8, 12)`
   * valid results in non-increasing relevance.
   */
  function NormalizeSearch(obj: Json, limit: int): (r: Result<seq<SearchResult>>)
    requires RelevancesParse(MapRows(ArrayOr(Get(obj, "results"))))
    ensures r.Ok? <==> NoNull(ArrayOr(Get(obj, "results")))
    ensures r.Ok? ==> |r.value| <= SanitizeInt(limit, 8, 12) <= 12
    ensures r.Ok? ==> AllValid(r.value)
    ensures r.Ok? ==> Sorted(r.value)
    ensures r.Ok? ==> r.value == Rank(CandidatesOf(obj), SanitizeInt(limit, 8, 12))
  {
    if NoNull(ArrayOr(Get(obj, "results"))) then
      var n := SanitizeInt(limit, 8, 12);
      assert 1 <= n <= 12;
      var c := CandidatesOf(obj);
      assert AllValid(c);
      Ok(Rank(c, n))
    else TypeError
  }

  /** `.sort(...).slice(0, n)` on the filtered candidates. */
  function Rank(c: seq<SearchResult>, n: nat): (r: seq<SearchResult>)
    requires AllValid(c)
    ensures |r| == Min(n, |c|) && |r| <= n
    ensures AllValid(r) && Sorted(r)
    ensures multiset(r) <= multiset(c)
  {
    SortSorted(c);
    var s := SortByRelevance(c);
    var r := Take(s, n);
    assert s == r + s[|r|..];
    assert multiset(s) == multiset(r) + multiset(s[|r|..]);
    r
  }

  /**
   * The cut keeps the most relevant candidates: every candidate it drops is
   * no more relevant than any it keeps.
   */
  lemma RankTopK(c: seq<SearchResult>, n: nat, x: SearchResult, y: SearchResult)
    requires AllValid(c)
    requires y in Rank(c, n)
    requires x in multiset(c) - multiset(Rank(c, n))
    ensures x.relevance <= y.relevance
  {
    SortSorted(c);
    TakeSortedTopK(SortByRelevance(c), n, x, y);
  }

  /** Taking a prefix of a sorted list keeps the most relevant elements. */
  lemma TakeSortedTopK(s: seq<SearchResult>, n: nat, x: SearchResult, y: SearchResult)
    requires Sorted(s)
    requires y in Take(s, n)
    requires x in multiset(s) - multiset(Take(s, n))
    ensures x.relevance <= y.relevance
  {
    var r := Take(s, n);
    assert s == r + s[|r|..];
    assert multiset(s) == multiset(r) + multiset(s[|r|..]);
    assert x in multiset(s[|r|..]);
    var j :| 0 <= j < |s[|r|..]| && s[|r|..][j] == x;
    var i :| 0 <= i < |r| && r[i] == y;
    assert s[i] == y && s[|r| + j] == x;
  }

  /**
   * `normalizeSearch` returns the most relevant candidates: every candidate
   * row the limit drops is no more relevant than any result returned.
   */
  lemma NormalizeSearchTopK(obj: Json, limit: int, x: SearchResult, y: SearchResult)
    requires RelevancesParse(MapRows(ArrayOr(Get(obj, "results"))))
    requires NoNull(ArrayOr(Get(obj, "results")))
    requires y in NormalizeSearch(obj, limit).value
    requires x in multiset(CandidatesOf(obj)) - multiset(NormalizeSearch(obj, limit).value)
    ensures x.relevance <= y.relevance
  {
    RankTopK(CandidatesOf(obj), SanitizeInt(limit, 8, 12), x, y);
  }

  /** The candidate results of `obj.results`, before the sort and the cut. */
  function CandidatesOf(obj: Json): (c: seq<SearchResult>)
    requires RelevancesParse(MapRows(ArrayOr(Get(obj, "results"))))
    ensures AllValid(c)
  {
    MapRowsReady(ArrayOr(Get(obj, "results")));
    Candidates(MapRows(ArrayOr(Get(obj, "results"))))
  }
  // ---------------------------------------------------------- round trip

  /** A result as `JSON.stringify` sends it. */
  function ResultJson(x: SearchResult): Json {
    JObj(map["title" := JStr(x.title), "snippet" := JStr(x.snippet), "relevance" := JNum(x.relevance as real)])
  }

  function ResultsJson(s: seq<SearchResult>): (r: seq<Json>)
    ensures |r| == |s| && forall i :: 0 <= i < |s| ==> r[i] == ResultJson(s[i])
  {
    seq(|s|, i requires 0 <= i < |s| => ResultJson(s[i]))
  }

  /** A valid result whose title and snippet have no white-space ends. */
  predicate CleanResult(x: SearchResult) {
    ValidResult(x) && Trimmed(x.title) && Trimmed(x.snippet)
  }

  lemma RowOfResultJson(x: SearchResult)
    requires CleanResult(x)
    ensures RowOf(ResultJson(x)) == Row(x.title, x.snippet, Some(x.relevance))
  {
    var j := ResultJson(x);
    assert Get(j, "title") == JStr(x.title) && Get(j, "snippet") == JStr(x.snippet);
    assert Get(j, "relevance") == JNum(x.relevance as real);
    RowOfFields(j, x);
  }

  lemma RowOfFields(j: Json, x: SearchResult)
    requires CleanResult(x)
    requires Get(j, "title") == JStr(x.title) && Get(j, "snippet") == JStr(x.snippet)
    requires Get(j, "relevance") == JNum(x.relevance as real)
    ensures RowOf(j) == Row(x.title, x.snippet, Some(x.relevance))
  {
    ClipShort(x.title, 120);
    ClipShort(x.snippet, 320);
    assert StrOr(Get(j, "title")) == x.title && StrOr(Get(j, "snippet")) == x.snippet;
    ParseIntOrZeroOfInt(x.relevance);
    assert RelevanceOf(j) == Some(x.relevance);
  }

  /** Clipping a trimmed string that is short enough changes nothing. */
  lemma ClipShort(t: string, n: nat)
    requires Trimmed(t) && |t| <= n
    ensures Clip(t, n) == t
  {
    assert Clip(t, n) == Take(t, n) by {
      TrimOfTrimmed(t);
    }
    assert Take(t, n) == t;
  }

  /** Rows that carry clean results unchanged are all kept, and become those results. */
  lemma {:induction false} CandidatesOfClean(s: seq<SearchResult>, rows: seq<Row>)
    requires forall i :: 0 <= i < |s| ==> CleanResult(s[i])
    requires |rows| == |s| && forall i :: 0 <= i < |s| ==> rows[i] == Row(s[i].title, s[i].snippet, Some(s[i].relevance))
    ensures Ready(rows) && Candidates(rows) == s
  {
    assert Ready(rows) by {
      forall i | 0 <= i < |rows| ensures RowReady(rows[i]) {
        assert CleanResult(s[i]);
      }
    }
    if |s| > 0 {
      assert CleanResult(s[0]);
      CandidatesOfClean(s[1..], rows[1..]);
      assert CandidateOf(rows[0]) == s[0];
    }
  }

  /** The sort leaves a list that is already sorted as it is. */
  lemma {:induction false} SortOfSorted(s: seq<SearchResult>)
    requires Sorted(s)
    ensures SortByRelevance(s) == s
  {
    if |s| > 0 {
      SortOfSorted(s[1..]);
      assert SortByRelevance(s) == Insert(s[0], s[1..]);
      assert [s[0]] + s[1..] == s;
    }
  }

  /**
   * `normalizeSearch` is idempotent: clean results in non-increasing
   * relevance, no more than the limit allows, come back unchanged from their
   * own JSON.
   */
  lemma NormalizeSearchRoundTrip(s: seq<SearchResult>, limit: int)
    requires forall i :: 0 <= i < |s| ==> CleanResult(s[i])
    requires Sorted(s) && |s| <= SanitizeInt(limit, 8, 12)
    ensures RelevancesParse(MapRows(ResultsJson(s)))
    ensures NormalizeSearch(JObj(map["results" := JArr(ResultsJson(s))]), limit) == Ok(s)
  {
    var obj := JObj(map["results" := JArr(ResultsJson(s))]);
    var js := ResultsJson(s);
    assert ArrayOr(Get(obj, "results")) == js;
    var rows := MapRows(js);
    forall i | 0 <= i < |s| ensures rows[i] == Row(s[i].title, s[i].snippet, Some(s[i].relevance)) {
      RowOfResultJson(s[i]);
    }
    CandidatesOfClean(s, rows);
    assert NoNull(js);
    assert CandidatesOf(obj) == s;
    SortOfSorted(s);
    var n := SanitizeInt(limit, 8, 12);
    assert Rank(s, n) == Take(SortByRelevance(s), n);
  }
}
