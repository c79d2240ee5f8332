/**
 * The Cloudflare Worker variant of the pipeline (`cloudflare_worker/ai_worker.js`):
 * `runModel` reads the model's reply, and `handleIdeas`, `handleSolutions`
 * and `handleMilestone` validate the request, read the reply, fall back to
 * splitting the raw text when the reply is not JSON, and bound the result.
 * The Workers AI call is left out: its reply text is a parameter, and so is
 * `JSON.parse`.
 */
module Worker {
  import opened Strings
  import opened Json
  import opened Limits
  import opened Lists
  import opened Normalize

  // ---------------------------------------------------------------------
  // runModel
  // ---------------------------------------------------------------------

  /** The text `runModel` parses: the trimmed reply, read from its first brace. */
  function ModelText(reply: string): (raw: string)
  {
    FromFirstBrace(Trim(reply))
  }

  /** `if (firstBrace > 0) raw = raw.slice(firstBrace)`. */
  function FromFirstBrace(t: string): (raw: string)
  {
    var i := IndexOf(t, '{');
    if i > 0 then t[i..] else t
  }

  /**
   * Only the prose before the first brace is dropped: the text read starts
   * at that brace when there is one, and is the whole text when there is none.
   */
  lemma FromFirstBraceShape(t: string)
    ensures var raw := FromFirstBrace(t);
      |raw| <= |t| && raw == t[|t| - |raw|..]
      && (IndexOf(t, '{') >= 0 ==> |raw| > 0 && raw[0] == '{' && NoChar(t[..|t| - |raw|], '{'))
      && (IndexOf(t, '{') < 0 ==> raw == t)
  {
    var i := IndexOf(t, '{');
    if i > 0 {
      assert |t| - |t[i..]| == i;
    } else {
      assert t[0..] == t;
    }
  }

  /** The object `{ _raw: raw }` that stands for a reply that is not JSON. */
  function RawObject(raw: string): Json {
    JObj(map["_raw" := JStr(raw)])
  }

  /** `runModel(env, prompt)` on the reply text: the parse, or `{ _raw }` when the parse throws. */
  function RunModel(parse: string -> Option<Json>, reply: string): (data: Json)
    ensures parse(ModelText(reply)).Some? ==> data == parse(ModelText(reply)).value
    ensures parse(ModelText(reply)).None? ==> Get(data, "_raw") == JStr(ModelText(reply))
  {
    ReadText(parse, ModelText(reply))
  }

  /** The `try { JSON.parse(raw) } catch { ... }` of `runModel`. */
  /**
   * It never throws: the parse when there is one; otherwise the text comes
   * back under `_raw`, with no `ideas`, `solutions` or `steps`, so the
   * handlers take their raw fallback.
   */
  function ReadText(parse: string -> Option<Json>, raw: string): (data: Json)
    ensures parse(raw).Some? ==> data == parse(raw).value
    ensures parse(raw).None? ==> Get(data, "_raw") == JStr(raw)
    ensures parse(raw).None? ==>
      Get(data, "ideas") == JNull && Get(data, "solutions") == JNull && Get(data, "steps") == JNull
  {
    match parse(raw)
    case Some(v) => v
    case None =>
      assert "ideas" != "_raw" && "solutions" != "_raw" && "steps" != "_raw" by {
        assert "ideas"[0] != "_raw"[0] && "solutions"[0] != "_raw"[0] && "steps"[0] != "_raw"[0];
      }
      RawObject(raw)
  }

  // ---------------------------------------------------------------------
  // limits and slices
  // ---------------------------------------------------------------------

  /** `Math.min(a, b)`, with `None` for `NaN`, which it propagates. */
  function MinNaN(a: Option<int>, b: int): (r: Option<int>)
    ensures r.None? <==> a.None?
    ensures r.Some? ==> r.value <= b && (r.value == a.value || r.value == b)
  {
    if a.None? then None else Some(Min(a.value, b))
  }

  /**
   * `xs.slice(0, end)`: `NaN` counts as `0`, and a negative end counts back
   * from the end of the list.
   */
  function SliceTo<T>(xs: seq<T>, end: Option<int>): (r: seq<T>)
    ensures |r| <= |xs| && r == xs[..|r|]
    ensures end.None? ==> |r| == 0
    ensures end.Some? && end.value >= 0 ==> |r| == Min(end.value, |xs|)
    ensures end.Some? && end.value < 0 ==> |r| == (if |xs| + end.value > 0 then |xs| + end.value else 0)
  {
    if end.None? then []
    else if end.value >= 0 then Take(xs, end.value)
    else if |xs| + end.value > 0 then xs[..|xs| + end.value]
    else []
  }

  /** `Math.min(parseInt(raw || def, 10), cap)`. */
  function LimitOf(raw: Json, def: int, cap: int): (limit: Option<int>)
    ensures limit.Some? ==> limit.value <= cap
  {
    MinNaN(ParseIntOf(if Truthy(raw) then raw else JNum(def as real)), cap)
  }

  /** Without a limit in the request, the default applies, capped. */
  lemma LimitOfDefault(raw: Json, def: int, cap: int)
    requires !Truthy(raw)
    ensures LimitOf(raw, def, cap) == Some(Min(def, cap))
  {
    ParseIntOfInt(def);
  }

  /** A limit given as a whole number is read as itself, capped. */
  lemma LimitOfNumber(k: int, def: int, cap: int)
    requires k != 0
    ensures LimitOf(JNum(k as real), def, cap) == Some(Min(k, cap))
  {
    ParseIntOfInt(k);
  }

  /** The limit with a negative value read as `0`, so that it can only shorten the list. */
  function NonNegative(limit: Option<int>): (r: Option<int>)
    ensures r.None? <==> limit.None?
    ensures r.Some? ==> r.value >= 0 && r.value <= Max0(limit.value)
  {
    if limit.Some? && limit.value < 0 then Some(0) else limit
  }

  function Max0(k: int): nat {
    if k < 0 then 0 else k
  }

  /** A slice to a limit that is at most `cap` and never negative keeps at most `cap` entries. */
  lemma SliceToBound<T>(xs: seq<T>, limit: Option<int>, cap: nat)
    requires limit.Some? ==> 0 <= limit.value <= cap
    ensures |SliceTo(xs, limit)| <= cap
  {
  }

  // ---------------------------------------------------------------------
  // splitting raw text
  // ---------------------------------------------------------------------

  /**
   * `s.split(re)` for a separator `re` that never matches the empty string:
   * `sepLen(t)` is the length of the separator match at the start of `t`,
   * `0` when there is none; `acc` is the piece read so far.
   */
  function SplitAcc(s: string, sepLen: string -> nat, acc: string): (pieces: seq<string>)
    ensures |pieces| >= 1
    decreases |s|
  {
    if |s| == 0 then [acc]
    else
      var n := sepLen(s);
      if 0 < n <= |s| then [acc] + SplitAcc(s[n..], sepLen, "")
      else SplitAcc(s[1..], sepLen, acc + [s[0]])
  }

  function Split(s: string, sepLen: string -> nat): (pieces: seq<string>)
    ensures |pieces| >= 1
  {
    SplitAcc(s, sepLen, "")
  }

  /** `/\n|;|\. /`: a line break, a semicolon, or a full stop followed by a space. */
  function PieceSep(t: string): nat {
    if |t| > 0 && (t[0] == '\n' || t[0] == ';') then 1
    else if StartsWith(t, ". ") then 2
    else 0
  }

  /** `/\n/`. */
  function LineSep(t: string): nat {
    if |t| > 0 && t[0] == '\n' then 1 else 0
  }

  /** The number of line breaks `t` starts with. */
  function NewlineRun(t: string): (n: nat)
    ensures n <= |t|
    decreases |t|
  {
    if |t| > 0 && t[0] == '\n' then 1 + NewlineRun(t[1..]) else 0
  }

  /** `/\n\n+/`: a run of two or more line breaks, taken whole. */
  function BlockSep(t: string): nat {
    if StartsWith(t, "\n\n") then NewlineRun(t) else 0
  }

  predicate AllAvoid(pieces: seq<string>, c: char) {
    forall i :: 0 <= i < |pieces| ==> NoChar(pieces[i], c)
  }

  /** A separator that matches wherever `c` starts the text cuts at every `c`: no piece contains one. */
  lemma {:induction false} SplitAvoids(s: string, sepLen: string -> nat, acc: string, c: char)
    requires NoChar(acc, c)
    requires forall t :: |t| > 0 && t[0] == c ==> 0 < sepLen(t) <= |t|
    ensures AllAvoid(SplitAcc(s, sepLen, acc), c)
    decreases |s|
  {
    if |s| > 0 {
      var n := sepLen(s);
      if 0 < n <= |s| {
        SplitAvoids(s[n..], sepLen, "", c);
      } else {
        assert s[0] != c;
        SplitAvoids(s[1..], sepLen, acc + [s[0]], c);
      }
    }
  }

  lemma JoinCons(x: string, rest: seq<string>, sep: string)
    requires |rest| >= 1
    ensures Join([x] + rest, sep) == x + sep + Join(rest, sep)
  {
    assert ([x] + rest)[1..] == rest;
  }

  /** Splitting at line breaks loses nothing: joining the lines with `\n` gives the text back. */
  lemma {:induction false} SplitLinesJoin(s: string, acc: string)
    ensures Join(SplitAcc(s, LineSep, acc), "\n") == acc + s
    decreases |s|
  {
    if |s| == 0 {
      assert acc + s == acc;
    } else if s[0] == '\n' {
      SplitLineBreak(s, acc);
      SplitLinesJoin(s[1..], "");
      JoinCons(acc, SplitAcc(s[1..], LineSep, ""), "\n");
      ConcatAfterHead(acc, s);
    } else {
      SplitLineChar(s, acc);
      SplitLinesJoin(s[1..], acc + [s[0]]);
      ConcatAfterHead(acc, s);
    }
  }

  lemma ConcatAfterHead(acc: string, s: string)
    requires |s| > 0
    ensures acc + [s[0]] + s[1..] == acc + s
    ensures s[0] == '\n' ==> acc + "\n" + ("" + s[1..]) == acc + s
  {
    assert s == [s[0]] + s[1..];
  }

  lemma SplitLineBreak(s: string, acc: string)
    requires |s| > 0 && s[0] == '\n'
    ensures SplitAcc(s, LineSep, acc) == [acc] + SplitAcc(s[1..], LineSep, "")
  {
    assert LineSep(s) == 1;
  }

  lemma SplitLineChar(s: string, acc: string)
    requires |s| > 0 && s[0] != '\n'
    ensures SplitAcc(s, LineSep, acc) == SplitAcc(s[1..], LineSep, acc + [s[0]])
  {
    assert LineSep(s) == 0;
  }

  /** `[-*\d\.\s]`: the bullet, numbering and white-space characters stripped from a piece's start. */
  predicate BulletChar(c: char) {
    c == '-' || c == '*' || IsDigit(c) || c == '.' || IsSpace(c)
  }

  /** `s.replace(/^[-*\d\.\s]+/, '')`. */
  function DropBullets(s: string): (r: string)
    ensures |r| <= |s| && r == s[|s| - |r|..]
    ensures |r| == 0 || !BulletChar(r[0])
    decreases |s|
  {
    if |s| > 0 && BulletChar(s[0]) then DropBullets(s[1..]) else s
  }

  /** `s.replace(/^[-*\d\.\s]+/, '').trim()`: trimmed, and not opening with a bullet or a number. */
  function CleanPiece(s: string): (r: string)
    ensures Trimmed(r) && (|r| == 0 || !BulletChar(r[0]))
    ensures |r| <= |s|
  {
    var d := DropBullets(s);
    TrimStartOfTrimmed(d);
    TrimEnd(d)
  }

  /** Cleaning a piece only removes characters. */
  lemma CleanPieceAvoids(s: string, c: char)
    requires NoChar(s, c)
    ensures NoChar(CleanPiece(s), c)
  {
    DropBulletsAvoids(s, c);
    TrimEndAvoids(DropBullets(s), c);
  }

  lemma DropBulletsAvoids(s: string, c: char)
    requires NoChar(s, c)
    ensures NoChar(DropBullets(s), c)
  {
    var d := DropBullets(s);
    forall k | 0 <= k < |d| ensures d[k] != c {
      assert d[k] == s[|s| - |d| + k];
    }
  }

  lemma TrimEndAvoids(d: string, c: char)
    requires NoChar(d, c)
    ensures NoChar(TrimEnd(d), c)
  {
    var r := TrimEnd(d);
    forall k | 0 <= k < |r| ensures r[k] != c {
      assert r[k] == d[k];
    }
  }

  /** `raw.split(/\n|;|\. /).map(s => s.replace(/^[-*\d\.\s]+/, '').trim()).filter(Boolean)`. */
  function RawPieces(raw: string): (r: seq<string>)
  {
    KeepNonEmpty(MapSeq(CleanPiece, Split(raw, PieceSep)))
  }

  /** A piece the raw fallback keeps. */
  predicate GoodPiece(p: string) {
    |p| > 0 && Trimmed(p) && !BulletChar(p[0]) && NoChar(p, '\n') && NoChar(p, ';')
  }

  /**
   * Every piece of the raw fallback is non-empty and trimmed, does not open
   * with a bullet or a number, and holds no line break and no semicolon.
   */
  lemma RawPiecesShape(raw: string)
    ensures AllGood(RawPieces(raw))
  {
    PieceSepCuts();
    SplitAvoids(raw, PieceSep, "", '\n');
    SplitAvoids(raw, PieceSep, "", ';');
    CleanedGood(SplitAcc(raw, PieceSep, ""));
  }

  predicate AllGood(pieces: seq<string>) {
    forall i :: 0 <= i < |pieces| ==> GoodPiece(pieces[i])
  }

  lemma PieceSepCuts()
    ensures forall t :: |t| > 0 && t[0] == '\n' ==> 0 < PieceSep(t) <= |t|
    ensures forall t :: |t| > 0 && t[0] == ';' ==> 0 < PieceSep(t) <= |t|
  {
  }

  lemma CleanedGood(pieces: seq<string>)
    requires AllAvoid(pieces, '\n') && AllAvoid(pieces, ';')
    ensures AllGood(KeepNonEmpty(MapSeq(CleanPiece, pieces)))
  {
    var cleaned := MapSeq(CleanPiece, pieces);
    var kept := KeepNonEmpty(cleaned);
    forall i | 0 <= i < |kept|
      ensures GoodPiece(kept[i])
    {
      var p := kept[i];
      assert p in cleaned && |p| > 0;
      var j :| 0 <= j < |cleaned| && cleaned[j] == p;
      CleanPieceGood(pieces[j]);
    }
  }

  lemma CleanPieceGood(piece: string)
    requires NoChar(piece, '\n') && NoChar(piece, ';') && |CleanPiece(piece)| > 0
    ensures GoodPiece(CleanPiece(piece))
  {
    CleanPieceAvoids(piece, '\n');
    CleanPieceAvoids(piece, ';');
  }

  // ---------------------------------------------------------------------
  // requests and replies
  // ---------------------------------------------------------------------

  /**
   * What a handler answers: the 200 body, the 400 `{ error }` for a missing
   * field, or the 500 `ai_error` the Worker's `catch` returns when reading
   * the model's reply throws (a property of `null`, or `split` on a `_raw`
   * that is not a string).
   */
  datatype Reply<T> = Served(value: T) | Missing(error: string) | AiError

  /** `(body[key] || '').toString().trim()`. */
  function FieldText(body: Json, key: string): (r: string)
    ensures Trimmed(r)
    ensures !Truthy(Get(body, key)) ==> r == ""
  {
    Trim(StrOr(Get(body, key)))
  }

  /** The handlers `fetch` dispatches to. */
  datatype Kind = IdeasKind | SolutionsKind | MilestoneKind

  /** `switch (body.type || 'ideas')`: `None` is the 400 `unknown_type`. */
  function KindOf(body: Json): (k: Option<Kind>)
    ensures !Truthy(Get(body, "type")) ==> k == Some(IdeasKind)
    ensures k == Some(SolutionsKind) <==> Get(body, "type") == JStr("solutions")
    ensures k == Some(MilestoneKind) <==> Get(body, "type") == JStr("milestone")
  {
    var t := Get(body, "type");
    if !Truthy(t) || t == JStr("ideas") then Some(IdeasKind)
    else if t == JStr("solutions") then Some(SolutionsKind)
    else if t == JStr("milestone") then Some(MilestoneKind)
    else None
  }

  // ---------------------------------------------------------------------
  // handleIdeas
  // ---------------------------------------------------------------------

  /**
   * `handleIdeas` once the query and the limit are read and the model has
   * answered `data`: the ideas array rendered as strings, or, when it is
   * empty and `_raw` is set, the pieces of the raw text, sliced to the limit.
   */
  function IdeasReply(query: string, limit: Option<int>, data: Json): (r: Reply<seq<string>>)
    ensures r.Missing? <==> |query| == 0
    ensures r.Missing? ==> r.error == "missing_query"
    ensures r.AiError? <==>
      |query| > 0 && (data.JNull? || (|ArrayOr(Get(data, "ideas"))| == 0 && Truthy(Get(data, "_raw")) && !Get(data, "_raw").JStr?))
    ensures r.Served? && limit.None? ==> |r.value| == 0
    ensures r.Served? && limit.Some? && limit.value >= 0 ==> |r.value| <= limit.value
  {
    if |query| == 0 then Missing("missing_query")
    else if data.JNull? then AiError
    else
      var ideas := StrEach(ArrayOr(Get(data, "ideas")));
      var raw := Get(data, "_raw");
      if |ideas| == 0 && Truthy(raw) then
        if raw.JStr? then Served(SliceTo(SliceTo(RawPieces(raw.s), limit), limit)) else AiError
      else Served(SliceTo(ideas, limit))
  }

  /** The ideas read from the model's array: a prefix of its elements, rendered with `String`. */
  lemma IdeasFromArray(query: string, limit: Option<int>, data: Json)
    requires |query| > 0 && !data.JNull? && |ArrayOr(Get(data, "ideas"))| > 0
    ensures var r := IdeasReply(query, limit, data); var ideas := StrEach(ArrayOr(Get(data, "ideas")));
      r.Served? && |r.value| <= |ideas| && r.value == ideas[..|r.value|]
  {
  }

  /**
   * The ideas of the raw fallback come from the raw text's pieces, in order,
   * and each is a clean piece: non-empty, trimmed, not opening with a bullet
   * or a number, and holding no line break and no semicolon.
   */
  lemma IdeasFromRaw(query: string, limit: Option<int>, data: Json)
    requires |query| > 0 && !data.JNull? && |ArrayOr(Get(data, "ideas"))| == 0
    requires Get(data, "_raw").JStr? && |Get(data, "_raw").s| > 0
    ensures var r := IdeasReply(query, limit, data); var pieces := RawPieces(Get(data, "_raw").s);
      r.Served? && AllGood(r.value) && |r.value| <= |pieces| && r.value == pieces[..|r.value|]
  {
    var raw := Get(data, "_raw");
    IdeasReplyRaw(query, limit, data);
    RawPiecesShape(raw.s);
    SlicedGood(RawPieces(raw.s), limit);
  }

  /** With no ideas in the reply and a string `_raw`, its pieces, sliced to the limit twice, are served. */
  lemma IdeasReplyRaw(query: string, limit: Option<int>, data: Json)
    requires |query| > 0 && !data.JNull? && |ArrayOr(Get(data, "ideas"))| == 0
    requires Get(data, "_raw").JStr? && |Get(data, "_raw").s| > 0
    ensures IdeasReply(query, limit, data) == Served(SliceTo(SliceTo(RawPieces(Get(data, "_raw").s), limit), limit))
  {
    assert Truthy(Get(data, "_raw")) && |StrEach(ArrayOr(Get(data, "ideas")))| == 0;
  }

  /** Slicing twice keeps a prefix of good pieces. */
  lemma SlicedGood(pieces: seq<string>, limit: Option<int>)
    requires AllGood(pieces)
    ensures var twice := SliceTo(SliceTo(pieces, limit), limit);
      AllGood(twice) && |twice| <= |pieces| && twice == pieces[..|twice|]
  {
    var twice := SliceTo(SliceTo(pieces, limit), limit);
    assert twice == pieces[..|twice|];
    forall i | 0 <= i < |twice| ensures GoodPiece(twice[i]) {
      assert twice[i] == pieces[i];
    }
  }

  /** `handleIdeas(env, body)` as written: the limit `Math.min(parseInt(body.limit || 8, 10), 12)`. */
  function HandleIdeasAsWritten(body: Json, data: Json): (r: Reply<seq<string>>)
    ensures r.Missing? <==> |FieldText(body, "query")| == 0
  {
    IdeasReply(FieldText(body, "query"), LimitOf(Get(body, "limit"), 8, 12), data)
  }

  /**
   * A negative limit counts back from the end of the list in `slice`, so the
   * cap of 12 does not bound the reply: a request with a query and
   * `limit: -1`, against a reply of fourteen ideas or more, serves all of
   * them but the last.
   */
  lemma HandleIdeasAsWrittenOverflow(body: Json, data: Json)
    requires |FieldText(body, "query")| > 0 && Get(body, "limit") == JNum(-1.0)
    requires !data.JNull? && |ArrayOr(Get(data, "ideas"))| >= 14
    ensures var r := HandleIdeasAsWritten(body, data);
      r.Served? && |r.value| == |ArrayOr(Get(data, "ideas"))| - 1 > 12
  {
    LimitOfNumber(-1, 8, 12);
    assert LimitOf(Get(body, "limit"), 8, 12) == Some(-1);
    IdeasReplyArray(FieldText(body, "query"), Some(-1), data);
  }

  /** With ideas in the reply, `ideas.map(String).slice(0, limit)` is served. */
  lemma IdeasReplyArray(query: string, limit: Option<int>, data: Json)
    requires |query| > 0 && !data.JNull? && |ArrayOr(Get(data, "ideas"))| > 0
    ensures IdeasReply(query, limit, data) == Served(SliceTo(StrEach(ArrayOr(Get(data, "ideas"))), limit))
  {
  }

  /** `handleIdeas(env, body)`, with a negative limit read as `0`. */
  function HandleIdeas(body: Json, data: Json): (r: Reply<seq<string>>)
    ensures r.Served? ==> |r.value| <= 12
  {
    var limit := NonNegative(LimitOf(Get(body, "limit"), 8, 12));
    assert limit.Some? ==> 0 <= limit.value <= 12;
    IdeasReply(FieldText(body, "query"), limit, data)
  }

  /** Without a limit in the request, at most eight ideas are served. */
  lemma HandleIdeasDefault(body: Json, data: Json)
    requires !Truthy(Get(body, "limit"))
    ensures var r := HandleIdeas(body, data); r.Served? ==> |r.value| <= 8
  {
    LimitOfDefault(Get(body, "limit"), 8, 12);
  }

  // ---------------------------------------------------------------------
  // fallbackParseSolutions
  // ---------------------------------------------------------------------

  /** `xs.filter(keep)`: the elements `keep` accepts, in order. */
  function Filter<T>(xs: seq<T>, keep: T -> bool): (r: seq<T>)
    ensures |r| <= |xs|
    ensures forall i :: 0 <= i < |r| ==> keep(r[i]) && r[i] in xs
  {
    if |xs| == 0 then []
    else (if keep(xs[0]) then [xs[0]] else []) + Filter(xs[1..], keep)
  }

  /** An element is kept exactly when it is in the input and `keep` accepts it. */
  lemma {:induction false} FilterMembers<T>(xs: seq<T>, keep: T -> bool, x: T)
    ensures x in Filter(xs, keep) <==> x in xs && keep(x)
  {
    if |xs| > 0 {
      FilterMembers(xs[1..], keep, x);
      assert x in xs <==> x == xs[0] || x in xs[1..];
    }
  }

  /** Filtering distributes over concatenation, so the kept elements stay in input order. */
  lemma {:induction false} FilterAppend<T>(a: seq<T>, b: seq<T>, keep: T -> bool)
    ensures Filter(a + b, keep) == Filter(a, keep) + Filter(b, keep)
  {
    if |a| == 0 {
      assert a + b == b;
    } else {
      assert (a + b)[0] == a[0] && (a + b)[1..] == a[1..] + b;
      FilterAppend(a[1..], b, keep);
    }
  }

  /** `l => l.trim().length > 4`. */
  predicate LongLine(l: string) {
    |Trim(l)| > 4
  }

  /** `x => x.title && x.steps.length > 2`. */
  predicate ThickBlock(s: Solution) {
    |s.title| > 0 && |s.steps| > 2
  }

  /**
   * One block of `fallbackParseSolutions`: its first non-empty line, cleaned
   * of bullets, is the title; up to six of the other lines longer than four
   * characters once trimmed are the steps; the rationale is empty.
   */
  function ParseBlock(b: string): (s: Solution)
    ensures s.rationale == "" && |s.steps| <= 6
    ensures forall i :: 0 <= i < |s.steps| ==> LongLine(s.steps[i])
    ensures forall i :: 0 <= i < |s.steps| ==> |s.steps[i]| > 0 && s.steps[i] in Split(b, LineSep)
    ensures var lines := KeepNonEmpty(Split(b, LineSep));
      && s.title == (if |lines| > 0 then CleanPiece(lines[0]) else "")
      && |s.steps| == (if |lines| > 0 then Min(6, |Filter(lines[1..], LongLine)|) else 0)
      && (|lines| > 0 ==> s.steps == Filter(lines[1..], LongLine)[..|s.steps|])
  {
    var lines := KeepNonEmpty(Split(b, LineSep));
    var title := if |lines| > 0 then lines[0] else "";
    Solution(CleanPiece(title), "", BlockSteps(lines))
  }

  /** The steps under a block's title line: the first six of the other lines that are long enough. */
  function BlockSteps(lines: seq<string>): (steps: seq<string>)
    ensures |steps| == (if |lines| > 0 then Min(6, |Filter(lines[1..], LongLine)|) else 0)
    ensures |lines| > 0 ==> steps == Filter(lines[1..], LongLine)[..|steps|]
    ensures forall i :: 0 <= i < |steps| ==> LongLine(steps[i]) && steps[i] in lines
  {
    if |lines| == 0 then []
    else
      var long := Filter(lines[1..], LongLine);
      TailLines(lines);
      Take(long, 6)
  }

  /** The long lines after the first are lines of the block. */
  lemma TailLines(lines: seq<string>)
    requires |lines| > 0
    ensures var long := Filter(lines[1..], LongLine);
      forall i :: 0 <= i < |long| ==> long[i] in lines
  {
    assert lines == [lines[0]] + lines[1..];
  }

  /**
   * `fallbackParseSolutions(raw)`: the first five blocks split at blank
   * lines, parsed; a parsed block is served exactly when it has a title and
   * more than two steps.
   */
  function FallbackParseSolutions(raw: string): (r: seq<Solution>)
    ensures |r| <= 5
    ensures var heads := Take(Split(raw, BlockSep), 5);
      forall j :: 0 <= j < |heads| && ThickBlock(ParseBlock(heads[j])) ==> ParseBlock(heads[j]) in r
    ensures var heads := Take(Split(raw, BlockSep), 5);
      forall i :: 0 <= i < |r| ==> ThickBlock(r[i]) && exists j :: 0 <= j < |heads| && r[i] == ParseBlock(heads[j])
  {
    var heads := Take(Split(raw, BlockSep), 5);
    MapFilterMembers(ParseBlock, heads, ThickBlock);
    Filter(MapSeq(ParseBlock, heads), ThickBlock)
  }

  /** Mapping then filtering keeps every image `keep` accepts, and nothing else. */
  lemma MapFilterMembers<A, B>(f: A -> B, xs: seq<A>, keep: B -> bool)
    ensures var r := Filter(MapSeq(f, xs), keep);
      && (forall j :: 0 <= j < |xs| && keep(f(xs[j])) ==> f(xs[j]) in r)
      && (forall i :: 0 <= i < |r| ==> keep(r[i]) && exists j :: 0 <= j < |xs| && r[i] == f(xs[j]))
  {
    var mapped := MapSeq(f, xs);
    var r := Filter(mapped, keep);
    forall j | 0 <= j < |xs| && keep(f(xs[j])) ensures f(xs[j]) in r {
      assert mapped[j] == f(xs[j]);
      FilterMembers(mapped, keep, mapped[j]);
    }
    forall i | 0 <= i < |r| ensures keep(r[i]) && exists j :: 0 <= j < |xs| && r[i] == f(xs[j]) {
      var k :| 0 <= k < |mapped| && mapped[k] == r[i];
      assert r[i] == f(xs[k]);
    }
  }

  /** What a block parses to, before the thin ones are dropped. */
  predicate BlockShaped(s: Solution) {
    Trimmed(s.title) && (|s.title| == 0 || !BulletChar(s.title[0])) && NoChar(s.title, '\n')
    && s.rationale == "" && |s.steps| <= 6 && LongSteps(s.steps)
  }

  /** Every step is one line, longer than four characters once trimmed. */
  predicate LongSteps(steps: seq<string>) {
    forall j :: 0 <= j < |steps| ==> |Trim(steps[j])| > 4 && NoChar(steps[j], '\n')
  }

  /** What every solution of the fallback looks like. */
  predicate FallbackShaped(s: Solution) {
    BlockShaped(s) && |s.title| > 0 && |s.steps| >= 3
  }

  lemma AllAvoidSub(a: seq<string>, b: seq<string>, c: char)
    requires AllAvoid(b, c)
    requires forall i :: 0 <= i < |a| ==> a[i] in b
    ensures AllAvoid(a, c)
  {
    forall i | 0 <= i < |a| ensures NoChar(a[i], c) {
      var j :| 0 <= j < |b| && b[j] == a[i];
    }
  }

  lemma ParseBlockShape(b: string)
    ensures BlockShaped(ParseBlock(b))
  {
    var lines := KeepNonEmpty(Split(b, LineSep));
    BlockLinesAvoid(b);
    var title := if |lines| > 0 then lines[0] else "";
    assert NoChar(title, '\n');
    CleanPieceAvoids(title, '\n');
    var steps := BlockSteps(lines);
    AllAvoidSub(steps, lines, '\n');
    forall j | 0 <= j < |steps| ensures |Trim(steps[j])| > 4 && NoChar(steps[j], '\n') {
      assert LongLine(steps[j]);
    }
  }

  /** The non-empty lines of a block hold no line break. */
  lemma BlockLinesAvoid(b: string)
    ensures AllAvoid(KeepNonEmpty(Split(b, LineSep)), '\n')
  {
    var split := Split(b, LineSep);
    SplitAvoids(b, LineSep, "", '\n');
    AllAvoidSub(KeepNonEmpty(split), split, '\n');
  }

  /**
   * The fallback parses at most five solutions, each with a non-empty
   * trimmed one-line title that does not open with a bullet, no rationale,
   * and three to six one-line steps longer than four characters.
   */
  lemma FallbackShape(raw: string)
    ensures var r := FallbackParseSolutions(raw);
      |r| <= 5 && forall i :: 0 <= i < |r| ==> FallbackShaped(r[i])
  {
    var blocks := Take(Split(raw, BlockSep), 5);
    var parsed := MapSeq(ParseBlock, blocks);
    var r := Filter(parsed, ThickBlock);
    forall i | 0 <= i < |r| ensures FallbackShaped(r[i]) {
      var j :| 0 <= j < |parsed| && parsed[j] == r[i];
      ParseBlockShape(blocks[j]);
    }
  }

  /** A fallback solution as `normalizeSolutions`'s map leaves it: its steps trimmed. */
  function Tidied(s: Solution): (t: Solution)
    ensures t.title == s.title && t.rationale == s.rationale && |t.steps| == |s.steps|
  {
    Solution(s.title, s.rationale, TrimEach(s.steps))
  }

  lemma TidiedValid(s: Solution)
    requires FallbackShaped(s)
    ensures ValidSolution(Tidied(s))
  {
    assert Trimmed("");
  }

  lemma SolutionOfFallback(s: Solution)
    requires FallbackShaped(s)
    ensures SolutionOf(SolutionJson(s)) == Tidied(s)
  {
    SolutionOfJsonTitle(s);
    assert Trimmed(s.rationale) by {
      assert s.rationale == "";
    }
    SolutionOfJsonRationale(s);
    SolutionOfLongSteps(s);
  }

  /** Steps longer than four characters once trimmed are all kept, trimmed. */
  lemma SolutionOfLongSteps(s: Solution)
    requires LongSteps(s.steps) && |s.steps| <= 8
    ensures SolutionOf(SolutionJson(s)).steps == TrimEach(s.steps)
  {
    SolutionJsonFields(s);
    SolutionOfSteps(SolutionJson(s), s.steps);
  }

  lemma SolutionOfSteps(j: Json, steps: seq<string>)
    requires !j.JNull? && Get(j, "steps") == JArr(StrPayload(steps))
    requires LongSteps(steps) && |steps| <= 8
    ensures SolutionOf(j).steps == TrimEach(steps)
  {
    LongStepsClean(steps);
    assert Take(TrimEach(steps), 8) == TrimEach(steps);
  }

  lemma LongStepsClean(steps: seq<string>)
    requires LongSteps(steps)
    ensures CleanStrings(StrPayload(steps)) == TrimEach(steps)
  {
    assert StrEach(StrPayload(steps)) == steps;
    LongStepsTrimmed(steps);
    KeepNonEmptyOfClean(TrimEach(steps));
  }

  lemma LongStepsTrimmed(steps: seq<string>)
    requires LongSteps(steps)
    ensures CleanList(TrimEach(steps))
  {
    var t := TrimEach(steps);
    forall i | 0 <= i < |t| ensures |t[i]| > 0 && Trimmed(t[i]) {
      assert t[i] == Trim(steps[i]);
    }
  }

  /**
   * No solution of the fallback is lost to the normalising map and filter
   * that follow it: each comes out with its title, and its steps trimmed.
   */
  lemma {:induction false} FallbackSurvives(fs: seq<Solution>)
    requires forall i :: 0 <= i < |fs| ==> FallbackShaped(fs[i])
    ensures ShapeSolutions(SolutionsJson(fs)) == Ok(MapSeq(Tidied, fs))
  {
    var xs := SolutionsJson(fs);
    assert NoNull(xs);
    forall i | 0 <= i < |fs| ensures MapSolutions(xs)[i] == Tidied(fs[i]) && ValidSolution(Tidied(fs[i])) {
      SolutionOfFallback(fs[i]);
      TidiedValid(fs[i]);
    }
    assert MapSolutions(xs) == MapSeq(Tidied, fs);
    KeepValidSolutions(MapSeq(Tidied, fs));
  }

  // ---------------------------------------------------------------------
  // handleSolutions
  // ---------------------------------------------------------------------

  predicate AllValid(ss: seq<Solution>) {
    forall i :: 0 <= i < |ss| ==> ValidSolution(ss[i])
  }

  lemma SliceValid(ss: seq<Solution>, limit: Option<int>)
    requires AllValid(ss)
    ensures AllValid(SliceTo(ss, limit))
  {
    var r := SliceTo(ss, limit);
    forall i | 0 <= i < |r| ensures ValidSolution(r[i]) {
      assert r[i] == ss[i];
    }
  }

  /**
   * The array `handleSolutions` normalises: the model's `solutions`, or,
   * when that is empty and `_raw` is set, the fallback's solutions sliced to
   * the limit; `split` on a `_raw` that is not a string throws.
   */
  function ChosenSolutions(data: Json, limit: Option<int>): (r: Result<seq<Json>>)
    ensures r.TypeError? <==>
      |ArrayOr(Get(data, "solutions"))| == 0 && Truthy(Get(data, "_raw")) && !Get(data, "_raw").JStr?
  {
    var sols := ArrayOr(Get(data, "solutions"));
    var raw := Get(data, "_raw");
    if |sols| == 0 && Truthy(raw) then
      if raw.JStr? then Ok(SliceTo(SolutionsJson(FallbackParseSolutions(raw.s)), limit)) else TypeError
    else Ok(sols)
  }

  /**
   * `handleSolutions` once the fields and the limit are read and the model
   * has answered `data`: the chosen array through the normalising map and
   * filter, sliced to the limit. Every solution served is valid.
   */
  function SolutionsReply(activity: string, problem: string, limit: Option<int>, data: Json): (r: Reply<seq<Solution>>)
    ensures r.Missing? <==> |activity| == 0 || |problem| == 0
    ensures r.Missing? ==> r.error == "missing_fields"
    ensures r.Served? ==> AllValid(r.value)
    ensures r.Served? && limit.None? ==> |r.value| == 0
    ensures r.Served? && limit.Some? && limit.value >= 0 ==> |r.value| <= limit.value
  {
    if |activity| == 0 || |problem| == 0 then Missing("missing_fields")
    else if data.JNull? then AiError
    else
      match ChosenSolutions(data, limit)
      case TypeError => AiError
      case Ok(chosen) => ShapeAndSlice(chosen, limit)
  }

  /** The normalising map and filter over the chosen array, then the slice: valid and bounded. */
  function ShapeAndSlice(chosen: seq<Json>, limit: Option<int>): (r: Reply<seq<Solution>>)
    ensures !r.Missing?
    ensures r.Served? ==> AllValid(r.value)
    ensures r.Served? && limit.None? ==> |r.value| == 0
    ensures r.Served? && limit.Some? && limit.value >= 0 ==> |r.value| <= limit.value
  {
    match ShapeSolutions(chosen)
    case TypeError => AiError
    case Ok(kept) =>
      assert AllValid(kept);
      SliceBounded(kept, limit);
      Served(SliceTo(kept, limit))
  }

  /** Slicing valid solutions to a limit keeps them valid and within the limit. */
  lemma SliceBounded(kept: seq<Solution>, limit: Option<int>)
    requires AllValid(kept)
    ensures var s := SliceTo(kept, limit);
      AllValid(s) && (limit.None? ==> |s| == 0) && (limit.Some? && limit.value >= 0 ==> |s| <= limit.value)
  {
    SliceValid(kept, limit);
  }

  /**
   * With a non-empty solutions array in the reply, the handler serves its
   * normalised solutions sliced to the limit, and throws when one element is
   * `null`.
   */
  lemma SolutionsFromArray(activity: string, problem: string, limit: Option<int>, data: Json)
    requires |activity| > 0 && |problem| > 0 && !data.JNull?
    requires |ArrayOr(Get(data, "solutions"))| > 0
    ensures var r := SolutionsReply(activity, problem, limit, data);
      match ShapeSolutions(ArrayOr(Get(data, "solutions")))
      case TypeError => r.AiError?
      case Ok(kept) => r == Served(SliceTo(kept, limit))
  {
  }

  lemma SliceSolutionsJson(fs: seq<Solution>, limit: Option<int>)
    ensures SliceTo(SolutionsJson(fs), limit) == SolutionsJson(SliceTo(fs, limit))
  {
    var a := SliceTo(SolutionsJson(fs), limit);
    var b := SolutionsJson(SliceTo(fs, limit));
    assert |a| == |b|;
    forall i | 0 <= i < |a| ensures a[i] == b[i] {
      assert a[i] == SolutionsJson(fs)[i];
    }
  }

  lemma SliceToShort<T>(xs: seq<T>, limit: Option<int>)
    requires limit.Some? && limit.value >= |xs|
    ensures SliceTo(xs, limit) == xs
  {
  }

  /**
   * When the model's reply is not JSON, and the limit is not negative, the
   * first `limit` solutions of the fallback are served in order, with their
   * steps trimmed: normalisation loses none of them.
   */
  lemma SolutionsFromRaw(activity: string, problem: string, limit: Option<int>, data: Json)
    requires |activity| > 0 && |problem| > 0 && !data.JNull?
    requires |ArrayOr(Get(data, "solutions"))| == 0
    requires Get(data, "_raw").JStr? && |Get(data, "_raw").s| > 0
    requires limit.Some? ==> limit.value >= 0
    ensures var fs := FallbackParseSolutions(Get(data, "_raw").s);
      SolutionsReply(activity, problem, limit, data) == Served(MapSeq(Tidied, SliceTo(fs, limit)))
  {
    var raw := Get(data, "_raw");
    var fs := FallbackParseSolutions(raw.s);
    FallbackShape(raw.s);
    var cut := SliceTo(fs, limit);
    FallbackCutShaped(fs, limit);
    ChosenFromRaw(data, limit);
    ReplyOfChosen(activity, problem, limit, data, SolutionsJson(cut));
    ShapeFallbackCut(cut, limit);
  }

  /** A cut of fallback solutions at a non-negative limit is fallback-shaped and within the limit. */
  lemma FallbackCutShaped(fs: seq<Solution>, limit: Option<int>)
    requires forall i :: 0 <= i < |fs| ==> FallbackShaped(fs[i])
    requires limit.Some? ==> limit.value >= 0
    ensures var cut := SliceTo(fs, limit);
      (forall i :: 0 <= i < |cut| ==> FallbackShaped(cut[i]))
      && (limit.None? ==> |cut| == 0) && (limit.Some? ==> |cut| <= limit.value)
  {
    var cut := SliceTo(fs, limit);
    forall i | 0 <= i < |cut| ensures FallbackShaped(cut[i]) {
      assert cut[i] == fs[i];
    }
  }

  lemma ChosenFromRaw(data: Json, limit: Option<int>)
    requires |ArrayOr(Get(data, "solutions"))| == 0
    requires Get(data, "_raw").JStr? && |Get(data, "_raw").s| > 0
    ensures ChosenSolutions(data, limit) == Ok(SolutionsJson(SliceTo(FallbackParseSolutions(Get(data, "_raw").s), limit)))
  {
    var fs := FallbackParseSolutions(Get(data, "_raw").s);
    SliceSolutionsJson(fs, limit);
    assert Truthy(Get(data, "_raw"));
  }

  lemma ReplyOfChosen(activity: string, problem: string, limit: Option<int>, data: Json, chosen: seq<Json>)
    requires |activity| > 0 && |problem| > 0 && !data.JNull?
    requires ChosenSolutions(data, limit) == Ok(chosen)
    ensures SolutionsReply(activity, problem, limit, data) == ShapeAndSlice(chosen, limit)
  {
  }

  /** Fallback solutions already cut to the limit are all served, tidied. */
  lemma ShapeFallbackCut(cut: seq<Solution>, limit: Option<int>)
    requires forall i :: 0 <= i < |cut| ==> FallbackShaped(cut[i])
    requires limit.None? ==> |cut| == 0
    requires limit.Some? ==> |cut| <= limit.value
    ensures ShapeAndSlice(SolutionsJson(cut), limit) == Served(MapSeq(Tidied, cut))
  {
    FallbackSurvives(cut);
    var tidy := MapSeq(Tidied, cut);
    if limit.Some? {
      SliceToShort(tidy, limit);
    }
  }

  /** `handleSolutions(env, body)` as written: the limit `Math.min(parseInt(body.limit || 3, 10), 5)`. */
  function HandleSolutionsAsWritten(body: Json, data: Json): (r: Reply<seq<Solution>>)
    ensures r.Missing? <==> |FieldText(body, "activity")| == 0 || |FieldText(body, "problem")| == 0
  {
    SolutionsReply(FieldText(body, "activity"), FieldText(body, "problem"), LimitOf(Get(body, "limit"), 3, 5), data)
  }

  /**
   * As for ideas, a negative limit escapes the cap of 5: a request with an
   * activity, a problem and `limit: -1`, against a reply of seven valid
   * solutions or more, serves all of them but the last.
   */
  lemma HandleSolutionsAsWrittenOverflow(body: Json, data: Json)
    requires |FieldText(body, "activity")| > 0 && |FieldText(body, "problem")| > 0
    requires Get(body, "limit") == JNum(-1.0)
    requires !data.JNull? && |ArrayOr(Get(data, "solutions"))| > 0
    requires ShapeSolutions(ArrayOr(Get(data, "solutions"))).Ok?
    requires |ShapeSolutions(ArrayOr(Get(data, "solutions"))).value| >= 7
    ensures var r := HandleSolutionsAsWritten(body, data);
      r.Served? && |r.value| == |ShapeSolutions(ArrayOr(Get(data, "solutions"))).value| - 1 > 5
  {
    AsWrittenSolutionsLimit(body, data);
    SolutionsFromArray(FieldText(body, "activity"), FieldText(body, "problem"), Some(-1), data);
  }

  lemma AsWrittenSolutionsLimit(body: Json, data: Json)
    requires Get(body, "limit") == JNum(-1.0)
    ensures HandleSolutionsAsWritten(body, data)
      == SolutionsReply(FieldText(body, "activity"), FieldText(body, "problem"), Some(-1), data)
  {
    LimitOfNumber(-1, 3, 5);
    assert LimitOf(Get(body, "limit"), 3, 5) == Some(-1);
  }

  /** `handleSolutions(env, body)`, with a negative limit read as `0`. */
  function HandleSolutions(body: Json, data: Json): (r: Reply<seq<Solution>>)
    ensures r.Served? ==> |r.value| <= 5
  {
    var limit := NonNegative(LimitOf(Get(body, "limit"), 3, 5));
    assert limit.Some? ==> 0 <= limit.value <= 5;
    SolutionsReply(FieldText(body, "activity"), FieldText(body, "problem"), limit, data)
  }

  /** Without a limit in the request, at most three solutions are served. */
  lemma HandleSolutionsDefault(body: Json, data: Json)
    requires !Truthy(Get(body, "limit"))
    ensures var r := HandleSolutions(body, data); r.Served? ==> |r.value| <= 3
  {
    LimitOfDefault(Get(body, "limit"), 3, 5);
  }

  // ---------------------------------------------------------------------
  // handleMilestone
  // ---------------------------------------------------------------------

  /** The milestone steps of the raw fallback: the raw text's first five pieces. */
  function RawSteps(raw: string): (r: seq<string>)
    ensures |r| <= 5 && CleanList(r)
    ensures var pieces := RawPieces(raw); |r| == Min(5, |pieces|) && r == pieces[..|r|]
  {
    var pieces := RawPieces(raw);
    RawPiecesShape(raw);
    var r := Take(pieces, 5);
    assert forall i :: 0 <= i < |r| ==> r[i] == pieces[i];
    r
  }

  /** `data.definition ? String(data.definition).trim() : ''`. */
  function Definition(data: Json): (r: string)
    ensures Trimmed(r)
    ensures !Truthy(Get(data, "definition")) ==> r == ""
  {
    var d := Get(data, "definition");
    if Truthy(d) then Trim(ToStr(d)) else ""
  }

  /**
   * `handleMilestone` once the title is read and the model has answered
   * `data`: the definition and the cleaned steps, or, when there are none
   * and `_raw` is set, the raw fallback's steps; at most seven are served.
   */
  function MilestoneReply(title: string, data: Json): (r: Reply<Milestone>)
    ensures r.Missing? <==> |title| == 0
    ensures r.Missing? ==> r.error == "missing_title"
    ensures r.Served? ==> r.value.definition == Definition(data)
    ensures r.Served? ==> |r.value.steps| <= 7 && CleanList(r.value.steps)
  {
    if |title| == 0 then Missing("missing_title")
    else if data.JNull? then AiError
    else
      match MilestoneSteps(CleanStrings(ArrayOr(Get(data, "steps"))), Get(data, "_raw"))
      case TypeError => AiError
      case Ok(steps) => Served(Milestone(Definition(data), steps))
  }

  /**
   * The steps `handleMilestone` serves: the reply's cleaned steps, or, when
   * there are none and `_raw` is set, the raw fallback's, at most seven;
   * `split` on a `_raw` that is not a string throws.
   */
  function MilestoneSteps(steps: seq<string>, raw: Json): (r: Result<seq<string>>)
    requires CleanList(steps)
    ensures r.Ok? ==> |r.value| <= 7 && CleanList(r.value)
    ensures r.TypeError? <==> |steps| == 0 && Truthy(raw) && !raw.JStr?
    ensures !(|steps| == 0 && Truthy(raw)) ==> r == Ok(Take(steps, 7))
    ensures |steps| == 0 && Truthy(raw) && raw.JStr? ==> r == Ok(RawSteps(raw.s))
  {
    if |steps| == 0 && Truthy(raw) then
      if raw.JStr? then Ok(RawSteps(raw.s)) else TypeError
    else
      TakeClean(steps, 7);
      Ok(Take(steps, 7))
  }

  /**
   * With no usable steps in the reply, the raw fallback's steps are served:
   * at most five of the raw text's pieces, in order.
   */
  lemma MilestoneFromRaw(title: string, data: Json)
    requires |title| > 0 && !data.JNull?
    requires |CleanStrings(ArrayOr(Get(data, "steps")))| == 0
    requires Get(data, "_raw").JStr? && |Get(data, "_raw").s| > 0
    ensures MilestoneReply(title, data) == Served(Milestone(Definition(data), RawSteps(Get(data, "_raw").s)))
  {
    var raw := Get(data, "_raw");
    assert Truthy(raw);
    assert MilestoneSteps(CleanStrings(ArrayOr(Get(data, "steps"))), raw) == Ok(RawSteps(raw.s));
  }

  /** A model reply's own clean steps are served as they are, up to seven. */
  lemma MilestoneKeepsSteps(title: string, data: Json, steps: seq<string>)
    requires |title| > 0 && !data.JNull?
    requires CleanList(steps) && 0 < |steps| <= 7
    requires Get(data, "steps") == JArr(StrPayload(steps))
    ensures var r := MilestoneReply(title, data); r.Served? && r.value.steps == steps
  {
    CleanStringsOfPayload(steps);
    assert CleanStrings(ArrayOr(Get(data, "steps"))) == steps;
    KeptSteps(steps, Get(data, "_raw"));
    assert MilestoneReply(title, data) == Served(Milestone(Definition(data), steps));
  }

  lemma KeptSteps(steps: seq<string>, raw: Json)
    requires CleanList(steps) && 0 < |steps| <= 7
    ensures MilestoneSteps(steps, raw) == Ok(steps)
  {
    assert Take(steps, 7) == steps;
  }

  /** `handleMilestone(env, body)`. */
  function HandleMilestone(body: Json, data: Json): (r: Reply<Milestone>)
    ensures r.Missing? <==> |FieldText(body, "title")| == 0
    ensures r.Served? ==> |r.value.steps| <= 7
  {
    MilestoneReply(FieldText(body, "title"), data)
  }

  // ------------------------------------------------------------- dispatch

  /** What `fetch` answers a POST with a JSON body: one handler's reply, or the 400 `unknown_type`. */
  datatype Response =
    | IdeasResponse(ideas: Reply<seq<string>>)
    | SolutionsResponse(solutions: Reply<seq<Solution>>)
    | MilestoneResponse(milestone: Reply<Milestone>)
    | UnknownType

  /** The HTTP status of a handler's reply: 200 served, 400 missing field, 500 `ai_error`. */
  function ReplyStatus<T>(x: Reply<T>): int {
    match x
    case Served(_) => 200
    case Missing(_) => 400
    case AiError => 500
  }

  function Status(r: Response): int {
    match r
    case IdeasResponse(x) => ReplyStatus(x)
    case SolutionsResponse(x) => ReplyStatus(x)
    case MilestoneResponse(x) => ReplyStatus(x)
    case UnknownType => 400
  }

  /**
   * `fetch(request, env)` for a POST whose body parsed to `body`, where the
   * model's reply to the prompt the chosen handler builds parses to `data`:
   * the handlers as written, so a negative limit reaches `slice`.
   */
  function Fetch(body: Json, data: Json): (r: Response)
    ensures r.UnknownType? <==> KindOf(body).None?
    ensures r.IdeasResponse? <==> KindOf(body) == Some(IdeasKind)
    ensures r.SolutionsResponse? <==> KindOf(body) == Some(SolutionsKind)
    ensures r.MilestoneResponse? <==> KindOf(body) == Some(MilestoneKind)
    ensures r.IdeasResponse? ==> r == IdeasResponse(HandleIdeasAsWritten(body, data))
    ensures r.SolutionsResponse? ==> r == SolutionsResponse(HandleSolutionsAsWritten(body, data))
    ensures r.MilestoneResponse? ==> r == MilestoneResponse(HandleMilestone(body, data))
  {
    Dispatch(KindOf(body), body, data)
  }

  /** The `switch` on the request type `k`. */
  function Dispatch(k: Option<Kind>, body: Json, data: Json): Response {
    match k
    case None => UnknownType
    case Some(IdeasKind) => IdeasResponse(HandleIdeasAsWritten(body, data))
    case Some(SolutionsKind) => SolutionsResponse(HandleSolutionsAsWritten(body, data))
    case Some(MilestoneKind) => MilestoneResponse(HandleMilestone(body, data))
  }

  /** `fetch` with the handlers that read a negative limit as `0`. */
  function FetchCorrected(body: Json, data: Json): (r: Response)
    ensures r.UnknownType? <==> KindOf(body).None?
    ensures r.IdeasResponse? <==> KindOf(body) == Some(IdeasKind)
    ensures r.SolutionsResponse? <==> KindOf(body) == Some(SolutionsKind)
    ensures r.MilestoneResponse? <==> KindOf(body) == Some(MilestoneKind)
    ensures r.IdeasResponse? ==> r == IdeasResponse(HandleIdeas(body, data))
    ensures r.SolutionsResponse? ==> r == SolutionsResponse(HandleSolutions(body, data))
    ensures r.MilestoneResponse? ==> r == MilestoneResponse(HandleMilestone(body, data))
  {
    DispatchCorrected(KindOf(body), body, data)
  }

  function DispatchCorrected(k: Option<Kind>, body: Json, data: Json): Response {
    match k
    case None => UnknownType
    case Some(IdeasKind) => IdeasResponse(HandleIdeas(body, data))
    case Some(SolutionsKind) => SolutionsResponse(HandleSolutions(body, data))
    case Some(MilestoneKind) => MilestoneResponse(HandleMilestone(body, data))
  }

  /**
   * A request is refused with 400 exactly when its type is unknown or the
   * handler it reaches misses a field it needs.
   */
  lemma FetchBadRequest(body: Json, data: Json)
    ensures Status(Fetch(body, data)) == 400 <==>
      KindOf(body).None?
      || (KindOf(body) == Some(IdeasKind) && |FieldText(body, "query")| == 0)
      || (KindOf(body) == Some(SolutionsKind)
          && (|FieldText(body, "activity")| == 0 || |FieldText(body, "problem")| == 0))
      || (KindOf(body) == Some(MilestoneKind) && |FieldText(body, "title")| == 0)
  {
    match KindOf(body)
    case None =>
    case Some(IdeasKind) => IdeasBadRequest(body, data);
    case Some(SolutionsKind) => SolutionsBadRequest(body, data);
    case Some(MilestoneKind) => MilestoneBadRequest(body, data);
  }

  lemma ReplyMissingStatus<T>(x: Reply<T>)
    ensures ReplyStatus(x) == 400 <==> x.Missing?
  {
  }

  lemma IdeasBadRequest(body: Json, data: Json)
    requires KindOf(body) == Some(IdeasKind)
    ensures Status(Fetch(body, data)) == 400 <==> |FieldText(body, "query")| == 0
  {
    FetchIdeas(body, data);
    ReplyMissingStatus(HandleIdeasAsWritten(body, data));
  }

  lemma SolutionsBadRequest(body: Json, data: Json)
    requires KindOf(body) == Some(SolutionsKind)
    ensures Status(Fetch(body, data)) == 400 <==>
      |FieldText(body, "activity")| == 0 || |FieldText(body, "problem")| == 0
  {
    FetchSolutions(body, data);
    ReplyMissingStatus(HandleSolutionsAsWritten(body, data));
  }

  lemma MilestoneBadRequest(body: Json, data: Json)
    requires KindOf(body) == Some(MilestoneKind)
    ensures Status(Fetch(body, data)) == 400 <==> |FieldText(body, "title")| == 0
  {
    FetchMilestone(body, data);
  }

  /** `fetch` hands the request to the handler its kind names. */
  lemma FetchIdeas(body: Json, data: Json)
    requires KindOf(body) == Some(IdeasKind)
    ensures Fetch(body, data) == IdeasResponse(HandleIdeasAsWritten(body, data))
  {
    assert Fetch(body, data).IdeasResponse?;
  }

  lemma FetchSolutions(body: Json, data: Json)
    requires KindOf(body) == Some(SolutionsKind)
    ensures Fetch(body, data) == SolutionsResponse(HandleSolutionsAsWritten(body, data))
  {
    assert Fetch(body, data).SolutionsResponse?;
  }

  lemma FetchMilestone(body: Json, data: Json)
    requires KindOf(body) == Some(MilestoneKind)
    ensures Fetch(body, data) == MilestoneResponse(HandleMilestone(body, data))
  {
    assert Fetch(body, data).MilestoneResponse?;
  }

  /** A limit that is absent (`NaN`) or not negative. */
  predicate NotNegative(limit: Option<int>) {
    limit.None? || limit.value >= 0
  }

  /** The limit the request's handler reads is not negative. */
  predicate LimitNotNegative(body: Json) {
    (KindOf(body) == Some(IdeasKind) ==> NotNegative(LimitOf(Get(body, "limit"), 8, 12)))
    && (KindOf(body) == Some(SolutionsKind) ==> NotNegative(LimitOf(Get(body, "limit"), 3, 5)))
  }

  /** The correction changes nothing for a request whose limit is not negative. */
  lemma FetchCorrectedAgrees(body: Json, data: Json)
    requires LimitNotNegative(body)
    ensures FetchCorrected(body, data) == Fetch(body, data)
  {
    match KindOf(body)
    case None =>
    case Some(IdeasKind) =>
      FetchIdeas(body, data);
      FetchCorrectedIdeas(body, data);
      HandleIdeasAgrees(body, data);
    case Some(SolutionsKind) =>
      FetchSolutions(body, data);
      FetchCorrectedSolutions(body, data);
      HandleSolutionsAgrees(body, data);
    case Some(MilestoneKind) =>
      FetchMilestone(body, data);
      FetchCorrectedMilestone(body, data);
  }

  lemma HandleIdeasAgrees(body: Json, data: Json)
    requires NotNegative(LimitOf(Get(body, "limit"), 8, 12))
    ensures HandleIdeas(body, data) == HandleIdeasAsWritten(body, data)
  {
    assert NonNegative(LimitOf(Get(body, "limit"), 8, 12)) == LimitOf(Get(body, "limit"), 8, 12);
  }

  lemma HandleSolutionsAgrees(body: Json, data: Json)
    requires NotNegative(LimitOf(Get(body, "limit"), 3, 5))
    ensures HandleSolutions(body, data) == HandleSolutionsAsWritten(body, data)
  {
    assert NonNegative(LimitOf(Get(body, "limit"), 3, 5)) == LimitOf(Get(body, "limit"), 3, 5);
  }

  lemma FetchCorrectedIdeas(body: Json, data: Json)
    requires KindOf(body) == Some(IdeasKind)
    ensures FetchCorrected(body, data) == IdeasResponse(HandleIdeas(body, data))
  {
    assert FetchCorrected(body, data).IdeasResponse?;
  }

  lemma FetchCorrectedSolutions(body: Json, data: Json)
    requires KindOf(body) == Some(SolutionsKind)
    ensures FetchCorrected(body, data) == SolutionsResponse(HandleSolutions(body, data))
  {
    assert FetchCorrected(body, data).SolutionsResponse?;
  }

  lemma FetchCorrectedMilestone(body: Json, data: Json)
    requires KindOf(body) == Some(MilestoneKind)
    ensures FetchCorrected(body, data) == MilestoneResponse(HandleMilestone(body, data))
  {
    assert FetchCorrected(body, data).MilestoneResponse?;
  }

  /**
   * With a limit that is not negative, whatever `fetch` serves stays within
   * the caps: twelve ideas, five solutions, seven steps.
   */
  lemma FetchServedBounded(body: Json, data: Json)
    requires LimitNotNegative(body)
    ensures var r := Fetch(body, data);
      (r.IdeasResponse? && r.ideas.Served? ==> |r.ideas.value| <= 12)
      && (r.SolutionsResponse? && r.solutions.Served? ==> |r.solutions.value| <= 5)
      && (r.MilestoneResponse? && r.milestone.Served? ==> |r.milestone.value.steps| <= 7)
  {
    FetchCorrectedAgrees(body, data);
    FetchCorrectedServedBounded(body, data);
  }

  /** The corrected `fetch` keeps within the caps for every request. */
  lemma FetchCorrectedServedBounded(body: Json, data: Json)
    ensures var r := FetchCorrected(body, data);
      (r.IdeasResponse? && r.ideas.Served? ==> |r.ideas.value| <= 12)
      && (r.SolutionsResponse? && r.solutions.Served? ==> |r.solutions.value| <= 5)
      && (r.MilestoneResponse? && r.milestone.Served? ==> |r.milestone.value.steps| <= 7)
  {
    match KindOf(body)
    case None =>
    case Some(IdeasKind) => FetchCorrectedIdeas(body, data);
    case Some(SolutionsKind) => FetchCorrectedSolutions(body, data);
    case Some(MilestoneKind) => FetchCorrectedMilestone(body, data);
  }

  /**
   * As written, `fetch` serves more than twelve ideas to an ideas request
   * with `limit: -1` when the model returns fourteen or more.
   */
  lemma FetchIdeasOverflow(body: Json, data: Json)
    requires KindOf(body) == Some(IdeasKind)
    requires |FieldText(body, "query")| > 0 && Get(body, "limit") == JNum(-1.0)
    requires !data.JNull? && |ArrayOr(Get(data, "ideas"))| >= 14
    ensures var r := Fetch(body, data); r.IdeasResponse? && r.ideas.Served? && |r.ideas.value| > 12
  {
    FetchIdeas(body, data);
    HandleIdeasAsWrittenOverflow(body, data);
  }
}
