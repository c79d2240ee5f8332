/**
 * Best-effort reading of a model reply (`api/ai.js`): `truncate`, `safeParse`
 * and `enhancedParse`. `JSON.parse` is the parameter `parse`, with `None` for
 * a parse that throws; the salvage around it is modelled exactly.
 */
module Salvage {
  import opened Strings
  import opened Json

  /** `truncate(str, n)`: the first `n` characters and `…` when longer, else the string itself. */
  function Truncate(str: string, n: nat): (r: string)
    ensures |str| <= n ==> r == str
    ensures |str| > n ==> |r| == n + 1 && r[..n] == str[..n] && r[n] == '…'
  {
    if |str| == 0 then "" else if |str| > n then str[..n] + "…" else str
  }

  /** No string that `truncate` returns is more than one character over the bound. */
  lemma TruncateBound(str: string, n: nat)
    ensures |Truncate(str, n)| <= n + 1
    ensures |Truncate(str, n)| <= |str| + 1
  {
  }

  /** `replace(/```(json)?/gi, '')`: every fence removed, with a `json` tag after it in any case. */
  function StripJsonFences(s: string): (r: string)
    ensures |r| <= |s|
    decreases |s|
  {
    if |s| == 0 then []
    else if StartsWith(s, "```") then
      var rest := s[3..];
      if |rest| >= 4 && ToLower(rest[..4]) == "json" then StripJsonFences(rest[4..])
      else StripJsonFences(rest)
    else [s[0]] + StripJsonFences(s[1..])
  }

  /** The text `enhancedParse` works on: trimmed, fences stripped, trimmed again. */
  function CleanReply(raw: string): (text: string)
    ensures Trimmed(text)
  {
    Trim(ReplaceAll(StripJsonFences(Trim(raw)), "```", ""))
  }

  predicate NoBacktick(s: string) {
    forall i :: 0 <= i < |s| ==> s[i] != '`'
  }

  /** A reply without a backtick has no fence to strip. */
  lemma {:induction false} StripJsonFencesPlain(s: string)
    requires NoBacktick(s)
    ensures StripJsonFences(s) == s
    decreases |s|
  {
    if |s| > 0 {
      assert s[0] != '`';
      assert !StartsWith(s, "```");
      assert NoBacktick(s[1..]) by {
        forall i | 0 <= i < |s[1..]| ensures s[1..][i] != '`' {
          assert s[1..][i] == s[i + 1];
        }
      }
      StripJsonFencesPlain(s[1..]);
      assert s == [s[0]] + s[1..];
    }
  }

  /** A trimmed reply without a backtick is read as it is. */
  lemma CleanReplyOfPlain(raw: string)
    requires Trimmed(raw) && NoBacktick(raw)
    ensures CleanReply(raw) == raw
  {
    TrimOfTrimmed(raw);
    StripJsonFencesPlain(raw);
    NoFenceLeft(raw);
    assert ReplaceAll(StripJsonFences(Trim(raw)), "```", "") == raw;
  }

  /** Removing the leftover fences from a reply without a backtick changes nothing. */
  lemma NoFenceLeft(s: string)
    requires NoBacktick(s)
    ensures ReplaceAll(s, "```", "") == s
  {
    FenceStartsWithBacktick(s);
    assert !Contains(s, "```");
    ReplaceAllAbsent(s, "```", "");
  }

  /** A fence starts with a backtick. */
  lemma FenceStartsWithBacktick(s: string)
    ensures forall j :: MatchAt(s, "```", j) ==> s[j] == '`'
  {
    forall j | MatchAt(s, "```", j) ensures s[j] == '`' {
      assert s[j..j + 3][0] == s[j];
    }
  }

  /**
   * `safeParse(text)`: the parse of `text`, or when that throws, the parse of
   * the text from its first `{`; `None` when neither parses.
   */
  function SafeParse(parse: string -> Option<Json>, text: string): (r: Option<Json>)
    ensures r.Some? ==>
      (parse(text) == r || (0 <= IndexOf(text, '{') && parse(text[IndexOf(text, '{')..]) == r))
    ensures parse(text).Some? ==> r == parse(text)
  {
    match parse(text)
    case Some(v) => Some(v)
    case None =>
      var idx := IndexOf(text, '{');
      if idx >= 0 then parse(text[idx..]) else None
  }

  /** `if (parsed)`: a parse that yielded a truthy value. */
  predicate Usable(p: Option<Json>) {
    p.Some? && Truthy(p.value)
  }

  /**
   * `enhancedParse(raw)`: `None` for an empty reply; otherwise the reply is
   * cleaned and read by `ParseCleaned`. It never fails.
   */
  function EnhancedParse(parse: string -> Option<Json>, raw: string): (r: Option<Json>)
    ensures |raw| == 0 ==> r.None?
  {
    if |raw| == 0 then None else ParseCleaned(parse, CleanReply(raw))
  }

  /**
   * The rest of `enhancedParse` on the cleaned text: its parse when that is
   * truthy, else the parse of the slice from the first `{` to the last `}`
   * when that slice exists and parses to something truthy, else `None`.
   * Whatever it returns is truthy and is the parse of a slice of `text`.
   */
  function ParseCleaned(parse: string -> Option<Json>, text: string): (r: Option<Json>)
    ensures r.Some? ==> Truthy(r.value)
    ensures r.Some? ==> exists i, j :: 0 <= i <= j <= |text| && parse(text[i..j]) == r
  {
    var p := SafeParse(parse, text);
    if Usable(p) then
      if parse(text) == p then
        assert text[0..|text|] == text;
        assert parse(text[0..|text|]) == p;
        p
      else
        var idx := IndexOf(text, '{');
        assert text[idx..|text|] == text[idx..];
        assert parse(text[idx..|text|]) == p;
        p
    else
      var first := IndexOf(text, '{');
      var last := LastIndexOf(text, '}');
      if first >= 0 && last > first then
        var slice := text[first..last + 1];
        var q := SafeParse(parse, slice);
        if Usable(q) then
          assert IndexOf(slice, '{') == 0;
          assert slice[0..] == slice;
          assert parse(text[first..last + 1]) == q;
          q
        else None
      else None
  }

  /** A reply that parses as it stands, once cleaned, is returned as parsed. */
  lemma EnhancedParseDirect(parse: string -> Option<Json>, raw: string, v: Json)
    requires |raw| > 0
    requires parse(CleanReply(raw)) == Some(v) && Truthy(v)
    ensures EnhancedParse(parse, raw) == Some(v)
  {
    ParseCleanedDirect(parse, CleanReply(raw), v);
  }

  /** A bare JSON reply, with no fence and no surrounding white space, is read as it is. */
  lemma EnhancedParsePlain(parse: string -> Option<Json>, raw: string, v: Json)
    requires |raw| > 0 && Trimmed(raw) && NoBacktick(raw)
    requires parse(raw) == Some(v) && Truthy(v)
    ensures EnhancedParse(parse, raw) == Some(v)
  {
    CleanReplyOfPlain(raw);
    EnhancedParseDirect(parse, raw, v);
  }

  lemma ParseCleanedDirect(parse: string -> Option<Json>, text: string, v: Json)
    requires parse(text) == Some(v) && Truthy(v)
    ensures ParseCleaned(parse, text) == Some(v)
  {
  }

  /**
   * When the whole cleaned text does not give a usable value, the slice from
   * the first `{` to the last `}` is what is read.
   */
  lemma ParseCleanedSalvage(parse: string -> Option<Json>, text: string, i: int, j: int, v: Json)
    requires 0 <= i < j < |text| && text[i] == '{' && text[j] == '}'
    requires forall k :: 0 <= k < i ==> text[k] != '{'
    requires forall k :: j < k < |text| ==> text[k] != '}'
    requires !Usable(SafeParse(parse, text))
    requires parse(text[i..j + 1]) == Some(v) && Truthy(v)
    ensures ParseCleaned(parse, text) == Some(v)
  {
    assert IndexOf(text, '{') == i;
    assert LastIndexOf(text, '}') == j;
  }

  /** A reply with no parsable slice at all yields `None`. */
  lemma EnhancedParseNothing(parse: string -> Option<Json>, raw: string)
    requires forall t :: parse(t).None?
    ensures EnhancedParse(parse, raw).None?
  {
    if |raw| > 0 {
      ParseCleanedNothing(parse, CleanReply(raw));
    }
  }

  lemma ParseCleanedNothing(parse: string -> Option<Json>, text: string)
    requires forall t :: parse(t).None?
    ensures ParseCleaned(parse, text).None?
  {
  }
}
