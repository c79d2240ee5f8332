/**
 * The control flow around the model call in `api/ai.js`: the request type
 * detection, the retry and backoff schedule of `callGroqWithRetry`, the chain
 * of candidate models, the one-shot repair guard and the provenance tag
 * `forcedOrigin`. What the upstream service answers is an oracle passed in as
 * a function; waiting is recorded as the list of delays asked for.
 */
module Orchestration {
  import opened Strings
  import opened Json
  import opened Limits
  import opened Salvage

  // ------------------------------------------------------ type detection

  /**
   * The handler's `detected` type: `String(type || '').toLowerCase()` when that
   * is not empty; otherwise `solutions` when both activity and problem are
   * given, else `milestone` when a title is, else `ideas`.
   */
  function DetectType(typeText: string, hasActivity: bool, hasProblem: bool, hasTitle: bool): (t: string)
    ensures |typeText| > 0 ==> t == ToLower(typeText)
    ensures |typeText| == 0 && hasActivity && hasProblem ==> t == "solutions"
    ensures |typeText| == 0 && !(hasActivity && hasProblem) && hasTitle ==> t == "milestone"
    ensures |typeText| == 0 && !(hasActivity && hasProblem) && !hasTitle ==> t == "ideas"
  {
    var detected := ToLower(typeText);
    if |detected| > 0 then detected
    else if hasActivity && hasProblem then "solutions"
    else if hasTitle then "milestone"
    else "ideas"
  }

  /** An explicit type always wins over the inferred one, whatever else the body holds. */
  lemma DetectTypeExplicit(typeText: string, a1: bool, p1: bool, t1: bool, a2: bool, p2: bool, t2: bool)
    requires |typeText| > 0
    ensures DetectType(typeText, a1, p1, t1) == DetectType(typeText, a2, p2, t2)
  {
  }

  // ------------------------------------------------------------ provenance

  datatype Origin = Forced | Fallback | Repaired | FromModel

  /** `forcedOrigin(forced, fallbackUsed, repaired)`: forced > fallback > repaired > model. */
  function ForcedOrigin(forced: bool, fallbackUsed: bool, repaired: bool): (o: Origin)
    ensures o == Forced <==> forced
    ensures o == Fallback <==> !forced && fallbackUsed
    ensures o == Repaired <==> !forced && !fallbackUsed && repaired
    ensures o == FromModel <==> !forced && !fallbackUsed && !repaired
  {
    if forced then Forced
    else if fallbackUsed then Fallback
    else if repaired then Repaired
    else FromModel
  }

  /** The tag `forcedOrigin` writes into every reply. */
  function OriginTag(o: Origin): string {
    match o
    case Forced => "forced"
    case Fallback => "fallback"
    case Repaired => "repaired"
    case FromModel => "model"
  }

  /** The four tags are distinct, so the tag tells the origin back. */
  lemma OriginTagInjective(a: Origin, b: Origin)
    ensures OriginTag(a) == OriginTag(b) ==> a == b
  {
    if a != b {
      assert OriginTag(a)[0] != OriginTag(b)[0] || OriginTag(a)[1] != OriginTag(b)[1];
    }
  }

  // ----------------------------------------------------- retry and backoff

  /** What one request to the chat endpoint gives: a body's content, or a failing status. */
  datatype Reply = Answer(content: string) | Status(code: int)

  /** The outcome of `callGroqWithRetry`: content, or the thrown `groq_failed` with the last status seen. */
  datatype Outcome = Served(content: string) | GroqFailed(lastStatus: Option<int>)

  /** Every attempt made, the outcome and the delays waited, in order. */
  datatype Call = Call(outcome: Outcome, attempts: nat, waits: seq<int>)

  /** The statuses worth retrying: 429, 500, 502, 503 and 504. */
  predicate Retryable(status: int) {
    status in {429, 500, 502, 503, 504}
  }

  function Pow2(k: nat): (p: nat)
    ensures p >= 1
  {
    if k == 0 then 1 else 2 * Pow2(k - 1)
  }

  /** `Math.min(200 * Math.pow(2, attempt - 1), 1200)`. */
  function Backoff(attempt: nat): (ms: int)
    requires attempt >= 1
    ensures 200 <= ms <= 1200
  {
    Min(200 * Pow2(attempt - 1), 1200)
  }

  /** The backoff doubles from 200 ms and stays at 1200 ms from the fourth attempt on. */
  lemma BackoffSchedule(attempt: nat)
    requires attempt >= 1
    ensures attempt == 1 ==> Backoff(attempt) == 200
    ensures attempt == 2 ==> Backoff(attempt) == 400
    ensures attempt == 3 ==> Backoff(attempt) == 800
    ensures attempt >= 4 ==> Backoff(attempt) == 1200
  {
    if attempt >= 4 {
      Pow2AtLeast(attempt - 1);
    }
  }

  lemma {:induction false} Pow2AtLeast(k: nat)
    requires k >= 3
    ensures Pow2(k) >= 8
  {
    if k > 3 {
      Pow2AtLeast(k - 1);
    }
  }

  /** `data.choices?.[0]?.message?.content || '{}'`. */
  function ContentOr(c: string): (r: string)
    ensures |r| > 0
  {
    if |c| == 0 then "{}" else c
  }

  function Prepend(w: seq<int>, c: Call): Call {
    c.(waits := w + c.waits)
  }

  /**
   * The attempts after the first `done`: a body ends them, a status that is
   * not retryable ends them, a retryable one waits and goes on until
   * `maxAttempts` attempts have been made.
   */
  function RetryFrom(respond: nat -> Reply, maxAttempts: nat, done: nat, last: Option<int>): (c: Call)
    ensures c.attempts == done || done < c.attempts <= maxAttempts
    ensures c.outcome.Served? ==> |c.outcome.content| > 0
    decreases maxAttempts - done
  {
    if done >= maxAttempts then Call(GroqFailed(last), done, [])
    else
      var attempt := done + 1;
      match respond(attempt)
      case Answer(c) => Call(Served(ContentOr(c)), attempt, [])
      case Status(s) =>
        if !Retryable(s) then Call(GroqFailed(Some(s)), attempt, [])
        else Prepend([Backoff(attempt)], RetryFrom(respond, maxAttempts, attempt, Some(s)))
  }

  /**
   * `callGroqWithRetry`: attempt `k` is answered by `respond(k)`. The result is
   * the schedule `RetryFrom` describes.
   */
  method CallGroqWithRetry(respond: nat -> Reply, maxAttempts: nat) returns (c: Call)
    ensures c == RetryFrom(respond, maxAttempts, 0, None)
  {
    var attempt := 0;
    var waits: seq<int> := [];
    var lastStatus: Option<int> := None;
    while attempt < maxAttempts
      invariant attempt <= maxAttempts
      invariant RetryFrom(respond, maxAttempts, 0, None) == Prepend(waits, RetryFrom(respond, maxAttempts, attempt, lastStatus))
      decreases maxAttempts - attempt
    {
      attempt := attempt + 1;
      var resp := respond(attempt);
      if resp.Answer? {
        return Call(Served(ContentOr(resp.content)), attempt, waits);
      }
      var status := resp.code;
      if !Retryable(status) {
        return Call(GroqFailed(Some(status)), attempt, waits);
      }
      waits := waits + [Backoff(attempt)];
      lastStatus := Some(status);
    }
    c := Call(GroqFailed(lastStatus), attempt, waits);
  }

  /**
   * What the schedule guarantees from attempt `done` on: it makes at least
   * one more attempt when any is left and never more than `maxAttempts`;
   * the delays are the backoffs of the attempts in turn; a body comes from
   * the last attempt after retryable failures only; giving up early means the
   * last status was not retryable.
   */
  lemma {:induction false} RetryFromShape(respond: nat -> Reply, maxAttempts: nat, done: nat, last: Option<int>)
    requires done <= maxAttempts
    ensures var c := RetryFrom(respond, maxAttempts, done, last);
      done <= c.attempts <= maxAttempts
      && (done < maxAttempts ==> c.attempts > done)
      && |c.waits| <= c.attempts - done
      && (forall i :: 0 <= i < |c.waits| ==> c.waits[i] == Backoff(done + 1 + i))
      && (forall j :: done < j < c.attempts ==> respond(j).Status? && Retryable(respond(j).code))
      && (c.outcome.Served? ==> respond(c.attempts).Answer?)
      && (c.outcome.GroqFailed? && c.attempts < maxAttempts ==>
            respond(c.attempts).Status? && !Retryable(respond(c.attempts).code))
    decreases maxAttempts - done
  {
    if done < maxAttempts {
      var attempt := done + 1;
      match respond(attempt)
      case Answer(_) =>
      case Status(s) =>
        if Retryable(s) {
          RetryFromShape(respond, maxAttempts, attempt, Some(s));
          var rest := RetryFrom(respond, maxAttempts, attempt, Some(s));
          var c := Prepend([Backoff(attempt)], rest);
          forall i | 0 <= i < |c.waits| ensures c.waits[i] == Backoff(done + 1 + i) {
            if i > 0 {
              assert c.waits[i] == rest.waits[i - 1];
            }
          }
        }
    }
  }

  /** With the default of three attempts the handler waits at most 200 + 400 + 800 ms in all. */
  lemma DefaultRetryWaits(respond: nat -> Reply)
    ensures var c := RetryFrom(respond, 3, 0, None);
      1 <= c.attempts <= 3 && |c.waits| <= 3
      && (forall i :: 0 <= i < |c.waits| ==> c.waits[i] == Backoff(i + 1))
      && Total(c.waits) <= 1400
  {
    RetryFromShape(respond, 3, 0, None);
    var c := RetryFrom(respond, 3, 0, None);
    BackoffSchedule(1);
    BackoffSchedule(2);
    BackoffSchedule(3);
    TotalBackoffs(c.waits);
  }

  /** The delays of at most three attempts add up to at most 1400 ms. */
  lemma TotalBackoffs(w: seq<int>)
    requires |w| <= 3
    requires forall i :: 0 <= i < |w| ==> w[i] == Backoff(i + 1)
    ensures Total(w) <= 1400
  {
    BackoffSchedule(1);
    BackoffSchedule(2);
    BackoffSchedule(3);
    if |w| >= 1 {
      assert w[0] == 200;
      var w1 := w[1..];
      if |w1| >= 1 {
        assert w1[0] == w[1] == 400;
        var w2 := w1[1..];
        if |w2| >= 1 {
          assert w2[0] == w[2] == 800;
          assert |w2[1..]| == 0;
        }
      }
    }
  }

  function Total(w: seq<int>): int {
    if |w| == 0 then 0 else w[0] + Total(w[1..])
  }

  // ------------------------------------------------------ model candidates

  /** The configured model, when set, then the three built-in ones. */
  function FallbackModels(configured: string): (r: seq<string>)
    ensures |r| == (if |configured| > 0 then 4 else 3)
    ensures |configured| > 0 ==> r[0] == configured
  {
    (if |configured| > 0 then [configured] else [])
    + ["llama-3.1-70b-versatile", "llama-3.1-8b-instant", "mixtral-8x7b-32768"]
  }

  /** One candidate's call: its content, or the message of what it threw. */
  datatype Attempt = Content(text: string) | Thrown(message: string)

  /** `/model_decommissioned|no longer supported|model_not_found/i`. */
  predicate Decommissioned(message: string) {
    var m := ToLower(message);
    Includes(m, "model_decommissioned") || Includes(m, "no longer supported") || Includes(m, "model_not_found")
  }

  /** The chain's outcome: the content if a candidate served, the candidates tried, the last error. */
  datatype Chain = Chain(content: Option<string>, tried: seq<string>, lastErr: string)

  /**
   * The candidates from index `i` on: the first that serves ends the chain; a
   * decommissioned model moves on to the next; any other error ends it.
   */
  function ChainFrom(cands: seq<string>, call: string -> Attempt, gone: string -> bool, i: nat, lastErr: string): (c: Chain)
    requires i <= |cands|
    ensures i + |c.tried| <= |cands|
    ensures i < |cands| ==> |c.tried| >= 1
    decreases |cands| - i
  {
    if i == |cands| then Chain(None, [], lastErr)
    else
      match call(cands[i])
      case Content(text) => Chain(Some(text), [cands[i]], lastErr)
      case Thrown(msg) =>
        if gone(msg) then
          AfterTried([cands[i]], ChainFrom(cands, call, gone, i + 1, msg))
        else Chain(None, [cands[i]], msg)
  }

  function AfterTried(tried: seq<string>, c: Chain): Chain {
    c.(tried := tried + c.tried)
  }

  lemma AfterTriedTwice(t: seq<string>, u: seq<string>, c: Chain)
    ensures AfterTried(t, AfterTried(u, c)) == AfterTried(t + u, c)
  {
    assert t + (u + c.tried) == (t + u) + c.tried;
  }

  /**
   * The `for (const candidate of fallbackModels)` loop, which moves on past a
   * candidate only when its error message says it is decommissioned.
   */
  method ModelChain(cands: seq<string>, call: string -> Attempt) returns (c: Chain)
    ensures c == ChainFrom(cands, call, Decommissioned, 0, "")
  {
    c := RunChain(cands, call, Decommissioned);
  }

  /** The loop itself, for any test `gone` of an error message. */
  method RunChain(cands: seq<string>, call: string -> Attempt, gone: string -> bool) returns (c: Chain)
    ensures c == ChainFrom(cands, call, gone, 0, "")
  {
    var tried: seq<string> := [];
    var lastErr := "";
    var i := 0;
    ghost var whole := ChainFrom(cands, call, gone, 0, "");
    while i < |cands|
      invariant i <= |cands| && tried == cands[..i]
      invariant whole == AfterTried(tried, ChainFrom(cands, call, gone, i, lastErr))
      decreases |cands| - i
    {
      var candidate := cands[i];
      var result := call(candidate);
      if result.Content? {
        tried := tried + [candidate];
        return Chain(Some(result.text), tried, lastErr);
      }
      var msg := result.message;
      lastErr := msg;
      tried := tried + [candidate];
      if gone(msg) {
        AfterTriedTwice(tried[..i], [candidate], ChainFrom(cands, call, gone, i + 1, msg));
        i := i + 1;
        continue;
      }
      return Chain(None, tried, lastErr);
    }
    c := Chain(None, tried, lastErr);
  }

  /**
   * The chain tries the candidates in order from the first: a prefix of
   * them, at least one when there is any. Content comes from the last one
   * tried, after decommissioned ones only; stopping short without content
   * means the last one failed for another reason.
   */
  lemma {:induction false} ChainFromShape(cands: seq<string>, call: string -> Attempt, gone: string -> bool, i: nat, lastErr: string)
    requires i <= |cands|
    ensures ChainShaped(cands, call, gone, i, ChainFrom(cands, call, gone, i, lastErr))
    decreases |cands| - i
  {
    if i < |cands| {
      match call(cands[i])
      case Content(_) =>
      case Thrown(msg) =>
        if gone(msg) {
          ChainFromShape(cands, call, gone, i + 1, msg);
          ShapeAfterGone(cands, call, gone, i, msg, ChainFrom(cands, call, gone, i + 1, msg));
        }
    }
  }

  /** The outcome `c` of the chain from index `i` has the shape `ChainFromShape` states. */
  predicate ChainShaped(cands: seq<string>, call: string -> Attempt, gone: string -> bool, i: nat, c: Chain)
    requires i <= |cands|
  {
    i + |c.tried| <= |cands|
    && c.tried == cands[i..i + |c.tried|]
    && (i < |cands| ==> |c.tried| >= 1)
    && (forall j :: i <= j < i + |c.tried| - 1 ==> call(cands[j]).Thrown? && gone(call(cands[j]).message))
    && (c.content.Some? ==> |c.tried| >= 1 && call(cands[i + |c.tried| - 1]) == Content(c.content.value))
    && (c.content.None? && i + |c.tried| < |cands| ==>
          |c.tried| >= 1 && call(cands[i + |c.tried| - 1]).Thrown?
          && !gone(call(cands[i + |c.tried| - 1]).message))
  }

  /** A decommissioned candidate in front of a well-shaped rest of the chain keeps the shape. */
  lemma ShapeAfterGone(cands: seq<string>, call: string -> Attempt, gone: string -> bool, i: nat, msg: string, rest: Chain)
    requires i < |cands| && call(cands[i]) == Thrown(msg) && gone(msg)
    requires ChainShaped(cands, call, gone, i + 1, rest)
    ensures ChainShaped(cands, call, gone, i, AfterTried([cands[i]], rest))
  {
    var c := AfterTried([cands[i]], rest);
    assert |c.tried| == 1 + |rest.tried|;
    assert cands[i..i + 1 + |rest.tried|] == [cands[i]] + cands[i + 1..i + 1 + |rest.tried|];
  }

  // ------------------------------------------------------------ repair guard

  /** `buildRepairInstruction(schemaKind, ...)` is non-empty exactly for these schemas. */
  predicate HasRepairInstruction(schemaKind: string) {
    schemaKind in {"ideas", "solutions", "milestone", "plan", "plan_financials", "search"}
  }

  /** What `attemptRepair` gives: its boolean result, or the `groq_failed` error it lets escape. */
  datatype Repair = Done(ok: bool) | Threw

  /** The handler's `repaired`, `content` and `parsed` variables and `attemptRepair`. */
  class RepairGuard {
    var repaired: bool
    var content: string
    var parsed: Option<Json>

    constructor (content0: string, parse: string -> Option<Json>)
      ensures !repaired && content == content0 && parsed == EnhancedParse(parse, content0)
    {
      repaired := false;
      content := content0;
      parsed := EnhancedParse(parse, content0);
    }

    /**
     * `attemptRepair(reason)`: only the first call may ask the model again; it
     * sets `repaired` even when the schema has no repair instruction. With an
     * instruction, `call` is what `callGroqWithRetry` gave for the repair
     * prompt: served content replaces the content and is parsed, and the
     * result says whether that parse gave anything; `groq_failed` escapes as
     * a throw, with `repaired` set and the content and parse left as they were.
     */
    method AttemptRepair(schemaKind: string, call: Outcome, parse: string -> Option<Json>) returns (r: Repair)
      modifies this
      ensures repaired
      ensures old(repaired) ==> r == Done(false) && content == old(content) && parsed == old(parsed)
      ensures !old(repaired) && !HasRepairInstruction(schemaKind) ==>
        r == Done(false) && content == old(content) && parsed == old(parsed)
      ensures !old(repaired) && HasRepairInstruction(schemaKind) && call.GroqFailed? ==>
        r == Threw && content == old(content) && parsed == old(parsed)
      ensures !old(repaired) && HasRepairInstruction(schemaKind) && call.Served? ==>
        content == call.content && parsed == EnhancedParse(parse, call.content) && r == Done(parsed.Some?)
    {
      if repaired {
        return Done(false);
      }
      repaired := true;
      if !HasRepairInstruction(schemaKind) {
        return Done(false);
      }
      if call.GroqFailed? {
        return Threw;
      }
      content := call.content;
      parsed := EnhancedParse(parse, content);
      r := Done(parsed.Some?);
    }
  }

  /** However many times it is called, `attemptRepair` asks the model at most once. */
  method RepairTwice(g: RepairGuard, schemaKind: string, call1: Outcome, call2: Outcome, parse: string -> Option<Json>)
    returns (r1: Repair, r2: Repair)
    modifies g
    ensures r2 == Done(false)
    ensures old(g.repaired) ==> g.content == old(g.content)
    ensures !old(g.repaired) && HasRepairInstruction(schemaKind) && call1.Served? ==> g.content == call1.content
  {
    r1 := g.AttemptRepair(schemaKind, call1, parse);
    r2 := g.AttemptRepair(schemaKind, call2, parse);
  }
}
