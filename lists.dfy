/**
 * The `xs.map(x => String(x).trim()).filter(Boolean)` chain every normaliser
 * applies to a list of untrusted strings, and the payloads that carry such a
 * list back into JSON.
 */
module Lists {
  import opened Strings
  import opened Json

  /** Every entry is non-empty and has no white-space ends. */
  predicate CleanList(ss: seq<string>) {
    forall i :: 0 <= i < |ss| ==> |ss[i]| > 0 && Trimmed(ss[i])
  }

  /** `.filter(Boolean)` on strings: the non-empty ones, in order. */
  function KeepNonEmpty(ss: seq<string>): (r: seq<string>)
    ensures |r| <= |ss|
    ensures forall i :: 0 <= i < |r| ==> |r[i]| > 0 && r[i] in ss
  {
    if |ss| == 0 then []
    else if |ss[0]| == 0 then KeepNonEmpty(ss[1..])
    else [ss[0]] + KeepNonEmpty(ss[1..])
  }

  /** `xs.map(f)`. */
  function MapSeq<A, B>(f: A -> B, xs: seq<A>): (r: seq<B>)
    ensures |r| == |xs| && forall i :: 0 <= i < |xs| ==> r[i] == f(xs[i])
  {
    seq(|xs|, i requires 0 <= i < |xs| => f(xs[i]))
  }

  lemma MapSeqAppend<A, B>(f: A -> B, a: seq<A>, b: seq<A>)
    ensures MapSeq(f, a + b) == MapSeq(f, a) + MapSeq(f, b)
  {
    var t := MapSeq(f, a) + MapSeq(f, b);
    forall i | 0 <= i < |a + b| ensures MapSeq(f, a + b)[i] == t[i] {
      if i < |a| {
        assert (a + b)[i] == a[i];
      } else {
        assert (a + b)[i] == b[i - |a|];
      }
    }
  }

  function TrimEach(ss: seq<string>): (r: seq<string>)
    ensures |r| == |ss| && forall i :: 0 <= i < |ss| ==> r[i] == Trim(ss[i])
  {
    MapSeq(Trim, ss)
  }

  /** `xs.map(x => String(x))`. */
  function StrEach(xs: seq<Json>): (r: seq<string>)
    ensures |r| == |xs| && forall i :: 0 <= i < |xs| ==> r[i] == ToStr(xs[i])
  {
    seq(|xs|, i requires 0 <= i < |xs| => ToStr(xs[i]))
  }

  /** `xs.map(x => String(x || ''))`. */
  function StrOrEach(xs: seq<Json>): (r: seq<string>)
    ensures |r| == |xs| && forall i :: 0 <= i < |xs| ==> r[i] == StrOr(xs[i])
  {
    seq(|xs|, i requires 0 <= i < |xs| => StrOr(xs[i]))
  }

  /** Trim every entry and drop the empty ones. */
  function Clean(ss: seq<string>): (r: seq<string>)
    ensures CleanList(r)
    ensures |r| <= |ss|
  {
    var t := TrimEach(ss);
    var r := KeepNonEmpty(t);
    assert forall i :: 0 <= i < |r| ==> r[i] in t;
    r
  }

  /** Exactly the non-empty strings of a list survive the filter. */
  lemma {:induction false} KeepNonEmptyMembers(ss: seq<string>, x: string)
    ensures x in KeepNonEmpty(ss) <==> x in ss && |x| > 0
  {
    if |ss| > 0 {
      KeepNonEmptyMembers(ss[1..], x);
      assert x in ss <==> x == ss[0] || x in ss[1..];
    }
  }

  /** The cleaned list holds exactly the non-empty trimmed entries. */
  lemma CleanMembers(ss: seq<string>, x: string)
    ensures x in Clean(ss) <==> |x| > 0 && exists i :: 0 <= i < |ss| && x == Trim(ss[i])
  {
    var t := TrimEach(ss);
    KeepNonEmptyMembers(t, x);
    if x in t {
      var i :| 0 <= i < |t| && t[i] == x;
      assert x == Trim(ss[i]);
    }
    if exists i :: 0 <= i < |ss| && x == Trim(ss[i]) {
      var i :| 0 <= i < |ss| && x == Trim(ss[i]);
      assert t[i] == x;
    }
  }

  /** `xs.map(x => String(x).trim()).filter(Boolean)`. */
  function CleanStrings(xs: seq<Json>): (r: seq<string>)
    ensures CleanList(r) && |r| <= |xs|
  {
    Clean(StrEach(xs))
  }

  /** `xs.map(x => String(x || '').trim()).filter(Boolean)`. */
  function CleanStringsOr(xs: seq<Json>): (r: seq<string>)
    ensures CleanList(r) && |r| <= |xs|
  {
    Clean(StrOrEach(xs))
  }

  /** Filtering distributes over concatenation, so the input order is kept. */
  lemma {:induction false} KeepNonEmptyAppend(a: seq<string>, b: seq<string>)
    ensures KeepNonEmpty(a + b) == KeepNonEmpty(a) + KeepNonEmpty(b)
  {
    if |a| == 0 {
      assert a + b == b;
    } else {
      assert (a + b)[0] == a[0] && (a + b)[1..] == a[1..] + b;
      KeepNonEmptyAppend(a[1..], b);
    }
  }

  /**
   * Cleaning works entry by entry and keeps the input order: cleaning a
   * concatenation concatenates the cleaned parts.
   */
  lemma CleanAppend(a: seq<string>, b: seq<string>)
    ensures Clean(a + b) == Clean(a) + Clean(b)
  {
    MapSeqAppend(Trim, a, b);
    KeepNonEmptyAppend(TrimEach(a), TrimEach(b));
  }

  lemma {:induction false} KeepNonEmptyOfClean(ss: seq<string>)
    requires CleanList(ss)
    ensures KeepNonEmpty(ss) == ss
  {
    if |ss| > 0 {
      KeepNonEmptyOfClean(ss[1..]);
    }
  }

  /** Cleaning a list that is already clean gives it back. */
  lemma CleanOfClean(ss: seq<string>)
    requires CleanList(ss)
    ensures Clean(ss) == ss
  {
    forall i | 0 <= i < |ss| ensures Trim(ss[i]) == ss[i] {
      TrimOfTrimmed(ss[i]);
    }
    assert TrimEach(ss) == ss;
    KeepNonEmptyOfClean(ss);
  }

  /** Cleaning is idempotent. */
  lemma CleanIdempotent(ss: seq<string>)
    ensures Clean(Clean(ss)) == Clean(ss)
  {
    CleanOfClean(Clean(ss));
  }

  /** A list of strings as a JSON array. */
  function StrPayload(ss: seq<string>): (r: seq<Json>)
    ensures |r| == |ss| && forall i :: 0 <= i < |ss| ==> r[i] == JStr(ss[i])
  {
    seq(|ss|, i requires 0 <= i < |ss| => JStr(ss[i]))
  }

  /** A clean list survives the trip through JSON and back. */
  lemma CleanStringsOfPayload(ss: seq<string>)
    requires CleanList(ss)
    ensures CleanStrings(StrPayload(ss)) == ss
    ensures CleanStringsOr(StrPayload(ss)) == ss
  {
    assert StrEach(StrPayload(ss)) == ss;
    assert StrOrEach(StrPayload(ss)) == ss;
    CleanOfClean(ss);
  }

  /** Taking a prefix of a clean list keeps it clean. */
  lemma TakeClean(ss: seq<string>, n: nat)
    requires CleanList(ss)
    ensures CleanList(Take(ss, n))
  {
    var r := Take(ss, n);
    forall i | 0 <= i < |r| ensures |r[i]| > 0 && Trimmed(r[i]) {
      assert r[i] == ss[i];
    }
  }

  /** `xs.join(sep)`. */
  function Join(xs: seq<string>, sep: string): string {
    if |xs| == 0 then "" else if |xs| == 1 then xs[0] else xs[0] + sep + Join(xs[1..], sep)
  }

  /** A joined list ends with its last entry. */
  lemma {:induction false} JoinEndsWithLast(xs: seq<string>, sep: string)
    requires |xs| > 0
    ensures var j := Join(xs, sep); var last := xs[|xs| - 1];
      |j| >= |last| && j[|j| - |last|..] == last
  {
    if |xs| > 1 {
      JoinEndsWithLast(xs[1..], sep);
      var rest := Join(xs[1..], sep);
      var last := xs[|xs| - 1];
      assert xs[1..][|xs[1..]| - 1] == last;
      var head := xs[0] + sep;
      assert Join(xs, sep) == head + rest;
      assert (head + rest)[|head + rest| - |last|..] == rest[|rest| - |last|..];
    }
  }
}
