/**
 * Untrusted values as the handlers see them after `JSON.parse`, and the
 * JavaScript coercions the normalisers apply to them: truthiness, property
 * access, `String(v)`, `parseInt(v, 10)` and `Number(v)`.
 *
 * `JNull` stands for both `null` and `undefined`: a missing property reads as
 * `JNull`, and every coercion in the core treats the two alike.
 */
module Json {
  import opened Strings

  datatype Option<T> = None | Some(value: T) {
    function GetOr(default: T): T {
      if Some? then value else default
    }
  }

  /** A computation that may throw a `TypeError` (reading a property of `null`). */
  datatype Result<T> = Ok(value: T) | TypeError

  datatype Json =
    | JNull
    | JBool(b: bool)
    | JNum(n: real)
    | JStr(s: string)
    | JArr(items: seq<Json>)
    | JObj(fields: map<string, Json>)

  /** JavaScript truthiness (`NaN` is not a value of this model). */
  predicate Truthy(v: Json) {
    match v
    case JNull => false
    case JBool(b) => b
    case JNum(n) => n != 0.0
    case JStr(s) => |s| > 0
    case JArr(_) => true
    case JObj(_) => true
  }

  /** `v.key`: a missing key, or a value that is not an object, reads as `JNull`. */
  function Get(v: Json, key: string): (r: Json)
    ensures !v.JObj? ==> r == JNull
  {
    if v.JObj? && key in v.fields then v.fields[key] else JNull
  }

  /** `Array.isArray(v) ? v : []`. */
  function ArrayOr(v: Json): seq<Json> {
    if v.JArr? then v.items else []
  }

  /** No element is `null`, so reading a property of each one does not throw. */
  predicate NoNull(xs: seq<Json>) {
    forall i :: 0 <= i < |xs| ==> !xs[i].JNull?
  }

  lemma NoNullAppend(a: seq<Json>, b: seq<Json>)
    requires NoNull(a) && NoNull(b)
    ensures NoNull(a + b)
  {
    forall i | 0 <= i < |a + b| ensures !(a + b)[i].JNull? {
      if i >= |a| { assert (a + b)[i] == b[i - |a|]; }
    }
  }

  /** `String(v || '')`: falsy values become the empty string. */
  function StrOr(v: Json): (r: string)
    ensures !Truthy(v) ==> |r| == 0
    ensures v.JStr? ==> r == v.s
  {
    if Truthy(v) then ToStr(v) else ""
  }

  function DigitChar(d: int): char
    requires 0 <= d < 10
  {
    ('0' as int + d) as char
  }

  /** Decimal digits of a natural number, most significant first, no leading zero. */
  function NatToStr(n: nat): (r: string)
    ensures |r| > 0 && forall i :: 0 <= i < |r| ==> IsDigit(r[i])
    ensures |r| > 1 ==> r[0] != '0'
  {
    if n < 10 then [DigitChar(n)] else NatToStr(n / 10) + [DigitChar(n % 10)]
  }

  /** Up to `fuel` digits of a fraction in [0, 1), stopping once it is exhausted. */
  function FracDigits(f: real, fuel: nat): string
    requires 0.0 <= f < 1.0
    decreases fuel
  {
    if f == 0.0 || fuel == 0 then ""
    else
      var d := (f * 10.0).Floor;
      [DigitChar(d)] + FracDigits(f * 10.0 - d as real, fuel - 1)
  }

  /** `String(n)` for a number written positionally. */
  function NumToStr(n: real): string {
    var a := if n < 0.0 then -n else n;
    var whole := a.Floor;
    var digits := NatToStr(whole) + (if a == whole as real then "" else "." + FracDigits(a - whole as real, 20));
    if n < 0.0 then "-" + digits else digits
  }

  /** `String(v)`. Arrays join their elements with commas, `null` elements as empty. */
  function ToStr(v: Json): string
    decreases v
  {
    match v
    case JNull => "null"
    case JBool(b) => if b then "true" else "false"
    case JNum(n) => NumToStr(n)
    case JStr(s) => s
    case JArr(items) => ItemsStr(items)
    case JObj(_) => "[object Object]"
  }

  /** `items.join(',')`. */
  function ItemsStr(items: seq<Json>): string
    decreases items
  {
    if |items| == 0 then ""
    else
      var head := if items[0].JNull? then "" else ToStr(items[0]);
      if |items| == 1 then head else head + "," + ItemsStr(items[1..])
  }

  /** The longest prefix made of decimal digits. */
  function LeadingDigits(s: string): (r: string)
    ensures |r| <= |s| && r == s[..|r|]
    ensures forall i :: 0 <= i < |r| ==> IsDigit(s[i])
    ensures |r| < |s| ==> !IsDigit(s[|r|])
  {
    if |s| > 0 && IsDigit(s[0]) then [s[0]] + LeadingDigits(s[1..]) else []
  }

  function DigitValue(c: char): (n: nat)
    requires IsDigit(c)
    ensures n < 10
  {
    c as int - '0' as int
  }

  /** The value of a string of decimal digits. */
  function DigitsValue(d: string): nat
    requires forall i :: 0 <= i < |d| ==> IsDigit(d[i])
  {
    if |d| == 0 then 0 else DigitsValue(d[..|d| - 1]) * 10 + DigitValue(d[|d| - 1])
  }

  /**
   * `parseInt(s, 10)`: leading white space is skipped, then an optional sign
   * and the longest run of decimal digits are read. `None` is `NaN`.
   */
  function ParseInt(s: string): Option<int>
    decreases |s|
  {
    if |s| > 0 && IsSpace(s[0]) then ParseInt(s[1..])
    else if |s| > 0 && s[0] == '-' then Negate(ParseDigits(s[1..]))
    else if |s| > 0 && s[0] == '+' then ParseDigits(s[1..])
    else ParseDigits(s)
  }

  function Negate(o: Option<int>): Option<int> {
    if o.Some? then Some(-o.value) else None
  }

  /** The value of the leading run of digits, if there is one. */
  function ParseDigits(u: string): Option<int> {
    var d := LeadingDigits(u);
    if |d| == 0 then None else Some(DigitsValue(d) as int)
  }

  /** `parseInt(v, 10)` on any value: it reads `String(v)`. */
  function ParseIntOf(v: Json): Option<int> {
    ParseInt(ToStr(v))
  }

  /** `parseInt(v || 0, 10)`: a falsy value reads as `0`. */
  function ParseIntOrZero(v: Json): Option<int> {
    ParseIntOf(if Truthy(v) then v else JNum(0.0))
  }

  function Pow10(k: nat): (p: nat)
    ensures p >= 1
  {
    if k == 0 then 1 else 10 * Pow10(k - 1)
  }

  /** A decimal literal `digits[.digits]` with at least one digit, as `Number` reads it. */
  function DecimalValue(u: string): Option<real> {
    var whole := LeadingDigits(u);
    var rest := u[|whole|..];
    if |rest| == 0 then (if |whole| == 0 then None else Some(DigitsValue(whole) as real))
    else if rest[0] != '.' then None
    else
      var frac := LeadingDigits(rest[1..]);
      if |frac| + 1 != |rest| || (|whole| == 0 && |frac| == 0) then None
      else Some(DigitsValue(whole) as real + DigitsValue(frac) as real / Pow10(|frac|) as real)
  }

  /** `Number(s)` kept only when finite: `None` is `NaN` or an infinity. */
  function StrToNumber(s: string): Option<real> {
    var t := Trim(s);
    if |t| == 0 then Some(0.0)
    else
      var neg := t[0] == '-';
      var u := if t[0] == '-' || t[0] == '+' then t[1..] else t;
      match DecimalValue(u)
      case None => None
      case Some(x) => Some(if neg then -x else x)
  }

  /** `Number(v)`, when finite. */
  function ToNumber(v: Json): Option<real> {
    match v
    case JNull => Some(0.0)
    case JBool(b) => Some(if b then 1.0 else 0.0)
    case JNum(n) => Some(n)
    case JStr(s) => StrToNumber(s)
    case JArr(_) => StrToNumber(ToStr(v))
    case JObj(_) => None
  }

  /** Reading the decimal digits of `n` gives back `n`. */
  lemma {:induction false} DigitsRoundTrip(n: nat)
    ensures DigitsValue(NatToStr(n)) == n
    ensures LeadingDigits(NatToStr(n)) == NatToStr(n)
  {
    var s := NatToStr(n);
    AllDigitsLeading(s);
    if n >= 10 {
      DigitsRoundTrip(n / 10);
      assert s[..|s| - 1] == NatToStr(n / 10);
    }
  }

  lemma {:induction false} AllDigitsLeading(s: string)
    requires forall i :: 0 <= i < |s| ==> IsDigit(s[i])
    ensures LeadingDigits(s) == s
  {
    if |s| > 0 {
      AllDigitsLeading(s[1..]);
    }
  }

  lemma NumToStrOfInt(k: int)
    ensures ToStr(JNum(k as real)) == if k < 0 then "-" + NatToStr(-k) else NatToStr(k)
  {
    var a := if k < 0 then -k else k;
    assert (if k as real < 0.0 then -(k as real) else k as real) == a as real;
    assert (a as real).Floor == a;
  }

  lemma ParseIntOfDigits(d: string)
    requires |d| > 0 && forall i :: 0 <= i < |d| ==> IsDigit(d[i])
    ensures ParseInt(d) == Some(DigitsValue(d) as int)
  {
    assert IsDigit(d[0]);
    AllDigitsLeading(d);
  }

  /** A minus sign in front of a run of digits negates what the digits read as. */
  lemma ParseIntNeg(d: string, v: int)
    requires ParseDigits(d) == Some(v)
    ensures ParseInt("-" + d) == Some(-v)
  {
    var s := "-" + d;
    assert s[0] == '-' && s[1..] == d;
  }

  lemma ParseDigitsOfDigits(d: string)
    requires |d| > 0 && forall i :: 0 <= i < |d| ==> IsDigit(d[i])
    ensures ParseDigits(d) == Some(DigitsValue(d) as int)
  {
    AllDigitsLeading(d);
  }

  /** `parseInt(String(k))` is `k` for every integer `k`. */
  lemma ParseIntOfInt(k: int)
    ensures ParseIntOf(JNum(k as real)) == Some(k)
  {
    NumToStrOfInt(k);
    var a := if k < 0 then -k else k;
    DigitsRoundTrip(a);
    if k < 0 {
      ParseDigitsOfDigits(NatToStr(a));
      ParseIntNeg(NatToStr(a), a);
    } else {
      ParseIntOfDigits(NatToStr(a));
    }
  }

  /** `parseInt(k || 0, 10)` is `k` for every integer `k`. */
  lemma ParseIntOrZeroOfInt(k: int)
    ensures ParseIntOrZero(JNum(k as real)) == Some(k)
  {
    ParseIntOfInt(k);
    ParseIntOfInt(0);
  }
}
