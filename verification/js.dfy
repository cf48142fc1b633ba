/** The slice of JavaScript semantics the application code relies on:
    dynamically typed values, truthiness, `||` and `??`, optional chaining,
    `Math.min`/`Math.max`, `Array.from({length})`, and the few string
    operations the code calls, among them `parseInt(s, 10)`.  Library
    primitives whose internals are not part of this model (String(),
    JSON.parse, base64, URI encoding,
    the SVG markup) are gathered in `Primitives`, a record of total functions
    that every operation needing them receives as a parameter. */
module Js {
  import opened Outcomes

  newtype byte = x: int | 0 <= x < 256

  /** An IEEE number as far as the code can tell them apart (`-0` is `0`). */
  datatype JsNumber = NaN | Finite(r: real) | Infinity(negative: bool)

  datatype JsValue =
    | Undefined
    | Null
    | Bool(b: bool)
    | Num(n: JsNumber)
    | Str(s: string)
    | Arr(elems: seq<JsValue>)
    | Obj(props: map<string, JsValue>)

  /** `process.env`: a variable is absent or holds a string. */
  type Env = map<string, string>

  /** Which adapter's SVG document a placeholder image is drawn with. */
  datatype SvgTemplate = NanoBananaSvg | SeedreamSvg

  /** Library primitives treated as opaque functions. */
  datatype Primitives = Primitives(
    toStr: JsValue -> string,                 // String(v) for a non-string v
    jsonParse: string -> Outcome<JsValue>,    // JSON.parse, throwing SyntaxError
    base64: seq<byte> -> string,              // Buffer#toString('base64')
    encodeUri: string -> string,              // encodeURIComponent
    svgMarkup: (SvgTemplate, string, string) -> string  // SVG text around escaped title and subtitle
  )

  predicate Nullish(v: JsValue) {
    v.Undefined? || v.Null?
  }

  predicate Truthy(v: JsValue) {
    match v
    case Undefined => false
    case Null => false
    case Bool(b) => b
    case Num(n) => !n.NaN? && n != Finite(0.0)
    case Str(s) => s != ""
    case Arr(_) => true
    case Obj(_) => true
  }

  /** `a || b` */
  function Or(a: JsValue, b: JsValue): JsValue {
    if Truthy(a) then a else b
  }

  /** `a ?? b` */
  function Coalesce(a: JsValue, b: JsValue): JsValue {
    if Nullish(a) then b else a
  }

  /** `v?.key`: the own property of an object, `undefined` for everything else
      (the properties the code reads are never found on primitives or arrays). */
  function Get(v: JsValue, key: string): JsValue {
    if v.Obj? && key in v.props then v.props[key] else Undefined
  }

  /** `v?.[i]` */
  function Index(v: JsValue, i: nat): JsValue {
    match v
    case Arr(xs) => if i < |xs| then xs[i] else Undefined
    case Str(s) => if i < |s| then Str([s[i]]) else Undefined
    case Obj(_) => Get(v, DecimalString(i))
    case _ => Undefined
  }

  /** `xs.find(p)`: the first element satisfying `p`, else `undefined`. */
  function FindFirst(xs: seq<JsValue>, p: JsValue -> bool): (r: JsValue)
    ensures r != Undefined ==> r in xs && p(r)
    ensures (forall x | x in xs :: !p(x)) ==> r == Undefined
  {
    if xs == [] then Undefined
    else if p(xs[0]) then xs[0]
    else FindFirst(xs[1..], p)
  }

  /** `find` returns the earliest match, not merely some match. */
  lemma {:induction false} FindFirstIsEarliest(xs: seq<JsValue>, p: JsValue -> bool, k: nat)
    requires k < |xs| && p(xs[k])
    requires forall j | 0 <= j < k :: !p(xs[j])
    ensures FindFirst(xs, p) == xs[k]
  {
    if k > 0 {
      assert !p(xs[0]);
      FindFirstIsEarliest(xs[1..], p, k - 1);
    }
  }

  /** `v?.find?.(p)`: only arrays have a `find` method. */
  function Find(v: JsValue, p: JsValue -> bool): JsValue {
    if v.Arr? then FindFirst(v.elems, p) else Undefined
  }

  /** `v?.slice?.(0, n)`: strings and arrays have `slice`; anything else gives `undefined`. */
  function OptionalSlice(v: JsValue, n: nat): JsValue {
    match v
    case Str(s) => Str(Take(s, n))
    case Arr(xs) => Arr(Take(xs, n))
    case _ => Undefined
  }

  /** String(v), or a template-literal hole `${v}`. */
  function Stringify(prims: Primitives, v: JsValue): string {
    if v.Str? then v.s else prims.toStr(v)
  }

  /** `process.env[name] || fallback` */
  function EnvOr(env: Env, name: string, fallback: string): (v: string)
    ensures name in env && env[name] != "" ==> v == env[name]
    ensures name !in env || env[name] == "" ==> v == fallback
  {
    if name in env && env[name] != "" then env[name] else fallback
  }

  // ---------------------------------------------------------------- numbers

  predicate NumLessEq(a: JsNumber, b: JsNumber)
    requires !a.NaN? && !b.NaN?
  {
    if a == Infinity(true) || b == Infinity(false) then true
    else if a == Infinity(false) || b == Infinity(true) then false
    else a.r <= b.r
  }

  /** Math.min(a, b) */
  function Min(a: JsNumber, b: JsNumber): JsNumber {
    if a.NaN? || b.NaN? then NaN else if NumLessEq(a, b) then a else b
  }

  /** Math.max(a, b) */
  function Max(a: JsNumber, b: JsNumber): JsNumber {
    if a.NaN? || b.NaN? then NaN else if NumLessEq(a, b) then b else a
  }

  /** `x || fallback` for a number: NaN and 0 are falsy. */
  function NumOr(x: JsNumber, fallback: JsNumber): JsNumber {
    if Truthy(Num(x)) then x else fallback
  }

  function Trunc(r: real): int {
    if r >= 0.0 then r.Floor else -((-r).Floor)
  }

  const MaxArrayLength: nat := 0xFFFF_FFFF

  /** The length `Array.from({length: x})` creates: ToLength of `x`, and a
      RangeError when that exceeds the largest array length. */
  function ArrayFromLength(x: JsNumber): (r: Outcome<nat>)
    ensures r.Ok? ==> r.value <= MaxArrayLength
    ensures x.NaN? ==> r == Ok(0)
    ensures x.Finite? && x.r < 1.0 ==> r == Ok(0)
    ensures x.Finite? && 1.0 <= x.r && x.r.Floor <= MaxArrayLength ==> r == Ok(x.r.Floor)
    ensures (x.Finite? && x.r.Floor > MaxArrayLength) || x == Infinity(false) ==> r == Threw("Invalid array length")
    ensures x == Infinity(true) ==> r == Ok(0)
  {
    match x
    case NaN => Ok(0)
    case Infinity(negative) => if negative then Ok(0) else Threw("Invalid array length")
    case Finite(v) =>
      if v < 1.0 then Ok(0)
      else if v.Floor > MaxArrayLength then Threw("Invalid array length")
      else Ok(v.Floor)
  }

  const MaxSafeInteger: nat := 0x1F_FFFF_FFFF_FFFF

  /** ToIntegerOrInfinity followed by ToLength, step by step as ECMAScript
      states them: NaN is 0, the value is truncated toward zero, and the
      result is clamped to the range 0 .. 2^53 - 1. */
  function ToLength(x: JsNumber): (n: nat)
    ensures n <= MaxSafeInteger
  {
    match x
    case NaN => 0
    case Infinity(negative) => if negative then 0 else MaxSafeInteger
    case Finite(v) =>
      var t := Trunc(v);
      if t <= 0 then 0 else if t > MaxSafeInteger then MaxSafeInteger else t
  }

  /** `Array.from({length: x})` is ToLength of `x` followed by the array
      constructor's range check, which rejects a length beyond 2^32 - 1. */
  lemma ArrayFromLengthIsCheckedToLength(x: JsNumber)
    ensures ArrayFromLength(x) == if ToLength(x) > MaxArrayLength then Threw("Invalid array length") else Ok(ToLength(x))
  {
  }

  // ---------------------------------------------------------------- strings

  /** `s.slice(0, n)` */
  function Take<X>(s: seq<X>, n: nat): (r: seq<X>)
    ensures |r| <= n && r <= s
    ensures |s| <= n ==> r == s
  {
    if |s| <= n then s else s[..n]
  }

  predicate StartsWith(s: string, prefix: string) {
    prefix <= s
  }

  /** `s.includes(sub)` */
  predicate Contains(s: string, sub: string) {
    exists i | 0 <= i <= |s| :: sub <= s[i..]
  }

  /** `s.split(c)[0]`: everything before the first `c`. */
  function BeforeFirst(s: string, c: char): (r: string)
    ensures r <= s && c !in r
    ensures c !in s ==> r == s
  {
    if s == [] || s[0] == c then [] else [s[0]] + BeforeFirst(s[1..], c)
  }

  /** WhiteSpace and LineTerminator code points, which `String#trim` removes. */
  predicate IsJsSpace(c: char) {
    || c == '\t' || c == '\n' || c == '\U{000B}' || c == '\U{000C}' || c == '\r' || c == ' '
    || c == '\U{00A0}' || c == '\U{1680}' || ('\U{2000}' <= c <= '\U{200A}')
    || c == '\U{2028}' || c == '\U{2029}' || c == '\U{202F}' || c == '\U{205F}'
    || c == '\U{3000}' || c == '\U{FEFF}'
  }

  function TrimStart(s: string): string
  {
    if s != [] && IsJsSpace(s[0]) then TrimStart(s[1..]) else s
  }

  function TrimEnd(s: string): string
  {
    if s != [] && IsJsSpace(s[|s| - 1]) then TrimEnd(s[..|s| - 1]) else s
  }

  /** `s.trim()` */
  function Trim(s: string): string
  {
    TrimEnd(TrimStart(s))
  }

  // ------------------------------------------------------ decimal numerals

  predicate IsDigit(c: char) {
    '0' <= c <= '9'
  }

  function DigitChar(d: nat): char
    requires d < 10
  {
    "0123456789"[d]
  }

  function DigitValue(c: char): nat {
    if '0' <= c <= '9' then c as int - '0' as int else 0
  }

  /** The decimal numeral of `n`, as `${n}` prints an integer. */
  function DecimalString(n: nat): (r: string)
    ensures |r| >= 1
  {
    if n < 10 then [DigitChar(n)] else DecimalString(n / 10) + [DigitChar(n % 10)]
  }

  /** Reads a string of decimal digits back into a number. */
  function DecimalValue(s: string): nat {
    if s == [] then 0 else DecimalValue(s[..|s| - 1]) * 10 + DigitValue(s[|s| - 1])
  }

  lemma {:induction false} DecimalRoundTrip(n: nat)
    ensures DecimalValue(DecimalString(n)) == n
  {
    if n >= 10 {
      var s := DecimalString(n / 10) + [DigitChar(n % 10)];
      assert s[..|s| - 1] == DecimalString(n / 10);
      DecimalRoundTrip(n / 10);
    }
  }

  lemma DecimalInjective(m: nat, n: nat)
    ensures DecimalString(m) == DecimalString(n) ==> m == n
  {
    DecimalRoundTrip(m);
    DecimalRoundTrip(n);
  }

  lemma {:induction false} DecimalStringDigits(n: nat)
    ensures forall i | 0 <= i < |DecimalString(n)| :: IsDigit(DecimalString(n)[i])
  {
    if n >= 10 {
      DecimalStringDigits(n / 10);
    }
  }

  // --------------------------------------------------------------- parseInt

  /** The longest prefix of decimal digits. */
  function DigitPrefix(s: string): (r: string)
    ensures r <= s
    ensures forall i | 0 <= i < |r| :: IsDigit(r[i])
    ensures |r| < |s| ==> !IsDigit(s[|r|])
  {
    if s == [] || !IsDigit(s[0]) then [] else [s[0]] + DigitPrefix(s[1..])
  }

  /** A string of digits is its own digit prefix. */
  lemma {:induction false} DigitPrefixOfDigits(s: string)
    requires forall i | 0 <= i < |s| :: IsDigit(s[i])
    ensures DigitPrefix(s) == s
  {
    if s != [] {
      DigitPrefixOfDigits(s[1..]);
    }
  }

  /** The text after an optional leading sign. */
  function Unsigned(s: string): string {
    if s != [] && (s[0] == '+' || s[0] == '-') then s[1..] else s
  }

  /** `parseInt(s, 10)`: leading white space is skipped, one sign is read,
      then the longest run of decimal digits; no digits at all gives NaN.
      The value is exact (the rounding of very long numerals to a double is
      not modelled). */
  function ParseInt(s: string): (r: JsNumber)
    ensures !r.Infinity?
    ensures r.NaN? <==> DigitPrefix(Unsigned(TrimStart(s))) == []
    ensures r.Finite? ==> r.r.Floor as real == r.r
    ensures r.Finite? ==> (r.r < 0.0 ==> Negated(TrimStart(s)))
  {
    var t := TrimStart(s);
    var digits := DigitPrefix(Unsigned(t));
    if digits == [] then NaN
    else
      var magnitude: int := DecimalValue(digits);
      if Negated(t) then Finite((-magnitude) as real) else Finite(magnitude as real)
  }

  predicate Negated(t: string) {
    t != [] && t[0] == '-'
  }

  /** `parseInt` reads back every numeral `${n}` prints. */
  lemma ParseIntOfDecimal(n: nat)
    ensures ParseInt(DecimalString(n)) == Finite(n as real)
  {
    var d := DecimalString(n);
    DecimalStringDigits(n);
    assert IsDigit(d[0]);
    assert TrimStart(d) == d;
    assert Unsigned(d) == d;
    DigitPrefixOfDigits(d);
    DecimalRoundTrip(n);
  }

  /** ... and the same numeral with a minus sign in front. */
  lemma ParseIntOfNegativeDecimal(n: nat)
    ensures ParseInt("-" + DecimalString(n)) == Finite(-(n as real))
  {
    var d := DecimalString(n);
    var s := "-" + d;
    DecimalStringDigits(n);
    assert TrimStart(s) == s;
    assert Unsigned(s) == d;
    DigitPrefixOfDigits(d);
    DecimalRoundTrip(n);
  }
}
