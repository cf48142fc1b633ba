/** What the two image adapters (lib/nanoBanana.js and lib/seedream.js)
    share: the escaping of placeholder text, the SVG placeholder data URL,
    the `{ images }` object they resolve to, and the clamp of the requested
    image count on their live paths. */
module Providers {
  import opened Outcomes
  import opened Js

  // --------------------------------------------------------------- escaping

  /** `s.replace(/c/g, rep)` for a single character `c`. */
  function ReplaceAll(s: string, c: char, rep: string): (r: string)
    ensures c !in rep ==> c !in r
  {
    if s == [] then [] else (if s[0] == c then rep else [s[0]]) + ReplaceAll(s[1..], c, rep)
  }

  /** `esc`: ampersands first, then less-than signs; no `<` is left. */
  function Esc(s: string): (r: string)
    ensures '<' !in r
  {
    ReplaceAll(ReplaceAll(s, '&', "&amp;"), '<', "&lt;")
  }

  /** The escape of one character. */
  function EscapeChar(c: char): string {
    if c == '&' then "&amp;" else if c == '<' then "&lt;" else [c]
  }

  /** Character-by-character escaping, the single-pass reading of `esc`. */
  function EscapeEach(s: string): (r: string)
    ensures '<' !in r
  {
    if s == [] then [] else EscapeChar(s[0]) + EscapeEach(s[1..])
  }

  lemma {:induction false} ReplaceAllConcat(a: string, b: string, c: char, rep: string)
    ensures ReplaceAll(a + b, c, rep) == ReplaceAll(a, c, rep) + ReplaceAll(b, c, rep)
  {
    if a != [] {
      assert (a + b)[1..] == a[1..] + b;
      ReplaceAllConcat(a[1..], b, c, rep);
    } else {
      assert a + b == b;
    }
  }

  /** The two passes of `esc` do not interfere: the `&` that the second pass
      writes is never rewritten by the first, so `esc` escapes each character
      on its own. */
  lemma {:induction false} EscIsPerCharacter(s: string)
    ensures Esc(s) == EscapeEach(s)
  {
    if s != [] {
      var x := s[0];
      var once := ReplaceAll(s, '&', "&amp;");
      var head := if x == '&' then "&amp;" else [x];
      assert once == head + ReplaceAll(s[1..], '&', "&amp;");
      ReplaceAllConcat(head, ReplaceAll(s[1..], '&', "&amp;"), '<', "&lt;");
      assert ReplaceAll(head, '<', "&lt;") == EscapeChar(x) by {
        if x == '&' {
          assert head == ['&'] + "amp;";
          assert ReplaceAll("amp;", '<', "&lt;") == "amp;" by {
            assert ReplaceAll(";", '<', "&lt;") == ";";
          }
        } else {
          assert head == [x] + [];
        }
      }
      EscIsPerCharacter(s[1..]);
    }
  }

  /** Entity decoding of the two entities `esc` writes. */
  function Unescape(s: string): string
    decreases |s|
  {
    if s == [] then []
    else if "&amp;" <= s then "&" + Unescape(s[5..])
    else if "&lt;" <= s then "<" + Unescape(s[4..])
    else [s[0]] + Unescape(s[1..])
  }

  lemma {:induction false} UnescapeEscapeEach(s: string)
    ensures Unescape(EscapeEach(s)) == s
  {
    if s != [] {
      var rest := EscapeEach(s[1..]);
      var e := EscapeEach(s);
      assert e == EscapeChar(s[0]) + rest;
      if s[0] == '&' {
        assert "&amp;" <= e;
        assert e[5..] == rest;
      } else if s[0] == '<' {
        assert e[1] == 'l';
        assert "&lt;" <= e;
        assert e[4..] == rest;
      } else {
        assert e[0] == s[0];
        assert e[1..] == rest;
      }
      UnescapeEscapeEach(s[1..]);
    }
  }

  /** A reader of the SVG gets back exactly the title and subtitle. */
  lemma EscRoundTrip(s: string)
    ensures Unescape(Esc(s)) == s
  {
    EscIsPerCharacter(s);
    UnescapeEscapeEach(s);
  }

  /** Distinct texts stay distinct once escaped. */
  lemma EscInjective(s: string, t: string)
    ensures Esc(s) == Esc(t) ==> s == t
  {
    EscRoundTrip(s);
    EscRoundTrip(t);
  }

  /** Text without `&` and `<` is embedded as it is. */
  lemma {:induction false} EscPlainText(s: string)
    requires '&' !in s && '<' !in s
    ensures Esc(s) == s
  {
    EscIsPerCharacter(s);
    EscapeEachPlain(s);
  }

  lemma {:induction false} EscapeEachPlain(s: string)
    requires '&' !in s && '<' !in s
    ensures EscapeEach(s) == s
  {
    if s != [] {
      assert s[0] != '&' && s[0] != '<';
      EscapeEachPlain(s[1..]);
      assert s == [s[0]] + s[1..];
    }
  }

  // ------------------------------------------------------------ placeholder

  const SvgDataPrefix := "data:image/svg+xml;utf8,"

  /** `svgDataUrl({title, subtitle})`: the escaped texts dropped into the
      adapter's SVG document, URI-encoded behind an SVG data-URL prefix. */
  function SvgDataUrl(prims: Primitives, template: SvgTemplate, title: string, subtitle: string): (r: string)
    ensures StartsWith(r, SvgDataPrefix) && StartsWith(r, "data:")
  {
    var r := SvgDataPrefix + prims.encodeUri(prims.svgMarkup(template, Esc(title), Esc(subtitle)));
    assert r[..|SvgDataPrefix|] == SvgDataPrefix;
    assert r[..5] == "data:";
    r
  }

  /** A mock placeholder's subtitle: the head, a separator, then the
      placeholder's number. */
  function NumberedSubtitle(head: string, sep: string, n: nat): (r: string)
    ensures |r| == |head| + |sep| + |DecimalString(n)|
    ensures r[..|head|] == head
    ensures r[|head| + |sep|..] == DecimalString(n)
  {
    var r := head + sep + DecimalString(n);
    assert r[..|head|] == head;
    assert r[|head| + |sep|..] == DecimalString(n);
    r
  }

  /** Placeholders with different numbers have different subtitles. */
  lemma NumberedSubtitlesDistinct(head: string, sep: string, m: nat, n: nat)
    requires m != n
    ensures NumberedSubtitle(head, sep, m) != NumberedSubtitle(head, sep, n)
  {
    DecimalInjective(m, n);
  }

  /** The `{ images }` object an adapter resolves to. */
  function ImagesObject(images: seq<JsValue>): JsValue {
    Obj(map["images" := Arr(images)])
  }

  /** Strings as JavaScript values. */
  function Strs(xs: seq<string>): (r: seq<JsValue>)
    ensures |r| == |xs| && forall i | 0 <= i < |xs| :: r[i] == Str(xs[i])
  {
    seq(|xs|, i requires 0 <= i < |xs| => Str(xs[i]))
  }

  // ------------------------------------------------------------ live count

  /** `Math.max(1, Math.min(8, Number(count) || 1))` for a numeric `count`. */
  function LiveCount(count: JsNumber): (n: real)
    ensures 1.0 <= n <= 8.0
    ensures count.NaN? || count == Finite(0.0) ==> n == 1.0
    ensures count.Finite? && 1.0 <= count.r <= 8.0 ==> n == count.r
    ensures count.Finite? && count.r > 8.0 ==> n == 8.0
    ensures count.Finite? && count.r < 1.0 ==> n == 1.0
    ensures count.Infinity? ==> n == if count.negative then 1.0 else 8.0
  {
    var clamped := Max(Finite(1.0), Min(Finite(8.0), NumOr(count, Finite(1.0))));
    match clamped
    case Finite(v) => v
    case _ => assert false; 1.0
  }

  /** The smallest integer at or above `x`. */
  function Ceiling(x: real): (k: int)
    ensures (k - 1) as real < x <= k as real
  {
    if x.Floor as real == x then x.Floor else x.Floor + 1
  }

  /** How many times `for (let i = 0; i < n; i++)` runs for the clamped `n`:
      between one and eight, and exactly `n` when `n` is a whole number. */
  function LiveIterations(count: JsNumber): (k: nat)
    ensures 1 <= k <= 8
    ensures (k - 1) as real < LiveCount(count) <= k as real
  {
    Ceiling(LiveCount(count))
  }
}
