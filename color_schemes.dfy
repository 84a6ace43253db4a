/** The fixed palette table and the quantised colour sampler of
    app/color_schemes.py. */
module ColorSchemes {
  import opened Common

  /** One 8-bit colour channel. */
  type Channel = x: int | 0 <= x < 256

  datatype Rgb = Rgb(r: Channel, g: Channel, b: Channel)

  /** A named, ordered list of anchor colours. */
  datatype Scheme = Scheme(name: string, colors: seq<Rgb>)

  /** `get_color_schemes()`: the four built-in palettes. */
  function Schemes(): (table: map<string, Scheme>)
    ensures forall k :: k in table ==> |table[k].colors| > 0
  {
    map[
      "Original" := Scheme("Original", [
        Rgb(75, 107, 169), Rgb(115, 147, 202), Rgb(170, 200, 247), Rgb(193, 213, 208),
        Rgb(245, 239, 103), Rgb(252, 230, 74), Rgb(239, 156, 21), Rgb(234, 123, 0),
        Rgb(234, 74, 0), Rgb(234, 38, 0)]),
      "Nuanced" := Scheme("Nuanced", [
        Rgb(49, 54, 149), Rgb(69, 117, 180), Rgb(116, 173, 209), Rgb(171, 217, 233),
        Rgb(224, 243, 248), Rgb(255, 255, 191), Rgb(254, 224, 144), Rgb(253, 174, 97),
        Rgb(244, 109, 67), Rgb(215, 48, 39), Rgb(165, 0, 38)]),
      "Multi-Colored" := Scheme("Multi-Colored", [
        Rgb(4, 25, 145), Rgb(7, 48, 224), Rgb(7, 88, 255), Rgb(1, 232, 255),
        Rgb(97, 246, 156), Rgb(166, 249, 86), Rgb(254, 244, 1), Rgb(255, 121, 0),
        Rgb(239, 39, 0), Rgb(138, 17, 0)]),
      "Parula" := Scheme("Parula", [
        Rgb(52, 62, 175), Rgb(2, 99, 225), Rgb(7, 155, 207), Rgb(36, 180, 170),
        Rgb(107, 190, 130), Rgb(232, 185, 78), Rgb(252, 203, 47), Rgb(248, 250, 13)])
    ]
  }

  /** `get_default_color_scheme()`. */
  function DefaultColorScheme(): (name: string)
    ensures name in Schemes()
  {
    "Original"
  }

  /** Every palette is non-empty, is filed under its own name, and the default is present. */
  lemma SchemesWellFormed()
    ensures forall k :: k in Schemes() ==> Schemes()[k].name == k && |Schemes()[k].colors| > 0
    ensures "Original" in Schemes()
    ensures Schemes().Keys == {"Original", "Nuanced", "Multi-Colored", "Parula"}
  {
  }

  /* ---------- hex formatting ---------- */

  predicate IsLowerHexDigit(ch: char)
  {
    ('0' <= ch <= '9') || ('a' <= ch <= 'f')
  }

  /** Inverse of one `02x` digit; -1 for anything that is not a lower-case hex digit. */
  function DigitValue(ch: char): int
  {
    if '0' <= ch <= '9' then ch as int - '0' as int
    else if 'a' <= ch <= 'f' then ch as int - 'a' as int + 10
    else -1
  }

  function HexDigit(d: int): (ch: char)
    requires 0 <= d < 16
    ensures IsLowerHexDigit(ch) && DigitValue(ch) == d
  {
    if d < 10 then ('0' as int + d) as char else ('a' as int + d - 10) as char
  }

  /** `f'{n:02x}'` for a channel: two lower-case digits, high nibble first. */
  function Hex2(n: Channel): (s: string)
    ensures |s| == 2 && IsLowerHexDigit(s[0]) && IsLowerHexDigit(s[1])
    ensures 16 * DigitValue(s[0]) + DigitValue(s[1]) == n
  {
    [HexDigit(n / 16), HexDigit(n % 16)]
  }

  /** `rgb_to_hex`: '#' then two lower-case hex digits per channel, in R, G, B order. */
  function RgbToHex(c: Rgb): (s: string)
    ensures |s| == 7 && s[0] == '#'
    ensures forall i :: 1 <= i < 7 ==> IsLowerHexDigit(s[i])
    ensures 16 * DigitValue(s[1]) + DigitValue(s[2]) == c.r
    ensures 16 * DigitValue(s[3]) + DigitValue(s[4]) == c.g
    ensures 16 * DigitValue(s[5]) + DigitValue(s[6]) == c.b
  {
    "#" + Hex2(c.r) + Hex2(c.g) + Hex2(c.b)
  }

  /** Reads a `#rrggbb` string back; the partner of RgbToHex. */
  function ParseHex(s: string): Option<Rgb>
  {
    if |s| == 7 && s[0] == '#' && (forall i :: 1 <= i < 7 ==> IsLowerHexDigit(s[i])) then
      Some(Rgb(16 * DigitValue(s[1]) + DigitValue(s[2]),
               16 * DigitValue(s[3]) + DigitValue(s[4]),
               16 * DigitValue(s[5]) + DigitValue(s[6])))
    else None
  }

  lemma HexRoundTrip(c: Rgb)
    ensures ParseHex(RgbToHex(c)) == Some(c)
  {
  }

  /** Distinct colours never share a hex string. */
  lemma RgbToHexInjective(c: Rgb, d: Rgb)
    requires RgbToHex(c) == RgbToHex(d)
    ensures c == d
  {
    HexRoundTrip(c);
    HexRoundTrip(d);
  }

  /* ---------- quantised sampling ---------- */

  /** Line 77: `(value - min) / (max - min)`, or 0 on a degenerate domain. */
  function Normalized(value: real, minValue: real, maxValue: real): (t: real)
    ensures maxValue <= minValue || value == minValue ==> t == 0.0
    ensures minValue <= value <= maxValue ==> 0.0 <= t <= 1.0
  {
    if maxValue > minValue then
      var d := maxValue - minValue;
      if minValue <= value <= maxValue then
        DivideMonotone(0.0, value - minValue, d);
        DivideMonotone(value - minValue, d, d);
        SelfDivide(d);
        (value - minValue) / d
      else (value - minValue) / d
    else 0.0
  }

  /** Python's `int()` on a number: truncation toward zero. */
  function TruncateTowardZero(x: real): (n: int)
    ensures x >= 0.0 ==> 0 <= n && n as real <= x < n as real + 1.0
    ensures x < 0.0 ==> n <= 0 && n as real - 1.0 < x <= n as real
  {
    if x >= 0.0 then x.Floor else -((-x).Floor)
  }

  /** Line 86: `max(0, min(index, n - 1))`. */
  function Clamp(i: int, n: nat): (k: nat)
    requires n > 0
    ensures k < n
    ensures 0 <= i < n ==> k == i
    ensures i < 0 ==> k == 0
    ensures i >= n ==> k == n - 1
  {
    if i < 0 then 0 else if i > n - 1 then n - 1 else i
  }

  /** Lines 84-86: the anchor index chosen for `value` among `n` anchors. */
  function AnchorIndex(n: nat, value: real, minValue: real, maxValue: real): (k: nat)
    requires n > 0
    ensures k < n
  {
    Clamp(TruncateTowardZero(Normalized(value, minValue, maxValue) * (n - 1) as real), n)
  }

  /** `sample_color_scheme`: the hex string of one anchor, never a blend. */
  function SampleColorScheme(scheme: Scheme, value: real, minValue: real, maxValue: real): (hex: string)
    requires |scheme.colors| > 0
    ensures exists i :: 0 <= i < |scheme.colors| && hex == RgbToHex(scheme.colors[i])
  {
    RgbToHex(scheme.colors[AnchorIndex(|scheme.colors|, value, minValue, maxValue)])
  }

  /** After the clamp, truncation toward zero and floor pick the same index. */
  lemma TruncationAgreesWithFloor(x: real, n: nat)
    requires n > 0
    ensures Clamp(TruncateTowardZero(x), n) == Clamp(x.Floor, n)
  {
    if x < 0.0 {
      assert (-x).Floor >= 0;
      assert x.Floor < 0;
    }
  }

  /** A degenerate domain (`max <= min`) always yields the first anchor. */
  lemma DegenerateDomainGivesFirstAnchor(scheme: Scheme, value: real, minValue: real, maxValue: real)
    requires |scheme.colors| > 0
    requires maxValue <= minValue
    ensures SampleColorScheme(scheme, value, minValue, maxValue) == RgbToHex(scheme.colors[0])
  {
    assert Normalized(value, minValue, maxValue) == 0.0;
  }

  /** On a proper domain the minimum picks index 0 ... */
  lemma AnchorIndexAtMin(n: nat, minValue: real, maxValue: real)
    requires n > 0 && maxValue > minValue
    ensures AnchorIndex(n, minValue, minValue, maxValue) == 0
  {
    assert Normalized(minValue, minValue, maxValue) == 0.0;
  }

  /** ... and the maximum picks index n - 1. */
  lemma AnchorIndexAtMax(n: nat, minValue: real, maxValue: real)
    requires n > 0 && maxValue > minValue
    ensures AnchorIndex(n, maxValue, minValue, maxValue) == n - 1
  {
    var d := maxValue - minValue;
    SelfDivide(d);
    assert Normalized(maxValue, minValue, maxValue) == 1.0;
    assert 1.0 * (n - 1) as real == (n - 1) as real;
    assert ((n - 1) as real).Floor == n - 1;
  }

  /** On a proper domain the minimum maps to the first anchor and the maximum to the last. */
  lemma EndpointsGiveEndAnchors(scheme: Scheme, minValue: real, maxValue: real)
    requires |scheme.colors| > 0
    requires maxValue > minValue
    ensures SampleColorScheme(scheme, minValue, minValue, maxValue) == RgbToHex(scheme.colors[0])
    ensures SampleColorScheme(scheme, maxValue, minValue, maxValue)
         == RgbToHex(scheme.colors[|scheme.colors| - 1])
  {
    AnchorIndexAtMin(|scheme.colors|, minValue, maxValue);
    AnchorIndexAtMax(|scheme.colors|, minValue, maxValue);
  }

  lemma DivideMonotone(x: real, y: real, d: real)
    requires x <= y && d > 0.0
    ensures x / d <= y / d
  {
    assert y / d - x / d == (y - x) / d;
  }

  lemma SelfDivide(d: real)
    requires d > 0.0
    ensures d / d == 1.0
  {
  }

  lemma MultiplyMonotone(x: real, y: real, m: real)
    requires x <= y && m >= 0.0
    ensures x * m <= y * m
  {
    assert y * m - x * m == (y - x) * m;
  }

  lemma TruncateMonotone(x: real, y: real)
    requires x <= y
    ensures TruncateTowardZero(x) <= TruncateTowardZero(y)
  {
    if x >= 0.0 {
      assert x.Floor <= y.Floor;
    } else if y >= 0.0 {
      assert (-x).Floor >= 0;
    } else {
      assert (-y).Floor <= (-x).Floor;
    }
  }

  /** On a proper domain a larger value never picks an earlier anchor. */
  lemma AnchorIndexMonotone(n: nat, v1: real, v2: real, minValue: real, maxValue: real)
    requires n > 0
    requires maxValue > minValue
    requires v1 <= v2
    ensures AnchorIndex(n, v1, minValue, maxValue) <= AnchorIndex(n, v2, minValue, maxValue)
  {
    DivideMonotone(v1 - minValue, v2 - minValue, maxValue - minValue);
    MultiplyMonotone(Normalized(v1, minValue, maxValue), Normalized(v2, minValue, maxValue), (n - 1) as real);
    TruncateMonotone(Normalized(v1, minValue, maxValue) * (n - 1) as real,
                     Normalized(v2, minValue, maxValue) * (n - 1) as real);
  }

  /** The step-function reading: inside the domain the index is the floor of
      `normalized * (n - 1)`, which lies in `[k, k + 1)`. */
  lemma AnchorIndexIsFloor(n: nat, value: real, minValue: real, maxValue: real)
    requires n > 0
    requires maxValue > minValue && minValue <= value <= maxValue
    ensures var x := Normalized(value, minValue, maxValue) * (n - 1) as real;
            var k := AnchorIndex(n, value, minValue, maxValue);
            k as real <= x < k as real + 1.0
  {
    var t := Normalized(value, minValue, maxValue);
    var m := (n - 1) as real;
    MultiplyMonotone(0.0, t, m);
    MultiplyMonotone(t, 1.0, m);
    var x := t * m;
    assert 0.0 * m == 0.0 && 1.0 * m == m;
    assert 0.0 <= x <= m;
    assert x.Floor <= n - 1;
  }
}
