/**
 * The category colour validator (models/Category.js). A colour is stored
 * trimmed and must match `^hsl\(\s*\d+,\s*\d+%,\s*(6[5-9]|[7-9]\d|100)%\s*\)$`,
 * a subset of the `hsl()` notation of section 4.2.4 of CSS Color Module
 * Level 3 whose lightness is 65% to 100%.
 */
module CategoryModel {
  import opened Text

  /** The length of the longest prefix of decimal digits. */
  function DigitRun(s: string): (n: nat)
    ensures n <= |s| && AllDigits(s[..n])
    ensures n < |s| ==> !IsDigit(s[n])
  {
    if s != [] && IsDigit(s[0]) then
      var n := 1 + DigitRun(s[1..]);
      assert s[..n] == [s[0]] + s[1..][..n - 1];
      n
    else 0
  }

  /** `(6[5-9]|[7-9]\d|100)`: a lightness of 65 to 99 in two digits, or exactly 100. */
  predicate IsLightness(l: string) {
    || (|l| == 2 && ((l[0] == '6' && '5' <= l[1] <= '9') || ('7' <= l[0] <= '9' && IsDigit(l[1]))))
    || l == "100"
  }

  /** The regular expression, matched step by step on an already trimmed string. */
  predicate MatchesHsl(s: string) {
    |s| >= 4 && s[..4] == "hsl(" && HueTail(TrimStart(s[4..]))
  }

  /** `\d+,\s*` and what follows. */
  predicate HueTail(r: string) {
    var n := DigitRun(r);
    0 < n < |r| && r[n] == ',' && SaturationTail(TrimStart(r[n + 1..]))
  }

  /** `\d+%,\s*` and what follows. */
  predicate SaturationTail(r: string) {
    var n := DigitRun(r);
    0 < n && n + 1 < |r| && r[n] == '%' && r[n + 1] == ',' && LightnessTail(TrimStart(r[n + 2..]))
  }

  /** `(6[5-9]|[7-9]\d|100)%\s*\)` up to the end. */
  predicate LightnessTail(r: string) {
    var n := DigitRun(r);
    n < |r| && IsLightness(r[..n]) && r[n] == '%' && TrimStart(r[n + 1..]) == ")"
  }

  /** The `color` validator: the trimmed value matches. */
  predicate IsValidColor(v: string) {
    MatchesHsl(Trim(v))
  }

  /** `hsl(` sp1 hue `,` sp2 sat `%,` sp3 lightness `%` sp4 `)`. */
  function HslText(sp1: string, h: string, sp2: string, sat: string, sp3: string, l: string, sp4: string): string {
    "hsl(" + sp1 + (h + ("," + sp2 + (sat + ("%," + sp3 + (l + ("%" + sp4 + ")"))))))
  }

  /** The pieces of the notation: white space where allowed, non-empty digit strings for the numbers. */
  predicate IsHslParts(sp1: string, h: string, sp2: string, sat: string, sp3: string, l: string, sp4: string) {
    && AllSpaces(sp1) && AllSpaces(sp2) && AllSpaces(sp3) && AllSpaces(sp4)
    && h != [] && AllDigits(h) && sat != [] && AllDigits(sat) && l != [] && AllDigits(l)
  }

  lemma DigitIsNotSpace(c: char)
    requires IsDigit(c)
    ensures !IsSpace(c)
  {
  }

  lemma {:induction false} TrimStartOfSpaces(sp: string, rest: string)
    requires AllSpaces(sp) && (rest == [] || !IsSpace(rest[0]))
    ensures TrimStart(sp + rest) == rest
  {
    if sp != [] {
      assert (sp + rest)[1..] == sp[1..] + rest;
      TrimStartOfSpaces(sp[1..], rest);
    }
  }

  lemma {:induction false} DigitRunOfDigits(d: string, rest: string)
    requires AllDigits(d) && (rest == [] || !IsDigit(rest[0]))
    ensures DigitRun(d + rest) == |d|
  {
    if d != [] {
      assert (d + rest)[1..] == d[1..] + rest;
      DigitRunOfDigits(d[1..], rest);
    }
  }

  lemma LightnessTailOf(l: string, sp4: string)
    requires l != [] && AllDigits(l) && AllSpaces(sp4)
    ensures LightnessTail(l + ("%" + sp4 + ")")) <==> IsLightness(l)
  {
    var rest := "%" + sp4 + ")";
    var r := l + rest;
    DigitRunOfDigits(l, rest);
    assert r[..|l|] == l;
    assert r[|l| + 1..] == sp4 + ")" by {
      assert r[|l|..] == rest;
    }
    TrimStartOfSpaces(sp4, ")");
    LightnessTailFrom(r, |l|);
  }

  lemma LightnessTailFrom(r: string, n: nat)
    requires DigitRun(r) == n < |r| && r[n] == '%' && TrimStart(r[n + 1..]) == ")"
    ensures LightnessTail(r) <==> IsLightness(r[..n])
  {
  }

  lemma SaturationTailOf(sat: string, sp3: string, x: string)
    requires sat != [] && AllDigits(sat) && AllSpaces(sp3) && x != [] && IsDigit(x[0])
    ensures SaturationTail(sat + ("%," + sp3 + x)) <==> LightnessTail(x)
  {
    var tail := "%," + sp3 + x;
    var r := sat + tail;
    assert tail[0] == '%' && tail[1] == ',' && tail[2..] == sp3 + x;
    DigitRunOfDigits(sat, tail);
    assert r[|sat|..] == tail;
    DigitIsNotSpace(x[0]);
    TrimStartOfSpaces(sp3, x);
    assert TrimStart(r[|sat| + 2..]) == x;
  }

  lemma HueTailOf(h: string, sp2: string, x: string)
    requires h != [] && AllDigits(h) && AllSpaces(sp2) && x != [] && IsDigit(x[0])
    ensures HueTail(h + ("," + sp2 + x)) <==> SaturationTail(x)
  {
    var rest := "," + sp2 + x;
    var r := h + rest;
    DigitRunOfDigits(h, rest);
    assert r[|h| + 1..] == sp2 + x by {
      assert r[|h|..] == rest;
    }
    DigitIsNotSpace(x[0]);
    TrimStartOfSpaces(sp2, x);
    HueTailFrom(r, |h|, x);
  }

  lemma HueTailFrom(r: string, n: nat, x: string)
    requires DigitRun(r) == n && 0 < n < |r| && r[n] == ',' && TrimStart(r[n + 1..]) == x
    ensures HueTail(r) <==> SaturationTail(x)
  {
  }

  lemma MatchesOf(sp1: string, x: string)
    requires AllSpaces(sp1) && x != [] && IsDigit(x[0])
    ensures MatchesHsl("hsl(" + sp1 + x) <==> HueTail(x)
  {
    var s := "hsl(" + sp1 + x;
    assert s[..4] == "hsl(" && s[4..] == sp1 + x;
    DigitIsNotSpace(x[0]);
    TrimStartOfSpaces(sp1, x);
  }

  /**
   * A string built from the pieces is accepted exactly when its lightness is
   * one the validator allows: hue and saturation are never range checked.
   */
  lemma HslTextMatches(sp1: string, h: string, sp2: string, sat: string, sp3: string, l: string, sp4: string)
    requires IsHslParts(sp1, h, sp2, sat, sp3, l, sp4)
    ensures MatchesHsl(HslText(sp1, h, sp2, sat, sp3, l, sp4)) <==> IsLightness(l)
  {
    var x3 := l + ("%" + sp4 + ")");
    var x2 := sat + ("%," + sp3 + x3);
    var x1 := h + ("," + sp2 + x2);
    assert HslText(sp1, h, sp2, sat, sp3, l, sp4) == "hsl(" + sp1 + x1;
    LightnessTailOf(l, sp4);
    SaturationTailOf(sat, sp3, x3);
    HueTailOf(h, sp2, x2);
    MatchesOf(sp1, x1);
  }

  /** Splits a string at the end of its leading white space. */
  lemma SplitSpaces(t: string) returns (sp: string)
    ensures AllSpaces(sp) && t == sp + TrimStart(t)
  {
    sp := t[..|t| - |TrimStart(t)|];
  }

  /** Splits a string at the end of its leading digits. */
  lemma SplitDigits(t: string) returns (d: string, rest: string)
    ensures AllDigits(d) && |d| == DigitRun(t) && t == d + rest
  {
    d, rest := t[..DigitRun(t)], t[DigitRun(t)..];
  }

  lemma PercentThenClose(t: string, sp4: string)
    requires |t| > 0 && t[0] == '%' && t[1..] == sp4 + ")"
    ensures t == "%" + sp4 + ")"
  {
    assert t == "%" + t[1..];
  }

  lemma PercentCommaThen(t: string, sp3: string, x: string)
    requires |t| > 1 && t[0] == '%' && t[1] == ',' && t[2..] == sp3 + x
    ensures t == "%," + sp3 + x
  {
    assert t == "%," + t[2..];
  }

  lemma CommaThen(t: string, sp2: string, x: string)
    requires |t| > 0 && t[0] == ',' && t[1..] == sp2 + x
    ensures t == "," + sp2 + x
  {
    assert t == "," + t[1..];
  }

  lemma LightnessTailParts(r: string) returns (l: string, sp4: string)
    requires LightnessTail(r)
    ensures IsLightness(l) && AllDigits(l) && AllSpaces(sp4) && r == l + ("%" + sp4 + ")")
  {
    var t;
    l, t := SplitDigits(r);
    sp4 := SplitSpaces(t[1..]);
    PercentThenClose(t, sp4);
  }

  lemma SaturationTailParts(r: string) returns (sat: string, sp3: string, x: string)
    requires SaturationTail(r)
    ensures sat != [] && AllDigits(sat) && AllSpaces(sp3) && LightnessTail(x) && r == sat + ("%," + sp3 + x)
  {
    var t;
    sat, t := SplitDigits(r);
    sp3 := SplitSpaces(t[2..]);
    x := TrimStart(t[2..]);
    PercentCommaThen(t, sp3, x);
  }

  lemma HueTailParts(r: string) returns (h: string, sp2: string, x: string)
    requires HueTail(r)
    ensures h != [] && AllDigits(h) && AllSpaces(sp2) && SaturationTail(x) && r == h + ("," + sp2 + x)
  {
    var t;
    h, t := SplitDigits(r);
    sp2 := SplitSpaces(t[1..]);
    x := TrimStart(t[1..]);
    CommaThen(t, sp2, x);
  }

  /** Every accepted string is built from the pieces: the other half of the characterisation. */
  lemma MatchDecomposes(s: string) returns (sp1: string, h: string, sp2: string, sat: string, sp3: string, l: string, sp4: string)
    requires MatchesHsl(s)
    ensures IsHslParts(sp1, h, sp2, sat, sp3, l, sp4) && IsLightness(l)
    ensures s == HslText(sp1, h, sp2, sat, sp3, l, sp4)
  {
    sp1 := SplitSpaces(s[4..]);
    var x1, x2;
    h, sp2, x1 := HueTailParts(TrimStart(s[4..]));
    sat, sp3, x2 := SaturationTailParts(x1);
    l, sp4 := LightnessTailParts(x2);
    OpenThen(s, sp1, TrimStart(s[4..]));
  }

  lemma OpenThen(s: string, sp1: string, x: string)
    requires |s| >= 4 && s[..4] == "hsl(" && s[4..] == sp1 + x
    ensures s == "hsl(" + sp1 + x
  {
    assert s == s[..4] + s[4..];
  }

  function Pow10(n: nat): nat {
    if n == 0 then 1 else 10 * Pow10(n - 1)
  }

  /** A numeral without a leading zero is at least the power of ten below its length. */
  lemma {:induction false} DecimalLowerBound(s: string)
    requires s != [] && AllDigits(s) && s[0] != '0'
    ensures DecimalValue(s) >= Pow10(|s| - 1)
  {
    if |s| > 1 {
      var p := s[..|s| - 1];
      assert p[0] == s[0];
      DecimalLowerBound(p);
    }
  }

  lemma AtLeastThousand(s: string)
    requires |s| >= 4 && AllDigits(s) && s[0] != '0'
    ensures DecimalValue(s) >= 1000
  {
    DecimalLowerBound(s);
    PowMonotone(3, |s| - 1);
  }

  /** The lightness pattern accepts exactly the numerals of 65 to 100 written without a leading zero. */
  lemma LightnessIsRange(l: string)
    ensures IsLightness(l) <==> (l != [] && AllDigits(l) && l[0] != '0' && 65 <= DecimalValue(l) <= 100)
  {
    if l != [] && AllDigits(l) {
      if |l| >= 4 {
        if l[0] != '0' { AtLeastThousand(l); }
      } else if |l| == 3 {
        ThreeDigitValue(l);
        assert l == [l[0], l[1], l[2]];
      } else if |l| == 2 {
        TwoDigitValue(l);
      } else {
        assert l[..0] == [];
      }
    }
  }

  lemma ThreeDigitValue(l: string)
    requires |l| == 3 && AllDigits(l)
    ensures DecimalValue(l) == DigitValue(l[0]) * 100 + DigitValue(l[1]) * 10 + DigitValue(l[2])
  {
    var p := l[..2];
    assert p[0] == l[0] && p[1] == l[1];
    TwoDigitValue(p);
  }

  lemma {:induction false} PowMonotone(a: nat, b: nat)
    requires a <= b
    ensures Pow10(a) <= Pow10(b)
  {
    if a < b { PowMonotone(a, b - 1); }
  }

  /** The seeded colour hsl(200, 50%, 70%) is accepted. */
  lemma SeedColourAccepted(h: string, sat: string, l: string, sp: string)
    requires h == "200" && sat == "50" && l == "70" && sp == " "
    ensures MatchesHsl(HslText("", h, sp, sat, sp, l, ""))
  {
    HslTextMatches("", h, sp, sat, sp, l, "");
  }

  /** hsl(0, 60%, 64%) is rejected: its lightness is below 65%. */
  lemma DarkColourRejected(h: string, sat: string, l: string, sp: string)
    requires h == "0" && sat == "60" && l == "64" && sp == " "
    ensures !MatchesHsl(HslText("", h, sp, sat, sp, l, ""))
  {
    assert !IsLightness(l) by { assert l[0] == '6' && l[1] == '4' && |l| == 2; }
    HslTextMatches("", h, sp, sat, sp, l, "");
  }
}
