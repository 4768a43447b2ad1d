// Decimal text: bigint printing and parsing, and the fixed-scale codecs of Quantity
// (packages/uom/src/quantity.ts) and Money (packages/money/src/money.ts).
module Digits {
  import opened Prelude
  import opened Bigint

  const DIGITS := "0123456789"

  predicate IsDigit(c: char) {
    '0' <= c <= '9'
  }

  predicate AllDigits(s: string) {
    forall i :: 0 <= i < |s| ==> IsDigit(s[i])
  }

  function DigitValue(c: char): (v: nat)
    requires IsDigit(c)
    ensures v < 10 && DIGITS[v] == c
  {
    c as int - '0' as int
  }

  // BigInt(s) for a string of digits.
  function Value(s: string): nat
    requires AllDigits(s)
  {
    if s == "" then 0 else Value(s[..|s| - 1]) * 10 + DigitValue(s[|s| - 1])
  }

  // n.toString() for a non-negative bigint.
  function Print(n: nat): (s: string)
    ensures s != "" && AllDigits(s)
    ensures Value(s) == n
    ensures n > 0 ==> s[0] != '0'
  {
    if n < 10 then [DIGITS[n]]
    else
      var s := Print(n / 10);
      assert (s + [DIGITS[n % 10]])[..|s|] == s;
      s + [DIGITS[n % 10]]
  }

  function Pow10(k: nat): (p: nat)
    ensures p > 0
  {
    if k == 0 then 1 else 10 * Pow10(k - 1)
  }

  function Zeros(k: nat): (z: string)
    ensures |z| == k && AllDigits(z)
  {
    seq(k, _ => '0')
  }

  function PadStart(s: string, width: nat): string {
    if |s| >= width then s else Zeros(width - |s|) + s
  }

  function PadEnd(s: string, width: nat): string {
    if |s| >= width then s else s + Zeros(width - |s|)
  }

  // s.replace(/0+$/, '')
  function StripTrailingZeros(s: string): (t: string)
    ensures t <= s
    ensures AllDigits(s) ==> AllDigits(t)
  {
    if s != "" && s[|s| - 1] == '0' then StripTrailingZeros(s[..|s| - 1]) else s
  }

  // s.replace(/^0+(?=\d)/, '')
  function StripLeadingZeros(s: string): string {
    if |s| > 1 && s[0] == '0' && IsDigit(s[1]) then StripLeadingZeros(s[1..]) else s
  }

  lemma {:induction false} ValueAppend(a: string, b: string)
    requires AllDigits(a) && AllDigits(b)
    ensures AllDigits(a + b)
    ensures Value(a + b) == Value(a) * Pow10(|b|) + Value(b)
  {
    if b == "" {
      assert a + b == a;
    } else {
      var init, last := b[..|b| - 1], b[|b| - 1];
      ValueAppend(a, init);
      assert a + b == (a + init) + [last];
      assert ((a + init) + [last])[..|a + init|] == a + init;
      Shift(Value(a), Pow10(|init|), Value(init), DigitValue(last));
    }
  }

  lemma Shift(a: int, p: int, v: int, d: int)
    ensures (a * p + v) * 10 + d == a * (10 * p) + (v * 10 + d)
  {
  }

  lemma {:induction false} ValueZeros(k: nat)
    ensures Value(Zeros(k)) == 0
  {
    if k > 0 {
      assert Zeros(k)[..k - 1] == Zeros(k - 1);
      ValueZeros(k - 1);
    }
  }

  lemma {:induction false} ValueBound(s: string)
    requires AllDigits(s)
    ensures Value(s) < Pow10(|s|)
  {
    if s != "" { ValueBound(s[..|s| - 1]); }
  }

  lemma ValuePadStart(s: string, width: nat)
    requires AllDigits(s)
    ensures AllDigits(PadStart(s, width)) && Value(PadStart(s, width)) == Value(s)
  {
    if |s| < width {
      ValueZeros(width - |s|);
      ValueAppend(Zeros(width - |s|), s);
    }
  }

  lemma {:induction false} ValueStripLeading(s: string)
    requires AllDigits(s)
    ensures AllDigits(StripLeadingZeros(s)) && Value(StripLeadingZeros(s)) == Value(s)
  {
    if |s| > 1 && s[0] == '0' {
      ValueStripLeading(s[1..]);
      assert s == "0" + s[1..];
      ValueAppend("0", s[1..]);
      assert Value("0") == 0;
    }
  }

  lemma {:induction false} StripThenPad(s: string)
    ensures PadEnd(StripTrailingZeros(s), |s|) == s
  {
    if s != "" && s[|s| - 1] == '0' {
      StripThenPad(s[..|s| - 1]);
      assert s == s[..|s| - 1] + "0";
    }
  }
}

module Decimal {
  import opened Prelude
  import opened Bigint
  import opened Digits

  datatype DecimalError = NotDecimal | TooManyDecimals | Overflow

  // The groups of /^(-)?(\d+)(?:\.(\d+))?$/; frac is "" when the group is absent.
  datatype Groups = Groups(neg: bool, whole: string, frac: string) {
    predicate Valid() {
      whole != "" && AllDigits(whole) && AllDigits(frac)
    }

    function Body(): string {
      whole + Fraction()
    }

    function Fraction(): string {
      if frac == "" then "" else "." + frac
    }

    function Text(): string {
      if neg then "-" + Body() else Body()
    }
  }

  function IndexOf(s: string, c: char): (i: nat)
    ensures i <= |s|
    ensures forall j :: 0 <= j < i ==> s[j] != c
    ensures i < |s| ==> s[i] == c
  {
    if s == "" || s[0] == c then 0 else 1 + IndexOf(s[1..], c)
  }

  function Match(s: string): (g: Option<Groups>)
    ensures g.Some? ==> g.value.Valid() && g.value.Text() == s
  {
    if s != "" && s[0] == '-' then
      assert s == "-" + s[1..];
      MatchBody(true, s[1..])
    else MatchBody(false, s)
  }

  function MatchBody(neg: bool, body: string): (g: Option<Groups>)
    ensures g.Some? ==> g.value.Valid() && g.value.neg == neg && g.value.Body() == body
  {
    var dot := IndexOf(body, '.');
    var whole := body[..dot];
    if whole == "" || !AllDigits(whole) then None
    else if dot == |body| then
      assert whole + "" == body;
      Some(Groups(neg, whole, ""))
    else
      var frac := body[dot + 1..];
      if frac == "" || !AllDigits(frac) then None
      else
        assert body == whole + ("." + frac);
        Some(Groups(neg, whole, frac))
  }

  // Match accepts exactly the texts of the pattern, each with its own groups.
  lemma MatchText(g: Groups)
    requires g.Valid()
    ensures Match(g.Text()) == Some(g)
  {
    DotAfterWhole(g.whole, g.Fraction());
    BodyMatches(g);
    if g.neg {
      assert ("-" + g.Body())[1..] == g.Body();
    } else {
      assert g.Body()[0] == g.whole[0];
    }
  }

  lemma BodyMatches(g: Groups)
    requires g.Valid() && IndexOf(g.Body(), '.') == |g.whole|
    ensures MatchBody(g.neg, g.Body()) == Some(g)
  {
    BodySplits(g.whole, g.frac);
    if g.frac == "" { assert g.whole + "" == g.whole; }
  }

  lemma BodySplits(whole: string, frac: string)
    ensures (whole + ("." + frac))[..|whole|] == whole && (whole + ("." + frac))[|whole| + 1..] == frac
  {
  }

  lemma DotAfterWhole(whole: string, rest: string)
    requires AllDigits(whole) && (rest == "" || rest[0] == '.')
    ensures IndexOf(whole + rest, '.') == |whole|
  {
    forall j | 0 <= j < |whole| ensures (whole + rest)[j] != '.' {
      assert IsDigit(whole[j]);
    }
    if rest != "" { assert (whole + rest)[|whole|] == '.'; }
  }

  // White space and line terminators, as String.prototype.trim removes them.
  predicate IsSpace(c: char) {
    || '\U{0009}' <= c <= '\U{000D}' || c == ' ' || c == '\U{00A0}' || c == '\U{1680}'
    || '\U{2000}' <= c <= '\U{200A}' || c == '\U{2028}' || c == '\U{2029}' || c == '\U{202F}'
    || c == '\U{205F}' || c == '\U{3000}' || c == '\U{FEFF}'
  }

  function Trim(s: string): string {
    if s != "" && IsSpace(s[0]) then Trim(s[1..])
    else if s != "" && IsSpace(s[|s| - 1]) then Trim(s[..|s| - 1])
    else s
  }

  // Decimal text with at most `scale` places to a scaled integer in [lo, hi]:
  // Quantity.parse with scale 4, Money.ofMajor with the currency's exponent.
  function Parse(input: string, scale: nat, lo: int, hi: int): Result<int, DecimalError> {
    match Match(Trim(input))
    case None => Err(NotDecimal)
    case Some(g) =>
      if |g.frac| > scale then Err(TooManyDecimals)
      else
        var v := ScaledValue(g, scale);
        if lo <= v <= hi then Ok(v) else Err(Overflow)
  }

  function ScaledValue(g: Groups, scale: nat): int
    requires g.Valid() && |g.frac| <= scale
  {
    var digits := g.whole + PadEnd(g.frac, scale);
    var n := Value(digits);
    if g.neg then -(n as int) else n
  }

  // toFixed4 with scale 4; the number in Money.toString with the currency's exponent.
  function Format(v: int, scale: nat): string {
    FormatGroups(v, scale).Text()
  }

  function FormatGroups(v: int, scale: nat): (g: Groups)
    ensures g.Valid() && |g.frac| == scale
  {
    var digits := PadStart(Print(Abs(v)), scale + 1);
    ValuePadStart(Print(Abs(v)), scale + 1);
    Groups(v < 0, digits[..|digits| - scale], digits[|digits| - scale..])
  }

  // Quantity.toString: the same without trailing zeros.
  function FormatShort(v: int, scale: nat): string {
    var g := FormatGroups(v, scale);
    Groups(g.neg, g.whole, StripTrailingZeros(g.frac)).Text()
  }

  // Money.toString: display text, the number and the currency code.
  function FormatMoney(v: int, exponent: nat, currency: string): string {
    Format(v, exponent) + " " + currency
  }

  predicate AllSpace(s: string) {
    forall i :: 0 <= i < |s| ==> IsSpace(s[i])
  }

  predicate NoSpaceAround(s: string) {
    s != "" ==> !IsSpace(s[0]) && !IsSpace(s[|s| - 1])
  }

  // Around a text that begins and ends in something else, all surrounding space goes.
  lemma {:induction false} TrimSurrounded(pre: string, core: string, post: string)
    requires AllSpace(pre) && AllSpace(post) && core != "" && NoSpaceAround(core)
    ensures Trim(pre + core + post) == core
    decreases |pre| + |post|
  {
    var s := pre + core + post;
    if pre != "" {
      assert s[0] == pre[0];
      assert s[1..] == pre[1..] + core + post;
      TrimSurrounded(pre[1..], core, post);
    } else if post != "" {
      assert s[0] == core[0] && s[|s| - 1] == post[|post| - 1];
      assert s[..|s| - 1] == pre + core + post[..|post| - 1];
      TrimSurrounded(pre, core, post[..|post| - 1]);
    } else {
      assert s == core;
    }
  }

  // And nothing else goes.
  lemma {:induction false} TrimSplits(s: string) returns (pre: string, post: string)
    ensures AllSpace(pre) && AllSpace(post) && s == pre + Trim(s) + post
  {
    pre, post := "", "";
    if s != "" && IsSpace(s[0]) {
      pre, post := TrimSplits(s[1..]);
      pre := [s[0]] + pre;
    } else if s != "" && IsSpace(s[|s| - 1]) {
      pre, post := TrimSplits(s[..|s| - 1]);
      post := post + [s[|s| - 1]];
    }
  }

  lemma DigitsNoSpace(s: string)
    requires AllDigits(s)
    ensures NoSpaceAround(s)
  {
    if s != "" { assert IsDigit(s[0]) && IsDigit(s[|s| - 1]); }
  }

  lemma TextNoSpace(g: Groups)
    requires g.Valid()
    ensures g.Text() != "" && NoSpaceAround(g.Text())
  {
    DigitsNoSpace(g.whole);
    DigitsNoSpace(g.frac);
    var s := g.Text();
    assert s[0] == if g.neg then '-' else g.whole[0];
    assert s[|s| - 1] == if g.frac == "" then g.whole[|g.whole| - 1] else g.frac[|g.frac| - 1];
  }

  // Parsing reads a text of the pattern, whatever space surrounds it, as its digits scaled
  // up, or says what is wrong with it.
  lemma ParseText(pre: string, g: Groups, post: string, scale: nat, lo: int, hi: int)
    requires g.Valid() && AllSpace(pre) && AllSpace(post)
    ensures Parse(pre + g.Text() + post, scale, lo, hi) ==
            if |g.frac| > scale then Err(TooManyDecimals)
            else if lo <= ScaledValue(g, scale) <= hi then Ok(ScaledValue(g, scale)) else Err(Overflow)
  {
    TextNoSpace(g);
    TrimSurrounded(pre, g.Text(), post);
    MatchText(g);
  }

  ghost predicate Decimals(input: string, pre: string, g: Groups, post: string) {
    g.Valid() && AllSpace(pre) && AllSpace(post) && input == pre + g.Text() + post
  }

  // It refuses as not decimal exactly the texts that are no such text in any space.
  lemma ParseRejects(input: string, scale: nat, lo: int, hi: int)
    ensures Parse(input, scale, lo, hi) == Err(NotDecimal) <==>
            forall pre: string, g: Groups, post: string :: !Decimals(input, pre, g, post)
  {
    if pre: string, g: Groups, post: string :| Decimals(input, pre, g, post) {
      ParseText(pre, g, post, scale, lo, hi);
    }
    if Match(Trim(input)).Some? {
      var pre, post := TrimSplits(input);
      assert Decimals(input, pre, Match(Trim(input)).value, post);
    }
  }

  lemma ParsePlain(g: Groups, scale: nat, lo: int, hi: int)
    requires g.Valid()
    ensures Parse(g.Text(), scale, lo, hi) ==
            if |g.frac| > scale then Err(TooManyDecimals)
            else if lo <= ScaledValue(g, scale) <= hi then Ok(ScaledValue(g, scale)) else Err(Overflow)
  {
    EmptyAround(g.Text());
    ParseText("", g, "", scale, lo, hi);
  }

  lemma EmptyAround(s: string)
    ensures "" + s + "" == s
  {
  }

  lemma ScaledFormatGroups(v: int, scale: nat)
    ensures ScaledValue(FormatGroups(v, scale), scale) == v
  {
    var digits := PadStart(Print(Abs(v)), scale + 1);
    ValuePadStart(Print(Abs(v)), scale + 1);
    assert digits == digits[..|digits| - scale] + digits[|digits| - scale..];
  }

  // Printed text parses back to the value it came from: with all its places, and
  // with trailing zeros dropped.
  lemma FormatRoundTrip(v: int, scale: nat, lo: int, hi: int)
    requires lo <= v <= hi
    ensures Parse(Format(v, scale), scale, lo, hi) == Ok(v)
    ensures Parse(FormatShort(v, scale), scale, lo, hi) == Ok(v)
  {
    var g := FormatGroups(v, scale);
    ScaledFormatGroups(v, scale);
    ParsePlain(g, scale, lo, hi);
    StripThenPad(g.frac);
    ParsePlain(Groups(g.neg, g.whole, StripTrailingZeros(g.frac)), scale, lo, hi);
  }

  // How the printed forms look: a minus sign exactly on negative values, no leading zero but a
  // single one, `scale` places in the fixed form, and in the short form those without the
  // zeros they end in.
  lemma FormatShape(v: int, scale: nat) returns (fixed: Groups, short: Groups)
    ensures fixed.Valid() && fixed.Text() == Format(v, scale) && short.Valid() && short.Text() == FormatShort(v, scale)
    ensures (fixed.neg <==> v < 0) && short.neg == fixed.neg && short.whole == fixed.whole
    ensures |fixed.whole| > 1 ==> fixed.whole[0] != '0'
    ensures |fixed.frac| == scale && short.frac <= fixed.frac
    ensures short.frac != "" ==> short.frac[|short.frac| - 1] != '0'
    ensures forall i :: |short.frac| <= i < |fixed.frac| ==> fixed.frac[i] == '0'
  {
    fixed := FormatGroups(v, scale);
    short := Groups(fixed.neg, fixed.whole, StripTrailingZeros(fixed.frac));
    StrippedShape(fixed.frac);
    var digits := PadStart(Print(Abs(v)), scale + 1);
    assert fixed.whole == digits[..|digits| - scale];
  }

  lemma {:induction false} StrippedShape(s: string)
    ensures var t := StripTrailingZeros(s);
            && t <= s && (t != "" ==> t[|t| - 1] != '0') && (forall i :: |t| <= i < |s| ==> s[i] == '0')
  {
    if s != "" && s[|s| - 1] == '0' { StrippedShape(s[..|s| - 1]); }
  }

  // Two amounts with the same text are the same amount.
  lemma FormatInjective(v: int, w: int, scale: nat)
    ensures Format(v, scale) == Format(w, scale) ==> v == w
    ensures FormatShort(v, scale) == FormatShort(w, scale) ==> v == w
  {
    FormatRoundTrip(v, scale, Min(v, w), Max(v, w));
    FormatRoundTrip(w, scale, Min(v, w), Max(v, w));
  }

  // Money.ofMajor also drops leading zeros before BigInt, which changes nothing.
  lemma LeadingZerosIrrelevant(g: Groups, scale: nat)
    requires g.Valid() && |g.frac| <= scale
    ensures AllDigits(StripLeadingZeros(g.whole + PadEnd(g.frac, scale)))
    ensures Abs(ScaledValue(g, scale)) == Value(StripLeadingZeros(g.whole + PadEnd(g.frac, scale)))
  {
    ValueStripLeading(g.whole + PadEnd(g.frac, scale));
  }

  // The number in front of the currency code of Money.toString is the amount itself.
  lemma MoneyTextRoundTrip(v: int, exponent: nat, currency: string, lo: int, hi: int)
    requires lo <= v <= hi
    ensures var text := FormatMoney(v, exponent, currency);
            && |currency| < |text| && text[|text| - |currency| - 1..] == " " + currency
            && Parse(text[..|text| - |currency| - 1], exponent, lo, hi) == Ok(v)
  {
    MoneyTextSplits(Format(v, exponent), currency);
    FormatRoundTrip(v, exponent, lo, hi);
  }

  lemma MoneyTextSplits(number: string, currency: string)
    ensures var text := number + " " + currency;
            && |text| == |number| + 1 + |currency|
            && text[..|number|] == number && text[|number|..] == " " + currency
  {
  }
}
