/** Decimal strings: the grammar the parser accepts and the text the printer produces. */
module DecimalText {
  import opened Wrappers
  import opened Decimals

  predicate IsDigit(c: char) {
    '0' <= c <= '9'
  }

  predicate AllDigits(s: string) {
    forall i :: 0 <= i < |s| ==> IsDigit(s[i])
  }

  function DigitOf(c: char): nat {
    if IsDigit(c) then c as int - '0' as int else 0
  }

  function DigitChar(d: nat): char
    requires d < 10
  {
    '0' + d as char
  }

  /** Where the first dot from `i` on is; the length when there is none. */
  function DotFrom(s: string, i: nat): (k: nat)
    requires i <= |s|
    ensures i <= k <= |s| && (forall j :: i <= j < k ==> s[j] != '.') && (k < |s| ==> s[k] == '.')
    decreases |s| - i
  {
    if i == |s| || s[i] == '.' then i else DotFrom(s, i + 1)
  }

  function Dot(body: string): nat {
    DotFrom(body, 0)
  }

  /** How many of the first `i` characters are fraction digits. */
  function FractionDigits(body: string, i: nat): nat {
    if Dot(body) < i then i - Dot(body) - 1 else 0
  }

  /** The number the first `i` characters spell, the dot left out. */
  function PrefixValue(body: string, i: nat): nat
    requires i <= |body|
  {
    if i == 0 then 0
    else if body[i - 1] == '.' then PrefixValue(body, i - 1)
    else PrefixValue(body, i - 1) * 10 + DigitOf(body[i - 1])
  }

  /** Digits, then optionally a dot and one to eight more digits. */
  predicate WellFormed(body: string) {
    && 0 < Dot(body)
    && (forall i :: 0 <= i < |body| && i != Dot(body) ==> IsDigit(body[i]))
    && (Dot(body) < |body| ==> 1 <= FractionDigits(body, |body|) <= MAX_DECIMAL_SCALE)
  }

  const INVALID := Error("protocol", "invalid decimal string")

  predicate IsNegative(text: string) {
    text != "" && text[0] == '-'
  }

  /** The magnitude and the number of fraction digits of a body, when it is one and fits 64 bits. */
  function Magnitude(body: string): (r: Option<(nat, nat)>)
    ensures r.Some? ==> r.value.0 <= LL_MAX && r.value.1 <= MAX_DECIMAL_SCALE
  {
    if WellFormed(body) && PrefixValue(body, |body|) <= LL_MAX
    then Some((PrefixValue(body, |body|), FractionDigits(body, |body|)))
    else None
  }

  /** What a signed decimal string means. */
  function ParseSigned(text: string): (r: Result<Decimal>)
    ensures r.Ok? ==> Canonical(r.value) && r.value.scale <= MAX_DECIMAL_SCALE && Abs(r.value.unscaled) <= LL_MAX
    ensures r.Ok? && r.value.unscaled < 0 ==> IsNegative(text)
    ensures r.Err? ==> r.error.code == "protocol"
  {
    match Magnitude(if IsNegative(text) then text[1..] else text)
    case None => Err(INVALID)
    case Some((m, scale)) =>
      var d := Decimal(if IsNegative(text) then -(m as int) else m, scale);
      NormalizedKeepsValue(d, scale);
      Ok(Normalized(d))
  }

  /** Client values: the same, without a sign. */
  function ParseDecimal(text: string): (r: Result<Decimal>)
    ensures r.Ok? ==> Canonical(r.value) && r.value.scale <= MAX_DECIMAL_SCALE && 0 <= r.value.unscaled <= LL_MAX
  {
    if IsNegative(text) then Err(INVALID) else ParseSigned(text)
  }

  lemma {:induction false} PrefixValueGrows(body: string, i: nat, j: nat)
    requires i <= j <= |body|
    ensures PrefixValue(body, i) <= PrefixValue(body, j)
  {
    if i < j {
      PrefixValueGrows(body, i, j - 1);
    }
  }

  /** The one-pass scan finds exactly the magnitude the grammar assigns. */
  method ScanBody(body: string) returns (r: Option<(nat, nat)>)
    ensures r == Magnitude(body)
  {
    if body == "" || body[0] == '.' || body[|body| - 1] == '.' {
      return None;
    }
    var unscaled, scale, inFraction, anyDigit := 0, 0, false, false;
    var i := 0;
    while i < |body|
      invariant 0 <= i <= |body|
      invariant inFraction <==> Dot(body) < i
      invariant forall j :: 0 <= j < i && j != Dot(body) ==> IsDigit(body[j])
      invariant 0 <= unscaled <= LL_MAX && unscaled == PrefixValue(body, i)
      invariant 0 <= scale <= MAX_DECIMAL_SCALE && scale == FractionDigits(body, i)
      invariant anyDigit <==> i > 0
    {
      var c := body[i];
      if c == '.' {
        if inFraction {
          return None;
        }
        inFraction := true;
      } else {
        if !IsDigit(c) {
          return None;
        }
        if inFraction && scale >= MAX_DECIMAL_SCALE {
          return None;
        }
        PrefixValueGrows(body, i + 1, |body|);
        if unscaled * 10 > LL_MAX || unscaled * 10 + DigitOf(c) > LL_MAX {
          return None;
        }
        unscaled := unscaled * 10 + DigitOf(c);
        anyDigit := true;
        if inFraction {
          scale := scale + 1;
        }
      }
      i := i + 1;
    }
    if !anyDigit {
      return None;
    }
    return Some((unscaled, scale));
  }

  method ParseSignedDecimal(text: string) returns (r: Result<Decimal>)
    ensures r == ParseSigned(text)
  {
    var negative := IsNegative(text);
    var scanned := ScanBody(if negative then text[1..] else text);
    if scanned.None? {
      return Err(INVALID);
    }
    var (magnitude, scale) := scanned.value;
    var canonical := Normalize(Decimal(if negative then -(magnitude as int) else magnitude, scale));
    return Ok(canonical);
  }

  // ---- printing ----

  function NatDigits(n: nat): (s: string)
    ensures s != "" && AllDigits(s)
  {
    if n < 10 then [DigitChar(n)] else NatDigits(n / 10) + [DigitChar(n % 10)]
  }

  function Zeros(n: nat): string {
    seq(n, _ => '0')
  }

  /** At least `width` digits, padded on the left. */
  function Padded(digits: string, width: nat): (s: string)
    ensures |s| >= width && |s| >= |digits|
    ensures AllDigits(digits) ==> AllDigits(s)
  {
    if |digits| >= width then digits else Zeros(width - |digits|) + digits
  }

  /** The dot goes before the last `scale` digits. */
  function WithDot(digits: string, scale: nat): string
    requires |digits| > scale
  {
    if scale == 0 then digits else digits[..|digits| - scale] + "." + digits[|digits| - scale..]
  }

  function Text(d: Decimal): string {
    var body := WithDot(Padded(NatDigits(Abs(d.unscaled)), d.scale + 1), d.scale);
    if d.unscaled < 0 then "-" + body else body
  }

  method DecimalToString(d: Decimal) returns (text: string)
    ensures text == Text(d)
  {
    var digits := NatDigits(Abs(d.unscaled));
    if d.scale <= 0 {
      return if d.unscaled < 0 then "-" + digits else digits;
    }
    digits := PadTo(digits, d.scale + 1);
    var split := |digits| - d.scale;
    text := digits[..split] + "." + digits[split..];
    if d.unscaled < 0 {
      text := "-" + text;
    }
  }

  method PadTo(plain: string, width: nat) returns (digits: string)
    ensures digits == Padded(plain, width)
  {
    digits := plain;
    while |digits| < width
      invariant |plain| <= |digits| && (|digits| > |plain| ==> |digits| <= width)
      invariant digits == Zeros(|digits| - |plain|) + plain
      decreases width - |digits|
    {
      assert "0" + Zeros(|digits| - |plain|) == Zeros(|digits| + 1 - |plain|);
      digits := "0" + digits;
    }
  }

  // ---- reading back what was printed ----

  /** Equal prefixes spell equal numbers. */
  lemma {:induction false} PrefixValueFrame(a: string, b: string, i: nat)
    requires i <= |a| && i <= |b| && forall j :: 0 <= j < i ==> a[j] == b[j]
    ensures PrefixValue(a, i) == PrefixValue(b, i)
  {
    if i > 0 {
      PrefixValueFrame(a, b, i - 1);
    }
  }

  lemma {:induction false} NatDigitsSpell(n: nat)
    ensures PrefixValue(NatDigits(n), |NatDigits(n)|) == n
  {
    if n >= 10 {
      NatDigitsSpell(n / 10);
      PrefixValueFrame(NatDigits(n / 10), NatDigits(n), |NatDigits(n / 10)|);
    }
  }

  /** Leading zeros spell nothing. */
  lemma {:induction false} PaddingSpellsNothing(n: nat, s: string, i: nat)
    requires i <= n + |s|
    ensures PrefixValue(Zeros(n) + s, i) == if i <= n then 0 else PrefixValue(s, i - n)
  {
    if i > 0 {
      PaddingSpellsNothing(n, s, i - 1);
    }
  }

  /** A dot inserted into a digit string changes what no prefix spells. */
  lemma {:induction false} DotSpellsNothing(digits: string, split: nat, i: nat)
    requires AllDigits(digits) && split <= |digits| && i <= |digits| + 1
    ensures PrefixValue(digits[..split] + "." + digits[split..], i)
            == PrefixValue(digits, if i <= split then i else i - 1)
  {
    if i > 0 {
      DotSpellsNothing(digits, split, i - 1);
    }
  }

  lemma {:induction false} PaddedSpells(m: nat, width: nat)
    ensures var digits := Padded(NatDigits(m), width);
            PrefixValue(digits, |digits|) == m
  {
    NatDigitsSpell(m);
    var plain := NatDigits(m);
    if |plain| < width {
      PaddingSpellsNothing(width - |plain|, plain, width);
    }
  }

  /** A dotted digit string is well formed and has the magnitude of its digits. */
  lemma {:induction false} WithDotReadsBack(digits: string, scale: nat)
    requires scale <= MAX_DECIMAL_SCALE && scale < |digits| && AllDigits(digits)
    ensures var body := WithDot(digits, scale);
            var m := PrefixValue(digits, |digits|);
            body != "" && body[0] == digits[0] && Magnitude(body) == if m <= LL_MAX then Some((m, scale)) else None
  {
    var body := WithDot(digits, scale);
    if scale > 0 {
      var split := |digits| - scale;
      DotSpellsNothing(digits, split, |digits| + 1);
      assert body[split] == '.';
      assert forall i :: 0 <= i < |body| && i != split ==> IsDigit(body[i]);
    }
  }

  /** Printing a canonical decimal of at most eight fractional digits and parsing it back returns
      it, for every 64-bit value but the least one, whose magnitude the parser cannot hold. */
  lemma {:induction false} PrintParseRoundTrip(d: Decimal)
    requires Canonical(d) && d.scale <= MAX_DECIMAL_SCALE && FitsLl(d.unscaled)
    ensures ParseSigned(Text(d)) == if d.unscaled == LL_MIN then Err(INVALID) else Ok(d)
  {
    hide ParseSigned, Magnitude, PrefixValue, WithDot, Padded, NatDigits, WellFormed;
    var digits := Padded(NatDigits(Abs(d.unscaled)), d.scale + 1);
    PaddedSpells(Abs(d.unscaled), d.scale + 1);
    WithDotReadsBack(digits, d.scale);
    SignedReadsBack(WithDot(digits, d.scale), d);
  }

  lemma {:induction false} SignedReadsBack(body: string, d: Decimal)
    requires Canonical(d) && body != "" && IsDigit(body[0])
    requires Magnitude(body) == if Abs(d.unscaled) <= LL_MAX then Some((Abs(d.unscaled), d.scale)) else None
    ensures ParseSigned(if d.unscaled < 0 then "-" + body else body)
         == if Abs(d.unscaled) <= LL_MAX then Ok(d) else Err(INVALID)
  {
    assert ("-" + body)[1..] == body;
  }
}
