/**
 Decimal amounts: stroops printed as decimals and read back by two parsers, and basis points
 applied off chain as the escrow applies them on chain.
 */
module Money {
  import opened Prelude
  import E = EscrowRules

  const STROOPS_PER_UNIT: nat := 10_000_000
  const DECIMALS: nat := 7

  /* ------------------------------ digits ------------------------------ */

  predicate IsDigit(c: char) { '0' <= c <= '9' }

  predicate AllDigits(s: string) { forall i :: 0 <= i < |s| ==> IsDigit(s[i]) }

  predicate AllZeros(s: string) { forall i :: 0 <= i < |s| ==> s[i] == '0' }

  function DigitOf(d: nat): (c: char)
    requires d < 10
    ensures IsDigit(c)
  {
    '0' + d as char
  }

  /** `toString` of a natural number. */
  function Digits(n: nat): (s: string)
    ensures s != [] && AllDigits(s)
  {
    if n < 10 then [DigitOf(n)] else Digits(n / 10) + [DigitOf(n % 10)]
  }

  /** `BigInt` of a run of digits. */
  function ValueOf(s: string): nat
    requires AllDigits(s)
  {
    if s == [] then 0 else ValueOf(s[..|s| - 1]) * 10 + (s[|s| - 1] as int - '0' as int)
  }

  lemma {:induction false} DigitsReadBack(n: nat)
    ensures ValueOf(Digits(n)) == n
  {
    if 10 <= n {
      DigitsReadBack(n / 10);
      assert Digits(n)[..|Digits(n)| - 1] == Digits(n / 10);
    } else {
      assert Digits(n)[..0] == [];
    }
  }

  /** A number below 10^k has at most k digits. */
  lemma {:induction false} DigitsFit(n: nat, k: nat)
    requires 0 < k && n < PowerOfTen(k)
    ensures |Digits(n)| <= k
  {
    if 10 <= n {
      assert k != 1 by { assert PowerOfTen(1) == 10 * PowerOfTen(0); }
      DigitsFit(n / 10, k - 1);
    }
  }

  function PowerOfTen(k: nat): nat { if k == 0 then 1 else 10 * PowerOfTen(k - 1) }

  function Zeros(n: nat): string { seq(n, _ => '0') }

  /** `padStart(width, '0')`. */
  function PadStart(s: string, width: nat): string { if |s| < width then Zeros(width - |s|) + s else s }

  /** `padEnd(width, '0')`. */
  function PadEnd(s: string, width: nat): string { if |s| < width then s + Zeros(width - |s|) else s }

  lemma {:induction false} LeadingZerosCountForNothing(n: nat, s: string)
    requires AllDigits(s)
    ensures AllDigits(Zeros(n) + s) && ValueOf(Zeros(n) + s) == ValueOf(s)
    decreases |s|, n
  {
    var t := Zeros(n) + s;
    if s != [] {
      assert t[..|t| - 1] == Zeros(n) + s[..|s| - 1];
      LeadingZerosCountForNothing(n, s[..|s| - 1]);
    } else if n != 0 {
      assert t[..|t| - 1] == Zeros(n - 1) + s;
      LeadingZerosCountForNothing(n - 1, s);
    } else {
      assert t == s;
    }
  }

  /* ------------------------------ parsing ------------------------------ */

  datatype Decimal = Decimal(whole: string, fraction: string)

  function LeadingDigits(s: string): (n: nat)
    ensures n <= |s| && AllDigits(s[..n]) && (n < |s| ==> !IsDigit(s[n]))
  {
    if s == [] || !IsDigit(s[0]) then 0
    else
      var rest := LeadingDigits(s[1..]);
      assert s[..rest + 1] == [s[0]] + s[1..][..rest];
      rest + 1
  }

  /** Digits, and optionally a point with more digits; nothing else before, between or after. */
  function SplitDecimal(s: string): (d: Option<Decimal>)
    ensures d.Some? ==> AllDigits(d.value.whole) && AllDigits(d.value.fraction)
  {
    var n := LeadingDigits(s);
    if n == 0 then None
    else if n == |s| then Some(Decimal(s[..n], []))
    else if s[n] == '.' && n + 1 < |s| && AllDigits(s[n + 1..]) then Some(Decimal(s[..n], s[n + 1..]))
    else None
  }

  /** The scaled value, if there are at most seven decimals. */
  function Scaled(d: Decimal): Option<nat>
    requires AllDigits(d.whole) && AllDigits(d.fraction)
  {
    if DECIMALS < |d.fraction| then None
    else Some(ValueOf(d.whole) * STROOPS_PER_UNIT + ValueOf(PadEnd(d.fraction, DECIMALS)))
  }

  function ParseUnsigned(s: string): Option<nat> {
    match SplitDecimal(s)
    case Some(d) => Scaled(d)
    case None => None
  }

  /** White space and line ends, as `trim` takes them. */
  predicate IsSpace(c: char) {
    || '\t' <= c <= '\r' || c == ' ' || c == '\U{00A0}' || c == '\U{1680}' || '\U{2000}' <= c <= '\U{200A}'
    || c == '\U{2028}' || c == '\U{2029}' || c == '\U{202F}' || c == '\U{205F}' || c == '\U{3000}' || c == '\U{FEFF}'
  }

  function TrimStart(s: string): string {
    if s != [] && IsSpace(s[0]) then TrimStart(s[1..]) else s
  }

  function Trim(s: string): string
    decreases |s|
  {
    var t := TrimStart(s);
    TrimEnd(t)
  }

  function TrimEnd(s: string): string {
    if s != [] && IsSpace(s[|s| - 1]) then TrimEnd(s[..|s| - 1]) else s
  }

  /** `toStroops`: what a user typed, or nothing where the code throws. */
  function ToStroops(amount: string): Option<nat> { ParseUnsigned(Trim(amount)) }

  /** `parseStellarAmount`: a signed Stellar decimal, with nothing trimmed. */
  function ParseStellarAmount(value: string): Option<int> {
    var negative := value != [] && value[0] == '-';
    match ParseUnsigned(if negative then value[1..] else value)
    case Some(magnitude) =>
      var scaled: int := magnitude;
      Some(if negative then -scaled else scaled)
    case None => None
  }

  /* ------------------------------ printing ------------------------------ */

  /** `/\.?0+$/` against a whole suffix. */
  predicate IsStripped(t: string) {
    t != [] && (AllZeros(t) || (t[0] == '.' && 1 < |t| && AllZeros(t[1..])))
  }

  /** `replace(/\.?0+$/, '')`: cuts at the leftmost place from which the rest matches. */
  function StripFrom(s: string, i: nat): string
    requires i <= |s|
    decreases |s| - i
  {
    if i == |s| then s else if IsStripped(s[i..]) then s[..i] else StripFrom(s, i + 1)
  }

  function WholePart(magnitude: nat): string { Digits(magnitude / STROOPS_PER_UNIT) }

  function Decimals(magnitude: nat): string { PadStart(Digits(magnitude % STROOPS_PER_UNIT), DECIMALS) }

  function Rendered(magnitude: nat): string { StripFrom(WholePart(magnitude) + "." + Decimals(magnitude), 0) }

  function FromStroops(stroops: int): string {
    var rendered := Rendered(if stroops < 0 then -stroops else stroops);
    var shown := if rendered == [] then "0" else rendered;
    if stroops < 0 then "-" + shown else shown
  }

  /** A fraction without its trailing zeros. */
  function Significant(p: string): (q: string)
    ensures |q| <= |p|
  {
    if p != [] && p[|p| - 1] == '0' then Significant(p[..|p| - 1]) else p
  }

  lemma {:induction false} SignificantPrefix(p: string)
    ensures Significant(p) <= p && AllZeros(p[|Significant(p)|..])
    ensures forall i :: 0 <= i < |Significant(p)| ==> !AllZeros(p[i..])
  {
    if p != [] && p[|p| - 1] == '0' {
      var init := p[..|p| - 1];
      SignificantPrefix(init);
      var n := |Significant(p)|;
      assert p[n..] == init[n..] + ['0'];
      forall i | 0 <= i < n ensures !AllZeros(p[i..]) {
        assert init[i..] == p[i..][..|init| - i];
      }
    } else {
      forall i | 0 <= i < |p| ensures !AllZeros(p[i..]) {
        assert p[i..][|p| - 1 - i] == p[|p| - 1];
      }
    }
  }

  /** The strip cuts the fraction's trailing zeros, with the point if nothing is left of it, and no digit of the whole part. */
  function Stripped(whole: string, p: string): string {
    if Significant(p) == [] then whole else whole + "." + Significant(p)
  }

  lemma {:induction false} StripCutsFraction(whole: string, p: string, i: nat)
    requires AllDigits(whole) && AllDigits(p) && p != []
    requires i <= |whole| + 1 + |Significant(p)| && (Significant(p) == [] ==> i <= |whole|)
    ensures StripFrom(whole + "." + p, i) == Stripped(whole, p)
    decreases |p| + |whole| + 1 - i
  {
    var s := whole + "." + p;
    if i < |s| {
      if IsStripped(s[i..]) {
        CutHere(whole, p, i);
      } else {
        KeepHere(whole, p, i);
        StripCutsFraction(whole, p, i + 1);
      }
    }
  }

  /** The first place that matches is right after the significant decimals, or at the point if there are none. */
  lemma CutHere(whole: string, p: string, i: nat)
    requires AllDigits(whole) && AllDigits(p) && p != [] && i <= |whole| + |p|
    requires i <= |whole| + 1 + |Significant(p)| && (Significant(p) == [] ==> i <= |whole|)
    requires IsStripped((whole + "." + p)[i..])
    ensures (whole + "." + p)[..i] == Stripped(whole, p)
  {
    SuffixMatches(whole, p, i);
    SignificantPrefix(p);
    assert p[0..] == p;
  }

  lemma KeepHere(whole: string, p: string, i: nat)
    requires AllDigits(whole) && AllDigits(p) && p != [] && i <= |whole| + |p|
    requires i <= |whole| + 1 + |Significant(p)| && (Significant(p) == [] ==> i <= |whole|)
    requires !IsStripped((whole + "." + p)[i..])
    ensures i + 1 <= |whole| + 1 + |Significant(p)| && (Significant(p) == [] ==> i + 1 <= |whole|)
  {
    SuffixMatches(whole, p, i);
    SignificantPrefix(p);
    assert p[0..] == p;
  }

  /** Where the strip's pattern matches. */
  lemma SuffixMatches(whole: string, p: string, i: nat)
    requires AllDigits(whole) && AllDigits(p) && p != [] && i < |whole| + 1 + |p|
    ensures IsStripped((whole + "." + p)[i..])
        <==> (i == |whole| && AllZeros(p)) || (|whole| < i && AllZeros(p[i - |whole| - 1..]))
  {
    var t := (whole + "." + p)[i..];
    if i < |whole| {
      assert t[|whole| - i] == '.' && t[1..][|whole| - i - 1] == '.';
    } else if i == |whole| {
      assert t == ['.'] + p && t[1..] == p;
    } else {
      assert t == p[i - |whole| - 1..];
    }
  }

  /** Padding puts the stripped zeros back. */
  lemma PadRestoresZeros(p: string)
    ensures PadEnd(Significant(p), |p|) == p
  {
    SignificantPrefix(p);
  }

  /** Digits end where something else begins. */
  lemma {:induction false} LeadingDigitsStop(digits: string, rest: string)
    requires AllDigits(digits) && (rest == [] || !IsDigit(rest[0]))
    ensures LeadingDigits(digits + rest) == |digits|
  {
    if digits == [] {
      assert digits + rest == rest;
    } else {
      assert (digits + rest)[1..] == digits[1..] + rest;
      LeadingDigitsStop(digits[1..], rest);
    }
  }

  lemma SplitReadsBack(whole: string, fraction: string)
    requires whole != [] && AllDigits(whole) && AllDigits(fraction)
    ensures SplitDecimal(if fraction == [] then whole else whole + "." + fraction) == Some(Decimal(whole, fraction))
  {
    if fraction == [] {
      LeadingDigitsStop(whole, []);
      assert whole + [] == whole && whole[..|whole|] == whole;
    } else {
      var s := whole + "." + fraction;
      assert s == whole + ("." + fraction);
      LeadingDigitsStop(whole, "." + fraction);
      assert s[..|whole|] == whole && s[|whole| + 1..] == fraction;
    }
  }

  /** The seven printed decimals of a fraction, and what they are worth. */
  lemma FractionReadsBack(fraction: nat)
    requires fraction < STROOPS_PER_UNIT
    ensures var p := PadStart(Digits(fraction), DECIMALS);
            |p| == DECIMALS && AllDigits(p) && ValueOf(p) == fraction
  {
    var digits := Digits(fraction);
    assert PowerOfTen(7) == 10 * (10 * (10 * (10 * (10 * (10 * (10 * PowerOfTen(0)))))));
    DigitsFit(fraction, 7);
    DigitsReadBack(fraction);
    LeadingZerosCountForNothing(DECIMALS - |digits|, digits);
    if |digits| == DECIMALS {
      assert Zeros(0) + digits == digits;
    }
  }

  lemma ScaledIs(whole: string, fraction: string, padded: string)
    requires AllDigits(whole) && AllDigits(fraction) && AllDigits(padded) && |fraction| <= |padded| == DECIMALS
    requires PadEnd(fraction, |padded|) == padded
    ensures Scaled(Decimal(whole, fraction)) == Some(ValueOf(whole) * STROOPS_PER_UNIT + ValueOf(padded))
  {
  }

  /** The printed decimals, stripped or not, are worth the same. */
  lemma StrippedReadsBack(whole: string, p: string)
    requires whole != [] && AllDigits(whole) && |p| == DECIMALS && AllDigits(p)
    ensures ParseUnsigned(Stripped(whole, p)) == Some(ValueOf(whole) * STROOPS_PER_UNIT + ValueOf(p))
  {
    SignificantPrefix(p);
    PadRestoresZeros(p);
    ScaledIs(whole, Significant(p), p);
    SplitReadsBack(whole, Significant(p));
  }

  lemma StrippedEndsInDigits(whole: string, p: string)
    requires whole != [] && AllDigits(whole) && AllDigits(p)
    ensures var s := Stripped(whole, p);
            s != [] && IsDigit(s[0]) && IsDigit(s[|s| - 1]) && whole <= s
  {
    SignificantPrefix(p);
  }

  lemma RenderedIsStripped(magnitude: nat)
    ensures |Decimals(magnitude)| == DECIMALS && AllDigits(Decimals(magnitude))
    ensures ValueOf(Decimals(magnitude)) == magnitude % STROOPS_PER_UNIT
    ensures Rendered(magnitude) == Stripped(WholePart(magnitude), Decimals(magnitude))
  {
    FractionReadsBack(magnitude % STROOPS_PER_UNIT);
    StripCutsFraction(WholePart(magnitude), Decimals(magnitude), 0);
  }

  /** What is printed is the whole digits with at most seven significant decimals, and reads back as the number. */
  lemma RenderedReadsBack(magnitude: nat)
    ensures var s := Rendered(magnitude);
            && s != [] && IsDigit(s[0]) && IsDigit(s[|s| - 1])
            && WholePart(magnitude) <= s
            && ParseUnsigned(s) == Some(magnitude)
  {
    RenderedIsStripped(magnitude);
    StrippedReadsBack(WholePart(magnitude), Decimals(magnitude));
    StrippedEndsInDigits(WholePart(magnitude), Decimals(magnitude));
    DigitsReadBack(magnitude / STROOPS_PER_UNIT);
  }

  /** A text with a digit at both ends has nothing to trim. */
  lemma NothingToTrim(s: string)
    requires s != [] && !IsSpace(s[0]) && !IsSpace(s[|s| - 1])
    ensures Trim(s) == s
  {
  }

  /** Printing and reading back a non-negative amount gives it back. */
  lemma ToStroopsRoundTrip(stroops: nat)
    ensures ToStroops(FromStroops(stroops)) == Some(stroops)
  {
    RenderedReadsBack(stroops);
    NothingToTrim(Rendered(stroops));
  }

  /** The Stellar parser reads back every amount, negative ones too. */
  lemma StellarRoundTrip(stroops: int)
    ensures ParseStellarAmount(FromStroops(stroops)) == Some(stroops)
  {
    var magnitude := if stroops < 0 then -stroops else stroops;
    RenderedReadsBack(magnitude);
    if stroops < 0 {
      assert FromStroops(stroops)[1..] == Rendered(magnitude);
    }
  }

  /** The strip never takes a zero of the whole part. */
  lemma WholeIsKept(stroops: nat)
    ensures WholePart(stroops) <= FromStroops(stroops)
  {
    RenderedReadsBack(stroops);
  }

  /** A decimal that is accepted contains nothing but digits and a point. */
  lemma AcceptedIsUntrimmed(s: string)
    requires SplitDecimal(s).Some?
    ensures s != [] && IsDigit(s[0]) && IsDigit(s[|s| - 1])
  {
    var n := LeadingDigits(s);
    assert s[..n][0] == s[0];
    if n == |s| {
      assert s[..n][|s| - 1] == s[|s| - 1];
    } else {
      assert s[n + 1..][|s| - n - 2] == s[|s| - 1];
    }
  }

  lemma {:induction false} TrimEndKeepsFirst(s: string)
    requires s != [] && !IsSpace(s[0])
    ensures TrimEnd(s) != [] && TrimEnd(s)[0] == s[0]
  {
    if IsSpace(s[|s| - 1]) {
      TrimEndKeepsFirst(s[..|s| - 1]);
    }
  }

  /** A sign is no part of what `toStroops` accepts, and padding no part of what the Stellar parser does. */
  lemma SignedIsRefused(s: string)
    requires s != [] && s[0] == '-'
    ensures ToStroops(s).None?
  {
    TrimEndKeepsFirst(s);
  }

  lemma PaddedIsRefused(s: string)
    requires Trim(s) != s
    ensures ParseStellarAmount(s).None?
  {
    var unsigned := if s != [] && s[0] == '-' then s[1..] else s;
    if SplitDecimal(unsigned).Some? {
      AcceptedIsUntrimmed(unsigned);
      NothingToTrim(s);
    }
  }

  /** On texts with neither sign nor padding the two parsers accept the same, with the same value; the rest only one can accept. */
  lemma ParsersAgree(s: string)
    ensures if s != [] && s[0] == '-' then ToStroops(s).None?
            else if Trim(s) != s then ParseStellarAmount(s).None?
            else (ToStroops(s).Some? <==> ParseStellarAmount(s).Some?)
                 && (ToStroops(s).Some? ==> ToStroops(s).value == ParseStellarAmount(s).value)
  {
    if s != [] && s[0] == '-' {
      SignedIsRefused(s);
    } else if Trim(s) != s {
      PaddedIsRefused(s);
    }
  }

  /* ------------------------------ what a text is worth ------------------------------ */

  /** Each further digit counts for itself, and everything before it for ten times as much. */
  lemma DigitCounts(s: string, d: nat)
    requires AllDigits(s) && d < 10
    ensures AllDigits(s + ["0123456789"[d]]) && ValueOf(s + ["0123456789"[d]]) == 10 * ValueOf(s) + d
    ensures DigitOf(d) == "0123456789"[d]
  {
    var t := s + ["0123456789"[d]];
    assert t[..|t| - 1] == s;
  }

  lemma TenTimes(x: int, y: int)
    ensures x * y * 10 == x * (10 * y)
  {
  }

  lemma {:induction false} TrailingZerosScale(s: string, n: nat)
    requires AllDigits(s)
    ensures AllDigits(s + Zeros(n)) && ValueOf(s + Zeros(n)) == ValueOf(s) * PowerOfTen(n)
    decreases n
  {
    var t := s + Zeros(n);
    if n == 0 {
      assert t == s;
    } else {
      assert t[..|t| - 1] == s + Zeros(n - 1);
      TrailingZerosScale(s, n - 1);
      TenTimes(ValueOf(s), PowerOfTen(n - 1));
    }
  }

  lemma PaddedIsWorth(fraction: string, width: nat)
    requires AllDigits(fraction) && |fraction| <= width
    ensures AllDigits(PadEnd(fraction, width))
    ensures ValueOf(PadEnd(fraction, width)) == ValueOf(fraction) * PowerOfTen(width - |fraction|)
  {
    TrailingZerosScale(fraction, width - |fraction|);
    if |fraction| == width {
      assert fraction + Zeros(0) == fraction;
    }
  }

  /** What one unit in the last of so many decimals is worth, in stroops. */
  function PlaceValue(decimals: nat): nat
    requires 1 <= decimals <= 7
  {
    [1_000_000, 100_000, 10_000, 1_000, 100, 10, 1][decimals - 1]
  }

  lemma PlacesAreTens(decimals: nat)
    requires 1 <= decimals <= 7
    ensures PowerOfTen(7 - decimals) == PlaceValue(decimals)
  {
    assert PowerOfTen(3) == 1_000;
    assert PowerOfTen(6) == 1_000_000;
  }

  lemma NoDigitsAreWorthNothing(scale: nat)
    ensures ValueOf([]) * scale == 0
  {
  }

  /** A unit is 10,000,000 stroops and each decimal is worth a tenth of the one before, down to the seventh; an eighth is refused. */
  lemma DecimalIsWorth(whole: string, fraction: string, width: nat)
    requires whole != [] && AllDigits(whole) && AllDigits(fraction) && width == 7
    ensures ParseUnsigned(if fraction == [] then whole else whole + "." + fraction)
         == if width < |fraction| then None
            else Some(ValueOf(whole) * 10_000_000 + ValueOf(fraction) * PowerOfTen(width - |fraction|))
  {
    SplitReadsBack(whole, fraction);
    if |fraction| <= width {
      PaddedIsWorth(fraction, width);
    }
  }

  /** Nothing else is read: an accepted text is digits, or digits, a point and one to seven more. */
  lemma OnlyDecimalsAreRead(s: string) returns (whole: string, fraction: string)
    requires ParseUnsigned(s).Some?
    ensures whole != [] && AllDigits(whole) && AllDigits(fraction) && |fraction| <= 7
    ensures s == if fraction == [] then whole else whole + "." + fraction
    ensures forall c :: c in s ==> c in "0123456789."
  {
    var d := SplitDecimal(s).value;
    whole, fraction := d.whole, d.fraction;
    if fraction != [] {
      assert s == whole + "." + fraction;
    }
    forall c | c in s ensures c in "0123456789." {
      if c != '.' {
        DigitIsListed(c);
      }
    }
  }

  lemma DigitIsListed(c: char)
    ensures IsDigit(c) <==> c in "0123456789"
  {
    if IsDigit(c) {
      assert c == "0123456789"[c as int - '0' as int];
    }
  }

  /** The white space that is trimmed, by code point. */
  lemma SpacesAre(c: char)
    ensures IsSpace(c) <==> c as int in {0x09, 0x0a, 0x0b, 0x0c, 0x0d, 0x20, 0xa0, 0x1680, 0x2000, 0x2001, 0x2002, 0x2003, 0x2004, 0x2005,
                                         0x2006, 0x2007, 0x2008, 0x2009, 0x200a, 0x2028, 0x2029, 0x202f, 0x205f, 0x3000, 0xfeff}
  {
  }

  predicate AllSpace(s: string) { forall i :: 0 <= i < |s| ==> IsSpace(s[i]) }

  lemma {:induction false} TrimStartSkips(pad: string, s: string)
    requires AllSpace(pad)
    ensures TrimStart(pad + s) == TrimStart(s)
  {
    if pad == [] {
      assert pad + s == s;
    } else {
      assert (pad + s)[1..] == pad[1..] + s;
      TrimStartSkips(pad[1..], s);
    }
  }

  lemma {:induction false} TrimEndSkips(s: string, pad: string)
    requires AllSpace(pad)
    ensures TrimEnd(s + pad) == TrimEnd(s)
  {
    if pad == [] {
      assert s + pad == s;
    } else {
      assert (s + pad)[..|s + pad| - 1] == s + pad[..|pad| - 1];
      TrimEndSkips(s, pad[..|pad| - 1]);
    }
  }

  lemma {:induction false} TrimStartKeepsEnd(s: string, pad: string)
    requires AllSpace(pad)
    ensures TrimEnd(TrimStart(s + pad)) == TrimEnd(TrimStart(s))
  {
    if s == [] {
      assert s + pad == pad && pad == pad + [];
      TrimStartSkips(pad, []);
    } else if IsSpace(s[0]) {
      assert (s + pad)[1..] == s[1..] + pad;
      TrimStartKeepsEnd(s[1..], pad);
    } else {
      TrimEndSkips(s, pad);
    }
  }

  /** White space around what a user typed makes no difference. */
  lemma PaddingIsIgnored(before: string, s: string, after: string)
    requires AllSpace(before) && AllSpace(after)
    ensures ToStroops(before + s + after) == ToStroops(s)
  {
    assert before + s + after == before + (s + after);
    TrimStartSkips(before, s + after);
    TrimStartKeepsEnd(s, after);
  }

  /**
   What is printed of an amount: its units, and after a point the decimals it needs, with no zero at
   the end; a minus before a negative one.
   */
  lemma PrintsExactly(stroops: nat) returns (whole: string, fraction: string)
    ensures whole == Digits(stroops / 10_000_000)
    ensures AllDigits(fraction) && |fraction| <= 7 && (fraction != [] ==> fraction[|fraction| - 1] != '0')
    ensures (if fraction == [] then 0 else ValueOf(fraction) * PlaceValue(|fraction|)) == stroops % 10_000_000
    ensures FromStroops(stroops) == if fraction == [] then whole else whole + "." + fraction
    ensures var owed: int := stroops; 0 < owed ==> FromStroops(-owed) == "-" + FromStroops(owed)
  {
    whole, fraction := WholePart(stroops), Significant(Decimals(stroops));
    RenderedIsStripped(stroops);
    SignificantPrefix(Decimals(stroops));
    RenderedReadsBack(stroops);
    LastIsSignificant(Decimals(stroops));
    if fraction != [] {
      PlacesAreTens(|fraction|);
    }
    PadRestoresZeros(Decimals(stroops));
    PaddedIsWorth(fraction, DECIMALS);
    NoDigitsAreWorthNothing(PowerOfTen(DECIMALS));
  }

  lemma {:induction false} LastIsSignificant(p: string)
    ensures var q := Significant(p); q != [] ==> q[|q| - 1] != '0'
  {
    if p != [] && p[|p| - 1] == '0' {
      LastIsSignificant(p[..|p| - 1]);
    }
  }

  /** No zero is printed before the first digit that counts. */
  lemma {:induction false} DigitsLead(n: nat)
    ensures Digits(n)[0] == '0' ==> Digits(n) == "0" && n == 0
  {
    if 10 <= n {
      DigitsLead(n / 10);
    }
  }

  /* ------------------------------ basis points ------------------------------ */

  const MAX_BPS: int := 100_000

  /** `applyBps`: out of range throws. */
  function ApplyBps(amount: int, bps: int): Option<int> {
    if bps < 0 || MAX_BPS < bps then None else Some(Quotient(amount * bps, 10_000))
  }

  /** Rounded down for what is owed, and alike for what is due: exactly for rates from 0 to 100,000 and for no other. */
  lemma AppliesExactly(amount: int, bps: int)
    requires 0 <= amount
    ensures ApplyBps(amount, bps).Some? <==> 0 <= bps <= 100_000
    ensures 0 <= bps <= 100_000 ==>
              var x := ApplyBps(amount, bps).value;
              10_000 * x <= amount * bps < 10_000 * (x + 1) && ApplyBps(-amount, bps) == Some(-x)
  {
    ScaleOrder(0, bps, amount);
    assert (-amount) * bps == -(amount * bps);
  }

  /** Where the escrow computes a fee at all, the quote shown off chain is that fee. */
  lemma QuoteMatchesFee(amount: int, feeBps: nat)
    requires feeBps <= MAX_BPS && E.FeeFor(amount, feeBps).Ok?
    ensures ApplyBps(amount, feeBps) == Some(E.FeeFor(amount, feeBps).value)
  {
  }
}
