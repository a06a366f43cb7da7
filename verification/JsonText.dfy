/**
 JSON string literals over UTF-16 code units, as `JSON.stringify` prints them: quotes,
 backslashes, control characters and lone surrogates escaped, everything else as it is.
 */
module JsonText {

  type CodeUnit = u: int | 0 <= u < 0x1_0000
  type Text = seq<CodeUnit>

  const QUOTE: CodeUnit := 0x22
  const BACKSLASH: CodeUnit := 0x5c
  const COMMA: CodeUnit := 0x2c
  const COLON: CodeUnit := 0x3a
  const LEFT_BRACKET: CodeUnit := 0x5b
  const RIGHT_BRACKET: CodeUnit := 0x5d
  const LEFT_BRACE: CodeUnit := 0x7b
  const RIGHT_BRACE: CodeUnit := 0x7d

  predicate IsHigh(u: CodeUnit) { 0xd800 <= u < 0xdc00 }
  predicate IsLow(u: CodeUnit) { 0xdc00 <= u < 0xe000 }

  /** A surrogate without its partner. */
  predicate Lone(s: Text, i: nat)
    requires i < |s|
  {
    || (IsHigh(s[i]) && !(i + 1 < |s| && IsLow(s[i + 1])))
    || (IsLow(s[i]) && !(0 < i && IsHigh(s[i - 1])))
  }

  /** A digit of a `\u` escape, in lower case. */
  function HexDigit(d: nat): CodeUnit
    requires d < 16
  {
    if d < 10 then 0x30 + d else 0x61 + d - 10
  }

  function HexValue(u: CodeUnit): int {
    if u < 0x61 then u - 0x30 else u - 0x61 + 10
  }

  /** The letter of a two-character escape, or 0 where there is none. */
  function EscapeLetter(u: CodeUnit): CodeUnit {
    if u == QUOTE || u == BACKSLASH then u
    else if u == 0x08 then 0x62
    else if u == 0x09 then 0x74
    else if u == 0x0a then 0x6e
    else if u == 0x0c then 0x66
    else if u == 0x0d then 0x72
    else 0
  }

  function Unletter(u: CodeUnit): CodeUnit {
    if u == 0x62 then 0x08
    else if u == 0x74 then 0x09
    else if u == 0x6e then 0x0a
    else if u == 0x66 then 0x0c
    else if u == 0x72 then 0x0d
    else u
  }

  function EscapeUnit(s: Text, i: nat): Text
    requires i < |s|
  {
    var u := s[i];
    if EscapeLetter(u) != 0 then [BACKSLASH, EscapeLetter(u)]
    else if u < 0x20 || Lone(s, i) then
      [BACKSLASH, 0x75, HexDigit(u / 0x1000), HexDigit(u / 0x100 % 16), HexDigit(u / 16 % 16), HexDigit(u % 16)]
    else [u]
  }

  function Escape(s: Text, i: nat): Text
    requires i <= |s|
    decreases |s| - i
  {
    if i == |s| then [] else EscapeUnit(s, i) + Escape(s, i + 1)
  }

  /** A string as `JSON.stringify` prints it. */
  function Quote(s: Text): Text { [QUOTE] + Escape(s, 0) + [QUOTE] }

  /** A surrogate half whose other half is not beside it. */
  predicate Unpaired(s: Text, i: nat)
    requires i < |s|
  {
    if 0xd800 <= s[i] <= 0xdbff then i + 1 == |s| || s[i + 1] < 0xdc00 || 0xdfff < s[i + 1]
    else 0xdc00 <= s[i] <= 0xdfff && (i == 0 || s[i - 1] < 0xd800 || 0xdbff < s[i - 1])
  }

  /** Which units stay as they are: all but quote, backslash, controls and unpaired surrogates. */
  lemma StaysExactly(s: Text, i: nat)
    requires i < |s|
    ensures EscapeUnit(s, i) == [s[i]] <==> 0x20 <= s[i] && s[i] != 0x22 && s[i] != 0x5c && !Unpaired(s, i)
  {
  }

  /** How the others are written: seven by a letter, and every other by its value in four lower-case hexadecimal digits. */
  lemma EscapesAs(s: Text, i: nat)
    requires i < |s| && EscapeUnit(s, i) != [s[i]]
    ensures EscapeUnit(s, i)[0] == 0x5c
    ensures var letters := map[0x22 := 0x22, 0x5c := 0x5c, 0x08 := 0x62, 0x09 := 0x74, 0x0a := 0x6e, 0x0c := 0x66, 0x0d := 0x72];
            var digit := (u: int) => if u <= 0x39 then u - 0x30 else u - 0x57;
            var t := EscapeUnit(s, i);
            if s[i] in letters then t == [0x5c, letters[s[i]]]
            else
              && |t| == 6 && t[1] == 0x75
              && (forall k :: 2 <= k < 6 ==> 0x30 <= t[k] <= 0x39 || 0x61 <= t[k] <= 0x66)
              && digit(t[2]) * 0x1000 + digit(t[3]) * 0x100 + digit(t[4]) * 0x10 + digit(t[5]) == s[i]
  {
    HexReadsBack(s[i]);
  }

  /** Units that stay are written one after another. */
  lemma {:induction false} EscapeIsEachUnit(s: Text, i: nat)
    requires i <= |s| && forall k :: i <= k < |s| ==> EscapeUnit(s, k) == [s[k]]
    ensures Escape(s, i) == s[i..]
    decreases |s| - i
  {
    if i < |s| {
      EscapeIsEachUnit(s, i + 1);
      assert s[i..] == [s[i]] + s[i + 1..];
    }
  }

  /** Text without any of those is printed as it is. */
  lemma PlainTextIsKept(s: Text)
    requires forall i :: 0 <= i < |s| ==> 0x20 <= s[i] && s[i] != 0x22 && s[i] != 0x5c && !Unpaired(s, i)
    ensures Quote(s) == [0x22] + s + [0x22]
  {
    forall k | 0 <= k < |s| ensures EscapeUnit(s, k) == [s[k]] {
      StaysExactly(s, k);
    }
    EscapeIsEachUnit(s, 0);
  }

  /** Reads one code unit back off the front of an escaped text. */
  function ReadUnit(t: Text): (r: (CodeUnit, Text))
    requires t != []
    ensures |r.1| < |t|
  {
    if t[0] != BACKSLASH || |t| == 1 then (t[0], t[1..])
    else if t[1] != 0x75 then (Unletter(t[1]), t[2..])
    else if |t| < 6 then (0, [])
    else
      var value := HexValue(t[2]) * 0x1000 + HexValue(t[3]) * 0x100 + HexValue(t[4]) * 16 + HexValue(t[5]);
      (if 0 <= value < 0x1_0000 then value else 0, t[6..])
  }

  /** Reads up to the closing quote; the string, and what follows it. */
  function ReadString(t: Text): (Text, Text)
    decreases |t|
  {
    if t == [] then ([], [])
    else if t[0] == QUOTE then ([], t[1..])
    else
      var unit := ReadUnit(t);
      var rest := ReadString(unit.1);
      ([unit.0] + rest.0, rest.1)
  }

  lemma DigitReadsBack(d: nat)
    requires d < 16
    ensures HexValue(HexDigit(d)) == d
  {
  }

  lemma HexReadsBack(u: CodeUnit)
    ensures HexValue(HexDigit(u / 0x1000)) * 0x1000 + HexValue(HexDigit(u / 0x100 % 16)) * 0x100
          + HexValue(HexDigit(u / 16 % 16)) * 16 + HexValue(HexDigit(u % 16)) == u
  {
    DigitReadsBack(u / 0x1000);
    DigitReadsBack(u / 0x100 % 16);
    DigitReadsBack(u / 16 % 16);
    DigitReadsBack(u % 16);
    assert u / 0x100 == u / 16 / 16 && u / 0x1000 == u / 0x100 / 16;
  }

  lemma UnitReadsBack(s: Text, i: nat, rest: Text)
    requires i < |s|
    ensures EscapeUnit(s, i)[0] != QUOTE
    ensures ReadUnit(EscapeUnit(s, i) + rest) == (s[i], rest)
  {
    var t := EscapeUnit(s, i) + rest;
    assert t[|EscapeUnit(s, i)|..] == rest;
    HexReadsBack(s[i]);
  }

  lemma {:induction false} StringReadsBack(s: Text, i: nat, rest: Text)
    requires i <= |s|
    ensures ReadString(Escape(s, i) + [QUOTE] + rest) == (s[i..], rest)
    decreases |s| - i
  {
    if i == |s| {
      assert ([] + [QUOTE] + rest)[1..] == rest;
    } else {
      var tail := Escape(s, i + 1) + [QUOTE] + rest;
      assert Escape(s, i) + [QUOTE] + rest == EscapeUnit(s, i) + tail;
      UnitReadsBack(s, i, tail);
      StringReadsBack(s, i + 1, rest);
      assert s[i..] == [s[i]] + s[i + 1..];
    }
  }

  /** Printed strings are unambiguous and say where they end. */
  lemma QuoteIsReadable(s: Text, t: Text, r: Text, q: Text)
    requires Quote(s) + r == Quote(t) + q
    ensures s == t && r == q
  {
    assert (Quote(s) + r)[1..] == Escape(s, 0) + [QUOTE] + r;
    assert (Quote(t) + q)[1..] == Escape(t, 0) + [QUOTE] + q;
    StringReadsBack(s, 0, r);
    StringReadsBack(t, 0, q);
  }
}
