/** The text conversions of the topology files (sim_hardware/src/topology.cpp): numbers parsed
    with strtoul, hexadecimal printing, and bus addresses. */
module TopologyText {
  import Bits
  import opened Collections

  const WORD: nat := 0x1_0000_0000_0000_0000
  const HALF: nat := 0x1_0000_0000

  /** The string up to its first NUL, as C sees it. */
  function CString(s: string): (r: string)
    ensures |r| <= |s| && r == s[..|r|] && '\0' !in r
    ensures |r| < |s| ==> s[|r|] == '\0'
  {
    if s == "" || s[0] == '\0' then "" else [s[0]] + CString(s[1..])
  }

  /** The value of a digit, up to base 16; -1 for any other character. */
  function Digit(c: char): (d: int)
    ensures -1 <= d < 16
  {
    if '0' <= c <= '9' then (c - '0') as int
    else if 'a' <= c <= 'f' then (c - 'a') as int + 10
    else if 'A' <= c <= 'F' then (c - 'A') as int + 10
    else -1
  }

  predicate IsDigit(c: char, base: nat) { 0 <= Digit(c) < base }

  predicate AllDigits(s: string, base: nat) { forall i :: 0 <= i < |s| ==> IsDigit(s[i], base) }

  function Shifted(v: nat, base: nat, d: nat): nat { v * base + d }

  function Value(s: string, base: nat): nat
    requires base <= 16 && AllDigits(s, base)
  {
    if s == "" then 0 else Shifted(Value(s[..|s| - 1], base), base, Digit(s[|s| - 1]))
  }

  /** How many digits a string starts with. */
  function Digits(s: string, base: nat): (n: nat)
    ensures n <= |s| && AllDigits(s[..n], base)
    ensures n < |s| ==> !IsDigit(s[n], base)
  {
    if s == "" || !IsDigit(s[0], base) then 0
    else
      var n := 1 + Digits(s[1..], base);
      assert s[..n] == [s[0]] + s[1..][..n - 1];
      n
  }

  predicate Space(c: char) { c == ' ' || ('\t' <= c <= '\r') }

  function Spaces(s: string): (n: nat)
    ensures n <= |s|
  {
    if s == "" || !Space(s[0]) then 0 else 1 + Spaces(s[1..])
  }

  predicate HexPrefix(s: string) {
    |s| > 2 && s[0] == '0' && (s[1] == 'x' || s[1] == 'X') && IsDigit(s[2], 16)
  }

  /** The digits of strtoul behind white space and sign, with a prefix if there is one: their
      value, and how many characters were used. */
  function ReadDigits(s: string, base: nat): (nat, nat)
    requires base == 0 || base == 16
  {
    var hex := HexPrefix(s);
    var b := if base == 16 || hex then 16 else if s != "" && s[0] == '0' then 8 else 10;
    var k := if hex then 2 else 0;
    var n := Digits(s[k..], b);
    if n == 0 then (0, 0) else (Value(s[k..][..n], b), k + n)
  }

  /** Where a sign ends, if there is one. */
  function SignEnd(s: string): (j: nat)
    ensures j <= |s|
  {
    var i := Spaces(s);
    if i < |s| && (s[i] == '-' || s[i] == '+') then i + 1 else i
  }

  /** strtoul for base 16, or 0 to go by the prefix, with 64-bit saturation and negation: the
      value, and how many characters were used. */
  function Strtoul(s: string, base: nat): (nat, nat)
    requires base == 0 || base == 16
  {
    var j := SignEnd(s);
    var (v, used) := ReadDigits(s[j..], base);
    if used == 0 then (0, 0)
    else (if v >= WORD then WORD - 1 else if j > 0 && s[j - 1] == '-' then (WORD - v) % WORD else v, j + used)
  }

  /** parse_hex_u16 and parse_hex_u32 before their range handling. */
  function ParseNumber(s: string): Option<nat> {
    if s == "" then None
    else
      var c := CString(s);
      if |s| > 2 && |c| >= 2 && c[0] == '0' && (c[1] == 'x' || c[1] == 'X') then
        var (v, used) := Strtoul(c[2..], 16);
        if used != |c| - 2 then None else Some(v)
      else
        var (v, used) := Strtoul(c, 0);
        if used != |c| then None else Some(v)
  }

  function ParseU16(s: string): Option<nat> {
    var v := ParseNumber(s);
    if v.None? || v.value > 0xFFFF then None else v
  }

  function ParseU32(s: string): Option<nat> {
    var v := ParseNumber(s);
    if v.None? then None else Some(v.value % HALF)
  }

  function HexChar(d: nat, upper: bool): (c: char)
    requires d < 16
    ensures Digit(c) == d && c != '\0' && !Space(c) && c != '-' && c != '+' && c != 'x' && c != 'X' && c != ':'
  {
    if d < 10 then '0' + d as char else if upper then 'A' + (d - 10) as char else 'a' + (d - 10) as char
  }

  /** `n` digits, padded with zeros. */
  function Hex(v: nat, n: nat, upper: bool): (s: string)
    ensures |s| == n && AllDigits(s, 16)
    ensures forall i :: 0 <= i < n ==> var c := s[i]; c != '\0' && !Space(c) && c != '-' && c != '+' && c != 'x' && c != 'X' && c != ':'
  {
    if n == 0 then "" else Hex(v / 16, n - 1, upper) + [HexChar(v % 16, upper)]
  }

  function Pow16(n: nat): nat { if n == 0 then 1 else 16 * Pow16(n - 1) }

  lemma {:induction false} HexValue(v: nat, n: nat, upper: bool)
    requires v < Pow16(n)
    ensures Value(Hex(v, n, upper), 16) == v
    decreases n
  {
    if n > 0 {
      HexValue(v / 16, n - 1, upper);
      var s := Hex(v, n, upper);
      assert s[..n - 1] == Hex(v / 16, n - 1, upper);
    }
  }

  lemma CStringOf(s: string)
    requires '\0' !in s
    ensures CString(s) == s
  {
    assert forall i :: 0 <= i < |s| ==> s[i] != '\0';
  }

  /** Printing with a 0x prefix and parsing gives the number back. */
  lemma PrintedNumber(v: nat, n: nat, upper: bool)
    requires 0 < n <= 8 && v < Pow16(n)
    ensures ParseNumber("0x" + Hex(v, n, upper)) == Some(v)
  {
    var h := Hex(v, n, upper);
    var s := "0x" + h;
    assert forall i :: 2 <= i < |s| ==> s[i] == h[i - 2];
    CStringOf(s);
    assert s[2..] == h;
    PrintedDigits(v, n, upper);
  }

  lemma Widths()
    ensures Pow16(2) == 0x100 && Pow16(4) == 0x1_0000 && Pow16(8) == HALF
  {
    assert Pow16(4) == 0x1_0000;
    Pow16Add(4, 4);
  }

  lemma {:induction false} Pow16Add(m: nat, n: nat)
    ensures Pow16(m + n) == Pow16(m) * Pow16(n)
    decreases m
  {
    if m > 0 {
      Pow16Add(m - 1, n);
      assert Pow16(m + n) == 16 * Pow16(m - 1 + n);
    }
  }

  lemma PrintedU16(v: nat)
    requires v < 0x1_0000
    ensures ParseU16("0x" + Hex(v, 4, true)) == Some(v)
  {
    hide Pow16, Hex, ParseNumber;
    Widths();
    PrintedNumber(v, 4, true);
  }

  lemma PrintedU32(v: nat)
    requires v < HALF
    ensures ParseU32("0x" + Hex(v, 8, true)) == Some(v)
  {
    hide Pow16, Hex, ParseNumber;
    Widths();
    PrintedNumber(v, 8, true);
  }

  lemma PrintedDigits(v: nat, n: nat, upper: bool)
    requires 0 < n <= 8 && v < Pow16(n)
    ensures Strtoul(Hex(v, n, upper), 16) == (v, n)
  {
    hide Value, Hex, Digits, Pow16, Spaces, HexPrefix, AllDigits;
    var h := Hex(v, n, upper);
    assert h[0..] == h && h[..n] == h;
    HexValue(v, n, upper);
    FitsWord(n);
    PlainHex(h);
  }

  /** Printed digits are read to the end, with nothing skipped. */
  lemma PlainHex(h: string)
    requires h != "" && AllDigits(h, 16)
    requires forall i :: 0 <= i < |h| ==> !Space(h[i]) && h[i] != 'x' && h[i] != 'X'
    ensures Spaces(h) == 0 && !HexPrefix(h) && Digits(h, 16) == |h|
  {
    hide IsDigit, Space;
  }

  lemma FitsWord(n: nat)
    requires n <= 8
    ensures Pow16(n) <= HALF
  {
    Pow16Mono(n, 8);
    Widths();
  }

  lemma {:induction false} Pow16Mono(m: nat, n: nat)
    requires m <= n
    ensures Pow16(m) <= Pow16(n)
    decreases n - m
  {
    if m < n { Pow16Mono(m, n - 1); }
  }

  // ---------- which texts are numbers ----------

  /** The base strtoul reads digits in: by its argument or the prefix, else by a leading zero. */
  function BaseOf(base: nat, prefix: string, digits: string): nat {
    if base == 16 || prefix != "" then 16 else if digits != "" && digits[0] == '0' then 8 else 10
  }

  /** White space, an optional sign, an optional prefix, and digits of the base. */
  predicate Numeral(s: string, base: nat, white: string, sign: string, prefix: string, digits: string) {
    && s == white + sign + prefix + digits
    && (forall i :: 0 <= i < |white| ==> Space(white[i]))
    && sign in {"", "+", "-"} && prefix in {"", "0x", "0X"}
    && digits != "" && AllDigits(digits, BaseOf(base, prefix, digits))
  }

  /** What a numeral means in 64 bits: too large a number is the largest there is, and a minus
      sign wraps. */
  function Meaning(sign: string, v: nat): nat {
    if v >= WORD then WORD - 1 else if sign == "-" then (WORD - v) % WORD else v
  }

  lemma {:induction false} SpacesEnd(white: string, rest: string)
    requires (forall i :: 0 <= i < |white| ==> Space(white[i])) && (rest == "" || !Space(rest[0]))
    ensures Spaces(white + rest) == |white|
  {
    hide Space;
    if white == "" {
      assert white + rest == rest;
    } else {
      SpacesEnd(white[1..], rest);
      assert (white + rest)[1..] == white[1..] + rest;
    }
  }

  lemma {:induction false} SpacesAll(s: string)
    ensures forall i :: 0 <= i < Spaces(s) ==> Space(s[i])
    ensures Spaces(s) < |s| ==> !Space(s[Spaces(s)])
  {
    hide Space;
    if s != "" && Space(s[0]) {
      SpacesAll(s[1..]);
      forall i | 0 <= i < Spaces(s) ensures Space(s[i]) { assert i > 0 ==> s[i] == s[1..][i - 1]; }
    }
  }

  lemma DigitIsPlain(c: char, base: nat)
    requires base <= 16 && IsDigit(c, base)
    ensures !Space(c) && c != '-' && c != '+' && c != 'x' && c != 'X'
  {
  }

  /** The prefix in front of digits is seen, and none is seen where there is none. */
  lemma PrefixSeen(base: nat, prefix: string, digits: string)
    requires prefix in {"", "0x", "0X"} && digits != "" && AllDigits(digits, BaseOf(base, prefix, digits))
    ensures HexPrefix(prefix + digits) <==> prefix != ""
  {
    if |digits| > 1 { DigitIsPlain(digits[1], BaseOf(base, prefix, digits)); }
  }

  lemma BaseSeen(base: nat, prefix: string, digits: string)
    requires prefix in {"", "0x", "0X"} && digits != "" && AllDigits(digits, BaseOf(base, prefix, digits))
    ensures var s := prefix + digits;
            && HexPrefix(s) == (prefix != "") && |prefix| == (if HexPrefix(s) then 2 else 0) && s[|prefix|..] == digits
            && (if base == 16 || HexPrefix(s) then 16 else if s != "" && s[0] == '0' then 8 else 10) == BaseOf(base, prefix, digits)
  {
    hide IsDigit, HexPrefix, AllDigits;
    PrefixSeen(base, prefix, digits);
    FirstIsPlain(base, prefix, digits);
  }

  lemma DigitsRead(base: nat, prefix: string, digits: string)
    requires base == 0 || base == 16
    requires prefix in {"", "0x", "0X"} && digits != "" && AllDigits(digits, BaseOf(base, prefix, digits))
    ensures ReadDigits(prefix + digits, base) == (Value(digits, BaseOf(base, prefix, digits)), |prefix| + |digits|)
  {
    hide Digits, Value, IsDigit, HexPrefix, AllDigits, BaseOf;
    BaseSeen(base, prefix, digits);
    assert digits[..|digits|] == digits;
    AllRead(digits, BaseOf(base, prefix, digits));
  }

  lemma SignSeen(white: string, sign: string, rest: string)
    requires (forall i :: 0 <= i < |white| ==> Space(white[i])) && sign in {"", "+", "-"}
    requires rest != "" && !Space(rest[0]) && rest[0] != '-' && rest[0] != '+'
    ensures SignEnd(white + sign + rest) == |white| + |sign|
  {
    hide Spaces, Space;
    PlainSigns();
    assert white + sign + rest == white + (sign + rest);
    SpacesEnd(white, sign + rest);
  }

  /** A numeral is read to its end, for what it means. */
  lemma NumeralRead(s: string, base: nat, white: string, sign: string, prefix: string, digits: string)
    requires base == 0 || base == 16
    requires Numeral(s, base, white, sign, prefix, digits)
    ensures Strtoul(s, base) == (Meaning(sign, Value(digits, BaseOf(base, prefix, digits))), |s|)
  {
    hide SignEnd, ReadDigits, Value, IsDigit, AllDigits;
    var rest := prefix + digits;
    FirstIsPlain(base, prefix, digits);
    assert s == white + sign + rest;
    SignSeen(white, sign, rest);
    var j := |white| + |sign|;
    assert s[j..] == rest;
    DigitsRead(base, prefix, digits);
    PlainSigns();
    if sign == "" && j > 0 { assert s[j - 1] == white[j - 1]; }
  }

  lemma AllRead(digits: string, b: nat)
    requires AllDigits(digits, b)
    ensures Digits(digits, b) == |digits|
  {
    hide IsDigit;
  }

  /** What follows the sign is no sign and no white space. */
  lemma FirstIsPlain(base: nat, prefix: string, digits: string)
    requires prefix in {"", "0x", "0X"} && digits != "" && AllDigits(digits, BaseOf(base, prefix, digits))
    ensures var c := (prefix + digits)[0]; !Space(c) && c != '-' && c != '+'
    ensures prefix != "" || base == 16 || ((prefix + digits)[0] == '0' <==> digits[0] == '0')
  {
    DigitIsPlain(digits[0], BaseOf(base, prefix, digits));
  }

  lemma PlainSigns()
    ensures !Space('+') && !Space('-') && !Space('0')
  {
  }

  lemma ReadDigitsWhole(s: string, base: nat) returns (prefix: string, digits: string)
    requires (base == 0 || base == 16) && s != "" && ReadDigits(s, base).1 == |s|
    ensures s == prefix + digits && prefix in {"", "0x", "0X"}
    ensures digits != "" && AllDigits(digits, BaseOf(base, prefix, digits))
  {
    hide Digits, Value, IsDigit;
    var k := if HexPrefix(s) then 2 else 0;
    prefix, digits := s[..k], s[k..];
    if k > 0 { assert prefix == [s[0], s[1]]; } else { assert digits == s; }
    var n := Digits(digits, BaseOf(base, prefix, digits));
    assert digits[..n] == digits;
  }

  /** Only numerals are read to their end. */
  lemma ReadIsNumeral(s: string, base: nat) returns (white: string, sign: string, prefix: string, digits: string)
    requires (base == 0 || base == 16) && s != "" && Strtoul(s, base).1 == |s|
    ensures Numeral(s, base, white, sign, prefix, digits)
  {
    hide Spaces, ReadDigits, IsDigit, AllDigits, Space;
    SpacesAll(s);
    var i, j := Spaces(s), SignEnd(s);
    white, sign := s[..i], s[i..j];
    prefix, digits := ReadDigitsWhole(s[j..], base);
    assert s == white + sign + s[j..];
    if j > i { assert sign == [s[i]]; }
  }

  ghost predicate IsNumeral(s: string, base: nat) {
    exists white, sign, prefix, digits :: Numeral(s, base, white, sign, prefix, digits)
  }

  lemma ReadIff(s: string, base: nat)
    requires base == 0 || base == 16
    ensures Strtoul(s, base).1 == |s| <==> s == "" || IsNumeral(s, base)
  {
    hide Strtoul, Numeral;
    if s == "" {
      NothingRead(base);
    } else {
      if Strtoul(s, base).1 == |s| { var w, sg, p, d := ReadIsNumeral(s, base); }
      if IsNumeral(s, base) {
        var w, sg, p, d :| Numeral(s, base, w, sg, p, d);
        NumeralRead(s, base, w, sg, p, d);
      }
    }
  }

  lemma NothingRead(base: nat)
    requires base == 0 || base == 16
    ensures Strtoul("", base).1 == 0
  {
  }

  /** The text begins with 0x. */
  predicate Prefixed(s: string) {
    |s| > 2 && var c := CString(s); |c| >= 2 && c[0] == '0' && (c[1] == 'x' || c[1] == 'X')
  }

  /** A text is taken as a number exactly when, up to its first NUL, it is a numeral; after a 0x
      that may begin it once more, signed or behind white space.  Nothing before the NUL, or
      nothing behind the 0x, counts as a number too. */
  lemma NumberIff(s: string)
    ensures var c := CString(s);
            ParseNumber(s).Some? <==>
              && s != ""
              && if Prefixed(s) then c[2..] == "" || IsNumeral(c[2..], 16) else c == "" || IsNumeral(c, 0)
  {
    hide Strtoul, CString, IsNumeral;
    var c := CString(s);
    if Prefixed(s) { ReadIff(c[2..], 16); } else { ReadIff(c, 0); }
  }

  /** The number is then what the numeral means. */
  lemma NumberMeans(s: string, white: string, sign: string, prefix: string, digits: string)
    requires s != "" && Numeral(if Prefixed(s) then CString(s)[2..] else CString(s), if Prefixed(s) then 16 else 0, white, sign, prefix, digits)
    ensures var b := BaseOf(if Prefixed(s) then 16 else 0, prefix, digits);
            ParseNumber(s) == Some(Meaning(sign, Value(digits, b)))
  {
    hide Strtoul, CString, Value, AllDigits;
    var c := CString(s);
    if Prefixed(s) {
      NumeralRead(c[2..], 16, white, sign, prefix, digits);
    } else {
      NumeralRead(c, 0, white, sign, prefix, digits);
    }
  }

  // ---------- bus addresses ----------

  /** A field of hexadecimal digits; -1 if it holds anything else. */
  function HexField(s: string): int { if AllDigits(s, 16) then Value(s, 16) else -1 }

  /** pack_bdf; 0 stands for a malformed address too. */
  function PackBdf(s: string): (p: nat)
    ensures p < 0x2000
  {
    if |s| != 12 || s[4] != ':' || s[7] != ':' || s[10] != '.' then 0
    else
      var bus, device, func := HexField(s[0..4]), HexField(s[5..7]), HexField(s[8..10]);
      if bus < 0 || device < 0 || func < 0 || bus > 0x1F || device > 0x1F || func > 7 then 0
      else bus * 0x100 + device * 8 + func
  }

  /** The address a file names, if it is well formed. */
  function ParseBdf(s: string): Option<nat> {
    if |s| != 12 || (PackBdf(s) == 0 && s != "0000:00:00.0") then None else Some(PackBdf(s))
  }

  /** Separators in their places, and fields of hexadecimal digits within 5, 5 and 3 bits. */
  predicate BdfShaped(s: string) {
    && |s| == 12 && s[4] == ':' && s[7] == ':' && s[10] == '.'
    && AllDigits(s[0..4], 16) && AllDigits(s[5..7], 16) && AllDigits(s[8..10], 16)
    && Value(s[0..4], 16) < 0x20 && Value(s[5..7], 16) < 0x20 && Value(s[8..10], 16) < 8
  }

  /** Exactly which texts are addresses, and of what: those of the shape, but of the ones that name
      address 0 only one is taken. */
  lemma BdfIff(s: string)
    ensures ParseBdf(s).Some? <==> BdfShaped(s) && (s == "0000:00:00.0" || PackBdf(s) > 0)
    ensures ParseBdf(s).Some? ==>
              ParseBdf(s).value == Value(s[0..4], 16) * 0x100 + Value(s[5..7], 16) * 8 + Value(s[8..10], 16)
    ensures BdfShaped(s) ==>
              (PackBdf(s) > 0 <==> Value(s[0..4], 16) > 0 || Value(s[5..7], 16) > 0 || Value(s[8..10], 16) > 0)
  {
    hide Value, AllDigits;
    if s == "0000:00:00.0" { ZeroShaped(s); }
  }

  lemma ZeroShaped(s: string)
    requires s == "0000:00:00.0"
    ensures BdfShaped(s) && PackBdf(s) == 0
  {
    ZeroText();
    assert s[0..4] == Hex(0, 4, false) && s[5..7] == Hex(0, 2, false) && s[8..10] == Hex(0, 2, false);
    FieldRead(0, 4);
    FieldRead(0, 2);
    hide Value, Hex;
  }

  function BdfText(p: nat): (s: string)
    ensures |s| == 12
  {
    Hex(p / 0x100 % 0x20, 4, false) + ":" + Hex(p / 8 % 0x20, 2, false) + ":" + Hex(p % 8, 2, false) + ".0"
  }

  /** A printed address reads back as its low 13 bits. */
  lemma PrintedBdf(p: nat)
    ensures ParseBdf(BdfText(p)) == Some(p % 0x2000)
  {
    PackedBdf(p);
    if p % 0x2000 == 0 {
      BdfDigits(p);
      ZeroText();
    }
    hide PackBdf, Hex;
  }

  lemma PackedBdf(p: nat)
    ensures PackBdf(BdfText(p)) == p % 0x2000
  {
    hide Hex, Value, AllDigits;
    var bus, device, func := p / 0x100 % 0x20, p / 8 % 0x20, p % 8;
    var a, b, c := Hex(bus, 4, false), Hex(device, 2, false), Hex(func, 2, false);
    BdfFields(a, b, c);
    FieldRead(bus, 4);
    FieldRead(device, 2);
    FieldRead(func, 2);
    BdfDigits(p);
  }

  lemma FieldRead(v: nat, n: nat)
    requires v < 0x20 && 2 <= n
    ensures HexField(Hex(v, n, false)) == v
  {
    Pow16Mono(2, n);
    Widths();
    HexValue(v, n, false);
  }

  lemma ZeroText()
    ensures Hex(0, 2, false) == "00" && Hex(0, 4, false) == "0000"
  {
    assert Hex(0, 1, false) == "" + "0";
    assert Hex(0, 2, false) == Hex(0, 1, false) + "0";
    assert Hex(0, 3, false) == Hex(0, 2, false) + "0";
    assert Hex(0, 4, false) == Hex(0, 3, false) + "0";
  }

  lemma BdfFields(a: string, b: string, c: string)
    requires |a| == 4 && |b| == 2 && |c| == 2
    ensures var s := a + ":" + b + ":" + c + ".0";
            |s| == 12 && s[0..4] == a && s[5..7] == b && s[8..10] == c && s[4] == ':' && s[7] == ':' && s[10] == '.'
  {
  }

  /** The three fields make up the low 13 bits. */
  lemma BdfDigits(p: nat)
    ensures p / 0x100 % 0x20 * 0x100 + p / 8 % 0x20 * 8 + p % 8 == p % 0x2000
    ensures p / 0x100 % 0x20 == p % 0x2000 / 0x100 && p / 8 % 0x20 == p % 0x2000 % 0x100 / 8 && p % 8 == p % 0x2000 % 0x100 % 8
  {
    var a, q := p / 0x2000, p % 0x2000;
    var x, y, z := q / 0x100, q % 0x100 / 8, q % 0x100 % 8;
    Bits.QuotientUnique(p, 0x100, a * 0x20 + x, y * 8 + z);
    Bits.QuotientUnique(a * 0x20 + x, 0x20, a, x);
    Bits.QuotientUnique(p, 8, a * 0x400 + x * 0x20 + y, z);
    Bits.QuotientUnique(a * 0x400 + x * 0x20 + y, 0x20, a * 0x20 + x, y);
  }

  /** The last character of an address does not count, so two addresses a file may use side by
      side can name the same device. */
  lemma LastCharacterIgnored(s: string, c: char)
    requires |s| == 12
    ensures PackBdf(s[..11] + [c]) == PackBdf(s)
  {
    var r := s[..11] + [c];
    assert r[0..4] == s[0..4] && r[5..7] == s[5..7] && r[8..10] == s[8..10];
  }

  /** Printed addresses are told apart by their low 13 bits. */
  lemma BdfTextTells(p: nat, q: nat)
    ensures BdfText(p) == BdfText(q) <==> p % 0x2000 == q % 0x2000
  {
    if BdfText(p) == BdfText(q) {
      PrintedBdf(p);
      PrintedBdf(q);
    }
    BdfDigits(p);
    BdfDigits(q);
  }
}
