/** Hexadecimal, decimal and height notation, as the Go standard library and ibc-go read and write them. */
module Encoding {
  import opened Ibc
  import opened Wrappers

  // Hexadecimal.

  function HexDigit(n: nat): char
    requires n < 16
  {
    "0123456789abcdef"[n]
  }

  /** Both cases of the letters are digits. */
  function HexValue(c: char): (r: Option<nat>)
    ensures r.Some? ==> r.value < 16
  {
    if '0' <= c <= '9' then Some(c as int - '0' as int)
    else if 'a' <= c <= 'f' then Some(c as int - 'a' as int + 10)
    else if 'A' <= c <= 'F' then Some(c as int - 'A' as int + 10)
    else None
  }

  function HexEncode(data: seq<Byte>): string {
    if data == [] then ""
    else [HexDigit(data[0] / 16), HexDigit(data[0] % 16)] + HexEncode(data[1..])
  }

  function HexDecode(s: string): Option<seq<Byte>> {
    if s == "" then Some([])
    else if |s| == 1 || HexValue(s[0]).None? || HexValue(s[1]).None? then None
    else
      match HexDecode(s[2..])
      case None => None
      case Some(rest) => Some([16 * HexValue(s[0]).value + HexValue(s[1]).value] + rest)
  }

  lemma HexDigitValue(n: nat)
    requires n < 16
    ensures HexValue(HexDigit(n)) == Some(n)
  {
  }

  lemma DecodePair(high: nat, low: nat, rest: string)
    requires high < 16 && low < 16 && HexDecode(rest).Some?
    ensures HexDecode([HexDigit(high), HexDigit(low)] + rest) == Some([16 * high + low] + HexDecode(rest).value)
  {
    HexDigitValue(high);
    HexDigitValue(low);
    assert ([HexDigit(high), HexDigit(low)] + rest)[2..] == rest;
  }

  lemma BytePair(b: Byte)
    ensures 0 <= b / 16 < 16 && 0 <= b % 16 < 16 && 16 * (b / 16) + b % 16 == b
  {
  }

  lemma {:induction false} HexRoundTrip(data: seq<Byte>)
    ensures HexDecode(HexEncode(data)) == Some(data)
  {
    if data != [] {
      HexRoundTrip(data[1..]);
      BytePair(data[0]);
      DecodePair(data[0] / 16, data[0] % 16, HexEncode(data[1..]));
      assert [data[0]] + data[1..] == data;
    }
  }

  /** Exactly the strings of an even number of digits can be decoded, to half as many bytes. */
  lemma {:induction false} HexDecodable(s: string)
    ensures HexDecode(s).Some? <==> |s| % 2 == 0 && forall i :: 0 <= i < |s| ==> HexValue(s[i]).Some?
    ensures HexDecode(s).Some? ==> 2 * |HexDecode(s).value| == |s|
  {
    if |s| >= 2 {
      HexDecodable(s[2..]);
      assert forall i :: 2 <= i < |s| ==> s[i] == s[2..][i - 2];
    }
  }

  /** The sixteen digits in both cases. */
  lemma HexDigits(n: nat)
    requires n < 16
    ensures HexValue("0123456789abcdef"[n]) == Some(n)
    ensures HexValue("0123456789ABCDEF"[n]) == Some(n)
  {
  }

  /** No other character is a digit. */
  lemma OnlyHexDigits(c: char)
    requires HexValue(c).Some?
    ensures c == "0123456789abcdef"[HexValue(c).value] || c == "0123456789ABCDEF"[HexValue(c).value]
  {
  }

  /** Byte i is written by the digits 2i and 2i + 1, the higher first. */
  lemma {:induction false} HexBytes(s: string, i: nat)
    requires HexDecode(s).Some? && i < |HexDecode(s).value|
    ensures 2 * i + 1 < |s| && HexValue(s[2 * i]).Some? && HexValue(s[2 * i + 1]).Some?
    ensures HexDecode(s).value[i] == 16 * HexValue(s[2 * i]).value + HexValue(s[2 * i + 1]).value
  {
    HexDecodable(s);
    if i > 0 {
      HexBytes(s[2..], i - 1);
    }
  }

  // Decimal.

  function Digit(n: nat): char
    requires n < 10
  {
    "0123456789"[n]
  }

  function ShowNat(n: nat): string {
    if n < 10 then [Digit(n)] else ShowNat(n / 10) + [Digit(n % 10)]
  }

  function ReadNat(s: string): Option<nat> {
    if s == "" then Some(0)
    else
      var c := s[|s| - 1];
      match ReadNat(s[..|s| - 1])
      case None => None
      case Some(n) => if '0' <= c <= '9' then Some(10 * n + (c as int - '0' as int)) else None
  }

  /** A base 10 number of 64 bits: digits only, at least one, and no overflow. */
  function ParseUint64(s: string): Option<nat> {
    if s == "" || ReadNat(s).None? || ReadNat(s).value > MaxUint64 then None else ReadNat(s)
  }

  lemma {:induction false} ReadShown(n: nat)
    ensures ReadNat(ShowNat(n)) == Some(n) && ShowNat(n) != ""
    ensures forall c :: c in ShowNat(n) ==> '0' <= c <= '9'
  {
    var s := ShowNat(n);
    if n >= 10 {
      ReadShown(n / 10);
      assert s[..|s| - 1] == ShowNat(n / 10);
    } else {
      assert s[..|s| - 1] == "";
      assert ReadNat("") == Some(0);
    }
  }

  function Pow(base: nat, exponent: nat): nat {
    if exponent == 0 then 1 else base * Pow(base, exponent - 1)
  }

  /** The value of a string of digits: each digit times its power of ten. */
  function Positional(s: string): int {
    if s == "" then 0 else (s[0] as int - '0' as int) * Pow(10, |s| - 1) + Positional(s[1..])
  }

  lemma {:induction false} PositionalLast(s: string, c: char)
    ensures Positional(s + [c]) == 10 * Positional(s) + (c as int - '0' as int)
  {
    if s == "" {
      assert (s + [c])[1..] == "";
    } else {
      var d := s[0] as int - '0' as int;
      assert (s + [c])[1..] == s[1..] + [c];
      PositionalLast(s[1..], c);
      assert Pow(10, |s|) == 10 * Pow(10, |s| - 1);
      assert d * (10 * Pow(10, |s| - 1)) == 10 * (d * Pow(10, |s| - 1));
    }
  }

  lemma {:induction false} ReadNatIs(s: string)
    ensures ReadNat(s).Some? <==> forall c :: c in s ==> '0' <= c <= '9'
    ensures ReadNat(s).Some? ==> ReadNat(s).value == Positional(s)
  {
    if s != "" {
      var n := |s| - 1;
      ReadNatIs(s[..n]);
      assert s[n] in s;
      assert forall c :: c in s <==> c in s[..n] || c == s[n];
      assert s == s[..n] + [s[n]];
      PositionalLast(s[..n], s[n]);
    }
  }

  /** Exactly the non-empty strings of digits whose value fits into 64 bits are read, to that value. */
  lemma ParseUintIff(s: string)
    ensures ParseUint64(s).Some? <==>
            s != "" && (forall c :: c in s ==> '0' <= c <= '9') && Positional(s) <= 0xFFFF_FFFF_FFFF_FFFF
    ensures ParseUint64(s).Some? ==> ParseUint64(s).value == Positional(s)
  {
    ReadNatIs(s);
  }

  lemma UintRoundTrip(n: nat)
    requires n <= MaxUint64
    ensures ParseUint64(ShowNat(n)) == Some(n)
  {
    ReadShown(n);
  }

  // Heights.

  /** The parts of a string between the occurrences of a separator. */
  function Split(s: string, separator: char): (parts: seq<string>)
    ensures parts != []
  {
    if s == "" then [""]
    else
      var rest := Split(s[1..], separator);
      if s[0] == separator then [""] + rest else [[s[0]] + rest[0]] + rest[1..]
  }

  function ShowHeight(h: Height): string {
    ShowNat(h.revisionNumber) + "-" + ShowNat(h.revisionHeight)
  }

  /** Exactly two 64-bit numbers with a dash between them. */
  function ParseHeight(s: string): Option<Height> {
    var parts := Split(s, '-');
    if |parts| != 2 then None
    else
      match (ParseUint64(parts[0]), ParseUint64(parts[1]))
      case (Some(number), Some(height)) => Some(Height(number, height))
      case _ => None
  }

  lemma {:induction false} SplitOne(s: string, separator: char)
    requires separator !in s
    ensures Split(s, separator) == [s]
  {
    if s != "" {
      SplitOne(s[1..], separator);
      assert [s[0]] + s[1..] == s;
    }
  }

  lemma {:induction false} SplitTwo(a: string, b: string, separator: char)
    requires separator !in a && separator !in b
    ensures Split(a + [separator] + b, separator) == [a, b]
  {
    var s := a + [separator] + b;
    if a == "" {
      assert s[1..] == b;
      SplitOne(b, separator);
    } else {
      assert s[1..] == a[1..] + [separator] + b;
      SplitTwo(a[1..], b, separator);
      assert [s[0]] + a[1..] == a;
    }
  }

  lemma {:induction false} OnePart(s: string, separator: char)
    requires |Split(s, separator)| == 1
    ensures s == Split(s, separator)[0] && separator !in s
  {
    if s != "" {
      OnePart(s[1..], separator);
      assert s == [s[0]] + s[1..];
    }
  }

  lemma {:induction false} TwoParts(s: string, separator: char)
    requires |Split(s, separator)| == 2
    ensures var parts := Split(s, separator);
            s == parts[0] + [separator] + parts[1] && separator !in parts[0] && separator !in parts[1]
  {
    var parts, rest := Split(s, separator), Split(s[1..], separator);
    assert s == [s[0]] + s[1..];
    if s[0] == separator {
      OnePart(s[1..], separator);
      assert parts == ["", rest[0]];
    } else {
      TwoParts(s[1..], separator);
      assert parts[0] == [s[0]] + rest[0] && parts[1] == rest[1];
    }
  }

  /** Exactly two 64-bit numbers with a dash between them are read as a height, the revision number first. */
  lemma ParseHeightIff(s: string, h: Height)
    ensures ParseHeight(s) == Some(h) <==>
            exists a, b ::
              && s == a + "-" + b
              && ParseUint64(a) == Some(h.revisionNumber) && ParseUint64(b) == Some(h.revisionHeight)
  {
    if ParseHeight(s) == Some(h) {
      var parts := Split(s, '-');
      TwoParts(s, '-');
      assert s == parts[0] + "-" + parts[1];
    }
    if a, b :|
      && s == a + "-" + b
      && ParseUint64(a) == Some(h.revisionNumber) && ParseUint64(b) == Some(h.revisionHeight)
    {
      ParseUintIff(a);
      ParseUintIff(b);
      SplitTwo(a, b, '-');
    }
  }

  lemma HeightRoundTrip(h: Height)
    requires h.revisionNumber <= MaxUint64 && h.revisionHeight <= MaxUint64
    ensures ParseHeight(ShowHeight(h)) == Some(h)
  {
    ReadShown(h.revisionNumber);
    ReadShown(h.revisionHeight);
    SplitTwo(ShowNat(h.revisionNumber), ShowNat(h.revisionHeight), '-');
  }
}
