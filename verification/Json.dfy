/** Printing and reading JSON strings and integers, as PHP's json_encode and json_decode do with default flags. */
module Json {
  import opened Basics

  // ---------------------------------------------------------------------
  // Integers
  // ---------------------------------------------------------------------

  predicate IsDigit(c: char) { '0' <= c <= '9' }

  predicate AllDigits(s: string) { forall i | 0 <= i < |s| :: IsDigit(s[i]) }

  function Digits(n: nat): (s: string)
    ensures |s| > 0 && AllDigits(s)
  {
    var last := [(n % 10 + 48) as char];
    if n < 10 then last else Digits(n / 10) + last
  }

  function Decimal(n: int): string { if n < 0 then "-" + Digits(-n) else Digits(n) }

  function Value(s: string): nat
    requires AllDigits(s)
    decreases |s|
  {
    if s == "" then 0 else 10 * Value(s[..|s| - 1]) + (s[|s| - 1] as int - 48)
  }

  lemma {:induction false} ValueOfDigits(n: nat)
    ensures Value(Digits(n)) == n
  {
    var s := Digits(n);
    if n < 10 {
      assert s[..0] == "";
    } else {
      ValueOfDigits(n / 10);
      assert s[..|s| - 1] == Digits(n / 10);
    }
  }

  /** In decimal: every digit once, a number with a zero at its end, and a negative one. */
  lemma DecimalDigits()
    ensures forall n: nat | n < 10 :: Digits(n) == ["0123456789"[n]]
    ensures Digits(86400) == "86400" && Decimal(-15) == "-15"
  {
    assert Digits(8) == "8" && Digits(86) == "86" && Digits(864) == "864" && Digits(8640) == "8640";
    assert Digits(1) == "1" && Digits(15) == "15";
  }

  // ---------------------------------------------------------------------
  // Strings
  // ---------------------------------------------------------------------

  function HexDigit(n: nat): char
    requires n < 16
  {
    (if n < 10 then n + 48 else n + 87) as char
  }

  function HexValue(c: char): Option<nat> {
    if '0' <= c <= '9' then Some(c as int - 48)
    else if 'a' <= c <= 'f' then Some(c as int - 87)
    else if 'A' <= c <= 'F' then Some(c as int - 55)
    else None
  }

  function Hex4(n: nat): (s: string)
    requires n < 0x1_0000
    ensures |s| == 4
  {
    [HexDigit(n / 0x1000), HexDigit(n / 0x100 % 16), HexDigit(n / 16 % 16), HexDigit(n % 16)]
  }

  /** The four hex digits at the front of s. */
  function ReadHex4(s: string): (r: Option<nat>)
    ensures r.Some? ==> r.value < 0x1_0000
  {
    if |s| < 4 then None
    else
      match (HexValue(s[0]), HexValue(s[1]), HexValue(s[2]), HexValue(s[3]))
      case (Some(a), Some(b), Some(c), Some(d)) =>
        if a < 16 && b < 16 && c < 16 && d < 16 then Some(0x1000 * a + 0x100 * b + 16 * c + d) else None
      case _ => None
  }

  lemma ReadsHex4(n: nat, rest: string)
    requires n < 0x1_0000
    ensures ReadHex4(Hex4(n) + rest) == Some(n)
  {
    hide HexDigit, HexValue;
    var s := Hex4(n) + rest;
    HexDigitReads(n / 0x1000);
    HexDigitReads(n / 0x100 % 16);
    HexDigitReads(n / 16 % 16);
    HexDigitReads(n % 16);
    HexParts(n);
    assert s[0] == HexDigit(n / 0x1000) && s[1] == HexDigit(n / 0x100 % 16);
    assert s[2] == HexDigit(n / 16 % 16) && s[3] == HexDigit(n % 16);
  }

  lemma HexParts(n: nat)
    ensures 0x1000 * (n / 0x1000) + 0x100 * (n / 0x100 % 16) + 16 * (n / 16 % 16) + n % 16 == n
  {
    assert n / 16 / 16 == n / 0x100 && n / 0x100 / 16 == n / 0x1000;
  }

  lemma HexDigitReads(n: nat)
    requires n < 16
    ensures HexValue(HexDigit(n)) == Some(n)
  {
  }

  /** Characters that stand for themselves between quotes. */
  predicate PlainChar(c: char) { ' ' <= c <= '\U{7f}' && c != '\"' && c != '\\' && c != '/' }

  function Unicode(n: nat): (s: string)
    requires n < 0x1_0000
    ensures |s| == 6
  {
    "\\u" + Hex4(n)
  }

  function EscapeChar(c: char): (s: string)
    ensures |s| > 0 && (|s| == 1 <==> PlainChar(c)) && (PlainChar(c) ==> s == [c])
  {
    var n := c as int;
    if PlainChar(c) then [c]
    else if c == '\"' then "\\\""
    else if c == '\\' then "\\\\"
    else if c == '/' then "\\/"
    else if n == 8 then "\\b"
    else if n == 12 then "\\f"
    else if n == 10 then "\\n"
    else if n == 13 then "\\r"
    else if n == 9 then "\\t"
    else if n < 0x1_0000 then Unicode(n)
    else Unicode(0xD800 + (n - 0x1_0000) / 0x400) + Unicode(0xDC00 + (n - 0x1_0000) % 0x400)
  }

  function Escape(s: string): string {
    if s == "" then "" else EscapeChar(s[0]) + Escape(s[1..])
  }

  /** The escapes that json_encode prints: a slash is escaped, the rest of ASCII is not. */
  lemma EscapeTable(c: char)
    ensures EscapeChar('\"') == "\\\"" && EscapeChar('\\') == "\\\\" && EscapeChar('/') == "\\/"
    ensures EscapeChar('\n') == "\\n" && EscapeChar('\r') == "\\r" && EscapeChar('\t') == "\\t"
    ensures EscapeChar(8 as char) == "\\b" && EscapeChar(12 as char) == "\\f"
    ensures ' ' <= c <= '\U{7f}' && c != '\"' && c != '\\' && c != '/' ==> EscapeChar(c) == [c]
  {
  }

  /** Other control characters and everything outside ASCII as \\u and four digits, beyond the BMP as two of these. */
  lemma UnicodeTable()
    ensures EscapeChar(1 as char) == "\\u0001" && EscapeChar(0x3042 as char) == "\\u3042"
    ensures EscapeChar(0x1F600 as char) == "\\u" + "d83d" + ("\\u" + "de00")
  {
    HexTable();
    hide Hex4;
  }

  lemma HexTable()
    ensures Hex4(1) == "0001" && Hex4(0x3042) == "3042" && Hex4(0xD83D) == "d83d" && Hex4(0xDE00) == "de00"
  {
  }

  datatype Read = Read(text: string, rest: string)

  function Prepend(c: char, r: Option<Read>): Option<Read> {
    if r.Some? then Some(Read([c] + r.value.text, r.value.rest)) else None
  }

  function SimpleEscape(c: char): Option<char> {
    if c == '\"' || c == '\\' || c == '/' then Some(c)
    else if c == 'b' then Some(8 as char)
    else if c == 'f' then Some(12 as char)
    else if c == 'n' then Some(10 as char)
    else if c == 'r' then Some(13 as char)
    else if c == 't' then Some(9 as char)
    else None
  }

  /** The low half of a surrogate pair, behind the high half at the front of s. */
  function LowSurrogate(s: string): (r: Option<nat>)
    ensures r.Some? ==> |s| >= 12 && 0xDC00 <= r.value < 0xE000
  {
    if |s| >= 12 && "\\u" <= s[6..] && ReadHex4(s[8..]).Some? && 0xDC00 <= ReadHex4(s[8..]).value < 0xE000
    then Some(ReadHex4(s[8..]).value)
    else None
  }

  /** The character a \u escape at the front of s stands for, and how many characters it takes. */
  function UnicodeEscape(s: string): (r: Option<(char, nat)>)
    ensures r.Some? ==> 0 < r.value.1 <= |s|
  {
    if !("\\u" <= s) || ReadHex4(s[2..]).None? then None
    else
      var n := ReadHex4(s[2..]).value;
      if n < 0xD800 || n >= 0xE000 then Some((n as char, 6))
      else if n < 0xDC00 && LowSurrogate(s).Some? then
        Some((((n - 0xD800) * 0x400 + (LowSurrogate(s).value - 0xDC00) + 0x1_0000) as char, 12))
      else None
  }

  /** Reads a string whose opening quote has been consumed, through its closing quote. */
  function ReadString(s: string): (r: Option<Read>)
    ensures r.Some? ==> |r.value.rest| < |s|
    decreases |s|
  {
    if s == "" || s[0] < ' ' then None
    else if s[0] == '\"' then Some(Read("", s[1..]))
    else if s[0] != '\\' then Prepend(s[0], ReadString(s[1..]))
    else if |s| >= 2 && SimpleEscape(s[1]).Some? then Prepend(SimpleEscape(s[1]).value, ReadString(s[2..]))
    else if UnicodeEscape(s).Some? then
      var u := UnicodeEscape(s).value;
      Prepend(u.0, ReadString(s[u.1..]))
    else None
  }

  lemma ReadsUnicode(n: nat, rest: string)
    requires n < 0xD800 || 0xE000 <= n < 0x1_0000
    ensures UnicodeEscape(Unicode(n) + rest) == Some((n as char, 6))
  {
    var s := Unicode(n) + rest;
    assert s[2..] == Hex4(n) + rest;
    ReadsHex4(n, rest);
  }

  /** Half of a surrogate pair alone is an error. */
  lemma LoneSurrogate(half: nat, rest: string)
    requires 0xD800 <= half < 0xE000 && (half < 0xDC00 ==> !("\\u" <= rest))
    ensures ReadString(Unicode(half) + rest) == None
  {
    hide ReadHex4, Hex4;
    var s := Unicode(half) + rest;
    assert s[2..] == Hex4(half) + rest && s[6..] == rest;
    ReadsHex4(half, rest);
    assert s[0] == '\\' && s[1] == 'u' && SimpleEscape('u') == None;
  }

  lemma ReadsPair(hi: nat, lo: nat, rest: string)
    requires 0xD800 <= hi < 0xDC00 <= lo < 0xE000
    ensures UnicodeEscape(Unicode(hi) + (Unicode(lo) + rest)) ==
            Some((((hi - 0xD800) * 0x400 + (lo - 0xDC00) + 0x1_0000) as char, 12))
  {
    hide ReadHex4, Hex4;
    var s := Unicode(hi) + (Unicode(lo) + rest);
    assert s[2..] == Hex4(hi) + (Unicode(lo) + rest);
    ReadsHex4(hi, Unicode(lo) + rest);
    assert s[6..] == Unicode(lo) + rest;
    assert s[8..] == Hex4(lo) + rest;
    ReadsHex4(lo, rest);
  }

  lemma ReadsSurrogates(c: char, rest: string)
    requires c as int >= 0x1_0000
    ensures UnicodeEscape(EscapeChar(c) + rest) == Some((c, 12))
  {
    hide UnicodeEscape, Unicode;
    var m := c as int - 0x1_0000;
    var hi, lo := 0xD800 + m / 0x400, 0xDC00 + m % 0x400;
    assert EscapeChar(c) + rest == Unicode(hi) + (Unicode(lo) + rest);
    ReadsPair(hi, lo, rest);
  }

  lemma EscapeCharReads(c: char, rest: string)
    ensures ReadString(EscapeChar(c) + rest) == Prepend(c, ReadString(rest))
  {
    hide Hex4, Unicode, UnicodeEscape;
    var e := EscapeChar(c);
    var s := e + rest;
    assert s[|e|..] == rest;
    if |e| == 1 {
      assert s[0] == c;
    } else if |e| == 2 {
      assert s[0] == e[0] == '\\' && s[1] == e[1];
      assert SimpleEscape(e[1]) == Some(c);
    } else {
      if c as int >= 0x1_0000 { LongEscape(c, rest); } else { ShortEscape(c, rest); }
    }
  }

  lemma ShortEscape(c: char, rest: string)
    requires c as int < 0x1_0000 && |EscapeChar(c)| > 2
    ensures ReadString(EscapeChar(c) + rest) == Prepend(c, ReadString(rest))
  {
    var s := EscapeChar(c) + rest;
    assert s == Unicode(c as int) + rest;
    ReadsUnicode(c as int, rest);
    assert s[6..] == rest;
  }

  lemma LongEscape(c: char, rest: string)
    requires c as int >= 0x1_0000
    ensures ReadString(EscapeChar(c) + rest) == Prepend(c, ReadString(rest))
  {
    var s := EscapeChar(c) + rest;
    ReadsSurrogates(c, rest);
    assert s[12..] == rest;
    assert s[0] == '\\' && s[1] == 'u';
  }

  /** Reading behind an escaped text continues with what follows it. */
  lemma {:induction false} EscapeReads(s: string, rest: string)
    ensures ReadString(Escape(s) + rest) ==
            if ReadString(rest).Some? then Some(Read(s + ReadString(rest).value.text, ReadString(rest).value.rest))
            else None
  {
    hide EscapeChar, ReadString;
    if s == "" {
      assert Escape(s) + rest == rest;
      if ReadString(rest).Some? { assert s + ReadString(rest).value.text == ReadString(rest).value.text; }
    } else {
      assert Escape(s) + rest == EscapeChar(s[0]) + (Escape(s[1..]) + rest);
      EscapeCharReads(s[0], Escape(s[1..]) + rest);
      EscapeReads(s[1..], rest);
      if ReadString(rest).Some? {
        assert [s[0]] + (s[1..] + ReadString(rest).value.text) == s + ReadString(rest).value.text;
      }
    }
  }

  /** Every string survives printing and reading. */
  lemma StringRoundTrip(s: string, rest: string)
    ensures ReadString(Escape(s) + "\"" + rest) == Some(Read(s, rest))
  {
    assert Escape(s) + "\"" + rest == Escape(s) + ("\"" + rest);
    assert ("\"" + rest)[1..] == rest;
    EscapeReads(s, "\"" + rest);
    assert s + "" == s;
  }
}
