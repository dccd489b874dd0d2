/** The three escapers of quote.go: string literals (QuoteString), hexadecimal
    byte literals (QuoteBytes) and backtick-quoted identifiers (QuoteIdentifier),
    plus the unquoted decimal text of integers used by Quote. Each escaper is a
    loop appending to a result (a method) proved equal to a specification
    function; each specification function is paired with a decoder that reads
    text the way MySQL's literal and identifier grammar does (MySQL 8.0
    Reference Manual, sections 11.1.1, 11.1.4 and 11.2), and the round trips
    are proved. The readers follow the default SQL mode only: under
    ANSI_QUOTES a double-quoted text is an identifier, and under
    NO_BACKSLASH_ESCAPES a backslash is an ordinary character. */
module Literals {
  import opened Wrappers
  import opened Errors
  import opened Strings

  type byte = x: int | 0 <= x < 256

  /** Control character 0x1A (Control+Z), which MySQL writes as \Z. */
  const SUB: char := 26 as char

  // ---------------------------------------------------------------------------
  // String literals

  /** True of the seven characters QuoteString escapes. */
  predicate NeedsEscape(c: char) {
    c == '\0' || c == '\n' || c == '\r' || c == '\\' || c == '\'' || c == '"' || c == SUB
  }

  /** The letter written after the backslash for an escaped character. */
  function EscapeCode(c: char): char
    requires NeedsEscape(c)
  {
    if c == '\0' then '0'
    else if c == '\n' then 'n'
    else if c == '\r' then 'r'
    else if c == '\\' then '\\'
    else if c == '\'' then '\''
    else if c == '"' then '"'
    else 'Z'
  }

  /** One character of a string as it appears inside the literal. */
  function EscapeChar(c: char): string {
    if NeedsEscape(c) then ['\\', EscapeCode(c)] else [c]
  }

  /** The interior of the literal for s. */
  function Escaped(s: string): string {
    FlatMap(EscapeChar, s)
  }

  /** The specification of QuoteString: s escaped, between double quotes. */
  function StringLiteral(s: string): string {
    "\"" + Escaped(s) + "\""
  }

  /** quote.go QuoteString: a rune loop appending to a result. */
  method QuoteString(s: string) returns (r: string)
    ensures r == StringLiteral(s)
  {
    var res := "\"";
    for i := 0 to |s|
      invariant res == "\"" + Escaped(s[..i])
    {
      FlatMapStep(EscapeChar, s, i);
      var ch := s[i];
      if ch == '\0' {
        res := res + "\\0";
      } else if ch == '\n' {
        res := res + "\\n";
      } else if ch == '\r' {
        res := res + "\\r";
      } else if ch == '\\' {
        res := res + "\\\\";
      } else if ch == '\'' {
        res := res + "\\'";
      } else if ch == '"' {
        res := res + "\\\"";
      } else if ch == SUB {
        res := res + "\\Z";
      } else {
        res := res + [ch];
      }
    }
    assert s[..|s|] == s;
    r := res + "\"";
  }

  /** What MySQL reads for the escape sequence backslash-c (section 11.1.1,
      table of special character escape sequences): \% and \_ stay as two
      characters, an unlisted character stands for itself. */
  function EscapeMeaning(c: char): string {
    if c == '0' then "\0"
    else if c == '\'' then "'"
    else if c == '"' then "\""
    else if c == 'b' then [8 as char]
    else if c == 'n' then "\n"
    else if c == 'r' then "\r"
    else if c == 't' then "\t"
    else if c == 'Z' then [SUB]
    else if c == '\\' then "\\"
    else if c == '%' then "\\%"
    else if c == '_' then "\\_"
    else [c]
  }

  function Prepend(p: string, o: Option<string>): (r: Option<string>)
    ensures r.Some? <==> o.Some?
  {
    if o.Some? then Some(p + o.value) else None
  }

  /** The text after the opening double quote of a MySQL double-quoted literal:
      a backslash escape, a doubled quote standing for one quote, or any other
      character, up to a single closing quote that must end the text. */
  function ParseStringBody(t: string): Option<string>
    decreases |t|
  {
    if t == [] then None
    else if t[0] == '"' then
      if |t| == 1 then Some([])
      else if t[1] == '"' then Prepend("\"", ParseStringBody(t[2..]))
      else None
    else if t[0] == '\\' then
      if |t| == 1 then None else Prepend(EscapeMeaning(t[1]), ParseStringBody(t[2..]))
    else Prepend([t[0]], ParseStringBody(t[1..]))
  }

  /** The value of a complete double-quoted literal, or None when t is not one. */
  function ParseStringLiteral(t: string): Option<string> {
    if t != [] && t[0] == '"' then ParseStringBody(t[1..]) else None
  }

  lemma {:induction false} EscapedBodyRoundTrip(s: string)
    ensures ParseStringBody(Escaped(s) + "\"") == Some(s)
  {
    if s != [] {
      var u := Escaped(s[1..]) + "\"";
      EscapedBodyRoundTrip(s[1..]);
      var t := Escaped(s) + "\"";
      assert t == EscapeChar(s[0]) + u;
      if NeedsEscape(s[0]) {
        assert t[0] == '\\' && t[1] == EscapeCode(s[0]) && t[2..] == u;
        assert EscapeMeaning(EscapeCode(s[0])) == [s[0]];
      } else {
        assert t[0] == s[0] && t[1..] == u;
      }
      assert [s[0]] + s[1..] == s;
    }
  }

  /** Round trip: MySQL reads the literal QuoteString produces as exactly s,
      and the literal ends at its last character (nothing in s can close it
      early). */
  lemma StringLiteralRoundTrip(s: string)
    ensures ParseStringLiteral(StringLiteral(s)) == Some(s)
  {
    var t := StringLiteral(s);
    assert t[1..] == Escaped(s) + "\"";
    EscapedBodyRoundTrip(s);
  }

  /** The four characters that never appear raw inside a literal. */
  predicate IsRawControl(c: char) {
    c == '\0' || c == '\n' || c == '\r' || c == SUB
  }

  /** Size and content of the interior: between |s| and 2|s| characters, with
      none of NUL, LF, CR or 0x1A left raw. */
  lemma {:induction false} EscapedShape(s: string)
    ensures |s| <= |Escaped(s)| <= 2 * |s|
    ensures forall i :: 0 <= i < |Escaped(s)| ==> !IsRawControl(Escaped(s)[i])
  {
    if s != [] {
      EscapedShape(s[1..]);
      var e := EscapeChar(s[0]);
      assert Escaped(s) == e + Escaped(s[1..]);
      forall i | 0 <= i < |Escaped(s)|
        ensures !IsRawControl(Escaped(s)[i])
      {
        if i >= |e| {
          assert Escaped(s)[i] == Escaped(s[1..])[i - |e|];
        }
      }
    }
  }

  /** QuoteString's result starts and ends with a double quote and has between
      |s| + 2 and 2|s| + 2 characters; its interior holds no raw NUL, LF, CR or
      0x1A. */
  lemma StringLiteralShape(s: string)
    ensures var r := StringLiteral(s);
      |s| + 2 <= |r| <= 2 * |s| + 2 && r[0] == '"' && r[|r| - 1] == '"' &&
      r[1..|r| - 1] == Escaped(s) &&
      forall i :: 1 <= i < |r| - 1 ==> !IsRawControl(r[i])
  {
    EscapedShape(s);
    var r := StringLiteral(s);
    assert r[1..|r| - 1] == Escaped(s);
    forall i | 1 <= i < |r| - 1
      ensures !IsRawControl(r[i])
    {
      assert r[i] == Escaped(s)[i - 1];
    }
  }

  // ---------------------------------------------------------------------------
  // Hexadecimal byte literals

  const HexDigits: string := "0123456789abcdef"

  /** Two lowercase hex digits, high nibble first (ch>>4, then ch&0xf). */
  function HexPair(b: byte): string {
    [HexDigits[b / 16], HexDigits[b % 16]]
  }

  /** The specification of QuoteBytes: "" for no bytes, otherwise 0x and one
      hex pair per byte. */
  function BytesLiteral(b: seq<byte>): string {
    if |b| == 0 then "\"\"" else "0x" + FlatMap(HexPair, b)
  }

  /** quote.go QuoteBytes: the empty case, then a byte loop appending. */
  method QuoteBytes(b: seq<byte>) returns (r: string)
    ensures r == BytesLiteral(b)
  {
    if |b| == 0 {
      return "\"\"";
    }
    var res := "0x";
    for i := 0 to |b|
      invariant res == "0x" + FlatMap(HexPair, b[..i])
    {
      FlatMapStep(HexPair, b, i);
      var ch := b[i];
      res := res + [HexDigits[ch / 16], HexDigits[ch % 16]];
    }
    assert b[..|b|] == b;
    r := res;
  }

  /** The value of a hex digit, upper or lower case. */
  function HexValue(c: char): Option<nat> {
    if '0' <= c <= '9' then Some(c as nat - '0' as nat)
    else if 'a' <= c <= 'f' then Some(c as nat - 'a' as nat + 10)
    else if 'A' <= c <= 'F' then Some(c as nat - 'A' as nat + 10)
    else None
  }

  /** Hex digit pairs back to bytes; None on an odd count or a non-digit. */
  function DecodeHex(t: string): Option<seq<byte>>
    decreases |t|
  {
    if t == [] then Some([])
    else if |t| == 1 then None
    else
      var hi, lo, rest := HexValue(t[0]), HexValue(t[1]), DecodeHex(t[2..]);
      if hi.Some? && lo.Some? && rest.Some? && hi.value < 16 && lo.value < 16 then
        Some([(hi.value * 16 + lo.value) as byte] + rest.value)
      else None
  }

  lemma HexValueOfDigit(d: nat)
    requires d < 16
    ensures HexValue(HexDigits[d]) == Some(d)
  {
  }

  /** A MySQL 0x-form hexadecimal literal (section 11.1.4): lowercase 0x and at
      least one digit; a bare 0x is not a literal. */
  function ParseHexLiteral(t: string): Option<seq<byte>> {
    if |t| > 2 && t[0] == '0' && t[1] == 'x' then DecodeHex(t[2..]) else None
  }

  lemma {:induction false} HexRoundTrip(b: seq<byte>)
    ensures DecodeHex(FlatMap(HexPair, b)) == Some(b)
  {
    if b != [] {
      HexRoundTrip(b[1..]);
      var t := FlatMap(HexPair, b);
      assert t == HexPair(b[0]) + FlatMap(HexPair, b[1..]);
      assert t[2..] == FlatMap(HexPair, b[1..]);
      HexValueOfDigit(b[0] / 16);
      HexValueOfDigit(b[0] % 16);
      assert t[0] == HexDigits[b[0] / 16] && t[1] == HexDigits[b[0] % 16];
      assert [b[0]] + b[1..] == b;
    }
  }

  lemma {:induction false} HexShape(b: seq<byte>)
    ensures |FlatMap(HexPair, b)| == 2 * |b|
    ensures forall i :: 0 <= i < |FlatMap(HexPair, b)| ==> FlatMap(HexPair, b)[i] in HexDigits
  {
    if b != [] {
      HexShape(b[1..]);
      var t := FlatMap(HexPair, b);
      assert t == HexPair(b[0]) + FlatMap(HexPair, b[1..]);
      forall i | 0 <= i < |t|
        ensures t[i] in HexDigits
      {
        if i >= 2 {
          assert t[i] == FlatMap(HexPair, b[1..])[i - 2];
        }
      }
    }
  }

  /** QuoteBytes: an empty input gives the empty string literal ""; any other
      input gives 0x followed by 2n lowercase hex digits that decode back to
      the bytes. A bare 0x, which the empty case avoids, is not a literal. */
  lemma BytesLiteralRoundTrip(b: seq<byte>)
    ensures b == [] ==> BytesLiteral(b) == "\"\"" && ParseStringLiteral(BytesLiteral(b)) == Some("")
    ensures ParseHexLiteral("0x") == None
    ensures b != [] ==>
      var r := BytesLiteral(b);
      |r| == 2 + 2 * |b| && r[..2] == "0x" &&
      (forall i :: 2 <= i < |r| ==> r[i] in HexDigits) &&
      ParseHexLiteral(r) == Some(b)
  {
    if b != [] {
      HexShape(b);
      HexRoundTrip(b);
      var r := BytesLiteral(b);
      assert r[2..] == FlatMap(HexPair, b);
      forall i | 2 <= i < |r|
        ensures r[i] in HexDigits
      {
        assert r[i] == FlatMap(HexPair, b)[i - 2];
      }
    } else {
      assert ParseStringBody("\"") == Some([]);
    }
  }

  // ---------------------------------------------------------------------------
  // Identifiers

  function DoubleBacktick(c: char): string {
    if c == '`' then "``" else [c]
  }

  /** The specification of QuoteIdentifier: ErrInvalidIdentifier when s holds
      NUL or a newline, else s between backticks with every backtick doubled. */
  function Identifier(s: string): Result<string, Error> {
    if '\0' in s || '\n' in s then Err(InvalidIdentifier)
    else Ok("`" + FlatMap(DoubleBacktick, s) + "`")
  }

  /** quote.go QuoteIdentifier: a rune loop appending to a result, returning
      early on NUL or newline. */
  method QuoteIdentifier(s: string) returns (r: Result<string, Error>)
    ensures r == Identifier(s)
  {
    var res := "`";
    for i := 0 to |s|
      invariant res == "`" + FlatMap(DoubleBacktick, s[..i])
      invariant '\0' !in s[..i] && '\n' !in s[..i]
    {
      FlatMapStep(DoubleBacktick, s, i);
      var ch := s[i];
      if ch == '\0' {
        assert ch in s;
        return Err(InvalidIdentifier);
      } else if ch == '\n' {
        assert ch in s;
        return Err(InvalidIdentifier);
      } else if ch == '`' {
        res := res + "``";
      } else {
        res := res + [ch];
      }
      assert s[..i + 1] == s[..i] + [ch];
    }
    assert s[..|s|] == s;
    r := Ok(res + "`");
  }

  /** The text after the opening backtick of a MySQL quoted identifier
      (section 11.2): a doubled backtick stands for one, NUL is not permitted,
      a single backtick closes the identifier and must end the text. It
      reads the quoting only: the limits MySQL puts on names (at most 64
      characters, no trailing space, no character above U+FFFF) are not
      checked. */
  function ParseIdentifierBody(t: string): Option<string>
    decreases |t|
  {
    if t == [] then None
    else if t[0] == '`' then
      if |t| == 1 then Some([])
      else if t[1] == '`' then Prepend("`", ParseIdentifierBody(t[2..]))
      else None
    else if t[0] == '\0' then None
    else Prepend([t[0]], ParseIdentifierBody(t[1..]))
  }

  function ParseIdentifier(t: string): Option<string> {
    if t != [] && t[0] == '`' then ParseIdentifierBody(t[1..]) else None
  }

  lemma {:induction false} DoubledBodyRoundTrip(s: string)
    requires '\0' !in s
    ensures ParseIdentifierBody(FlatMap(DoubleBacktick, s) + "`") == Some(s)
  {
    if s != [] {
      var c, rest := s[0], s[1..];
      assert s == [c] + rest;
      assert '\0' !in rest;
      var u := FlatMap(DoubleBacktick, rest) + "`";
      DoubledBodyRoundTrip(rest);
      var t := FlatMap(DoubleBacktick, s) + "`";
      assert t == DoubleBacktick(c) + u;
      if c == '`' {
        assert t[0] == '`' && t[1] == '`' && t[2..] == u;
        assert ParseIdentifierBody(t) == Prepend("`", Some(rest));
      } else {
        assert t[0] == c && t[1..] == u;
        assert ParseIdentifierBody(t) == Prepend([c], Some(rest));
      }
    }
  }

  /** QuoteIdentifier fails, with ErrInvalidIdentifier, exactly when s holds a
      NUL or a newline (a carriage return is accepted); on success the result
      is backtick-delimited and MySQL reads it back as exactly s. */
  lemma IdentifierRoundTrip(s: string)
    ensures Identifier(s).Err? <==> exists i :: 0 <= i < |s| && (s[i] == '\0' || s[i] == '\n')
    ensures Identifier(s).Err? ==> Identifier(s).error == InvalidIdentifier
    ensures Identifier(s).Ok? ==>
      var r := Identifier(s).value;
      |r| >= 2 && r[0] == '`' && r[|r| - 1] == '`' && ParseIdentifier(r) == Some(s)
  {
    if Identifier(s).Ok? {
      var r := Identifier(s).value;
      assert r[1..] == FlatMap(DoubleBacktick, s) + "`";
      DoubledBodyRoundTrip(s);
    }
  }

  // ---------------------------------------------------------------------------
  // Decimal integers (fmt's %d)

  function DigitChar(d: nat): char
    requires d < 10
  {
    HexDigits[d]
  }

  /** The decimal digits of n, most significant first, without leading zeros. */
  function NatText(n: nat): string
    decreases n
  {
    if n < 10 then [DigitChar(n)] else NatText(n / 10) + [DigitChar(n % 10)]
  }

  /** The specification of Quote on integers: decimal, a leading '-' for a
      negative value, no quotes. */
  function Decimal(i: int): string {
    if i < 0 then "-" + NatText(-i) else NatText(i)
  }

  predicate IsDigit(c: char) {
    '0' <= c <= '9'
  }

  /** The value of a non-empty digit string. */
  function DigitsValue(t: string): nat
    requires forall k :: 0 <= k < |t| ==> IsDigit(t[k])
  {
    if t == [] then 0
    else
      assert IsDigit(t[|t| - 1]);
      DigitsValue(t[..|t| - 1]) * 10 + (t[|t| - 1] as int - '0' as int)
  }

  /** How MySQL reads an unquoted integer literal: an optional '-' and at least
      one digit. */
  function ParseInteger(t: string): Option<int> {
    if t != [] && t[0] == '-' then
      var u := t[1..];
      if u != [] && forall k :: 0 <= k < |u| ==> IsDigit(u[k]) then Some(0 - DigitsValue(u) as int) else None
    else if t != [] && forall k :: 0 <= k < |t| ==> IsDigit(t[k]) then Some(DigitsValue(t))
    else None
  }

  lemma {:induction false} NatTextRoundTrip(n: nat)
    ensures |NatText(n)| >= 1
    ensures forall k :: 0 <= k < |NatText(n)| ==> IsDigit(NatText(n)[k])
    ensures DigitsValue(NatText(n)) == n
    ensures NatText(n)[0] == '0' ==> n == 0
  {
    if n >= 10 {
      NatTextRoundTrip(n / 10);
      var t := NatText(n);
      assert t[..|t| - 1] == NatText(n / 10);
      assert t[0] == NatText(n / 10)[0];
    }
  }

  /** Decimal text is unquoted digits, led by '-' exactly when i is negative,
      with no leading zero, and reads back as i. */
  lemma DecimalRoundTrip(i: int)
    ensures var r := Decimal(i);
      ParseInteger(r) == Some(i) &&
      (r[0] == '-' <==> i < 0) &&
      (forall k :: 0 <= k < |r| ==> r[k] != '"' && r[k] != '\'') &&
      (i != 0 ==> r[if i < 0 then 1 else 0] != '0')
  {
    var m: nat := if i < 0 then -i else i;
    NatTextRoundTrip(m);
    var r := Decimal(i);
    if i < 0 {
      assert r[1..] == NatText(m);
    }
    forall k | 0 <= k < |r|
      ensures r[k] != '"' && r[k] != '\''
    {
      if i < 0 && k > 0 {
        assert r[k] == NatText(m)[k - 1];
      }
    }
  }
}
