/** The dynamic values Quote accepts, as a closed variant in place of Go's
    reflection, and the dispatch of quote.go Quote over them. */
module Values {
  import opened Wrappers
  import opened Strings
  import opened Literals

  /** One dynamic value.
      - Null: the untyped nil.
      - Bytes: a []byte.
      - Str: a string.
      - Int: any signed or unsigned integer kind (fmt.Sprint text is its
        decimal only for types without a String method).
      - Float: a float32/float64, carried as its two renderings, fixed for
        "%f" and text for fmt.Sprint (floating point is not modelled).
      - Other: every other kind, carried as its fmt.Sprint text; a []rune is one
        of these, since rune is int32 and never reaches the Uint32 case.
      - Struct: a struct or a pointer chain to one, with its fmt.Sprint
        text; record None is a pointer chain that ends in nil, whatever it
        points to, since a lone nil pointer of any type stops the
        dereferencing loop of QuoteMultiple and QuoteColumnNames. */
  datatype Value =
    | Null
    | Bytes(bytes: seq<byte>)
    | Str(str: string)
    | Int(number: int)
    | Float(fixed: string, text: string)
    | Other(text: string)
    | Struct(record: Option<Record>, text: string)

  /** One struct field as reflection reports it: its Go name, whether it is
      exported, its `quicksql` tag when present, and its value. */
  datatype Field = Field(name: string, exported: bool, tag: Option<string>, value: Value)

  /** A struct's fields in declaration order. */
  type Record = seq<Field>

  /** quote.go Quote: the literal text for one value. */
  function Quote(v: Value): string {
    match v
    case Null => "NULL"
    case Bytes(b) => BytesLiteral(b)
    case Str(s) => StringLiteral(s)
    case Int(i) => Decimal(i)
    case Float(fixed, _) => fixed
    case Other(text) => StringLiteral(text)
    case Struct(_, text) => StringLiteral(text)
  }

  /** fmt.Sprint's default text for a value, as QuoteColumnNames uses it for a
      plain column argument. */
  function Sprint(v: Value): string {
    match v
    case Null => "<nil>"
    case Bytes(b) => "[" + Join(seq(|b|, k requires 0 <= k < |b| => Decimal(b[k])), " ") + "]"
    case Str(s) => s
    case Int(i) => Decimal(i)
    case Float(_, text) => text
    case Other(text) => text
    case Struct(_, text) => text
  }

  /** What MySQL reads a literal as: NULL, a string, a hexadecimal byte
      string or an integer. */
  datatype SqlValue = SqlNull | SqlString(s: string) | SqlHex(b: seq<byte>) | SqlInteger(i: int)

  /** A reader for the four literal forms Quote produces (floats aside). */
  function ParseLiteral(t: string): Option<SqlValue> {
    if t == "NULL" then Some(SqlNull)
    else if t != [] && t[0] == '"' then
      match ParseStringLiteral(t)
      case Some(s) => Some(SqlString(s))
      case None => None
    else if |t| >= 2 && t[..2] == "0x" then
      match ParseHexLiteral(t)
      case Some(b) => Some(SqlHex(b))
      case None => None
    else
      match ParseInteger(t)
      case Some(i) => Some(SqlInteger(i))
      case None => None
  }

  /** The value MySQL should see for v: nil is NULL, a byte slice is its bytes
      (an empty one being the empty string), integers are themselves, strings
      and every fallback kind are the text. */
  function Meaning(v: Value): Option<SqlValue> {
    match v
    case Null => Some(SqlNull)
    case Bytes(b) => if b == [] then Some(SqlString("")) else Some(SqlHex(b))
    case Str(s) => Some(SqlString(s))
    case Int(i) => Some(SqlInteger(i))
    case Float(_, _) => None
    case Other(text) => Some(SqlString(text))
    case Struct(_, text) => Some(SqlString(text))
  }

  lemma StringRead(s: string)
    ensures ParseLiteral(StringLiteral(s)) == Some(SqlString(s))
  {
    StringLiteralRoundTrip(s);
    assert StringLiteral(s) != "NULL";
  }

  lemma IntegerRead(i: int)
    ensures ParseLiteral(Decimal(i)) == Some(SqlInteger(i))
    ensures '"' !in Decimal(i)
  {
    DecimalRoundTrip(i);
  }

  /** Quote's dispatch is faithful: for every kind but floats, MySQL reads
      Quote(v) back as the value v stands for; integers come out unquoted. */
  lemma QuoteRoundTrip(v: Value)
    requires !v.Float?
    ensures ParseLiteral(Quote(v)) == Meaning(v)
    ensures v.Int? ==> '"' !in Quote(v)
  {
    match v
    case Null =>
    case Bytes(b) =>
      BytesLiteralRoundTrip(b);
      if b == [] {
        assert ParseLiteral("\"\"") == Some(SqlString(""));
      } else {
        assert BytesLiteral(b)[0] == '0';
      }
    case Str(s) => StringRead(s);
    case Int(i) => IntegerRead(i);
    case Other(text) => StringRead(text);
    case Struct(_, text) => StringRead(text);
  }

  /** The default text of the kinds fmt.Sprint is computed for: nil is
      <nil>, a string is itself, an integer is its decimal, and a byte slice
      is its bytes in decimal inside square brackets. */
  lemma SprintText(v: Value)
    ensures v.Null? ==> Sprint(v) == "<nil>"
    ensures v.Str? ==> Sprint(v) == v.str
    ensures v.Int? ==> ParseInteger(Sprint(v)) == Some(v.number)
    ensures v.Bytes? ==>
      |Sprint(v)| >= 2 && Sprint(v)[0] == '[' && Sprint(v)[|Sprint(v)| - 1] == ']'
    ensures v.Bytes? && v.bytes == [] ==> Sprint(v) == "[]"
    ensures v.Bytes? && |v.bytes| == 1 ==> Sprint(v) == "[" + Decimal(v.bytes[0]) + "]"
    ensures v.Bytes? && v.bytes != [] ==>
      var parts := SplitSpaces(Sprint(v)[1..|Sprint(v)| - 1]);
      |parts| == |v.bytes| &&
      forall k :: 0 <= k < |parts| ==> ParseInteger(parts[k]) == Some(v.bytes[k] as int)
  {
    if v.Int? {
      DecimalRoundTrip(v.number);
    }
    if v.Bytes? && v.bytes != [] {
      SprintBytes(v.bytes);
    }
  }

  /** The inside of a byte slice's text splits on spaces into one decimal
      per byte. */
  lemma SprintBytes(b: seq<byte>)
    requires b != []
    ensures var t := Sprint(Bytes(b)); var parts := SplitSpaces(t[1..|t| - 1]);
      |parts| == |b| && forall k :: 0 <= k < |parts| ==> ParseInteger(parts[k]) == Some(b[k] as int)
  {
    var digits := seq(|b|, k requires 0 <= k < |b| => Decimal(b[k]));
    forall k | 0 <= k < |b|
      ensures ' ' !in digits[k] && ParseInteger(digits[k]) == Some(b[k] as int)
    {
      NatTextRoundTrip(b[k]);
      DecimalRoundTrip(b[k]);
    }
    SplitJoin(digits);
    var t := Sprint(Bytes(b));
    assert t == "[" + Join(digits, " ") + "]";
    assert t[1..|t| - 1] == Join(digits, " ");
  }

  /** Examples from quote_test.go: nil, a byte slice, and signed and unsigned
      integers. */
  lemma QuoteExamples()
    ensures Quote(Null) == "NULL"
    ensures Quote(Int(42)) == "42"
    ensures Quote(Int(-123)) == "-123"
    ensures Quote(Bytes([])) == "\"\""
  {
  }

  lemma QuoteBytesExample()
    ensures Quote(Bytes([65, 66, 67])) == "0x414243"
  {
    assert FlatMap(HexPair, [67]) == "43";
    assert FlatMap(HexPair, [66, 67]) == "4243";
    assert FlatMap(HexPair, [65, 66, 67]) == "414243";
  }
}
