/** The two builder scenarios of insert_test.go, followed from the builder
    down to the bytes written. */
module Scenarios {
  import opened Wrappers
  import opened Errors
  import opened Strings
  import opened Literals
  import opened Values
  import opened Records
  import opened Spacer
  import opened Inserts
  import opened Canonical

  // ---------------------------------------------------------------------------
  // TestInsertSplit: ten one-column rows, a statement every four rows

  /** The rows Add([Int(0)]) .. Add([Int(n - 1)]) hand to the spacer. */
  function Counted(n: nat): seq<string> {
    seq(n, k requires 0 <= k < n => Row([Int(k)]))
  }

  const SplitTop: string := "INSERT INTO `split` (`number`) VALUES\n"

  /** The expected buffer of TestInsertSplit, statement by statement. */
  const SplitFirst: string := "INSERT INTO `split` (`number`) VALUES\n\t(0),\n\t(1),\n\t(2),\n\t(3);\n\n"
  const SplitSecond: string := "INSERT INTO `split` (`number`) VALUES\n\t(4),\n\t(5),\n\t(6),\n\t(7);\n\n"
  const SplitThird: string := "INSERT INTO `split` (`number`) VALUES\n\t(8),\n\t(9);\n\n"
  const SplitText: string := SplitFirst + SplitSecond + SplitThird

  /** A name without backtick, NUL or newline is quoted by enclosing it in
      backticks. */
  lemma {:induction false} PlainBody(s: string)
    requires forall i :: 0 <= i < |s| ==> s[i] != '`'
    ensures FlatMap(DoubleBacktick, s) == s
  {
    if s != [] {
      PlainBody(s[1..]);
      assert [s[0]] + s[1..] == s;
    }
  }

  lemma PlainIdentifier(s: string)
    requires forall i :: 0 <= i < |s| ==> s[i] != '`' && s[i] != '\0' && s[i] != '\n'
    ensures Identifier(s) == Ok("`" + s + "`")
  {
    PlainBody(s);
  }

  lemma SplitTable()
    ensures Identifier("split") == Ok("`split`")
  {
    PlainIdentifier("split");
    assert "`" + "split" + "`" == "`split`";
  }

  lemma SplitColumns()
    ensures Columns([Str("number")]) == Ok("`number`")
  {
    PlainIdentifier("number");
    assert "`" + "number" + "`" == "`number`";
    var names := seq(1, k requires 0 <= k < 1 => Sprint([Str("number")][k]));
    assert names == ["number"];
    assert names[..0] == [];
    assert QuoteNames(names[..0]) == Ok([]);
    var ids: seq<string> := [];
    assert ids + ["`number`"] == ["`number`"];
  }

  lemma SplitHeader()
    ensures Header(InsertVerb, "`split`", "`number`") == SplitTop
  {
  }

  lemma CountedDigits()
    ensures Counted(10) == ["0", "1", "2", "3", "4", "5", "6", "7", "8", "9"]
  {
    forall k | 0 <= k < 10
      ensures Counted(10)[k] == [HexDigits[k]]
    {
      assert Row([Int(k)]) == Quote(Int(k));
    }
  }

  lemma Statement4(top: string, a: string, b: string, c: string, d: string)
    ensures Statement(top, [a, b, c, d]) == [top, Mid(a), Mid(b), Mid(c), Bot(d)]
  {
    assert [a, b, c, d][..3] == [a, b, c];
    assert [a, b, c][..2] == [a, b];
    assert [a, b][..1] == [a];
    assert [a][..0] == [];
    assert Mids([a]) == [Mid(a)];
    assert Mids([a, b]) == [Mid(a), Mid(b)];
    assert Mids([a, b, c]) == [Mid(a), Mid(b), Mid(c)];
  }

  lemma Statement2(top: string, a: string, b: string)
    ensures Statement(top, [a, b]) == [top, Mid(a), Bot(b)]
  {
    assert [a, b][..1] == [a];
    assert [a][..0] == [];
    assert Mids([a]) == [Mid(a)];
  }

  lemma Concat1(a: string)
    ensures Concat([a]) == a
  {
    assert [a][1..] == [];
    assert a + [] == a;
  }

  lemma ConcatCons(a: string, rest: seq<string>)
    ensures Concat([a] + rest) == a + Concat(rest)
  {
    assert ([a] + rest)[1..] == rest;
  }

  lemma Concat5(a: string, b: string, c: string, d: string, e: string)
    ensures Concat([a, b, c, d, e]) == a + b + c + d + e
  {
    Concat1(e);
    ConcatCons(d, [e]);
    assert [d] + [e] == [d, e];
    ConcatCons(c, [d, e]);
    assert [c] + [d, e] == [c, d, e];
    ConcatCons(b, [c, d, e]);
    assert [b] + [c, d, e] == [b, c, d, e];
    ConcatCons(a, [b, c, d, e]);
    assert [a] + [b, c, d, e] == [a, b, c, d, e];
    assert a + (b + (c + (d + e))) == a + b + c + d + e;
  }

  lemma Concat3(a: string, b: string, c: string)
    ensures Concat([a, b, c]) == a + b + c
  {
    Concat1(c);
    ConcatCons(b, [c]);
    assert [b] + [c] == [b, c];
    ConcatCons(a, [b, c]);
    assert [a] + [b, c] == [a, b, c];
    assert a + (b + c) == a + b + c;
  }

  lemma SplitBatches()
    ensures Batches(Counted(10), 4) == [["0", "1", "2", "3"], ["4", "5", "6", "7"], ["8", "9"]]
  {
    CountedDigits();
    var rows := Counted(10);
    var b1, b2, b3 := ["0", "1", "2", "3"], ["4", "5", "6", "7"], ["8", "9"];
    assert rows[..4] == b1 && rows[4..][..4] == b2 && rows[4..][4..] == b3;
    assert Batches(rows[4..][4..], 4) == [b3];
    assert Batches(rows[4..], 4) == [b2] + [b3];
  }

  lemma Render3(top: string, x: seq<string>, y: seq<string>, z: seq<string>)
    ensures Render(top, [x, y, z]) == Statement(top, x) + (Statement(top, y) + Statement(top, z))
  {
    assert [x, y, z][1..] == [y, z];
    assert [y, z][1..] == [z];
    assert [z][1..] == [];
    assert Render(top, [z]) == Statement(top, z) + Render(top, []);
    assert Statement(top, z) + [] == Statement(top, z);
    assert Render(top, [y, z]) == Statement(top, y) + Render(top, [z]);
    assert Render(top, [x, y, z]) == Statement(top, x) + Render(top, [y, z]);
  }

  lemma SplitStatement1()
    ensures Concat(Statement(SplitTop, ["0", "1", "2", "3"])) == SplitFirst
  {
    Statement4(SplitTop, "0", "1", "2", "3");
    Concat5(SplitTop, Mid("0"), Mid("1"), Mid("2"), Bot("3"));
  }

  lemma SplitStatement2()
    ensures Concat(Statement(SplitTop, ["4", "5", "6", "7"])) == SplitSecond
  {
    Statement4(SplitTop, "4", "5", "6", "7");
    Concat5(SplitTop, Mid("4"), Mid("5"), Mid("6"), Bot("7"));
  }

  lemma SplitStatement3()
    ensures Concat(Statement(SplitTop, ["8", "9"])) == SplitThird
  {
    Statement2(SplitTop, "8", "9");
    Concat3(SplitTop, Mid("8"), Bot("9"));
  }

  lemma SplitRender()
    ensures Concat(Render(SplitTop, Batches(Counted(10), 4))) == SplitText
  {
    SplitBatches();
    var s1 := Statement(SplitTop, ["0", "1", "2", "3"]);
    var s2 := Statement(SplitTop, ["4", "5", "6", "7"]);
    var s3 := Statement(SplitTop, ["8", "9"]);
    Render3(SplitTop, ["0", "1", "2", "3"], ["4", "5", "6", "7"], ["8", "9"]);
    ConcatAppend(s1, s2 + s3);
    ConcatAppend(s2, s3);
    SplitStatement1();
    SplitStatement2();
    SplitStatement3();
  }

  /** One more Add in the split scenario. */
  lemma SplitStep(w0: Stream, i: nat)
    requires Reliable(w0)
    ensures var o := PushAll(SplitTop, 4, Initial, w0, Counted(i));
      PushAll(SplitTop, 4, Initial, w0, Counted(i + 1)) == PushStep(SplitTop, 4, o.state, o.out, Row([Int(i)])) &&
      PushAll(SplitTop, 4, Initial, w0, Counted(i + 1)).err.None?
  {
    assert Counted(i + 1) == Counted(i) + [Row([Int(i)])];
    ReliablePushAll(SplitTop, 4, w0, Counted(i));
    PushAllSnoc(SplitTop, 4, Initial, w0, Counted(i), Row([Int(i)]));
    ReliablePushAll(SplitTop, 4, w0, Counted(i + 1));
  }

  /** The split scenario's Flush, from an empty buffer. */
  lemma SplitFlush(w0: Stream)
    requires w0 == Stream([], 0, {})
    ensures var o := PushAll(SplitTop, 4, Initial, w0, Counted(10));
      var f := FlushStep(SplitTop, 4, o.state, o.out);
      f.err == None && Concat(f.out.log) == SplitText
  {
    BatchingLaw(SplitTop, 4, w0, Counted(10));
    assert [] + Render(SplitTop, Batches(Counted(10), 4)) == Render(SplitTop, Batches(Counted(10), 4));
    SplitRender();
  }

  /** TestInsertSplit: NewInsert(buf, "split", "number").Every(4), then
      Add(0) .. Add(9) and Flush write three statements of four, four and two
      rows, and no error is recorded. */
  method SplitExample() returns (text: string, e: Option<Error>)
    ensures e == None
    ensures text == SplitText
  {
    var buf := new Sink({});
    var ins := new Insert.NewInsert(buf, "split", [Str("number")]);
    SplitTable();
    SplitColumns();
    SplitHeader();
    ins.Every(4);
    ghost var w0 := buf.View();
    for i := 0 to 10
      invariant ins.sp.wri == buf && ins.sp.split == 4 && ins.sp.Top() == SplitTop
      invariant ins.err == None
      invariant Outcome(ins.sp.Machine(), buf.View(), None) == PushAll(SplitTop, 4, Initial, w0, Counted(i))
    {
      ins.Add([Int(i)]);
      SplitStep(w0, i);
    }
    ins.Flush();
    SplitFlush(w0);
    text := Concat(buf.log);
    e := ins.Err();
  }

  // ---------------------------------------------------------------------------
  // TestInsertSimple: a struct column list, REPLACE, two struct rows

  /** A value of the test's struct type: ID int, Name string, Bytes []byte,
      all exported and untagged. */
  function Sample(id: int, name: string, bytes: seq<byte>): Record {
    [Field("ID", true, None, Int(id)), Field("Name", true, None, Str(name)), Field("Bytes", true, None, Bytes(bytes))]
  }

  /** The bytes of "Hello, World!" and of "Test". */
  const Hello: seq<byte> := [72, 101, 108, 108, 111, 44, 32, 87, 111, 114, 108, 100, 33]
  const TestBytes: seq<byte> := [84, 101, 115, 116]

  /** The expected buffer of TestInsertSimple, line by line. */
  const SimpleTop: string := "REPLACE INTO `sample` (`id`, `name`, `bytes`) VALUES\n"
  const SimpleMiddle: string := "\t(1, \"Demo\", 0x48656c6c6f2c20576f726c6421),\n"
  const SimpleBottom: string := "\t(2, \"Test\", 0x54657374);\n\n"
  const SimpleText: string := SimpleTop + SimpleMiddle + SimpleBottom

  // Column names

  lemma NameColumn()
    ensures CanonicalName("Name") == "name"
  {
    var w := "Name";
    assert forall k :: 1 <= k < |w| ==> IsLower(w[k]);
    assert Lower(w) == "name" by {
      assert Lower(w)[0] == 'n';
    }
    SingleWordExample(w, "name");
  }

  lemma BytesColumn()
    ensures CanonicalName("Bytes") == "bytes"
  {
    var w := "Bytes";
    assert forall k :: 1 <= k < |w| ==> IsLower(w[k]);
    assert Lower(w) == "bytes" by {
      assert Lower(w)[0] == 'b';
    }
    SingleWordExample(w, "bytes");
  }

  /** The column names of the sample struct are its canonical field names. */
  lemma SampleNames(id: int, name: string, bytes: seq<byte>)
    ensures ColumnNames(Sample(id, name, bytes)) == ["id", "name", "bytes"]
  {
    var rec := Sample(id, name, bytes);
    AcronymExample();
    NameColumn();
    BytesColumn();
    assert rec[..2][..1][..0] == [];
    assert ColumnNames(rec[..2][..1]) == ["id"];
    assert ColumnNames(rec[..2]) == ["id", "name"];
  }

  lemma QuoteNames3(a: string, b: string, c: string)
    requires Identifier(a).Ok? && Identifier(b).Ok? && Identifier(c).Ok?
    ensures QuoteNames([a, b, c]) == Ok([Identifier(a).value, Identifier(b).value, Identifier(c).value])
  {
    var x, y, z := Identifier(a).value, Identifier(b).value, Identifier(c).value;
    assert [a, b, c][..2] == [a, b];
    assert [a, b][..1] == [a];
    assert [a][..0] == [];
    var none: seq<string> := [];
    assert none + [x] == [x];
    assert QuoteNames([a]) == Ok([x]);
    assert [x] + [y] == [x, y];
    assert QuoteNames([a, b]) == Ok([x, y]);
    assert [x, y] + [z] == [x, y, z];
  }

  lemma Join3(a: string, b: string, c: string)
    ensures Join([a, b, c], ", ") == a + ", " + b + ", " + c
  {
    assert [a, b, c][1..] == [b, c];
    assert [b, c][1..] == [c];
    assert Join([b, c], ", ") == b + ", " + c;
  }

  /** The column list of a three-field record whose names quote. */
  lemma Columns3(rec: Record, text: string, n1: string, n2: string, n3: string,
                 q1: string, q2: string, q3: string, joined: string)
    requires ColumnNames(rec) == [n1, n2, n3]
    requires Identifier(n1) == Ok(q1) && Identifier(n2) == Ok(q2) && Identifier(n3) == Ok(q3)
    requires q1 + ", " + q2 + ", " + q3 == joined
    ensures Columns([Struct(Some(rec), text)]) == Ok(joined)
  {
    QuoteNames3(n1, n2, n3);
    Join3(q1, q2, q3);
  }

  lemma IdQuoted()
    ensures Identifier("id") == Ok("`id`")
  {
    PlainIdentifier("id");
    assert "`" + "id" + "`" == "`id`";
  }

  lemma NameQuoted()
    ensures Identifier("name") == Ok("`name`")
  {
    PlainIdentifier("name");
    assert "`" + "name" + "`" == "`name`";
  }

  lemma BytesQuoted()
    ensures Identifier("bytes") == Ok("`bytes`")
  {
    PlainIdentifier("bytes");
    assert "`" + "bytes" + "`" == "`bytes`";
  }

  lemma SampleQuoted()
    ensures Identifier("sample") == Ok("`sample`")
  {
    PlainIdentifier("sample");
    assert "`" + "sample" + "`" == "`sample`";
  }

  lemma ColumnListText()
    ensures "`id`" + ", " + "`name`" + ", " + "`bytes`" == "`id`, `name`, `bytes`"
  {
  }

  lemma SimpleColumns(rec: Record, text: string)
    requires rec == Sample(0, "", [])
    ensures Columns([Struct(Some(rec), text)]) == Ok("`id`, `name`, `bytes`")
  {
    SampleNames(0, "", []);
    IdQuoted();
    NameQuoted();
    BytesQuoted();
    ColumnListText();
    Columns3(rec, text, "id", "name", "bytes", "`id`", "`name`", "`bytes`", "`id`, `name`, `bytes`");
  }

  // The header

  lemma HeaderText(verb: string, table: string, cols: string, front: string, back: string, line: string)
    requires verb + " " + table + " (" == front
    requires cols + ") VALUES\n" == back
    requires front + back == line
    ensures Header(verb, table, cols) == line
  {
  }

  lemma ReplaceText()
    ensures ReplaceVerb == "REPLACE INTO"
  {
  }

  lemma TopFront()
    ensures "REPLACE INTO" + " " + "`sample`" + " (" == "REPLACE INTO `sample` ("
  {
  }

  lemma TopBack()
    ensures "`id`, `name`, `bytes`" + ") VALUES\n" == "`id`, `name`, `bytes`) VALUES\n"
  {
  }

  lemma TopWhole()
    ensures "REPLACE INTO `sample` (" + "`id`, `name`, `bytes`) VALUES\n" == "REPLACE INTO `sample` (`id`, `name`, `bytes`) VALUES\n"
  {
  }

  lemma TopConst()
    ensures SimpleTop == "REPLACE INTO `sample` (`id`, `name`, `bytes`) VALUES\n"
  {
  }

  lemma SimpleHeader()
    ensures Header(ReplaceVerb, "`sample`", "`id`, `name`, `bytes`") == SimpleTop
  {
    ReplaceText();
    TopFront();
    TopBack();
    TopWhole();
    TopConst();
    HeaderText(ReplaceVerb, "`sample`", "`id`, `name`, `bytes`",
      "REPLACE INTO `sample` (", "`id`, `name`, `bytes`) VALUES\n", SimpleTop);
  }

  // Hexadecimal literals

  lemma HexCons(x: byte, rest: seq<byte>)
    ensures FlatMap(HexPair, [x] + rest) == HexPair(x) + FlatMap(HexPair, rest)
  {
    assert ([x] + rest)[1..] == rest;
  }

  lemma Hex1(a: byte)
    ensures FlatMap(HexPair, [a]) == HexPair(a)
  {
    assert [a][1..] == [];
    assert HexPair(a) + [] == HexPair(a);
  }

  lemma Hex4(a: byte, b: byte, c: byte, d: byte)
    ensures FlatMap(HexPair, [a, b, c, d]) == HexPair(a) + (HexPair(b) + (HexPair(c) + HexPair(d)))
  {
    Hex1(d);
    HexCons(c, [d]);
    assert [c] + [d] == [c, d];
    HexCons(b, [c, d]);
    assert [b] + [c, d] == [b, c, d];
    HexCons(a, [b, c, d]);
    assert [a] + [b, c, d] == [a, b, c, d];
  }

  lemma HelloConst()
    ensures Hello == [72, 101, 108, 108, 111, 44, 32, 87, 111, 114, 108, 100, 33]
  {
  }

  lemma HelloChunks(h: seq<byte>)
    requires h == [72, 101, 108, 108, 111, 44, 32, 87, 111, 114, 108, 100, 33]
    ensures h == [72, 101, 108, 108] + ([111, 44, 32, 87] + ([111, 114, 108, 100] + [33]))
  {
  }

  lemma HelloA()
    ensures HexPair(72) + (HexPair(101) + (HexPair(108) + HexPair(108))) == "48656c6c"
  {
  }

  lemma HelloB()
    ensures HexPair(111) + (HexPair(44) + (HexPair(32) + HexPair(87))) == "6f2c2057"
  {
  }

  lemma HelloC()
    ensures HexPair(111) + (HexPair(114) + (HexPair(108) + HexPair(100))) == "6f726c64"
  {
  }

  lemma HelloD()
    ensures HexPair(33) == "21"
  {
  }

  lemma HelloDigits()
    ensures "0x" + ("48656c6c" + ("6f2c2057" + ("6f726c64" + "21"))) == "0x48656c6c6f2c20576f726c6421"
  {
  }

  lemma HelloHex(bytes: seq<byte>)
    requires bytes == [72, 101, 108, 108, 111, 44, 32, 87, 111, 114, 108, 100, 33]
    ensures BytesLiteral(bytes) == "0x48656c6c6f2c20576f726c6421"
  {
    var a, b, c, d := [72, 101, 108, 108], [111, 44, 32, 87], [111, 114, 108, 100], [33];
    HelloChunks(bytes);
    FlatMapConcat(HexPair, a, b + (c + d));
    FlatMapConcat(HexPair, b, c + d);
    FlatMapConcat(HexPair, c, d);
    Hex4(72, 101, 108, 108);
    Hex4(111, 44, 32, 87);
    Hex4(111, 114, 108, 100);
    Hex1(33);
    HelloA();
    HelloB();
    HelloC();
    HelloD();
    HelloDigits();
  }

  lemma HelloLiteral()
    ensures Quote(Bytes(Hello)) == "0x48656c6c6f2c20576f726c6421"
  {
    HelloConst();
    HelloHex(Hello);
  }

  lemma TestConst()
    ensures TestBytes == [84, 101, 115, 116]
  {
  }

  lemma TestDigits()
    ensures "0x" + (HexPair(84) + (HexPair(101) + (HexPair(115) + HexPair(116)))) == "0x54657374"
  {
  }

  lemma TestLiteral()
    ensures Quote(Bytes(TestBytes)) == "0x54657374"
  {
    TestConst();
    Hex4(84, 101, 115, 116);
    TestDigits();
  }

  // The rows

  /** A string without a character QuoteString escapes is quoted as is. */
  lemma {:induction false} PlainEscaped(s: string)
    requires forall i :: 0 <= i < |s| ==> !NeedsEscape(s[i])
    ensures Escaped(s) == s
  {
    if s != [] {
      PlainEscaped(s[1..]);
      assert [s[0]] + s[1..] == s;
    }
  }

  lemma SampleParts(id: int, name: string, bytes: seq<byte>)
    ensures RowParts(Sample(id, name, bytes)) == [Quote(Int(id)), Quote(Str(name)), Quote(Bytes(bytes))]
  {
    var rec := Sample(id, name, bytes);
    assert rec[..2][..1][..0] == [];
    assert RowParts(rec[..2][..1]) == [Quote(Int(id))];
    assert RowParts(rec[..2]) == [Quote(Int(id)), Quote(Str(name))];
  }

  /** The row of a sample struct from the literals of its fields. */
  lemma SampleRowText(id: int, name: string, bytes: seq<byte>, text: string,
                      qi: string, qn: string, qb: string, row: string)
    requires Quote(Int(id)) == qi && Quote(Str(name)) == qn && Quote(Bytes(bytes)) == qb
    requires qi + ", " + qn + ", " + qb == row
    ensures Row([Struct(Some(Sample(id, name, bytes)), text)]) == row
  {
    SampleParts(id, name, bytes);
    Join3(qi, qn, qb);
  }

  /** A row line from its pieces. */
  lemma LineText(head: string, row: string, tail: string, front: string, line: string)
    requires head + row == front && front + tail == line
    ensures head + row + tail == line
  {
  }

  lemma OneText()
    ensures Quote(Int(1)) == "1"
  {
  }

  lemma TwoText()
    ensures Quote(Int(2)) == "2"
  {
  }

  lemma DemoText()
    ensures Quote(Str("Demo")) == "\"Demo\""
  {
    PlainEscaped("Demo");
    assert "\"" + "Demo" + "\"" == "\"Demo\"";
  }

  lemma TestText()
    ensures Quote(Str("Test")) == "\"Test\""
  {
    PlainEscaped("Test");
    assert "\"" + "Test" + "\"" == "\"Test\"";
  }

  lemma FirstRowHead()
    ensures "1" + ", " + "\"Demo\"" + ", " == "1, \"Demo\", "
  {
  }

  lemma FirstRowTail()
    ensures "1, \"Demo\", " + "0x48656c6c6f2c20576f726c6421" == "1, \"Demo\", 0x48656c6c6f2c20576f726c6421"
  {
  }

  lemma MiddleHead()
    ensures "\t(" + "1, \"Demo\", 0x48656c6c6f2c20576f726c6421" == "\t(1, \"Demo\", 0x48656c6c6f2c20576f726c6421"
  {
  }

  lemma MiddleTail()
    ensures "\t(1, \"Demo\", 0x48656c6c6f2c20576f726c6421" + "),\n" == "\t(1, \"Demo\", 0x48656c6c6f2c20576f726c6421),\n"
  {
  }

  lemma MiddleConst()
    ensures SimpleMiddle == "\t(1, \"Demo\", 0x48656c6c6f2c20576f726c6421),\n"
  {
  }

  lemma SecondRowText()
    ensures "2" + ", " + "\"Test\"" + ", " + "0x54657374" == "2, \"Test\", 0x54657374"
  {
  }

  lemma BottomHalf()
    ensures "\t(" + "2, \"Test\", 0x54657374" == "\t(2, \"Test\", 0x54657374"
  {
  }

  lemma BottomWhole()
    ensures "\t(2, \"Test\", 0x54657374" + ");\n\n" == "\t(2, \"Test\", 0x54657374);\n\n"
  {
  }

  lemma BottomConst()
    ensures SimpleBottom == "\t(2, \"Test\", 0x54657374);\n\n"
  {
  }

  lemma SimpleFirstRow(text: string)
    ensures Mid(Row([Struct(Some(Sample(1, "Demo", Hello)), text)])) == SimpleMiddle
  {
    OneText();
    DemoText();
    HelloLiteral();
    FirstRowHead();
    FirstRowTail();
    SampleRowText(1, "Demo", Hello, text, "1", "\"Demo\"", "0x48656c6c6f2c20576f726c6421",
      "1, \"Demo\", 0x48656c6c6f2c20576f726c6421");
    MiddleHead();
    MiddleTail();
    MiddleConst();
    LineText("\t(", "1, \"Demo\", 0x48656c6c6f2c20576f726c6421", "),\n",
      "\t(1, \"Demo\", 0x48656c6c6f2c20576f726c6421", SimpleMiddle);
  }

  lemma SimpleSecondRow(text: string)
    ensures Bot(Row([Struct(Some(Sample(2, "Test", TestBytes)), text)])) == SimpleBottom
  {
    TwoText();
    TestText();
    TestLiteral();
    SecondRowText();
    SampleRowText(2, "Test", TestBytes, text, "2", "\"Test\"", "0x54657374", "2, \"Test\", 0x54657374");
    BottomHalf();
    BottomWhole();
    BottomConst();
    LineText("\t(", "2, \"Test\", 0x54657374", ");\n\n", "\t(2, \"Test\", 0x54657374", SimpleBottom);
  }

  // The run

  /** Two pushes and a flush on a fresh spacer with a chunk size above one
      write one statement. */
  lemma TwoRowsOneStatement(top: string, split: int, w0: Stream, r1: string, r2: string)
    requires w0 == Stream([], 0, {}) && split > 1
    ensures var o1 := PushStep(top, split, Initial, w0, r1);
      var o2 := PushStep(top, split, o1.state, o1.out, r2);
      var f := FlushStep(top, split, o2.state, o2.out);
      o1.err == None && o2.err == None && f.err == None && f.out.log == [top, Mid(r1), Bot(r2)]
  {
  }

  /** TestInsertSimple: NewInsert(buf, "sample", sample{}).Replace(), two Adds
      of sample structs and Flush write one REPLACE statement whose columns
      are the canonical field names, and no error is recorded. */
  method SimpleExample() returns (text: string, e: Option<Error>)
    ensures e == None
    ensures text == SimpleText
  {
    var zero := Struct(Some(Sample(0, "", [])), "{0  []}");
    var first := Struct(Some(Sample(1, "Demo", Hello)), "{1 Demo [72 101 108 108 111 44 32 87 111 114 108 100 33]}");
    var second := Struct(Some(Sample(2, "Test", TestBytes)), "{2 Test [84 101 115 116]}");
    var buf := new Sink({});
    var ins := new Insert.NewInsert(buf, "sample", [zero]);
    SampleQuoted();
    SimpleColumns(zero.record.value, zero.text);
    ins.Replace();
    SimpleHeader();
    ghost var w0 := buf.View();
    TwoRowsOneStatement(SimpleTop, DefaultSplit, w0, Row([first]), Row([second]));
    ins.Add([first]);
    ins.Add([second]);
    ins.Flush();
    SimpleFirstRow(first.text);
    SimpleSecondRow(second.text);
    Concat3(SimpleTop, SimpleMiddle, SimpleBottom);
    text := Concat(buf.log);
    e := ins.Err();
  }
}
