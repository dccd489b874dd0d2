/** The row and column encoders of quote.go: QuoteMultipleStruct and
    QuoteMultiple give the literal list of one row, QuoteColumnNamesStruct and
    QuoteColumnNames the quoted column list. A struct is an explicit field
    list (Values.Record) in place of reflection. */
module Records {
  import opened Wrappers
  import opened Errors
  import opened Strings
  import opened Literals
  import opened Values
  import opened Canonical

  /** Both struct encoders skip an unexported field and one tagged "-". */
  predicate Kept(f: Field) {
    f.exported && f.tag != Some("-")
  }

  /** The kept fields, in declaration order. */
  function KeptFields(rec: Record): Record {
    if rec == [] then []
    else KeptFields(rec[..|rec| - 1]) + (if Kept(rec[|rec| - 1]) then [rec[|rec| - 1]] else [])
  }

  /** A present tag is the column name verbatim; otherwise the field name is
      canonicalised. */
  function ColumnName(f: Field): string {
    if f.tag.Some? then f.tag.value else CanonicalName(f.name)
  }

  /** The literals QuoteMultipleStruct collects, one per kept field. */
  function RowParts(rec: Record): seq<string> {
    if rec == [] then []
    else RowParts(rec[..|rec| - 1]) + (if Kept(rec[|rec| - 1]) then [Quote(rec[|rec| - 1].value)] else [])
  }

  /** The names QuoteColumnNamesStruct quotes, one per kept field. */
  function ColumnNames(rec: Record): seq<string> {
    if rec == [] then []
    else ColumnNames(rec[..|rec| - 1]) + (if Kept(rec[|rec| - 1]) then [ColumnName(rec[|rec| - 1])] else [])
  }

  lemma {:induction false} KeptFieldsConcat(a: Record, b: Record)
    ensures KeptFields(a + b) == KeptFields(a) + KeptFields(b)
    decreases |b|
  {
    if b == [] {
      assert a + b == a;
    } else {
      var b' := b[..|b| - 1];
      assert (a + b)[..|a + b| - 1] == a + b';
      assert (a + b)[|a + b| - 1] == b[|b| - 1];
      KeptFieldsConcat(a, b');
    }
  }

  /** The two struct encoders agree field for field: values and names are
      taken from exactly the same fields (the kept ones, an order-preserving
      filter of the declaration order), so there are as many names as values,
      and the k-th name and the k-th value come from the same field. */
  lemma {:induction false} EncodersAgree(rec: Record)
    ensures var kept := KeptFields(rec);
      |RowParts(rec)| == |kept| && |ColumnNames(rec)| == |kept| &&
      (forall k :: 0 <= k < |kept| ==>
        kept[k] in rec && Kept(kept[k]) &&
        RowParts(rec)[k] == Quote(kept[k].value) &&
        ColumnNames(rec)[k] == ColumnName(kept[k]))
  {
    if rec != [] {
      var init := rec[..|rec| - 1];
      EncodersAgree(init);
      forall f | f in KeptFields(init)
        ensures f in rec
      {
        assert f in init;
      }
    }
  }

  /** Exactly the kept fields survive: the filter drops every field that is
      unexported or tagged "-" and keeps every other one. */
  lemma FilterExact(rec: Record)
    ensures forall f :: f in KeptFields(rec) <==> f in rec && Kept(f)
  {
    if rec != [] {
      var init := rec[..|rec| - 1];
      FilterExact(init);
      assert rec == init + [rec[|rec| - 1]];
      forall f | f in rec && Kept(f)
        ensures f in KeptFields(rec)
      {
        if f != rec[|rec| - 1] {
          assert f in init;
        }
      }
    }
  }

  /** The specification of QuoteMultipleStruct. */
  function StructRow(rec: Record): string {
    Join(RowParts(rec), ", ")
  }

  /** quote.go QuoteMultipleStruct: a field loop appending kept literals. */
  method QuoteMultipleStruct(rec: Record) returns (r: string)
    ensures r == StructRow(rec)
  {
    var ret: seq<string> := [];
    for i := 0 to |rec|
      invariant ret == RowParts(rec[..i])
    {
      assert rec[..i + 1][..i] == rec[..i];
      var f := rec[i];
      if !f.exported {
        continue;
      }
      if f.tag == Some("-") {
        continue;
      }
      ret := ret + [Quote(f.value)];
    }
    assert rec[..|rec|] == rec;
    r := Join(ret, ", ");
  }

  /** Quoting a list of names: the first name that fails decides the error,
      and no partial list is returned. */
  function QuoteNames(names: seq<string>): Result<seq<string>, Error> {
    if names == [] then Ok([])
    else
      match QuoteNames(names[..|names| - 1])
      case Err(e) => Err(e)
      case Ok(ids) =>
        match Identifier(names[|names| - 1])
        case Err(e) => Err(e)
        case Ok(id) => Ok(ids + [id])
  }

  /** QuoteNames succeeds exactly when every name is a valid identifier, and
      then quotes each; otherwise it reports the error of the first invalid
      name. */
  lemma {:induction false} QuoteNamesSpec(names: seq<string>)
    ensures QuoteNames(names).Ok? <==> forall k :: 0 <= k < |names| ==> Identifier(names[k]).Ok?
    ensures QuoteNames(names).Ok? ==>
      |QuoteNames(names).value| == |names| &&
      forall k :: 0 <= k < |names| ==> QuoteNames(names).value[k] == Identifier(names[k]).value
    ensures QuoteNames(names).Err? ==> QuoteNames(names).error == InvalidIdentifier
    ensures QuoteNames(names).Err? ==>
      exists j :: 0 <= j < |names| && Identifier(names[j]).Err? &&
        QuoteNames(names).error == Identifier(names[j]).error &&
        forall k :: 0 <= k < j ==> Identifier(names[k]).Ok?
  {
    if names != [] {
      var init := names[..|names| - 1];
      QuoteNamesSpec(init);
      if QuoteNames(init).Err? {
        var j :| 0 <= j < |init| && Identifier(init[j]).Err? &&
          QuoteNames(init).error == Identifier(init[j]).error &&
          forall k :: 0 <= k < j ==> Identifier(init[k]).Ok?;
        assert names[j] == init[j];
        assert forall k :: 0 <= k < j ==> names[k] == init[k];
      } else if Identifier(names[|names| - 1]).Err? {
        assert forall k :: 0 <= k < |init| ==> names[k] == init[k];
      }
    }
  }

  lemma {:induction false} ColumnNamesConcat(a: Record, b: Record)
    ensures ColumnNames(a + b) == ColumnNames(a) + ColumnNames(b)
    decreases |b|
  {
    if b == [] {
      assert a + b == a;
    } else {
      var b' := b[..|b| - 1];
      assert (a + b)[..|a + b| - 1] == a + b';
      assert (a + b)[|a + b| - 1] == b[|b| - 1];
      ColumnNamesConcat(a, b');
    }
  }

  /** Once some names fail to quote, any longer list fails with the same
      error: later names are never looked at. */
  lemma {:induction false} FailureIsFinal(a: seq<string>, b: seq<string>)
    requires QuoteNames(a).Err?
    ensures QuoteNames(a + b) == QuoteNames(a)
    decreases |b|
  {
    if b == [] {
      assert a + b == a;
    } else {
      var b' := b[..|b| - 1];
      assert (a + b)[..|a + b| - 1] == a + b';
      FailureIsFinal(a, b');
    }
  }

  /** The specification of QuoteColumnNamesStruct. */
  function StructColumns(rec: Record): Result<string, Error> {
    match QuoteNames(ColumnNames(rec))
    case Ok(ids) => Ok(Join(ids, ", "))
    case Err(e) => Err(e)
  }

  /** One more field: a kept field whose name quotes extends the quoted
      prefix; a skipped field leaves it as it is. */
  lemma ColumnNamesStep(rec: Record, i: nat, ret: seq<string>)
    requires i < |rec| && QuoteNames(ColumnNames(rec[..i])) == Ok(ret)
    ensures !Kept(rec[i]) ==> QuoteNames(ColumnNames(rec[..i + 1])) == Ok(ret)
    ensures Kept(rec[i]) && Identifier(ColumnName(rec[i])).Ok? ==>
      QuoteNames(ColumnNames(rec[..i + 1])) == Ok(ret + [Identifier(ColumnName(rec[i])).value])
  {
    assert rec[..i + 1][..i] == rec[..i];
    assert ColumnNames(rec[..i + 1]) ==
      ColumnNames(rec[..i]) + (if Kept(rec[i]) then [ColumnName(rec[i])] else []);
    if !Kept(rec[i]) {
      assert ColumnNames(rec[..i + 1]) == ColumnNames(rec[..i]);
    }
  }

  /** One more name that quotes extends the quoted prefix. */
  lemma NamesStep(names: seq<string>, i: nat, ids: seq<string>)
    requires i < |names| && QuoteNames(names[..i]) == Ok(ids) && Identifier(names[i]).Ok?
    ensures QuoteNames(names[..i + 1]) == Ok(ids + [Identifier(names[i]).value])
  {
    assert names[..i + 1][..i] == names[..i];
  }

  /** The first name that does not quote decides the list. */
  lemma NamesFailAt(names: seq<string>, i: nat)
    requires i < |names| && QuoteNames(names[..i]).Ok? && Identifier(names[i]).Err?
    ensures QuoteNames(names) == Err(Identifier(names[i]).error)
  {
    var head, rest := names[..i + 1], names[i + 1..];
    assert head[..i] == names[..i] && head[i] == names[i];
    assert QuoteNames(head) == Err(Identifier(names[i]).error);
    assert head + rest == names;
    FailureIsFinal(head, rest);
  }

  /** A name that does not quote, after a prefix that does, decides the
      whole list. */
  lemma QuoteNamesFailAt(pre: seq<string>, x: string, post: seq<string>)
    requires QuoteNames(pre).Ok? && Identifier(x).Err?
    ensures QuoteNames(pre + [x] + post) == Err(Identifier(x).error)
  {
    var names := pre + [x];
    assert names[..|names| - 1] == pre;
    FailureIsFinal(names, post);
  }

  /** The names of a record around a kept field. */
  lemma ColumnNamesAround(rec: Record, i: nat)
    requires i < |rec| && Kept(rec[i])
    ensures ColumnNames(rec) == ColumnNames(rec[..i]) + [ColumnName(rec[i])] + ColumnNames(rec[i + 1..])
  {
    assert rec[..i + 1][..i] == rec[..i];
    assert ColumnNames(rec[..i + 1]) == ColumnNames(rec[..i]) + [ColumnName(rec[i])];
    assert rec[..i + 1] + rec[i + 1..] == rec;
    ColumnNamesConcat(rec[..i + 1], rec[i + 1..]);
  }

  /** A kept field whose name does not quote decides the whole list. */
  lemma ColumnNamesFail(rec: Record, i: nat, ret: seq<string>)
    requires i < |rec| && QuoteNames(ColumnNames(rec[..i])) == Ok(ret)
    requires Kept(rec[i]) && Identifier(ColumnName(rec[i])).Err?
    ensures QuoteNames(ColumnNames(rec)) == Err(Identifier(ColumnName(rec[i])).error)
  {
    ColumnNamesAround(rec, i);
    QuoteNamesFailAt(ColumnNames(rec[..i]), ColumnName(rec[i]), ColumnNames(rec[i + 1..]));
  }

  /** quote.go QuoteColumnNamesStruct: a field loop appending quoted names,
      returning the first identifier error. */
  method QuoteColumnNamesStruct(rec: Record) returns (r: Result<string, Error>)
    ensures r == StructColumns(rec)
  {
    var ret: seq<string> := [];
    for i := 0 to |rec|
      invariant QuoteNames(ColumnNames(rec[..i])) == Ok(ret)
    {
      var f := rec[i];
      ColumnNamesStep(rec, i, ret);
      if !f.exported {
        continue;
      }
      if f.tag.Some? {
        if f.tag.value == "-" {
          continue;
        }
      }
      var id := QuoteIdentifier(ColumnName(f));
      if id.Err? {
        ColumnNamesFail(rec, i, ret);
        return Err(id.error);
      }
      ret := ret + [id.value];
    }
    assert rec[..|rec|] == rec;
    r := Ok(Join(ret, ", "));
  }

  /** The specification of QuoteMultiple: one struct argument is encoded
      field by field, a lone nil pointer gives the empty row, any other
      argument list gives the literal of each argument. (At a lone untyped
      nil, where Go panics, it gives "NULL"; the method excludes that
      input.) */
  function Row(args: seq<Value>): string {
    if |args| == 1 && args[0].Struct? then
      if args[0].record.None? then "" else StructRow(args[0].record.value)
    else Join(seq(|args|, k requires 0 <= k < |args| => Quote(args[k])), ", ")
  }

  /** A lone untyped nil: QuoteMultiple and QuoteColumnNames ask reflection
      for the kind of its (nil) type, which panics in Go. */
  predicate LoneNil(args: seq<Value>) {
    |args| == 1 && args[0].Null?
  }

  /** quote.go QuoteMultiple: the single-struct case, then a loop filling a
      slice of literals by index. */
  method QuoteMultiple(cols: seq<Value>) returns (r: string)
    requires !LoneNil(cols)
    ensures r == Row(cols)
  {
    if |cols| == 1 && cols[0].Struct? {
      if cols[0].record.None? {
        return "";
      }
      r := QuoteMultipleStruct(cols[0].record.value);
      return;
    }
    var args := new string[|cols|];
    for i := 0 to |cols|
      invariant forall k :: 0 <= k < i ==> args[k] == Quote(cols[k])
    {
      args[i] := Quote(cols[i]);
    }
    assert args[..] == seq(|cols|, k requires 0 <= k < |cols| => Quote(cols[k]));
    r := Join(args[..], ", ");
  }

  /** The specification of QuoteColumnNames: one struct argument is encoded
      field by field and a lone nil pointer is ErrNil; any other argument
      list quotes the default text of each argument. (At a lone untyped nil,
      where Go panics, it gives the identifier `<nil>`; the method excludes
      that input.) */
  function Columns(cols: seq<Value>): Result<string, Error> {
    if |cols| == 1 && cols[0].Struct? then
      if cols[0].record.None? then Err(NilArgument) else StructColumns(cols[0].record.value)
    else
      match QuoteNames(seq(|cols|, k requires 0 <= k < |cols| => Sprint(cols[k])))
      case Ok(ids) => Ok(Join(ids, ", "))
      case Err(e) => Err(e)
  }

  /** quote.go QuoteColumnNames: the single-struct case, then a loop filling
      a slice of identifiers by index, returning the first error. */
  method QuoteColumnNames(cols: seq<Value>) returns (r: Result<string, Error>)
    requires !LoneNil(cols)
    ensures r == Columns(cols)
  {
    if |cols| == 1 && cols[0].Struct? {
      if cols[0].record.None? {
        return Err(NilArgument);
      }
      r := QuoteColumnNamesStruct(cols[0].record.value);
      return;
    }
    ghost var names := seq(|cols|, k requires 0 <= k < |cols| => Sprint(cols[k]));
    var ret := new string[|cols|];
    for i := 0 to |cols|
      invariant QuoteNames(names[..i]) == Ok(ret[..i])
    {
      var id := QuoteIdentifier(Sprint(cols[i]));
      assert names[i] == Sprint(cols[i]);
      if id.Err? {
        NamesFailAt(names, i);
        return Err(id.error);
      }
      ghost var done := ret[..i];
      NamesStep(names, i, done);
      ret[i] := id.value;
      assert ret[..i + 1] == done + [id.value];
    }
    assert names[..|cols|] == names && ret[..|cols|] == ret[..];
    r := Ok(Join(ret[..], ", "));
  }

  /** Plain string column arguments are their own column names: the list
      quotes iff every name does, and is then the quoted names joined by
      ", "; otherwise it is the first failing name's error. */
  lemma StringColumns(names: seq<string>)
    ensures var cols := seq(|names|, k requires 0 <= k < |names| => Str(names[k]));
      (Columns(cols).Ok? <==> forall k :: 0 <= k < |names| ==> Identifier(names[k]).Ok?) &&
      (Columns(cols).Ok? ==> QuoteNames(names).Ok? && Columns(cols).value == Join(QuoteNames(names).value, ", ")) &&
      (Columns(cols).Err? ==> Columns(cols) == Err(InvalidIdentifier))
  {
    var cols := seq(|names|, k requires 0 <= k < |names| => Str(names[k]));
    assert seq(|cols|, k requires 0 <= k < |cols| => Sprint(cols[k])) == names;
    QuoteNamesSpec(names);
  }

  /** A nil struct pointer is an empty row but a column-list error. */
  lemma NilRecordAsymmetry(text: string)
    ensures Row([Struct(None, text)]) == ""
    ensures Columns([Struct(None, text)]) == Err(NilArgument)
  {
  }
}
