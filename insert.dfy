/** insert.go: the INSERT statement builder. It quotes the table and the
    column list once, hands every row to a spacer, and latches the first
    error: once an error is recorded, Add and Flush do nothing. The Go
    methods return the builder itself for chaining; here they return
    nothing and are called one after another. */
module Inserts {
  import opened Wrappers
  import opened Errors
  import opened Literals
  import opened Values
  import opened Records
  import opened Spacer

  const InsertVerb: string := "INSERT INTO"
  const IgnoreVerb: string := "INSERT IGNORE INTO"
  const ReplaceVerb: string := "REPLACE INTO"

  /** A new builder starts a statement every 1000 rows. */
  const DefaultSplit: int := 1000

  /** The header text of a quoting result: the quoted text, or "" after an
      error. */
  function TextOf(r: Result<string, Error>): string {
    if r.Ok? then r.value else ""
  }

  /** The error a new builder starts with. Both quotings run; when both
      fail, the column error is the one kept. */
  function ConstructionError(table: string, columns: seq<Value>): Option<Error> {
    if Columns(columns).Err? then Some(Columns(columns).error)
    else if Identifier(table).Err? then Some(Identifier(table).error)
    else None
  }

  /** Every column-list error is an identifier error or the nil-pointer
      error. */
  lemma ColumnsErrors(columns: seq<Value>)
    ensures Columns(columns).Err? ==> Columns(columns).error in {InvalidIdentifier, NilArgument}
  {
    if |columns| == 1 && columns[0].Struct? && columns[0].record.Some? {
      QuoteNamesSpec(ColumnNames(columns[0].record.value));
    } else if !(|columns| == 1 && columns[0].Struct?) {
      QuoteNamesSpec(seq(|columns|, k requires 0 <= k < |columns| => Sprint(columns[k])));
    }
  }

  /** A builder starts without error exactly when the table name holds no NUL
      and no newline and the column list quotes; a failing column list
      decides the error even when the table name fails too. */
  lemma ConstructionErrorSpec(table: string, columns: seq<Value>)
    ensures ConstructionError(table, columns).None? <==>
      (forall i :: 0 <= i < |table| ==> table[i] != '\0' && table[i] != '\n') && Columns(columns).Ok?
    ensures Columns(columns).Err? ==> ConstructionError(table, columns) == Some(Columns(columns).error)
    ensures ConstructionError(table, columns) in {None, Some(InvalidIdentifier), Some(NilArgument)}
  {
    IdentifierRoundTrip(table);
    ColumnsErrors(columns);
  }

  /** The latch: after the first failing push, further rows change nothing. */
  lemma {:induction false} LatchIsFinal(top: string, split: int, s: State, w: Stream, rows: seq<string>, more: seq<string>)
    requires PushAll(top, split, s, w, rows).err.Some?
    ensures PushAll(top, split, s, w, rows + more) == PushAll(top, split, s, w, rows)
    decreases |more|
  {
    if more == [] {
      assert rows + more == rows;
    } else {
      var m := more[..|more| - 1];
      assert (rows + more)[..|rows + more| - 1] == rows + m;
      LatchIsFinal(top, split, s, w, rows, m);
    }
  }

  /** The builder: a spacer and the latched error. */
  class Insert {
    const sp: Spacer
    var err: Option<Error>

    /** insert.go NewInsert. A lone untyped nil column argument panics in Go
        (see LoneNil). */
    constructor NewInsert(writer: Sink, table: string, columns: seq<Value>)
      requires !LoneNil(columns)
      ensures fresh(sp) && sp.wri == writer
      ensures sp.verb == InsertVerb && sp.split == DefaultSplit && sp.Machine() == Initial
      ensures sp.table == TextOf(Identifier(table)) && sp.cols == TextOf(Columns(columns))
      ensures err == ConstructionError(table, columns)
    {
      var inserr: Option<Error> := None;
      var tableName := QuoteIdentifier(table);
      if tableName.Err? {
        inserr := Some(tableName.error);
      }
      var cols := QuoteColumnNames(columns);
      if cols.Err? {
        inserr := Some(cols.error);
      }
      sp := new Spacer(writer, InsertVerb, TextOf(tableName), TextOf(cols), DefaultSplit);
      err := inserr;
    }

    /** insert.go Ignore: switch the header to INSERT IGNORE INTO. */
    method Ignore()
      modifies sp
      ensures sp.verb == IgnoreVerb && sp.split == old(sp.split) && sp.Machine() == old(sp.Machine())
    {
      sp.verb := IgnoreVerb;
    }

    /** insert.go Replace: switch the header to REPLACE INTO. */
    method Replace()
      modifies sp
      ensures sp.verb == ReplaceVerb && sp.split == old(sp.split) && sp.Machine() == old(sp.Machine())
    {
      sp.verb := ReplaceVerb;
    }

    /** insert.go Every: start a new statement every n rows (n <= 0: never). */
    method Every(n: int)
      modifies sp
      ensures sp.split == n && sp.verb == old(sp.verb) && sp.Machine() == old(sp.Machine())
    {
      sp.split := n;
    }

    /** insert.go Add: push the row's literal list unless an error is
        latched; a push error is latched. With no error latched, a lone
        untyped nil argument panics in Go (see LoneNil). */
    method Add(args: seq<Value>)
      requires err.None? ==> !LoneNil(args)
      modifies this, sp, sp.wri
      ensures sp.verb == old(sp.verb) && sp.split == old(sp.split)
      ensures old(err).Some? ==>
        err == old(err) && sp.Machine() == old(sp.Machine()) && sp.wri.View() == old(sp.wri.View())
      ensures old(err).None? ==>
        Outcome(sp.Machine(), sp.wri.View(), err) ==
          PushStep(old(sp.Top()), sp.split, old(sp.Machine()), old(sp.wri.View()), Row(args))
    {
      if err.Some? {
        return;
      }
      var row := QuoteMultiple(args);
      err := sp.Push(row);
    }

    /** insert.go Flush: flush unless an error is latched; a flush error is
        latched. */
    method Flush()
      modifies this, sp, sp.wri
      ensures sp.verb == old(sp.verb) && sp.split == old(sp.split)
      ensures old(err).Some? ==>
        err == old(err) && sp.Machine() == old(sp.Machine()) && sp.wri.View() == old(sp.wri.View())
      ensures old(err).None? ==>
        Outcome(sp.Machine(), sp.wri.View(), err) ==
          FlushStep(old(sp.Top()), sp.split, old(sp.Machine()), old(sp.wri.View()))
    {
      if err.Some? {
        return;
      }
      err := sp.Flush();
    }

    /** insert.go Err: the latched error. */
    function Err(): Option<Error>
      reads this
    {
      err
    }
  }
}
