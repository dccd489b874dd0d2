/** spacer.go: the chunked statement writer. It buffers the most recently
    pushed row and writes each row one call late, so that it knows whether the
    row continues the open statement (",\n") or closes it (";\n\n"). A
    statement is closed after every split rows.

    The writer is a class over its fields; the sink (an io.Writer) is a class
    whose log is the sequence of fragments written, with a failure oracle: the
    set of write attempts that fail. Beside the class, PushStep and FlushStep
    give the same transitions on values, so that properties of many calls can
    be stated and proved as lemmas. */
module Spacer {
  import opened Wrappers
  import opened Errors

  // ---------------------------------------------------------------------------
  // The sink

  /** What a sink has taken: the fragments written, the number of writes
      attempted so far, and the attempts (counted from 0) that fail. */
  datatype Stream = Stream(log: seq<string>, attempts: nat, failing: set<nat>)

  /** Whether the next write fails. */
  predicate Fails(w: Stream) {
    w.attempts in w.failing
  }

  /** One write: a failing attempt adds nothing to the log. */
  function Emit(w: Stream, frag: string): Stream {
    Stream(if Fails(w) then w.log else w.log + [frag], w.attempts + 1, w.failing)
  }

  /** The error the next write reports. */
  function WriteError(w: Stream): Option<Error> {
    if Fails(w) then Some(WriteFailed(w.attempts)) else None
  }

  /** No write from now on fails. */
  predicate Reliable(w: Stream) {
    forall k :: k in w.failing ==> k < w.attempts
  }

  /** An io.Writer with a fixed failure oracle. */
  class Sink {
    var log: seq<string>
    var attempts: nat
    const failing: set<nat>

    function View(): Stream
      reads this
    {
      Stream(log, attempts, failing)
    }

    constructor (failing: set<nat>)
      ensures View() == Stream([], 0, failing)
    {
      log, attempts := [], 0;
      this.failing := failing;
    }

    method Write(frag: string) returns (err: Option<Error>)
      modifies this
      ensures View() == Emit(old(View()), frag)
      ensures err == WriteError(old(View()))
    {
      err := if attempts in failing then Some(WriteFailed(attempts)) else None;
      if err.None? {
        log := log + [frag];
      }
      attempts := attempts + 1;
    }
  }

  // ---------------------------------------------------------------------------
  // Fragments

  /** The header fragment, the format "<verb> %s (%s) VALUES\n" applied to the
      quoted table and column list. */
  function Header(verb: string, table: string, cols: string): string {
    verb + " " + table + " (" + cols + ") VALUES\n"
  }

  /** A row that continues its statement. */
  function Mid(row: string): string {
    "\t(" + row + "),\n"
  }

  /** A row that closes its statement. */
  function Bot(row: string): string {
    "\t(" + row + ");\n\n"
  }

  // ---------------------------------------------------------------------------
  // The transitions on values

  /** The fields push and flush update: the countdown n, whether a header is
      open, and the buffered row. */
  datatype State = State(n: int, header: bool, buffered: Option<string>)

  /** The state of a new spacer (Go's zero values). */
  const Initial: State := State(0, false, None)

  /** A state, sink and returned error after one call. */
  datatype Outcome = Outcome(state: State, out: Stream, err: Option<Error>)

  /** spacer.push with header fragment top and chunk size split. */
  function PushStep(top: string, split: int, s: State, w: Stream, row: string): Outcome {
    var n := if s.n <= 0 then split else s.n;
    if !s.header && Fails(w) then
      Outcome(State(n, true, s.buffered), Emit(w, top), WriteError(w))
    else
      var w1 := if s.header then w else Emit(w, top);
      match s.buffered
      case None => Outcome(State(n, true, Some(row)), w1, None)
      case Some(b) =>
        var close := n - 1 == 0;
        var s1 := if close then State(split, false, s.buffered) else State(n - 1, true, s.buffered);
        var w2 := Emit(w1, if close then Bot(b) else Mid(b));
        if Fails(w1) then Outcome(s1, w2, WriteError(w1))
        else Outcome(s1.(buffered := Some(row)), w2, None)
  }

  /** spacer.flush with header fragment top and chunk size split. */
  function FlushStep(top: string, split: int, s: State, w: Stream): Outcome {
    if !s.header && s.buffered.None? then Outcome(s, w, None)
    else if !s.header && Fails(w) then
      Outcome(s.(header := true), Emit(w, top), WriteError(w))
    else
      var w1 := if s.header then w else Emit(w, top);
      match s.buffered
      case None => Outcome(s.(header := true), w1, None)
      case Some(b) => Outcome(State(split, false, s.buffered), Emit(w1, Bot(b)), WriteError(w1))
  }

  /** Rows pushed one after another, stopping at the first error (as the
      builder's latch does). */
  function PushAll(top: string, split: int, s: State, w: Stream, rows: seq<string>): Outcome
    decreases |rows|
  {
    if rows == [] then Outcome(s, w, None)
    else
      var o := PushAll(top, split, s, w, rows[..|rows| - 1]);
      if o.err.Some? then o else PushStep(top, split, o.state, o.out, rows[|rows| - 1])
  }

  // ---------------------------------------------------------------------------
  // The statements a list of rows should become

  /** Rows to continuation fragments. */
  function Mids(rows: seq<string>): seq<string>
    decreases |rows|
  {
    if rows == [] then [] else Mids(rows[..|rows| - 1]) + [Mid(rows[|rows| - 1])]
  }

  /** One statement: the header, every row but the last as a continuation,
      the last as the terminator. */
  function Statement(top: string, rows: seq<string>): seq<string> {
    if rows == [] then [] else [top] + Mids(rows[..|rows| - 1]) + [Bot(rows[|rows| - 1])]
  }

  /** Rows cut into chunks of n, in order; the last may be shorter. */
  function Batches(rows: seq<string>, n: nat): seq<seq<string>>
    requires n > 0
    decreases |rows|
  {
    if rows == [] then []
    else if |rows| <= n then [rows]
    else [rows[..n]] + Batches(rows[n..], n)
  }

  /** A list of chunks written as statements. */
  function Render(top: string, batches: seq<seq<string>>): seq<string> {
    if batches == [] then [] else Statement(top, batches[0]) + Render(top, batches[1..])
  }

  function Flatten(batches: seq<seq<string>>): seq<string> {
    if batches == [] then [] else batches[0] + Flatten(batches[1..])
  }

  /** c rows are a whole number of chunks of n. */
  predicate Multiple(c: int, n: nat)
    requires n > 0
    decreases c
  {
    c == 0 || (c >= n && Multiple(c - n, n))
  }

  lemma MultipleNext(c: int, n: nat)
    requires n > 0 && Multiple(c, n)
    ensures Multiple(c + n, n)
  {
  }

  /** The chunking law: k rows at chunk size n make ceil(k/n) chunks, every
      chunk but the last holds exactly n rows, the last holds the rest (between
      1 and n), and together they are the rows in order. */
  lemma {:induction false} BatchesShape(rows: seq<string>, n: nat)
    requires n > 0
    ensures var b := Batches(rows, n);
      (rows == [] <==> b == []) && (b != [] ==> n * (|b| - 1) < |rows| <= n * |b|) &&
      Flatten(b) == rows &&
      (forall i :: 0 <= i < |b| - 1 ==> |b[i]| == n) &&
      (b != [] ==> 1 <= |b[|b| - 1]| <= n && |b[|b| - 1]| == |rows| - n * (|b| - 1))
    decreases |rows|
  {
    var b := Batches(rows, n);
    if rows == [] {
    } else if |rows| <= n {
      assert n * (|b| - 1) == 0;
      assert n * |b| == n;
    } else {
      BatchesShape(rows[n..], n);
      assert n * |b| == n * (|b| - 1) + n;
      assert n * (|b| - 1) == n * (|b| - 2) + n;
      assert rows[..n] + rows[n..] == rows;
      assert b[1..] == Batches(rows[n..], n);
    }
  }

  lemma {:induction false} RenderAppend(top: string, a: seq<seq<string>>, b: seq<seq<string>>)
    ensures Render(top, a + b) == Render(top, a) + Render(top, b)
  {
    if a == [] {
      assert a + b == b;
    } else {
      assert (a + b)[1..] == a[1..] + b;
      RenderAppend(top, a[1..], b);
    }
  }

  /** Cutting a list whose first part is a whole number of chunks. */
  lemma {:induction false} BatchesAppend(a: seq<string>, b: seq<string>, n: nat)
    requires n > 0 && Multiple(|a|, n)
    ensures Batches(a + b, n) == Batches(a, n) + Batches(b, n)
    decreases |a|
  {
    if a == [] {
      assert a + b == b;
    } else {
      assert |a| >= n;
      if b == [] {
        assert a + b == a;
      } else {
        assert (a + b)[..n] == a[..n];
        assert (a + b)[n..] == a[n..] + b;
        BatchesAppend(a[n..], b, n);
        if |a| == n {
          assert a[n..] == [];
        }
      }
    }
  }

  /** A whole number of chunks, then up to n more rows. */
  lemma RenderCloses(top: string, closed: seq<string>, open: seq<string>, n: nat)
    requires n > 0 && Multiple(|closed|, n) && 1 <= |open| <= n
    ensures Render(top, Batches(closed + open, n)) == Render(top, Batches(closed, n)) + Statement(top, open)
  {
    BatchesAppend(closed, open, n);
    RenderAppend(top, Batches(closed, n), [open]);
    assert Render(top, [open]) == Statement(top, open) + Render(top, []);
  }

  /** How many rows the open statement holds: n counts down from split, one
      per row written. */
  function OpenRows(s: State, split: int): int {
    if s.header then split - s.n else 0
  }

  /** The spacer's invariant for a chunk size split > 0 while no write fails:
      before the first push nothing is set; afterwards 1 <= n <= split, and a
      closed statement leaves n == split. */
  predicate Inv(s: State, split: int) {
    if s.buffered.None? then !s.header && s.n == 0
    else 1 <= s.n <= split && (!s.header ==> s.n == split)
  }

  /** push and flush keep the invariant, and a successful push buffers its
      row. Even a failing step leaves the countdown between 1 and split
      once the spacer has started. */
  lemma StepsKeepInv(top: string, split: int, s: State, w: Stream, row: string)
    requires split > 0 && Inv(s, split)
    ensures 1 <= PushStep(top, split, s, w, row).state.n <= split
    ensures s.buffered.Some? ==> 1 <= FlushStep(top, split, s, w).state.n <= split
    ensures var o := PushStep(top, split, s, w, row);
      o.err.None? ==> Inv(o.state, split) && o.state.buffered == Some(row)
    ensures var o := FlushStep(top, split, s, w);
      o.err.None? ==> Inv(o.state, split)
  {
  }

  /** The rows already written when rows (at least one) have been pushed
      and the spacer is in state s: all but the open statement's rows and the
      buffered one. */
  function Cut(rows: seq<string>, s: State, split: int): int {
    |rows| - 1 - OpenRows(s, split)
  }

  /** What a new spacer with chunk size split > 0 should have written after
      taking rows: the first Cut rows as whole closed statements and, when a
      header is open, that header and the open statement's rows as
      continuations. The last row is never in it. */
  function Expected(top: string, split: int, rows: seq<string>, s: State): seq<string>
    requires split > 0 && 0 <= Cut(rows, s, split) < |rows|
  {
    var c := Cut(rows, s, split);
    Render(top, Batches(rows[..c], split)) + (if s.header then [top] + Mids(rows[c..|rows| - 1]) else [])
  }

  /** The writer's stream invariant, for the outcome o of pushing rows (at
      least one) into a new spacer with chunk size split > 0 while no write
      fails: the last row is buffered, the written rows are a whole number of
      chunks plus the open statement's split - n rows, and the sink holds
      exactly the Expected fragments after what it held before. */
  predicate Written(top: string, split: int, w: Stream, rows: seq<string>, o: Outcome)
    requires split > 0
  {
    rows != [] && o.err.None? && Reliable(o.out) && Inv(o.state, split) &&
    o.state.buffered == Some(rows[|rows| - 1]) &&
    0 <= Cut(rows, o.state, split) && Multiple(Cut(rows, o.state, split), split) &&
    o.out.log == w.log + Expected(top, split, rows, o.state)
  }

  lemma AppendAssoc(a: seq<string>, b: seq<string>, c: seq<string>)
    ensures (a + b) + c == a + (b + c)
  {
  }

  lemma StatementOf(top: string, rows: seq<string>, c: int)
    requires 0 <= c < |rows|
    ensures Statement(top, rows[c..]) == ([top] + Mids(rows[c..|rows| - 1])) + [Bot(rows[|rows| - 1])]
  {
    var tail := rows[c..];
    assert tail[..|tail| - 1] == rows[c..|rows| - 1];
    assert tail[|tail| - 1] == rows[|rows| - 1];
  }

  /** Rows whose first c are whole chunks, and whose remaining (at most n)
      rows make one more statement. */
  lemma CloseAt(top: string, rows: seq<string>, c: int, n: nat)
    requires n > 0 && 0 <= c < |rows| && |rows| - c <= n && Multiple(c, n)
    ensures Render(top, Batches(rows, n)) == Render(top, Batches(rows[..c], n)) + Statement(top, rows[c..])
  {
    assert rows == rows[..c] + rows[c..];
    RenderCloses(top, rows[..c], rows[c..], n);
  }

  lemma MidsSnoc(rows: seq<string>, c: int)
    requires 0 <= c < |rows|
    ensures Mids(rows[c..]) == Mids(rows[c..|rows| - 1]) + [Mid(rows[|rows| - 1])]
  {
    assert rows[c..][..|rows| - 1 - c] == rows[c..|rows| - 1];
  }

  /** The state a push into a started spacer moves to while no write
      fails. */
  function Advance(s: State, split: int, r: string): State {
    if s.n == 1 then State(split, false, Some(r)) else State(s.n - 1, true, Some(r))
  }

  /** What such a push writes: the header if none is open, then the buffered
      row, as a terminator exactly when the countdown was at 1. */
  function Emitted(top: string, s: State): seq<string>
    requires s.buffered.Some?
  {
    var frag := if s.n == 1 then Bot(s.buffered.value) else Mid(s.buffered.value);
    if s.header then [frag] else [top, frag]
  }

  /** A push into a started spacer while no write fails. */
  lemma ReliablePush(top: string, split: int, s: State, w: Stream, r: string)
    requires split > 0 && Inv(s, split) && s.buffered.Some? && Reliable(w)
    ensures var p := PushStep(top, split, s, w, r);
      p.err.None? && Reliable(p.out) &&
      p.out.log == w.log + Emitted(top, s) && p.state == Advance(s, split, r)
  {
    if !s.header {
      assert !Fails(Emit(w, top));
    }
  }

  /** How the expected fragments grow with one push (see ReliablePush for the
      state it moves to). */
  lemma ExpectedStep(top: string, split: int, rows: seq<string>, s: State, r: string)
    requires split > 0 && Inv(s, split) && rows != [] && s.buffered == Some(rows[|rows| - 1])
    requires 0 <= Cut(rows, s, split) && Multiple(Cut(rows, s, split), split)
    ensures 0 <= Cut(rows + [r], Advance(s, split, r), split)
    ensures Multiple(Cut(rows + [r], Advance(s, split, r), split), split)
    ensures Expected(top, split, rows + [r], Advance(s, split, r)) == Expected(top, split, rows, s) + Emitted(top, s)
  {
    if s.n == 1 {
      ExpectedCloses(top, split, rows, s, r);
    } else {
      ExpectedContinues(top, split, rows, s, r);
    }
  }

  /** Expected with a header open. */
  lemma ExpectedOpen(top: string, split: int, rows: seq<string>, s: State)
    requires split > 0 && 0 <= Cut(rows, s, split) < |rows| && s.header
    ensures Expected(top, split, rows, s) ==
      Render(top, Batches(rows[..Cut(rows, s, split)], split)) + ([top] + Mids(rows[Cut(rows, s, split)..|rows| - 1]))
  {
  }

  /** Expected with no header open: every written row is in a closed
      statement. */
  lemma ExpectedShut(top: string, split: int, rows: seq<string>, s: State)
    requires split > 0 && 0 <= Cut(rows, s, split) < |rows| && !s.header
    ensures Expected(top, split, rows, s) == Render(top, Batches(rows[..|rows| - 1], split))
  {
  }

  lemma ExpectedCloses(top: string, split: int, rows: seq<string>, s: State, r: string)
    requires split > 0 && Inv(s, split) && rows != [] && s.buffered == Some(rows[|rows| - 1]) && s.n == 1
    requires 0 <= Cut(rows, s, split) && Multiple(Cut(rows, s, split), split)
    ensures Cut(rows + [r], Advance(s, split, r), split) == |rows| && Multiple(|rows|, split)
    ensures Expected(top, split, rows + [r], Advance(s, split, r)) == Expected(top, split, rows, s) + Emitted(top, s)
  {
    var c := Cut(rows, s, split);
    var rows' := rows + [r];
    var s' := State(split, false, Some(r));
    var b := rows[|rows| - 1];
    assert Advance(s, split, r) == s';
    assert c + split == |rows|;
    MultipleNext(c, split);
    assert rows'[..|rows'| - 1] == rows;
    ExpectedShut(top, split, rows', s');
    CloseAt(top, rows, c, split);
    StatementOf(top, rows, c);
    var closed := Render(top, Batches(rows[..c], split));
    var open := [top] + Mids(rows[c..|rows| - 1]);
    assert Expected(top, split, rows', s') == closed + (open + [Bot(b)]);
    if s.header {
      ExpectedOpen(top, split, rows, s);
      assert Emitted(top, s) == [Bot(b)];
      AppendAssoc(closed, open, [Bot(b)]);
      assert Expected(top, split, rows', s') == Expected(top, split, rows, s) + Emitted(top, s);
    } else {
      ExpectedShut(top, split, rows, s);
      assert rows[c..|rows| - 1] == [];
      assert rows[..|rows| - 1] == rows[..c];
      assert Emitted(top, s) == [top, Bot(b)];
      assert open + [Bot(b)] == [top, Bot(b)];
      assert Expected(top, split, rows', s') == Expected(top, split, rows, s) + Emitted(top, s);
    }
    assert Cut(rows', s', split) == |rows|;
  }

  lemma ExpectedContinues(top: string, split: int, rows: seq<string>, s: State, r: string)
    requires split > 0 && Inv(s, split) && rows != [] && s.buffered == Some(rows[|rows| - 1]) && s.n > 1
    requires 0 <= Cut(rows, s, split) && Multiple(Cut(rows, s, split), split)
    ensures Cut(rows + [r], Advance(s, split, r), split) == Cut(rows, s, split)
    ensures Expected(top, split, rows + [r], Advance(s, split, r)) == Expected(top, split, rows, s) + Emitted(top, s)
  {
    var c := Cut(rows, s, split);
    var rows' := rows + [r];
    var s' := State(s.n - 1, true, Some(r));
    var b := rows[|rows| - 1];
    assert Advance(s, split, r) == s';
    assert Cut(rows', s', split) == c;
    assert rows'[..c] == rows[..c];
    assert rows'[c..|rows'| - 1] == rows[c..];
    MidsSnoc(rows, c);
    var closed := Render(top, Batches(rows[..c], split));
    var mids := Mids(rows[c..|rows| - 1]);
    ExpectedOpen(top, split, rows', s');
    assert Expected(top, split, rows', s') == closed + ([top] + (mids + [Mid(b)]));
    if s.header {
      ExpectedOpen(top, split, rows, s);
      assert Emitted(top, s) == [Mid(b)];
      AppendAssoc([top], mids, [Mid(b)]);
      AppendAssoc(closed, [top] + mids, [Mid(b)]);
    } else {
      ExpectedShut(top, split, rows, s);
      assert rows[c..|rows| - 1] == [];
      assert rows[..|rows| - 1] == rows[..c];
      assert Emitted(top, s) == [top, Mid(b)];
      assert [top] + (mids + [Mid(b)]) == [top, Mid(b)];
      assert closed + [] == closed;
    }
  }

  /** One more push keeps the stream invariant. */
  lemma PushKeepsWritten(top: string, split: int, w: Stream, rows: seq<string>, o: Outcome, r: string)
    requires split > 0 && Written(top, split, w, rows, o)
    ensures Written(top, split, w, rows + [r], PushStep(top, split, o.state, o.out, r))
  {
    ReliablePush(top, split, o.state, o.out, r);
    ExpectedStep(top, split, rows, o.state, r);
    var e := Expected(top, split, rows, o.state);
    assert (w.log + e) + Emitted(top, o.state) == w.log + (e + Emitted(top, o.state));
    assert (rows + [r])[|rows|] == r;
  }

  lemma {:induction false} PushAllLog(top: string, split: int, w: Stream, rows: seq<string>)
    requires split > 0 && Reliable(w) && rows != []
    ensures Written(top, split, w, rows, PushAll(top, split, Initial, w, rows))
    decreases |rows|
  {
    var k := |rows|;
    var init := rows[..k - 1];
    assert init + [rows[k - 1]] == rows;
    if k == 1 {
      assert PushAll(top, split, Initial, w, init) == Outcome(Initial, w, None);
      assert rows[..0] == [];
    } else {
      PushAllLog(top, split, w, init);
      PushKeepsWritten(top, split, w, init, PushAll(top, split, Initial, w, init), rows[k - 1]);
    }
  }

  /** Pushing one more row after a run without error is one more push step. */
  lemma PushAllSnoc(top: string, split: int, s: State, w: Stream, rows: seq<string>, r: string)
    requires PushAll(top, split, s, w, rows).err.None?
    ensures var o := PushAll(top, split, s, w, rows);
      PushAll(top, split, s, w, rows + [r]) == PushStep(top, split, o.state, o.out, r)
  {
    assert (rows + [r])[..|rows|] == rows;
  }

  /** While no write fails, pushes into a new spacer report no error. */
  lemma ReliablePushAll(top: string, split: int, w: Stream, rows: seq<string>)
    requires split > 0 && Reliable(w)
    ensures PushAll(top, split, Initial, w, rows).err.None?
  {
    if rows != [] {
      PushAllLog(top, split, w, rows);
    }
  }

  /** What flush writes in a started spacer while no write fails: the header
      if none is open, then the buffered row as a terminator. */
  function Flushed(top: string, s: State): seq<string>
    requires s.buffered.Some?
  {
    if s.header then [Bot(s.buffered.value)] else [top, Bot(s.buffered.value)]
  }

  lemma ReliableFlush(top: string, split: int, s: State, w: Stream)
    requires s.buffered.Some? && Reliable(w)
    ensures var f := FlushStep(top, split, s, w);
      f.err.None? && Reliable(f.out) &&
      f.out.log == w.log + Flushed(top, s) && f.state == State(split, false, s.buffered)
  {
    if !s.header {
      assert !Fails(Emit(w, top));
    }
  }

  /** Flushing the expected fragments closes the open statement, with the
      buffered row as its last. */
  lemma ExpectedFlush(top: string, split: int, rows: seq<string>, s: State)
    requires split > 0 && Inv(s, split) && rows != [] && s.buffered == Some(rows[|rows| - 1])
    requires 0 <= Cut(rows, s, split) && Multiple(Cut(rows, s, split), split)
    ensures Expected(top, split, rows, s) + Flushed(top, s) == Render(top, Batches(rows, split))
  {
    var c := Cut(rows, s, split);
    var b := rows[|rows| - 1];
    CloseAt(top, rows, c, split);
    StatementOf(top, rows, c);
    var closed := Render(top, Batches(rows[..c], split));
    var open := [top] + Mids(rows[c..|rows| - 1]);
    if s.header {
      ExpectedOpen(top, split, rows, s);
      assert Flushed(top, s) == [Bot(b)];
      AppendAssoc(closed, open, [Bot(b)]);
    } else {
      ExpectedShut(top, split, rows, s);
      assert rows[c..|rows| - 1] == [];
      assert rows[..|rows| - 1] == rows[..c];
      assert Flushed(top, s) == [top, Bot(b)];
      assert open + [Bot(b)] == [top, Bot(b)];
      assert closed + [] == closed;
    }
  }

  /** The batching law: pushing k rows into a new spacer with split > 0 and
      then flushing, with no failing write, writes exactly the statements of
      Batches(rows, split) (ceil(k/split) of them, see BatchesShape) and
      leaves the last row still buffered. */
  lemma BatchingLaw(top: string, split: int, w: Stream, rows: seq<string>)
    requires split > 0 && Reliable(w)
    ensures var o := PushAll(top, split, Initial, w, rows);
      var f := FlushStep(top, split, o.state, o.out);
      f.err.None? && Reliable(f.out) &&
      f.out.log == w.log + Render(top, Batches(rows, split)) &&
      (rows != [] ==> f.state == State(split, false, Some(rows[|rows| - 1])))
  {
    if rows == [] {
      assert w.log + [] == w.log;
    } else {
      PushAllLog(top, split, w, rows);
      var o := PushAll(top, split, Initial, w, rows);
      ReliableFlush(top, split, o.state, o.out);
      ExpectedFlush(top, split, rows, o.state);
      AppendAssoc(w.log, Expected(top, split, rows, o.state), Flushed(top, o.state));
    }
  }

  /** With split <= 0 the countdown never reaches zero inside push: after
      k >= 1 pushes one header and every row but the last are written as
      continuations, and flush closes the one statement. */
  lemma {:induction false} NoSplitPushes(top: string, split: int, w: Stream, rows: seq<string>)
    requires split <= 0 && Reliable(w) && rows != []
    ensures var o := PushAll(top, split, Initial, w, rows);
      o.err.None? && Reliable(o.out) && o.state.header && o.state.n <= 0 &&
      o.state.buffered == Some(rows[|rows| - 1]) &&
      o.out.log == w.log + ([top] + Mids(rows[..|rows| - 1]))
    decreases |rows|
  {
    var k := |rows|;
    var init := rows[..k - 1];
    if k == 1 {
      assert init == [];
      assert PushAll(top, split, Initial, w, init) == Outcome(Initial, w, None);
    } else {
      NoSplitPushes(top, split, w, init);
      var o := PushAll(top, split, Initial, w, init);
      var m := Mids(init[..k - 2]);
      assert init[..k - 2] == rows[..k - 2];
      assert rows[..k - 1] == rows[..k - 2] + [init[k - 2]];
      assert Mids(rows[..k - 1]) == m + [Mid(init[k - 2])];
      assert PushStep(top, split, o.state, o.out, rows[k - 1]).out.log == o.out.log + [Mid(init[k - 2])];
      AppendAssoc(w.log, [top] + m, [Mid(init[k - 2])]);
      AppendAssoc([top], m, [Mid(init[k - 2])]);
    }
  }

  lemma NoSplitLaw(top: string, split: int, w: Stream, rows: seq<string>)
    requires split <= 0 && Reliable(w) && rows != []
    ensures var o := PushAll(top, split, Initial, w, rows);
      var f := FlushStep(top, split, o.state, o.out);
      f.err.None? && f.out.log == w.log + Statement(top, rows)
  {
    NoSplitPushes(top, split, w, rows);
    var o := PushAll(top, split, Initial, w, rows);
    var b := rows[|rows| - 1];
    ReliableFlush(top, split, o.state, o.out);
    assert Flushed(top, o.state) == [Bot(b)];
    AppendAssoc(w.log, [top] + Mids(rows[..|rows| - 1]), [Bot(b)]);
  }

  /** push never writes the row it is given: what it writes does not depend
      on that row, which is only buffered. */
  lemma PushDefersRow(top: string, split: int, s: State, w: Stream, r1: string, r2: string)
    ensures PushStep(top, split, s, w, r1).out == PushStep(top, split, s, w, r2).out
    ensures PushStep(top, split, s, w, r1).err == PushStep(top, split, s, w, r2).err
    ensures PushStep(top, split, s, w, r1).err.None? ==> PushStep(top, split, s, w, r1).state.buffered == Some(r1)
  {
  }

  /** A write error is returned at once: the failed attempt is the last one
      made, the log only grew before it, and the pushed row is not buffered.
      When the header write fails, header is already set. */
  lemma PushFailure(top: string, split: int, s: State, w: Stream, row: string)
    ensures var o := PushStep(top, split, s, w, row);
      o.out.failing == w.failing &&
      |w.log| <= |o.out.log| && o.out.log[..|w.log|] == w.log &&
      (o.err.Some? ==>
        o.out.attempts >= 1 && o.out.attempts - 1 in w.failing &&
        o.err == Some(WriteFailed(o.out.attempts - 1)) &&
        o.state.buffered == s.buffered) &&
      (!s.header && Fails(w) ==> o.state.header && o.out.log == w.log && o.err.Some?)
  {
  }

  /** flush before any push writes nothing and changes nothing. */
  lemma FlushIdle(top: string, split: int, w: Stream)
    ensures FlushStep(top, split, Initial, w) == Outcome(Initial, w, None)
  {
  }

  /** flush does not clear the buffered row: a second flush writes a new
      header and the same last row again. */
  lemma FlushTwice(top: string, split: int, s: State, w: Stream)
    requires s.buffered.Some? && Reliable(w)
    ensures var f1 := FlushStep(top, split, s, w);
      var f2 := FlushStep(top, split, f1.state, f1.out);
      f1.err.None? && f2.err.None? && f2.state == f1.state &&
      f2.out.log == f1.out.log + [top, Bot(s.buffered.value)]
  {
  }

  /** A push after a flush re-emits the flushed row: it opens a new statement
      whose first row is the row already written, closed at once only when
      the chunk size is 1. */
  lemma PushAfterFlush(top: string, split: int, s: State, w: Stream, row: string)
    requires s.buffered.Some? && Reliable(w)
    ensures var f := FlushStep(top, split, s, w);
      var p := PushStep(top, split, f.state, f.out, row);
      var b := s.buffered.value;
      p.err.None? && p.state.buffered == Some(row) &&
      p.out.log == f.out.log + [top, if split == 1 then Bot(b) else Mid(b)]
  {
  }

  // ---------------------------------------------------------------------------
  // The class

  /** The spacer struct: the sink, the header template (the verb, the table
      and the column list), the chunk size and the three fields push and flush
      update. */
  class Spacer {
    const wri: Sink
    var verb: string
    const table: string
    const cols: string
    var split: int
    var n: int
    var header: bool
    var buffered: Option<string>

    /** The header fragment as it would be written now. */
    function Top(): string
      reads this
    {
      Header(verb, table, cols)
    }

    function Machine(): State
      reads this
    {
      State(n, header, buffered)
    }

    constructor (wri: Sink, verb: string, table: string, cols: string, split: int)
      ensures this.wri == wri && this.verb == verb && this.table == table && this.cols == cols
      ensures this.split == split && Machine() == Initial
    {
      this.wri, this.verb, this.table, this.cols, this.split := wri, verb, table, cols, split;
      n, header, buffered := 0, false, None;
    }

    /** spacer.push. */
    method Push(row: string) returns (err: Option<Error>)
      modifies this, wri
      ensures verb == old(verb) && split == old(split)
      ensures Outcome(Machine(), wri.View(), err) ==
        PushStep(old(Top()), split, old(Machine()), old(wri.View()), row)
    {
      if n <= 0 {
        n := split;
      }
      if !header {
        header := true;
        err := wri.Write(Top());
        if err.Some? {
          return;
        }
      }
      if buffered.Some? {
        n := n - 1;
        if n == 0 {
          err := wri.Write(Bot(buffered.value));
          header := false;
          n := split;
        } else {
          err := wri.Write(Mid(buffered.value));
        }
        if err.Some? {
          return;
        }
      }
      buffered := Some(row);
      err := None;
    }

    /** spacer.flush. */
    method Flush() returns (err: Option<Error>)
      modifies this, wri
      ensures verb == old(verb) && split == old(split)
      ensures Outcome(Machine(), wri.View(), err) ==
        FlushStep(old(Top()), split, old(Machine()), old(wri.View()))
    {
      if !header && buffered.None? {
        return None;
      }
      if !header {
        header := true;
        err := wri.Write(Top());
        if err.Some? {
          return;
        }
      }
      if buffered.Some? {
        n := n - 1;
        err := wri.Write(Bot(buffered.value));
        header := false;
        n := split;
        return;
      }
      err := None;
    }
  }
}
