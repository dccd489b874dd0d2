# quicksql in Dafny

A model of the core of go-quicksql, a small Go library that writes MySQL
`INSERT` statements to an `io.Writer`. It has three parts:

- **Literal quoting** (`quote.go`).
  - Strings become double-quoted MySQL literals with seven characters escaped.
  - Byte slices become `0x…` hexadecimal literals, and the empty slice becomes `""`.
  - Identifiers are delimited by backticks, with any backtick inside doubled. A NUL or a newline makes quoting fail.
  - Integers become unquoted decimal text.
  - A struct row is the comma-joined list of its kept fields. A field is kept when it is exported and not tagged `quicksql:"-"`.
  - Its column list is the same fields' tag or canonical name, quoted as identifiers.
- **The spacer** (`spacer.go`): a chunked writer.
  - It holds back the last pushed row, so each row is written one call late. That is how it knows whether the row continues the statement (`,\n`) or closes it (`;\n\n`).
  - It closes a statement every `split` rows.
- **The insert builder** (`insert.go`).
  - It quotes the table and the column list once.
  - It forwards rows and flushes to a spacer.
  - It latches the first error. After that, `Add` and `Flush` do nothing.

Files, in dependency order:

| file | contents |
|---|---|
| `wrappers.dfy` | `Option`, `Result` and the error kinds of `errors.go` |
| `strings.dfy` | the helpers behind `strings.Join` |
| `literals.dfy` | `QuoteString`, `QuoteBytes`, `QuoteIdentifier`, decimal integers |
| `values.dfy` | `Quote`, one value of the kinds reflection tells apart |
| `canonical.dfy` | `CanonicalName`, its four passes and what each keeps |
| `records.dfy` | the four row and column-list encoders |
| `spacer.dfy` | the sink, the spacer as a class, and its transitions on values |
| `insert.dfy` | the `Insert` builder class |
| `scenarios.dfy` | the two scenarios from `insert_test.go`, proved to produce the expected text |

Each of the three escapers (`QuoteString`, `QuoteBytes`, `QuoteIdentifier`) comes in three pieces:

- a function that defines the result;
- a method whose loop is proved to compute that function;
- a reader (what MySQL makes of the text) with a round-trip lemma.

The readers follow MySQL's default SQL mode. Under `ANSI_QUOTES` a double-quoted text is an identifier, and under `NO_BACKSLASH_ESCAPES` a backslash is an ordinary character; neither mode is modelled.

The spacer is modelled twice: as a class whose `Push` and `Flush` methods update its fields, and as `PushStep`/`FlushStep` on values. The two are tied together by the methods' postconditions. Laws about whole runs are lemmas over `PushAll`.

Where the code and its own description disagree, the model follows the code:

- **`flush` is not idempotent.** It never clears the buffered row, so a second `flush` writes a new header and the last row again (`Spacer.FlushTwice`).
- **The latched error can be replaced during construction.** `NewInsert` quotes the table, then the columns. When both fail, the column error replaces the table error (`Inserts.ConstructionErrorSpec`).
- **`quote_test.go` expects single quotes, but the code writes double quotes.** The model follows `QuoteString` (`quote.go:15`, `quote.go:38`).

## Model

| member | source | states |
|---|---|---|
| Literals.QuoteString | quote.go:12-41 | the loop builds exactly StringLiteral(s): s between double quotes, with NUL, LF, CR, backslash, both quotes and 0x1A escaped |
| Literals.StringLiteralRoundTrip | quote.go:12-41 | MySQL's reading of the quoted text, in the default SQL mode, gives back exactly s |
| Literals.StringLiteralShape | quote.go:13-38 | the result starts and ends with a double quote; its length is between \|s\|+2 and 2\|s\|+2; no raw NUL, LF, CR or 0x1A is left inside |
| Literals.QuoteBytes | quote.go:43-57 | the method returns BytesLiteral(b): "" for no bytes, or 0x followed by two hex digits per byte |
| Literals.HexShape | quote.go:52-54 | the digit string has exactly two characters per byte, each drawn from the lowercase digits 0123456789abcdef |
| Literals.HexRoundTrip | quote.go:52-54 | decoding the digit string two digits at a time, high nibble first, gives back the bytes |
| Literals.BytesLiteralRoundTrip | quote.go:43-57 | empty input gives the empty string literal, which reads as ""; other input gives 2+2n characters, 0x then hex digits, which read back as the bytes; a bare 0x would not be a literal |
| Literals.QuoteIdentifier | quote.go:59-83 | the loop returns exactly Identifier(s): it stops at the first NUL or newline, and otherwise doubles each backtick inside a pair of backticks |
| Literals.IdentifierRoundTrip | quote.go:59-83 | quoting fails iff s holds a NUL or a newline, and the error is ErrInvalidIdentifier; on success the result is backtick-delimited and reads back as exactly s under MySQL's backtick quoting (the reader does not check MySQL's limits on names) |
| Literals.DecimalRoundTrip | quote.go:110-112 | %d text reads back as the integer; it starts with '-' iff the integer is negative; it has no quote characters and no leading zero |
| Values.QuoteRoundTrip | quote.go:85-119 | for every kind but floats, MySQL reads Quote(v) as what v stands for: NULL, the string, the bytes (an empty byte slice is the empty string), the integer, or the fmt.Sprint text; integers are unquoted |
| Values.QuoteExamples | quote_test.go:9-65 | nil quotes as NULL; 42 and -123 quote unquoted; an empty byte slice quotes as "" |
| Values.QuoteBytesExample | quote_test.go:18-25 | the bytes ABC quote as 0x414243 |
| Canonical.CollapseShape | quote.go:185 | after the [-_]+ pass no dash and no two adjacent underscores are left, and a leading separator stays a leading underscore |
| Canonical.TrimShape | quote.go:186 | trimming leaves no underscore at either end and keeps the other passes' guarantees |
| Canonical.CanonicalNameShape | quote.go:182-187 | the canonical name has no dash, no upper-case letter, no two adjacent underscores and no underscore at either end |
| Canonical.CanonicalNameLetters | quote.go:182-187 | the name's letters and digits, case aside, are those of the input, in order |
| Canonical.AcronymExample | insert_test.go:11-18 | the field ID becomes the column id |
| Canonical.SingleWordExample | quote.go:182-187 | a capitalised word followed by lower-case letters becomes that word in lower case |
| Canonical.TwoWordExample | quote.go:178-186 | UserID becomes user_id |
| Canonical.CapitalisedWords | quote.go:182-187 | a run of capitalised words (each an upper-case letter and then lower-case letters) becomes those words lower-cased and joined by _, so the underscores fall exactly at the word boundaries |
| Records.EncodersAgree | quote.go:121-225 | the value list and the column list come from the same kept fields, so they have equal length, and the k-th value and the k-th name come from the same kept field of the record |
| Records.FilterExact | quote.go:135-141 | a field is kept iff it is exported and its tag is not "-" |
| Records.QuoteMultipleStruct | quote.go:121-147 | the loop returns the kept fields' quoted values joined by ", " |
| Records.QuoteNamesSpec | quote.go:251-258 | quoting a name list succeeds iff every name is valid, and then quotes each name in order; otherwise it returns the first invalid name's error, ErrInvalidIdentifier |
| Records.FailureIsFinal | quote.go:208-220 | once a name fails, names after it are never examined: the result is that first error |
| Records.QuoteColumnNamesStruct | quote.go:189-225 | the loop returns the tag, or else the canonical name, of each kept field, as an identifier; the list is joined by ", " or the first identifier error is returned |
| Records.QuoteMultiple | quote.go:149-175 | for any argument list but a lone untyped nil (a Go panic): one struct argument gives its row; one nil pointer gives ""; any other argument list gives each Quote joined by ", " |
| Records.QuoteColumnNames | quote.go:227-259 | for any argument list but a lone untyped nil (a Go panic): one struct argument gives its column list; one nil pointer gives ErrNil; any other argument list gives the fmt.Sprint text of each argument as an identifier, or the first error |
| Values.SprintText | quote.go:252 | an integer's text reads back as the integer; a byte slice's text is bracketed ("[]" when empty) and its inside splits on spaces into one decimal per byte, read back as that byte; the nil ("<nil>") and string (the string itself) clauses merely repeat Sprint's own cases |
| Records.StringColumns | quote.go:246-258 | plain string column arguments quote iff every name is a valid identifier, and then give the quoted names joined by ", "; otherwise ErrInvalidIdentifier |
| Records.NilRecordAsymmetry | quote.go:154-235 | a nil struct pointer is an empty row but a column-list error |
| Spacer.Sink.Write | spacer.go:32-35 | a write appends the fragment unless this attempt is one that fails; a failing write appends nothing and returns an error |
| Spacer.Spacer.constructor | insert.go:45-53 | a new spacer has no header open, nothing buffered and a zero countdown |
| Spacer.Spacer.Push | spacer.go:22-56 | the fields and the sink move exactly as PushStep says: refill the countdown; write the header if none is open; write the buffered row as a continuation, or as a terminator when the countdown hits zero; then buffer the new row; return at the first write error |
| Spacer.Spacer.Flush | spacer.go:58-84 | the fields and the sink move exactly as FlushStep says: nothing if never pushed; otherwise a header if none is open, then the buffered row as a terminator; the row stays buffered |
| Spacer.StepsKeepInv | spacer.go:25-47 | for split > 0, every push (failing or not) and every flush of a started spacer leaves 1 <= n <= split; a successful step also keeps n == split whenever no statement is open, and a successful push buffers its row |
| Spacer.ReliablePush | spacer.go:29-55 | with no failing write, a push into a started spacer writes the header only if none is open, then the held-back row, terminated exactly when the countdown was 1 |
| Spacer.PushAllLog | spacer.go:22-56 | after k pushes with no failing write, the sink holds every closed statement and the open statement's rows except the last row, which is still buffered |
| Spacer.BatchesShape | spacer.go:39-47 | k rows in chunks of n make ceil(k/n) chunks; each chunk but the last holds exactly n rows; the last holds between 1 and n; together they are the rows in order |
| Spacer.BatchingLaw | spacer.go:22-84 | pushing k rows and flushing, with no failing write, writes exactly one well-formed statement per chunk: header, continuation rows, then a terminator |
| Spacer.NoSplitPushes | spacer.go:25-46 | with split <= 0 the countdown never fires: one header, and every row but the last written as a continuation |
| Spacer.NoSplitLaw | spacer.go:25-84 | with split <= 0, pushes then a flush write a single statement holding every row |
| Spacer.PushDefersRow | spacer.go:38-55 | what push writes does not depend on the pushed row, which is only buffered |
| Spacer.PushFailure | spacer.go:29-55 | a write error returns at once: the failing attempt is the last one made, the log only grew, and the new row is not buffered; a failed header write leaves header set |
| Spacer.FlushIdle | spacer.go:61-64 | flush before any push writes nothing and changes nothing |
| Spacer.ReliableFlush | spacer.go:58-84 | with no failing write, flush writes the header if none is open, then the buffered row as a terminator, and resets the countdown to split |
| Spacer.FlushTwice | spacer.go:66-81 | a second flush writes a new header and the same last row again |
| Spacer.PushAfterFlush | spacer.go:22-84 | for every chunk size, a push after a flush opens a new statement whose first row is the row already flushed, closed at once (Bot) only when the chunk size is 1 and written as a Mid otherwise, including Every(0) or a negative Every |
| Inserts.ColumnsErrors | quote.go:227-259 | every column-list error is ErrInvalidIdentifier or ErrNil |
| Inserts.ConstructionErrorSpec | insert.go:32-42 | a builder starts without error iff the table name has no NUL or newline and the column list quotes; when the column list fails, its error is the one kept |
| Inserts.LatchIsFinal | insert.go:74-84 | once a push has failed, further rows change neither the output nor the error |
| Inserts.Insert.NewInsert | insert.go:31-57 | for any column list but a lone untyped nil (a Go panic), the builder has verb INSERT INTO, split 1000, a fresh spacer, the quoted table and column texts ("" after an error), and the construction error |
| Inserts.Insert.Ignore | insert.go:59-62 | the verb becomes INSERT IGNORE INTO; nothing else changes |
| Inserts.Insert.Replace | insert.go:64-67 | the verb becomes REPLACE INTO; nothing else changes |
| Inserts.Insert.Every | insert.go:69-72 | split becomes n; nothing else changes |
| Inserts.Insert.Add | insert.go:74-84 | with an error latched, nothing changes; otherwise (arguments other than a lone untyped nil, a Go panic) the quoted row is pushed and any push error is latched |
| Inserts.Insert.Flush | insert.go:86-96 | with an error latched, nothing changes; otherwise the spacer flushes and any flush error is latched |
| Scenarios.SimpleExample | insert_test.go:8-42 | REPLACE with two sample rows and a flush writes exactly the test's expected statement, with no error |
| Scenarios.SplitExample | insert_test.go:44-65 | ten rows with Every(4), then a flush, write exactly the test's three statements (4, 4 and 2 rows), with no error |

`Inserts.Insert.Err` (`insert.go:98-100`) is a function that returns the latched error.

## Left out

- Reflection is replaced by the `Value` datatype.
  - Each constructor is one kind the Go code tells apart.
  - A struct is a list of `Field`s, each with its name, exported flag, `quicksql` tag and value.
  - A chain of pointers to a struct becomes `Struct(Some(record), …)`. A pointer chain that ends in nil, whatever it points to, becomes `Struct(None, …)`.
- `Values.Sprint` computes `fmt.Sprint`'s text only for nil, strings, integers and byte slices (`Values.SprintText`). For floats, structs and every other kind, a value carries its text as given, because Go's formatting of arbitrary values is out of scope.
  - An integer or string type with a `String` method has a different text (for example `fmt.Sprint(time.Second)` is `1s`). The model does not cover such types; `Int` and `Str` stand for types without one. `Quote`'s `%d` is unaffected, since `%d` ignores `String`.
  - `%f` text is not computed either. `Values.QuoteRoundTrip` therefore excludes floats.
- The `[]rune` branch (`quote.go:101-104`) is dead: `reflect.Uint32` never matches a `[]rune`, because its element kind is `Int32`. Rune slices fall through to `fmt.Sprint`, which is the `Other` constructor.
- Integers are unbounded. Every Go integer kind prints with `%d` as its decimal value, so no wrap-around is needed there.
- The spacer's countdown `n` is unbounded. For every `split <= 0` except `math.MinInt64`, `push` resets `n` to `split` on every call (`spacer.go:25-27`), so `n` only takes the values `split` and `split - 1`, and no wrap occurs. For `split == math.MinInt64`, Go's first decrement (`spacer.go:39`) wraps `n` to `math.MaxInt64`, and the countdown then runs about 2^63 rows before a statement closes. In the model `n` becomes `split - 1`, and no statement ever closes during pushes.
- Strings are sequences of characters. The model does not cover these:
  - decoding invalid UTF-8;
  - `strings.ToLower` beyond ASCII;
  - a general regular-expression engine. `CanonicalName`'s two regular expressions are written out as passes over the string.
- The `io.Writer` is a `Sink`: a log of written fragments plus a fixed set of failing write attempts.
  - A failing write writes nothing. Partial writes are not modelled.
  - The error is `WriteFailed(attempt)` rather than an arbitrary writer error.
- `fmt.Fprintf` with the three templates is written out as the functions `Header`, `Mid` and `Bot`.
- The Go methods return the builder for chaining. Here they return nothing and are called in sequence.
- The `Insert` interface is the `Insert` class itself.
- Concurrency is not modelled. The library has none.
- `errors.go`'s two sentinel errors are the constructors `InvalidIdentifier` and `NilArgument`.
- The single-quote expectations in `quote_test.go:30` and `quote_test.go:40` are not stated as properties, because they disagree with the code.
- Records.QuoteMultiple: a lone untyped `nil` argument makes Go panic, because `reflect.TypeOf(nil)` is a nil `Type` and `Kind()` is called on it (`quote.go:151-154`). The method requires `!LoneNil(cols)` instead. The total function `Records.Row` gives `NULL` at that input, which Go never returns. `Inserts.Insert.Add` carries the same requirement while no error is latched, because Go's `Add(nil)` panics there: `Add` returns early when an error is latched.
- Records.QuoteColumnNames: a lone untyped `nil` argument makes Go panic in the same way (`quote.go:229-232`). The method requires `!LoneNil(cols)`, and so does `Inserts.Insert.NewInsert`. The total function `Records.Columns` gives the identifier `` `<nil>` `` at that input, which Go never returns.
- `Inserts.Insert.Err`: it has no contract beyond its body. It returns the latched field, and the `Add` and `Flush` postconditions state how that field evolves.
