/** quote.go CanonicalName: the column name derived from a Go field name, as a
    pipeline of four passes written out by hand over ASCII: the regexp
    replacement of ([A-Z][a-z]+) by _$1-, lower-casing, the replacement of
    every run of [-_]+ by one _, and trimming _ from both ends. */
module Canonical {
  import opened Strings

  predicate IsUpper(c: char) { 'A' <= c <= 'Z' }

  predicate IsLower(c: char) { 'a' <= c <= 'z' }

  predicate IsSep(c: char) { c == '-' || c == '_' }

  /** The first index at or after i that does not hold a lowercase letter. */
  function LowerRunEnd(s: string, i: nat): (j: nat)
    requires i <= |s|
    ensures i <= j <= |s|
    ensures forall k :: i <= k < j ==> IsLower(s[k])
    ensures j < |s| ==> !IsLower(s[j])
    decreases |s| - i
  {
    if i < |s| && IsLower(s[i]) then LowerRunEnd(s, i + 1) else i
  }

  /** The first index at or after i that does not hold a separator. */
  function SepRunEnd(s: string, i: nat): (j: nat)
    requires i <= |s|
    ensures i <= j <= |s|
    ensures forall k :: i <= k < j ==> IsSep(s[k])
    ensures j < |s| ==> !IsSep(s[j])
    decreases |s| - i
  {
    if i < |s| && IsSep(s[i]) then SepRunEnd(s, i + 1) else i
  }

  /** Pass 1, regexp ([A-Z][a-z]+) replaced by _$1-: each capitalised word
      (an upper-case letter and the longest run of lower-case letters after it,
      matches taken leftmost first) is wrapped as _Word-. */
  function MarkWords(s: string): string
    decreases |s|
  {
    if |s| >= 2 && IsUpper(s[0]) && IsLower(s[1]) then
      var j := LowerRunEnd(s, 2);
      "_" + s[..j] + "-" + MarkWords(s[j..])
    else if s == [] then []
    else [s[0]] + MarkWords(s[1..])
  }

  function ToLower(c: char): char {
    if IsUpper(c) then (c as int + 32) as char else c
  }

  /** Pass 2, strings.ToLower restricted to ASCII. */
  function Lower(s: string): (r: string)
    ensures |r| == |s|
    ensures forall k :: 0 <= k < |r| ==> !IsUpper(r[k]) && (IsSep(r[k]) <==> IsSep(s[k]))
  {
    seq(|s|, k requires 0 <= k < |s| => ToLower(s[k]))
  }

  /** No two adjacent underscores. */
  predicate NoDoubleUnderscore(s: string) {
    forall k :: 0 <= k < |s| - 1 ==> !(s[k] == '_' && s[k + 1] == '_')
  }

  /** Pass 3, regexp [-_]+ replaced by _: every run of dashes and underscores
      becomes one underscore. */
  function Collapse(s: string): string
    decreases |s|
  {
    if s == [] then []
    else if IsSep(s[0]) then "_" + Collapse(s[SepRunEnd(s, 1)..])
    else [s[0]] + Collapse(s[1..])
  }

  /** After pass 3 no dash is left and no two underscores are adjacent; a
      string without upper-case letters keeps none. */
  lemma {:induction false} CollapseShape(s: string)
    ensures var r := Collapse(s);
      (forall k :: 0 <= k < |r| ==> r[k] != '-') &&
      NoDoubleUnderscore(r) &&
      (s != [] ==> r != [] && (r[0] == '_' <==> IsSep(s[0]))) &&
      ((forall k :: 0 <= k < |s| ==> !IsUpper(s[k])) ==> forall k :: 0 <= k < |r| ==> !IsUpper(r[k]))
    decreases |s|
  {
    if s != [] {
      var rest := if IsSep(s[0]) then s[SepRunEnd(s, 1)..] else s[1..];
      CollapseShape(rest);
      var head := if IsSep(s[0]) then '_' else s[0];
      var r := Collapse(s);
      assert r == [head] + Collapse(rest);
      forall k | 0 <= k < |r| - 1
        ensures !(r[k] == '_' && r[k + 1] == '_')
      {
        if k == 0 && IsSep(s[0]) {
          assert r[1] == Collapse(rest)[0];
        } else if k > 0 {
          assert r[k] == Collapse(rest)[k - 1] && r[k + 1] == Collapse(rest)[k];
        }
      }
      forall k | 0 <= k < |r|
        ensures r[k] != '-'
      {
        if k > 0 { assert r[k] == Collapse(rest)[k - 1]; }
      }
      if forall k :: 0 <= k < |s| ==> !IsUpper(s[k]) {
        forall k | 0 <= k < |r|
          ensures !IsUpper(r[k])
        {
          if k > 0 {
            assert r[k] == Collapse(rest)[k - 1];
            assert forall j :: 0 <= j < |rest| ==> rest[j] == s[j + |s| - |rest|];
          }
        }
      }
    }
  }

  /** Pass 4, strings.Trim(s, "_"): every leading and trailing underscore
      removed. */
  function TrimUnderscore(s: string): string
    decreases |s|
  {
    if s != [] && s[0] == '_' then TrimUnderscore(s[1..])
    else if s != [] && s[|s| - 1] == '_' then TrimUnderscore(s[..|s| - 1])
    else s
  }

  /** Pass 4 leaves no underscore at either end and, taking a contiguous part
      of its input, keeps the absence of dashes, upper-case letters and
      adjacent underscores. */
  lemma {:induction false} TrimShape(s: string)
    ensures var r := TrimUnderscore(s);
      (r != [] ==> r[0] != '_' && r[|r| - 1] != '_') &&
      ((forall k :: 0 <= k < |s| ==> s[k] != '-' && !IsUpper(s[k])) ==>
        forall k :: 0 <= k < |r| ==> r[k] != '-' && !IsUpper(r[k])) &&
      (NoDoubleUnderscore(s) ==> NoDoubleUnderscore(r))
    decreases |s|
  {
    if s != [] && s[0] == '_' {
      TrimShape(s[1..]);
    } else if s != [] && s[|s| - 1] == '_' {
      TrimShape(s[..|s| - 1]);
    }
  }

  /** quote.go CanonicalName. */
  function CanonicalName(s: string): string {
    TrimUnderscore(Collapse(Lower(MarkWords(s))))
  }

  /** CanonicalName's result has no dash, no upper-case ASCII letter, no two
      adjacent underscores, and no underscore at either end. */
  lemma CanonicalNameShape(s: string)
    ensures var r := CanonicalName(s);
      (forall k :: 0 <= k < |r| ==> r[k] != '-' && !IsUpper(r[k])) &&
      NoDoubleUnderscore(r) &&
      (r != [] ==> r[0] != '_' && r[|r| - 1] != '_')
  {
    var l := Lower(MarkWords(s));
    CollapseShape(l);
    TrimShape(Collapse(l));
  }

  /** A character's contribution to a name's letters: nothing for a
      separator, the lower-cased character otherwise. */
  function LetterOf(c: char): string {
    if IsSep(c) then "" else [ToLower(c)]
  }

  /** The lower-cased non-separator characters of s, in order. */
  function Letters(s: string): string {
    FlatMap(LetterOf, s)
  }

  lemma LettersCons(c: char, t: string)
    ensures Letters([c] + t) == LetterOf(c) + Letters(t)
  {
    assert ([c] + t)[0] == c && ([c] + t)[1..] == t;
  }

  /** The marks around a word add no letters. */
  lemma MarkedWordLetters(w: string)
    ensures Letters("_" + w + "-") == Letters(w)
  {
    FlatMapConcat(LetterOf, "_" + w, "-");
    FlatMapConcat(LetterOf, "_", w);
    LettersCons('_', []);
    LettersCons('-', []);
  }

  lemma {:induction false} MarkWordsLetters(s: string)
    ensures Letters(MarkWords(s)) == Letters(s)
    decreases |s|
  {
    if |s| >= 2 && IsUpper(s[0]) && IsLower(s[1]) {
      var j := LowerRunEnd(s, 2);
      var w, rest := s[..j], s[j..];
      assert MarkWords(s) == ("_" + w + "-") + MarkWords(rest);
      MarkWordsLetters(rest);
      FlatMapConcat(LetterOf, "_" + w + "-", MarkWords(rest));
      MarkedWordLetters(w);
      assert s == w + rest;
      FlatMapConcat(LetterOf, w, rest);
    } else if s != [] {
      MarkWordsLetters(s[1..]);
      LettersCons(s[0], MarkWords(s[1..]));
      LettersCons(s[0], s[1..]);
      assert [s[0]] + s[1..] == s;
    }
  }

  lemma {:induction false} LowerLetters(s: string)
    ensures Letters(Lower(s)) == Letters(s)
  {
    if s != [] {
      LowerLetters(s[1..]);
      assert Lower(s) == [ToLower(s[0])] + Lower(s[1..]);
      LettersCons(ToLower(s[0]), Lower(s[1..]));
      LettersCons(s[0], s[1..]);
      assert [s[0]] + s[1..] == s;
    }
  }

  lemma {:induction false} SepsHaveNoLetters(s: string)
    requires forall k :: 0 <= k < |s| ==> IsSep(s[k])
    ensures Letters(s) == []
  {
    if s != [] {
      SepsHaveNoLetters(s[1..]);
    }
  }

  lemma {:induction false} CollapseLetters(s: string)
    ensures Letters(Collapse(s)) == Letters(s)
    decreases |s|
  {
    if s != [] {
      if IsSep(s[0]) {
        var j := SepRunEnd(s, 1);
        CollapseLetters(s[j..]);
        LettersCons('_', Collapse(s[j..]));
        assert s == s[..j] + s[j..];
        FlatMapConcat(LetterOf, s[..j], s[j..]);
        SepsHaveNoLetters(s[..j]);
      } else {
        CollapseLetters(s[1..]);
        LettersCons(s[0], Collapse(s[1..]));
        LettersCons(s[0], s[1..]);
        assert [s[0]] + s[1..] == s;
      }
    }
  }

  lemma {:induction false} TrimLetters(s: string)
    ensures Letters(TrimUnderscore(s)) == Letters(s)
    decreases |s|
  {
    if s != [] && s[0] == '_' {
      TrimLetters(s[1..]);
    } else if s != [] && s[|s| - 1] == '_' {
      TrimLetters(s[..|s| - 1]);
      assert s == s[..|s| - 1] + [s[|s| - 1]];
      FlatMapConcat(LetterOf, s[..|s| - 1], [s[|s| - 1]]);
      LettersCons('_', []);
    }
  }

  /** CanonicalName keeps the name's characters: apart from separators, the
      result spells the field name's characters lower-cased, in order. */
  lemma CanonicalNameLetters(s: string)
    ensures Letters(CanonicalName(s)) == Letters(s)
  {
    MarkWordsLetters(s);
    LowerLetters(MarkWords(s));
    CollapseLetters(Lower(MarkWords(s)));
    TrimLetters(Collapse(Lower(MarkWords(s))));
  }

  /** Example: an all-capital name is only lower-cased. */
  lemma AcronymExample()
    ensures CanonicalName("ID") == "id"
  {
    assert MarkWords("D") == "D";
    assert MarkWords("ID") == "ID";
    assert Lower("ID") == "id";
    var c := Collapse("id");
    assert Collapse("d") == "d";
    assert c == "id";
    assert TrimUnderscore("id") == "id";
  }

  /** Collapse leaves a leading run of non-separators in place. */
  lemma {:induction false} CollapsePlainPrefix(a: string, t: string)
    requires forall k :: 0 <= k < |a| ==> !IsSep(a[k])
    ensures Collapse(a + t) == a + Collapse(t)
  {
    if a != [] {
      CollapsePlainPrefix(a[1..], t);
      var u := a + t;
      assert u[0] == a[0] && u[1..] == a[1..] + t;
      assert [a[0]] + a[1..] == a;
    } else {
      assert a + t == t;
    }
  }

  /** Collapse of a separator followed by a non-separator (or nothing). */
  lemma CollapseSepThen(c: char, b: string)
    requires IsSep(c)
    requires b != [] ==> !IsSep(b[0])
    ensures Collapse([c] + b) == "_" + Collapse(b)
  {
    var t := [c] + b;
    assert SepRunEnd(t, 1) == 1;
    assert t[1..] == b;
  }

  /** Trim of a string that neither starts nor ends with an underscore. */
  lemma TrimNothing(s: string)
    requires s != [] ==> s[0] != '_' && s[|s| - 1] != '_'
    ensures TrimUnderscore(s) == s
  {
  }

  /** Example: a single capitalised word is lower-cased ("Name", "Bytes"). */
  lemma SingleWordExample(w: string, lower: string)
    requires |w| >= 2 && IsUpper(w[0]) && forall k :: 1 <= k < |w| ==> IsLower(w[k])
    requires lower == Lower(w)
    ensures CanonicalName(w) == lower
  {
    var m := MarkWords(w);
    assert m == "_" + w + "-" by {
      assert LowerRunEnd(w, 2) == |w|;
      assert w[..|w|] == w && w[|w|..] == [];
      assert MarkWords(w) == "_" + w[..|w|] + "-" + MarkWords(w[|w|..]);
    }
    var l := Lower(m);
    assert l == ['_'] + (lower + "-");
    var c := Collapse(l);
    assert c == "_" + lower + "_" by {
      assert forall k :: 0 <= k < |lower| ==> IsLower(lower[k]);
      CollapseSepThen('_', lower + "-");
      CollapsePlainPrefix(lower, "-");
      CollapseSepThen('-', []);
    }
    assert TrimUnderscore(c) == lower by {
      assert c[1..] == lower + "_";
      assert TrimUnderscore(c) == TrimUnderscore(lower + "_");
      assert (lower + "_")[..|lower|] == lower;
      TrimNothing(lower);
    }
  }

  /** Example: a capitalised word before an acronym is split off with _,
      pass by pass. */
  lemma TwoWordMarks()
    ensures MarkWords("UserID") == "_User-ID"
  {
    assert LowerRunEnd("UserID", 2) == 4;
    assert MarkWords("ID") == "ID";
  }

  lemma TwoWordLower()
    ensures Lower("_User-ID") == "_user-id"
  {
  }

  lemma TwoWordCollapse()
    ensures Collapse("_user-id") == "_user_id"
  {
    assert "_user-id" == ['_'] + ("user" + (['-'] + "id"));
    CollapseSepThen('-', "id");
    CollapsePlainPrefix("id", []);
    assert "id" + [] == "id";
    CollapsePlainPrefix("user", ['-'] + "id");
    CollapseSepThen('_', "user" + (['-'] + "id"));
  }

  lemma TwoWordTrim()
    ensures TrimUnderscore("_user_id") == "user_id"
  {
    assert "_user_id"[1..] == "user_id";
    TrimNothing("user_id");
  }

  lemma TwoWordExample()
    ensures CanonicalName("UserID") == "user_id"
  {
    TwoWordMarks();
    TwoWordLower();
    TwoWordCollapse();
    TwoWordTrim();
  }

  // ---------------------------------------------------------------------------
  // Runs of capitalised words

  /** A capitalised word: an upper-case letter followed by one or more
      lower-case letters, the shape pass 1 wraps. */
  predicate IsWord(w: string) {
    |w| >= 2 && IsUpper(w[0]) && forall k :: 1 <= k < |w| ==> IsLower(w[k])
  }

  /** Pass 1's wrapping of one word. */
  function Marked(w: string): string {
    "_" + w + "-"
  }

  /** Every word lower-cased, in order. */
  function LowerAll(ws: seq<string>): (r: seq<string>)
    ensures |r| == |ws| && forall k :: 0 <= k < |ws| ==> r[k] == Lower(ws[k])
  {
    if ws == [] then [] else [Lower(ws[0])] + LowerAll(ws[1..])
  }

  /** LowerRunEnd stops at the first index past a run of lower-case letters. */
  lemma {:induction false} LowerRunEndAt(s: string, i: nat, j: nat)
    requires i <= j <= |s|
    requires forall k :: i <= k < j ==> IsLower(s[k])
    requires j < |s| ==> !IsLower(s[j])
    ensures LowerRunEnd(s, i) == j
    decreases j - i
  {
    if i < j {
      LowerRunEndAt(s, i + 1, j);
    }
  }

  /** SepRunEnd stops at the first index past a run of separators. */
  lemma {:induction false} SepRunEndAt(s: string, i: nat, j: nat)
    requires i <= j <= |s|
    requires forall k :: i <= k < j ==> IsSep(s[k])
    requires j < |s| ==> !IsSep(s[j])
    ensures SepRunEnd(s, i) == j
    decreases j - i
  {
    if i < j {
      SepRunEndAt(s, i + 1, j);
    }
  }

  /** Pass 1 wraps a word that is followed by nothing or by an upper-case
      letter. */
  lemma MarkWordsWord(w: string, rest: string)
    requires IsWord(w)
    requires rest != [] ==> IsUpper(rest[0])
    ensures MarkWords(w + rest) == Marked(w) + MarkWords(rest)
  {
    var s := w + rest;
    LowerRunEndAt(s, 2, |w|);
    assert s[..|w|] == w && s[|w|..] == rest;
  }

  /** Pass 1 wraps every word of a run. */
  lemma {:induction false} MarkWordsConcat(ws: seq<string>)
    requires forall k :: 0 <= k < |ws| ==> IsWord(ws[k])
    ensures MarkWords(Concat(ws)) == FlatMap(Marked, ws)
  {
    if ws != [] {
      var rest := Concat(ws[1..]);
      MarkWordsConcat(ws[1..]);
      if ws[1..] != [] {
        assert rest == ws[1] + Concat(ws[2..]);
        assert rest[0] == ws[1][0];
      }
      MarkWordsWord(ws[0], rest);
    }
  }

  lemma LowerConcat(a: string, b: string)
    ensures Lower(a + b) == Lower(a) + Lower(b)
  {
    assert forall k :: 0 <= k < |a + b| ==> Lower(a + b)[k] == (Lower(a) + Lower(b))[k];
  }

  /** Pass 2 lower-cases each wrapped word and keeps its marks. */
  lemma {:induction false} LowerMarked(ws: seq<string>)
    ensures Lower(FlatMap(Marked, ws)) == FlatMap(Marked, LowerAll(ws))
  {
    if ws != [] {
      LowerMarked(ws[1..]);
      LowerConcat(Marked(ws[0]), FlatMap(Marked, ws[1..]));
      LowerConcat("_" + ws[0], "-");
      LowerConcat("_", ws[0]);
      assert Lower("_") == "_" && Lower("-") == "-";
      assert LowerAll(ws)[1..] == LowerAll(ws[1..]);
    }
  }

  /** A lower-cased word is all lower-case letters. */
  lemma LowerWord(w: string)
    requires IsWord(w)
    ensures |Lower(w)| >= 2 && forall k :: 0 <= k < |Lower(w)| ==> IsLower(Lower(w)[k])
  {
  }

  /** Pass 3 turns a run of separators before a non-separator into one
      underscore. */
  lemma CollapseSeps(p: string, x: string)
    requires p != [] && forall k :: 0 <= k < |p| ==> IsSep(p[k])
    requires x != [] ==> !IsSep(x[0])
    ensures Collapse(p + x) == "_" + Collapse(x)
  {
    var s := p + x;
    SepRunEndAt(s, 1, |p|);
    assert s[|p|..] == x;
  }

  /** A non-empty run of lower-case letters. */
  predicate IsLowerWord(l: string) {
    l != [] && forall i :: 0 <= i < |l| ==> IsLower(l[i])
  }

  /** Every word is preceded by an underscore. */
  function Prefixed(l: string): string {
    "_" + l
  }

  /** Pass 3 merges each "-_" between two wrapped words into one underscore
      and turns the last "-" into an underscore. */
  lemma {:induction false} CollapseMarked(ls: seq<string>)
    requires |ls| >= 1
    requires forall k :: 0 <= k < |ls| ==> IsLowerWord(ls[k])
    ensures Collapse(FlatMap(Marked, ls)) == FlatMap(Prefixed, ls) + "_"
  {
    var l := ls[0];
    var rest := FlatMap(Marked, ls[1..]);
    assert FlatMap(Marked, ls) == "_" + (l + ("-" + rest));
    assert FlatMap(Prefixed, ls) == Prefixed(l) + FlatMap(Prefixed, ls[1..]);
    CollapseSeps("_", l + ("-" + rest));
    CollapsePlainPrefix(l, "-" + rest);
    if ls[1..] == [] {
      CollapseSeps("-", []);
    } else {
      CollapseMarked(ls[1..]);
      CollapseDashMark(ls[1..]);
    }
  }

  /** The dash that closes a word merges with the underscore that opens the
      next one. */
  lemma CollapseDashMark(ls: seq<string>)
    requires |ls| >= 1 && IsLowerWord(ls[0])
    ensures Collapse("-" + FlatMap(Marked, ls)) == Collapse(FlatMap(Marked, ls))
  {
    var y := ls[0] + ("-" + FlatMap(Marked, ls[1..]));
    assert FlatMap(Marked, ls) == "_" + y;
    assert "-" + ("_" + y) == "-_" + y;
    CollapseSeps("-_", y);
    CollapseSeps("_", y);
  }

  /** The prefixed words are the words joined by "_", after one more "_". */
  lemma {:induction false} PrefixedJoin(ls: seq<string>)
    requires |ls| >= 1
    ensures FlatMap(Prefixed, ls) == "_" + Join(ls, "_")
  {
    if |ls| == 1 {
      assert FlatMap(Prefixed, ls) == "_" + ls[0] + FlatMap(Prefixed, ls[1..]);
    } else {
      PrefixedJoin(ls[1..]);
      assert FlatMap(Prefixed, ls) == "_" + ls[0] + FlatMap(Prefixed, ls[1..]);
    }
  }

  /** Words of lower-case letters joined by "_" neither start nor end with
      "_". */
  lemma {:induction false} JoinEnds(ls: seq<string>)
    requires |ls| >= 1
    requires forall k :: 0 <= k < |ls| ==> IsLowerWord(ls[k])
    ensures var j := Join(ls, "_"); j != [] && IsLower(j[0]) && IsLower(j[|j| - 1])
  {
    if |ls| > 1 {
      JoinEnds(ls[1..]);
      var j := Join(ls, "_");
      assert j == ls[0] + "_" + Join(ls[1..], "_");
      assert j[0] == ls[0][0];
    }
  }

  /** Pass 4 removes exactly the two underscores around a text that has none
      at its ends. */
  lemma TrimWrapped(j: string)
    requires j != [] && j[0] != '_' && j[|j| - 1] != '_'
    ensures TrimUnderscore("_" + j + "_") == j
  {
    var c := "_" + j + "_";
    assert c[1..] == j + "_";
    assert (j + "_")[..|j|] == j;
    TrimNothing(j);
  }

  /** CanonicalName of a run of capitalised words ("UserName", "CreatedAtTime")
      is the words lower-cased and joined by "_". */
  lemma CapitalisedWords(ws: seq<string>)
    requires |ws| >= 1 && forall k :: 0 <= k < |ws| ==> IsWord(ws[k])
    ensures CanonicalName(Concat(ws)) == Join(LowerAll(ws), "_")
  {
    var ls := LowerAll(ws);
    forall k | 0 <= k < |ls|
      ensures IsLowerWord(ls[k])
    {
      LowerWord(ws[k]);
    }
    var j := Join(ls, "_");
    MarkWordsConcat(ws);
    LowerMarked(ws);
    assert Lower(MarkWords(Concat(ws))) == FlatMap(Marked, ls);
    CollapseMarked(ls);
    PrefixedJoin(ls);
    assert Collapse(Lower(MarkWords(Concat(ws)))) == "_" + j + "_";
    JoinEnds(ls);
    TrimWrapped(j);
  }
}
