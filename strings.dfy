/** Sequence-of-text helpers shared by the quoting engine: the flattening of a
    per-element rendering, and strings.Join. */
module Strings {

  /** The concatenation of f applied to every element of s, in order. */
  function FlatMap<T>(f: T -> string, s: seq<T>): (r: string)
    ensures s == [] ==> r == []
  {
    if s == [] then [] else f(s[0]) + FlatMap(f, s[1..])
  }

  lemma {:induction false} FlatMapConcat<T>(f: T -> string, a: seq<T>, b: seq<T>)
    ensures FlatMap(f, a + b) == FlatMap(f, a) + FlatMap(f, b)
  {
    if a == [] {
      assert a + b == b;
    } else {
      assert (a + b)[1..] == a[1..] + b;
      FlatMapConcat(f, a[1..], b);
    }
  }

  /** FlatMap over a prefix grows by one rendering per element: the step a
      left-to-right append loop takes. */
  lemma FlatMapStep<T>(f: T -> string, s: seq<T>, i: nat)
    requires i < |s|
    ensures FlatMap(f, s[..i + 1]) == FlatMap(f, s[..i]) + f(s[i])
  {
    assert s[..i + 1] == s[..i] + [s[i]];
    FlatMapConcat(f, s[..i], [s[i]]);
    assert FlatMap(f, [s[i]]) == f(s[i]) + FlatMap(f, []);
  }

  /** strings.Join: the parts separated by sep. */
  function Join(parts: seq<string>, sep: string): (r: string)
    ensures parts == [] ==> r == []
    ensures |parts| == 1 ==> r == parts[0]
  {
    if parts == [] then []
    else if |parts| == 1 then parts[0]
    else parts[0] + sep + Join(parts[1..], sep)
  }

  /** strings.Split(t, " "): the pieces of t between its spaces, one more
      than the number of spaces. */
  function SplitSpaces(t: string): (r: seq<string>)
    ensures |r| >= 1
  {
    if t == [] then [[]]
    else if t[0] == ' ' then [[]] + SplitSpaces(t[1..])
    else var rest := SplitSpaces(t[1..]); [[t[0]] + rest[0]] + rest[1..]
  }

  /** A word without spaces in front of t joins the first piece of t. */
  lemma {:induction false} SplitSpacesWord(w: string, t: string)
    requires ' ' !in w
    ensures SplitSpaces(w + t) == [w + SplitSpaces(t)[0]] + SplitSpaces(t)[1..]
  {
    if w != [] {
      assert (w + t)[0] == w[0] && (w + t)[1..] == w[1..] + t;
      SplitSpacesWord(w[1..], t);
      assert [w[0]] + (w[1..] + SplitSpaces(t)[0]) == w + SplitSpaces(t)[0];
    } else {
      var r := SplitSpaces(t);
      assert w + t == t && w + r[0] == r[0] && [r[0]] + r[1..] == r;
    }
  }

  /** Splitting a join on spaces gives back the parts when none holds a space. */
  lemma {:induction false} SplitJoin(parts: seq<string>)
    requires |parts| >= 1
    requires forall k :: 0 <= k < |parts| ==> ' ' !in parts[k]
    ensures SplitSpaces(Join(parts, " ")) == parts
  {
    if |parts| == 1 {
      SplitSpacesWord(parts[0], []);
      assert parts[0] + [] == parts[0];
    } else {
      var j := Join(parts[1..], " ");
      SplitJoin(parts[1..]);
      assert (" " + j)[0] == ' ' && (" " + j)[1..] == j;
      assert SplitSpaces(" " + j) == [[]] + parts[1..];
      assert parts[0] + " " + j == parts[0] + (" " + j);
      SplitSpacesWord(parts[0], " " + j);
      assert parts[0] + [] == parts[0];
      assert [parts[0]] + parts[1..] == parts;
    }
  }

  /** The fragments of a sink log run together, as the written text. */
  function Concat(log: seq<string>): (r: string)
    ensures log == [] ==> r == []
  {
    if log == [] then [] else log[0] + Concat(log[1..])
  }

  lemma {:induction false} ConcatAppend(a: seq<string>, b: seq<string>)
    ensures Concat(a + b) == Concat(a) + Concat(b)
  {
    if a == [] {
      assert a + b == b;
    } else {
      assert (a + b)[1..] == a[1..] + b;
      ConcatAppend(a[1..], b);
    }
  }
}
