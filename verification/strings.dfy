/** Splitting and joining strings on a one-character separator, with the
    semantics of Go's strings.Split and strings.Join. */
module Strings {

  import Sequences

  /** The pieces of s between separators. There is always one piece more than
      there are separators, so the empty string splits to [""]. */
  function Split(s: string, sep: char): (parts: seq<string>)
    ensures |parts| == 1 + Sequences.Count(s, sep)
    ensures forall i :: 0 <= i < |parts| ==> sep !in parts[i]
    decreases |s|
  {
    if |s| == 0 then [""]
    else
      var rest := Split(s[1..], sep);
      if s[0] == sep then [""] + rest
      else [[s[0]] + rest[0]] + rest[1..]
  }

  /** The parts with the separator between consecutive ones; "" for no parts. */
  function Join(parts: seq<string>, sep: char): string
    decreases |parts|
  {
    if |parts| == 0 then ""
    else if |parts| == 1 then parts[0]
    else parts[0] + [sep] + Join(parts[1..], sep)
  }

  /** A string without the separator is a single piece. */
  lemma SplitWithoutSeparator(s: string, sep: char)
    requires sep !in s
    ensures Split(s, sep) == [s]
  {
    assert Sequences.Count(s, sep) == 0;
    JoinSplit(s, sep);
  }

  /** The first separator of a string ends its first piece. */
  lemma {:induction false} SplitAtSeparator(a: string, sep: char, t: string)
    requires sep !in a
    ensures Split(a + [sep] + t, sep) == [a] + Split(t, sep)
    decreases |a|
  {
    var s := a + [sep] + t;
    if |a| == 0 {
      assert s == [sep] + t;
      assert s[1..] == t;
    } else {
      assert s[1..] == a[1..] + [sep] + t;
      SplitAtSeparator(a[1..], sep, t);
      assert [a[0]] + a[1..] == a;
    }
  }

  /** Two separator-free pieces, each followed by the separator, come off
      the front of a split one after the other. */
  lemma SplitTwoPieces(a: string, b: string, t: string, sep: char)
    requires sep !in a && sep !in b
    ensures Split(a + [sep] + (b + [sep] + t), sep) == [a, b] + Split(t, sep)
  {
    SplitAtSeparator(a, sep, b + [sep] + t);
    SplitAtSeparator(b, sep, t);
    assert [a] + ([b] + Split(t, sep)) == [a, b] + Split(t, sep);
  }

  /** Splitting a join recovers the parts, provided there is at least one part
      and no part holds the separator. */
  lemma {:induction false} SplitJoin(parts: seq<string>, sep: char)
    requires |parts| >= 1
    requires forall i :: 0 <= i < |parts| ==> sep !in parts[i]
    ensures Split(Join(parts, sep), sep) == parts
    decreases |parts|
  {
    if |parts| == 1 {
      SplitWithoutSeparator(parts[0], sep);
    } else {
      SplitJoin(parts[1..], sep);
      SplitAtSeparator(parts[0], sep, Join(parts[1..], sep));
      assert [parts[0]] + parts[1..] == parts;
    }
  }

  /** Joining the pieces of a split gives back the string. */
  lemma {:induction false} JoinSplit(s: string, sep: char)
    ensures Join(Split(s, sep), sep) == s
    decreases |s|
  {
    if |s| > 0 {
      JoinSplit(s[1..], sep);
      JoinSplitStep(s, sep);
    }
  }

  /** The step of JoinSplit: from the tail's round trip to the whole string's. */
  lemma JoinSplitStep(s: string, sep: char)
    requires |s| > 0
    requires Join(Split(s[1..], sep), sep) == s[1..]
    ensures Join(Split(s, sep), sep) == s
  {
    assert [s[0]] + s[1..] == s;
    if s[0] == sep {
      assert Split(s, sep) == [""] + Split(s[1..], sep);
      JoinFront("", Split(s[1..], sep), sep);
    } else {
      assert Split(s, sep) == [[s[0]] + Split(s[1..], sep)[0]] + Split(s[1..], sep)[1..];
      JoinSplitGrow(s[0], Split(s[1..], sep), sep);
    }
  }

  /** Growing the first part by one character grows the join by it. */
  lemma JoinSplitGrow(c: char, rest: seq<string>, sep: char)
    requires |rest| >= 1
    ensures Join([[c] + rest[0]] + rest[1..], sep) == [c] + Join(rest, sep)
  {
    if |rest| > 1 {
      JoinFront([c] + rest[0], rest[1..], sep);
      JoinFront(rest[0], rest[1..], sep);
      assert [rest[0]] + rest[1..] == rest;
    }
  }

  /** Joining a part in front of at least one more part puts a separator
      between them. */
  lemma JoinFront(first: string, more: seq<string>, sep: char)
    requires |more| >= 1
    ensures Join([first] + more, sep) == first + [sep] + Join(more, sep)
  {
    assert ([first] + more)[1..] == more;
  }
}
