/**
 * Splitting a topic on a one-character separator, as `re.split('/', topic)`
 * does in the translator: with a literal one-character pattern it behaves
 * like Python's `str.split('/')`, so the result always has one more part
 * than the topic has separators, and empty parts are kept.
 */
module Segments {

  /** True when no part contains the separator: each part is a single topic level. */
  predicate Separated(parts: seq<string>, sep: char)
  {
    forall i :: 0 <= i < |parts| ==> sep !in parts[i]
  }

  /** Number of occurrences of `c` in `s`. */
  function Occurrences(s: string, c: char): nat
  {
    if s == [] then 0 else (if s[0] == c then 1 else 0) + Occurrences(s[1..], c)
  }

  /** Glues `parts` back together with `sep` between consecutive parts (`sep.join(parts)`). */
  function Join(parts: seq<string>, sep: char): string
    requires |parts| >= 1
  {
    if |parts| == 1 then parts[0] else parts[0] + [sep] + Join(parts[1..], sep)
  }

  /**
   * The parts of `s` between occurrences of `sep`. No part contains the
   * separator, and there is one part more than there are separators.
   */
  function Split(s: string, sep: char): (parts: seq<string>)
    ensures |parts| == Occurrences(s, sep) + 1
    ensures Separated(parts, sep)
    decreases |s|
  {
    if s == [] then [[]]
    else
      var rest := Split(s[1..], sep);
      if s[0] == sep then [[]] + rest
      else [[s[0]] + rest[0]] + rest[1..]
  }

  /** Joining the parts of `s` with the separator gives back `s`. */
  lemma {:induction false} JoinSplit(s: string, sep: char)
    ensures Join(Split(s, sep), sep) == s
    decreases |s|
  {
    if s != [] {
      JoinSplit(s[1..], sep);
      var rest := Split(s[1..], sep);
      if s[0] == sep {
        assert ([[]] + rest)[1..] == rest;
      } else {
        assert ([[s[0]] + rest[0]] + rest[1..])[1..] == rest[1..];
      }
    }
  }

  /** A string without the separator is a single part. */
  lemma {:induction false} SplitNoSeparator(p: string, sep: char)
    requires sep !in p
    ensures Split(p, sep) == [p]
    decreases |p|
  {
    if p != [] {
      SplitNoSeparator(p[1..], sep);
      assert [p[0]] + p[1..] == p;
    }
  }

  /** Splitting peels off a leading separator-free part. */
  lemma {:induction false} SplitAfter(p: string, t: string, sep: char)
    requires sep !in p
    ensures Split(p + [sep] + t, sep) == [p] + Split(t, sep)
    decreases |p|
  {
    var s := p + [sep] + t;
    if p == [] {
      assert s[1..] == t;
    } else {
      assert s[1..] == p[1..] + [sep] + t;
      SplitAfter(p[1..], t, sep);
      var rest := Split(s[1..], sep);
      assert rest[0] == p[1..] && rest[1..] == Split(t, sep);
      assert [s[0]] + p[1..] == p;
    }
  }

  /** Split is the inverse of Join on parts that do not contain the separator. */
  lemma {:induction false} SplitJoin(parts: seq<string>, sep: char)
    requires |parts| >= 1
    requires Separated(parts, sep)
    ensures Split(Join(parts, sep), sep) == parts
    decreases |parts|
  {
    if |parts| == 1 {
      SplitNoSeparator(parts[0], sep);
    } else {
      SplitJoin(parts[1..], sep);
      SplitAfter(parts[0], Join(parts[1..], sep), sep);
      assert [parts[0]] + parts[1..] == parts;
    }
  }

  /** Splitting peels off several leading separator-free parts. */
  lemma {:induction false} SplitAfterParts(ps: seq<string>, t: string, sep: char)
    requires |ps| >= 1
    requires Separated(ps, sep)
    ensures Split(Join(ps, sep) + [sep] + t, sep) == ps + Split(t, sep)
    decreases |ps|
  {
    if |ps| == 1 {
      SplitAfter(ps[0], t, sep);
    } else {
      SplitAfterParts(ps[1..], t, sep);
      assert Join(ps, sep) + [sep] + t == ps[0] + [sep] + (Join(ps[1..], sep) + [sep] + t);
      SplitAfter(ps[0], Join(ps[1..], sep) + [sep] + t, sep);
      assert [ps[0]] + ps[1..] == ps;
    }
  }

  /** Splitting `t`, a separator, then `x` gives the parts of `t` followed by the parts of `x`. */
  lemma {:induction false} SplitConcat(t: string, x: string, sep: char)
    ensures Split(t + [sep] + x, sep) == Split(t, sep) + Split(x, sep)
    decreases |t|
  {
    var s := t + [sep] + x;
    if t == [] {
      assert s[1..] == x;
    } else {
      assert s[1..] == t[1..] + [sep] + x;
      SplitConcat(t[1..], x, sep);
      var front := Split(t[1..], sep);
      var rest := Split(s[1..], sep);
      assert rest == front + Split(x, sep);
      if t[0] != sep {
        assert rest[0] == front[0];
        assert rest[1..] == front[1..] + Split(x, sep);
      }
    }
  }
}
