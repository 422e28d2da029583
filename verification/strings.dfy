/**
 Character-level string operations with the semantics of the JavaScript
 calls the adapters make: `s.replace(/c/g, t)` for a one-character pattern,
 `s.split(c)` for a one-character separator, and `parts.join(sep)`.
 */
module Strings {

  type String = seq<char>

  /** Number of occurrences of `c` in `s`. */
  function Count(s: String, c: char): nat
  {
    if s == [] then 0 else (if s[0] == c then 1 else 0) + Count(s[1..], c)
  }

  /** `s.replace(/c/g, t)`: every occurrence of `c` becomes `t`, nothing else changes. */
  function ReplaceAll(s: String, c: char, t: String): (r: String)
    ensures |r| == |s| + Count(s, c) * (|t| - 1)
    ensures c !in t ==> c !in r
  {
    if s == [] then []
    else (if s[0] == c then t else [s[0]]) + ReplaceAll(s[1..], c, t)
  }

  /** `ReplaceAll` applied to each element, preserving length and order. */
  function ReplaceEach(ps: seq<String>, c: char, t: String): (r: seq<String>)
    ensures |r| == |ps|
    ensures forall k :: 0 <= k < |ps| ==> r[k] == ReplaceAll(ps[k], c, t)
  {
    if ps == [] then [] else [ReplaceAll(ps[0], c, t)] + ReplaceEach(ps[1..], c, t)
  }

  /**
   `s.split(c)`: the maximal runs between separators. As in JavaScript, the
   empty string splits into one empty piece.
   */
  function Split(s: String, c: char): (r: seq<String>)
    ensures |r| == Count(s, c) + 1
    ensures forall k :: 0 <= k < |r| ==> c !in r[k]
  {
    if s == [] then [[]]
    else
      var rest := Split(s[1..], c);
      if s[0] == c then [[]] + rest else [[s[0]] + rest[0]] + rest[1..]
  }

  /** `parts.join(sep)`: the empty list joins to the empty string. */
  function Join(parts: seq<String>, sep: String): String
  {
    if |parts| == 0 then []
    else if |parts| == 1 then parts[0]
    else parts[0] + sep + Join(parts[1..], sep)
  }

  /** koishi's `trimSlash`: drops one trailing '/' if there is one. */
  function TrimSlash(s: String): (r: String)
    ensures s == r || s == r + "/"
    ensures |s| > 0 && s[|s| - 1] == '/' ==> r + "/" == s
  {
    if |s| > 0 && s[|s| - 1] == '/' then s[..|s| - 1] else s
  }

  // ---------------------------------------------------------------------
  // Lemmas
  // ---------------------------------------------------------------------

  lemma {:induction false} CountAppend(a: String, b: String, c: char)
    ensures Count(a + b, c) == Count(a, c) + Count(b, c)
  {
    if a == [] {
      assert a + b == b;
    } else {
      assert (a + b)[1..] == a[1..] + b;
      CountAppend(a[1..], b, c);
    }
  }

  lemma {:induction false} ReplaceAllAppend(a: String, b: String, c: char, t: String)
    ensures ReplaceAll(a + b, c, t) == ReplaceAll(a, c, t) + ReplaceAll(b, c, t)
  {
    if a == [] {
      assert a + b == b;
    } else {
      assert (a + b)[1..] == a[1..] + b;
      ReplaceAllAppend(a[1..], b, c, t);
    }
  }

  /** Replacing a character that does not occur changes nothing. */
  lemma {:induction false} ReplaceAllAbsent(s: String, c: char, t: String)
    requires c !in s
    ensures ReplaceAll(s, c, t) == s
  {
    if s != [] {
      ReplaceAllAbsent(s[1..], c, t);
    }
  }

  /** A string with exactly one occurrence of `c` has just that occurrence replaced. */
  lemma {:induction false} ReplaceAllSingle(a: String, b: String, c: char, t: String)
    requires c !in a && c !in b
    ensures ReplaceAll(a + [c] + b, c, t) == a + t + b
  {
    ReplaceAllAppend(a + [c], b, c, t);
    ReplaceAllAppend(a, [c], c, t);
    ReplaceAllAbsent(a, c, t);
    ReplaceAllAbsent(b, c, t);
  }

  /** Swapping `c` for a fresh `d` and back is the identity. */
  lemma {:induction false} ReplaceAllInverse(s: String, c: char, d: char)
    requires d !in s
    ensures ReplaceAll(ReplaceAll(s, c, [d]), d, [c]) == s
  {
    if s != [] {
      var head := if s[0] == c then [d] else [s[0]];
      ReplaceAllAppend(head, ReplaceAll(s[1..], c, [d]), d, [c]);
      ReplaceAllInverse(s[1..], c, d);
    }
  }

  /** A separator occurs in a join only where the parts or the glue put it. */
  lemma {:induction false} JoinAbsent(parts: seq<String>, sep: String, c: char)
    requires c !in sep
    requires forall k :: 0 <= k < |parts| ==> c !in parts[k]
    ensures c !in Join(parts, sep)
  {
    if |parts| > 1 {
      JoinAbsent(parts[1..], sep, c);
    }
  }

  /** Joining with one more element at the end appends the glue and that element. */
  lemma {:induction false} JoinSnoc(parts: seq<String>, x: String, sep: String)
    requires |parts| > 0
    ensures Join(parts + [x], sep) == Join(parts, sep) + sep + x
  {
    if |parts| > 1 {
      assert (parts + [x])[1..] == parts[1..] + [x];
      JoinSnoc(parts[1..], x, sep);
    }
  }

  /** A join of several parts ends with the glue and the last part. */
  lemma {:induction false} JoinLast(parts: seq<String>, sep: String)
    requires |parts| > 1
    ensures Join(parts, sep) == Join(parts[..|parts| - 1], sep) + sep + parts[|parts| - 1]
  {
    var n := |parts|;
    assert parts == parts[..n - 1] + [parts[n - 1]];
    JoinSnoc(parts[..n - 1], parts[n - 1], sep);
  }

  /** Splitting undoes joining when no part contains the separator. */
  lemma {:induction false} SplitJoin(parts: seq<String>, c: char)
    requires |parts| > 0
    requires forall k :: 0 <= k < |parts| ==> c !in parts[k]
    ensures Split(Join(parts, [c]), c) == parts
  {
    if |parts| == 1 {
      SplitNoSeparator(parts[0], c);
    } else {
      SplitJoin(parts[1..], c);
      SplitPrefix(parts[0], Join(parts[1..], [c]), c);
      assert parts == [parts[0]] + parts[1..];
    }
  }

  /** A separator-free string splits into itself. */
  lemma {:induction false} SplitNoSeparator(s: String, c: char)
    requires c !in s
    ensures Split(s, c) == [s]
  {
    if s != [] {
      SplitNoSeparator(s[1..], c);
      assert [s[0]] + s[1..] == s;
    }
  }

  /** Splitting `p + [c] + s` with `p` free of `c` puts `p` in front of the pieces of `s`. */
  lemma {:induction false} SplitPrefix(p: String, s: String, c: char)
    requires c !in p
    ensures Split(p + [c] + s, c) == [p] + Split(s, c)
  {
    if p == [] {
      assert ([] + [c] + s)[1..] == s;
    } else {
      assert (p + [c] + s)[1..] == p[1..] + [c] + s;
      SplitPrefix(p[1..], s, c);
      assert [p[0]] + p[1..] == p;
    }
  }

  /** Joining undoes splitting, for every string. */
  lemma {:induction false} JoinSplit(s: String, c: char)
    ensures Join(Split(s, c), [c]) == s
  {
    if s != [] {
      JoinSplit(s[1..], c);
      var rest := Split(s[1..], c);
      if s[0] == c {
        assert Split(s, c) == [[]] + rest;
        assert ([[]] + rest)[1..] == rest;
      } else {
        var r := Split(s, c);
        assert r == [[s[0]] + rest[0]] + rest[1..];
        if |rest| > 1 {
          assert r[1..] == rest[1..];
          assert Join(rest, [c]) == rest[0] + [c] + Join(rest[1..], [c]);
        }
      }
    }
  }

  /** Replacing every `c` by `t` is splitting at `c` and gluing with `t`. */
  lemma {:induction false} ReplaceAllIsSplitJoin(s: String, c: char, t: String)
    ensures ReplaceAll(s, c, t) == Join(Split(s, c), t)
  {
    if s != [] {
      ReplaceAllIsSplitJoin(s[1..], c, t);
      var rest := Split(s[1..], c);
      if s[0] == c {
        assert ([[]] + rest)[1..] == rest;
      } else {
        var r := Split(s, c);
        assert r == [[s[0]] + rest[0]] + rest[1..];
        if |rest| > 1 {
          assert r[1..] == rest[1..];
        }
      }
    }
  }

  /** Replacing a character absent from the glue commutes with joining. */
  lemma {:induction false} ReplaceAllJoin(ps: seq<String>, sep: String, c: char, t: String)
    requires c !in sep
    ensures ReplaceAll(Join(ps, sep), c, t) == Join(ReplaceEach(ps, c, t), sep)
  {
    if |ps| > 1 {
      ReplaceAllJoin(ps[1..], sep, c, t);
      ReplaceAllAppend(ps[0] + sep, Join(ps[1..], sep), c, t);
      ReplaceAllAppend(ps[0], sep, c, t);
      ReplaceAllAbsent(sep, c, t);
      assert ReplaceEach(ps, c, t)[1..] == ReplaceEach(ps[1..], c, t);
    }
  }
}
