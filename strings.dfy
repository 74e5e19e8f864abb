/** String helpers with JavaScript's semantics for the ASCII range. */
module Strings {

  /** Number of occurrences of `c` in `s`. */
  function Count(c: char, s: string): (n: nat)
    ensures n <= |s|
  {
    if s == [] then 0 else (if s[0] == c then 1 else 0) + Count(c, s[1..])
  }

  lemma {:induction false} CountAppend(c: char, s: string, t: string)
    ensures Count(c, s + t) == Count(c, s) + Count(c, t)
  {
    if s != [] {
      assert (s + t)[0] == s[0] && (s + t)[1..] == s[1..] + t;
      CountAppend(c, s[1..], t);
    } else {
      assert s + t == t;
    }
  }

  /** `s.replace(/from/g, to)` for single characters. */
  function ReplaceAll(s: string, from: char, to: char): (r: string)
    ensures |r| == |s|
    ensures forall i :: 0 <= i < |s| ==> r[i] == (if s[i] == from then to else s[i])
  {
    seq(|s|, i requires 0 <= i < |s| => if s[i] == from then to else s[i])
  }

  /** `s.split(sep)` for a one-character separator: always at least one part. */
  function Split(s: string, sep: char): (parts: seq<string>)
    ensures |parts| >= 1
  {
    if s == [] then [[]]
    else if s[0] == sep then [[]] + Split(s[1..], sep)
    else
      var rest := Split(s[1..], sep);
      [[s[0]] + rest[0]] + rest[1..]
  }

  /** `parts.join(sep)`. */
  function Join(parts: seq<string>, sep: string): string
  {
    if |parts| == 0 then []
    else if |parts| == 1 then parts[0]
    else parts[0] + sep + Join(parts[1..], sep)
  }

  /** Splitting yields one more part than there are separators, and no part holds one. */
  lemma {:induction false} SplitShape(s: string, sep: char)
    ensures |Split(s, sep)| == Count(sep, s) + 1
    ensures forall k :: 0 <= k < |Split(s, sep)| ==> Count(sep, Split(s, sep)[k]) == 0
  {
    if s != [] {
      SplitShape(s[1..], sep);
      if s[0] != sep {
        var rest := Split(s[1..], sep);
        assert ([s[0]] + rest[0])[1..] == rest[0];
      }
    }
  }

  /** Joining the parts of a split with the same separator gives the string back. */
  lemma {:induction false} JoinSplit(s: string, sep: char)
    ensures Join(Split(s, sep), [sep]) == s
  {
    if s != [] {
      JoinSplit(s[1..], sep);
      var rest := Split(s[1..], sep);
      if s[0] == sep {
        assert Split(s, sep)[1..] == rest;
      } else {
        var parts := Split(s, sep);
        assert parts[1..] == rest[1..];
        if |rest| == 1 {
          assert parts == [[s[0]] + rest[0]];
        } else {
          assert Join(rest, [sep]) == rest[0] + [sep] + Join(rest[1..], [sep]);
        }
      }
    }
  }

  /** Occurrences of `c` in a join: those in the parts plus one per separator. */
  lemma {:induction false} CountJoin(c: char, parts: seq<string>, sep: string)
    requires |parts| >= 1
    requires forall k :: 0 <= k < |parts| ==> Count(c, parts[k]) == 0
    ensures Count(c, Join(parts, sep)) == (|parts| - 1) * Count(c, sep)
  {
    if |parts| > 1 {
      CountJoin(c, parts[1..], sep);
      CountAppend(c, parts[0] + sep, Join(parts[1..], sep));
      CountAppend(c, parts[0], sep);
    }
  }

  /** A character is counted zero times exactly when it does not occur. */
  lemma {:induction false} CountZeroIffAbsent(c: char, s: string)
    ensures Count(c, s) == 0 <==> c !in s
  {
    if s != [] {
      CountZeroIffAbsent(c, s[1..]);
      assert s == [s[0]] + s[1..];
    }
  }

  /** Replacing one character by another leaves the count of any third character unchanged. */
  lemma {:induction false} CountReplaceOther(c: char, s: string, from: char, to: char)
    requires c != from && c != to
    ensures Count(c, ReplaceAll(s, from, to)) == Count(c, s)
  {
    if s != [] {
      CountReplaceOther(c, s[1..], from, to);
      assert ReplaceAll(s, from, to)[1..] == ReplaceAll(s[1..], from, to);
    }
  }

  /** A character absent from the string is absent from every part of its split. */
  lemma {:induction false} SplitPartsAvoid(c: char, s: string, sep: char)
    requires c !in s
    ensures forall k :: 0 <= k < |Split(s, sep)| ==> c !in Split(s, sep)[k]
  {
    if s != [] {
      SplitPartsAvoid(c, s[1..], sep);
    }
  }

  /** A character absent from every part and from the separator is absent from the join. */
  lemma {:induction false} JoinAvoids(c: char, parts: seq<string>, sep: string)
    requires c !in sep
    requires forall k :: 0 <= k < |parts| ==> c !in parts[k]
    ensures c !in Join(parts, sep)
  {
    if |parts| > 1 {
      JoinAvoids(c, parts[1..], sep);
    }
  }

  /** `toUpperCase` on one character, for the ASCII letters. */
  function Upper(ch: char): char
  {
    if 'a' <= ch <= 'z' then (ch as int - 32) as char else ch
  }

  /** `toLowerCase` on one character, for the ASCII letters. */
  function Lower(ch: char): char
  {
    if 'A' <= ch <= 'Z' then (ch as int + 32) as char else ch
  }

  function ToLower(s: string): (r: string)
    ensures |r| == |s| && forall i :: 0 <= i < |s| ==> r[i] == Lower(s[i])
  {
    seq(|s|, i requires 0 <= i < |s| => Lower(s[i]))
  }

  /** `s.includes(q)`: `q` occurs as a contiguous block of `s`. */
  predicate Contains(s: string, q: string)
  {
    (|q| <= |s| && s[..|q|] == q) || (s != [] && Contains(s[1..], q))
  }

  /** Every string includes the empty string and itself. */
  lemma ContainsTrivial(s: string)
    ensures Contains(s, "") && Contains(s, s)
  {
    assert s[..0] == "" && s[..|s|] == s;
  }
}
