/**
 * The JavaScript string operations the build script relies on: `startsWith`,
 * `split` with a one-character separator, `join` with any separator string,
 * and a global `replace` of one character by another.  Strings are sequences
 * of characters and every operation is a total function.
 */
module Strings {

  /** `s.startsWith(prefix)`: `s` is `prefix` followed by some rest. */
  predicate StartsWith(s: string, prefix: string)
    ensures StartsWith(s, prefix) ==> |prefix| <= |s| && s == prefix + s[|prefix|..]
  {
    |prefix| <= |s| && s[..|prefix|] == prefix
  }

  /** The converse: `prefix` followed by anything starts with `prefix`. */
  lemma StartsWithConcat(prefix: string, rest: string)
    ensures StartsWith(prefix + rest, prefix)
  {
    assert (prefix + rest)[..|prefix|] == prefix;
  }

  /** The number of occurrences of `c` in `s`. */
  function Count(s: string, c: char): (n: nat)
    ensures n == 0 <==> c !in s
    ensures n <= |s|
  {
    if s == [] then 0 else (if s[0] == c then 1 else 0) + Count(s[1..], c)
  }

  /**
   * `s.split(c)`: the maximal runs of `s` between occurrences of `c`, empty
   * runs included, so there is always one more piece than separators and
   * `"".split(c)` is `[""]`.
   */
  function Split(s: string, c: char): (parts: seq<string>)
    ensures |parts| == Count(s, c) + 1
    ensures FreeOf(parts, c)
  {
    if s == [] then [""]
    else
      var rest := Split(s[1..], c);
      if s[0] == c then [""] + rest
      else [[s[0]] + rest[0]] + rest[1..]
  }

  /** The summed length of a sequence of strings. */
  function TotalLength(parts: seq<string>): nat {
    if parts == [] then 0 else |parts[0]| + TotalLength(parts[1..])
  }

  /**
   * `parts.join(sep)`: the pieces in order with one `sep` between neighbours;
   * `[].join(sep)` is the empty string.
   */
  function Join(parts: seq<string>, sep: string): (r: string)
    ensures parts == [] ==> r == ""
  {
    if |parts| == 0 then ""
    else if |parts| == 1 then parts[0]
    else parts[0] + sep + Join(parts[1..], sep)
  }

  /** The join is as long as its pieces plus one separator between each two neighbours. */
  lemma {:induction false} JoinLength(parts: seq<string>, sep: string)
    requires |parts| >= 1
    ensures |Join(parts, sep)| == TotalLength(parts) + (|parts| - 1) * |sep|
  {
    if |parts| > 1 {
      JoinLength(parts[1..], sep);
    }
  }

  /** `s.replace(/x/g, y)` for single characters `x` and `y`. */
  function ReplaceChar(s: string, x: char, y: char): (r: string)
    ensures |r| == |s|
    ensures forall i :: 0 <= i < |s| ==> r[i] == (if s[i] == x then y else s[i])
  {
    if s == [] then [] else [if s[0] == x then y else s[0]] + ReplaceChar(s[1..], x, y)
  }

  /** `s` with every occurrence of `c` replaced by the string `t`, one character at a time. */
  function ReplaceAll(s: string, c: char, t: string): string {
    if s == [] then [] else (if s[0] == c then t else [s[0]]) + ReplaceAll(s[1..], c, t)
  }

  /** The concatenation of a sequence of sequences, in order. */
  function Flatten(ls: seq<seq<string>>): seq<string> {
    if ls == [] then [] else ls[0] + Flatten(ls[1..])
  }

  /** Each line of `lines` followed by a newline. */
  function Unlines(lines: seq<string>): string {
    if lines == [] then "" else lines[0] + "\n" + Unlines(lines[1..])
  }

  // ---------------------------------------------------------------------------
  // Split and Join
  // ---------------------------------------------------------------------------

  /** A string without the separator splits into itself alone. */
  lemma {:induction false} SplitWithoutSeparator(s: string, c: char)
    requires c !in s
    ensures Split(s, c) == [s]
  {
    if s != [] {
      SplitWithoutSeparator(s[1..], c);
      assert [s[0]] + s[1..] == s;
    }
  }

  /** Splitting `a + c + b`, where `a` has no `c`, yields `a` and then the pieces of `b`. */
  lemma {:induction false} SplitAfterFirst(a: string, b: string, c: char)
    requires c !in a
    ensures Split(a + [c] + b, c) == [a] + Split(b, c)
  {
    var s := a + [c] + b;
    if a == [] {
      assert s[0] == c && s[1..] == b;
    } else {
      assert s[0] == a[0] && s[1..] == a[1..] + [c] + b;
      SplitAfterFirst(a[1..], b, c);
      assert [a[0]] + a[1..] == a;
    }
  }

  /** Prefixing the first piece prefixes the joined string. */
  lemma JoinPrefixFirst(a: string, parts: seq<string>, sep: string)
    requires |parts| >= 1
    ensures Join([a + parts[0]] + parts[1..], sep) == a + Join(parts, sep)
  {
    var ps := [a + parts[0]] + parts[1..];
    if |parts| > 1 {
      assert ps[1..] == parts[1..];
    }
  }

  /** Joining one more piece appends the separator and that piece. */
  lemma {:induction false} JoinAppend(parts: seq<string>, x: string, sep: string)
    requires |parts| >= 1
    ensures Join(parts + [x], sep) == Join(parts, sep) + sep + x
  {
    var ps := parts + [x];
    if |parts| == 1 {
      assert ps[1..] == [x];
    } else {
      assert ps[1..] == parts[1..] + [x];
      JoinAppend(parts[1..], x, sep);
    }
  }

  /** Regrouping a concatenation of four strings. */
  lemma ConcatRegroup(a: string, b: string, c: string, d: string)
    ensures a + (b + c + d) == (a + b) + c + d
  {
    assert b + c + d == b + (c + d);
    assert (a + b) + c + d == (a + b) + (c + d);
  }

  /** A text that is a header, a separator and a join grows by one separator and piece per appended piece. */
  lemma JoinAfterHeaderAppend(header: string, parts: seq<string>, x: string, sep: string)
    requires |parts| >= 1
    ensures header + sep + Join(parts + [x], sep) == (header + sep + Join(parts, sep)) + sep + x
  {
    JoinAppend(parts, x, sep);
    ConcatRegroup(header + sep, Join(parts, sep), sep, x);
  }

  /** Joining two non-empty runs of pieces puts one separator between their joins. */
  lemma {:induction false} JoinConcat(a: seq<string>, b: seq<string>, sep: string)
    requires |a| >= 1 && |b| >= 1
    ensures Join(a + b, sep) == Join(a, sep) + sep + Join(b, sep)
  {
    if |a| == 1 {
      assert (a + b)[1..] == b;
    } else {
      assert (a + b)[1..] == a[1..] + b;
      JoinConcat(a[1..], b, sep);
    }
  }

  /** `s.split(c).join(t)` replaces every `c` of `s` by `t`. */
  lemma {:induction false} JoinSplitReplaces(s: string, c: char, t: string)
    ensures Join(Split(s, c), t) == ReplaceAll(s, c, t)
  {
    if s != [] {
      var rest := Split(s[1..], c);
      JoinSplitReplaces(s[1..], c, t);
      assert ReplaceAll(s, c, t) == (if s[0] == c then t else [s[0]]) + ReplaceAll(s[1..], c, t);
      if s[0] == c {
        var parts := [""] + rest;
        assert Split(s, c) == parts;
        assert parts[0] == "" && parts[1..] == rest;
        assert Join(parts, t) == "" + t + Join(rest, t);
      } else {
        assert Split(s, c) == [[s[0]] + rest[0]] + rest[1..];
        JoinPrefixFirst([s[0]], rest, t);
      }
    }
  }

  /** Replacing `c` by itself changes nothing. */
  lemma {:induction false} ReplaceAllIdentity(s: string, c: char)
    ensures ReplaceAll(s, c, [c]) == s
  {
    if s != [] {
      ReplaceAllIdentity(s[1..], c);
      assert (if s[0] == c then [c] else [s[0]]) == [s[0]];
      assert [s[0]] + s[1..] == s;
    }
  }

  /** Round trip one way: joining the pieces of a split with the separator gives back the string. */
  lemma JoinSplit(s: string, c: char)
    ensures Join(Split(s, c), [c]) == s
  {
    JoinSplitReplaces(s, c, [c]);
    ReplaceAllIdentity(s, c);
  }

  /** Round trip the other way: pieces free of the separator are recovered by splitting their join. */
  lemma {:induction false} SplitJoin(parts: seq<string>, c: char)
    requires |parts| >= 1
    requires FreeOf(parts, c)
    ensures Split(Join(parts, [c]), c) == parts
  {
    if |parts| == 1 {
      SplitWithoutSeparator(parts[0], c);
    } else {
      SplitJoin(parts[1..], c);
      SplitAfterFirst(parts[0], Join(parts[1..], [c]), c);
      assert [parts[0]] + parts[1..] == parts;
    }
  }

  // ---------------------------------------------------------------------------
  // Lines
  // ---------------------------------------------------------------------------

  /** No piece of `parts` holds the character `c`. */
  predicate FreeOf(parts: seq<string>, c: char) {
    forall k :: 0 <= k < |parts| ==> c !in parts[k]
  }

  /** Flattening pieces free of `c` gives pieces free of `c`. */
  lemma {:induction false} FlattenFreeOf(ls: seq<seq<string>>, c: char)
    requires forall i :: 0 <= i < |ls| ==> FreeOf(ls[i], c)
    ensures FreeOf(Flatten(ls), c)
  {
    if ls != [] {
      FlattenFreeOf(ls[1..], c);
      var f := Flatten(ls);
      assert f == ls[0] + Flatten(ls[1..]);
      forall k | 0 <= k < |f| ensures c !in f[k] {
        if k >= |ls[0]| {
          assert f[k] == Flatten(ls[1..])[k - |ls[0]|];
        }
      }
    }
  }

  /**
   * Joining the joins of non-empty groups with the same separator is joining
   * all their pieces: `groups.map(g => g.join(sep)).join(sep)`.
   */
  lemma {:induction false} JoinOfJoins(parts: seq<string>, ls: seq<seq<string>>, sep: string)
    requires |parts| == |ls| >= 1
    requires forall k :: 0 <= k < |ls| ==> |ls[k]| >= 1 && parts[k] == Join(ls[k], sep)
    ensures Join(parts, sep) == Join(Flatten(ls), sep)
    ensures |Flatten(ls)| >= 1
  {
    if |ls| == 1 {
      assert ls[1..] == [] && ls[0] + [] == ls[0];
      assert Flatten(ls) == ls[0];
    } else {
      JoinOfJoins(parts[1..], ls[1..], sep);
      JoinConcat(ls[0], Flatten(ls[1..]), sep);
    }
  }

  /** Concatenating newline-terminated blocks is terminating their concatenated lines. */
  lemma {:induction false} ConcatOfUnlines(parts: seq<string>, ls: seq<seq<string>>)
    requires |parts| == |ls|
    requires forall k :: 0 <= k < |ls| ==> parts[k] == Unlines(ls[k])
    ensures Join(parts, "") == Unlines(Flatten(ls))
  {
    if |ls| == 1 {
      assert ls[1..] == [] && ls[0] + [] == ls[0];
      assert Flatten(ls) == ls[0];
    } else if |ls| > 1 {
      ConcatOfUnlines(parts[1..], ls[1..]);
      UnlinesConcat(ls[0], Flatten(ls[1..]));
    }
  }

  /** Terminating each line by a newline is joining the lines and one empty line with newlines. */
  lemma {:induction false} UnlinesIsJoin(lines: seq<string>)
    ensures Unlines(lines) == Join(lines + [""], "\n")
  {
    if lines != [] {
      UnlinesIsJoin(lines[1..]);
      assert (lines + [""])[1..] == lines[1..] + [""];
    }
  }

  /** Two terminated lines. */
  lemma UnlinesPair(a: string, b: string)
    ensures Unlines([a, b]) == a + "\n" + b + "\n"
  {
    assert [a, b][1..] == [b] && [b][1..] == [];
    assert Unlines([b]) == b + "\n" + "";
    assert b + "\n" + "" == b + "\n";
  }

  /** Terminated line blocks concatenate. */
  lemma {:induction false} UnlinesConcat(a: seq<string>, b: seq<string>)
    ensures Unlines(a + b) == Unlines(a) + Unlines(b)
  {
    if a == [] {
      assert a + b == b;
    } else {
      assert (a + b)[0] == a[0] && (a + b)[1..] == a[1..] + b;
      UnlinesConcat(a[1..], b);
    }
  }
}
