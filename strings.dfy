/**
  String helpers with Python's meaning: substring test (`pat in s`),
  `s.split(sep)` for a one-character separator, and `sep.join(parts)`.
 */
module Strings {

  predicate IsPrefix(p: string, s: string) {
    |p| <= |s| && s[..|p|] == p
  }

  predicate IsSuffix(p: string, s: string) {
    |p| <= |s| && s[|s| - |p|..] == p
  }

  /** Python's `pat in s`: `pat` occurs somewhere in `s` as a contiguous substring. */
  predicate Contains(s: string, pat: string)
    decreases |s|
  {
    IsPrefix(pat, s) || (|s| > 0 && Contains(s[1..], pat))
  }

  /** An occurrence at a known offset makes `Contains` true. */
  lemma {:induction false} ContainsAt(s: string, pat: string, i: nat)
    requires i + |pat| <= |s| && s[i..i + |pat|] == pat
    ensures Contains(s, pat)
  {
    if i > 0 {
      assert s[1..][i - 1..i - 1 + |pat|] == pat;
      ContainsAt(s[1..], pat, i - 1);
    } else {
      assert IsPrefix(pat, s);
    }
  }

  /** A string that contains a non-empty pattern contains the pattern's first character. */
  lemma {:induction false} ContainsHeadChar(s: string, pat: string)
    requires |pat| > 0 && Contains(s, pat)
    ensures pat[0] in s
  {
    if IsPrefix(pat, s) {
      assert s[0] == pat[0];
    } else {
      ContainsHeadChar(s[1..], pat);
      var k :| 0 <= k < |s[1..]| && s[1..][k] == pat[0];
      assert s[k + 1] == pat[0];
    }
  }

  function Last<T>(s: seq<T>): T
    requires |s| > 0
  {
    s[|s| - 1]
  }

  /**
    Python's `s.split(sep)` for a one-character separator: the maximal
    separator-free pieces between separators, empty pieces included.
   */
  function Split(s: string, sep: char): (parts: seq<string>)
    ensures |parts| >= 1
    decreases |s|
  {
    if |s| == 0 then [""]
    else
      var rest := Split(s[1..], sep);
      if s[0] == sep then [""] + rest
      else [[s[0]] + rest[0]] + rest[1..]
  }

  /** No piece of a split contains the separator. */
  lemma {:induction false} SplitPiecesFree(s: string, sep: char)
    ensures forall k :: 0 <= k < |Split(s, sep)| ==> sep !in Split(s, sep)[k]
    decreases |s|
  {
    if |s| > 0 {
      SplitPiecesFree(s[1..], sep);
      var rest := Split(s[1..], sep);
      if s[0] != sep {
        assert forall k :: 1 <= k < |Split(s, sep)| ==> Split(s, sep)[k] == rest[k];
      }
    }
  }

  /** The first piece is the text before the first separator, or all of `s` if there is none. */
  lemma {:induction false} SplitFirst(s: string, sep: char)
    ensures var first := Split(s, sep)[0];
      IsPrefix(first, s) && sep !in first && (|first| < |s| ==> s[|first|] == sep)
    decreases |s|
  {
    if |s| > 0 {
      SplitFirst(s[1..], sep);
    }
  }

  /** A split has one piece exactly when the separator does not occur, and that piece is `s`. */
  lemma {:induction false} SplitSingle(s: string, sep: char)
    ensures |Split(s, sep)| == 1 <==> sep !in s
    ensures |Split(s, sep)| == 1 ==> Split(s, sep)[0] == s
    decreases |s|
  {
    if |s| > 0 {
      SplitSingle(s[1..], sep);
      if s[0] != sep && sep !in s[1..] {
        assert [s[0]] + s[1..] == s;
      }
    }
  }

  /**
    The last piece is the text after the last separator: a suffix of `s`, preceded
    by a separator when the split has more than one piece.
   */
  lemma {:induction false} SplitLast(s: string, sep: char)
    ensures var last := Last(Split(s, sep));
      IsSuffix(last, s) && (|Split(s, sep)| > 1 ==> |last| < |s| && s[|s| - |last| - 1] == sep)
    decreases |s|
  {
    if |s| > 0 {
      var t := s[1..];
      var rest := Split(t, sep);
      if s[0] == sep || |rest| > 1 {
        SplitLast(t, sep);
        var last := Last(rest);
        assert Last(Split(s, sep)) == last;
        SuffixOfTail(s, |last|);
        if |rest| == 1 {
          SplitSingle(t, sep);
        }
      } else {
        SplitSingle(t, sep);
        SplitSingle(s, sep);
      }
    }
  }

  /** A suffix of `s[1..]` is a suffix of `s`, one position further in. */
  lemma SuffixOfTail(s: string, n: nat)
    requires 0 < |s| && n <= |s| - 1
    ensures s[|s| - n..] == s[1..][|s| - 1 - n..]
    ensures n < |s| - 1 ==> s[|s| - n - 1] == s[1..][|s| - 1 - n - 1]
  {
  }

  /** Python's `sep.join(parts)`. */
  function Join(sep: string, parts: seq<string>): string
    decreases |parts|
  {
    if |parts| == 0 then ""
    else if |parts| == 1 then parts[0]
    else parts[0] + sep + Join(sep, parts[1..])
  }

  /** Joining the pieces of a split with the same separator gives back the string. */
  lemma {:induction false} JoinSplit(s: string, sep: char)
    ensures Join([sep], Split(s, sep)) == s
    decreases |s|
  {
    if |s| > 0 {
      var rest := Split(s[1..], sep);
      JoinSplit(s[1..], sep);
      var parts := Split(s, sep);
      if s[0] == sep {
        assert parts == [""] + rest && parts[1..] == rest;
        assert Join([sep], parts) == "" + [sep] + s[1..];
      } else {
        assert parts == [[s[0]] + rest[0]] + rest[1..];
        if |rest| == 1 {
          assert Join([sep], parts) == [s[0]] + s[1..];
        } else {
          assert parts[1..] == rest[1..];
          assert Join([sep], rest) == rest[0] + [sep] + Join([sep], rest[1..]);
          assert Join([sep], parts) == [s[0]] + rest[0] + [sep] + Join([sep], rest[1..]);
        }
      }
    }
  }
}
