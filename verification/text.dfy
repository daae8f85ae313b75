/**
 The JavaScript string operations the pipeline relies on, over `string = seq<char>`:
 `trim`, `split` and `join` on a one-character separator, `startsWith` and `endsWith`.
 */
module Text {

  /** The characters ECMAScript's `String.prototype.trim` strips: the WhiteSpace
      code points (tab, vertical tab, form feed, space, no-break space, byte-order mark
      and the other space separators, among them the ideographic space U+3000) and the
      LineTerminator code points (LF, CR, U+2028, U+2029). */
  predicate IsJsWhitespace(c: char) {
    || c == '\t' || c == '\U{000B}' || c == '\U{000C}' || c == ' '
    || c == '\U{00A0}' || c == '\U{FEFF}' || c == '\U{1680}'
    || ('\U{2000}' <= c <= '\U{200A}')
    || c == '\U{202F}' || c == '\U{205F}' || c == '\U{3000}'
    || c == '\n' || c == '\r' || c == '\U{2028}' || c == '\U{2029}'
  }

  predicate AllWhitespace(s: string) {
    forall i :: 0 <= i < |s| ==> IsJsWhitespace(s[i])
  }

  /** Neither end of `s` is whitespace. */
  predicate IsTrimmed(s: string) {
    |s| == 0 || (!IsJsWhitespace(s[0]) && !IsJsWhitespace(s[|s| - 1]))
  }

  /** The length of the whitespace run that starts `s`. */
  function LeadingWhitespace(s: string): (n: nat)
    ensures n <= |s|
    ensures AllWhitespace(s[..n])
    ensures n < |s| ==> !IsJsWhitespace(s[n])
  {
    if |s| == 0 || !IsJsWhitespace(s[0]) then 0
    else
      var n := 1 + LeadingWhitespace(s[1..]);
      assert forall i :: 1 <= i < n ==> s[..n][i] == s[1..][..n - 1][i - 1];
      n
  }

  /** The length of the whitespace run that ends `s`. */
  function TrailingWhitespace(s: string): (n: nat)
    ensures n <= |s|
    ensures AllWhitespace(s[|s| - n..])
    ensures n < |s| ==> !IsJsWhitespace(s[|s| - 1 - n])
  {
    if |s| == 0 || !IsJsWhitespace(s[|s| - 1]) then 0
    else
      var m := TrailingWhitespace(s[..|s| - 1]);
      SuffixAfter(s, |s| - 2 - m);
      1 + m
  }

  /** The part of `s` after index `k` is the part of `s` without its last
      element after `k`, followed by that last element. */
  lemma SuffixAfter<T>(s: seq<T>, k: int)
    requires |s| > 0 && -1 <= k < |s| - 1
    ensures s[k + 1..] == s[..|s| - 1][k + 1..] + [s[|s| - 1]]
  {
  }

  /** `String.prototype.trim`: `s` without its leading and trailing whitespace. */
  function Trim(s: string): (r: string)
    ensures IsTrimmed(r)
    ensures |r| <= |s|
  {
    var rest := s[LeadingWhitespace(s)..];
    rest[..|rest| - TrailingWhitespace(rest)]
  }

  /** What `trim` removes is whitespace, and it removes nothing else: `s` is the
      trimmed text with a whitespace run on each side. */
  lemma TrimSplits(s: string) returns (pre: string, post: string)
    ensures s == pre + Trim(s) + post
    ensures AllWhitespace(pre) && AllWhitespace(post)
  {
    var a := LeadingWhitespace(s);
    var rest := s[a..];
    var b := TrailingWhitespace(rest);
    pre, post := s[..a], rest[|rest| - b..];
    Reassemble(s, a, |rest| - b);
  }

  /** Cutting a text at `a` and its remainder at `k` loses nothing. */
  lemma Reassemble(s: string, a: nat, k: nat)
    requires a <= |s| && k <= |s| - a
    ensures s == s[..a] + s[a..][..k] + s[a..][k..]
  {
    assert s[a..] == s[a..][..k] + s[a..][k..];
    assert s == s[..a] + s[a..];
  }

  /** The leading run is the only prefix that is all whitespace and is not
      followed by whitespace. */
  lemma {:induction false} LeadingWhitespaceUnique(s: string, n: nat)
    requires n <= |s| && AllWhitespace(s[..n])
    requires n < |s| ==> !IsJsWhitespace(s[n])
    ensures LeadingWhitespace(s) == n
    decreases n
  {
    if n > 0 {
      assert s[..n][0] == s[0];
      var rest, run := s[1..][..n - 1], s[..n];
      forall i | 0 <= i < |rest|
        ensures IsJsWhitespace(rest[i])
      {
        assert rest[i] == run[i + 1];
      }
      assert n - 1 < |s[1..]| ==> s[1..][n - 1] == s[n];
      LeadingWhitespaceUnique(s[1..], n - 1);
    }
  }

  /** The trailing run is the only suffix that is all whitespace and is not
      preceded by whitespace. */
  lemma {:induction false} TrailingWhitespaceUnique(s: string, n: nat)
    requires n <= |s| && AllWhitespace(s[|s| - n..])
    requires n < |s| ==> !IsJsWhitespace(s[|s| - 1 - n])
    ensures TrailingWhitespace(s) == n
    decreases n
  {
    if n > 0 {
      var init := s[..|s| - 1];
      assert s[|s| - n..][n - 1] == s[|s| - 1];
      var tail, run := init[|init| - (n - 1)..], s[|s| - n..];
      forall i | 0 <= i < |tail|
        ensures IsJsWhitespace(tail[i])
      {
        assert tail[i] == run[i];
      }
      assert n - 1 < |init| ==> init[|init| - 1 - (n - 1)] == s[|s| - 1 - n];
      TrailingWhitespaceUnique(init, n - 1);
    }
  }

  /** `trim` is characterised by its contract: whenever `s` is a trimmed text `r`
      wrapped in whitespace, `Trim(s)` is that `r`. */
  lemma TrimUnique(pre: string, r: string, post: string)
    requires AllWhitespace(pre) && AllWhitespace(post) && IsTrimmed(r)
    ensures Trim(pre + r + post) == r
  {
    var s := pre + r + post;
    if |r| == 0 {
      assert AllWhitespace(s[..|s|]) by {
        forall i | 0 <= i < |s| ensures IsJsWhitespace(s[i]) {
          if i < |pre| { assert s[i] == pre[i]; } else { assert s[i] == post[i - |pre|]; }
        }
        assert s[..|s|] == s;
      }
      LeadingWhitespaceUnique(s, |s|);
    } else {
      assert s[..|pre|] == pre && s[|pre|] == r[0];
      LeadingWhitespaceUnique(s, |pre|);
      var rest := s[|pre|..];
      assert rest == r + post;
      assert rest[|rest| - |post|..] == post && rest[|rest| - 1 - |post|] == r[|r| - 1];
      TrailingWhitespaceUnique(rest, |post|);
      assert rest[..|rest| - |post|] == r;
    }
  }

  /** Trimming twice is trimming once. */
  lemma TrimIdempotent(s: string)
    ensures Trim(Trim(s)) == Trim(s)
  {
    var r := Trim(s);
    assert r == [] + r + [];
    TrimUnique([], r, []);
  }

  /** A text that has no whitespace at either end is returned unchanged. */
  lemma TrimOfTrimmed(s: string)
    requires IsTrimmed(s)
    ensures Trim(s) == s
  {
    assert s == [] + s + [];
    TrimUnique([], s, []);
  }

  /** `s.startsWith(prefix)`. */
  predicate StartsWith(s: string, prefix: string) {
    prefix <= s
  }

  /** `s.endsWith(suffix)`. */
  predicate EndsWith(s: string, suffix: string) {
    |suffix| <= |s| && s[|s| - |suffix|..] == suffix
  }

  /** A text starts with `prefix` exactly when it is `prefix` followed by something. */
  lemma StartsWithConcat(s: string, prefix: string)
    ensures StartsWith(s, prefix) <==> exists rest :: s == prefix + rest
  {
    if StartsWith(s, prefix) {
      assert s == prefix + s[|prefix|..];
    }
  }

  /** A text ends with `suffix` exactly when it is something followed by `suffix`. */
  lemma EndsWithConcat(s: string, suffix: string)
    ensures EndsWith(s, suffix) <==> exists init :: s == init + suffix
  {
    if EndsWith(s, suffix) {
      assert s == s[..|s| - |suffix|] + suffix;
    }
  }

  /** `s.split(sep)` for a one-character separator: the maximal separator-free
      pieces between separators, at least one piece (`"".split(sep)` is `[""]`). */
  function Split(s: string, sep: char): (parts: seq<string>)
    ensures |parts| >= 1
    ensures forall i :: 0 <= i < |parts| ==> sep !in parts[i]
    decreases |s|
  {
    if |s| == 0 then [""]
    else
      var tail := Split(s[1..], sep);
      if s[0] == sep then [""] + tail
      else [[s[0]] + tail[0]] + tail[1..]
  }

  /** `parts.join(sep)` for a one-character separator. */
  function Join(parts: seq<string>, sep: char): string
  {
    if |parts| == 0 then ""
    else if |parts| == 1 then parts[0]
    else parts[0] + [sep] + Join(parts[1..], sep)
  }

  /** Appending a piece appends a separator and that piece, whatever the pieces hold. */
  lemma {:induction false} JoinAppend(parts: seq<string>, sep: char, p: string)
    requires |parts| >= 1
    ensures Join(parts + [p], sep) == Join(parts, sep) + [sep] + p
    decreases |parts|
  {
    if |parts| == 1 {
      assert (parts + [p])[1..] == [p];
    } else {
      assert (parts + [p])[0] == parts[0];
      assert (parts + [p])[1..] == parts[1..] + [p];
      JoinAppend(parts[1..], sep, p);
    }
  }

  /** Joining the pieces of a split restores the text. */
  lemma {:induction false} JoinSplit(s: string, sep: char)
    ensures Join(Split(s, sep), sep) == s
    decreases |s|
  {
    if |s| > 0 {
      var tail := Split(s[1..], sep);
      JoinSplit(s[1..], sep);
      if s[0] == sep {
        assert Join([""] + tail, sep) == "" + [sep] + Join(tail, sep) by {
          assert ([""] + tail)[1..] == tail;
        }
        assert s == [s[0]] + s[1..];
      } else {
        var parts := [[s[0]] + tail[0]] + tail[1..];
        if |tail| == 1 {
          assert Join(parts, sep) == [s[0]] + tail[0];
          assert s == [s[0]] + s[1..];
        } else {
          assert parts[1..] == tail[1..];
          assert Join(parts, sep) == [s[0]] + tail[0] + [sep] + Join(tail[1..], sep);
          assert Join(tail, sep) == tail[0] + [sep] + Join(tail[1..], sep);
          assert s == [s[0]] + s[1..];
        }
      }
    }
  }

  /** A separator-free text splits into itself alone. */
  lemma {:induction false} SplitNoSeparator(a: string, sep: char)
    requires sep !in a
    ensures Split(a, sep) == [a]
    decreases |a|
  {
    if |a| > 0 {
      SplitNoSeparator(a[1..], sep);
      assert [a[0]] + a[1..] == a;
    }
  }

  /** Splitting at a leading separator-free piece peels that piece off. */
  lemma {:induction false} SplitAfterPiece(a: string, sep: char, b: string)
    requires sep !in a
    ensures Split(a + [sep] + b, sep) == [a] + Split(b, sep)
    decreases |a|
  {
    var s := a + [sep] + b;
    if |a| == 0 {
      assert s[0] == sep && s[1..] == b;
    } else {
      assert s[0] == a[0] && s[1..] == a[1..] + [sep] + b;
      SplitAfterPiece(a[1..], sep, b);
      assert [a[0]] + a[1..] == a;
    }
  }

  /** Splitting a join of separator-free pieces gives the pieces back, as long
      as there is at least one piece (`[].join(sep)` and `[""].join(sep)` are both `""`). */
  lemma {:induction false} SplitJoin(parts: seq<string>, sep: char)
    requires |parts| >= 1
    requires forall i :: 0 <= i < |parts| ==> sep !in parts[i]
    ensures Split(Join(parts, sep), sep) == parts
    decreases |parts|
  {
    if |parts| == 1 {
      SplitNoSeparator(parts[0], sep);
    } else {
      SplitJoin(parts[1..], sep);
      SplitAfterPiece(parts[0], sep, Join(parts[1..], sep));
      assert [parts[0]] + parts[1..] == parts;
    }
  }

  /** The split of `s + [sep]` is the split of `s` with one more, empty piece: a
      trailing separator always yields a final blank piece. */
  lemma {:induction false} SplitTrailingSeparator(s: string, sep: char)
    ensures Split(s + [sep], sep) == Split(s, sep) + [""]
    decreases |s|
  {
    if |s| == 0 {
      assert Split([sep], sep) == [""] + Split([], sep);
    } else {
      var t := s + [sep];
      assert t[0] == s[0] && t[1..] == s[1..] + [sep];
      SplitTrailingSeparator(s[1..], sep);
      var tail := Split(s[1..], sep);
      if s[0] != sep {
        assert (tail + [""])[0] == tail[0];
        assert (tail + [""])[1..] == tail[1..] + [""];
      }
    }
  }

  /** Splitting at a separator between two texts splits each of them. */
  lemma {:induction false} SplitConcat(a: string, sep: char, b: string)
    ensures Split(a + [sep] + b, sep) == Split(a, sep) + Split(b, sep)
    decreases |a|
  {
    var s := a + [sep] + b;
    if |a| == 0 {
      assert s[0] == sep && s[1..] == b;
    } else {
      assert s[0] == a[0] && s[1..] == a[1..] + [sep] + b;
      SplitConcat(a[1..], sep, b);
      var sa, sb := Split(a[1..], sep), Split(b, sep);
      if a[0] != sep {
        assert (sa + sb)[0] == sa[0];
        assert (sa + sb)[1..] == sa[1..] + sb;
      }
    }
  }

  /** The pieces of every text in turn. */
  function SplitEach(texts: seq<string>, sep: char): (pieces: seq<string>)
    ensures |pieces| >= |texts|
    ensures forall i :: 0 <= i < |pieces| ==> sep !in pieces[i]
  {
    if |texts| == 0 then []
    else Split(texts[0], sep) + SplitEach(texts[1..], sep)
  }

  /** Splitting a join of any pieces, separators inside them included, gives
      the split of each piece in turn. */
  lemma {:induction false} SplitJoinPieces(parts: seq<string>, sep: char)
    requires |parts| >= 1
    ensures Split(Join(parts, sep), sep) == SplitEach(parts, sep)
    decreases |parts|
  {
    if |parts| == 1 {
      assert SplitEach(parts, sep) == Split(parts[0], sep) + SplitEach([], sep);
    } else {
      SplitConcat(parts[0], sep, Join(parts[1..], sep));
      SplitJoinPieces(parts[1..], sep);
    }
  }
}
