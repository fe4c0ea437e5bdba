/** The string operations the solvers use, stated as functions.

    Each function models one Python built-in or `str` method, narrowed to what
    the puzzle inputs contain: digits are the ASCII digits, lines end at '\n',
    and `int()` accepts a non-empty run of ASCII digits and nothing else.
 */
module Text {
  import opened Prelude

  // ---------------------------------------------------------------------
  // Digits and decimal numbers

  /** `str.isdigit` on one character, narrowed to ASCII. */
  predicate IsDigit(c: char)
  {
    '0' <= c <= '9'
  }

  function DigitValue(c: char): (d: nat)
    requires IsDigit(c)
    ensures d < 10
  {
    c as int - '0' as int
  }

  function DigitChar(d: nat): (c: char)
    requires d < 10
    ensures IsDigit(c) && DigitValue(c) == d
  {
    ('0' as int + d) as char
  }

  predicate IsDigits(s: string)
  {
    forall i :: 0 <= i < |s| ==> IsDigit(s[i])
  }

  /** The value of a string of decimal digits, most significant digit first. */
  function DecimalValue(s: string): nat
    requires IsDigits(s)
  {
    if s == [] then 0 else 10 * DecimalValue(s[..|s| - 1]) + DigitValue(s[|s| - 1])
  }

  /** Python's `int(s)`: defined for non-empty ASCII digit strings, and
      `None` where Python raises a ValueError. */
  function ParseInt(s: string): Option<nat>
  {
    if s != [] && IsDigits(s) then Some(DecimalValue(s)) else None
  }

  /** Python's `str(n)` for a non-negative integer. */
  function Str(n: nat): (s: string)
    ensures s != [] && IsDigits(s)
  {
    if n < 10 then [DigitChar(n)] else Str(n / 10) + [DigitChar(n % 10)]
  }

  lemma {:induction false} StrValue(n: nat)
    ensures DecimalValue(Str(n)) == n
  {
    if n >= 10 {
      StrValue(n / 10);
      var s := Str(n);
      assert s[..|s| - 1] == Str(n / 10);
    }
  }

  /** A number's digits hold no other character. */
  lemma StrLacks(n: nat, c: char)
    requires !IsDigit(c)
    ensures c !in Str(n)
  {
  }

  /** `int(str(n)) == n`. */
  lemma ParseStr(n: nat)
    ensures ParseInt(Str(n)) == Some(n)
  {
    StrValue(n);
  }

  /** The digits of `s` in order: `"".join(filter(str.isdigit, s))`. */
  function FilterDigits(s: string): (d: string)
    ensures IsDigits(d) && |d| <= |s|
  {
    if s == [] then [] else (if IsDigit(s[0]) then [s[0]] else []) + FilterDigits(s[1..])
  }

  lemma {:induction false} FilterDigitsOfDigits(s: string)
    requires IsDigits(s)
    ensures FilterDigits(s) == s
  {
    if s != [] {
      FilterDigitsOfDigits(s[1..]);
    }
  }

  lemma {:induction false} FilterDigitsEmpty(s: string)
    ensures FilterDigits(s) == [] <==> forall i :: 0 <= i < |s| ==> !IsDigit(s[i])
  {
    if s != [] {
      FilterDigitsEmpty(s[1..]);
      if !IsDigit(s[0]) {
        forall i | 1 <= i < |s| ensures s[i] == s[1..][i - 1] { }
      }
    }
  }

  // ---------------------------------------------------------------------
  // Splitting and joining

  /** The index of the first `c` in `s`, or `|s|` when there is none. */
  function IndexOf(s: string, c: char): (i: nat)
    ensures i <= |s|
    ensures i < |s| ==> s[i] == c
  {
    if s == [] || s[0] == c then 0 else 1 + IndexOf(s[1..], c)
  }

  /** `IndexOf` finds the first occurrence. */
  lemma {:induction false} IndexOfFirst(s: string, c: char)
    ensures c !in s[..IndexOf(s, c)]
  {
    if s != [] && s[0] != c {
      IndexOfFirst(s[1..], c);
      assert s[..IndexOf(s, c)] == [s[0]] + s[1..][..IndexOf(s[1..], c)];
    }
  }

  /** `IndexOf` finds nothing exactly when `c` does not occur. */
  lemma {:induction false} IndexOfAbsent(s: string, c: char)
    ensures IndexOf(s, c) == |s| <==> c !in s
  {
    if s != [] && s[0] != c {
      IndexOfAbsent(s[1..], c);
      assert s == [s[0]] + s[1..];
    }
  }

  /** Python's `s.split(sep)` for a one-character separator: the pieces
      between separators, always at least one. */
  function Split(s: string, sep: char): (parts: seq<string>)
    ensures |parts| >= 1
    decreases |s|
  {
    var i := IndexOf(s, sep);
    if i == |s| then [s] else [s[..i]] + Split(s[i + 1..], sep)
  }

  /** No piece of a split contains the separator. */
  lemma {:induction false} SplitPieces(s: string, sep: char)
    ensures forall k :: 0 <= k < |Split(s, sep)| ==> sep !in Split(s, sep)[k]
    decreases |s|
  {
    var i := IndexOf(s, sep);
    if i < |s| {
      SplitPieces(s[i + 1..], sep);
      IndexOfFirst(s, sep);
    } else {
      IndexOfAbsent(s, sep);
    }
  }

  /** Python's `sep.join(parts)`. */
  function Join(parts: seq<string>, sep: char): string
  {
    if parts == [] then ""
    else if |parts| == 1 then parts[0]
    else parts[0] + [sep] + Join(parts[1..], sep)
  }

  /** Joining what was split gives back the original string. */
  lemma {:induction false} JoinSplit(s: string, sep: char)
    ensures Join(Split(s, sep), sep) == s
    decreases |s|
  {
    var i := IndexOf(s, sep);
    if i < |s| {
      var rest := Split(s[i + 1..], sep);
      JoinSplit(s[i + 1..], sep);
      assert Split(s, sep) == [s[..i]] + rest;
      JoinCons(s[..i], rest, sep);
      assert s == s[..i] + [sep] + s[i + 1..];
    }
  }

  lemma JoinCons(head: string, rest: seq<string>, sep: char)
    requires rest != []
    ensures Join([head] + rest, sep) == head + [sep] + Join(rest, sep)
  {
    assert ([head] + rest)[1..] == rest;
  }

  /** The first `c` of `a + t` is the first of `a`, or else the first of `t`. */
  lemma {:induction false} IndexOfConcat(a: string, t: string, c: char)
    ensures IndexOf(a + t, c) == if IndexOf(a, c) < |a| then IndexOf(a, c) else |a| + IndexOf(t, c)
  {
    if a != [] && a[0] != c {
      IndexOfConcat(a[1..], t, c);
      assert (a + t)[1..] == a[1..] + t;
    } else if a == [] {
      assert a + t == t;
    }
  }

  /** A separator splits the pieces on its two sides independently. */
  lemma {:induction false} SplitConcat(a: string, b: string, sep: char)
    ensures Split(a + [sep] + b, sep) == Split(a, sep) + Split(b, sep)
    decreases |a|
  {
    var i := IndexOf(a, sep);
    var t := [sep] + b;
    assert a + [sep] + b == a + t;
    if i == |a| {
      SplitNoSep(a, t, sep);
    } else {
      SplitAtFirst(a, t, sep);
      assert a[i + 1..] + t == a[i + 1..] + [sep] + b;
      SplitConcat(a[i + 1..], b, sep);
      var x, y, z := [a[..i]], Split(a[i + 1..], sep), Split(b, sep);
      assert x + (y + z) == (x + y) + z;
    }
  }

  lemma SplitNoSep(a: string, t: string, sep: char)
    requires IndexOf(a, sep) == |a| && t != [] && t[0] == sep
    ensures Split(a + t, sep) == [a] + Split(t[1..], sep)
  {
    IndexOfConcat(a, t, sep);
    assert (a + t)[..|a|] == a && (a + t)[|a| + 1..] == t[1..];
  }

  lemma SplitAtFirst(a: string, t: string, sep: char)
    requires IndexOf(a, sep) < |a|
    ensures Split(a + t, sep) == [a[..IndexOf(a, sep)]] + Split(a[IndexOf(a, sep) + 1..] + t, sep)
  {
    var i := IndexOf(a, sep);
    IndexOfConcat(a, t, sep);
    assert (a + t)[..i] == a[..i];
    assert (a + t)[i + 1..] == a[i + 1..] + t;
  }

  /** Splitting what was joined gives back the pieces, provided no piece
      contains the separator. */
  lemma {:induction false} SplitJoin(parts: seq<string>, sep: char)
    requires |parts| >= 1
    requires forall k :: 0 <= k < |parts| ==> sep !in parts[k]
    ensures Split(Join(parts, sep), sep) == parts
  {
    IndexOfAbsent(parts[0], sep);
    if |parts| > 1 {
      SplitJoin(parts[1..], sep);
      SplitConcat(parts[0], Join(parts[1..], sep), sep);
      assert [parts[0]] + parts[1..] == parts;
    }
  }

  /** A string without the separator is a single piece. */
  lemma SplitAbsent(s: string, sep: char)
    requires sep !in s
    ensures Split(s, sep) == [s]
  {
    IndexOfAbsent(s, sep);
  }

  /** Joining pieces without `c` by a separator other than `c` gives a string
      without `c`. */
  lemma {:induction false} JoinAbsent(parts: seq<string>, sep: char, c: char)
    requires c != sep
    requires forall k :: 0 <= k < |parts| ==> c !in parts[k]
    ensures c !in Join(parts, sep)
  {
    if |parts| > 1 {
      JoinAbsent(parts[1..], sep, c);
    }
  }

  /** Python's `s.splitlines()`, with '\n' as the only line boundary: the
      lines of `s`, where a final '\n' does not start another line. */
  function SplitLines(s: string): (lines: seq<string>)
    ensures lines == [] <==> s == []
    ensures forall k :: 0 <= k < |lines| ==> '\n' !in lines[k]
  {
    var parts := Split(s, '\n');
    assert s != [] && |parts| == 1 ==> parts[0] != [] by {
      if s != [] && |parts| == 1 {
        JoinSplit(s, '\n');
      }
    }
    SplitPieces(s, '\n');
    if parts[|parts| - 1] == "" then parts[..|parts| - 1] else parts
  }

  /** The lines of text that ends with its last line. */
  lemma SplitLinesJoin(lines: seq<string>)
    requires forall k :: 0 <= k < |lines| ==> '\n' !in lines[k]
    requires lines != [] ==> lines[|lines| - 1] != []
    ensures SplitLines(Join(lines, '\n')) == lines
  {
    if lines != [] {
      SplitJoin(lines, '\n');
      var parts := Split(Join(lines, '\n'), '\n');
      assert parts == lines;
      assert parts[|parts| - 1] != "";
    }
  }

  /** The lines of text that ends with a line break. */
  lemma SplitLinesJoinBreak(lines: seq<string>)
    requires forall k :: 0 <= k < |lines| ==> '\n' !in lines[k]
    ensures SplitLines(Join(lines + [""], '\n')) == lines
  {
    SplitJoin(lines + [""], '\n');
    assert (lines + [""])[..|lines|] == lines;
  }

  /** Lines written out, each ended by a line break. */
  function Unlines(lines: seq<string>): string
  {
    if lines == [] then "" else lines[0] + "\n" + Unlines(lines[1..])
  }

  lemma {:induction false} UnlinesJoin(lines: seq<string>)
    ensures Unlines(lines) == Join(lines + [""], '\n')
  {
    if lines != [] {
      UnlinesJoin(lines[1..]);
      assert (lines + [""])[1..] == lines[1..] + [""];
    }
  }

  /** Reading back the lines written out by `Unlines`. */
  lemma SplitLinesUnlines(lines: seq<string>)
    requires forall k :: 0 <= k < |lines| ==> '\n' !in lines[k]
    ensures SplitLines(Unlines(lines)) == lines
  {
    UnlinesJoin(lines);
    SplitLinesJoinBreak(lines);
  }

  // ---------------------------------------------------------------------
  // Searching and replacing

  /** Python's `s.startswith(t)`. */
  predicate StartsWith(s: string, t: string)
  {
    |t| <= |s| && s[..|t|] == t
  }

  /** Python's `t in s` for strings. */
  predicate Contains(s: string, t: string)
    decreases |s|
  {
    StartsWith(s, t) || (s != [] && Contains(s[1..], t))
  }

  /** Python's `s.replace(pat, rep)`: every occurrence of `pat`, scanning
      from the left and never overlapping, becomes `rep`. */
  function Replace(s: string, pat: string, rep: string): string
    requires pat != []
    decreases |s|
  {
    if StartsWith(s, pat) then rep + Replace(s[|pat|..], pat, rep)
    else if s == [] then []
    else [s[0]] + Replace(s[1..], pat, rep)
  }

  /** Replacing a pattern that does not occur changes nothing. */
  lemma {:induction false} ReplaceAbsent(s: string, pat: string, rep: string)
    requires pat != []
    requires !Contains(s, pat)
    ensures Replace(s, pat, rep) == s
    decreases |s|
  {
    if s != [] {
      ReplaceAbsent(s[1..], pat, rep);
    }
  }

  /** An occurrence of `t` is an occurrence of every piece of `t`. */
  lemma {:induction false} ContainsSuffix(s: string, u: string, v: string)
    requires Contains(s, u + v)
    ensures Contains(s, v)
    decreases |s|
  {
    if StartsWith(s, u + v) {
      ContainsAt(s, v, |u|);
    } else {
      ContainsSuffix(s[1..], u, v);
    }
  }

  /** `t` occurring at index `i` of `s` means `s` contains `t`. */
  lemma {:induction false} ContainsAt(s: string, t: string, i: nat)
    requires i + |t| <= |s| && s[i..i + |t|] == t
    ensures Contains(s, t)
    decreases i
  {
    if i > 0 {
      assert s[1..][i - 1..i - 1 + |t|] == t;
      ContainsAt(s[1..], t, i - 1);
    } else {
      assert s[..|t|] == t;
    }
  }

  /** An occurrence of a non-empty `t` starts with a character of `s`. */
  lemma {:induction false} ContainsFirst(s: string, t: string)
    requires t != []
    ensures Contains(s, t) ==> t[0] in s
    decreases |s|
  {
    if s != [] && !StartsWith(s, t) {
      ContainsFirst(s[1..], t);
    }
  }

  /** A prefix without the first character of `t` holds no occurrence of `t`. */
  lemma {:induction false} ContainsPrefix(a: string, b: string, t: string)
    requires t != [] && t[0] !in a
    ensures Contains(a + b, t) <==> Contains(b, t)
    decreases |a|
  {
    if a != [] {
      assert (a + b)[0] == a[0] && (a + b)[1..] == a[1..] + b;
      ContainsPrefix(a[1..], b, t);
    } else {
      assert a + b == b;
    }
  }

  /** Replacing a whole string. */
  lemma ReplaceWhole(pat: string, rep: string)
    requires pat != []
    ensures Replace(pat, pat, rep) == rep
  {
    assert pat[|pat|..] == [];
    assert rep + [] == rep;
  }

  /** A prefix without the first character of the pattern is left alone. */
  lemma {:induction false} ReplacePrefix(a: string, b: string, pat: string, rep: string)
    requires pat != [] && pat[0] !in a
    ensures Replace(a + b, pat, rep) == a + Replace(b, pat, rep)
    decreases |a|
  {
    if a != [] {
      assert (a + b)[0] == a[0] && (a + b)[1..] == a[1..] + b;
      ReplacePrefix(a[1..], b, pat, rep);
    } else {
      assert a + b == b;
    }
  }

  /** A character outside the pattern splits the replacing in two. */
  lemma {:induction false} ReplaceSeparated(a: string, c: char, b: string, pat: string, rep: string)
    requires pat != [] && c !in pat
    ensures Replace(a + [c] + b, pat, rep) == Replace(a, pat, rep) + [c] + Replace(b, pat, rep)
    decreases |a|
  {
    var s := a + [c] + b;
    if a == [] {
      assert s == [c] + b && s[1..] == b;
      assert s[0] == c && pat[0] != c;
    } else if StartsWith(s, pat) {
      PatternBeforeSeparator(a, c, b, pat);
      ReplaceSeparated(a[|pat|..], c, b, pat, rep);
    } else {
      assert |pat| <= |a| ==> s[..|pat|] == a[..|pat|];
      assert s[1..] == a[1..] + [c] + b;
      ReplaceSeparated(a[1..], c, b, pat, rep);
    }
  }

  /** An occurrence at the start of `a + [c] + b` lies within `a` when `c` is
      not in the pattern. */
  lemma PatternBeforeSeparator(a: string, c: char, b: string, pat: string)
    requires c !in pat && StartsWith(a + [c] + b, pat)
    ensures StartsWith(a, pat)
    ensures (a + [c] + b)[|pat|..] == a[|pat|..] + [c] + b
  {
    var s := a + [c] + b;
    assert s[|a|] == c;
    assert forall k :: 0 <= k < |pat| ==> pat[k] != c;
    assert |pat| <= |a|;
    assert a[..|pat|] == s[..|pat|];
  }

  /** Replacing a single character works piece by piece. */
  lemma {:induction false} ReplaceCharConcat(a: string, b: string, c: char, rep: string)
    ensures Replace(a + b, [c], rep) == Replace(a, [c], rep) + Replace(b, [c], rep)
    decreases |a|
  {
    if a != [] {
      assert (a + b)[0] == a[0] && (a + b)[1..] == a[1..] + b;
      ReplaceCharConcat(a[1..], b, c, rep);
      if StartsWith(a, [c]) {
        assert a[1..] == a[|[c]|..];
      }
    } else {
      assert a + b == b;
    }
  }
}
