/**
 * The handful of Python `str` operations the map's record files are read and
 * written with: `strip`, `lower`, `split`, `join`, `splitlines`,
 * `re.split(r'[\s,]+', ...)` and substring tests, each stated over `string`.
 */
module Text {

  /** `str.isspace()` for one character (the characters `\s` and `strip()` use). */
  predicate IsSpace(c: char) {
    || c == ' ' || c == '\t' || c == '\n' || c == '\r'
    || c == '\U{000B}' || c == '\U{000C}'
    || ('\U{001C}' <= c <= '\U{001F}')
    || c == '\U{0085}' || c == '\U{00A0}' || c == '\U{1680}'
    || ('\U{2000}' <= c <= '\U{200A}')
    || c == '\U{2028}' || c == '\U{2029}' || c == '\U{202F}' || c == '\U{205F}' || c == '\U{3000}'
  }

  /** The characters `str.splitlines()` ends a line at (`\r\n` counts as one break). */
  predicate IsLineBreak(c: char) {
    || c == '\n' || c == '\r' || c == '\U{000B}' || c == '\U{000C}'
    || ('\U{001C}' <= c <= '\U{001E}')
    || c == '\U{0085}' || c == '\U{2028}' || c == '\U{2029}'
  }

  predicate NoLineBreak(s: string) {
    forall i :: 0 <= i < |s| ==> !IsLineBreak(s[i])
  }

  // ---------------------------------------------------------------------------
  // strip / lower
  // ---------------------------------------------------------------------------

  function TrimLeft(s: string): (r: string)
    ensures |r| <= |s|
    ensures r == [] || !IsSpace(r[0])
  {
    if s != [] && IsSpace(s[0]) then TrimLeft(s[1..]) else s
  }

  function TrimRight(s: string): (r: string)
    ensures |r| <= |s|
    ensures r == [] || !IsSpace(r[|r| - 1])
  {
    if s != [] && IsSpace(s[|s| - 1]) then TrimRight(s[..|s| - 1]) else s
  }

  /** `lstrip()` keeps a suffix. */
  lemma {:induction false} TrimLeftSlice(s: string)
    ensures TrimLeft(s) == s[|s| - |TrimLeft(s)|..]
  {
    if s != [] && IsSpace(s[0]) {
      TrimLeftSlice(s[1..]);
    }
  }

  /** `rstrip()` keeps a prefix. */
  lemma {:induction false} TrimRightSlice(s: string)
    ensures TrimRight(s) == s[..|TrimRight(s)|]
  {
    if s != [] && IsSpace(s[|s| - 1]) {
      TrimRightSlice(s[..|s| - 1]);
    }
  }

  /** `str.strip()`. */
  function Strip(s: string): string {
    TrimRight(TrimLeft(s))
  }

  /** A string `strip()` leaves as it is. */
  predicate Stripped(s: string) {
    s == [] || (!IsSpace(s[0]) && !IsSpace(s[|s| - 1]))
  }

  lemma StripResult(s: string)
    ensures Stripped(Strip(s))
  {
    var l := TrimLeft(s);
    var r := TrimRight(l);
    TrimRightSlice(l);
    if r != [] {
      assert r[0] == l[0];
    }
  }

  lemma StripOfStripped(s: string)
    requires Stripped(s)
    ensures Strip(s) == s
  {
  }

  /** `strip()` only removes characters from the ends: what it keeps is a slice. */
  lemma StripIsSlice(s: string)
    ensures exists i, j :: 0 <= i <= j <= |s| && Strip(s) == s[i..j]
  {
    var l := TrimLeft(s);
    var i := |s| - |l|;
    var r := TrimRight(l);
    TrimLeftSlice(s);
    TrimRightSlice(l);
    assert r == s[i..i + |r|];
  }

  lemma StripIdempotent(s: string)
    ensures Strip(Strip(s)) == Strip(s)
  {
    StripResult(s);
    StripOfStripped(Strip(s));
  }

  /** A string that starts with a non-blank character does not strip to nothing. */
  lemma StripNonBlank(s: string)
    requires s != [] && !IsSpace(s[0])
    ensures Strip(s) != []
  {
    assert TrimLeft(s) == s;
    TrimRightKeeps(s);
  }

  lemma {:induction false} TrimRightKeeps(s: string)
    requires s != [] && !IsSpace(s[0])
    ensures TrimRight(s) != []
    decreases |s|
  {
    if IsSpace(s[|s| - 1]) {
      TrimRightKeeps(s[..|s| - 1]);
    }
  }

  /** `str.lower()` on one character; only ASCII letters are mapped. */
  function LowerChar(c: char): char {
    if 'A' <= c <= 'Z' then (c as int + 32) as char else c
  }

  /** `str.lower()`. */
  function Lower(s: string): (r: string)
    ensures |r| == |s|
  {
    if s == [] then [] else [LowerChar(s[0])] + Lower(s[1..])
  }

  lemma LowerAt(s: string, i: nat)
    requires i < |s|
    ensures Lower(s)[i] == LowerChar(s[i])
  {
    if i > 0 {
      LowerAt(s[1..], i - 1);
    }
  }

  lemma LowerAppend(a: string, b: string)
    ensures Lower(a + b) == Lower(a) + Lower(b)
  {
    if a != [] {
      assert (a + b)[1..] == a[1..] + b;
      assert Lower(a + b) == [LowerChar(a[0])] + Lower(a[1..] + b);
      assert Lower(a) == [LowerChar(a[0])] + Lower(a[1..]);
      LowerAppend(a[1..], b);
    } else {
      assert a + b == b;
    }
  }

  predicate IsLower(s: string) {
    forall i :: 0 <= i < |s| ==> !('A' <= s[i] <= 'Z')
  }

  lemma {:induction false} LowerIsLower(s: string)
    ensures IsLower(Lower(s))
  {
    forall i | 0 <= i < |s| ensures !('A' <= Lower(s)[i] <= 'Z') {
      LowerAt(s, i);
    }
  }

  lemma {:induction false} LowerOfLower(s: string)
    requires IsLower(s)
    ensures Lower(s) == s
  {
    if s != [] {
      LowerOfLower(s[1..]);
    }
  }

  /** Lowercasing keeps a stripped string stripped. */
  lemma LowerStripped(s: string)
    requires Stripped(s)
    ensures Stripped(Lower(s))
  {
    if s != [] {
      LowerAt(s, 0);
      LowerAt(s, |s| - 1);
    }
  }

  lemma {:induction false} LowerKeepsChar(s: string, c: char)
    requires !('A' <= c <= 'Z') && !('a' <= c <= 'z')
    ensures c in Lower(s) <==> c in s
  {
    forall i | 0 <= i < |s| ensures Lower(s)[i] == c <==> s[i] == c {
      LowerAt(s, i);
    }
  }

  // ---------------------------------------------------------------------------
  // prefixes and substrings
  // ---------------------------------------------------------------------------

  /** `s.startswith(t)`. */
  predicate StartsWith(s: string, t: string) {
    |t| <= |s| && s[..|t|] == t
  }

  /** `t in s` for strings. */
  predicate Contains(s: string, t: string)
    decreases |s|
  {
    StartsWith(s, t) || (s != [] && Contains(s[1..], t))
  }

  lemma ContainsPrefix(s: string, t: string, u: string)
    requires StartsWith(s, t)
    ensures Contains(s + u, t)
  {
    assert (s + u)[..|t|] == s[..|t|];
  }

  lemma {:induction false} ContainsAppend(s: string, t: string, u: string)
    requires Contains(s, t)
    ensures Contains(u + s, t)
    decreases |u|
  {
    if u == [] {
      assert u + s == s;
    } else {
      assert (u + s)[1..] == u[1..] + s;
      ContainsAppend(s, t, u[1..]);
    }
  }

  /** Index of the first `c` in `s`, or `|s|` when there is none (`str.find` made total). */
  function IndexOf(s: string, c: char): (k: nat)
    ensures k <= |s|
    ensures k < |s| ==> s[k] == c
  {
    if s == [] then 0 else if s[0] == c then 0 else 1 + IndexOf(s[1..], c)
  }

  /** A `c` with none before it is the one `IndexOf` finds. */
  lemma {:induction false} IndexOfAt(s: string, c: char, k: nat)
    requires k < |s| && s[k] == c && c !in s[..k]
    ensures IndexOf(s, c) == k
  {
    if k > 0 {
      assert s[0] in s[..k];
      assert s[1..][..k - 1] == s[..k][1..];
      assert s[1..][k - 1] == s[k];
      IndexOfAt(s[1..], c, k - 1);
    }
  }

  /** `IndexOf` finds the first occurrence, and the end exactly when there is none. */
  lemma {:induction false} IndexOfFirst(s: string, c: char)
    ensures c !in s[..IndexOf(s, c)]
    ensures IndexOf(s, c) == |s| <==> c !in s
  {
    if s != [] && s[0] != c {
      IndexOfFirst(s[1..], c);
      assert s[..IndexOf(s, c)] == [s[0]] + s[1..][..IndexOf(s[1..], c)];
      assert s == [s[0]] + s[1..];
    }
  }

  // ---------------------------------------------------------------------------
  // split / join
  // ---------------------------------------------------------------------------

  /** `s.split(sep)` for a one-character separator. */
  function Split(s: string, sep: char): (r: seq<string>)
    ensures |r| >= 1
    ensures forall k :: 0 <= k < |r| ==> sep !in r[k]
    decreases |s|
  {
    if s == [] then [[]]
    else if s[0] == sep then [[]] + Split(s[1..], sep)
    else
      var rest := Split(s[1..], sep);
      [[s[0]] + rest[0]] + rest[1..]
  }

  /** `sep.join(parts)`. */
  function Join(parts: seq<string>, sep: string): string
    decreases |parts|
  {
    if parts == [] then []
    else if |parts| == 1 then parts[0]
    else parts[0] + sep + Join(parts[1..], sep)
  }

  /** Joining lines without breaks with a separator without breaks gives a line without breaks. */
  lemma NoLineBreakConcat(a: string, b: string)
    requires NoLineBreak(a) && NoLineBreak(b)
    ensures NoLineBreak(a + b)
  {
    forall j | 0 <= j < |a + b| ensures !IsLineBreak((a + b)[j]) {
      if j >= |a| {
        assert (a + b)[j] == b[j - |a|];
      }
    }
  }

  lemma {:induction false} NoLineBreakJoin(parts: seq<string>, sep: string)
    requires NoLineBreak(sep)
    requires forall k :: 0 <= k < |parts| ==> NoLineBreak(parts[k])
    ensures NoLineBreak(Join(parts, sep))
    decreases |parts|
  {
    if |parts| > 1 {
      NoLineBreakJoin(parts[1..], sep);
      var rest := Join(parts[1..], sep);
      var s := parts[0] + sep + rest;
      forall i | 0 <= i < |s| ensures !IsLineBreak(s[i]) {
        if i < |parts[0]| {
          assert s[i] == parts[0][i];
        } else if i < |parts[0]| + |sep| {
          assert s[i] == sep[i - |parts[0]|];
        } else {
          assert s[i] == rest[i - |parts[0]| - |sep|];
        }
      }
    }
  }

  /** Splitting and joining back on the same separator gives the string back. */
  lemma {:induction false} JoinSplit(s: string, sep: char)
    ensures Join(Split(s, sep), [sep]) == s
    decreases |s|
  {
    if s == [] {
    } else if s[0] == sep {
      JoinSplit(s[1..], sep);
    } else {
      JoinSplit(s[1..], sep);
      var rest := Split(s[1..], sep);
      if |rest| == 1 {
      } else {
        assert Join(rest, [sep]) == rest[0] + [sep] + Join(rest[1..], [sep]);
      }
    }
  }

  lemma {:induction false} SplitNoSep(s: string, sep: char)
    requires sep !in s
    ensures Split(s, sep) == [s]
    decreases |s|
  {
    if s != [] {
      SplitNoSep(s[1..], sep);
      assert [s[0]] + s[1..] == s;
    }
  }

  lemma {:induction false} SplitPrefix(a: string, sep: char, b: string)
    requires sep !in a
    ensures Split(a + [sep] + b, sep) == [a] + Split(b, sep)
    decreases |a|
  {
    if a == [] {
      assert a + [sep] + b == [sep] + b;
    } else {
      var s := a + [sep] + b;
      assert s[0] == a[0] && s[1..] == a[1..] + [sep] + b;
      SplitPrefix(a[1..], sep, b);
      var rest := Split(s[1..], sep);
      assert rest == [a[1..]] + Split(b, sep);
      assert Split(s, sep) == [[a[0]] + rest[0]] + rest[1..];
      assert [a[0]] + a[1..] == a;
    }
  }

  /** Joining parts free of the separator and splitting again gives the parts back. */
  lemma {:induction false} SplitJoin(parts: seq<string>, sep: char)
    requires |parts| >= 1
    requires forall k :: 0 <= k < |parts| ==> sep !in parts[k]
    ensures Split(Join(parts, [sep]), sep) == parts
    decreases |parts|
  {
    if |parts| == 1 {
      SplitNoSep(parts[0], sep);
    } else {
      SplitJoin(parts[1..], sep);
      SplitPrefix(parts[0], sep, Join(parts[1..], [sep]));
      assert [parts[0]] + parts[1..] == parts;
    }
  }

  /** The pieces of a line without breaks have no breaks either. */
  lemma {:induction false} SplitNoLineBreak(s: string, sep: char)
    requires NoLineBreak(s)
    ensures forall k :: 0 <= k < |Split(s, sep)| ==> NoLineBreak(Split(s, sep)[k])
    decreases |s|
  {
    if s != [] {
      SplitNoLineBreak(s[1..], sep);
      if s[0] != sep {
        var rest := Split(s[1..], sep);
        var first := [s[0]] + rest[0];
        assert forall i :: 0 < i < |first| ==> first[i] == rest[0][i - 1];
      }
    }
  }

  lemma {:induction false} JoinAppend(parts: seq<string>, last: string, sep: string)
    requires parts != []
    ensures Join(parts + [last], sep) == Join(parts, sep) + sep + last
    decreases |parts|
  {
    if |parts| == 1 {
      assert parts + [last] == [parts[0], last];
    } else {
      assert (parts + [last])[1..] == parts[1..] + [last];
      JoinAppend(parts[1..], last, sep);
    }
  }

  /** Parts joined with a separator end as the last part ends. */
  lemma {:induction false} JoinLast(parts: seq<string>, sep: string)
    requires parts != [] && parts[|parts| - 1] != []
    ensures Join(parts, sep) != []
    ensures Join(parts, sep)[|Join(parts, sep)| - 1] == parts[|parts| - 1][|parts[|parts| - 1]| - 1]
    decreases |parts|
  {
    if |parts| > 1 {
      JoinLast(parts[1..], sep);
      var rest := Join(parts[1..], sep);
      assert Join(parts, sep) == parts[0] + sep + rest;
    }
  }

  /** Parts joined with a separator begin as the first part begins. */
  lemma JoinFirst(parts: seq<string>, sep: string)
    requires parts != [] && parts[0] != []
    ensures Join(parts, sep) != [] && Join(parts, sep)[0] == parts[0][0]
  {
  }

  /** Parts joined with a separator, the first not starting and the last not ending in a blank, are stripped. */
  lemma JoinStripped(parts: seq<string>, sep: string)
    requires parts != [] && parts[0] != [] && parts[|parts| - 1] != []
    requires !IsSpace(parts[0][0]) && !IsSpace(parts[|parts| - 1][|parts[|parts| - 1]| - 1])
    ensures Strip(Join(parts, sep)) == Join(parts, sep)
  {
    JoinFirst(parts, sep);
    JoinLast(parts, sep);
    StripOfStripped(Join(parts, sep));
  }

  lemma {:induction false} JoinNoChar(parts: seq<string>, sep: string, c: char)
    requires c !in sep
    requires forall k :: 0 <= k < |parts| ==> c !in parts[k]
    ensures c !in Join(parts, sep)
    decreases |parts|
  {
    if |parts| > 1 {
      JoinNoChar(parts[1..], sep, c);
    }
  }

  // ---------------------------------------------------------------------------
  // splitlines
  // ---------------------------------------------------------------------------

  /** Index of the first line break in `s`, or `|s|`. */
  function LineEnd(s: string): (k: nat)
    ensures k <= |s|
    ensures k < |s| ==> IsLineBreak(s[k])
    ensures NoLineBreak(s[..k])
  {
    if s == [] then 0 else if IsLineBreak(s[0]) then 0 else 1 + LineEnd(s[1..])
  }

  /**
   * `str.splitlines()`: the lines of `s` without their breaks; a break at the very
   * end does not start another (empty) line, and `\r\n` is one break.
   */
  function SplitLines(s: string): (r: seq<string>)
    ensures forall k :: 0 <= k < |r| ==> NoLineBreak(r[k])
    decreases |s|
  {
    if s == [] then []
    else
      var k := LineEnd(s);
      if k == |s| then [s]
      else
        var skip := if s[k] == '\r' && k + 1 < |s| && s[k + 1] == '\n' then 2 else 1;
        [s[..k]] + SplitLines(s[k + skip..])
  }

  lemma {:induction false} LineEndOfLine(l: string, rest: string)
    requires NoLineBreak(l)
    ensures LineEnd(l + rest) >= |l|
    ensures LineEnd(l + rest) == |l| + LineEnd(rest)
    decreases |l|
  {
    if l != [] {
      assert (l + rest)[0] == l[0] && !IsLineBreak(l[0]);
      assert (l + rest)[1..] == l[1..] + rest;
      LineEndOfLine(l[1..], rest);
    } else {
      assert l + rest == rest;
    }
  }

  /** The text of lines each ended by `\n`: what `write_obraz` and friends produce. */
  function Terminated(lines: seq<string>): string {
    if lines == [] then [] else lines[0] + "\n" + Terminated(lines[1..])
  }

  /** A line without breaks followed by `\n`: `splitlines()` yields it and goes on after the `\n`. */
  lemma SplitLinesCons(l: string, rest: string)
    requires NoLineBreak(l)
    ensures SplitLines(l + "\n" + rest) == [l] + SplitLines(rest)
  {
    var s := l + "\n" + rest;
    assert s == l + ("\n" + rest);
    LineEndOfLine(l, "\n" + rest);
    assert LineEnd("\n" + rest) == 0;
    assert s[|l|] == '\n';
    assert s[..|l|] == l;
    assert s[|l| + 1..] == rest;
  }

  /** Reading back `\n`-terminated lines gives exactly those lines. */
  lemma {:induction false} SplitLinesTerminated(lines: seq<string>)
    requires forall k :: 0 <= k < |lines| ==> NoLineBreak(lines[k])
    ensures SplitLines(Terminated(lines)) == lines
    decreases |lines|
  {
    if lines != [] {
      SplitLinesCons(lines[0], Terminated(lines[1..]));
      SplitLinesTerminated(lines[1..]);
    }
  }

  /** What reading back `'\n'.join(lines)` loses: one empty last line. */
  function DropEmptyLast(lines: seq<string>): seq<string> {
    if lines != [] && lines[|lines| - 1] == [] then lines[..|lines| - 1] else lines
  }

  /** `'\n'.join(lines)` read back with `splitlines()`. */
  lemma {:induction false} SplitLinesJoin(lines: seq<string>)
    requires forall k :: 0 <= k < |lines| ==> NoLineBreak(lines[k])
    ensures SplitLines(Join(lines, "\n")) == DropEmptyLast(lines)
    decreases |lines|
  {
    if |lines| == 1 {
      SplitLinesOne(lines[0]);
      assert lines == [lines[0]];
    } else if |lines| > 1 {
      var tail := lines[1..];
      assert forall k :: 0 <= k < |tail| ==> tail[k] == lines[k + 1];
      SplitLinesJoin(tail);
      SplitLinesJoinStep(lines[0], tail);
      assert [lines[0]] + tail == lines;
    }
  }

  lemma SplitLinesOne(l: string)
    requires NoLineBreak(l)
    ensures SplitLines(l) == DropEmptyLast([l])
  {
    if l != [] {
      LineEndOfLine(l, []);
      assert l + [] == l;
    }
  }

  /** One more line in front of lines that read back. */
  lemma SplitLinesJoinStep(l: string, tail: seq<string>)
    requires NoLineBreak(l) && tail != []
    requires SplitLines(Join(tail, "\n")) == DropEmptyLast(tail)
    ensures SplitLines(Join([l] + tail, "\n")) == DropEmptyLast([l] + tail)
  {
    var lines := [l] + tail;
    assert lines[1..] == tail;
    assert Join(lines, "\n") == l + "\n" + Join(tail, "\n");
    SplitLinesCons(l, Join(tail, "\n"));
    assert lines[|lines| - 1] == tail[|tail| - 1];
    if tail[|tail| - 1] == [] {
      assert lines[..|lines| - 1] == [l] + tail[..|tail| - 1];
    }
  }

  // ---------------------------------------------------------------------------
  // re.split(r'[\s,]+', s) and str.split()
  // ---------------------------------------------------------------------------

  /** A character of the class `[\s,]`. */
  predicate IsSep(c: char) {
    IsSpace(c) || c == ','
  }

  predicate NoSep(s: string) {
    forall i :: 0 <= i < |s| ==> !IsSep(s[i])
  }

  function DropSeps(s: string): (r: string)
    ensures |r| <= |s|
    ensures r == [] || !IsSep(r[0])
  {
    if s != [] && IsSep(s[0]) then DropSeps(s[1..]) else s
  }

  /**
   * `re.split(r'[\s,]+', s)`: the pieces between maximal runs of blanks and
   * commas; a run at the start or the end yields an empty first or last piece.
   */
  function SplitSeps(s: string): (r: seq<string>)
    ensures |r| >= 1
    ensures forall k :: 0 <= k < |r| ==> NoSep(r[k])
    decreases |s|
  {
    if s == [] then [[]]
    else if IsSep(s[0]) then [[]] + SplitSeps(DropSeps(s))
    else
      var rest := SplitSeps(s[1..]);
      [[s[0]] + rest[0]] + rest[1..]
  }

  /** `s.replace(",", " ").split()`: the non-empty pieces of `SplitSeps`. */
  function Words(s: string): (r: seq<string>)
    ensures forall k :: 0 <= k < |r| ==> r[k] != [] && NoSep(r[k])
  {
    NonEmpty(SplitSeps(s))
  }

  function NonEmpty(ps: seq<string>): (r: seq<string>)
    requires forall k :: 0 <= k < |ps| ==> NoSep(ps[k])
    ensures forall k :: 0 <= k < |r| ==> r[k] != [] && NoSep(r[k])
  {
    if ps == [] then []
    else if ps[0] == [] then NonEmpty(ps[1..])
    else [ps[0]] + NonEmpty(ps[1..])
  }

  lemma FirstPieceEmpty(rest: string)
    requires rest == [] || IsSep(rest[0])
    ensures SplitSeps(rest)[0] == []
  {
  }

  /** A word followed by a separator run (or nothing) is the first piece. */
  lemma {:induction false} SplitSepsWord(a: string, rest: string)
    requires a != [] && NoSep(a)
    requires rest == [] || IsSep(rest[0])
    ensures SplitSeps(a + rest) == [a] + SplitSeps(rest)[1..]
    decreases |a|
  {
    var s := a + rest;
    assert s[0] == a[0] && !IsSep(a[0]);
    if |a| == 1 {
      assert s[1..] == rest;
      FirstPieceEmpty(rest);
      assert [a[0]] + [] == a;
    } else {
      assert s[1..] == a[1..] + rest;
      SplitSepsWord(a[1..], rest);
      assert [a[0]] + a[1..] == a;
    }
  }

  /** The two pieces of `"A B"` when `A` and `B` hold no blank or comma. */
  lemma SplitSepsPair(a: string, b: string)
    requires a != [] && NoSep(a)
    requires b != [] && NoSep(b)
    ensures SplitSeps(a + " " + b) == [a, b]
  {
    SplitSepsWord(b, []);
    assert b + [] == b;
    assert SplitSeps(b) == [b];
    assert DropSeps(" " + b) == b by {
      assert (" " + b)[1..] == b;
    }
    assert SplitSeps(" " + b) == [[], b];
    assert a + " " + b == a + (" " + b);
    SplitSepsWord(a, " " + b);
  }

  lemma WordsPair(a: string, b: string)
    requires a != [] && NoSep(a)
    requires b != [] && NoSep(b)
    ensures Words(a + " " + b) == [a, b]
  {
    SplitSepsPair(a, b);
    assert NonEmpty([b]) == [b];
    assert NonEmpty([a, b]) == [a] + NonEmpty([b]);
  }
}
