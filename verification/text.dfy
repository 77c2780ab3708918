/**
  Strings as the browser code sees them: trimming, lower-casing, substring
  search and comma splitting, written out as the ECMAScript library defines
  them (on Unicode scalar values rather than UTF-16 code units).
*/
module Text {
  import opened Wrappers

  /** ECMAScript WhiteSpace and LineTerminator code points: what
      `String.prototype.trim` strips and what the regular-expression class `\s` matches. */
  predicate IsSpace(c: char) {
    || c == '\t' || c == '\n' || c == '\U{B}' || c == '\U{C}' || c == '\r' || c == ' '
    || c == '\U{A0}' || c == '\U{1680}' || ('\U{2000}' <= c <= '\U{200A}')
    || c == '\U{2028}' || c == '\U{2029}' || c == '\U{202F}' || c == '\U{205F}'
    || c == '\U{3000}' || c == '\U{FEFF}'
  }

  predicate AllSpace(s: string) {
    forall i :: 0 <= i < |s| ==> IsSpace(s[i])
  }

  /** `s.trimStart()`: the suffix of `s` after its leading white space. */
  function TrimStart(s: string): (r: string)
    ensures |r| <= |s| && r == s[|s| - |r|..]
    ensures |r| > 0 ==> !IsSpace(r[0])
    ensures forall i :: 0 <= i < |s| - |r| ==> IsSpace(s[i])
  {
    if |s| > 0 && IsSpace(s[0]) then TrimStart(s[1..]) else s
  }

  /** `s.trimEnd()`: the prefix of `s` before its trailing white space. */
  function TrimEnd(s: string): (r: string)
    ensures |r| <= |s| && r == s[..|r|]
    ensures |r| > 0 ==> !IsSpace(r[|r| - 1])
    ensures forall i :: |r| <= i < |s| ==> IsSpace(s[i])
  {
    if |s| > 0 && IsSpace(s[|s| - 1]) then TrimEnd(s[..|s| - 1]) else s
  }

  /** `s.trim()`: `s` without leading and trailing white space. */
  function Trim(s: string): (r: string)
    ensures |r| <= |s|
    ensures |r| > 0 ==> !IsSpace(r[0]) && !IsSpace(r[|r| - 1])
    ensures |r| == 0 <==> AllSpace(s)
  {
    var t := TrimStart(s);
    var r := TrimEnd(t);
    assert forall i :: |s| - |t| <= i < |s| ==> s[i] == t[i - (|s| - |t|)];
    r
  }

  /** JavaScript truthiness of `s.trim()`: false exactly for blank input. */
  predicate Blank(s: string) {
    Trim(s) == []
  }

  /** `value || fallback` for an optional text: missing and empty both give the fallback. */
  function TextOr(value: Option<string>, fallback: string): (r: string)
    ensures value.Some? && value.value != [] ==> r == value.value
    ensures value.None? || value.value == [] ==> r == fallback
    ensures fallback != [] ==> r != []
  {
    if value.None? || value.value == [] then fallback else value.value
  }

  /** A string that `trim` leaves unchanged. */
  predicate IsTrimmed(s: string) {
    |s| == 0 || (!IsSpace(s[0]) && !IsSpace(s[|s| - 1]))
  }

  lemma {:induction false} TrimOfTrimmed(s: string)
    requires IsTrimmed(s)
    ensures Trim(s) == s
  {
    assert TrimStart(s) == s;
    assert TrimEnd(s) == s;
  }

  /** Trimming twice is trimming once. */
  lemma TrimIdempotent(s: string)
    ensures Trim(Trim(s)) == Trim(s)
  {
    TrimOfTrimmed(Trim(s));
  }

  /** `c.toLowerCase()` for the Basic Latin and Latin-1 letters; other characters are kept. */
  function LowerChar(c: char): char {
    if 'A' <= c <= 'Z' || ('\U{C0}' <= c <= '\U{DE}' && c != '\U{D7}') then
      (c as int + 32) as char
    else c
  }

  /** `s.toLowerCase()`, character by character. */
  function Lower(s: string): (r: string)
    ensures |r| == |s|
    ensures forall i :: 0 <= i < |s| ==> r[i] == LowerChar(s[i])
  {
    seq(|s|, i requires 0 <= i < |s| => LowerChar(s[i]))
  }

  lemma LowerIdempotent(s: string)
    ensures Lower(Lower(s)) == Lower(s)
  {
  }

  /** White space is unchanged by lower-casing, so lower-casing and trimming commute. */
  lemma {:induction false} LowerTrimmed(s: string)
    requires IsTrimmed(s)
    ensures IsTrimmed(Lower(s))
  {
    if |s| > 0 {
      assert Lower(s)[0] == LowerChar(s[0]);
      assert Lower(s)[|s| - 1] == LowerChar(s[|s| - 1]);
    }
  }

  /** `n` occurs in `h` starting at index `i`. */
  predicate OccursAt(h: string, n: string, i: nat) {
    i + |n| <= |h| && h[i..i + |n|] == n
  }

  /** `h.includes(n)`. */
  predicate Includes(h: string, n: string) {
    exists i: nat | i <= |h| :: OccursAt(h, n, i)
  }

  /** `h.toLowerCase().includes(n.toLowerCase())`: the search boxes' case-insensitive match. */
  predicate IncludesIgnoringCase(h: string, n: string) {
    Includes(Lower(h), Lower(n))
  }

  /** Every string includes the empty string, so an empty search term matches everything. */
  lemma IncludesEmpty(h: string)
    ensures Includes(h, [])
    ensures IncludesIgnoringCase(h, [])
  {
    assert OccursAt(h, [], 0);
    assert OccursAt(Lower(h), Lower([]), 0);
  }

  lemma IncludesSelf(h: string)
    ensures Includes(h, h)
  {
    assert OccursAt(h, h, 0);
  }

  /** Index of the first `c` in `s`. */
  function IndexOf(s: string, c: char): (i: nat)
    requires c in s
    ensures i < |s| && s[i] == c
    ensures forall j :: 0 <= j < i ==> s[j] != c
  {
    if s[0] == c then 0 else 1 + IndexOf(s[1..], c)
  }

  /** `s.split(sep)` for a one-character separator: the pieces between separators, empty pieces kept. */
  function Split(s: string, sep: char): (r: seq<string>)
    ensures |r| >= 1
    ensures forall k :: 0 <= k < |r| ==> sep !in r[k]
    decreases |s|
  {
    if sep !in s then [s]
    else
      var i := IndexOf(s, sep);
      [s[..i]] + Split(s[i + 1..], sep)
  }

  /** `pieces.join(sep)`. */
  function Join(pieces: seq<string>, sep: char): string
    requires |pieces| >= 1
  {
    if |pieces| == 1 then pieces[0] else pieces[0] + [sep] + Join(pieces[1..], sep)
  }

  /** Splitting undoes joining when no piece holds the separator. */
  lemma {:induction false} SplitJoin(pieces: seq<string>, sep: char)
    requires |pieces| >= 1
    requires forall k :: 0 <= k < |pieces| ==> sep !in pieces[k]
    ensures Split(Join(pieces, sep), sep) == pieces
  {
    var s := Join(pieces, sep);
    if |pieces| > 1 {
      var head := pieces[0];
      var rest := Join(pieces[1..], sep);
      assert s == head + [sep] + rest;
      assert s[|head|] == sep;
      var i := IndexOf(s, sep);
      assert forall j :: 0 <= j < |head| ==> s[j] == head[j];
      assert i == |head|;
      assert s[..i] == head;
      assert s[i + 1..] == rest;
      SplitJoin(pieces[1..], sep);
      calc {
        Split(s, sep);
        [head] + Split(rest, sep);
        [head] + pieces[1..];
        pieces;
      }
    }
  }

  /** Joining undoes splitting. */
  lemma {:induction false} JoinSplit(s: string, sep: char)
    ensures Join(Split(s, sep), sep) == s
    decreases |s|
  {
    if sep in s {
      var i := IndexOf(s, sep);
      var rest := Split(s[i + 1..], sep);
      var pieces := [s[..i]] + rest;
      assert Split(s, sep) == pieces;
      assert pieces[1..] == rest;
      JoinSplit(s[i + 1..], sep);
      calc {
        Join(pieces, sep);
        s[..i] + [sep] + Join(rest, sep);
        s[..i] + [sep] + s[i + 1..];
        s;
      }
    }
  }

  /** Every character of a piece of `Split(s, sep)` is a character of `s`. */
  lemma {:induction false} SplitPiecesFromSource(s: string, sep: char, k: nat, j: nat)
    requires k < |Split(s, sep)| && j < |Split(s, sep)[k]|
    ensures Split(s, sep)[k][j] in s
    decreases |s|
  {
    if sep in s {
      var i := IndexOf(s, sep);
      if k > 0 {
        SplitPiecesFromSource(s[i + 1..], sep, k - 1, j);
      }
    }
  }

  predicate IsDigit(c: char) {
    '0' <= c <= '9'
  }

  /** `/^\d+$/`: one or more ASCII digits. */
  predicate AllDigits(s: string) {
    |s| > 0 && forall i :: 0 <= i < |s| ==> IsDigit(s[i])
  }

  predicate IsAsciiLetter(c: char) {
    'a' <= c <= 'z' || 'A' <= c <= 'Z'
  }

  predicate StartsWith(s: string, prefix: string) {
    |prefix| <= |s| && s[..|prefix|] == prefix
  }

  /** `s.replace(",", ".")`: only the FIRST occurrence of `from` is replaced. */
  function ReplaceFirst(s: string, from: char, to: char): (r: string)
    ensures |r| == |s|
    ensures from !in s ==> r == s
    ensures from in s ==>
      var i := IndexOf(s, from);
      r[..i] == s[..i] && r[i] == to && r[i + 1..] == s[i + 1..]
  {
    if from in s then
      var i := IndexOf(s, from);
      s[..i] + [to] + s[i + 1..]
    else s
  }
}
