/** Small shared vocabulary: an optional value, and the handful of Python
    string operations the monitor relies on (`str.isdigit`, `int(...)` on a
    digit string, the first `\d+` match, `str.upper` on one character,
    `str.split` / `str.join` on one separator, and `in` on strings). */
module Wrappers {

  /** Python's `None` versus a present value. */
  datatype Option<+T> = None | Some(value: T) {
    function GetOr(default: T): T {
      match this
      case Some(v) => v
      case None => default
    }
  }
}

module Strings {
  import opened Wrappers

  predicate IsDigitChar(c: char) {
    '0' <= c <= '9'
  }

  /** `s.isdigit()`: non-empty and made of digits only (ASCII digits). */
  predicate IsDigits(s: string) {
    |s| > 0 && forall i :: 0 <= i < |s| ==> IsDigitChar(s[i])
  }

  /** The value of one decimal digit. */
  function DigitValue(c: char): (d: nat)
    requires IsDigitChar(c)
    ensures d < 10
  {
    c as int - '0' as int
  }

  /** `int(s)` for a string of digits. */
  function DecimalValue(s: string): nat
    requires forall i :: 0 <= i < |s| ==> IsDigitChar(s[i])
    decreases |s|
  {
    if s == [] then 0
    else 10 * DecimalValue(s[..|s| - 1]) + DigitValue(s[|s| - 1])
  }

  /** The longest prefix of `s` made of digits. */
  function LeadingDigits(s: string): (p: string)
    ensures |p| <= |s| && p == s[..|p|]
    ensures forall i :: 0 <= i < |p| ==> IsDigitChar(p[i])
    ensures |p| == |s| || !IsDigitChar(s[|p|])
  {
    if s != [] && IsDigitChar(s[0]) then [s[0]] + LeadingDigits(s[1..]) else []
  }

  /** `run` is the first maximal run of digits of `s`, and it starts at `i`. */
  predicate FirstRunAt(s: string, i: int, run: string) {
    && 0 <= i <= |s| - |run|
    && s[i..i + |run|] == run
    && (forall j :: 0 <= j < i ==> !IsDigitChar(s[j]))
    && (i + |run| == |s| || !IsDigitChar(s[i + |run|]))
  }

  /** `re.search(r'\d+', s)`: the first maximal run of digits, if any. */
  function FirstDigitRun(s: string): (r: Option<string>)
    ensures r.None? <==> forall i :: 0 <= i < |s| ==> !IsDigitChar(s[i])
    ensures r.Some? ==> IsDigits(r.value) && exists i :: FirstRunAt(s, i, r.value)
  {
    if s == [] then None
    else if IsDigitChar(s[0]) then
      var p := LeadingDigits(s);
      assert FirstRunAt(s, 0, p);
      Some(p)
    else
      var r := FirstDigitRun(s[1..]);
      if r.Some? then
        assert exists i :: FirstRunAt(s, i, r.value) by {
          var i :| FirstRunAt(s[1..], i, r.value);
          assert s[i + 1..i + 1 + |r.value|] == s[1..][i..i + |r.value|];
          forall j | 0 <= j < i + 1 ensures !IsDigitChar(s[j]) {
            if j > 0 { assert s[j] == s[1..][j - 1]; }
          }
          assert FirstRunAt(s, i + 1, r.value);
        }
        r
      else
        assert forall i :: 0 <= i < |s| ==> !IsDigitChar(s[i]) by {
          forall i | 0 <= i < |s| ensures !IsDigitChar(s[i]) {
            if i > 0 { assert s[i] == s[1..][i - 1]; }
          }
        }
        r
  }

  /** `c.upper()` for ASCII letters; every other character is left as it is. */
  function UpperChar(c: char): char {
    if 'a' <= c <= 'z' then (c as int - 'a' as int + 'A' as int) as char else c
  }

  /** `needle in hay` on strings: `needle` occurs as a contiguous piece. */
  predicate Contains(hay: string, needle: string) {
    exists i :: 0 <= i <= |hay| - |needle| && OccursAt(hay, needle, i)
  }

  predicate OccursAt(hay: string, needle: string, i: int) {
    0 <= i <= |hay| - |needle| && hay[i..i + |needle|] == needle
  }

  /** The position of the first `sep` in `s`, or `|s|` when there is none. */
  function SeparatorIndex(s: string, sep: char): (i: nat)
    ensures i <= |s|
    ensures i < |s| ==> s[i] == sep
    ensures forall j :: 0 <= j < i ==> s[j] != sep
  {
    if s == [] || s[0] == sep then 0 else 1 + SeparatorIndex(s[1..], sep)
  }

  /** `s.split(sep)`: the pieces between separators; always at least one. */
  function Split(s: string, sep: char): (parts: seq<string>)
    ensures |parts| >= 1
    decreases |s|
  {
    var i := SeparatorIndex(s, sep);
    if i == |s| then [s] else [s[..i]] + Split(s[i + 1..], sep)
  }

  /** `sep.join(parts)`. */
  function Join(parts: seq<string>, sep: char): string {
    if parts == [] then ""
    else if |parts| == 1 then parts[0]
    else parts[0] + [sep] + Join(parts[1..], sep)
  }

  /** A piece without separators, followed by a separator, is the first piece. */
  lemma SplitFirstPiece(x: string, y: string, sep: char)
    requires sep !in x
    ensures Split(x + [sep] + y, sep) == [x] + Split(y, sep)
  {
    var w := x + [sep] + y;
    var i := SeparatorIndex(w, sep);
    assert w[|x|] == sep;
    assert forall j :: 0 <= j < |x| ==> w[j] == x[j];
    assert i == |x|;
    assert w[..i] == x;
    assert w[i + 1..] == y;
  }

  /** Joining pieces that contain no separator and splitting again gives the pieces back. */
  lemma {:induction false} SplitJoin(parts: seq<string>, sep: char)
    requires |parts| >= 1
    requires forall i :: 0 <= i < |parts| ==> sep !in parts[i]
    ensures Split(Join(parts, sep), sep) == parts
    decreases |parts|
  {
    if |parts| == 1 {
      assert SeparatorIndex(parts[0], sep) == |parts[0]|;
    } else {
      SplitFirstPiece(parts[0], Join(parts[1..], sep), sep);
      SplitJoin(parts[1..], sep);
      assert [parts[0]] + parts[1..] == parts;
    }
  }

  lemma HeadTail<T>(a: seq<T>, b: seq<T>)
    requires a != []
    ensures [a[0]] + (a[1..] + b) == a + b
  {
    assert a == [a[0]] + a[1..];
  }

  /** Splitting pieces joined and followed by a separator and more text gives
      the pieces, then the pieces of the rest. */
  lemma {:induction false} SplitJoinThen(parts: seq<string>, rest: string, sep: char)
    requires |parts| >= 1
    requires forall i :: 0 <= i < |parts| ==> sep !in parts[i]
    ensures Split(Join(parts, sep) + [sep] + rest, sep) == parts + Split(rest, sep)
    decreases |parts|
  {
    if |parts| == 1 {
      SplitFirstPiece(parts[0], rest, sep);
    } else {
      var tail := Join(parts[1..], sep) + [sep] + rest;
      assert Join(parts, sep) + [sep] + rest == parts[0] + [sep] + tail;
      SplitFirstPiece(parts[0], tail, sep);
      SplitJoinThen(parts[1..], rest, sep);
      HeadTail(parts, Split(rest, sep));
    }
  }
}
