/** String helpers that stand for Python built-ins the core relies on:
    `str(n)` for an integer, `needle in haystack` for strings, and
    `s.split(sep)`, with `sep.join(parts)` as its inverse. */
module Text {

  /** The decimal digit character for 0 <= d < 10. */
  function DigitChar(d: nat): (c: char)
    requires d < 10
    ensures '0' <= c <= '9' && c as int - '0' as int == d
  {
    ('0' as int + d) as char
  }

  predicate IsDigits(s: string)
  {
    forall i :: 0 <= i < |s| ==> '0' <= s[i] <= '9'
  }

  /** The number a string of decimal digits denotes (Horner's rule). */
  function DigitsValue(s: string): nat
    requires IsDigits(s)
  {
    if s == [] then 0 else DigitsValue(s[..|s| - 1]) * 10 + (s[|s| - 1] as int - '0' as int)
  }

  /** `str(n)` for a non-negative Python int: its decimal digits, most
      significant first, with no leading zero. */
  function NatDecimal(n: nat): (r: string)
    decreases n
    ensures |r| > 0 && IsDigits(r)
    ensures DigitsValue(r) == n
    ensures n > 0 ==> r[0] != '0'
    ensures n == 0 ==> r == "0"
  {
    if n < 10 then [DigitChar(n)]
    else
      var high := NatDecimal(n / 10);
      var r := high + [DigitChar(n % 10)];
      assert r[..|r| - 1] == high;
      r
  }

  /** `str(n)` for any Python int: a minus sign before the digits of a negative number. */
  function IntDecimal(n: int): (r: string)
    ensures |r| > 0
    ensures n >= 0 ==> r == NatDecimal(n)
    ensures n < 0 <==> r[0] == '-'
    ensures n < 0 ==> r[1..] == NatDecimal(-n)
  {
    if n < 0 then "-" + NatDecimal(-n) else NatDecimal(n)
  }

  /** Python's `needle in haystack` for two strings. */
  predicate IsSubstring(needle: string, haystack: string)
  {
    exists i :: 0 <= i <= |haystack| - |needle| && OccursAt(needle, haystack, i)
  }

  predicate OccursAt(needle: string, haystack: string, i: int)
  {
    0 <= i <= |haystack| - |needle| && haystack[i..i + |needle|] == needle
  }

  lemma SubstringAt(needle: string, haystack: string, i: nat)
    requires OccursAt(needle, haystack, i)
    ensures IsSubstring(needle, haystack)
  {
  }

  /** The front part of a concatenation is its prefix, and the middle part
      occurs in it. */
  lemma SubstringOfConcat(front: string, middle: string, back: string)
    ensures (front + middle + back)[..|front|] == front
    ensures IsSubstring(middle, front + middle + back)
  {
    var whole := front + middle + back;
    assert whole[|front|..|front| + |middle|] == middle;
    assert OccursAt(middle, whole, |front|);
  }

  /** Python's `s.split(sep)` for a one-character separator: the maximal pieces
      between separators, empty pieces included, so there is always one piece
      more than there are separators. */
  function Split(s: string, sep: char): (r: seq<string>)
    decreases |s|
    ensures |r| >= 1
    ensures forall i :: 0 <= i < |r| ==> sep !in r[i]
  {
    if |s| == 0 then [""]
    else if s[0] == sep then [""] + Split(s[1..], sep)
    else
      var rest := Split(s[1..], sep);
      [[s[0]] + rest[0]] + rest[1..]
  }

  /** Python's `sep.join(parts)` for a non-empty list of pieces. */
  function Join(parts: seq<string>, sep: char): (r: string)
    requires |parts| >= 1
    decreases |parts|
  {
    if |parts| == 1 then parts[0] else parts[0] + [sep] + Join(parts[1..], sep)
  }

  /** Joining the pieces of a split gives back the string that was split. */
  lemma {:induction false} JoinSplit(s: string, sep: char)
    decreases |s|
    ensures Join(Split(s, sep), sep) == s
  {
    if |s| == 0 {
    } else if s[0] == sep {
      JoinSplit(s[1..], sep);
      assert s == [sep] + s[1..];
    } else {
      var rest := Split(s[1..], sep);
      JoinSplit(s[1..], sep);
      if |rest| == 1 {
        assert s == [s[0]] + s[1..];
      } else {
        assert Split(s, sep)[1..] == rest[1..];
        assert Join(rest, sep) == rest[0] + [sep] + Join(rest[1..], sep);
        assert s == [s[0]] + s[1..];
      }
    }
  }

  /** Splitting a join of separator-free pieces gives back the pieces. */
  lemma {:induction false} SplitJoin(parts: seq<string>, sep: char)
    requires |parts| >= 1
    requires forall i :: 0 <= i < |parts| ==> sep !in parts[i]
    decreases |parts|, |parts[0]|
    ensures Split(Join(parts, sep), sep) == parts
  {
    var head := parts[0];
    if |head| == 0 {
      if |parts| == 1 {
      } else {
        SplitJoin(parts[1..], sep);
        assert Join(parts, sep) == [sep] + Join(parts[1..], sep);
        assert Join(parts, sep)[1..] == Join(parts[1..], sep);
        assert parts == [""] + parts[1..];
      }
    } else {
      var shorter := [head[1..]] + parts[1..];
      assert shorter[1..] == parts[1..];
      assert forall i :: 1 <= i < |shorter| ==> shorter[i] == parts[i];
      SplitJoin(shorter, sep);
      var j := Join(parts, sep);
      if |parts| == 1 {
        assert j == [head[0]] + head[1..];
        assert j[1..] == Join(shorter, sep);
      } else {
        assert j == [head[0]] + (head[1..] + [sep] + Join(parts[1..], sep));
        assert j[1..] == Join(shorter, sep);
      }
      assert j[0] == head[0] && head[0] != sep;
      assert head == [head[0]] + head[1..];
      assert parts == [[head[0]] + head[1..]] + parts[1..];
    }
  }
}
