/**
 * String operations the JavaScript source relies on (`endsWith`, `startsWith`, `includes`,
 * `toLowerCase`, `trim`, `split`/`join`, `charAt`, `substring`, integer printing), over `seq<char>`.
 * Case mapping and white space are those of ASCII.
 */
module Strings {

  predicate StartsWith(s: string, prefix: string) {
    |prefix| <= |s| && s[..|prefix|] == prefix
  }

  predicate EndsWith(s: string, suffix: string) {
    |suffix| <= |s| && s[|s| - |suffix|..] == suffix
  }

  /** `s.includes(t)`: `t` occurs in `s` at some position (the empty string occurs everywhere). */
  predicate Contains(s: string, t: string) {
    StartsWith(s, t) || (s != [] && Contains(s[1..], t))
  }

  function LowerChar(c: char): char {
    if 'A' <= c <= 'Z' then (c as int + 32) as char else c
  }

  function UpperChar(c: char): char {
    if 'a' <= c <= 'z' then (c as int - 32) as char else c
  }

  /** `s.toLowerCase()`. */
  function Lower(s: string): (r: string)
    ensures |r| == |s|
    ensures forall i :: 0 <= i < |s| ==> r[i] == LowerChar(s[i])
  {
    if s == [] then [] else [LowerChar(s[0])] + Lower(s[1..])
  }

  function Upper(s: string): (r: string)
    ensures |r| == |s|
    ensures forall i :: 0 <= i < |s| ==> r[i] == UpperChar(s[i])
  {
    if s == [] then [] else [UpperChar(s[0])] + Upper(s[1..])
  }

  predicate IsSpace(c: char) {
    c == ' ' || c == '\t' || c == '\n' || c == '\r' || c == '\U{B}' || c == '\U{C}'
  }

  function TrimStart(s: string): string {
    if s != [] && IsSpace(s[0]) then TrimStart(s[1..]) else s
  }

  function TrimEnd(s: string): string {
    if s != [] && IsSpace(s[|s| - 1]) then TrimEnd(s[..|s| - 1]) else s
  }

  /** Trimming the start leaves a suffix that is empty or starts with a non-space character. */
  lemma {:induction false} TrimStartShape(s: string)
    ensures var r := TrimStart(s);
      |r| <= |s| && r == s[|s| - |r|..] && (r == [] || !IsSpace(r[0]))
  {
    if s != [] && IsSpace(s[0]) {
      TrimStartShape(s[1..]);
    }
  }

  /** Trimming the end leaves a prefix that is empty or ends with a non-space character. */
  lemma {:induction false} TrimEndShape(s: string)
    ensures var r := TrimEnd(s);
      |r| <= |s| && r == s[..|r|] && (r == [] || !IsSpace(r[|r| - 1]))
  {
    if s != [] && IsSpace(s[|s| - 1]) {
      TrimEndShape(s[..|s| - 1]);
    }
  }

  /** `s.trim()`. */
  function Trim(s: string): string {
    TrimEnd(TrimStart(s))
  }

  /** Text that `s.trim()` leaves as it is, as a schema's trim setter stores it. */
  predicate Trimmed(s: string) {
    Trim(s) == s
  }

  /** Non-empty text is trimmed exactly when neither end is whitespace. */
  lemma TrimmedEnds(s: string)
    requires s != []
    ensures Trimmed(s) <==> !IsSpace(s[0]) && !IsSpace(s[|s| - 1])
  {
    var t := TrimStart(s);
    TrimStartShape(s);
    TrimEndShape(t);
    if Trimmed(s) {
      assert t == s;
      TrimEndShape(s);
    }
  }

  /** Trimming takes no character in: text without `c` trims to text without `c`. */
  lemma TrimWithout(s: string, c: char)
    requires c !in s
    ensures c !in Trim(s)
  {
    var t := TrimStart(s);
    TrimStartShape(s);
    TrimEndShape(t);
    var r := TrimEnd(t);
    forall k | 0 <= k < |r|
      ensures r[k] != c
    {
      assert r[k] == t[k] == s[|s| - |t| + k];
    }
  }

  /** Two trimmed non-empty names joined by a space are trimmed. */
  lemma TrimJoined(a: string, b: string)
    requires a != [] && b != [] && Trimmed(a) && Trimmed(b)
    ensures Trimmed(a + " " + b)
  {
    TrimmedEnds(a);
    TrimmedEnds(b);
    var s := a + " " + b;
    assert s[0] == a[0] && s[|s| - 1] == b[|b| - 1];
    TrimmedEnds(s);
  }

  /**
   * Two trimmed non-empty names, the first without a space, joined by a space: the first
   * piece of the split, trimmed, is the first name, and the other pieces joined by spaces,
   * trimmed, are the second.
   */
  lemma SplitJoined(first: string, last: string)
    requires first != [] && last != [] && Trimmed(first) && Trimmed(last) && ' ' !in first
    ensures var words := Split(first + " " + last, ' ');
      Trimmed(first + " " + last) && Trim(words[0]) == first && Trim(Join(words[1..], ' ')) == last
  {
    TrimJoined(first, last);
    SplitAtSpace(first, last);
    JoinSplit(last, ' ');
  }

  /** A first name without a space comes off first when a space joins it to the rest. */
  lemma SplitAtSpace(first: string, last: string)
    requires ' ' !in first
    ensures var words := Split(first + " " + last, ' ');
      words[0] == first && words[1..] == Split(last, ' ')
  {
    assert first + " " + last == first + [' '] + last;
    SplitAfter(first, last, ' ');
  }

  /** `s.charAt(0)`: the first character as a string, empty for the empty string. */
  function FirstChar(s: string): (r: string)
    ensures |r| == if s == [] then 0 else 1
  {
    if s == [] then [] else [s[0]]
  }

  /** `s.substring(0, n)`. */
  function Prefix(s: string, n: nat): (r: string)
    ensures |r| == if n < |s| then n else |s|
    ensures r == s[..|r|]
  {
    if n < |s| then s[..n] else s
  }

  /** `s.split(sep)`: the pieces between the separators, at least one. */
  function Split(s: string, sep: char): (parts: seq<string>)
    ensures |parts| >= 1
    ensures forall k :: 0 <= k < |parts| ==> sep !in parts[k]
  {
    if s == [] then [[]]
    else
      var rest := Split(s[1..], sep);
      if s[0] == sep then [[]] + rest else [[s[0]] + rest[0]] + rest[1..]
  }

  /** `parts.join(sep)`; the join of no parts is the empty string. */
  function Join(parts: seq<string>, sep: char): string {
    if parts == [] then []
    else if |parts| == 1 then parts[0]
    else parts[0] + [sep] + Join(parts[1..], sep)
  }

  /** Splitting and joining again gives back the original text. */
  lemma {:induction false} JoinSplit(s: string, sep: char)
    ensures Join(Split(s, sep), sep) == s
  {
    if s != [] {
      var rest := Split(s[1..], sep);
      JoinSplit(s[1..], sep);
      if s[0] == sep {
        assert Split(s, sep) == [[]] + rest;
      } else {
        assert Split(s, sep) == [[s[0]] + rest[0]] + rest[1..];
        if |rest| > 1 {
          assert Join(rest, sep) == rest[0] + [sep] + Join(rest[1..], sep);
        }
      }
    }
  }

  /** `s.split(sep).pop()`: the text after the last separator, or all of `s` when there is none. */
  function LastSegment(s: string, sep: char): (r: string)
    ensures sep !in r
    ensures EndsWith(s, r)
  {
    if s == [] || s[|s| - 1] == sep then []
    else LastSegment(s[..|s| - 1], sep) + [s[|s| - 1]]
  }

  /** The part of `s` before the first occurrence of any character of `stops`. */
  function Before(s: string, stops: set<char>): (r: string)
    ensures StartsWith(s, r)
    ensures forall c :: c in r ==> c !in stops
  {
    if s == [] || s[0] in stops then [] else [s[0]] + Before(s[1..], stops)
  }

  function DigitChar(d: nat): char
    requires d < 10
  {
    "0123456789"[d]
  }

  /** `n.toString()` for a natural number: its decimal digits, without leading zeros. */
  function NatToString(n: nat): (r: string)
    ensures |r| >= 1
  {
    if n < 10 then [DigitChar(n)] else NatToString(n / 10) + [DigitChar(n % 10)]
  }

  function Pow10(k: nat): (p: nat)
    ensures p >= 1
  {
    if k == 0 then 1 else 10 * Pow10(k - 1)
  }

  /** A number with `k` digits prints as exactly `k` characters. */
  lemma {:induction false} NatToStringLength(n: nat, k: nat)
    requires 1 <= k
    requires (if k == 1 then 0 else Pow10(k - 1)) <= n < Pow10(k)
    ensures |NatToString(n)| == k
  {
    if k > 1 {
      assert Pow10(k) == 10 * Pow10(k - 1);
      if k > 2 {
        assert Pow10(k - 1) == 10 * Pow10(k - 2);
      }
      NatToStringLength(n / 10, k - 1);
    }
  }

  /** Every character of a printed number is a decimal digit. */
  lemma {:induction false} NatToStringDigits(n: nat)
    ensures forall i :: 0 <= i < |NatToString(n)| ==> '0' <= NatToString(n)[i] <= '9'
  {
    if n >= 10 {
      NatToStringDigits(n / 10);
    }
  }

  /** Text without the separator splits into itself alone. */
  lemma {:induction false} SplitWithout(s: string, sep: char)
    requires sep !in s
    ensures Split(s, sep) == [s]
  {
    if s != [] {
      assert sep !in s[1..] && s[0] != sep;
      SplitWithout(s[1..], sep);
      assert s == [s[0]] + s[1..];
    }
  }

  /** Text holding the separator splits into two parts or more. */
  lemma {:induction false} SplitWith(s: string, sep: char)
    requires sep in s
    ensures |Split(s, sep)| >= 2
  {
    if s[0] != sep {
      assert sep in s[1..];
      SplitWith(s[1..], sep);
    }
  }

  /** A first part free of the separator comes off first. */
  lemma {:induction false} SplitAfter(a: string, b: string, sep: char)
    requires sep !in a
    ensures Split(a + [sep] + b, sep) == [a] + Split(b, sep)
  {
    if a != [] {
      assert (a + [sep] + b)[1..] == a[1..] + [sep] + b;
      assert sep !in a[1..] && a[0] != sep;
      SplitAfter(a[1..], b, sep);
      assert a == [a[0]] + a[1..];
    } else {
      assert a + [sep] + b == [sep] + b;
      assert ([sep] + b)[1..] == b;
    }
  }
}
