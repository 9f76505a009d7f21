/** The C and C++ string operations the .npy code is written with. */
module NpyText {
  import opened Wrappers

  const NPOS := -1

  /** `pat` is found in `s` at index `i`. */
  predicate Occurs(s: string, pat: string, i: int) {
    0 <= i && i + |pat| <= |s| && s[i..i + |pat|] == pat
  }

  /** std::string::find, as an int: the first occurrence, or -1. */
  function Find(s: string, pat: string): (r: int)
    ensures r == NPOS || Occurs(s, pat, r)
    ensures forall j :: Occurs(s, pat, j) ==> 0 <= r <= j
  {
    FindFrom(s, pat, 0)
  }

  function FindFrom(s: string, pat: string, i: nat): (r: int)
    requires i <= |s|
    ensures r == NPOS || (i <= r && Occurs(s, pat, r))
    ensures forall j :: i <= j && Occurs(s, pat, j) ==> 0 <= r <= j
    decreases |s| - i
  {
    if Occurs(s, pat, i) then i
    else if i == |s| then NPOS
    else FindFrom(s, pat, i + 1)
  }

  /** std::string::substr: throws past the end, and takes the rest for a negative length. */
  function Substr(s: string, pos: int, len: int): Option<string> {
    if pos < 0 || pos > |s| then None
    else if len < 0 || pos + len > |s| then Some(s[pos..])
    else Some(s[pos..pos + len])
  }

  predicate IsDigit(c: char) { '0' <= c <= '9' }

  predicate IsSpace(c: char) { c == ' ' || '\t' <= c <= '\r' }

  function SkipSpace(s: string): string {
    if s != [] && IsSpace(s[0]) then SkipSpace(s[1..]) else s
  }

  function Digits(s: string, acc: nat): nat {
    if s != [] && IsDigit(s[0]) then Digits(s[1..], 10 * acc + (s[0] as int - '0' as int)) else acc
  }

  /** atoi, on numbers that fit an int. */
  function Atoi(s: string): int {
    var t := SkipSpace(s);
    if t == [] then 0
    else if t[0] == '-' then 0 - Digits(t[1..], 0)
    else if t[0] == '+' then Digits(t[1..], 0)
    else Digits(t, 0)
  }

  function Digit(d: nat): char
    requires d < 10
  {
    ('0' as int + d) as char
  }

  /** tostring of an unsigned number: plain decimal. */
  function ToString(n: nat): (s: string)
    ensures |s| > 0 && forall i :: 0 <= i < |s| ==> IsDigit(s[i])
  {
    if n < 10 then [Digit(n)] else ToString(n / 10) + [Digit(n % 10)]
  }

  lemma {:induction false} DigitsAppend(s: string, acc: nat, c: char)
    requires (forall i :: 0 <= i < |s| ==> IsDigit(s[i])) && IsDigit(c)
    ensures Digits(s + [c], acc) == 10 * Digits(s, acc) + (c as int - '0' as int)
  {
    if s != [] {
      assert (s + [c])[1..] == s[1..] + [c];
      DigitsAppend(s[1..], 10 * acc + (s[0] as int - '0' as int), c);
    } else {
      assert (s + [c])[1..] == [];
    }
  }

  lemma {:induction false} DigitsToString(n: nat)
    ensures Digits(ToString(n), 0) == n
  {
    if n >= 10 {
      DigitsToString(n / 10);
      DigitsAppend(ToString(n / 10), 0, Digit(n % 10));
    } else {
      assert [Digit(n)][1..] == [];
    }
  }

  /** Reading a number back, with or without a blank in front. */
  lemma AtoiToString(n: nat)
    ensures Atoi(ToString(n)) == n && Atoi(" " + ToString(n)) == n
  {
    DigitsToString(n);
    var s := ToString(n);
    assert IsDigit(s[0]);
    assert (" " + s)[1..] == s;
    assert SkipSpace(" " + s) == SkipSpace(s) == s;
  }

  function Count(s: string, c: char): nat {
    if s == [] then 0 else (if s[0] == c then 1 else 0) + Count(s[1..], c)
  }

  predicate Lacks(s: string, c: char) {
    forall i :: 0 <= i < |s| ==> s[i] != c
  }

  lemma {:induction false} CountConcat(a: string, b: string, c: char)
    ensures Count(a + b, c) == Count(a, c) + Count(b, c)
  {
    if a == [] {
      assert a + b == b;
    } else {
      assert (a + b)[1..] == a[1..] + b;
      CountConcat(a[1..], b, c);
    }
  }

  lemma {:induction false} CountLacks(s: string, c: char)
    requires Lacks(s, c)
    ensures Count(s, c) == 0
  {
    if s != [] {
      CountLacks(s[1..], c);
    }
  }

  /** A character is first found where the part before it, which lacks it, ends. */
  lemma FindChar(a: string, c: char, b: string)
    requires Lacks(a, c)
    ensures Find(a + [c] + b, [c]) == |a|
  {
    var s := a + [c] + b;
    assert s[|a|..|a| + 1] == [c];
    assert Occurs(s, [c], |a|);
    var r := Find(s, [c]);
    assert s[r..r + 1] == [c];
    assert s[r] == c;
  }

  lemma FindNoChar(a: string, c: char)
    requires Lacks(a, c)
    ensures Find(a, [c]) == NPOS
  {
    var r := Find(a, [c]);
    if r != NPOS {
      OccursChar(a, c, r);
    }
  }

  lemma OccursChar(a: string, c: char, i: int)
    requires Occurs(a, [c], i)
    ensures a[i] == c
  {
    assert a[i..i + 1][0] == c;
  }

  /** What a char pointer denotes: everything up to the first NUL. */
  function CString(s: string): (r: string)
    ensures r <= s && Lacks(r, '\0')
    ensures |r| < |s| ==> s[|r|] == '\0'
  {
    if s == [] || s[0] == '\0' then "" else [s[0]] + CString(s[1..])
  }

  lemma {:induction false} CStringPrefix(a: string, b: string)
    requires Lacks(a, '\0')
    ensures CString(a + b) == a + CString(b)
  {
    if a == [] {
      assert a + b == b;
    } else {
      var rest := a[1..];
      assert (a + b)[0] == a[0] && (a + b)[1..] == rest + b;
      CStringPrefix(rest, b);
      assert CString(a + b) == [a[0]] + CString(rest + b);
      assert [a[0]] + (rest + CString(b)) == a + CString(b);
    }
  }
}
