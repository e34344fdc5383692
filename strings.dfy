/**
 * The JavaScript string operations the core relies on, over `seq<char>`:
 * `trim`, `toLowerCase`, the regular-expression classes `\s` and `\w`,
 * `replace(/<class>+/g, "-")`, `includes`, integer-to-string conversion and
 * the comparison Array.prototype.sort uses by default.
 */
module Strings {

  /** The characters `trim` removes and `\s` matches: ECMAScript WhiteSpace and LineTerminator. */
  predicate IsSpace(c: char) {
    c == ' ' || c == '\t' || c == '\n' || c == '\r' || c == '\U{B}' || c == '\U{C}'
    || c == '\U{A0}' || c == '\U{1680}' || ('\U{2000}' <= c <= '\U{200A}')
    || c == '\U{2028}' || c == '\U{2029}' || c == '\U{202F}' || c == '\U{205F}'
    || c == '\U{3000}' || c == '\U{FEFF}'
  }

  /** `\w` without the `u` flag: ASCII letters, digits and underscore. */
  predicate IsWordChar(c: char) {
    ('a' <= c <= 'z') || ('A' <= c <= 'Z') || ('0' <= c <= '9') || c == '_'
  }

  function TrimStart(s: string): (r: string)
    ensures |r| <= |s| && r == s[|s| - |r|..]
    ensures r != [] ==> !IsSpace(r[0])
  {
    if s != [] && IsSpace(s[0]) then TrimStart(s[1..]) else s
  }

  /** Everything TrimStart drops is white space. */
  lemma {:induction false} TrimStartDropsSpace(s: string)
    ensures forall k :: 0 <= k < |s| - |TrimStart(s)| ==> IsSpace(s[k])
  {
    if s != [] && IsSpace(s[0]) {
      TrimStartDropsSpace(s[1..]);
      assert forall k :: 1 <= k < |s| - |TrimStart(s)| ==> s[k] == s[1..][k - 1];
    }
  }

  function TrimEnd(s: string): (r: string)
    ensures |r| <= |s| && r == s[..|r|]
    ensures r != [] ==> !IsSpace(r[|r| - 1])
  {
    if s != [] && IsSpace(s[|s| - 1]) then TrimEnd(s[..|s| - 1]) else s
  }

  /** Everything TrimEnd drops is white space. */
  lemma {:induction false} TrimEndDropsSpace(s: string)
    ensures forall k :: |TrimEnd(s)| <= k < |s| ==> IsSpace(s[k])
  {
    if s != [] && IsSpace(s[|s| - 1]) {
      TrimEndDropsSpace(s[..|s| - 1]);
      assert forall k :: |TrimEnd(s)| <= k < |s| - 1 ==> s[k] == s[..|s| - 1][k];
    }
  }

  /** `s.trim()`: the longest infix of `s` that neither starts nor ends with white space. */
  function Trim(s: string): (r: string)
    ensures r != [] ==> !IsSpace(r[0]) && !IsSpace(r[|r| - 1])
    ensures |r| <= |s|
  {
    TrimEnd(TrimStart(s))
  }

  /** A string that starts and ends with a non-space character is its own trim. */
  lemma TrimNoEdgeSpace(s: string)
    requires s != [] && !IsSpace(s[0]) && !IsSpace(s[|s| - 1])
    ensures Trim(s) == s
  {
  }

  /** A string made only of white space trims to the empty string, and only such a string does. */
  lemma TrimEmptyIffAllSpace(s: string)
    ensures Trim(s) == [] <==> forall k :: 0 <= k < |s| ==> IsSpace(s[k])
  {
    var t := TrimStart(s);
    TrimStartDropsSpace(s);
    TrimEndDropsSpace(t);
    if t != [] {
      assert !IsSpace(s[|s| - |t|]);
    }
  }

  /** A string holding a non-space character does not trim to nothing. */
  lemma NonBlankTrim(s: string)
    requires exists k :: 0 <= k < |s| && !IsSpace(s[k])
    ensures Trim(s) != ""
  {
    TrimEmptyIffAllSpace(s);
  }

  function LowerChar(c: char): (d: char)
    ensures 'A' <= c <= 'Z' ==> d as int == c as int + 32
    ensures !('A' <= c <= 'Z') ==> d == c
  {
    if 'A' <= c <= 'Z' then (c as int + 32) as char else c
  }

  /** `toLowerCase`, restricted to the ASCII letters. */
  function Lower(s: string): (r: string)
    ensures |r| == |s| && forall i :: 0 <= i < |s| ==> r[i] == LowerChar(s[i])
  {
    seq(|s|, i requires 0 <= i < |s| => LowerChar(s[i]))
  }

  lemma LowerAppend(a: string, b: string)
    ensures Lower(a + b) == Lower(a) + Lower(b)
  {
  }

  lemma LowerIdempotent(s: string)
    ensures Lower(Lower(s)) == Lower(s)
  {
  }

  /**
   * `s.replace(/p+/g, "-")`, scanning left to right: every maximal run of
   * characters satisfying `p` becomes one "-". `inRun` says that the
   * character before `s` was already part of a replaced run.
   */
  function ReplaceRuns(s: string, p: char -> bool, inRun: bool): (r: string)
    ensures forall i :: 0 <= i < |r| ==> r[i] == '-' || !p(r[i])
    ensures inRun ==> r == [] || !p(r[0])
  {
    if s == [] then []
    else if !p(s[0]) then [s[0]] + ReplaceRuns(s[1..], p, false)
    else if inRun then ReplaceRuns(s[1..], p, true)
    else "-" + ReplaceRuns(s[1..], p, true)
  }

  /** Every character of `s` is in the class. */
  predicate AllIn(s: string, p: char -> bool) {
    forall i :: 0 <= i < |s| ==> p(s[i])
  }

  /** Whether a run is open after scanning `s` from state `inRun`. */
  function EndsInRun(s: string, p: char -> bool, inRun: bool): bool {
    if s == [] then inRun else p(s[|s| - 1])
  }

  /** The scan of `a + b` is the scan of `a` followed by the scan of `b` from where `a` left off. */
  lemma {:induction false} ReplaceRunsAppend(a: string, b: string, p: char -> bool, inRun: bool)
    ensures ReplaceRuns(a + b, p, inRun) == ReplaceRuns(a, p, inRun) + ReplaceRuns(b, p, EndsInRun(a, p, inRun))
  {
    if a == [] {
      assert a + b == b;
    } else {
      assert (a + b)[0] == a[0];
      assert (a + b)[1..] == a[1..] + b;
      ReplaceRunsAppend(a[1..], b, p, p(a[0]));
    }
  }

  /** A non-empty run of class characters becomes a single "-", and nothing inside an open run. */
  lemma {:induction false} ReplaceRunsOfRun(r: string, p: char -> bool)
    requires forall i :: 0 <= i < |r| ==> p(r[i])
    ensures ReplaceRuns(r, p, true) == []
    ensures r != [] ==> ReplaceRuns(r, p, false) == "-"
  {
    if r != [] {
      ReplaceRunsOfRun(r[1..], p);
    }
  }

  /** Text with no class character comes through unchanged. */
  lemma {:induction false} ReplaceRunsNoRun(s: string, p: char -> bool, inRun: bool)
    requires forall i :: 0 <= i < |s| ==> !p(s[i])
    ensures ReplaceRuns(s, p, inRun) == s
  {
    if s != [] {
      ReplaceRunsNoRun(s[1..], p, false);
      assert s == [s[0]] + s[1..];
    }
  }

  /**
   * A maximal run, one with no class character on either side, becomes
   * exactly one "-", and the text on each side is replaced on its own.
   */
  lemma MaximalRunOneDash(x: string, r: string, y: string, p: char -> bool)
    requires x == [] || !p(x[|x| - 1])
    requires r != [] && AllIn(r, p)
    requires y == [] || !p(y[0])
    ensures ReplaceRuns(x + r + y, p, false) == ReplaceRuns(x, p, false) + "-" + ReplaceRuns(y, p, false)
  {
    var xs, rs := ReplaceRuns(x, p, false), ReplaceRuns(r + y, p, false);
    assert x + r + y == x + (r + y);
    assert !EndsInRun(x, p, false);
    ReplaceRunsAppend(x, r + y, p, false);
    assert ReplaceRuns(x + r + y, p, false) == xs + rs;
    RunThenRest(r, y, p);
    assert rs == "-" + ReplaceRuns(y, p, false);
  }

  lemma RunThenRest(r: string, y: string, p: char -> bool)
    requires r != [] && AllIn(r, p)
    requires y == [] || !p(y[0])
    ensures ReplaceRuns(r + y, p, false) == "-" + ReplaceRuns(y, p, false)
  {
    ReplaceRunsAppend(r, y, p, false);
    ReplaceRunsOfRun(r, p);
    assert EndsInRun(r, p, false);
    assert ReplaceRuns(y, p, true) == ReplaceRuns(y, p, false);
  }

  /** The characters outside the pattern class, other than "-", in order. */
  function Kept(s: string, p: char -> bool): (r: string)
    ensures |r| <= |s|
  {
    if s == [] then []
    else (if !p(s[0]) && s[0] != '-' then [s[0]] else []) + Kept(s[1..], p)
  }

  /** Replacing the runs keeps every character outside the class, in order. */
  lemma {:induction false} ReplaceRunsKeeps(s: string, p: char -> bool, inRun: bool)
    ensures Kept(ReplaceRuns(s, p, inRun), p) == Kept(s, p)
  {
    if s != [] {
      ReplaceRunsKeeps(s[1..], p, p(s[0]));
      var r := ReplaceRuns(s, p, inRun);
      if !p(s[0]) {
        assert r == [s[0]] + ReplaceRuns(s[1..], p, false);
        assert r[1..] == ReplaceRuns(s[1..], p, false);
      } else if inRun {
      } else {
        assert r[1..] == ReplaceRuns(s[1..], p, true);
      }
    }
  }

  /** Kept distributes over concatenation. */
  lemma {:induction false} KeptAppend(a: string, b: string, p: char -> bool)
    ensures Kept(a + b, p) == Kept(a, p) + Kept(b, p)
  {
    if a != [] {
      assert (a + b)[1..] == a[1..] + b;
      KeptAppend(a[1..], b, p);
    } else {
      assert a + b == b;
    }
  }

  predicate NoDoubleDash(r: string) {
    forall i :: 0 <= i < |r| - 1 ==> !(r[i] == '-' && r[i + 1] == '-')
  }

  /** When "-" is itself in the class, the result never holds two dashes in a row. */
  lemma {:induction false} ReplaceRunsNoDoubleDash(s: string, p: char -> bool, inRun: bool)
    requires p('-')
    ensures NoDoubleDash(ReplaceRuns(s, p, inRun))
  {
    if s != [] {
      ReplaceRunsNoDoubleDash(s[1..], p, p(s[0]));
      var tail := ReplaceRuns(s[1..], p, p(s[0]));
      var r := ReplaceRuns(s, p, inRun);
      if !p(s[0]) || !inRun {
        var head := if !p(s[0]) then s[0] else '-';
        assert r == [head] + tail;
        assert head == '-' ==> tail == [] || tail[0] != '-';
        forall i | 0 <= i < |r| - 1
          ensures !(r[i] == '-' && r[i + 1] == '-')
        {
          if i > 0 {
            assert r[i] == tail[i - 1] && r[i + 1] == tail[i];
          } else {
            assert r[0] == head && r[1] == tail[0];
            assert head != '-' || tail[0] != '-';
          }
        }
      } else {
        assert r == tail;
      }
    }
  }

  /** `haystack.includes(needle)`. */
  predicate Includes(haystack: string, needle: string) {
    exists i :: 0 <= i <= |haystack| && needle <= haystack[i..]
  }

  lemma IncludesEmpty(haystack: string)
    ensures Includes(haystack, "")
  {
    assert "" <= haystack[0..];
  }

  function DigitChar(d: nat): char
    requires d < 10
  {
    ('0' as int + d) as char
  }

  /** The decimal representation of a natural number, as `String(n)` gives it. */
  function NatToString(n: nat): (r: string)
    ensures r != [] && forall i :: 0 <= i < |r| ==> '0' <= r[i] <= '9'
    ensures n < 10 <==> |r| == 1
  {
    if n < 10 then [DigitChar(n)] else NatToString(n / 10) + [DigitChar(n % 10)]
  }

  /** Distinct numbers have distinct decimal representations. */
  lemma {:induction false} NatToStringInjective(m: nat, n: nat)
    requires NatToString(m) == NatToString(n)
    ensures m == n
  {
    if m >= 10 && n >= 10 {
      var sm, sn := NatToString(m), NatToString(n);
      assert sm[..|sm| - 1] == NatToString(m / 10);
      assert sn[..|sn| - 1] == NatToString(n / 10);
      NatToStringInjective(m / 10, n / 10);
      assert DigitChar(m % 10) == DigitChar(n % 10);
    }
  }

  /** `String(i)` for an integer. */
  function IntToString(i: int): string {
    if i < 0 then "-" + NatToString(-i) else NatToString(i)
  }

  /** Ordering by character codes, as the default Array.prototype.sort compares strings. */
  predicate StrLe(a: string, b: string) {
    a == [] || (b != [] && (a[0] < b[0] || (a[0] == b[0] && StrLe(a[1..], b[1..]))))
  }

  lemma StrLeReflexive(a: string)
    ensures StrLe(a, a)
  {
  }

  lemma StrLeTotal(a: string, b: string)
    ensures StrLe(a, b) || StrLe(b, a)
  {
  }

  lemma StrLeAntisymmetric(a: string, b: string)
    requires StrLe(a, b) && StrLe(b, a)
    ensures a == b
  {
    if a != [] && b != [] {
      StrLeAntisymmetric(a[1..], b[1..]);
      assert a == [a[0]] + a[1..];
      assert b == [b[0]] + b[1..];
    }
  }

  lemma StrLeTransitive(a: string, b: string, c: string)
    requires StrLe(a, b) && StrLe(b, c)
    ensures StrLe(a, c)
  {
    if a != [] && b != [] && c != [] && a[0] == b[0] == c[0] {
      StrLeTransitive(a[1..], b[1..], c[1..]);
    }
  }
}
