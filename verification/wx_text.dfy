/**
  * The few wxString operations the session protocol engine relies on, with the
  * library's own edge cases: Find answers -1 when the text is absent, SubString
  * includes the character at its second index and clamps to the end, Trim removes
  * C whitespace, and ToLong behaves like strtol (leading blanks, a sign, the longest
  * run of decimal digits, saturation at the bounds of a 64-bit long).
  */
module WxText {

  /** `pat` occurs in `s` starting at index `i`. */
  predicate OccursAt(s: string, pat: string, i: nat) {
    i + |pat| <= |s| && s[i..i + |pat|] == pat
  }

  predicate Contains(s: string, pat: string) {
    exists i: nat :: i <= |s| && OccursAt(s, pat, i)
  }

  /** The first occurrence of `pat` at or after index `k`, or -1. */
  function FindFrom(s: string, pat: string, k: nat): (r: int)
    decreases |s| + 1 - k
    ensures r == -1 || (k <= r && OccursAt(s, pat, r))
    ensures r == -1 ==> forall i: nat :: k <= i ==> !OccursAt(s, pat, i)
    ensures r >= 0 ==> forall i: nat :: k <= i < r ==> !OccursAt(s, pat, i)
  {
    if k + |pat| > |s| then -1
    else if s[k..k + |pat|] == pat then k
    else FindFrom(s, pat, k + 1)
  }

  /** wxString::Find: the index of the first occurrence of `pat`, or -1 when there is none. */
  function Find(s: string, pat: string): (r: int)
    ensures -1 <= r && r + |pat| <= |s| + (if r == -1 then |pat| + 1 else 0)
    ensures r == -1 <==> !Contains(s, pat)
    ensures r >= 0 ==> OccursAt(s, pat, r) && forall i: nat :: i < r ==> !OccursAt(s, pat, i)
  {
    FindFrom(s, pat, 0)
  }

  /** The text in front of the first occurrence holds no occurrence. */
  lemma {:induction false} PrefixBeforeFind(s: string, pat: string)
    requires |pat| > 0 && Find(s, pat) >= 0
    ensures !Contains(s[..Find(s, pat)], pat)
  {
    var i := Find(s, pat);
    forall j: nat | j <= i ensures !OccursAt(s[..i], pat, j) {
      if j + |pat| <= i {
        assert s[..i][j..j + |pat|] == s[j..j + |pat|];
        assert j < i && !OccursAt(s, pat, j);
      }
    }
  }

  /** A text is its part before `i`, the part `mid` from `i` on, and what follows. */
  lemma {:induction false} Reassemble(s: string, i: nat, head: string, mid: string, g: string, rest: string)
    requires i + |mid| <= |s| && head == s[..i] && mid == s[i..i + |mid|] && g + rest == s[i + |mid|..]
    ensures head + mid + g + rest == s
  {
  }

  /** Text appended after an occurrence does not move the first occurrence. */
  lemma {:induction false} FindExtend(a: string, b: string, pat: string)
    requires Find(a, pat) >= 0
    ensures Find(a + b, pat) == Find(a, pat)
  {
    var i, s := Find(a, pat), a + b;
    assert s[i..i + |pat|] == a[i..i + |pat|];
    assert OccursAt(s, pat, i);
    forall j: nat | j < i ensures !OccursAt(s, pat, j) {
      assert s[j..j + |pat|] == a[j..j + |pat|];
      assert !OccursAt(a, pat, j);
    }
    var r := Find(s, pat);
    assert r >= 0 by { assert Contains(s, pat); }
    assert r <= i && r >= i;
  }

  /**
    * Joining two texts without the pattern creates no occurrence when the second starts
    * with a character the pattern holds only at its head.
    */
  lemma {:induction false} ConcatNoOccurrence(a: string, b: string, pat: string)
    requires |pat| > 0 && |b| > 0
    requires !Contains(a, pat) && !Contains(b, pat)
    requires forall k :: 0 < k < |pat| ==> pat[k] != b[0]
    ensures !Contains(a + b, pat)
  {
    var s := a + b;
    forall j: nat | j <= |s| ensures !OccursAt(s, pat, j) {
      if j + |pat| > |s| {
      } else if j + |pat| <= |a| {
        assert s[j..j + |pat|] == a[j..j + |pat|];
        assert !OccursAt(a, pat, j);
      } else if j >= |a| {
        assert s[j..j + |pat|] == b[j - |a|..j - |a| + |pat|];
        assert !OccursAt(b, pat, j - |a|);
      } else {
        assert s[j..j + |pat|][|a| - j] == b[0];
      }
    }
  }

  /** The first occurrence in a + pat + rest is the one after `a`, when `a` cannot hide or start one. */
  lemma {:induction false} FindAfter(a: string, pat: string, rest: string)
    requires |pat| > 0 && !Contains(a, pat)
    requires forall k :: 0 < k < |pat| ==> pat[k] != pat[0]
    ensures Find(a + pat + rest, pat) == |a|
  {
    var s := a + pat + rest;
    assert s[|a|..|a| + |pat|] == pat;
    forall j: nat | j < |a| ensures !OccursAt(s, pat, j) {
      if j + |pat| <= |a| {
        assert s[j..j + |pat|] == a[j..j + |pat|];
        assert !OccursAt(a, pat, j);
      } else {
        assert s[j..j + |pat|][|a| - j] == pat[0];
      }
    }
    assert OccursAt(s, pat, |a|);
    var r := Find(s, pat);
    assert r >= 0 by { assert Contains(s, pat); }
    assert r <= |a| && r >= |a|;
  }

  predicate StartsWith(s: string, prefix: string) {
    |prefix| <= |s| && s[..|prefix|] == prefix
  }

  /** wxString::Right(n): the last `n` characters, or the whole string when it is shorter. */
  function Right(s: string, n: nat): (r: string)
    ensures |r| == if n < |s| then n else |s|
    ensures s == s[..|s| - |r|] + r
  {
    if n >= |s| then s else s[|s| - n..]
  }

  /**
    * wxString::SubString(from, to): the characters from index `from` to index `to`
    * inclusive. The count to - from + 1 is an unsigned size: a count running past the
    * end is clamped to the end, and a start past the end gives the empty string.
    */
  function SubString(s: string, from: nat, to: int): (r: string)
    ensures from > |s| ==> r == []
    ensures from <= |s| ==> |r| <= |s| - from && r == s[from..from + |r|]
    ensures from <= to + 1 <= |s| ==> r == s[from..to + 1]
    ensures from <= |s| < to + 1 ==> r == s[from..]
  {
    var count := to - from + 1;
    if from > |s| then []
    else if count < 0 || from + count > |s| then s[from..]
    else s[from..from + count]
  }

  /** The C whitespace set (isspace): blank, tab, newline, vertical tab, form feed, return. */
  predicate IsSpace(c: char) {
    c == ' ' || '\t' <= c <= '\r'
  }

  predicate IsBlank(s: string) {
    forall i :: 0 <= i < |s| ==> IsSpace(s[i])
  }

  /** wxString::Trim(): drop trailing whitespace. */
  function TrimRight(s: string): (r: string)
    decreases |s|
    ensures |r| <= |s| && r == s[..|r|]
    ensures IsBlank(s[|r|..])
    ensures r == [] || !IsSpace(r[|r| - 1])
    ensures r == [] <==> IsBlank(s)
  {
    if s == [] || !IsSpace(s[|s| - 1]) then s
    else
      var t := s[..|s| - 1];
      var r := TrimRight(t);
      assert s[|r|..] == t[|r|..] + [s[|s| - 1]] && t[..|r|] == s[..|r|];
      assert IsBlank(t) ==> IsBlank(s) by {
        if IsBlank(t) {
          forall i | 0 <= i < |s| ensures IsSpace(s[i]) { if i < |t| { assert s[i] == t[i]; } }
        }
      }
      r
  }

  /** wxString::Trim(false): drop leading whitespace. */
  function TrimLeft(s: string): (r: string)
    decreases |s|
    ensures |r| <= |s| && r == s[|s| - |r|..]
    ensures IsBlank(s[..|s| - |r|])
    ensures r == [] || !IsSpace(r[0])
    ensures r == [] <==> IsBlank(s)
  {
    if s == [] || !IsSpace(s[0]) then s
    else
      var r := TrimLeft(s[1..]);
      assert s[..|s| - |r|] == [s[0]] + s[1..][..|s| - 1 - |r|];
      r
  }

  /** Trim() followed by Trim(false), as the source always pairs them. */
  function Trim(s: string): string {
    TrimLeft(TrimRight(s))
  }

  /** Trimming leaves nothing exactly when the text is all whitespace. */
  lemma {:induction false} TrimEmptyIffBlank(s: string)
    ensures Trim(s) == [] <==> IsBlank(s)
  {
    var t := TrimRight(s);
    if t != [] {
      assert !IsBlank(t) by { assert !IsSpace(t[|t| - 1]); }
    }
  }

  /** The source's blankness test: the text is empty once trimmed at both ends. */
  method TrimsToEmpty(s: string) returns (empty: bool)
    ensures empty <==> IsBlank(s)
  {
    empty := Trim(s) == [];
    TrimEmptyIffBlank(s);
  }

  /**
    * wxString::Replace(pat, rep) with replaceAll: every occurrence, scanning left to
    * right without overlap, is replaced.
    */
  function ReplaceAll(s: string, pat: string, rep: string): (r: string)
    requires |pat| > 0
    decreases |s|
    ensures !Contains(s, pat) ==> r == s
  {
    var i := Find(s, pat);
    if i < 0 then s
    else s[..i] + rep + ReplaceAll(s[i + |pat|..], pat, rep)
  }

  /** Replacing with a non-empty text that shares no character with the pattern leaves no occurrence. */
  lemma {:induction false} ReplaceAllRemoves(s: string, pat: string, rep: string)
    requires |pat| > 0 && |rep| > 0
    requires forall j, k :: 0 <= j < |rep| && 0 <= k < |pat| ==> rep[j] != pat[k]
    ensures !Contains(ReplaceAll(s, pat, rep), pat)
    decreases |s|
  {
    var i := Find(s, pat);
    if i >= 0 {
      var tail := s[i + |pat|..];
      ReplaceAllRemoves(tail, pat, rep);
      ReplaceAllAt(s, pat, rep, i, s[..i], tail);
    }
  }

  /** One step of ReplaceAll, when the first occurrence is at `i`. */
  lemma {:induction false} ReplaceAllAt(s: string, pat: string, rep: string, i: int, head: string, tail: string)
    requires |pat| > 0 && |rep| > 0 && Find(s, pat) == i >= 0
    requires head == s[..i] && tail == s[i + |pat|..]
    requires forall j, k :: 0 <= j < |rep| && 0 <= k < |pat| ==> rep[j] != pat[k]
    requires !Contains(ReplaceAll(tail, pat, rep), pat)
    ensures !Contains(ReplaceAll(s, pat, rep), pat)
  {
    ReplaceAllUnfold(s, pat, rep, i, head, tail);
    NoneAcross(s, head, rep, ReplaceAll(tail, pat, rep), pat);
  }

  lemma {:induction false} ReplaceAllUnfold(s: string, pat: string, rep: string, i: int, head: string, tail: string)
    requires |pat| > 0 && Find(s, pat) == i >= 0
    requires head == s[..i] && tail == s[i + |pat|..]
    ensures ReplaceAll(s, pat, rep) == head + rep + ReplaceAll(tail, pat, rep)
  {
  }

  lemma {:induction false} NoneAcross(s: string, head: string, rep: string, rest: string, pat: string)
    requires |pat| > 0 && |rep| > 0 && |head| <= |s| && head == s[..|head|]
    requires forall j, k :: 0 <= j < |rep| && 0 <= k < |pat| ==> rep[j] != pat[k]
    requires forall m: nat :: m < |head| ==> !OccursAt(s, pat, m)
    requires !Contains(rest, pat)
    ensures !Contains(head + rep + rest, pat)
  {
    forall j: nat | j <= |head + rep + rest| ensures !OccursAt(head + rep + rest, pat, j) {
      NotAcross(s, head, rep, rest, pat, j);
    }
  }

  /** An occurrence in head + rep + rest must lie in head, in rest, or meet rep. */
  lemma {:induction false} NotAcross(s: string, head: string, rep: string, rest: string, pat: string, j: nat)
    requires |pat| > 0 && |rep| > 0 && |head| <= |s| && head == s[..|head|]
    requires forall j, k :: 0 <= j < |rep| && 0 <= k < |pat| ==> rep[j] != pat[k]
    requires forall m: nat :: m < |head| ==> !OccursAt(s, pat, m)
    requires !Contains(rest, pat)
    ensures !OccursAt(head + rep + rest, pat, j)
  {
    var r := head + rep + rest;
    if j + |pat| > |r| {
    } else if j + |pat| <= |head| {
      assert !OccursAt(s, pat, j);
      assert r[j..j + |pat|] == s[j..j + |pat|];
    } else if j >= |head| + |rep| {
      var k := j - |head| - |rep|;
      assert r[j..j + |pat|] == rest[k..k + |pat|];
      assert k <= |rest| && !OccursAt(rest, pat, k);
    } else {
      var m := if j < |head| then |head| else j;
      assert r[m] == rep[m - |head|];
      assert r[j..j + |pat|][m - j] == r[m];
    }
  }

  const LONG_MAX: int := 0x7FFF_FFFF_FFFF_FFFF
  const LONG_MIN: int := -0x8000_0000_0000_0000

  predicate IsDigit(c: char) {
    '0' <= c <= '9'
  }

  /** The number of leading characters of `s` satisfying whitespace. */
  function LeadingSpaces(s: string): (n: nat)
    ensures n <= |s| && IsBlank(s[..n]) && (n == |s| || !IsSpace(s[n]))
  {
    if s == [] || !IsSpace(s[0]) then 0
    else
      var n := 1 + LeadingSpaces(s[1..]);
      assert s[..n] == [s[0]] + s[1..][..n - 1];
      n
  }

  /** The length of the run of decimal digits that starts `s`. */
  function DigitRun(s: string): (n: nat)
    ensures n <= |s| && (forall i :: 0 <= i < n ==> IsDigit(s[i])) && (n == |s| || !IsDigit(s[n]))
  {
    if s == [] || !IsDigit(s[0]) then 0 else 1 + DigitRun(s[1..])
  }

  /** The value of a string of decimal digits. */
  function DecimalValue(ds: string): nat
    requires forall i :: 0 <= i < |ds| ==> IsDigit(ds[i])
    decreases |ds|
  {
    if ds == [] then 0
    else
      var d := ds[|ds| - 1];
      assert IsDigit(d);
      DecimalValue(ds[..|ds| - 1]) * 10 + ((d as int) - ('0' as int))
  }

  /**
    * wxString::ToLong: strtol in base 10. The value is stored even when the scan stops
    * before the end of the string (the source ignores the boolean result); with no
    * digits the value is 0, and an out-of-range value saturates.
    */
  function ToLong(s: string): (v: int)
    ensures LONG_MIN <= v <= LONG_MAX
  {
    var t := s[LeadingSpaces(s)..];
    var negative := |t| > 0 && t[0] == '-';
    var u := if |t| > 0 && (t[0] == '-' || t[0] == '+') then t[1..] else t;
    var magnitude: int := DecimalValue(u[..DigitRun(u)]);
    if negative then (if -magnitude < LONG_MIN then LONG_MIN else -magnitude)
    else (if magnitude > LONG_MAX then LONG_MAX else magnitude)
  }

  /** The decimal digits of `n` (the %d conversion of a non-negative number). */
  function NatToString(n: nat): (r: string)
    decreases n
    ensures |r| > 0 && forall i :: 0 <= i < |r| ==> IsDigit(r[i])
  {
    var d := ['0' + ((n % 10) as char)];
    if n < 10 then d else NatToString(n / 10) + d
  }

  /** The %d conversion of an integer. */
  function IntToString(n: int): (r: string)
    ensures |r| > 0
  {
    if n < 0 then "-" + NatToString(-n) else NatToString(n)
  }

  lemma {:induction false} DecimalValueOfNatToString(n: nat)
    ensures DecimalValue(NatToString(n)) == n
    decreases n
  {
    var r := NatToString(n);
    if n >= 10 {
      DecimalValueOfNatToString(n / 10);
      assert r[..|r| - 1] == NatToString(n / 10);
    }
  }

  /**
    * ToLong reads back what the %d conversion wrote, for every value a long can hold,
    * whatever non-digit text follows the number.
    */
  lemma {:induction false} ToLongIntToString(n: int, tail: string)
    requires LONG_MIN <= n <= LONG_MAX
    requires tail == [] || !IsDigit(tail[0])
    ensures ToLong(IntToString(n) + tail) == n
  {
    var m: nat := if n < 0 then -n else n;
    var digits := NatToString(m);
    DecimalValueOfNatToString(m);
    DigitRunPrefix(digits, tail);
    if n < 0 {
      ToLongNegative(digits, tail);
      assert IntToString(n) + tail == ['-'] + digits + tail;
    } else {
      ToLongPlain(digits, tail);
    }
  }

  lemma {:induction false} ToLongPlain(digits: string, tail: string)
    requires |digits| > 0 && DigitRun(digits + tail) == |digits|
    requires forall i :: 0 <= i < |digits| ==> IsDigit(digits[i])
    requires DecimalValue(digits) <= LONG_MAX
    ensures ToLong(digits + tail) == DecimalValue(digits)
  {
    var s := digits + tail;
    assert LeadingSpaces(s) == 0 by { assert IsDigit(s[0]); }
    assert s[0..] == s;
    assert s[..|digits|] == digits;
  }

  lemma {:induction false} ToLongNegative(digits: string, tail: string)
    requires |digits| > 0 && DigitRun(digits + tail) == |digits|
    requires forall i :: 0 <= i < |digits| ==> IsDigit(digits[i])
    requires DecimalValue(digits) <= -LONG_MIN
    ensures ToLong(['-'] + digits + tail) == 0 - DecimalValue(digits)
  {
    var s := ['-'] + digits + tail;
    assert LeadingSpaces(s) == 0 by { assert s[0] == '-'; }
    assert s[0..] == s;
    assert s[1..] == digits + tail;
    assert (digits + tail)[..|digits|] == digits;
  }

  lemma {:induction false} DigitRunPrefix(digits: string, tail: string)
    requires forall i :: 0 <= i < |digits| ==> IsDigit(digits[i])
    requires tail == [] || !IsDigit(tail[0])
    ensures DigitRun(digits + tail) == |digits|
    decreases |digits|
  {
    if digits != [] {
      DigitRunPrefix(digits[1..], tail);
      assert (digits + tail)[1..] == digits[1..] + tail;
    }
  }
}
