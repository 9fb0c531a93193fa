/** The few ASCII string operations the sources rely on. */
module Strings {

  function UpperChar(c: char): char {
    if 'a' <= c <= 'z' then c - 'a' + 'A' else c
  }

  function Upper(s: string): (r: string)
    ensures |r| == |s|
  {
    seq(|s|, i requires 0 <= i < |s| => UpperChar(s[i]))
  }

  function LowerChar(c: char): char {
    if 'A' <= c <= 'Z' then c - 'A' + 'a' else c
  }

  function Lower(s: string): (r: string)
    ensures |r| == |s|
  {
    seq(|s|, i requires 0 <= i < |s| => LowerChar(s[i]))
  }

  lemma CaseTwice(s: string)
    ensures Upper(Upper(s)) == Upper(s) && Lower(Upper(s)) == Lower(s) && Lower(Lower(s)) == Lower(s)
  {
  }

  /** `str` of an integer. */
  function Decimal(n: int): (s: string)
    ensures s != "" && !IsSpace(s[0]) && !IsSpace(s[|s| - 1])
    decreases n < 0, if n < 0 then -n else n
  {
    if n < 0 then "-" + Decimal(-n)
    else if n < 10 then ['0' + n as char]
    else Decimal(n / 10) + ['0' + (n % 10) as char]
  }

  /** Python's `<` on strings: by code point, a proper prefix first. */
  predicate LexLess(a: string, b: string) {
    if b == "" then false
    else if a == "" then true
    else a[0] < b[0] || (a[0] == b[0] && LexLess(a[1..], b[1..]))
  }

  predicate IsSpace(c: char) {
    c == ' ' || '\U{09}' <= c <= '\U{0D}' || '\U{1C}' <= c <= '\U{1F}'
  }

  function StripLeft(s: string): (r: string)
    ensures |r| <= |s|
    ensures r != "" ==> !IsSpace(r[0]) && r[|r| - 1] == s[|s| - 1]
    ensures s != "" && !IsSpace(s[0]) ==> r == s
  {
    if s != "" && IsSpace(s[0]) then StripLeft(s[1..]) else s
  }

  function StripRight(s: string): (r: string)
    ensures |r| <= |s|
    ensures r != "" ==> !IsSpace(r[|r| - 1]) && r[0] == s[0]
    ensures s != "" && !IsSpace(s[|s| - 1]) ==> r == s
  {
    if s != "" && IsSpace(s[|s| - 1]) then StripRight(s[..|s| - 1]) else s
  }

  /** `str.strip` on ASCII white space. */
  function Strip(s: string): (r: string)
    ensures |r| <= |s|
    ensures r != "" ==> !IsSpace(r[0]) && !IsSpace(r[|r| - 1])
    ensures s != "" && !IsSpace(s[0]) && !IsSpace(s[|s| - 1]) ==> r == s
  {
    StripRight(StripLeft(s))
  }

  lemma {:induction false} LexIsOrder(a: string, b: string, c: string)
    ensures !(LexLess(a, b) && LexLess(b, a)) && !LexLess(a, a)
    ensures !LexLess(a, b) && !LexLess(b, c) ==> !LexLess(a, c)
    ensures !LexLess(a, b) && !LexLess(b, a) ==> a == b
  {
    if a != "" && b != "" && c != "" {
      LexIsOrder(a[1..], b[1..], c[1..]);
    } else if a != "" && b != "" {
      LexIsOrder(a[1..], b[1..], "");
    } else if a != "" {
      LexIsOrder(a[1..], "", "");
    }
  }

  // --- what they are -----------------------------------------------------------------------------

  const CAPITALS := "ABCDEFGHIJKLMNOPQRSTUVWXYZ"
  const SMALL := "abcdefghijklmnopqrstuvwxyz"

  /** Letter by letter; everything else is kept. */
  lemma CaseMeans(s: string, i: nat)
    requires i < |s|
    ensures forall k :: 0 <= k < 26 && (s[i] == CAPITALS[k] || s[i] == SMALL[k]) ==>
      Upper(s)[i] == CAPITALS[k] && Lower(s)[i] == SMALL[k]
    ensures s[i] !in CAPITALS && s[i] !in SMALL ==> Upper(s)[i] == Lower(s)[i] == s[i]
  {
    assert forall k :: 0 <= k < 26 ==> CAPITALS[k] == 'A' + k as char && SMALL[k] == 'a' + k as char;
    if 'A' <= s[i] <= 'Z' {
      assert CAPITALS[s[i] as int - 'A' as int] == s[i];
    } else if 'a' <= s[i] <= 'z' {
      assert SMALL[s[i] as int - 'a' as int] == s[i];
    }
  }

  /** Tab to carriage return, the four separators, and the blank. */
  ghost predicate WhiteChar(c: char) {
    var n := c as int;
    n == 9 || n == 10 || n == 11 || n == 12 || n == 13 || n == 28 || n == 29 || n == 30 || n == 31 || n == 32
  }

  ghost predicate White(s: string) {
    forall i :: 0 <= i < |s| ==> WhiteChar(s[i])
  }

  lemma {:induction false} LeftIs(s: string) returns (left: string)
    ensures White(left) && s == left + StripLeft(s)
  {
    left := "";
    if s != "" && IsSpace(s[0]) {
      left := LeftIs(s[1..]);
      left := [s[0]] + left;
    }
  }

  lemma {:induction false} RightIs(s: string) returns (right: string)
    ensures White(right) && s == StripRight(s) + right
  {
    right := "";
    if s != "" && IsSpace(s[|s| - 1]) {
      right := RightIs(s[..|s| - 1]);
      right := right + [s[|s| - 1]];
    }
  }

  /** Nothing but white space goes, and all of it on either side. */
  lemma StripMeans(s: string) returns (left: string, right: string)
    ensures White(left) && White(right) && s == left + (Strip(s) + right)
    ensures Strip(s) != "" ==> !WhiteChar(Strip(s)[0]) && !WhiteChar(Strip(s)[|Strip(s)| - 1])
  {
    left := LeftIs(s);
    right := RightIs(StripLeft(s));
    if Strip(s) != "" {
      assert !IsSpace(Strip(s)[0]) && !IsSpace(Strip(s)[|Strip(s)| - 1]);
    }
  }

  /** The first k characters agree, and then `a` ends or has the smaller one. */
  ghost predicate PartsAt(a: string, b: string, k: nat) {
    && k < |b| && k <= |a| && a[..k] == b[..k]
    && (k == |a| || a[k] as int < b[k] as int)
  }

  lemma {:induction false} LexMeans(a: string, b: string)
    ensures LexLess(a, b) <==> exists k :: PartsAt(a, b, k)
  {
    if a == "" {
      if b != "" { assert PartsAt(a, b, 0); }
    } else if b != "" {
      LexMeans(a[1..], b[1..]);
      if a[0] < b[0] { assert PartsAt(a, b, 0); }
      if k: nat :| a[0] == b[0] && PartsAt(a[1..], b[1..], k) {
        assert a[..k + 1] == [a[0]] + a[1..][..k] && b[..k + 1] == [b[0]] + b[1..][..k];
        assert PartsAt(a, b, k + 1);
      }
      if k: nat :| PartsAt(a, b, k) {
        if k > 0 {
          assert a[0] == a[..k][0] == b[..k][0] == b[0];
          assert a[1..][..k - 1] == a[..k][1..] && b[1..][..k - 1] == b[..k][1..];
          assert PartsAt(a[1..], b[1..], k - 1);
        }
      }
    }
  }
}
