/** The pieces of Go's `strings` and `fmt` packages the core relies on.
    A Dafny `string` here stands for a Go string: each char is one byte, so
    `|s|` is what Go's `len(s)` returns.  Whitespace and letter case are the
    ASCII ones. */
module Strings {

  /** ASCII white space as `unicode.IsSpace` sees it: '\t', '\n', '\v', '\f',
      '\r' and ' '. */
  predicate IsSpace(c: char) {
    c == ' ' || c == '\t' || c == '\n' || c == '\U{000B}' || c == '\U{000C}' || c == '\r'
  }

  /** The index of the first byte at or after `i` that is not white space
      (`|s|` when there is none). */
  function Lead(s: string, i: nat): (k: nat)
    requires i <= |s|
    ensures i <= k <= |s|
    ensures forall j :: i <= j < k ==> IsSpace(s[j])
    ensures k < |s| ==> !IsSpace(s[k])
    decreases |s| - i
  {
    if i < |s| && IsSpace(s[i]) then Lead(s, i + 1) else i
  }

  /** The end of `s[lo..e]` once its trailing white space is dropped. */
  function End(s: string, lo: nat, e: nat): (k: nat)
    requires lo <= e <= |s|
    ensures lo <= k <= e
    ensures forall j :: k <= j < e ==> IsSpace(s[j])
    ensures k > lo ==> !IsSpace(s[k - 1])
    decreases e
  {
    if e > lo && IsSpace(s[e - 1]) then End(s, lo, e - 1) else e
  }

  /** `strings.TrimLeftFunc(s, unicode.IsSpace)`. */
  function TrimLeft(s: string): (r: string)
    ensures |r| <= |s| && r == s[|s| - |r|..]
    ensures forall i :: 0 <= i < |s| - |r| ==> IsSpace(s[i])
    ensures r == [] || !IsSpace(r[0])
  {
    s[Lead(s, 0)..]
  }

  /** `strings.TrimRightFunc(s, unicode.IsSpace)`. */
  function TrimRight(s: string): (r: string)
    ensures |r| <= |s| && r == s[..|r|]
    ensures forall i :: |r| <= i < |s| ==> IsSpace(s[i])
    ensures r == [] || !IsSpace(r[|r| - 1])
  {
    s[..End(s, 0, |s|)]
  }

  /** `strings.TrimSpace`: the input with leading and trailing white space
      removed. The result is the slice `s[k..k + |r|]` where `k` counts the
      leading white space; everything outside it is white space, and the
      result neither starts nor ends with white space. */
  function TrimSpace(s: string): (r: string)
    ensures var k := |s| - |TrimLeft(s)|;
      && k + |r| <= |s|
      && r == s[k..k + |r|]
      && (forall i :: 0 <= i < k ==> IsSpace(s[i]))
      && (forall i :: k + |r| <= i < |s| ==> IsSpace(s[i]))
    ensures r != [] ==> !IsSpace(r[0]) && !IsSpace(r[|r| - 1])
  {
    var k := Lead(s, 0);
    s[k..End(s, k, |s|)]
  }

  /** The trimmed text is empty exactly when every byte is white space. */
  lemma TrimSpaceEmptyIff(s: string)
    ensures TrimSpace(s) == [] <==> forall i :: 0 <= i < |s| ==> IsSpace(s[i])
  {
  }

  /** Trimming twice is trimming once. */
  lemma TrimSpaceIdempotent(s: string)
    ensures TrimSpace(TrimSpace(s)) == TrimSpace(s)
  {
    var r := TrimSpace(s);
    if r != [] {
      assert TrimLeft(r) == r;
      assert TrimRight(r) == r;
    }
  }

  predicate IsPrefix(p: string, s: string) {
    |p| <= |s| && s[..|p|] == p
  }

  /** `strings.Contains(s, p)`: `p` occurs somewhere in `s`. */
  predicate Contains(s: string, p: string)
    decreases |s|
  {
    IsPrefix(p, s) || (|s| > 0 && Contains(s[1..], p))
  }

  /** Every byte of a contained pattern occurs in the text. */
  lemma {:induction false} ContainsChar(s: string, p: string, c: char)
    requires Contains(s, p) && c in p
    ensures c in s
    decreases |s|
  {
    if IsPrefix(p, s) {
      var i :| 0 <= i < |p| && p[i] == c;
      assert s[i] == c;
    } else {
      ContainsChar(s[1..], p, c);
      var i :| 0 <= i < |s[1..]| && s[1..][i] == c;
      assert s[i + 1] == c;
    }
  }

  /** A text only contains patterns no longer than itself. */
  lemma {:induction false} ContainsLength(s: string, p: string)
    ensures Contains(s, p) ==> |p| <= |s|
    decreases |s|
  {
    if Contains(s, p) && !IsPrefix(p, s) {
      ContainsLength(s[1..], p);
    }
  }

  /** A text contains every one of its own slices. */
  lemma {:induction false} ContainsSlice(s: string, i: nat, j: nat)
    requires i <= j <= |s|
    ensures Contains(s, s[i..j])
    decreases i
  {
    if i == 0 {
      assert IsPrefix(s[..j], s);
    } else {
      ContainsSlice(s[1..], i - 1, j - 1);
      var a := s[1..][i - 1..j - 1];
      forall k | 0 <= k < |a| ensures a[k] == s[i..j][k] {
        assert a[k] == s[i + k];
      }
      assert a == s[i..j];
    }
  }

  function Lower(c: char): char {
    if 'A' <= c <= 'Z' then (c as int + 32) as char else c
  }

  /** `strings.ToLower`, byte by byte. */
  function ToLower(s: string): (r: string)
    ensures |r| == |s|
    ensures forall i :: 0 <= i < |s| ==> r[i] == Lower(s[i])
  {
    seq(|s|, i requires 0 <= i < |s| => Lower(s[i]))
  }

  predicate IsDigit(c: char) {
    '0' <= c <= '9'
  }

  /** The decimal digits of a natural number, most significant first. */
  function Digits(n: nat): (r: string)
    ensures |r| >= 1
    ensures forall i :: 0 <= i < |r| ==> IsDigit(r[i])
    decreases n
  {
    var d := "0123456789"[n % 10];
    if n < 10 then [d] else Digits(n / 10) + [d]
  }

  /** `fmt.Sprintf("%d", n)`: an optional minus sign, then digits. */
  function Decimal(n: int): (r: string)
    ensures forall i :: 0 <= i < |r| ==> IsDigit(r[i]) || (i == 0 && r[i] == '-')
    ensures n >= 0 ==> r == Digits(n)
  {
    if n < 0 then "-" + Digits(-n) else Digits(n)
  }
}
