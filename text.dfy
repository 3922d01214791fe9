/** The JavaScript string and array helpers the source relies on, over `seq<char>` and `seq<T>`. */
module Text {

  /** `s.startsWith(p)`. */
  predicate StartsWith(s: string, p: string) {
    |p| <= |s| && s[..|p|] == p
  }

  /** Position of the first `c` in `s`, or `|s|` when there is none. */
  function IndexOf(s: string, c: char): (i: nat)
    ensures i <= |s|
    ensures i < |s| ==> s[i] == c
    ensures forall k :: 0 <= k < i ==> s[k] != c
  {
    if |s| == 0 then 0
    else if s[0] == c then 0
    else 1 + IndexOf(s[1..], c)
  }

  /** The text before the first `c` (the whole string when `c` does not occur). */
  function TakeUntil(s: string, c: char): string {
    s[..IndexOf(s, c)]
  }

  /** `s.split(c)` for a one-character separator. */
  function Split(s: string, c: char): (r: seq<string>)
    ensures |r| >= 1
    ensures forall k :: 0 <= k < |r| ==> c !in r[k]
    ensures r[0] == TakeUntil(s, c)
    decreases |s|
  {
    var i := IndexOf(s, c);
    if i == |s| then [s]
    else [s[..i]] + Split(s[i + 1..], c)
  }

  /** The inverse of Split: `pieces.join(c)`. */
  function Join(pieces: seq<string>, c: char): string
    requires |pieces| >= 1
  {
    if |pieces| == 1 then pieces[0] else pieces[0] + [c] + Join(pieces[1..], c)
  }

  /** Splitting and joining again gives back the string: no character is lost or moved. */
  lemma {:induction false} JoinSplit(s: string, c: char)
    ensures Join(Split(s, c), c) == s
    decreases |s|
  {
    var i := IndexOf(s, c);
    if i < |s| {
      var rest := s[i + 1..];
      JoinCons(s[..i], Split(rest, c), c);
      JoinSplit(rest, c);
      assert s == s[..i] + [c] + rest;
    }
  }

  /** Joining a first piece in front of the others puts the separator between them. */
  lemma JoinCons(first: string, more: seq<string>, c: char)
    requires |more| >= 1
    ensures Join([first] + more, c) == first + [c] + Join(more, c)
  {
    assert ([first] + more)[1..] == more;
  }

  /** `s.split(sep)[0]` for a multi-character separator: the text before its first occurrence. */
  function BeforeFirst(s: string, sep: string): (r: string)
    requires |sep| > 0
    ensures StartsWith(s, r)
    ensures r == s || StartsWith(s[|r|..], sep)
    ensures forall i :: 0 <= i < |r| ==> !StartsWith(s[i..], sep)
    decreases |s|
  {
    if |s| == 0 || StartsWith(s, sep) then ""
    else
      var rest := BeforeFirst(s[1..], sep);
      assert forall i :: 1 <= i <= |rest| ==> s[i..] == s[1..][i - 1..];
      [s[0]] + rest
  }

  /** ASCII `toLowerCase` of one character. */
  function LowerChar(c: char): char {
    if 'A' <= c <= 'Z' then (c as int + 32) as char else c
  }

  predicate IsUpper(c: char) {
    'A' <= c <= 'Z'
  }

  /** `x` and `y` are the same character up to ASCII letter case. */
  predicate SameLetter(x: char, y: char) {
    x == y || (IsUpper(x) && y as int == x as int + 32) || (IsUpper(y) && x as int == y as int + 32)
  }

  /** Two strings that differ at most in the ASCII case of their letters. */
  predicate SameIgnoringCase(a: string, b: string) {
    |a| == |b| && forall i :: 0 <= i < |a| ==> SameLetter(a[i], b[i])
  }

  /** `s.toLowerCase()`, for the ASCII letters: the same text up to case, with no capital left. */
  function Lower(s: string): (r: string)
    ensures SameIgnoringCase(s, r)
    ensures forall i :: 0 <= i < |r| ==> !IsUpper(r[i])
  {
    seq(|s|, i requires 0 <= i < |s| => LowerChar(s[i]))
  }

  /** Lowering is idempotent. */
  lemma LowerIdempotent(s: string)
    ensures Lower(Lower(s)) == Lower(s)
  {
    var r := Lower(s);
    assert forall i :: 0 <= i < |r| ==> LowerChar(r[i]) == r[i];
  }

  /** Two strings lower to the same text exactly when they differ only in ASCII case, so a
      search on lowered texts ignores case on both sides. */
  lemma LowerIgnoresCase(a: string, b: string)
    ensures Lower(a) == Lower(b) <==> SameIgnoringCase(a, b)
  {
    if Lower(a) == Lower(b) {
      forall i | 0 <= i < |a| ensures SameLetter(a[i], b[i]) {
        assert Lower(a)[i] == Lower(b)[i];
      }
    }
    if SameIgnoringCase(a, b) {
      forall i | 0 <= i < |a| ensures Lower(a)[i] == Lower(b)[i] {
        assert SameLetter(a[i], b[i]);
      }
    }
  }

  /** `s.includes(sub)`. */
  predicate Contains(s: string, sub: string) {
    exists i :: 0 <= i <= |s| && StartsWith(s[i..], sub)
  }

  /** The index JavaScript's `slice` uses for a bound `b` on a list of length `n`. */
  function SliceBound(b: int, n: nat): (r: nat)
    ensures r <= n
    ensures 0 <= b ==> r == if b < n then b else n
    ensures b < 0 ==> r == if n + b < 0 then 0 else n + b
  {
    if b < 0 then (if n + b < 0 then 0 else n + b)
    else if b < n then b else n
  }

  /** `s.slice(start, end)`. */
  function JsSlice<T>(s: seq<T>, start: int, end: int): (r: seq<T>)
    ensures |r| <= |s|
    ensures 0 <= start ==> forall k :: 0 <= k < |r| ==> start + k < |s| && r[k] == s[start + k]
    ensures 0 <= start <= end ==>
      |r| == (if end < |s| then end else |s|) - (if start < |s| then start else |s|)
    ensures var from, to := SliceBound(start, |s|), SliceBound(end, |s|);
      && |r| == (if to <= from then 0 else to - from)
      && forall k :: 0 <= k < |r| ==> r[k] == s[from + k]
  {
    var from, to := SliceBound(start, |s|), SliceBound(end, |s|);
    if to <= from then [] else s[from..to]
  }

  /** `s.substring(0, n)`: the first `n` characters, or all of them. */
  function Prefix(s: string, n: nat): (r: string)
    ensures |r| <= n && StartsWith(s, r)
    ensures |s| <= n ==> r == s
    ensures |s| > n ==> |r| == n
  {
    if |s| <= n then s else s[..n]
  }

  predicate IsDigit(c: char) {
    '0' <= c <= '9'
  }

  /** `/^\d{6}$/.test(s)`: exactly six ASCII digits. */
  predicate IsSixDigits(s: string) {
    |s| == 6 && forall i :: 0 <= i < 6 ==> IsDigit(s[i])
  }

  /** A non-empty string of ASCII digits. */
  predicate IsDigits(s: string) {
    |s| > 0 && forall i :: 0 <= i < |s| ==> IsDigit(s[i])
  }

  /** `n.toString()` for a natural number. */
  function DecimalString(n: nat): (r: string)
    ensures |r| >= 1
    ensures forall i :: 0 <= i < |r| ==> IsDigit(r[i])
  {
    if n < 10 then ['0' + n as char]
    else DecimalString(n / 10) + ['0' + (n % 10) as char]
  }

  /** The number a string of digits denotes. */
  function DigitsValue(s: string): nat
    requires forall i :: 0 <= i < |s| ==> IsDigit(s[i])
  {
    if |s| == 0 then 0
    else
      assert IsDigit(s[|s| - 1]);
      10 * DigitsValue(s[..|s| - 1]) + (s[|s| - 1] as int - '0' as int) as nat
  }

  /** DecimalString is read back as the same number. */
  lemma {:induction false} DecimalRoundTrip(n: nat)
    ensures DigitsValue(DecimalString(n)) == n
  {
    if n >= 10 {
      var r := DecimalString(n);
      assert r[..|r| - 1] == DecimalString(n / 10);
      DecimalRoundTrip(n / 10);
    }
  }

  /** A number of six digits is written with exactly six characters. */
  lemma {:induction false} DecimalLength(n: nat, width: nat)
    requires width >= 1
    requires Pow10(width - 1) <= n < Pow10(width)
    ensures |DecimalString(n)| == width
  {
    if width > 1 {
      DecimalLength(n / 10, width - 1);
    }
  }

  /** A number from 100000 to 999999 is written with six digits and read back unchanged. */
  lemma SixDigitNumber(n: nat)
    requires 100000 <= n <= 999999
    ensures |DecimalString(n)| == 6
    ensures DigitsValue(DecimalString(n)) == n
  {
    assert Pow10(5) == 100000 && Pow10(6) == 1000000 by {
      assert Pow10(2) == 100;
      assert Pow10(4) == 10000;
    }
    DecimalLength(n, 6);
    DecimalRoundTrip(n);
  }

  function Pow10(k: nat): (r: nat)
    ensures r >= 1
  {
    if k == 0 then 1 else 10 * Pow10(k - 1)
  }
}
