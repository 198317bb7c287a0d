/** String helpers that the Rust, C++ and Python code get from their standard libraries:
    decimal and hexadecimal formatting, ASCII case mapping and substring search.
    Strings are sequences of ASCII characters. */
module Strings {
  import opened Types

  predicate IsDigit(c: char) { '0' <= c <= '9' }

  predicate AllDigits(s: string) { forall i :: 0 <= i < |s| ==> IsDigit(s[i]) }

  function DigitChar(d: nat): (c: char)
    requires d < 10
    ensures IsDigit(c) && (c as int) - ('0' as int) == d
  {
    (('0' as int) + d) as char
  }

  /** `n.to_string()` / `format!("{}", n)`: the shortest decimal spelling of `n`. */
  function NatToString(n: nat): (s: string)
    decreases n
    ensures 1 <= |s| && AllDigits(s)
    ensures |s| > 1 ==> s[0] != '0'
    ensures n < 10 <==> |s| == 1
  {
    if n < 10 then [DigitChar(n)] else NatToString(n / 10) + [DigitChar(n % 10)]
  }

  /** The value of a string of decimal digits (`str::parse` for digit strings). */
  function DigitsValue(s: string): nat
    requires AllDigits(s)
    decreases |s|
  {
    if s == [] then 0
    else DigitsValue(s[..|s| - 1]) * 10 + ((s[|s| - 1] as int) - ('0' as int))
  }

  /** Reading back a printed number gives the number: printing is injective. */
  lemma {:induction false} DigitsValueOfNatToString(n: nat)
    ensures DigitsValue(NatToString(n)) == n
    decreases n
  {
    if n >= 10 {
      var s := NatToString(n);
      assert s[..|s| - 1] == NatToString(n / 10);
      DigitsValueOfNatToString(n / 10);
    }
  }

  lemma NatToStringInjective(a: nat, b: nat)
    requires NatToString(a) == NatToString(b)
    ensures a == b
  {
    DigitsValueOfNatToString(a);
    DigitsValueOfNatToString(b);
  }

  function Zeros(k: nat): (s: string)
    ensures |s| == k && forall i :: 0 <= i < k ==> s[i] == '0'
  {
    if k == 0 then [] else Zeros(k - 1) + ['0']
  }

  /** `format!("{:0w}", n)`: the decimal spelling, left-padded with zeros to width `w`. */
  function ZeroPadded(n: nat, w: nat): (s: string)
    ensures AllDigits(s)
    ensures |s| == if |NatToString(n)| < w then w else |NatToString(n)|
  {
    var d := NatToString(n);
    if |d| < w then Zeros(w - |d|) + d else d
  }

  /** Zero padding loses nothing: the padded spelling still has the value `n`. */
  lemma {:induction false} ZeroPaddedValue(n: nat, w: nat)
    ensures DigitsValue(ZeroPadded(n, w)) == n
  {
    var d := NatToString(n);
    DigitsValueOfNatToString(n);
    if |d| < w {
      assert ZeroPadded(n, w) == Zeros(w - |d|) + d;
      LeadingZerosValue(w - |d|, d);
    } else {
      assert ZeroPadded(n, w) == d;
    }
  }

  lemma {:induction false} LeadingZerosValue(k: nat, d: string)
    requires AllDigits(d)
    ensures DigitsValue(Zeros(k) + d) == DigitsValue(d)
    decreases |d|
  {
    if d == [] {
      assert Zeros(k) + d == Zeros(k);
      ZerosValue(k);
    } else {
      var s := Zeros(k) + d;
      assert s[..|s| - 1] == Zeros(k) + d[..|d| - 1];
      LeadingZerosValue(k, d[..|d| - 1]);
    }
  }

  lemma {:induction false} ZerosValue(k: nat)
    ensures DigitsValue(Zeros(k)) == 0
  {
    if k > 0 {
      assert Zeros(k)[..k - 1] == Zeros(k - 1);
      ZerosValue(k - 1);
    }
  }

  function Pow10(k: nat): nat
  {
    if k == 0 then 1 else 10 * Pow10(k - 1)
  }

  /** A number below 10^w takes at most `w` digits, so padding it to width `w` gives exactly
      `w` digits that read back as the number. */
  lemma {:induction false} ZeroPaddedFits(n: nat, w: nat)
    requires 1 <= w && n < Pow10(w)
    ensures |NatToString(n)| <= w
    ensures |ZeroPadded(n, w)| == w && DigitsValue(ZeroPadded(n, w)) == n
    decreases w
  {
    ZeroPaddedValue(n, w);
    if n >= 10 {
      assert w >= 2;
      assert n / 10 < Pow10(w - 1);
      ZeroPaddedFits(n / 10, w - 1);
      assert NatToString(n) == NatToString(n / 10) + [DigitChar(n % 10)];
    }
  }

  lemma ZeroPaddedInjective(a: nat, b: nat, w: nat)
    requires ZeroPadded(a, w) == ZeroPadded(b, w)
    ensures a == b
  {
    ZeroPaddedValue(a, w);
    ZeroPaddedValue(b, w);
  }

  /** The value of a lower-case hex digit, and 0 for any other character. */
  function HexValue(c: char): nat
  {
    if '0' <= c <= '9' then c as int - '0' as int
    else if 'a' <= c <= 'f' then c as int - 'a' as int + 10
    else 0
  }

  function HexDigit(d: nat): (c: char)
    requires d < 16
    ensures ('0' <= c <= '9' || 'a' <= c <= 'f') && HexValue(c) == d
  {
    if d < 10 then DigitChar(d) else (('a' as int) + d - 10) as char
  }

  /** A 16-bit value is the sum of its four hex digits' weights. */
  lemma HexSplit(v: nat)
    requires v < 0x10000
    ensures v / 4096 < 16 && v / 4096 * 4096 + v / 256 % 16 * 256 + v / 16 % 16 * 16 + v % 16 == v
  {
    var q := v / 16;
    assert v == q * 16 + v % 16;
    assert q == q / 16 * 16 + q % 16;
    assert q / 16 == v / 256;
    assert v / 256 == v / 256 / 16 * 16 + v / 256 % 16;
    assert v / 256 / 16 == v / 4096;
  }

  /** `format!("{:04x}", v)` for a 16-bit value: four lower-case hex digits that read back as `v`. */
  function Hex4(v: nat): (s: string)
    requires v < 0x10000
    ensures |s| == 4 && forall i :: 0 <= i < 4 ==> '0' <= s[i] <= '9' || 'a' <= s[i] <= 'f'
    ensures HexValue(s[0]) * 4096 + HexValue(s[1]) * 256 + HexValue(s[2]) * 16 + HexValue(s[3]) == v
  {
    HexSplit(v);
    [HexDigit(v / 4096), HexDigit(v / 256 % 16), HexDigit(v / 16 % 16), HexDigit(v % 16)]
  }

  function UpperChar(c: char): char
  {
    if 'a' <= c <= 'z' then (c as int - 32) as char else c
  }

  function LowerChar(c: char): char
  {
    if 'A' <= c <= 'Z' then (c as int + 32) as char else c
  }

  /** ASCII `to_uppercase` / `toupper` on every character. */
  function Upper(s: string): (r: string)
    ensures |r| == |s| && forall i :: 0 <= i < |s| ==> r[i] == UpperChar(s[i])
  {
    seq(|s|, i requires 0 <= i < |s| => UpperChar(s[i]))
  }

  /** ASCII `to_lowercase` on every character. */
  function Lower(s: string): (r: string)
    ensures |r| == |s| && forall i :: 0 <= i < |s| ==> r[i] == LowerChar(s[i])
  {
    seq(|s|, i requires 0 <= i < |s| => LowerChar(s[i]))
  }

  /** Upper-casing leaves no lower-case ASCII letter, and lower-casing no upper-case one. */
  lemma CaseFolded(s: string)
    ensures forall i :: 0 <= i < |s| ==> !('a' <= Upper(s)[i] <= 'z') && !('A' <= Lower(s)[i] <= 'Z')
  {
  }

  /** Upper-casing loses only case: lower-casing the result gives what lower-casing the input gives. */
  lemma LowerUpper(s: string)
    ensures Lower(Upper(s)) == Lower(s)
  {
    assert forall i :: 0 <= i < |s| ==> Lower(Upper(s))[i] == Lower(s)[i];
  }

  predicate IsPrefix(p: string, s: string)
  {
    |p| <= |s| && s[..|p|] == p
  }

  predicate OccursAt(s: string, pat: string, i: nat)
  {
    i + |pat| <= |s| && s[i..i + |pat|] == pat
  }

  /** `s.find(pat, from)`: the first position at or after `from` where `pat` occurs. */
  function IndexOf(s: string, pat: string, from: nat): (r: Option<nat>)
    decreases |s| - from
    ensures r.Some? ==> from <= r.value && OccursAt(s, pat, r.value)
    ensures r.Some? ==> forall k :: from <= k < r.value ==> !OccursAt(s, pat, k)
    ensures r.None? ==> forall k :: from <= k ==> !OccursAt(s, pat, k)
  {
    if from + |pat| > |s| then None
    else if s[from..from + |pat|] == pat then Some(from)
    else IndexOf(s, pat, from + 1)
  }

  /** `s.find_first_of(cs, from)`: the first position at or after `from` holding one of `cs`. */
  function IndexOfAny(s: string, cs: set<char>, from: nat): (r: Option<nat>)
    decreases |s| - from
    ensures r.Some? ==> from <= r.value < |s| && s[r.value] in cs
    ensures r.Some? ==> forall k :: from <= k < r.value ==> s[k] !in cs
    ensures r.None? ==> forall k :: from <= k < |s| ==> s[k] !in cs
  {
    if from >= |s| then None
    else if s[from] in cs then Some(from)
    else IndexOfAny(s, cs, from + 1)
  }

  /** Where `s.substr(from, s.find_first_of(cs, from) - from)` ends: at the first position at
      or after `from` holding one of `cs`, or at the end of `s` when there is none (`npos`). */
  function Until(s: string, cs: set<char>, from: nat): (e: nat)
    requires from <= |s|
    ensures from <= e <= |s| && (e < |s| ==> s[e] in cs)
    ensures forall k :: from <= k < e ==> s[k] !in cs
  {
    match IndexOfAny(s, cs, from)
    case Some(e) => e
    case None => |s|
  }

  /** `s.find_first_not_of(cs, from)`: the first position at or after `from` holding none of
      `cs`. */
  function IndexNotOf(s: string, cs: set<char>, from: nat): (r: Option<nat>)
    decreases |s| - from
    ensures r.Some? ==> from <= r.value < |s| && s[r.value] !in cs
    ensures r.Some? ==> forall k :: from <= k < r.value ==> s[k] in cs
    ensures r.None? ==> forall k :: from <= k < |s| ==> s[k] in cs
  {
    if from >= |s| then None
    else if s[from] !in cs then Some(from)
    else IndexNotOf(s, cs, from + 1)
  }

  /** `s.find_last_not_of(cs)` within the first `upto` characters: the last position before
      `upto` holding none of `cs`. */
  function LastIndexNotOf(s: string, cs: set<char>, upto: nat): (r: Option<nat>)
    requires upto <= |s|
    ensures r.Some? ==> r.value < upto && s[r.value] !in cs
    ensures r.Some? ==> forall k :: r.value < k < upto ==> s[k] in cs
    ensures r.None? ==> forall k :: 0 <= k < upto ==> s[k] in cs
  {
    if upto == 0 then None
    else if s[upto - 1] !in cs then Some(upto - 1)
    else LastIndexNotOf(s, cs, upto - 1)
  }

  /** C's `isspace` in the "C" locale: space, tab, line feed, vertical tab, form feed, return. */
  predicate IsSpace(c: char) { c == ' ' || '\t' <= c <= '\r' }

  /** The end of the run of white space that starts at `i`. */
  function SkipSpaces(s: string, i: nat): (j: nat)
    requires i <= |s|
    decreases |s| - i
    ensures i <= j <= |s| && (j < |s| ==> !IsSpace(s[j]))
    ensures forall k :: i <= k < j ==> IsSpace(s[k])
  {
    if i < |s| && IsSpace(s[i]) then SkipSpaces(s, i + 1) else i
  }

  /** The end of the run of decimal digits that starts at `i`. */
  function DigitsEnd(s: string, i: nat): (j: nat)
    requires i <= |s|
    decreases |s| - i
    ensures i <= j <= |s| && (j < |s| ==> !IsDigit(s[j]))
    ensures AllDigits(s[i..j])
  {
    if i < |s| && IsDigit(s[i]) then DigitsEnd(s, i + 1) else i
  }

  /** The range of C++'s 32-bit `int`. */
  const INT_MIN: int := -0x8000_0000
  const INT_MAX: int := 0x7FFF_FFFF

  /** `std::stoi(s)`, with `None` where it throws: leading white space is skipped, then an
      optional sign and the longest run of digits are read (whatever follows is ignored); no
      digit there throws `invalid_argument`, a value outside `int` throws `out_of_range`. */
  function Stoi(s: string): (r: Option<int>)
    ensures r.Some? ==> INT_MIN <= r.value <= INT_MAX
    ensures s == [] ==> r.None?
  {
    var i := SkipSpaces(s, 0);
    var j := if i < |s| && (s[i] == '+' || s[i] == '-') then i + 1 else i;
    var k := DigitsEnd(s, j);
    if k == j then None
    else
      var v: int := if i < j && s[i] == '-' then -(DigitsValue(s[j..k]) as int) else DigitsValue(s[j..k]);
      if INT_MIN <= v <= INT_MAX then Some(v) else None
  }

  /** A number in digits, followed by anything but a digit, reads as its value when that fits
      in an `int`, and throws otherwise. */
  lemma StoiOfDigits(d: string, rest: string)
    requires d != [] && AllDigits(d) && (rest == [] || !IsDigit(rest[0]))
    ensures Stoi(d + rest) == if DigitsValue(d) <= INT_MAX then Some(DigitsValue(d)) else None
  {
    var s := d + rest;
    assert SkipSpaces(s, 0) == 0;
    DigitsEndAfter(s, 0, |d|);
    assert s[0..|d|] == d;
  }

  /** The digit run of `s` from `i` ends at `n` when digits fill `s[i..n]` and none follows. */
  lemma {:induction false} DigitsEndAfter(s: string, i: nat, n: nat)
    requires i <= n <= |s| && AllDigits(s[i..n]) && (n == |s| || !IsDigit(s[n]))
    ensures DigitsEnd(s, i) == n
    decreases n - i
  {
    if i < n {
      assert IsDigit(s[i..n][0]);
      assert s[i + 1..n] == s[i..n][1..];
      DigitsEndAfter(s, i + 1, n);
    }
  }

  /** `stoi` reads back what `to_string` prints, for every value of `int` from 0 up. */
  lemma StoiOfNatToString(n: nat)
    requires n <= INT_MAX
    ensures Stoi(NatToString(n)) == Some(n)
  {
    DigitsValueOfNatToString(n);
    StoiOfDigits(NatToString(n), []);
    assert NatToString(n) + [] == NatToString(n);
  }

  /** A text that starts with neither white space, a sign nor a digit does not read as a number. */
  lemma StoiOfNonNumber(s: string)
    requires s != [] && !IsSpace(s[0]) && !IsDigit(s[0]) && s[0] != '+' && s[0] != '-'
    ensures Stoi(s) == None
  {
    assert SkipSpaces(s, 0) == 0;
  }

  /** `s.contains(pat)`. */
  predicate Contains(s: string, pat: string)
  {
    exists k :: 0 <= k <= |s| && OccursAt(s, pat, k)
  }

}
