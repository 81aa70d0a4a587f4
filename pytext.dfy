/** The few Python `str` primitives the gateway relies on, stated over `seq<char>`:
    `str.isspace`/`str.strip`, `str.lower` (ASCII letters), `str(int)`, `sep.join(xs)`,
    the prefix slice `s[:n]`, the truthiness of optional strings and integers, and
    the code-point order Python uses to compare and sort strings. */
module PyText {
  import opened Wrappers

  /** `c.isspace()` in Python 3: the ASCII whitespace and separator controls plus the
      Unicode space separators, line and paragraph separators. */
  predicate IsSpace(c: char) {
    || ('\t' <= c <= '\r')
    || ('\U{1c}' <= c <= '\U{1f}') || c == ' '
    || c == '\U{85}' || c == '\U{a0}' || c == '\U{1680}'
    || ('\U{2000}' <= c <= '\U{200a}')
    || c == '\U{2028}' || c == '\U{2029}' || c == '\U{202f}' || c == '\U{205f}' || c == '\U{3000}'
  }

  /** Leading whitespace removed: `r` is the longest suffix of `s` not starting with a space. */
  function TrimStart(s: string): (r: string)
    ensures |r| <= |s| && r == s[|s| - |r|..]
    ensures forall k :: 0 <= k < |s| - |r| ==> IsSpace(s[k])
    ensures r == [] || !IsSpace(r[0])
  {
    if |s| > 0 && IsSpace(s[0]) then TrimStart(s[1..]) else s
  }

  /** Trailing whitespace removed: `r` is the longest prefix of `s` not ending with a space. */
  function TrimEnd(s: string): (r: string)
    ensures |r| <= |s| && r == s[..|r|]
    ensures forall k :: |r| <= k < |s| ==> IsSpace(s[k])
    ensures r == [] || !IsSpace(r[|r| - 1])
  {
    if |s| > 0 && IsSpace(s[|s| - 1]) then TrimEnd(s[..|s| - 1]) else s
  }

  /** `s.strip()`. */
  function Strip(s: string): string {
    TrimEnd(TrimStart(s))
  }

  /** A string that neither starts nor ends with whitespace. */
  predicate IsStripped(s: string) {
    s == [] || (!IsSpace(s[0]) && !IsSpace(s[|s| - 1]))
  }

  /** `s[i..j]` is `s` with only whitespace cut away on either side. */
  predicate SpaceCut(s: string, i: int, j: int) {
    && 0 <= i <= j <= |s|
    && (forall k :: 0 <= k < i ==> IsSpace(s[k]))
    && (forall k :: j <= k < |s| ==> IsSpace(s[k]))
  }

  /** The stripped string is a slice of the input with only whitespace cut away on either side,
      and it has no whitespace left at either end. */
  lemma StripShape(s: string)
    ensures IsStripped(Strip(s))
    ensures exists i, j {:trigger SpaceCut(s, i, j)} :: SpaceCut(s, i, j) && Strip(s) == s[i..j]
  {
    TrimmedCut(s, TrimStart(s), Strip(s));
    StripEnds(s);
  }

  /** Cutting leading whitespace off `s` to get `t`, then trailing whitespace off `t` to get
      `r`, leaves a slice of `s` with only whitespace cut away on either side. */
  lemma TrimmedCut(s: string, t: string, r: string)
    requires |t| <= |s| && t == s[|s| - |t|..]
    requires forall k :: 0 <= k < |s| - |t| ==> IsSpace(s[k])
    requires |r| <= |t| && r == t[..|r|]
    requires forall k :: |r| <= k < |t| ==> IsSpace(t[k])
    ensures exists i, j {:trigger SpaceCut(s, i, j)} :: SpaceCut(s, i, j) && r == s[i..j]
  {
    var i := |s| - |t|;
    forall k | i + |r| <= k < |s| ensures IsSpace(s[k]) {
      assert s[k] == t[k - i];
    }
    assert SpaceCut(s, i, i + |r|) && r == s[i..i + |r|];
  }

  /** `Strip` leaves no whitespace at either end. */
  lemma StripEnds(s: string)
    ensures IsStripped(Strip(s))
  {
    var t := TrimStart(s);
    var r := TrimEnd(t);
    assert r != [] ==> r[0] == t[0];
  }

  lemma {:induction false} TrimStartOfStripped(s: string)
    requires s == [] || !IsSpace(s[0])
    ensures TrimStart(s) == s
  {
  }

  lemma {:induction false} TrimEndOfStripped(s: string)
    requires s == [] || !IsSpace(s[|s| - 1])
    ensures TrimEnd(s) == s
  {
  }

  /** `s.strip().strip() == s.strip()`. */
  lemma StripIdempotent(s: string)
    ensures Strip(Strip(s)) == Strip(s)
  {
    StripShape(s);
    var r := Strip(s);
    TrimStartOfStripped(r);
    TrimEndOfStripped(r);
  }

  /** `c.lower()` for ASCII letters; every other character is left as it is. */
  function LowerChar(c: char): char {
    if 'A' <= c <= 'Z' then (c as int + 32) as char else c
  }

  /** `s.lower()`, character by character. */
  function Lower(s: string): (r: string)
    ensures |r| == |s|
    ensures forall k :: 0 <= k < |s| ==> r[k] == LowerChar(s[k])
  {
    seq(|s|, k requires 0 <= k < |s| => LowerChar(s[k]))
  }

  /** Lower-casing is idempotent and leaves a string without ASCII capitals unchanged. */
  lemma LowerIdempotent(s: string)
    ensures Lower(Lower(s)) == Lower(s)
  {
  }

  function DigitChar(d: nat): char
    requires d < 10
  {
    "0123456789"[d]
  }

  /** `str(n)` for a non-negative integer: its decimal digits, most significant first. */
  function NatToString(n: nat): (r: string)
    ensures |r| >= 1
    ensures forall k :: 0 <= k < |r| ==> '0' <= r[k] <= '9'
    decreases n
  {
    if n < 10 then [DigitChar(n)] else NatToString(n / 10) + [DigitChar(n % 10)]
  }

  /** `str(i)` for any integer. */
  function IntToString(i: int): (r: string)
    ensures |r| >= 1
    ensures (r[0] == '-') <==> i < 0
  {
    if i < 0 then "-" + NatToString(-i) else NatToString(i)
  }

  /** `sep.join(xs)`. */
  function Join(sep: string, xs: seq<string>): string
    decreases |xs|
  {
    if |xs| == 0 then ""
    else if |xs| == 1 then xs[0]
    else xs[0] + sep + Join(sep, xs[1..])
  }

  /** `s[:n]` with Python's slice rules: a negative `n` counts from the end, and both ends
      are clamped to the string. */
  function SlicePrefix(s: string, n: int): (r: string)
    ensures |r| <= |s| && r == s[..|r|]
    ensures 0 <= n ==> |r| == if n < |s| then n else |s|
    ensures n < 0 ==> |r| == if |s| + n < 0 then 0 else |s| + n
  {
    if 0 <= n then (if n < |s| then s[..n] else s)
    else if |s| + n < 0 then [] else s[..|s| + n]
  }

  /** The truth value of an `Optional[str]`: neither `None` nor the empty string. */
  predicate TruthyStr(o: Option<string>) {
    o.Some? && o.value != ""
  }

  /** The truth value of an `Optional[int]`: neither `None` nor zero. */
  predicate TruthyInt(o: Option<int>) {
    o.Some? && o.value != 0
  }

  /** `round(x)` on an exactly represented value: the nearest integer, ties to even. */
  function RoundHalfEven(x: real): (n: int)
    ensures x - 0.5 <= n as real <= x + 0.5
    ensures (n as real - x == 0.5 || x - n as real == 0.5) ==> n % 2 == 0
    ensures 0.0 <= x ==> 0 <= n
  {
    var f := x.Floor;
    var frac := x - f as real;
    if frac < 0.5 then f
    else if frac > 0.5 then f + 1
    else if f % 2 == 0 then f else f + 1
  }

  function Pow10(k: nat): (p: nat)
    ensures p >= 1
  {
    if k == 0 then 1 else 10 * Pow10(k - 1)
  }

  /** The last `width` decimal digits of `n`, zero-padded on the left. */
  function PaddedDigits(n: nat, width: nat): (r: string)
    ensures |r| == width
    ensures forall k :: 0 <= k < |r| ==> '0' <= r[k] <= '9'
  {
    if width == 0 then "" else PaddedDigits(n / 10, width - 1) + [DigitChar(n % 10)]
  }

  lemma NatDivision(a: nat, b: nat)
    requires b > 0
    ensures 0 <= a / b && 0 <= a % b < b
  {
  }

  /** `|x|` in units of the last of `places` decimals, rounded half to even. */
  function ScaledMagnitude(x: real, places: nat): nat {
    RoundHalfEven(if x < 0.0 then -x * Pow10(places) as real else x * Pow10(places) as real)
  }

  /** `f"{x:.{places}f}"` for a value held exactly: rounded to `places` decimals (ties to
      even), a minus sign for a negative value, then the whole part, a point and exactly
      `places` digits. */
  function FormatFixed(x: real, places: nat): (r: string)
    requires places >= 1
    ensures |r| >= places + 2 && r[|r| - places - 1] == '.'
    ensures forall k :: |r| - places <= k < |r| ==> '0' <= r[k] <= '9'
    ensures r[0] == '-' <==> x < 0.0
  {
    var scaled := ScaledMagnitude(x, places);
    var p := Pow10(places);
    NatDivision(scaled, p);
    var sign := if x < 0.0 then "-" else "";
    var whole := NatToString(scaled / p);
    var digits := PaddedDigits(scaled % p, places);
    var head := sign + whole + ".";
    assert |head| == |sign| + |whole| + 1 && head[|head| - 1] == '.';
    assert head[0] == (if x < 0.0 then '-' else whole[0]);
    var r := head + digits;
    assert forall k :: |head| <= k < |r| ==> r[k] == digits[k - |head|];
    r
  }

  /** A whole number is written with its decimal digits followed by `.0`. */
  lemma FormatFixedWhole(n: nat)
    ensures FormatFixed(n as real, 1) == NatToString(n) + ".0"
  {
    var w := NatToString(n);
    var scaled := ScaledMagnitude(n as real, 1);
    assert scaled / Pow10(1) == n && scaled % Pow10(1) == 0 by { ScaleWhole(n); }
    assert PaddedDigits(0, 1) == "0" by { assert PaddedDigits(0, 0) == ""; }
    assert FormatFixed(n as real, 1) == "" + w + "." + "0";
    assert "" + w + "." + "0" == w + ".0";
  }

  /** Scaling a whole number by ten for one decimal place leaves nothing to round and a
      zero fractional digit. */
  lemma ScaleWhole(n: nat)
    ensures Pow10(1) == 10
    ensures ScaledMagnitude(n as real, 1) / 10 == n && ScaledMagnitude(n as real, 1) % 10 == 0
  {
    assert Pow10(0) == 1;
    assert n as real * 10 as real == (10 * n) as real;
    assert ((10 * n) as real).Floor == 10 * n;
    assert ScaledMagnitude(n as real, 1) == 10 * n;
  }

  /** `a < b` on Python strings: lexicographic order on code points. */
  predicate LexLess(a: string, b: string)
    decreases |a|
  {
    if |a| == 0 then |b| > 0
    else if |b| == 0 then false
    else if a[0] != b[0] then a[0] < b[0]
    else LexLess(a[1..], b[1..])
  }

  lemma {:induction false} LexLessIrreflexive(a: string)
    ensures !LexLess(a, a)
    decreases |a|
  {
    if |a| > 0 {
      LexLessIrreflexive(a[1..]);
    }
  }

  lemma {:induction false} LexLessAsymmetric(a: string, b: string)
    requires LexLess(a, b)
    ensures !LexLess(b, a)
    decreases |a|
  {
    if |a| > 0 && |b| > 0 && a[0] == b[0] {
      LexLessAsymmetric(a[1..], b[1..]);
    }
  }

  lemma {:induction false} LexLessTransitive(a: string, b: string, c: string)
    requires LexLess(a, b) && LexLess(b, c)
    ensures LexLess(a, c)
    decreases |a|
  {
    if |a| > 0 && a[0] == b[0] && b[0] == c[0] {
      LexLessTransitive(a[1..], b[1..], c[1..]);
    }
  }

  lemma {:induction false} LexLessTotal(a: string, b: string)
    requires a != b
    ensures LexLess(a, b) || LexLess(b, a)
    decreases |a|
  {
    if |a| > 0 && |b| > 0 && a[0] == b[0] {
      assert a == [a[0]] + a[1..] && b == [b[0]] + b[1..];
      LexLessTotal(a[1..], b[1..]);
    }
  }
}
