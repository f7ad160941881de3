/**
 * The Python built-ins that the emulator's core relies on, written out so that
 * the rest of the model can use them with their Python meaning: whitespace
 * classification, `str.split(c)`, `str.split()`, `str.strip()`, `str.join`,
 * ASCII upper-casing, `int(s, base)`, `hex`/`bin`/`str` of a natural number,
 * the bitwise `&` on unbounded integers, and list indexing (including Python's
 * negative indices).
 */
module Builtins {

  datatype Option<+T> = None | Some(value: T)

  datatype Result<+T, +E> = Ok(value: T) | Err(error: E)

  // ---------------------------------------------------------------------------
  // Characters

  /** `str.isspace()` for a one-character string. */
  predicate IsSpace(c: char) {
    c == ' ' || ('\t' <= c <= '\r') || ('\U{1c}' <= c <= '\U{1f}')
    || c == '\U{85}' || c == '\U{a0}' || c == '\U{1680}'
    || ('\U{2000}' <= c <= '\U{200a}') || c == '\U{2028}' || c == '\U{2029}'
    || c == '\U{202f}' || c == '\U{205f}' || c == '\U{3000}'
  }

  /** `str.isdigit()`, restricted to ASCII. */
  predicate IsDigit(c: char) { '0' <= c <= '9' }

  /** `str.isalpha()`, restricted to ASCII. */
  predicate IsAlpha(c: char) { 'a' <= c <= 'z' || 'A' <= c <= 'Z' }

  /** `str.isalnum()`, restricted to ASCII. */
  predicate IsAlnum(c: char) { IsAlpha(c) || IsDigit(c) }

  /** `str.upper()` of one character, restricted to ASCII. */
  function UpperChar(c: char): char {
    if 'a' <= c <= 'z' then (c as int - 'a' as int + 'A' as int) as char else c
  }

  /** `str.upper()`, restricted to ASCII. */
  function Upper(s: string): string {
    seq(|s|, i requires 0 <= i < |s| => UpperChar(s[i]))
  }

  /** Text without lower-case letters is its own upper case. */
  lemma UpperKeeps(s: string)
    requires forall k :: 0 <= k < |s| ==> !('a' <= s[k] <= 'z')
    ensures Upper(s) == s
  {
  }

  // ---------------------------------------------------------------------------
  // Splitting, joining, stripping

  /** The position of the first `c` in `s`, if there is one. */
  function IndexOf(s: string, c: char): (r: Option<nat>)
    ensures r.None? <==> c !in s
    ensures r.Some? ==> r.value < |s| && s[r.value] == c && c !in s[..r.value]
  {
    if |s| == 0 then None
    else if s[0] == c then Some(0)
    else
      match IndexOf(s[1..], c)
      case None => None
      case Some(k) => assert s[..k + 1] == [s[0]] + s[1..][..k]; Some(k + 1)
  }

  /** `s.split(c)[0]`: the text before the first `c`, or all of `s`. */
  function Before(s: string, c: char): (r: string)
    ensures c !in r && r <= s
    ensures c in s ==> s[|r|] == c
  {
    match IndexOf(s, c)
    case None => s
    case Some(k) => s[..k]
  }

  /** `s.split(c, 1)[1]`: the text after the first `c`. */
  function After(s: string, c: char): (r: string)
    requires c in s
    ensures s == Before(s, c) + [c] + r
  {
    var k := IndexOf(s, c).value;
    assert s == s[..k] + [c] + s[k + 1..];
    s[k + 1..]
  }

  /** `s.split(c)`: the pieces between the occurrences of `c`, empty pieces kept. */
  function SplitOn(s: string, c: char): (r: seq<string>)
    ensures |r| >= 1 && r[0] == Before(s, c)
    ensures forall i :: 0 <= i < |r| ==> c !in r[i]
    decreases |s|
  {
    if c in s then
      var rest := SplitOn(After(s, c), c);
      NoneContains([Before(s, c)], rest, c);
      [Before(s, c)] + rest
    else [s]
  }

  lemma NoneContains(a: seq<string>, b: seq<string>, c: char)
    requires forall i :: 0 <= i < |a| ==> c !in a[i]
    requires forall i :: 0 <= i < |b| ==> c !in b[i]
    ensures forall i :: 0 <= i < |a + b| ==> c !in (a + b)[i]
  {
    forall i | 0 <= i < |a + b| ensures c !in (a + b)[i] {
      if i >= |a| { assert (a + b)[i] == b[i - |a|]; }
    }
  }

  /** `c.join(parts)`. */
  function Join(parts: seq<string>, c: char): string
    decreases |parts|
  {
    if |parts| == 0 then ""
    else if |parts| == 1 then parts[0]
    else parts[0] + [c] + Join(parts[1..], c)
  }

  /** Splitting undoes joining when no part contains the separator. */
  lemma {:induction false} SplitJoin(parts: seq<string>, c: char)
    requires |parts| >= 1
    requires forall i :: 0 <= i < |parts| ==> c !in parts[i]
    ensures SplitOn(Join(parts, c), c) == parts
    decreases |parts|
  {
    if |parts| > 1 {
      var s := Join(parts, c);
      var rest := Join(parts[1..], c);
      assert s == parts[0] + [c] + rest;
      assert s[|parts[0]|] == c;
      assert c in s;
      BeforeOfConcat(parts[0], c, rest);
      SplitJoin(parts[1..], c);
    } else {
      assert Join(parts, c) == parts[0];
    }
  }

  /** Joining undoes splitting. */
  lemma {:induction false} JoinSplit(s: string, c: char)
    ensures Join(SplitOn(s, c), c) == s
    decreases |s|
  {
    if c in s {
      var rest := After(s, c);
      JoinSplit(rest, c);
    }
  }

  /** `split` of a piece, the separator and more text: the piece, then the pieces of the rest. */
  lemma SplitOnCons(a: string, c: char, rest: string)
    requires c !in a
    ensures SplitOn(a + [c] + rest, c) == [a] + SplitOn(rest, c)
  {
    BeforeOfConcat(a, c, rest);
  }

  /** `split` of text without the separator is that text alone. */
  lemma SplitOnNone(s: string, c: char)
    requires c !in s
    ensures SplitOn(s, c) == [s]
  {
  }

  lemma BeforeOfConcat(a: string, c: char, b: string)
    requires c !in a
    ensures c in a + [c] + b
    ensures Before(a + [c] + b, c) == a && After(a + [c] + b, c) == b
  {
    var s := a + [c] + b;
    assert s[|a|] == c;
  }

  /** The leading whitespace of `s` removed. */
  function TrimLeft(s: string): (r: string)
    ensures |r| <= |s| && r == s[|s| - |r|..]
    ensures forall k :: 0 <= k < |s| - |r| ==> IsSpace(s[k])
    ensures r == [] || !IsSpace(r[0])
    decreases |s|
  {
    if |s| > 0 && IsSpace(s[0]) then TrimLeft(s[1..]) else s
  }

  /** The trailing whitespace of `s` removed. */
  function TrimRight(s: string): (r: string)
    ensures |r| <= |s| && r == s[..|r|]
    ensures forall k :: |r| <= k < |s| ==> IsSpace(s[k])
    ensures r == [] || !IsSpace(r[|r| - 1])
    decreases |s|
  {
    if |s| > 0 && IsSpace(s[|s| - 1]) then TrimRight(s[..|s| - 1]) else s
  }

  /** `s.strip()`. */
  function Strip(s: string): (r: string)
    ensures r == [] || (!IsSpace(r[0]) && !IsSpace(r[|r| - 1]))
  {
    TrimRight(TrimLeft(s))
  }

  /** Stripping leaves text with no whitespace at either end as it is. */
  lemma StripTrimmed(t: string)
    requires t == [] || (!IsSpace(t[0]) && !IsSpace(t[|t| - 1]))
    ensures Strip(t) == t
  {
    assert TrimLeft(t) == t;
    assert TrimRight(t) == t;
  }

  /** Stripping text behind one leading space. */
  lemma StripSpaced(t: string)
    requires t == [] || (!IsSpace(t[0]) && !IsSpace(t[|t| - 1]))
    ensures Strip(" " + t) == t
  {
    assert (" " + t)[1..] == t;
    assert TrimLeft(" " + t) == TrimLeft(t) == t;
    StripTrimmed(t);
  }

  /** The length of the run of non-whitespace characters that `t` starts with. */
  function WordLength(t: string): (n: nat)
    ensures n <= |t|
    ensures forall k :: 0 <= k < n ==> !IsSpace(t[k])
    ensures n == |t| || IsSpace(t[n])
    decreases |t|
  {
    if |t| == 0 || IsSpace(t[0]) then 0 else 1 + WordLength(t[1..])
  }

  predicate NoSpace(w: string) {
    forall k :: 0 <= k < |w| ==> !IsSpace(w[k])
  }

  /** `s.split()`: the maximal runs of non-whitespace characters, in order. */
  function Words(s: string): (r: seq<string>)
    ensures forall i :: 0 <= i < |r| ==> r[i] != [] && NoSpace(r[i])
    decreases |s|
  {
    var t := TrimLeft(s);
    if t == [] then []
    else
      var n := WordLength(t);
      FirstWord(t);
      var rest := Words(t[n..]);
      AllWords(t[..n], rest);
      [t[..n]] + rest
  }

  /** Words in front of words are words. */
  lemma AllWords(w: string, rest: seq<string>)
    requires w != [] && NoSpace(w)
    requires forall i :: 0 <= i < |rest| ==> rest[i] != [] && NoSpace(rest[i])
    ensures forall i :: 0 <= i < |[w] + rest| ==> ([w] + rest)[i] != [] && NoSpace(([w] + rest)[i])
  {
    var r := [w] + rest;
    forall i | 0 <= i < |r| ensures r[i] != [] && NoSpace(r[i]) {
      if i > 0 { assert r[i] == rest[i - 1]; }
    }
  }

  /** The first word of text that starts with a non-space character is not empty and has no space. */
  lemma FirstWord(t: string)
    requires t != [] && !IsSpace(t[0])
    ensures WordLength(t) > 0 && NoSpace(t[..WordLength(t)])
  {
    var w := t[..WordLength(t)];
    forall k | 0 <= k < |w| ensures !IsSpace(w[k]) { assert w[k] == t[k]; }
  }

  /** A string that starts with a non-space character has at least one word. */
  lemma WordsNonEmpty(s: string)
    requires s != [] && !IsSpace(s[0])
    ensures Words(s) != []
  {
    assert TrimLeft(s) == s;
  }

  /** `s.split()` of a word followed by a space and more text. */
  lemma {:induction false} WordsCons(w: string, rest: string)
    requires w != [] && NoSpace(w)
    ensures Words(w + " " + rest) == [w] + Words(rest)
  {
    var tail := " " + rest;
    var s := w + tail;
    assert w + " " + rest == s;
    WordLengthOfPrefix(w, tail);
    assert s[0] == w[0];
    WordsUnfold(s);
    assert s[..|w|] == w && s[|w|..] == tail;
    WordsSkipsSpace(rest);
  }

  lemma WordsUnfold(s: string)
    requires s != [] && !IsSpace(s[0])
    ensures Words(s) == [s[..WordLength(s)]] + Words(s[WordLength(s)..])
  {
    assert TrimLeft(s) == s;
  }

  lemma WordsSkipsSpace(rest: string)
    ensures Words(" " + rest) == Words(rest)
  {
    assert (" " + rest)[1..] == rest;
    assert TrimLeft(" " + rest) == TrimLeft(rest);
  }

  /** `s.split()` of one word. */
  lemma WordsSingle(w: string)
    requires w != [] && NoSpace(w)
    ensures Words(w) == [w]
  {
    WordLengthOfPrefix(w, "");
    assert w + "" == w;
    WordsUnfold(w);
    assert w[..|w|] == w && w[|w|..] == [];
    assert Words([]) == [] by { assert TrimLeft([]) == []; }
  }

  lemma {:induction false} WordLengthOfPrefix(w: string, rest: string)
    requires NoSpace(w)
    requires rest == [] || IsSpace(rest[0])
    ensures WordLength(w + rest) == |w|
    decreases |w|
  {
    if |w| > 0 {
      assert (w + rest)[1..] == w[1..] + rest;
      WordLengthOfPrefix(w[1..], rest);
    } else {
      assert w + rest == rest;
    }
  }

  // ---------------------------------------------------------------------------
  // Integers: parsing and formatting

  /** The value of a digit character in base 16 and below (either letter case). */
  function DigitValue(c: char): (v: int)
    ensures -1 <= v < 16
  {
    if '0' <= c <= '9' then c as int - '0' as int
    else if 'a' <= c <= 'f' then c as int - 'a' as int + 10
    else if 'A' <= c <= 'F' then c as int - 'A' as int + 10
    else -1
  }

  predicate IsDigitIn(c: char, base: nat) {
    0 <= DigitValue(c) < base
  }

  predicate AllDigits(ds: string, base: nat) {
    forall i :: 0 <= i < |ds| ==> IsDigitIn(ds[i], base)
  }

  /** The value of the digit string `ds`, most significant digit first. */
  function DigitsValue(ds: string, base: nat): nat
    requires AllDigits(ds, base)
    decreases |ds|
  {
    if ds == [] then 0
    else DigitsValue(ds[..|ds| - 1], base) * base + DigitValue(ds[|ds| - 1])
  }

  /** The prefix letter that `int(s, base)` accepts after a `0` (`x` for 16, `b` for 2, `o` for 8). */
  predicate IsPrefixLetter(c: char, base: nat) {
    (base == 16 && (c == 'x' || c == 'X'))
    || (base == 2 && (c == 'b' || c == 'B'))
    || (base == 8 && (c == 'o' || c == 'O'))
  }

  /** The sign of a literal: whether it is negative, and the text after the sign. */
  function SplitSign(s: string): (bool, string) {
    if |s| > 0 && (s[0] == '-' || s[0] == '+') then (s[0] == '-', s[1..]) else (false, s)
  }

  function Signed(negative: bool, magnitude: nat): int {
    if negative then -(magnitude as int) else magnitude
  }

  /**
   * `int(s, base)` for base 2, 8, 10 or 16: an optional sign, then (for base
   * 2, 8 and 16) an optional base prefix, then one or more digits of the base.
   * `None` stands for the `ValueError` Python raises.
   */
  function PyInt(s: string, base: nat): (r: Option<int>)
    requires base == 2 || base == 8 || base == 10 || base == 16
  {
    var (negative, body) := SplitSign(s);
    var digits :=
      if base != 10 && |body| >= 2 && body[0] == '0' && IsPrefixLetter(body[1], base)
      then body[2..] else body;
    if digits != [] && AllDigits(digits, base)
    then Some(Signed(negative, DigitsValue(digits, base)))
    else None
  }

  /**
   * `int(s, 0)`: the base is read from the prefix (`0x`, `0o`, `0b`, either
   * case); without one the literal is decimal, and a decimal literal may not
   * start with `0` unless every digit is `0`.
   */
  function PyIntBase0(s: string): (r: Option<int>) {
    var (negative, body) := SplitSign(s);
    if |body| >= 2 && body[0] == '0' && (IsPrefixLetter(body[1], 16) || IsPrefixLetter(body[1], 8) || IsPrefixLetter(body[1], 2)) then
      var base := if IsPrefixLetter(body[1], 16) then 16 else if IsPrefixLetter(body[1], 8) then 8 else 2;
      var digits := body[2..];
      if digits != [] && AllDigits(digits, base) then Some(Signed(negative, DigitsValue(digits, base))) else None
    else if body != [] && AllDigits(body, 10) && (body[0] != '0' || forall i :: 0 <= i < |body| ==> body[i] == '0')
    then Some(Signed(negative, DigitsValue(body, 10)))
    else None
  }

  /** The lower-case digit character for `d`. */
  function DigitChar(d: nat): (c: char)
    requires d < 16
    ensures DigitValue(c) == d
  {
    "0123456789abcdef"[d]
  }

  /** The digits of `n` in `base`, most significant first, without leading zeros. */
  function ToDigits(n: nat, base: nat): (r: string)
    requires 2 <= base <= 16
    ensures |r| >= 1 && AllDigits(r, base) && DigitsValue(r, base) == n
    ensures r[0] == '0' ==> n == 0
    decreases n
  {
    if n < base then [DigitChar(n)]
    else
      DivModFacts(n, base);
      var high := ToDigits(n / base, base);
      var r := high + [DigitChar(n % base)];
      assert r[..|r| - 1] == high;
      assert AllDigits(r, base) by {
        forall i | 0 <= i < |r| ensures IsDigitIn(r[i], base) {
          if i < |high| { assert r[i] == high[i]; }
        }
      }
      assert DigitsValue(r, base) == (n / base) * base + n % base;
      r
  }

  lemma DivModFacts(n: nat, d: nat)
    requires 2 <= d <= n
    ensures 1 <= n / d < n && 0 <= n % d < d && (n / d) * d + n % d == n
  {
    var q := n / d;
    assert n == d * q + n % d;
    if q == 0 {
    } else if q >= n {
    }
  }

  /** `hex(n)` for a natural number: `0x` and lower-case hexadecimal digits. */
  function Hex(n: nat): string {
    "0x" + ToDigits(n, 16)
  }

  /** `bin(n)` for a natural number. */
  function Bin(n: nat): string {
    "0b" + ToDigits(n, 2)
  }

  /** `str(n)` for a natural number. */
  function Str(n: nat): string {
    ToDigits(n, 10)
  }

  /** `int(hex(n), 16) == n`. */
  lemma HexRoundTrip(n: nat)
    ensures PyInt(Hex(n), 16) == Some(n)
  {
    var h := Hex(n);
    assert SplitSign(h) == (false, h);
    assert h[2..] == ToDigits(n, 16);
  }

  /** `int(bin(n), 2) == n`. */
  lemma BinRoundTrip(n: nat)
    ensures PyInt(Bin(n), 2) == Some(n)
  {
    var b := Bin(n);
    assert SplitSign(b) == (false, b);
    assert b[2..] == ToDigits(n, 2);
  }

  /** `int(str(n)) == n`. */
  lemma StrRoundTrip(n: nat)
    ensures PyInt(Str(n), 10) == Some(n)
  {
    var d := Str(n);
    assert SplitSign(d) == (false, d);
  }

  /** `int(s, 0)` reads back what `hex(n)` and `str(n)` write. */
  lemma Base0RoundTrip(n: nat)
    ensures PyIntBase0(Hex(n)) == Some(n)
    ensures PyIntBase0(Str(n)) == Some(n)
  {
    Base0Hex(n);
    Base0Str(n);
  }

  lemma Base0Hex(n: nat)
    ensures PyIntBase0(Hex(n)) == Some(n)
  {
    var h := Hex(n);
    assert SplitSign(h) == (false, h);
    assert h[2..] == ToDigits(n, 16);
  }

  lemma Base0Str(n: nat)
    ensures PyIntBase0(Str(n)) == Some(n)
  {
    var d := Str(n);
    assert SplitSign(d) == (false, d);
    if |d| >= 2 {
      assert IsDigitIn(d[1], 10);
    }
    if n == 0 {
      assert d == "0";
    }
  }

  /** Unlike `int(s)`, `int(s, 0)` refuses a decimal literal with a leading zero. */
  lemma Base0LeadingZero()
    ensures PyInt("08", 10) == Some(8)
    ensures PyIntBase0("08") == None
  {
    assert SplitSign("08") == (false, "08");
    assert DigitsValue("08", 10) == DigitsValue("0", 10) * 10 + 8;
  }

  // ---------------------------------------------------------------------------
  // Integers: bitwise and, masking

  function Pow2(k: nat): (p: nat)
    ensures p >= 1
  {
    if k == 0 then 1 else 2 * Pow2(k - 1)
  }

  /**
   * Python's `x & m` for a non-negative mask `m`, bit by bit on the
   * two's-complement (infinitely sign-extended) representation of `x`.
   */
  function BitAnd(x: int, m: nat): int
    decreases m
  {
    if m == 0 then 0
    else 2 * BitAnd(x / 2, m / 2) + (if x % 2 == 1 && m % 2 == 1 then 1 else 0)
  }

  /** Masking with `2^k - 1` keeps the `k` low bits: the result is `x` modulo `2^k`, also for negative `x`. */
  lemma {:induction false} BitAndLowBits(x: int, k: nat)
    ensures BitAnd(x, Pow2(k) - 1) == x % Pow2(k)
    decreases k
  {
    if k > 0 {
      MaskHalf(k);
      BitAndOdd(x, Pow2(k) - 1);
      BitAndLowBits(x / 2, k - 1);
      ModOfPow2(x, k);
    }
  }

  /** The mask `2^k - 1` is odd and its upper bits are the mask `2^(k-1) - 1`. */
  lemma MaskHalf(k: nat)
    requires k > 0
    ensures (Pow2(k) - 1) % 2 == 1 && (Pow2(k) - 1) / 2 == Pow2(k - 1) - 1
  {
    var p := Pow2(k - 1);
    assert Pow2(k) - 1 == 2 * (p - 1) + 1;
    ModOfSum(Pow2(k) - 1, 2, p - 1, 1);
  }

  /** `x mod 2^k` from `x div 2 mod 2^(k-1)` and the low bit. */
  lemma ModOfPow2(x: int, k: nat)
    requires k > 0
    ensures x % Pow2(k) == 2 * ((x / 2) % Pow2(k - 1)) + x % 2
  {
    assert Pow2(k) == 2 * Pow2(k - 1);
    ModOfHalf(x, Pow2(k - 1));
  }

  /** An odd mask keeps the low bit of `x` and masks the rest with the mask's upper bits. */
  lemma BitAndOdd(x: int, m: nat)
    requires m % 2 == 1
    ensures BitAnd(x, m) == 2 * BitAnd(x / 2, m / 2) + x % 2
  {
  }

  /** `x mod 2p` from `x div 2 mod p` and the low bit. */
  lemma ModOfHalf(x: int, p: int)
    requires p > 0
    ensures x % (2 * p) == 2 * ((x / 2) % p) + x % 2
  {
    var q, b := x / 2, x % 2;
    var t, u := q / p, q % p;
    assert x == 2 * q + b;
    assert q == p * t + u;
    assert x == (2 * p) * t + (2 * u + b);
    ModOfSum(x, 2 * p, t, 2 * u + b);
  }

  /** Euclidean division is unique. */
  lemma ModOfSum(a: int, d: int, k: int, r: int)
    requires d > 0 && 0 <= r < d && a == d * k + r
    ensures a % d == r && a / d == k
  {
    if k - a / d >= 1 {
    } else if k - a / d <= -1 {
    }
  }

  lemma ByteMod(x: int)
    ensures IsByte(x) ==> x % 256 == x
  {
    if IsByte(x) {
      ModOfSum(x, 256, 0, x);
    }
  }

  /** Python's `x & 0xFF`, computed as `x` mod 256 (LowByteIsBitAnd shows the two agree). */
  function LowByte(x: int): (r: int)
    ensures 0 <= r < 256
    ensures IsByte(x) ==> r == x
  {
    ByteMod(x);
    x % 256
  }

  /** `x & 0xFF` taken bit by bit is `x` mod 256, for negative `x` too. */
  lemma LowByteIsBitAnd(x: int)
    ensures LowByte(x) == BitAnd(x, 0xFF)
  {
    assert Pow2(8) == 256;
    BitAndLowBits(x, 8);
  }

  predicate IsByte(x: int) { 0 <= x < 256 }

  // ---------------------------------------------------------------------------
  // Lists

  /**
   * Where Python's `xs[i]` looks in a list of length `n`: a non-negative `i`
   * below `n` is itself, a negative `i` down to `-n` counts from the end,
   * anything else raises `IndexError` (`None`).
   */
  function PyIndex(i: int, n: nat): (r: Option<nat>)
    ensures r.Some? <==> -(n as int) <= i < n
    ensures r.Some? ==> r.value < n && (r.value == i || r.value == i + n)
    ensures 0 <= i < n ==> r == Some(i)
  {
    if 0 <= i < n then Some(i) else if -(n as int) <= i < 0 then Some(i + n) else None
  }
}
