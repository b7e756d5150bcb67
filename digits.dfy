/** Digit strings as the slot machine's code reads and writes them: Python's
    `int(s, 2)`, `int(s, 16)`, `bin(v)[2:]`, `str.zfill` and the slice `s[:k]`. */
module Digits {
  import opened SlotTypes

  function Pow2(n: nat): (r: nat)
    ensures r >= 1
  {
    if n == 0 then 1 else 2 * Pow2(n - 1)
  }

  // ---------------------------------------------------------------- binary

  predicate IsBit(c: char) { c == '0' || c == '1' }

  predicate IsBinary(s: string) {
    forall i :: 0 <= i < |s| ==> IsBit(s[i])
  }

  function BitValue(c: char): nat { if c == '1' then 1 else 0 }

  function BitChar(b: nat): char { if b % 2 == 1 then '1' else '0' }

  /** The number a string of binary digits denotes, most significant digit
      first. */
  function BinValue(s: string): (v: nat)
    requires IsBinary(s)
    ensures v < Pow2(|s|)
  {
    if s == [] then 0 else 2 * BinValue(s[..|s| - 1]) + BitValue(s[|s| - 1])
  }

  /** Python's `int(s, 2)`: a non-empty string of binary digits, or a
      ValueError. */
  function ParseBin(s: string): (r: Result<nat>)
    ensures r.Ok? <==> |s| > 0 && IsBinary(s)
    ensures r.Ok? ==> r.value < Pow2(|s|)
    ensures r.Err? ==> r.error == ValueError
  {
    if |s| > 0 && IsBinary(s) then Ok(BinValue(s)) else Err(ValueError)
  }

  /** The low `width` binary digits of `n`, most significant first. */
  function ToBin(n: nat, width: nat): (s: string)
    ensures |s| == width && IsBinary(s)
  {
    if width == 0 then [] else ToBin(n / 2, width - 1) + [BitChar(n)]
  }

  lemma BinValueSnoc(s: string, c: char)
    requires IsBinary(s) && IsBit(c)
    ensures IsBinary(s + [c]) && BinValue(s + [c]) == 2 * BinValue(s) + BitValue(c)
  {
    assert (s + [c])[..|s|] == s;
  }

  /** Reading back a width-digit rendering gives the number, when it fits. */
  lemma {:induction false} ToBinValue(n: nat, width: nat)
    requires n < Pow2(width)
    ensures BinValue(ToBin(n, width)) == n
  {
    if width > 0 {
      ToBinValue(n / 2, width - 1);
      BinValueSnoc(ToBin(n / 2, width - 1), BitChar(n));
    }
  }

  /** Rendering the value of a binary string at its own width gives the
      string back. */
  lemma {:induction false} BinValueToBin(s: string)
    requires IsBinary(s)
    ensures ToBin(BinValue(s), |s|) == s
  {
    if s != [] {
      var init := s[..|s| - 1];
      BinValueToBin(init);
      assert init + [s[|s| - 1]] == s;
    }
  }

  /** `a / b` for `a` written as `b * q + r` with `0 <= r < b`. */
  lemma DivUnique(a: int, b: int, q: int, r: int)
    requires b > 0 && 0 <= r < b && a == b * q + r
    ensures a / b == q
  {
    var q', r' := a / b, a % b;
    assert b * q' + r' == b * q + r;
    assert b * (q - q') == r' - r;
    if q' < q {
      MulAtLeast(b, q - q');
    } else if q' > q {
      MulAtLeast(b, q' - q);
    }
  }

  lemma {:induction false} MulAtLeast(b: nat, x: nat)
    requires x >= 1
    ensures b * x >= b
  {
    if x > 1 { MulAtLeast(b, x - 1); }
  }

  /** Dropping the last digit halves the value, rounding down. */
  lemma HalveDigits(x: nat, d: nat, m: nat)
    requires d <= 1
    ensures (2 * x + d) / (2 * Pow2(m)) == x / Pow2(m)
  {
    var q, r := x / Pow2(m), x % Pow2(m);
    assert x == Pow2(m) * q + r;
    DivUnique(2 * x + d, 2 * Pow2(m), q, 2 * r + d);
  }

  /** The first `k` digits of a binary string denote its value shifted right
      by the number of digits dropped. */
  lemma {:induction false} PrefixValue(s: string, k: nat)
    requires IsBinary(s) && k <= |s|
    ensures BinValue(s[..k]) == BinValue(s) / Pow2(|s| - k)
    decreases |s| - k
  {
    if k < |s| {
      var init := s[..|s| - 1];
      assert init[..k] == s[..k];
      PrefixValue(init, k);
      assert BinValue(s) == 2 * BinValue(init) + BitValue(s[|s| - 1]);
      assert Pow2(|s| - k) == 2 * Pow2(|init| - k);
      HalveDigits(BinValue(init), BitValue(s[|s| - 1]), |init| - k);
    } else {
      assert s[..k] == s;
    }
  }

  /** `k` zero digits. */
  function Zeros(k: nat): (s: string)
    ensures |s| == k && IsBinary(s)
    ensures forall i :: 0 <= i < k ==> s[i] == '0'
  {
    if k == 0 then [] else Zeros(k - 1) + ['0']
  }

  /** Leading zeros do not change the value. */
  lemma {:induction false} LeadingZerosValue(k: nat, s: string)
    requires IsBinary(s)
    ensures IsBinary(Zeros(k) + s) && BinValue(Zeros(k) + s) == BinValue(s)
    decreases |s|, k
  {
    if s == [] {
      assert Zeros(k) + s == Zeros(k);
      if k > 0 {
        LeadingZerosValue(k - 1, []);
        assert Zeros(k - 1) + [] == Zeros(k - 1);
        BinValueSnoc(Zeros(k - 1), '0');
      }
    } else {
      var init := s[..|s| - 1];
      LeadingZerosValue(k, init);
      assert Zeros(k) + s == (Zeros(k) + init) + [s[|s| - 1]];
      BinValueSnoc(Zeros(k) + init, s[|s| - 1]);
      BinValueSnoc(init, s[|s| - 1]);
      assert init + [s[|s| - 1]] == s;
    }
  }

  /** Python's `bin(v)[2:]`: the shortest binary rendering, "0" for zero. */
  function PyBin(v: nat): (s: string)
    ensures |s| >= 1 && IsBinary(s)
  {
    if v < 2 then [BitChar(v)] else PyBin(v / 2) + [BitChar(v)]
  }

  /** `bin` is exact and minimal: it denotes `v`, and a non-zero value's
      rendering starts with a one digit, so it lies between the two powers of
      two its length allows. */
  lemma {:induction false} PyBinValue(v: nat)
    ensures BinValue(PyBin(v)) == v
    ensures v > 0 ==> PyBin(v)[0] == '1' && Pow2(|PyBin(v)| - 1) <= v
    ensures v < Pow2(|PyBin(v)|)
  {
    if v >= 2 {
      PyBinValue(v / 2);
      BinValueSnoc(PyBin(v / 2), BitChar(v));
    }
  }

  /** `bin(v)` needs at most `w` digits exactly when `v` is below 2^w. */
  lemma PyBinFits(v: nat, w: nat)
    requires w >= 1
    ensures |PyBin(v)| <= w <==> v < Pow2(w)
  {
    PyBinValue(v);
    if |PyBin(v)| <= w {
      Pow2Monotone(|PyBin(v)|, w);
    } else if v > 0 {
      Pow2Monotone(w, |PyBin(v)| - 1);
    }
  }

  lemma {:induction false} Pow2Monotone(m: nat, n: nat)
    requires m <= n
    ensures Pow2(m) <= Pow2(n)
    decreases n
  {
    if m < n { Pow2Monotone(m, n - 1); }
  }

  /** Python's `s.zfill(w)` on an unsigned digit string: zeros on the left
      up to width `w`, the string itself kept whole at the end. */
  function ZFill(s: string, w: nat): (r: string)
    ensures |r| == if |s| >= w then |s| else w
    ensures r == Zeros(|r| - |s|) + s
    ensures IsBinary(s) ==> IsBinary(r)
  {
    if |s| >= w then s else Zeros(w - |s|) + s
  }

  /** Python's `s[:k]`, which stops at the end of a shorter string. */
  function Take(s: string, k: nat): (r: string)
    ensures |r| == if |s| < k then |s| else k
    ensures r <= s
  {
    if |s| < k then s else s[..k]
  }

  /** Python's `s[i:j]`, clamped to the string like Python's slicing. */
  function Slice(s: string, i: nat, j: nat): (r: string)
    requires i <= j
    ensures |r| == (if j < |s| then j else |s|) - (if i < |s| then i else |s|)
  {
    var lo := if i < |s| then i else |s|;
    var hi := if j < |s| then j else |s|;
    s[lo..hi]
  }

  // ----------------------------------------------------------- hexadecimal

  /** The value of one hexadecimal digit in either case, or -1. */
  function HexDigit(c: char): (d: int)
    ensures -1 <= d < 16
  {
    if '0' <= c <= '9' then c as int - '0' as int
    else if 'a' <= c <= 'f' then c as int - 'a' as int + 10
    else if 'A' <= c <= 'F' then c as int - 'A' as int + 10
    else -1
  }

  predicate IsHex(s: string) {
    forall i :: 0 <= i < |s| ==> HexDigit(s[i]) >= 0
  }

  function HexValue(s: string): (v: nat)
    requires IsHex(s)
  {
    if s == [] then 0 else 16 * HexValue(s[..|s| - 1]) + HexDigit(s[|s| - 1])
  }

  /** Python's `int(s, 16)`: hexadecimal digits in either case, optionally
      after a `0x` or `0X` prefix, at least one digit; otherwise a
      ValueError. */
  function ParseHex(s: string): (r: Result<nat>)
    ensures r.Ok? <==> var body := if |s| >= 2 && s[0] == '0' && (s[1] == 'x' || s[1] == 'X') then s[2..] else s;
                       |body| > 0 && IsHex(body)
    ensures r.Err? ==> r.error == ValueError
  {
    var body := if |s| >= 2 && s[0] == '0' && (s[1] == 'x' || s[1] == 'X') then s[2..] else s;
    if |body| > 0 && IsHex(body) then Ok(HexValue(body)) else Err(ValueError)
  }

  /** A non-empty run of hexadecimal digits cannot start with `0x`, so
      `int(s, 16)` reads all of it. */
  lemma ParseHexDigits(s: string)
    requires |s| > 0 && IsHex(s)
    ensures ParseHex(s) == Ok(HexValue(s))
  {
    if |s| >= 2 {
      assert HexDigit(s[1]) >= 0;
    }
  }

  /** Two hexadecimal digits denote a byte: the first digit sixteen times
      over, plus the second. */
  lemma HexByte(s: string)
    requires |s| == 2 && IsHex(s)
    ensures HexValue(s) == 16 * HexDigit(s[0]) + HexDigit(s[1])
    ensures HexValue(s) < 256
  {
    var first := s[..1];
    assert first[..0] == [];
    assert HexValue(first) == 16 * HexValue(first[..0]) + HexDigit(first[0]);
    assert HexValue(s) == 16 * HexValue(first) + HexDigit(s[1]);
  }

  function HexChar(d: nat): char
    requires d < 16
  {
    if d < 10 then ('0' as int + d) as char else ('a' as int + d - 10) as char
  }

  /** Python's `hex(n)[2:]`: the shortest lower-case hexadecimal rendering,
      so only zero itself starts with a zero digit. */
  function ToHex(n: nat): (s: string)
    ensures |s| >= 1 && IsHex(s)
    ensures n > 0 ==> s[0] != '0'
  {
    if n < 16 then [HexChar(n)] else ToHex(n / 16) + [HexChar(n % 16)]
  }

  /** A number rendered with `hex` parses back to itself, with or without
      the `0x` prefix `hex` puts in front. */
  lemma {:induction false} HexRoundTrip(n: nat)
    ensures ParseHex(ToHex(n)) == Ok(n)
    ensures ParseHex("0x" + ToHex(n)) == Ok(n)
  {
    ToHexValue(n);
    assert ("0x" + ToHex(n))[2..] == ToHex(n);
  }

  lemma {:induction false} ToHexValue(n: nat)
    ensures HexValue(ToHex(n)) == n
  {
    if n >= 16 {
      ToHexValue(n / 16);
      var s := ToHex(n / 16) + [HexChar(n % 16)];
      assert s[..|s| - 1] == ToHex(n / 16);
    }
  }
}
