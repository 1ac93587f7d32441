/** The pieces of Go's language and standard library that the balancer's
    arithmetic depends on, written out over unbounded integers: fixed-width
    integer types, the int32 conversion, truncating division, float-to-int
    truncation, bits.Len, the integer part of math.Sqrt, and strconv's
    Atoi/Itoa on base-10 strings. */
module GoStd {
  import opened Wrappers

  newtype int32 = x: int | -0x8000_0000 <= x < 0x8000_0000
  newtype int64 = x: int | -0x8000_0000_0000_0000 <= x < 0x8000_0000_0000_0000
  newtype uint32 = x: int | 0 <= x < 0x1_0000_0000

  function Abs(x: int): nat { if x < 0 then -x else x }

  /** Go's conversion int32(x): keep the low 32 bits and read them as two's
      complement. */
  function WrapInt32(x: int): (r: int32)
    ensures (r as int - x) % 0x1_0000_0000 == 0
    ensures -0x8000_0000 <= x < 0x8000_0000 ==> r as int == x
  {
    var m := x % 0x1_0000_0000;
    if m < 0x8000_0000 then m as int32 else (m - 0x1_0000_0000) as int32
  }

  /** Go's integer division by a positive divisor, which truncates toward
      zero (Dafny's `/` rounds toward negative infinity). */
  function TruncDiv(a: int, b: int): (q: int)
    requires b > 0
    ensures a >= 0 ==> q * b <= a < q * b + b
    ensures a < 0 ==> q * b - b < a <= q * b
  {
    if a >= 0 then a / b else -((-a) / b)
  }

  /** Go's conversion int(f) of a floating-point value: truncation toward
      zero. */
  function TruncToInt(f: real): (n: int)
    ensures f >= 0.0 ==> n as real <= f < n as real + 1.0
    ensures f < 0.0 ==> n as real - 1.0 < f <= n as real
  {
    if f >= 0.0 then f.Floor else -((-f).Floor)
  }

  function Pow2(k: nat): (p: nat)
    ensures p >= 1
  {
    if k == 0 then 1 else 2 * Pow2(k - 1)
  }

  /** The powers of two up to 2^10. */
  lemma Pow2Small()
    ensures Pow2(1) == 2 && Pow2(2) == 4 && Pow2(3) == 8 && Pow2(4) == 16 && Pow2(5) == 32
    ensures Pow2(6) == 64 && Pow2(7) == 128 && Pow2(8) == 256 && Pow2(9) == 512 && Pow2(10) == 1024
  {
  }

  /** bits.Len: the number of bits needed to represent n (0 for 0). */
  function BitLen(n: nat): (r: nat)
    ensures n == 0 <==> r == 0
    ensures n > 0 ==> Pow2(r - 1) <= n < Pow2(r)
  {
    if n == 0 then 0 else 1 + BitLen(n / 2)
  }

  lemma {:induction false} Pow2Monotone(i: nat, j: nat)
    requires i <= j
    ensures Pow2(i) <= Pow2(j)
  {
    if i < j {
      Pow2Monotone(i, j - 1);
    }
  }

  /** bits.Len never decreases as its argument grows. */
  lemma BitLenMonotone(m: nat, n: nat)
    requires m <= n
    ensures BitLen(m) <= BitLen(n)
  {
    if m > 0 && BitLen(m) > BitLen(n) {
      Pow2Monotone(BitLen(n), BitLen(m) - 1);
      assert false;
    }
  }

  /** Two powers of two bracketing n pin down its bit length. */
  lemma BitLenFromBounds(n: nat, k: nat)
    requires k >= 1 && Pow2(k - 1) <= n < Pow2(k)
    ensures BitLen(n) == k
  {
    var r := BitLen(n);
    if r < k {
      Pow2Monotone(r, k - 1);
      assert false;
    } else if r > k {
      Pow2Monotone(k, r - 1);
      assert false;
    }
  }

  /** int(math.Sqrt(float64(n))): the integer square root, rounded down. */
  function FloorSqrt(n: nat): (r: nat)
    ensures r * r <= n < (r + 1) * (r + 1)
  {
    if n == 0 then 0
    else
      var s := FloorSqrt(n - 1);
      if (s + 1) * (s + 1) <= n then s + 1 else s
  }

  lemma SquareMonotone(a: nat, b: nat)
    requires a <= b
    ensures a * a <= b * b
  {
    assert a * a <= a * b <= b * b;
  }

  /** The integer square root of a perfect square is its root. */
  lemma FloorSqrtOfSquare(k: nat)
    ensures FloorSqrt(k * k) == k
  {
    var r := FloorSqrt(k * k);
    if r < k {
      SquareMonotone(r + 1, k);
      assert false;
    } else if r > k {
      SquareMonotone(k + 1, r);
      assert false;
    }
  }

  predicate IsDigit(c: char) { '0' <= c <= '9' }

  predicate AllDigits(s: string) { forall i :: 0 <= i < |s| ==> IsDigit(s[i]) }

  /** The value of a run of decimal digits, most significant first. */
  function DecimalValue(s: string): (v: nat)
    requires AllDigits(s)
  {
    if s == [] then 0
    else 10 * DecimalValue(s[..|s| - 1]) + (s[|s| - 1] - '0') as nat
  }

  /** strconv.Atoi for a 64-bit int: an optional sign followed by at least
      one decimal digit, nothing else, and a value that fits in int64. */
  function Atoi(s: string): (r: Option<int>)
    ensures r.Some? ==> s != [] && -0x8000_0000_0000_0000 <= r.value < 0x8000_0000_0000_0000
    ensures r.Some? ==> (r.value < 0 ==> s[0] == '-')
  {
    if s == [] then None
    else
      var digits := if s[0] == '-' || s[0] == '+' then s[1..] else s;
      if digits == [] || !AllDigits(digits) then None
      else
        var v: int := if s[0] == '-' then 0 - DecimalValue(digits) else DecimalValue(digits);
        if -0x8000_0000_0000_0000 <= v < 0x8000_0000_0000_0000 then Some(v) else None
  }

  /** The length of the optional leading sign of a decimal literal. */
  function SignLength(s: string): (n: nat)
    ensures n <= |s|
  {
    if s != [] && (s[0] == '-' || s[0] == '+') then 1 else 0
  }

  /** An optional sign followed by a non-empty run of decimal digits. */
  predicate IsDecimalLiteral(s: string)
  {
    SignLength(s) < |s| && AllDigits(s[SignLength(s)..])
  }

  /** The signed value a decimal literal denotes, with no bound on its size. */
  function LiteralValue(s: string): int
    requires IsDecimalLiteral(s)
  {
    var m: int := DecimalValue(s[SignLength(s)..]);
    if s[0] == '-' then -m else m
  }

  /** Atoi accepts exactly the decimal literals whose value fits in int64,
      and then yields that value. */
  lemma AtoiSpec(s: string)
    ensures Atoi(s).Some? <==>
      IsDecimalLiteral(s) && -0x8000_0000_0000_0000 <= LiteralValue(s) < 0x8000_0000_0000_0000
    ensures Atoi(s).Some? ==> Atoi(s).value == LiteralValue(s)
  {
  }

  /** What Atoi makes of a few characteristic inputs. */
  lemma AtoiExamples()
    ensures Atoi("12a") == None && Atoi("") == None && Atoi("+") == None && Atoi("-") == None
    ensures Atoi("+5") == Some(5) && Atoi("007") == Some(7) && Atoi("-0") == Some(0)
  {
    assert !IsDigit('a');
    assert "+5"[1..] == "5";
    assert "007"[..2] == "00" && "00"[..1] == "0";
    assert "-0"[1..] == "0";
  }

  /** The decimal digits of n, without sign or leading zeros. */
  function Digits(n: nat): (s: string)
    ensures s != []
    decreases n
  {
    if n < 10 then ['0' + n as char] else Digits(n / 10) + ['0' + (n % 10) as char]
  }

  /** strconv.Itoa. */
  function Itoa(n: int): (s: string)
  {
    if n < 0 then "-" + Digits(-n) else Digits(n)
  }

  lemma {:induction false} DigitsValue(n: nat)
    ensures AllDigits(Digits(n)) && DecimalValue(Digits(n)) == n
    decreases n
  {
    if n >= 10 {
      DigitsValue(n / 10);
      var s := Digits(n);
      assert s[..|s| - 1] == Digits(n / 10);
    }
  }

  /** Atoi reads back every 64-bit value that Itoa prints. */
  lemma AtoiItoa(n: int)
    requires -0x8000_0000_0000_0000 <= n < 0x8000_0000_0000_0000
    ensures Atoi(Itoa(n)) == Some(n)
  {
    var s := Itoa(n);
    if n < 0 {
      DigitsValue(-n);
      assert s[1..] == Digits(-n);
    } else {
      DigitsValue(n);
      assert IsDigit(s[0]);
    }
  }
}
