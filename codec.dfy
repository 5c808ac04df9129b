/** Facts of integer arithmetic the numeral proofs rely on. */
module Arith {

  lemma MulPos(p: int, m: int)
    requires p > 0 && m >= 1
    ensures p * m >= p
  {
  }

  lemma Distrib(p: int, a: int, b: int)
    ensures p * a - p * b == p * (a - b)
  {
  }

  lemma ShiftStep(d: int, x: int, v: int, p: int, w: int)
    requires x == v + p * w
    ensures d + 32 * x == (d + 32 * v) + (32 * p) * w
  {
  }

  lemma SmallMod(v: int, m: int)
    requires 0 <= v < m
    ensures v % m == v
  {
  }

  /** Quotient and remainder of x by p are the q and r of any decomposition x == p * q + r with 0 <= r < p. */
  lemma DivModUnique(x: int, p: int, q: int, r: int)
    requires p > 0 && 0 <= r < p && x == p * q + r
    ensures x % p == r
    ensures x / p == q
  {
    var q', r' := x / p, x % p;
    Distrib(p, q', q);
    assert p * (q' - q) == r - r';
    if q' > q {
      MulPos(p, q' - q);
    } else if q' < q {
      MulPos(p, q - q');
      Distrib(p, q, q');
    }
  }

  /** Fewer than p consecutive numbers have distinct remainders modulo p. */
  lemma DistinctResidues(b: int, i: int, n: int, p: int)
    requires 0 <= i < n < p
    ensures (b + i) % p != (b + n) % p
  {
    var q, r := (b + i) / p, (b + i) % p;
    var d := n - i;
    if r + d < p {
      DivModUnique(b + n, p, q, r + d);
    } else {
      assert b + n == p * (q + 1) + (r + d - p);
      DivModUnique(b + n, p, q + 1, r + d - p);
    }
  }
}

/**
 * The symbolic numeral codec of the Reduced Machine.
 *
 * Every quantity of the machine is written as a string over a fixed alphabet of
 * 32 symbols; a symbol's value is its position in the alphabet, so '/' is zero.
 * Numerals are written least-significant symbol first, five bits per symbol.
 */
module Codec {

  import Arith

  /** The alphabet, in value order. */
  const Symbols: string := "/E@A:SIU8DRJNFCKTZLWHYPQOBG\"MXV£"

  /** The zero symbol, used for padding. */
  const Zero: char := '/'

  /** Symbols in a short field (an address), a line and the accumulator field. */
  const ShortSymbols: nat := 2
  const LineSymbols: nat := 4
  const AccSymbols: nat := 8

  /** 2^10, 2^20, 2^39 and 2^40. */
  const ShortModulus: nat := 1024
  const LineModulus: nat := 1048576
  const SignBoundary: nat := 549755813888
  const AccModulus: nat := 1099511627776

  function Pow32(k: nat): (p: nat)
    ensures p >= 1
  {
    if k == 0 then 1 else 32 * Pow32(k - 1)
  }

  lemma {:induction false} Pow32Add(j: nat, k: nat)
    ensures Pow32(j + k) == Pow32(j) * Pow32(k)
  {
    if k > 0 {
      Pow32Add(j, k - 1);
      calc {
        Pow32(j + k);
        32 * Pow32(j + k - 1);
        32 * (Pow32(j) * Pow32(k - 1));
        Pow32(j) * (32 * Pow32(k - 1));
      }
    }
  }

  lemma FieldModuli()
    ensures Pow32(ShortSymbols) == ShortModulus
    ensures Pow32(LineSymbols) == LineModulus
    ensures Pow32(AccSymbols) == AccModulus
  {
    assert Pow32(2) == 1024;
    assert Pow32(4) == 1048576;
    assert Pow32(8) == 1099511627776 by {
      Pow32Add(4, 4);
    }
  }

  /**
   * c occurs in s. Written as a search rather than with `in` so that the
   * verifier unfolds the literal alphabet only as far as a proof needs.
   */
  predicate Member(s: string, c: char) {
    s != [] && (s[0] == c || Member(s[1..], c))
  }

  lemma {:induction false} MemberIsIn(s: string, c: char)
    ensures Member(s, c) <==> c in s
  {
    if s != [] {
      MemberIsIn(s[1..], c);
      assert s == [s[0]] + s[1..];
    }
  }

  /** c belongs to the alphabet. */
  predicate IsSymbol(c: char) {
    Member(Symbols, c)
  }

  /**
   * Every character of s belongs to the alphabet. Recursive rather than a
   * quantifier, so that a proof unfolds it only where it looks at a symbol.
   */
  predicate IsSymbols(s: string) {
    s == [] || (IsSymbol(s[0]) && IsSymbols(s[1..]))
  }

  /** The recursive definition agrees with the pointwise one. */
  lemma {:induction false} SymbolsEverywhere(s: string)
    ensures IsSymbols(s) <==> forall k | 0 <= k < |s| :: IsSymbol(s[k])
  {
    if s != [] {
      SymbolsEverywhere(s[1..]);
      assert forall k | 1 <= k < |s| :: s[1..][k - 1] == s[k];
    }
  }

  /** The position of the first occurrence of c in s, as Python's list.index. */
  function FirstIndex(s: string, c: char): (i: nat)
    requires Member(s, c)
    ensures i < |s|
  {
    if s[0] == c then 0 else 1 + FirstIndex(s[1..], c)
  }

  lemma {:induction false} FirstIndexFound(s: string, c: char)
    requires Member(s, c)
    ensures s[FirstIndex(s, c)] == c
    ensures forall j | 0 <= j < FirstIndex(s, c) :: s[j] != c
  {
    if s[0] != c {
      FirstIndexFound(s[1..], c);
    }
  }

  /**
   * The value of a symbol. (The fact that it names c is kept in the lemma
   * SymbolAtIndex: stated here it would make every numeral proof search the
   * literal alphabet.)
   */
  function IndexOf(c: char): (v: nat)
    requires IsSymbol(c)
    ensures v < 32
  {
    FirstIndex(Symbols, c)
  }

  lemma SymbolAtIndex(c: char)
    requires IsSymbol(c)
    ensures Symbols[IndexOf(c)] == c
  {
    FirstIndexFound(Symbols, c);
  }

  lemma SymbolIsSymbol(k: nat)
    requires k < |Symbols|
    ensures IsSymbol(Symbols[k])
  {
    MemberIsIn(Symbols, Symbols[k]);
  }

  /** The alphabet has no repeated symbol, checked in three blocks of pairs. */
  lemma SymbolsDistinct()
    ensures |Symbols| == 32
    ensures forall i, j | 0 <= i < j < |Symbols| :: Symbols[i] != Symbols[j]
  {
    DistinctLow();
    DistinctHigh();
    DistinctAcross();
  }

  lemma DistinctLow()
    ensures forall i, j | 0 <= i < j < 16 :: Symbols[i] != Symbols[j]
  {
  }

  lemma DistinctHigh()
    ensures forall i, j | 16 <= i < j < 32 :: Symbols[i] != Symbols[j]
  {
  }

  lemma DistinctAcross()
    ensures forall i, j | 0 <= i < 16 <= j < 32 :: Symbols[i] != Symbols[j]
  {
  }

  /** The symbol at position k has value k. */
  lemma IndexOfSymbol(k: nat)
    requires k < |Symbols|
    ensures IsSymbol(Symbols[k])
    ensures IndexOf(Symbols[k]) == k
  {
    SymbolsDistinct();
    SymbolIsSymbol(k);
    FirstIndexFound(Symbols, Symbols[k]);
  }

  /**
   * symbols_to_int: the value of a numeral, least-significant symbol first.
   * The source sums value * 2^(5i) over the positions i; Horner's rule gives
   * the same sum (SymbolsToIntConcat states the positional form).
   */
  function SymbolsToInt(s: string): (n: nat)
    requires IsSymbols(s)
    ensures n < Pow32(|s|)
  {
    if s == [] then 0
    else
      IndexOf(s[0]) + 32 * SymbolsToInt(s[1..])
  }

  /** The digits of n, least significant first, with no trailing zero symbols. */
  function Digits(n: nat): (d: string)
    ensures d == [] <==> n == 0
    ensures d != [] ==> d[|d| - 1] != Zero
  {
    if n == 0 then []
    else
      var rest := Digits(n / 32);
      assert rest == [] ==> Symbols[n % 32] != Zero by {
        SymbolsDistinct();
      }
      [Symbols[n % 32]] + rest
  }

  function Zeros(k: nat): (s: string)
    ensures |s| == k
  {
    seq(k, _ => Zero)
  }

  /** Python's str.ljust with the zero symbol: pads, never truncates. */
  function PadRight(s: string, size: nat): (r: string)
    ensures |r| == if |s| >= size then |s| else size
  {
    if |s| >= size then s else s + Zeros(size - |s|)
  }

  /** ljust keeps the string as its prefix and fills the rest with the zero symbol. */
  lemma PadRightContents(s: string, size: nat)
    ensures PadRight(s, size)[..|s|] == s
    ensures forall i | |s| <= i < |PadRight(s, size)| :: PadRight(s, size)[i] == Zero
  {
  }

  /**
   * int_to_symbols: n is first reduced modulo 2^20 whatever the field size,
   * then written out digit by digit and padded to size symbols.
   */
  function IntToSymbols(n: int, size: nat): (s: string)
    ensures IsSymbols(s)
    ensures |s| >= size
    ensures size >= LineSymbols ==> |s| == size
  {
    var m := n % LineModulus;
    FieldModuli();
    DigitsLength(m, LineSymbols);
    DigitsValue(m);
    PadRightSymbols(Digits(m), size);
    PadRight(Digits(m), size)
  }

  lemma {:induction false} SymbolsOfConcat(s: string, t: string)
    requires IsSymbols(s) && IsSymbols(t)
    ensures IsSymbols(s + t)
  {
    if s == [] {
      assert s + t == t;
    } else {
      SymbolsOfConcat(s[1..], t);
      assert (s + t)[1..] == s[1..] + t;
    }
  }

  lemma {:induction false} SymbolsOfSlice(s: string, i: nat, j: nat)
    requires IsSymbols(s) && i <= j <= |s|
    ensures IsSymbols(s[i..j])
  {
    if i > 0 {
      SymbolsOfSlice(s[1..], i - 1, j - 1);
      assert s[1..][i - 1..j - 1] == s[i..j];
    } else if j > 0 {
      SymbolsOfSlice(s[1..], 0, j - 1);
      assert s[i..j][1..] == s[1..][0..j - 1];
    }
  }

  /**
   * The positional form: appending t to s adds t's value shifted past the
   * |s| symbols of s, as the source's running sum does.
   */
  lemma {:induction false} SymbolsToIntConcat(s: string, t: string)
    requires IsSymbols(s) && IsSymbols(t)
    ensures IsSymbols(s + t)
    ensures SymbolsToInt(s + t) == SymbolsToInt(s) + Pow32(|s|) * SymbolsToInt(t)
  {
    SymbolsOfConcat(s, t);
    if s == [] {
      assert s + t == t;
    } else {
      var u := s[1..];
      SymbolsOfSlice(s, 1, |s|);
      SymbolsOfConcat(u, t);
      SymbolsToIntConcat(u, t);
      var d, vu, p, vt := IndexOf(s[0]), SymbolsToInt(u), Pow32(|u|), SymbolsToInt(t);
      var x := SymbolsToInt(u + t);
      assert SymbolsToInt(s + t) == d + 32 * x by {
        assert (s + t)[0] == s[0];
        assert (s + t)[1..] == u + t;
      }
      Arith.ShiftStep(d, x, vu, p, vt);
    }
  }

  /** Trailing zero symbols do not change a numeral's value. */
  lemma ZerosValue(s: string, k: nat)
    requires IsSymbols(s)
    ensures IsSymbols(s + Zeros(k))
    ensures SymbolsToInt(s + Zeros(k)) == SymbolsToInt(s)
  {
    ZerosAreZero(k);
    SymbolsToIntConcat(s, Zeros(k));
  }

  lemma PadRightSymbols(s: string, size: nat)
    requires IsSymbols(s)
    ensures IsSymbols(PadRight(s, size))
  {
    if |s| < size {
      ZerosValue(s, size - |s|);
    }
  }

  lemma {:induction false} ZerosAreZero(k: nat)
    ensures IsSymbols(Zeros(k))
    ensures SymbolsToInt(Zeros(k)) == 0
  {
    if k > 0 {
      assert Zeros(k)[1..] == Zeros(k - 1);
      ZerosAreZero(k - 1);
      IndexOfSymbol(0);
    }
  }

  /** The digit string of n is a numeral whose value is n. */
  lemma {:induction false} DigitsValue(n: nat)
    ensures IsSymbols(Digits(n))
    ensures SymbolsToInt(Digits(n)) == n
  {
    if n > 0 {
      DigitsValue(n / 32);
      IndexOfSymbol(n % 32);
      assert Digits(n)[1..] == Digits(n / 32);
    }
  }

  /** n needs at most k symbols exactly when it is below 32^k. */
  lemma {:induction false} DigitsLength(n: nat, k: nat)
    ensures |Digits(n)| <= k <==> n < Pow32(k)
  {
    if n > 0 && k > 0 {
      DigitsLength(n / 32, k - 1);
    }
  }

  /** Decoding an encoding gives n modulo 2^20, whatever the field size. */
  lemma IntToSymbolsRoundTrip(n: int, size: nat)
    ensures SymbolsToInt(IntToSymbols(n, size)) == n % LineModulus
  {
    var m := n % LineModulus;
    var d := Digits(m);
    DigitsValue(m);
    assert IntToSymbols(n, size) == PadRight(d, size);
    if |d| < size {
      ZerosValue(d, size - |d|);
    }
  }

  /**
   * The length of an encoding: at least size, exactly size when the reduced
   * value fits in size symbols, and never more symbols than a line needs.
   */
  lemma IntToSymbolsLength(n: int, size: nat)
    ensures |IntToSymbols(n, size)| >= size
    ensures |IntToSymbols(n, size)| == size <==> n % LineModulus < Pow32(size)
    ensures |IntToSymbols(n, size)| <= if size < LineSymbols then LineSymbols else size
  {
    var m := n % LineModulus;
    DigitsLength(m, size);
    DigitsLength(m, LineSymbols);
    FieldModuli();
  }

  lemma {:induction false} Pow32Monotone(j: nat, k: nat)
    requires j <= k
    ensures Pow32(j) <= Pow32(k)
  {
    if j < k {
      Pow32Monotone(j, k - 1);
    }
  }

  /** A numeral of at most a line's width is the encoding of its own value. */
  lemma SymbolsToIntRoundTrip(s: string)
    requires IsSymbols(s) && |s| <= LineSymbols
    ensures IntToSymbols(SymbolsToInt(s), |s|) == s
  {
    var v := SymbolsToInt(s);
    FieldModuli();
    Pow32Monotone(|s|, LineSymbols);
    assert v < LineModulus;
    Arith.SmallMod(v, LineModulus);
    assert IntToSymbols(v, |s|) == PadRight(Digits(v), |s|);
    PaddedDigits(s);
  }

  /** Digits peels the least significant symbol off a value. */
  lemma DigitsCons(d: nat, w: nat)
    requires d < 32 && d + 32 * w != 0
    ensures Digits(d + 32 * w) == [Symbols[d]] + Digits(w)
  {
    var v := d + 32 * w;
    assert v % 32 == d && v / 32 == w;
  }

  lemma PadRightCons(c: char, x: string, n: nat)
    requires |x| <= n
    ensures PadRight([c] + x, n + 1) == [c] + PadRight(x, n)
  {
    if |x| < n {
      assert PadRight([c] + x, n + 1) == ([c] + x) + Zeros(n - |x|);
    }
  }

  /** Padding the digits of a numeral's value back to its width restores it. */
  lemma {:induction false} PaddedDigits(s: string)
    requires IsSymbols(s)
    ensures PadRight(Digits(SymbolsToInt(s)), |s|) == s
  {
    if s == [] {
      assert SymbolsToInt(s) == 0;
      assert Digits(0) == [];
      assert PadRight([], 0) == [];
    } else {
      var c, t := s[0], s[1..];
      SymbolsOfSlice(s, 1, |s|);
      var w := SymbolsToInt(t);
      calc {
        PadRight(Digits(SymbolsToInt(s)), |s|);
        PadRight(Digits(IndexOf(c) + 32 * w), |t| + 1);
        { PadDigitsCons(c, w, |t|); }
        [c] + PadRight(Digits(w), |t|);
        { PaddedDigits(t); }
        [c] + t;
        { assert s == [c] + t; }
        s;
      }
    }
  }

  /** One more symbol c below a padded numeral of n symbols. */
  lemma PadDigitsCons(c: char, w: nat, n: nat)
    requires IsSymbol(c) && w < Pow32(n)
    ensures PadRight(Digits(IndexOf(c) + 32 * w), n + 1) == [c] + PadRight(Digits(w), n)
  {
    var d := IndexOf(c);
    assert d < 32 && Symbols[d] == c by {
      SymbolAtIndex(c);
    }
    if d == 0 && w == 0 {
      PadDigitsZero(n);
    } else {
      PadDigitsStep(d, w, n);
    }
  }


  lemma PadDigitsZero(n: nat)
    ensures PadRight(Digits(0), n + 1) == [Zero] + PadRight(Digits(0), n)
  {
    assert Zeros(n + 1) == [Zero] + Zeros(n);
  }

  lemma PadDigitsStep(d: nat, w: nat, n: nat)
    requires d < 32 && d + 32 * w != 0 && w < Pow32(n)
    ensures PadRight(Digits(d + 32 * w), n + 1) == [Symbols[d]] + PadRight(Digits(w), n)
  {
    DigitsLength(w, n);
    DigitsCons(d, w);
    PadRightCons(Symbols[d], Digits(w), n);
  }


  lemma TakeDrop(s: string, k: nat)
    requires k <= |s|
    ensures s == s[..k] + s[k..] && s[0..k] == s[..k] && s[k..|s|] == s[k..]
  {
  }

  /** A numeral split after k symbols: the low part plus the high part shifted by k places. */
  lemma SplitValue(s: string, k: nat)
    requires IsSymbols(s) && k <= |s|
    ensures IsSymbols(s[..k]) && IsSymbols(s[k..])
    ensures SymbolsToInt(s) == SymbolsToInt(s[..k]) + Pow32(k) * SymbolsToInt(s[k..])
  {
    var a, b := s[..k], s[k..];
    TakeDrop(s, k);
    SymbolsOfSlice(s, 0, k);
    SymbolsOfSlice(s, k, |s|);
    SymbolsToIntConcat(a, b);
  }
}
