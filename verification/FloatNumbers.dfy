/** What becomes of a whole number that passes through untyped JSON: it is read as a float64 and
    written again with the fewest digits that read as the same float64. */
module FloatNumbers {
  import opened Digits

  const TWO_TO_THE_52 := 0x10_0000_0000_0000
  const TWO_TO_THE_53 := 0x20_0000_0000_0000
  const TWO_TO_THE_54 := 0x40_0000_0000_0000

  /** The spacing of float64 values from n upwards. */
  function Ulp(n: nat): (u: nat)
    ensures u > 0
  {
    if n < TWO_TO_THE_53 then 1 else 2 * Ulp(n / 2)
  }

  function Float(n: nat): nat {
    Times(Rounded(n, Ulp(n)), Ulp(n))
  }

  /** How many digits n has. */
  function DigitCount(n: nat): (c: nat)
    ensures c > 0
  {
    if n < 10 then 1 else 1 + DigitCount(n / 10)
  }

  /** The digits of n after a pass through untyped JSON. */
  function Reprint(n: nat): (m: nat)
    ensures Float(m) == Float(n)
  {
    FloatTwice(n);
    ShortestReads(Float, Float(n), DigitCount(Float(n)));
    Shortest(Float, Float(n), DigitCount(Float(n)))
  }

  // ---- The spacing ----

  /** n lies between 2^52 and 2^53 spacings. */
  lemma {:induction false} UlpBounds(n: nat)
    requires n >= TWO_TO_THE_53
    ensures Ulp(n) >= 2 && TWO_TO_THE_52 * Ulp(n) <= n < TWO_TO_THE_53 * Ulp(n)
    ensures n >= TWO_TO_THE_54 ==> Ulp(n) >= 4
  {
    if n / 2 >= TWO_TO_THE_53 {
      UlpBounds(n / 2);
    }
  }

  /** Within those bounds the spacing is the same. */
  lemma {:induction false} UlpSame(n: nat, m: nat)
    requires n >= TWO_TO_THE_53 && TWO_TO_THE_52 * Ulp(n) <= m < TWO_TO_THE_53 * Ulp(n)
    ensures Ulp(m) == Ulp(n)
  {
    UlpBounds(n);
    if n / 2 >= TWO_TO_THE_53 {
      UlpSame(n / 2, m / 2);
    }
  }

  lemma {:induction false} UlpOfPower(n: nat)
    requires n >= TWO_TO_THE_53
    ensures Ulp(TWO_TO_THE_53 * Ulp(n)) == 2 * Ulp(n)
  {
    if n / 2 >= TWO_TO_THE_53 {
      UlpOfPower(n / 2);
      assert TWO_TO_THE_53 * Ulp(n) / 2 == TWO_TO_THE_53 * Ulp(n / 2);
    } else {
      assert Ulp(TWO_TO_THE_53) == 2 * Ulp(TWO_TO_THE_52);
      assert Ulp(n) == 2;
      assert Ulp(TWO_TO_THE_54) == 2 * Ulp(TWO_TO_THE_53);
    }
  }

  lemma {:induction false} UlpMono(m: nat, n: nat)
    requires m <= n
    ensures Ulp(m) == Ulp(n) || 2 * Ulp(m) <= Ulp(n)
    decreases n
  {
    if m >= TWO_TO_THE_53 {
      UlpMono(m / 2, n / 2);
    } else if n >= TWO_TO_THE_53 {
      UlpBounds(n);
    }
  }

  // ---- Reading ----

  lemma TimesOne(k: nat)
    ensures Times(k, 1) == k
  {
    TimesIs(k, 1);
  }

  lemma SmallIsFloat(n: nat)
    requires n < TWO_TO_THE_53
    ensures Ulp(n) == 1 && Float(n) == n
  {
    TimesOne(n);
    RoundedMultiple(n, 1);
  }

  /** A large number is between 2^52 and 2^53 spacings when it is read. */
  lemma RoundedBounds(n: nat)
    requires n >= TWO_TO_THE_53
    ensures TWO_TO_THE_52 <= Rounded(n, Ulp(n)) <= TWO_TO_THE_53
    ensures TWO_TO_THE_52 * Ulp(n) <= Float(n) <= TWO_TO_THE_53 * Ulp(n)
  {
    UlpBounds(n);
    TimesIs(TWO_TO_THE_52, Ulp(n));
    TimesIs(TWO_TO_THE_53, Ulp(n));
    RoundedWithin(n, Ulp(n), TWO_TO_THE_52, TWO_TO_THE_53);
  }

  /** A float64 reads as itself. */
  lemma FloatTwice(n: nat)
    ensures Float(Float(n)) == Float(n)
  {
    if n < TWO_TO_THE_53 {
      SmallIsFloat(n);
    } else {
      RoundedBounds(n);
      MultipleIsFloat(n, Rounded(n, Ulp(n)));
    }
  }

  lemma MultipleIsFloat(n: nat, k: nat)
    requires n >= TWO_TO_THE_53 && TWO_TO_THE_52 <= k <= TWO_TO_THE_53
    ensures Float(Times(k, Ulp(n))) == Times(k, Ulp(n))
  {
    if k < TWO_TO_THE_53 {
      InsideBinade(k, Ulp(n));
      UlpSame(n, Times(k, Ulp(n)));
      SpacingFloat(k, Ulp(n));
    } else {
      TopOfBinade(n);
    }
  }

  lemma InsideBinade(k: nat, u: nat)
    requires u > 0 && TWO_TO_THE_52 <= k < TWO_TO_THE_53
    ensures TWO_TO_THE_52 * u <= Times(k, u) < TWO_TO_THE_53 * u
  {
    TimesIs(TWO_TO_THE_52, u);
    TimesIs(TWO_TO_THE_53, u);
    TimesMono(TWO_TO_THE_52, k, u);
    TimesMono(k + 1, TWO_TO_THE_53, u);
  }

  lemma TopOfBinade(n: nat)
    requires n >= TWO_TO_THE_53
    ensures Float(Times(TWO_TO_THE_53, Ulp(n))) == Times(TWO_TO_THE_53, Ulp(n))
  {
    UlpOfPower(n);
    Doubled(Ulp(n));
    SpacingFloat(TWO_TO_THE_52, 2 * Ulp(n));
  }

  lemma Doubled(u: nat)
    ensures Times(TWO_TO_THE_53, u) == TWO_TO_THE_53 * u == Times(TWO_TO_THE_52, 2 * u)
  {
    TimesIs(TWO_TO_THE_53, u);
    TimesIs(TWO_TO_THE_52, 2 * u);
  }

  lemma SpacingFloat(k: nat, u: nat)
    requires u > 0 && Ulp(Times(k, u)) == u
    ensures Float(Times(k, u)) == Times(k, u)
  {
    RoundedMultiple(k, u);
  }

  /** Reading keeps the order of numbers. */
  lemma FloatMono(m: nat, n: nat)
    requires m <= n
    ensures Float(m) <= Float(n)
  {
    UlpMono(m, n);
    if Ulp(m) == Ulp(n) {
      RoundedMono(m, n, Ulp(m));
      TimesMono(Rounded(m, Ulp(m)), Rounded(n, Ulp(m)), Ulp(m));
    } else {
      RoundedBounds(n);
      if m < TWO_TO_THE_53 {
        SmallIsFloat(m);
      } else {
        RoundedBounds(m);
      }
    }
  }

  lemma FloatIsMonotone()
    ensures Monotone(Float)
  {
    forall m, n | m <= n ensures Float(m) <= Float(n) {
      FloatMono(m, n);
    }
  }

  // ---- Which numbers survive ----

  /** What is written for a number: a multiple, and the nearest one, of the highest power of ten that
      has a multiple reading as the same float64. */
  lemma ReprintIs(n: nat) returns (i: nat)
    ensures i <= DigitCount(Float(n)) && WrittenWith(Float, Float(n), i, Reprint(n))
    ensures NoneAbove(Float, Float(n), i, DigitCount(Float(n)))
  {
    FloatTwice(n);
    FloatIsMonotone();
    var m;
    i, m := ShortestIs(Float, Float(n), DigitCount(Float(n)));
  }

  /** So a second pass changes nothing more. */
  lemma ReprintTwice(n: nat)
    ensures Reprint(Reprint(n)) == Reprint(n)
  {
  }

  /** A float64 value keeps its digits if and only if it ends in as many zeros as any number that
      reads the same: no shorter multiple of a power of ten does. */
  lemma FloatSurvivesIff(n: nat)
    requires Float(n) == n
    ensures Reprint(n) == n <==> Roundest(Float, n)
  {
    SurvivesWithin(n);
    forall i | i > DigitCount(n) && HasMultiple(Float, n, Pow10(i)) ensures n == 0 {
      NoMoreZeros(n, i);
    }
    RoundestIff(Float, n, DigitCount(n));
  }

  lemma SurvivesWithin(n: nat)
    requires Float(n) == n
    ensures Reprint(n) == n <==> RoundAsAny(Float, n, DigitCount(n))
  {
    FloatIsMonotone();
    ValueWrittenIff(Float, n, DigitCount(n));
  }

  /** Only zero reads the same as a number with more zeros than it has digits. */
  lemma NoMoreZeros(f: nat, i: nat)
    requires i > DigitCount(f) && HasMultiple(Float, f, Pow10(i))
    ensures f == 0
  {
    var k :| Float(Times(k, Pow10(i))) == f;
    if k == 0 {
      SmallIsFloat(0);
    } else {
      ReadsAtLeastHalf(Times(k, Pow10(i)));
      TimesMono(1, k, Pow10(i));
      AbovePower(f, i);
    }
  }

  lemma ReadsAtLeastHalf(m: nat)
    ensures 2 * Float(m) >= m
  {
    if m < TWO_TO_THE_53 {
      SmallIsFloat(m);
    } else {
      UlpBounds(m);
      RoundedBounds(m);
    }
  }

  lemma {:induction false} AbovePower(n: nat, i: nat)
    requires i > DigitCount(n)
    ensures Pow10(i) > 10 * n
  {
    if n >= 10 {
      AbovePower(n / 10, i - 1);
    } else {
      assert Pow10(i) == 10 * Pow10(i - 1) == 100 * Pow10(i - 2);
    }
  }

  /** Any number keeps its digits if and only if it is the nearest to its float64 of all multiples of
      the highest power of ten that has multiples reading the same. */
  lemma SurvivesIff(n: nat)
    ensures Reprint(n) == n <==>
              exists i :: 0 <= i <= DigitCount(Float(n)) && WrittenWith(Float, Float(n), i, n)
                          && NoneAbove(Float, Float(n), i, DigitCount(Float(n)))
  {
    FloatTwice(n);
    FloatIsMonotone();
    WrittenAsIsIff(Float, n, DigitCount(Float(n)));
  }

  // ---- Numbers below 2^54 ----

  lemma SpacingTwo(m: nat)
    requires TWO_TO_THE_53 <= m < TWO_TO_THE_54
    ensures Ulp(m) == 2
    ensures Float(m) % 2 == 0 && m - 1 <= Float(m) <= m + 1 && Float(m) >= TWO_TO_THE_53
  {
    assert Ulp(m / 2) == 1 && Ulp(m) == 2;
    RoundedByTwo(m, 2);
  }

  lemma RoundedByTwo(m: nat, u: nat)
    requires u == 2
    ensures Times(Rounded(m, u), u) % 2 == 0 && m - 1 <= Times(Rounded(m, u), u) <= m + 1
    ensures m % 2 == 0 ==> Times(Rounded(m, u), u) == m
  {
    var k, q := Rounded(m, u), Quotient(m, u);
    TimesIs(k, u);
    TimesIs(q, u);
  }

  /** Below 2^54 only neighbours of f read as f. */
  lemma ReadsAsSmall(f: nat, m: nat)
    requires f < TWO_TO_THE_54 && Float(m) == f
    ensures f < TWO_TO_THE_53 ==> m == f
    ensures f >= TWO_TO_THE_53 ==> f % 2 == 0 && f - 1 <= m <= f + 1
  {
    if m >= TWO_TO_THE_54 {
      RoundedBounds(m);
      UlpBounds(m);
    } else if m >= TWO_TO_THE_53 {
      SpacingTwo(m);
    } else {
      SmallIsFloat(m);
    }
  }

  lemma ReprintOrZero(n: nat)
    ensures Reprint(n) == Float(n) || Reprint(n) % 10 == 0
  {
    ValueOrZero(Float, Float(n), DigitCount(Float(n)));
  }

  lemma ShortestSmall(f: nat)
    requires f < TWO_TO_THE_54 && Float(f) == f
    ensures Reprint(f) == f
  {
    ReprintOrZero(f);
    ReadsAsSmall(f, Reprint(f));
    OneTenAround(f, Reprint(f));
  }

  lemma OneTenAround(f: nat, m: nat)
    requires m == f || (m % 10 == 0 && f % 2 == 0 && f - 1 <= m <= f + 1)
    ensures m == f
  {
  }

  lemma SmallSurvives(n: nat)
    requires n < TWO_TO_THE_53
    ensures Reprint(n) == n
  {
    SmallIsFloat(n);
    ShortestSmall(n);
  }

  lemma EvenSurvives(n: nat)
    requires TWO_TO_THE_53 <= n < TWO_TO_THE_54 && n % 2 == 0
    ensures Reprint(n) == n
  {
    SpacingTwo(n);
    RoundedByTwo(n, 2);
    ShortestSmall(n);
  }

  /** Up to 2^53 every number survives; from there to 2^54 the even ones do. */
  lemma SmallSurvivesIff(n: nat)
    requires n < TWO_TO_THE_54
    ensures Reprint(n) == n <==> n <= TWO_TO_THE_53 || n % 2 == 0
  {
    if n < TWO_TO_THE_53 {
      SmallSurvives(n);
    } else if n % 2 == 0 {
      EvenSurvives(n);
    } else {
      OddIsAbove(n);
      OddLost(n);
    }
  }

  lemma OddIsAbove(n: nat)
    requires n >= TWO_TO_THE_53 && n % 2 == 1
    ensures n > TWO_TO_THE_53
  {
  }

  lemma OddLost(n: nat)
    requires TWO_TO_THE_53 <= n < TWO_TO_THE_54 && n % 2 == 1
    ensures Reprint(n) != n
  {
    SpacingTwo(n);
    ReprintOrZero(n);
    EvenNumbers(Reprint(n), Float(n));
  }

  lemma EvenNumbers(m: nat, f: nat)
    requires f % 2 == 0 && (m == f || m % 10 == 0)
    ensures m % 2 == 0
  {
  }

  // ---- A float64 value that is lost ----

  /** 2^63 is a float64 value, but another number ending in a zero reads the same. */
  lemma PowerOfTwoLost(n: nat)
    requires n == 0x8000_0000_0000_0000
    ensures Float(n) == n && Reprint(n) != n
  {
    var k := 922337203685477581;
    BigUlp();
    ReadsAs2048(n, TWO_TO_THE_52, 0);
    ReadsAs2048(10 * k, TWO_TO_THE_52, 2);
    LosesDigits(n, k);
  }

  lemma LosesDigits(n: nat, k: nat)
    requires n % 10 != 0 && Float(n) == n && Float(10 * k) == n
    ensures Reprint(n) != n
  {
    FloatIsMonotone();
    ZeroIsShorter(Float, n, DigitCount(n), k);
  }

  lemma BigUlp()
    ensures Ulp(0x8000_0000_0000_0000) == 2048
  {
    assert Ulp(0x10_0000_0000_0000) == 1;
    assert Ulp(0x20_0000_0000_0000) == 2;
    assert Ulp(0x40_0000_0000_0000) == 4;
    assert Ulp(0x80_0000_0000_0000) == 8;
    assert Ulp(0x100_0000_0000_0000) == 16;
    assert Ulp(0x200_0000_0000_0000) == 32;
    assert Ulp(0x400_0000_0000_0000) == 64;
    assert Ulp(0x800_0000_0000_0000) == 128;
    assert Ulp(0x1000_0000_0000_0000) == 256;
    assert Ulp(0x2000_0000_0000_0000) == 512;
    assert Ulp(0x4000_0000_0000_0000) == 1024;
  }

  lemma ReadsAs2048(n: nat, k: nat, r: nat)
    requires Ulp(0x8000_0000_0000_0000) == 2048
    requires TWO_TO_THE_52 <= k < TWO_TO_THE_53 && r < 1024 && n == k * 2048 + r
    ensures Float(n) == k * 2048
  {
    UlpSame(0x8000_0000_0000_0000, n);
    TimesIs(k, 2048);
    QuotientIs(n, 2048, k);
  }
}
