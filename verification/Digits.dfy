/** Writing a number with the fewest digits that still read as the same value, whatever the reader
    is that takes digits to values. Products and quotients are sums here, so that the proofs are
    about linear arithmetic. */
module Digits {
  import opened Basics

  /** k times t. */
  function Times(k: nat, t: nat): nat {
    if k == 0 then 0 else t + Times(k - 1, t)
  }

  /** How often u goes into n. */
  function Quotient(n: nat, u: nat): (q: nat)
    requires u > 0
    ensures Times(q, u) <= n < Times(q, u) + u
  {
    if n < u then 0 else 1 + Quotient(n - u, u)
  }

  /** How often u goes into n, to the nearest number, of two the even one. */
  function Rounded(n: nat, u: nat): (k: nat)
    requires u > 0
    ensures Quotient(n, u) <= k <= Quotient(n, u) + 1
  {
    var q := Quotient(n, u);
    var r := n - Times(q, u);
    if 2 * r > u || (2 * r == u && q % 2 == 1) then q + 1 else q
  }

  function Pow10(j: nat): (p: nat)
    ensures p > 0
  {
    if j == 0 then 1 else 10 * Pow10(j - 1)
  }

  /** Reading keeps the order of numbers. */
  ghost predicate Monotone(value: nat -> nat) {
    forall m, n :: m <= n ==> value(m) <= value(n)
  }

  /** The multiple of t that reads as the value f and is nearest to f, if there is one. */
  function Multiple(value: nat -> nat, f: nat, t: nat): (m: Option<nat>)
    requires t > 0
    ensures m.Some? ==> value(m.value) == f
  {
    var near, below := Times(Rounded(f, t), t), Times(Quotient(f, t), t);
    if value(near) == f then Some(near)
    else if value(below) == f then Some(below)
    else if value(below + t) == f then Some(below + t)
    else None
  }

  /** The highest number from 1 to j that is found, or 0 if none is. */
  function Highest(found: nat -> bool, j: nat): (i: nat)
    ensures i <= j && (i > 0 ==> found(i)) && forall h :: i < h <= j ==> !found(h)
  {
    if j == 0 || found(j) then j else Highest(found, j - 1)
  }

  /** The powers of ten with a multiple that reads as f. */
  function Powers(value: nat -> nat, f: nat): nat -> bool {
    (h: nat) => Multiple(value, f, Pow10(h)).Some?
  }

  /** f with as many final zeros as possible, at most j. */
  function Shortest(value: nat -> nat, f: nat, j: nat): nat {
    var i := Highest(Powers(value, f), j);
    if i == 0 then f else Multiple(value, f, Pow10(i)).value
  }

  // ---- Products and quotients ----

  lemma {:induction false} TimesIs(k: nat, t: nat)
    ensures Times(k, t) == k * t
  {
    if k > 0 {
      TimesIs(k - 1, t);
      assert k * t == (k - 1) * t + t;
    }
  }

  lemma {:induction false} TimesMono(k: nat, l: nat, t: nat)
    requires k <= l
    ensures Times(k, t) <= Times(l, t)
    decreases l
  {
    if k < l {
      TimesMono(k, l - 1, t);
    }
  }

  lemma QuotientIs(n: nat, u: nat, q: nat)
    requires u > 0 && Times(q, u) <= n < Times(q, u) + u
    ensures Quotient(n, u) == q
  {
    var p := Quotient(n, u);
    if p < q {
      TimesMono(p + 1, q, u);
    } else if q < p {
      TimesMono(q + 1, p, u);
    }
  }

  lemma RoundedMultiple(k: nat, u: nat)
    requires u > 0
    ensures Rounded(Times(k, u), u) == k
  {
    QuotientIs(Times(k, u), u, k);
  }

  lemma QuotientWithin(n: nat, u: nat, a: nat, b: nat)
    requires u > 0 && Times(a, u) <= n < Times(b, u)
    ensures a <= Quotient(n, u) < b
  {
    var q := Quotient(n, u);
    if q < a {
      TimesMono(q + 1, a, u);
    } else if b <= q {
      TimesMono(b, q, u);
    }
  }

  lemma RoundedWithin(n: nat, u: nat, a: nat, b: nat)
    requires u > 0 && Times(a, u) <= n < Times(b, u)
    ensures a <= Rounded(n, u) <= b
    ensures Times(a, u) <= Times(Rounded(n, u), u) <= Times(b, u)
  {
    QuotientWithin(n, u, a, b);
    TimesMono(a, Rounded(n, u), u);
    TimesMono(Rounded(n, u), b, u);
  }

  lemma RoundedMono(m: nat, n: nat, u: nat)
    requires m <= n && u > 0
    ensures Rounded(m, u) <= Rounded(n, u)
  {
    var q, p := Quotient(m, u), Quotient(n, u);
    if q > p {
      TimesMono(p + 1, q, u);
    }
  }

  lemma {:induction false} TimesTen(k: nat, t: nat)
    ensures Times(k, 10 * t) == Times(10 * k, t)
  {
    if k > 0 {
      TimesTen(k - 1, t);
      TenMore(10 * (k - 1), t);
    }
  }

  lemma TenMore(k: nat, t: nat)
    ensures Times(k + 10, t) == Times(k, t) + 10 * t
  {
    TwoMore(k, t);
    TwoMore(k + 2, t);
    TwoMore(k + 4, t);
    TwoMore(k + 6, t);
    TwoMore(k + 8, t);
  }

  lemma TwoMore(k: nat, t: nat)
    ensures Times(k + 2, t) == Times(k, t) + 2 * t
  {
    assert Times(k + 1, t) == Times(k, t) + t;
  }

  // ---- What is written ----

  ghost predicate Divides(t: nat, n: nat) {
    exists k: nat :: Times(k, t) == n
  }

  /** The search finds a multiple of t that reads as f whenever there is one. */
  lemma MultipleFound(value: nat -> nat, f: nat, t: nat, k: nat)
    requires Monotone(value) && t > 0 && value(f) == f && value(Times(k, t)) == f
    ensures Multiple(value, f, t).Some?
  {
    var q := Quotient(f, t);
    if k <= q {
      TimesMono(k, q, t);
      assert value(Times(k, t)) <= value(Times(q, t)) <= value(f);
    } else {
      TimesMono(q + 1, k, t);
      assert value(f) <= value(Times(q, t) + t) <= value(Times(k, t));
    }
  }

  lemma MultipleIs(value: nat -> nat, f: nat, t: nat) returns (k: nat)
    requires t > 0 && Multiple(value, f, t).Some?
    ensures Multiple(value, f, t).value == Times(k, t)
  {
    var m := Multiple(value, f, t).value;
    if m == Times(Rounded(f, t), t) {
      k := Rounded(f, t);
    } else if m == Times(Quotient(f, t), t) {
      k := Quotient(f, t);
    } else {
      k := Quotient(f, t) + 1;
    }
  }

  /** Some multiple of t reads as f. */
  ghost predicate HasMultiple(value: nat -> nat, f: nat, t: nat) {
    exists k :: value(Times(k, t)) == f
  }

  /** No multiple of a power of ten from the (i + 1)-th to the j-th reads as f. */
  ghost predicate NoneAbove(value: nat -> nat, f: nat, i: nat, j: nat) {
    forall h :: i < h <= j ==> !HasMultiple(value, f, Pow10(h))
  }

  /** m is f itself for i = 0, else the multiple of the i-th power of ten nearest to f that reads as
      f. */
  predicate WrittenWith(value: nat -> nat, f: nat, i: nat, m: nat) {
    if i == 0 then m == f else Multiple(value, f, Pow10(i)) == Some(m)
  }

  lemma NotFound(value: nat -> nat, f: nat, t: nat)
    requires Monotone(value) && t > 0 && value(f) == f && Multiple(value, f, t).None?
    ensures !HasMultiple(value, f, t)
  {
    if k :| value(Times(k, t)) == f {
      MultipleFound(value, f, t, k);
    }
  }

  /** What is written for f: a multiple, and the nearest one, of the highest power of ten that has a
      multiple reading as f. */
  lemma ShortestIs(value: nat -> nat, f: nat, j: nat) returns (i: nat, m: nat)
    requires Monotone(value) && value(f) == f
    ensures m == Shortest(value, f, j) && i <= j && WrittenWith(value, f, i, m) && NoneAbove(value, f, i, j)
  {
    i, m := Highest(Powers(value, f), j), Shortest(value, f, j);
    forall h | i < h <= j ensures !HasMultiple(value, f, Pow10(h)) {
      assert !Powers(value, f)(h);
      NotFound(value, f, Pow10(h));
    }
  }

  /** What is written reads as the same value. */
  lemma ShortestReads(value: nat -> nat, f: nat, j: nat)
    requires value(f) == f
    ensures value(Shortest(value, f, j)) == f
  {
  }

  // ---- Which numbers are written as they are ----

  lemma NotHighest(value: nat -> nat, f: nat, i: nat, h: nat, j: nat, m: nat)
    requires i < h <= j && WrittenWith(value, f, h, m)
    ensures !NoneAbove(value, f, i, j)
  {
    var k := MultipleIs(value, f, Pow10(h));
    assert value(Times(k, Pow10(h))) == f;
    assert HasMultiple(value, f, Pow10(h));
  }

  lemma HighestIsUnique(value: nat -> nat, f: nat, j: nat, n: nat, i: nat, m: nat, h: nat)
    requires i <= j && WrittenWith(value, f, i, n) && NoneAbove(value, f, i, j)
    requires h <= j && WrittenWith(value, f, h, m) && NoneAbove(value, f, h, j)
    ensures m == n
  {
    if i < h {
      NotHighest(value, f, i, h, j, m);
    } else if h < i {
      NotHighest(value, f, h, i, j, n);
    }
  }

  /** Any number is written as it is if and only if it is the nearest to its value of all multiples
      of the highest power of ten that has multiples reading the same. */
  lemma WrittenAsIsIff(value: nat -> nat, n: nat, j: nat)
    requires Monotone(value) && value(value(n)) == value(n)
    ensures Shortest(value, value(n), j) == n <==>
              exists i :: 0 <= i <= j && WrittenWith(value, value(n), i, n) && NoneAbove(value, value(n), i, j)
  {
    var f := value(n);
    var h, m := ShortestIs(value, f, j);
    if i :| 0 <= i <= j && WrittenWith(value, f, i, n) && NoneAbove(value, f, i, j) {
      HighestIsUnique(value, f, j, n, i, m, h);
    }
  }

  lemma {:induction false} PowerDivides(i: nat, j: nat, k: nat)
    requires i <= j
    ensures Divides(Pow10(i), Times(k, Pow10(j)))
    decreases j
  {
    if i < j {
      TimesTen(k, Pow10(j - 1));
      PowerDivides(i, j - 1, 10 * k);
    } else {
      assert Times(k, Pow10(i)) == Times(k, Pow10(j));
    }
  }

  /** The number ends in as many zeros, up to j, as any number that reads the same. */
  ghost predicate RoundAsAny(value: nat -> nat, n: nat, j: nat) {
    forall i :: 0 < i <= j && HasMultiple(value, n, Pow10(i)) ==> Divides(Pow10(i), n)
  }

  /** The number ends in as many zeros as any number that reads the same. */
  ghost predicate Roundest(value: nat -> nat, n: nat) {
    forall i: nat :: HasMultiple(value, n, Pow10(i)) ==> Divides(Pow10(i), n)
  }

  lemma RoundestIff(value: nat -> nat, n: nat, j: nat)
    requires forall i :: i > j && HasMultiple(value, n, Pow10(i)) ==> n == 0
    ensures RoundAsAny(value, n, j) <==> Roundest(value, n)
  {
    if RoundAsAny(value, n, j) {
      forall i: nat | HasMultiple(value, n, Pow10(i)) ensures Divides(Pow10(i), n) {
        if i == 0 {
          TimesIs(n, Pow10(0));
        } else if i > j {
          assert Times(0, Pow10(i)) == n;
        }
      }
    }
  }

  lemma WrittenIsRound(value: nat -> nat, n: nat, h: nat, i: nat)
    requires i <= h && Multiple(value, n, Pow10(h)) == Some(n)
    ensures Divides(Pow10(i), n)
  {
    var m := MultipleIs(value, n, Pow10(h));
    PowerDivides(i, h, m);
  }

  lemma RoundIsWritten(value: nat -> nat, n: nat, t: nat)
    requires t > 0 && value(n) == n && Divides(t, n)
    ensures Multiple(value, n, t) == Some(n)
  {
    var k: nat :| Times(k, t) == n;
    RoundedMultiple(k, t);
  }

  /** A value is written as it is if and only if it ends in as many zeros as any number that reads
      the same: no shorter multiple of a power of ten does. */
  lemma ValueWrittenIff(value: nat -> nat, n: nat, j: nat)
    requires Monotone(value) && value(n) == n
    ensures Shortest(value, n, j) == n <==> RoundAsAny(value, n, j)
  {
    var h, m := ShortestIs(value, n, j);
    if m == n {
      forall i | 0 < i <= j && HasMultiple(value, n, Pow10(i)) ensures Divides(Pow10(i), n) {
        WrittenIsRound(value, n, h, i);
      }
    } else if RoundAsAny(value, n, j) {
      var k := MultipleIs(value, n, Pow10(h));
      assert value(Times(k, Pow10(h))) == n;
      RoundIsWritten(value, n, Pow10(h));
    }
  }

  lemma EndsInZero(k: nat, j: nat)
    requires j > 0
    ensures Times(k, Pow10(j)) % 10 == 0
  {
    PowerDivides(1, j, k);
    var l: nat :| Times(l, Pow10(1)) == Times(k, Pow10(j));
    TenTimes(l);
  }

  /** What is written is the value itself or ends in a zero. */
  lemma ValueOrZero(value: nat -> nat, f: nat, j: nat)
    ensures Shortest(value, f, j) == f || Shortest(value, f, j) % 10 == 0
  {
    var i := Highest(Powers(value, f), j);
    if i > 0 {
      var k := MultipleIs(value, f, Pow10(i));
      EndsInZero(k, i);
    }
  }

  /** A value that does not end in a zero is not written as it is when some number that does reads
      the same. */
  lemma ZeroIsShorter(value: nat -> nat, n: nat, j: nat, k: nat)
    requires Monotone(value) && value(n) == n && value(10 * k) == n && n % 10 != 0 && j > 0
    ensures Shortest(value, n, j) != n
  {
    HasTen(value, n, k);
    NoTen(n);
    NotRound(value, n, 1, j);
    ValueWrittenIff(value, n, j);
  }

  lemma NotRound(value: nat -> nat, n: nat, i: nat, j: nat)
    requires 0 < i <= j && HasMultiple(value, n, Pow10(i)) && !Divides(Pow10(i), n)
    ensures !RoundAsAny(value, n, j)
  {
  }

  lemma HasTen(value: nat -> nat, n: nat, k: nat)
    requires value(10 * k) == n
    ensures HasMultiple(value, n, Pow10(1))
  {
    TenTimes(k);
  }

  lemma NoTen(n: nat)
    requires n % 10 != 0
    ensures !Divides(Pow10(1), n)
  {
    forall l: nat ensures Times(l, Pow10(1)) == 10 * l {
      TenTimes(l);
    }
  }

  lemma TenTimes(k: nat)
    ensures Times(k, Pow10(1)) == 10 * k
  {
    FirstPower();
    TimesIs(k, 10);
  }

  lemma FirstPower()
    ensures Pow10(1) == 10
  {
    assert Pow10(0) == 1;
  }
}
