/** The level meter of the voice activity detector: the integer root mean square of a sample buffer. */
module RootMeanSquare {
  newtype int16 = x: int | -0x8000 <= x < 0x8000
  newtype uint32 = x: int | 0 <= x < 0x1_0000_0000
  newtype uint64 = x: int | 0 <= x < 0x1_0000_0000_0000_0000

  ghost function SumSquares(s: seq<int16>): nat {
    if s == [] then 0 else SumSquares(s[..|s|-1]) + (s[|s|-1] as int) * (s[|s|-1] as int)
  }

  function Magnitude(x: int16): nat {
    if x < 0 then -(x as int) else x as int
  }

  /** r is the root mean square of the samples, rounded down. */
  ghost predicate IsRms(r: nat, s: seq<int16>) {
    r * r * |s| <= SumSquares(s) < (r + 1) * (r + 1) * |s|
  }

  function Pow2(k: nat): (p: nat)
    ensures p > 0
  {
    if k == 0 then 1 else 2 * Pow2(k - 1)
  }

  lemma {:induction false} SumWithin(s: seq<int16>, lo: nat, hi: nat)
    requires forall x :: x in s ==> lo <= Magnitude(x) <= hi
    ensures lo * lo * |s| <= SumSquares(s) <= hi * hi * |s|
  {
    if s != [] {
      var x := s[|s|-1];
      SumWithin(s[..|s|-1], lo, hi);
      SquaresOrdered(lo, Magnitude(x));
      SquaresOrdered(Magnitude(x), hi);
      assert (x as int) * (x as int) == Magnitude(x) * Magnitude(x);
      OneMoreTerm(lo * lo, |s|);
      OneMoreTerm(hi * hi, |s|);
    }
  }

  lemma OneMoreTerm(a: nat, n: nat)
    ensures a * n == a * (n - 1) + a
  {
  }

  lemma SquaresOrdered(a: nat, b: nat)
    ensures a <= b <==> a * a <= b * b
  {
    if a <= b {
      assert a * a <= a * b <= b * b;
    } else {
      assert b * b <= b * a;
      assert b * a < a * a;
    }
  }

  lemma ScaledOrdered(a: nat, b: nat, n: nat)
    ensures a <= b ==> a * n <= b * n
    ensures n > 0 && a * n <= b * n ==> a <= b
  {
  }

  /** The root mean square lies between the smallest and the largest magnitude of the buffer. */
  lemma RmsBetweenExtremes(r: nat, s: seq<int16>, lo: nat, hi: nat)
    requires s != [] && IsRms(r, s)
    requires forall x :: x in s ==> lo <= Magnitude(x) <= hi
    ensures lo <= r <= hi
  {
    SumWithin(s, lo, hi);
    ScaledOrdered(r * r, hi * hi, |s|);
    SquaresOrdered(r, hi);
    if lo > r {
      SquaresOrdered(r + 1, lo);
      ScaledOrdered((r + 1) * (r + 1), lo * lo, |s|);
      assert false;
    }
  }

  lemma RmsUnique(r: nat, q: nat, s: seq<int16>)
    requires s != [] && IsRms(r, s) && IsRms(q, s)
    ensures r == q
  {
    if r < q { NotBelow(r, q, s); } else if q < r { NotBelow(q, r, s); }
  }

  lemma NotBelow(r: nat, q: nat, s: seq<int16>)
    requires s != [] && IsRms(r, s) && IsRms(q, s)
    ensures r >= q
  {
    if r < q {
      SquaresOrdered(r + 1, q);
      ScaledOrdered((r + 1) * (r + 1), q * q, |s|);
      assert false;
    }
  }

  /** From the mean of the squares to the bounds on their sum. */
  lemma RootOfMean(r: nat, sum: nat, n: nat)
    requires n > 0 && r * r <= sum / n < (r + 1) * (r + 1)
    ensures r * r * n <= sum < (r + 1) * (r + 1) * n
  {
    var mean := sum / n;
    QuotientAndRest(sum, n);
    ScaledOrdered(r * r, mean, n);
    ScaledOrdered(mean + 1, (r + 1) * (r + 1), n);
    assert (mean + 1) * n == mean * n + n;
  }

  lemma QuotientAndRest(sum: nat, n: nat)
    requires n > 0
    ensures (sum / n) * n <= sum < (sum / n) * n + n
  {
  }

  /** One digit of the root: with s found so far and p the next binary digit to try. */
  lemma DigitStep(s: nat, p: nat, mean: nat, remainder: nat)
    requires s * s + remainder == mean && mean < (s + 2 * p) * (s + 2 * p) && s + 2 * p <= 0x1_0000_0000 && p > 0
    ensures 2 * (s * p) + p * p < 0x1_0000_0000_0000_0000
    ensures remainder >= 2 * (s * p) + p * p ==>
              (s + p) * (s + p) + (remainder - (2 * (s * p) + p * p)) == mean && mean < (s + p + p) * (s + p + p)
    ensures remainder < 2 * (s * p) + p * p ==> mean < (s + p) * (s + p)
    ensures s * p + p * p == (s + p) * p
  {
    assert (s + p) * (s + p) == s * s + 2 * (s * p) + p * p;
    SquaresOrdered(s + p, 0xFFFF_FFFF);
  }

  lemma LargestDigit()
    ensures Pow2(31) == 0x8000_0000
  {
    assert Pow2(8) == 0x100;
    assert Pow2(16) == 0x100 * Pow2(8);
    assert Pow2(24) == 0x100 * Pow2(16);
  }

  lemma QuarterSquare(q: nat)
    ensures (2 * q) * (2 * q) / 4 == q * q
  {
    assert (2 * q) * (2 * q) == 4 * (q * q);
  }

  /** The variables of the loop over binary digits: still digits to try, or done. */
  ghost predicate RootSoFar(root: nat, bit: nat, remainder: nat, s: nat, k: nat, mean: nat) {
    && s * s + remainder == mean
    && if bit != 0 then DigitsAbove(root, bit, s, k, mean)
       else root == s && mean < (s + 1) * (s + 1) && s + 1 <= 0x1_0000_0000
  }

  /** A power of four whose fourfold is above the mean, or 0 for the mean 0. */
  ghost predicate Candidate(bit: nat, k: nat, mean: nat) {
    if bit == 0 then mean == 0 else bit == Pow2(k) * Pow2(k) && mean < 4 * bit && Pow2(k) <= 0x8000_0000
  }

  lemma LowerCandidate(bit: nat, k: nat, mean: nat)
    requires Candidate(bit, k, mean) && bit > mean
    ensures Candidate(bit / 4, if k > 0 then k - 1 else 0, mean)
  {
    if k > 0 { QuarterSquare(Pow2(k - 1)); }
  }

  lemma CandidateStartsRoot(bit: nat, k: nat, mean: nat)
    requires Candidate(bit, k, mean)
    ensures RootSoFar(0, bit, mean, 0, k, mean)
  {
    var p := Pow2(k);
    assert (2 * p) * (2 * p) == 4 * (p * p);
  }

  /** The first digit worth trying: the largest power of four not above the mean, or 0. */
  method LeadingBit(mean: uint64) returns (bit: uint64, ghost k: nat)
    ensures RootSoFar(0, bit as int, mean as int, 0, k, mean as int)
    ensures bit <= mean && (bit == 0 <==> mean == 0)
    ensures bit != 0 ==> bit as int == Pow2(k) * Pow2(k) && mean as int < 4 * (bit as int)
  {
    bit := 0x4000_0000_0000_0000;
    k := 31;
    LargestDigit();
    while bit > mean
      invariant Candidate(bit as int, k, mean as int)
      decreases bit
    {
      LowerCandidate(bit as int, k, mean as int);
      bit := bit / 4;
      k := if k > 0 then k - 1 else 0;
    }
    CandidateStartsRoot(bit as int, k, mean as int);
  }

  /** Bit-by-bit square root, rounded down; no operation leaves 64 bits. */
  method SquareRoot(mean: uint64) returns (root: uint64)
    ensures (root as int) * (root as int) <= mean as int < (root as int + 1) * (root as int + 1)
    ensures root < 0x1_0000_0000
  {
    root := 0;
    var bit;
    ghost var k, s: nat;
    bit, k := LeadingBit(mean);
    s := 0;
    var remainder := mean;
    while bit != 0
      invariant RootSoFar(root as int, bit as int, remainder as int, s, k, mean as int)
      decreases bit
    {
      AdvanceDigit(root as int, bit as int, s, k, mean as int, remainder as int);
      s := if remainder >= root + bit then s + Pow2(k) else s;
      k := if k > 0 then k - 1 else 0;
      if remainder >= root + bit {
        remainder := remainder - (root + bit);
        root := root / 2 + bit;
      } else {
        root := root / 2;
      }
      bit := bit / 4;
    }
  }

  /** s is the root of mean in its digits above 2^k, and the loop variables encode s. */
  ghost predicate DigitsAbove(root: nat, bit: nat, s: nat, k: nat, mean: nat) {
    var p := Pow2(k);
    bit == p * p && root == 2 * (s * p) && mean < (s + 2 * p) * (s + 2 * p) && s + 2 * p <= 0x1_0000_0000
  }

  lemma NextDigit(root: nat, bit: nat, s: nat, k: nat, mean: nat)
    requires k > 0 && bit == Pow2(k) * Pow2(k) && root == s * Pow2(k)
    requires mean < (s + Pow2(k)) * (s + Pow2(k)) && s + Pow2(k) <= 0x1_0000_0000
    ensures bit / 4 > 0 && DigitsAbove(root, bit / 4, s, k - 1, mean)
  {
    QuarterSquare(Pow2(k - 1));
    assert s * (2 * Pow2(k - 1)) == 2 * (s * Pow2(k - 1));
  }

  /** What one turn of the loop does to the encoding, whether it takes the digit or not. */
  lemma AdvanceDigit(root: nat, bit: nat, s: nat, k: nat, mean: nat, remainder: nat)
    requires bit != 0 && RootSoFar(root, bit, remainder, s, k, mean)
    ensures root + bit < 0x1_0000_0000_0000_0000
    ensures var below := if k > 0 then k - 1 else 0;
            if remainder >= root + bit
            then RootSoFar(root / 2 + bit, bit / 4, remainder - (root + bit), s + Pow2(k), below, mean)
            else RootSoFar(root / 2, bit / 4, remainder, s, below, mean)
  {
    var p := Pow2(k);
    DigitStep(s, p, mean, remainder);
    var take := remainder >= root + bit;
    var s' := if take then s + p else s;
    var root' := if take then root / 2 + bit else root / 2;
    assert root' == s' * p;
    if k > 0 { NextDigit(root', bit, s', k, mean); }
  }

  /** The sum of the squares of the first `count` samples. */
  method SumOfSquares(samples: array<int16>, count: uint32) returns (sumSquares: uint64)
    requires count as int <= samples.Length
    ensures sumSquares as int == SumSquares(samples[..count])
  {
    sumSquares := 0;
    var index: uint32 := 0;
    while index < count
      invariant 0 <= index <= count
      invariant sumSquares as int == SumSquares(samples[..index])
      invariant sumSquares as int <= 0x4000_0000 * (index as int)
    {
      var sample := samples[index] as int;
      SquareBound(samples[index]);
      assert samples[..index+1][..index] == samples[..index];
      sumSquares := sumSquares + (sample * sample) as uint64;
      index := index + 1;
    }
  }

  /** The level of the first `count` samples: 0 for no buffer or no samples, else the exact
      root mean square, which always fits the 32 bits it is cast to. */
  method CalculateRms(samples: array?<int16>, count: uint32) returns (rms: uint32)
    requires samples != null ==> count as int <= samples.Length
    ensures samples == null || count == 0 ==> rms == 0
    ensures samples != null && count > 0 ==> IsRms(rms as int, samples[..count]) && rms <= 32768
  {
    if samples == null || count == 0 { return 0; }
    var sumSquares := SumOfSquares(samples, count);
    var mean := sumSquares / (count as uint64);
    var root := SquareRoot(mean);
    assert mean as int == sumSquares as int / count as int;
    RootOfMean(root as int, sumSquares as int, count as int);
    RmsBetweenExtremes(root as int, samples[..count], 0, 0x8000);
    return root as uint32;
  }

  lemma SquareBound(x: int16)
    ensures 0 <= (x as int) * (x as int) <= 0x4000_0000
  {
    SquaresOrdered(Magnitude(x), 0x8000);
  }
}
