/** Reducing the samples of a recording to the peaks of equal parts. Amplitudes are exact. */
module Waveform {
  import opened Arith

  const DEFAULT_BINS := 2048

  function Abs(x: real): real {
    if x < 0.0 then -x else x
  }

  function BinCount(bins: int): (r: int)
    ensures r > 0
  {
    if bins <= 0 then DEFAULT_BINS else bins
  }

  /** The first sample of part b when n samples are divided into bins parts: b * n / bins, rounded up. */
  function Start(b: nat, n: nat, bins: int): int
    requires bins > 0
  {
    (b * n + bins - 1) / bins
  }

  /** The largest amplitude of the samples from lo up to hi, of the first n samples; zero if there is none. */
  function Peak(samples: seq<real>, lo: int, hi: int, n: nat): real
    requires n <= |samples|
  {
    if n == 0 then 0.0
    else
      var before := Peak(samples, lo, hi, n - 1);
      if lo <= n - 1 < hi && Abs(samples[n - 1]) > before then Abs(samples[n - 1]) else before
  }

  /** The peak of part b among the first n samples. */
  function PartPeak(samples: seq<real>, b: nat, bins: int, n: nat): real
    requires bins > 0 && n <= |samples|
  {
    Peak(samples, Start(b, |samples|, bins), Start(b + 1, |samples|, bins), n)
  }

  lemma StartBounds(b: nat, n: nat, bins: int)
    requires bins > 0
    ensures b * n <= Start(b, n, bins) * bins < b * n + bins
  {
    QuotientBounds(b * n + bins - 1, bins);
  }

  lemma StartMonotone(b: nat, c: nat, n: nat, bins: int)
    requires bins > 0 && b <= c
    ensures 0 <= Start(b, n, bins) <= Start(c, n, bins)
  {
    StartBounds(b, n, bins);
    StartBounds(c, n, bins);
    Multiples(b, c, n);
    Multiples(0, b, n);
    var s, t := Start(b, n, bins), Start(c, n, bins);
    assert (t + 1) * bins == t * bins + bins;
    assert (s + 1) * bins == s * bins + bins;
    FactorLess(s, t + 1, bins);
    FactorLess(-1, s, bins);
  }

  lemma Ends(n: nat, bins: int)
    requires bins > 0
    ensures Start(0, n, bins) == 0 && Start(bins, n, bins) == n
  {
    QuotientIs(0 * n + bins - 1, bins, 0);
    QuotientIs(bins * n + bins - 1, bins, n);
  }

  /** Every sample has a bin: the clamp is never needed. */
  lemma ClampNeverFires(i: nat, n: nat, bins: int)
    requires bins > 0 && i < n
    ensures 0 <= i * bins / n < bins
  {
    QuotientBounds(i * bins, n);
    Multiples(0, i, bins);
    Multiples(i + 1, n, bins);
    assert (i + 1) * bins == i * bins + bins;
    var b := i * bins / n;
    assert (b + 1) * n == b * n + n;
    FactorLess(0, b + 1, n);
    FactorLess(b, bins, n);
  }

  /** A sample is binned into the part that holds it. */
  lemma BinHolds(i: nat, n: nat, bins: int)
    requires bins > 0 && i < n
    ensures 0 <= i * bins / n < bins
    ensures Start(i * bins / n, n, bins) <= i < Start(i * bins / n + 1, n, bins)
  {
    hide Start;
    ClampNeverFires(i, n, bins);
    QuotientBounds(i * bins, n);
    var b := i * bins / n;
    StartBounds(b, n, bins);
    StartBounds(b + 1, n, bins);
    assert (b + 1) * n == b * n + n;
    assert (i + 1) * bins == i * bins + bins;
    FactorLess(Start(b, n, bins), i + 1, bins);
    FactorLess(i, Start(b + 1, n, bins), bins);
  }

  /** The parts cover the samples in order, without gap or overlap: a sample lies in the part of its bin and in no
      other. */
  lemma PartsPartition(i: nat, n: nat, bins: int, b: nat)
    requires bins > 0 && i < n && b < bins
    ensures Start(b, n, bins) <= i < Start(b + 1, n, bins) <==> b == i * bins / n
  {
    BinHolds(i, n, bins);
    var own := i * bins / n;
    if b < own {
      StartMonotone(b + 1, own, n, bins);
    }
    if own < b {
      StartMonotone(own + 1, b, n, bins);
    }
  }

  /** Every part has n / bins samples, rounded down or up. */
  lemma PartsAreEven(n: nat, bins: int, b: nat)
    requires bins > 0 && b < bins
    ensures n / bins <= Start(b + 1, n, bins) - Start(b, n, bins) <= (n + bins - 1) / bins
  {
    hide Start;
    var s, t := Start(b, n, bins), Start(b + 1, n, bins);
    StartBounds(b, n, bins);
    StartBounds(b + 1, n, bins);
    assert (b + 1) * n == b * n + n;
    assert (t - s) * bins == t * bins - s * bins;
    EvenSize(t - s, n, bins);
  }

  lemma EvenSize(d: int, n: nat, bins: int)
    requires bins > 0 && n - bins < d * bins < n + bins
    ensures n / bins <= d <= (n + bins - 1) / bins
  {
    var q, c := n / bins, (n + bins - 1) / bins;
    QuotientBounds(n, bins);
    QuotientBounds(n + bins - 1, bins);
    assert (d + 1) * bins == d * bins + bins;
    assert (c + 1) * bins == c * bins + bins;
    FactorLess(q, d + 1, bins);
    FactorLess(d, c + 1, bins);
  }

  /** The peak of adjoining ranges. */
  lemma {:induction false} PeakOfBoth(samples: seq<real>, lo: int, mid: int, hi: int, n: nat)
    requires lo <= mid <= hi && n <= |samples|
    ensures var a, b := Peak(samples, lo, mid, n), Peak(samples, mid, hi, n);
            Peak(samples, lo, hi, n) == (if a >= b then a else b) && a >= 0.0 && b >= 0.0
  {
    if n > 0 {
      PeakOfBoth(samples, lo, mid, hi, n - 1);
    }
  }

  /** The next sample changes the peak of the part of its bin only. */
  lemma PeakStep(samples: seq<real>, i: nat, bins: int, b: nat)
    requires i < |samples| && bins > 0 && b < bins
    ensures PartPeak(samples, b, bins, i + 1) ==
            if b == i * bins / |samples| && Abs(samples[i]) > PartPeak(samples, b, bins, i)
            then Abs(samples[i]) else PartPeak(samples, b, bins, i)
  {
    hide Start;
    PartsPartition(i, |samples|, bins, b);
  }

  predicate InRange(lo: int, hi: int, n: nat, i: nat) {
    lo <= i < hi && i < n
  }

  /** A peak bounds the amplitudes of its range from above, and it is zero or one of them. */
  lemma {:induction false} PeakIsMaximum(samples: seq<real>, lo: int, hi: int, n: nat)
    requires n <= |samples|
    ensures forall i | 0 <= i < n && InRange(lo, hi, n, i) :: Abs(samples[i]) <= Peak(samples, lo, hi, n)
    ensures Peak(samples, lo, hi, n) == 0.0 ||
            exists i | 0 <= i < n && InRange(lo, hi, n, i) :: Abs(samples[i]) == Peak(samples, lo, hi, n)
  {
    if n > 0 {
      PeakIsMaximum(samples, lo, hi, n - 1);
      assert forall i: nat | i < n - 1 :: InRange(lo, hi, n - 1, i) <==> InRange(lo, hi, n, i);
      assert InRange(lo, hi, n, n - 1) <==> lo <= n - 1 < hi;
    }
  }

  function BinOf(i: nat, n: nat, bins: int): int
    requires n > 0
  {
    i * bins / n
  }

  /** The peak of a sample's bin is at least as large, whatever the sample's sign. */
  predicate Bounded(samples: seq<real>, peaks: seq<real>, i: nat)
    requires i < |samples|
  {
    var b := BinOf(i, |samples|, |peaks|);
    0 <= b < |peaks| && samples[i] <= peaks[b] && -samples[i] <= peaks[b]
  }

  /** A peak is zero or a sample of its bin, with either sign. */
  predicate Attained(samples: seq<real>, peaks: seq<real>, b: nat)
    requires b < |peaks|
  {
    peaks[b] == 0.0 ||
    exists i | 0 <= i < |samples| :: BinOf(i, |samples|, |peaks|) == b && (peaks[b] == samples[i] || peaks[b] == -samples[i])
  }

  predicate PeaksOfParts(samples: seq<real>, peaks: seq<real>) {
    |peaks| > 0 && forall b | 0 <= b < |peaks| :: peaks[b] == PartPeak(samples, b, |peaks|, |samples|)
  }

  lemma PeaksBound(samples: seq<real>, peaks: seq<real>, i: nat)
    requires PeaksOfParts(samples, peaks) && i < |samples|
    ensures Bounded(samples, peaks, i)
  {
    hide Start, Peak;
    var n, bins := |samples|, |peaks|;
    BinHolds(i, n, bins);
    var b := BinOf(i, n, bins);
    PeakIsMaximum(samples, Start(b, n, bins), Start(b + 1, n, bins), n);
    assert InRange(Start(b, n, bins), Start(b + 1, n, bins), n, i);
  }

  lemma PeaksAreAttained(samples: seq<real>, peaks: seq<real>, b: nat)
    requires PeaksOfParts(samples, peaks) && b < |peaks|
    ensures Attained(samples, peaks, b)
  {
    hide Start, Peak;
    var n, bins := |samples|, |peaks|;
    PeakIsMaximum(samples, Start(b, n, bins), Start(b + 1, n, bins), n);
    if peaks[b] != 0.0 {
      var i :| 0 <= i < n && InRange(Start(b, n, bins), Start(b + 1, n, bins), n, i) && Abs(samples[i]) == peaks[b];
      PartsPartition(i, n, bins, b);
      assert BinOf(i, n, bins) == b;
    }
  }

  /** GenerateWaveform, given the decoded samples. */
  method GenerateWaveform(samples: seq<real>, bins: int) returns (ok: bool, result: seq<real>)
    ensures ok <==> samples != []
    ensures ok ==> |result| == BinCount(bins) == if bins > 0 then bins else 2048
    ensures ok ==> forall b | 0 <= b < |result| :: result[b] == PartPeak(samples, b, |result|, |samples|)
    ensures ok ==> forall i | 0 <= i < |samples| :: Bounded(samples, result, i)
    ensures ok ==> forall b | 0 <= b < |result| :: Attained(samples, result, b)
  {
    hide PartPeak, Start, Bounded, Attained;
    var count := bins;
    if count <= 0 {
      count := DEFAULT_BINS;
    }
    var n := |samples|;
    if n == 0 {
      return false, [];
    }
    var peaks := new real[count](_ => 0.0);
    NothingPeaks(samples, count);
    for i := 0 to n
      invariant forall b | 0 <= b < count :: peaks[b] == PartPeak(samples, b, count, i)
    {
      BinHolds(i, n, count);
      var amplitude := Abs(samples[i]);
      var bin := i * count / n;
      if bin >= count {
        bin := count - 1;
      }
      forall b | 0 <= b < count
        ensures PartPeak(samples, b, count, i + 1) ==
                if b == bin && amplitude > PartPeak(samples, b, count, i) then amplitude else PartPeak(samples, b, count, i)
      {
        PeakStep(samples, i, count, b);
      }
      if amplitude > peaks[bin] {
        peaks[bin] := amplitude;
      }
    }
    result := peaks[..];
    forall i | 0 <= i < n
      ensures Bounded(samples, result, i)
    {
      PeaksBound(samples, result, i);
    }
    forall b | 0 <= b < count
      ensures Attained(samples, result, b)
    {
      PeaksAreAttained(samples, result, b);
    }
    return true, result;
  }

  lemma NothingPeaks(samples: seq<real>, bins: int)
    requires bins > 0
    ensures forall b | 0 <= b < bins :: PartPeak(samples, b, bins, 0) == 0.0
  {
  }

  /** The largest of the first k peaks is the largest amplitude of the parts up to there. */
  lemma {:induction false} MaximumUpto(samples: seq<real>, bins: int, peaks: seq<real>, k: nat)
    requires bins > 0 && |peaks| == bins && k <= bins
    requires forall b | 0 <= b < bins :: peaks[b] == PartPeak(samples, b, bins, |samples|)
    ensures Peak(peaks, 0, bins, k) == Peak(samples, 0, Start(k, |samples|, bins), |samples|)
  {
    hide Start;
    var n := |samples|;
    Ends(n, bins);
    EmptyPeak(samples, 0, 0, n);
    if k > 0 {
      MaximumUpto(samples, bins, peaks, k - 1);
      StartMonotone(0, k - 1, n, bins);
      StartMonotone(k - 1, k, n, bins);
      PeakOfBoth(samples, 0, Start(k - 1, n, bins), Start(k, n, bins), n);
    }
  }

  /** Binning keeps the overall maximum. */
  lemma MaximumIsKept(samples: seq<real>, bins: int, peaks: seq<real>)
    requires bins > 0 && |peaks| == bins
    requires forall b | 0 <= b < bins :: peaks[b] == PartPeak(samples, b, bins, |samples|)
    ensures Peak(peaks, 0, |peaks|, |peaks|) == Peak(samples, 0, |samples|, |samples|)
  {
    Ends(|samples|, bins);
    MaximumUpto(samples, bins, peaks, bins);
  }

  lemma {:induction false} EmptyPeak(samples: seq<real>, lo: int, hi: int, n: nat)
    requires hi <= lo && n <= |samples|
    ensures Peak(samples, lo, hi, n) == 0.0
  {
    if n > 0 {
      EmptyPeak(samples, lo, hi, n - 1);
    }
  }
}
