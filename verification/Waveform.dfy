/** The waveform of a voice message: peaks of PCM samples, one byte a bucket. */
module Waveform {
  import opened Basics

  const WAVEFORM_BYTES := 256

  type Byte = x: int | 0 <= x < 256

  /** A little-endian signed 16-bit sample. */
  function Sample(low: Byte, high: Byte): (v: int)
    ensures -32768 <= v <= 32767
  {
    if high < 128 then 256 * high + low else 256 * high + low - 65536
  }

  /** The samples of a PCM buffer; an odd last byte is dropped. */
  function Samples(pcm: seq<Byte>): (samples: seq<int>)
    ensures |samples| == |pcm| / 2
    ensures forall i | 0 <= i < |samples| :: -32768 <= samples[i] <= 32767
  {
    seq(|pcm| / 2, i requires 0 <= i < |pcm| / 2 => Sample(pcm[2 * i], pcm[2 * i + 1]))
  }

  function Abs(x: int): nat {
    if x < 0 then -x else x
  }

  /** The loudest of some samples. */
  function Peak(samples: seq<int>): (p: nat)
    requires samples != []
    ensures exists i | 0 <= i < |samples| :: Abs(samples[i]) == p
    ensures forall i | 0 <= i < |samples| :: Abs(samples[i]) <= p
  {
    if |samples| == 1 then
      assert Abs(samples[0]) == Abs(samples[0]);
      Abs(samples[0])
    else
      var rest := Peak(samples[..|samples| - 1]);
      var last := Abs(samples[|samples| - 1]);
      assert forall i | 0 <= i < |samples| - 1 :: samples[..|samples| - 1][i] == samples[i];
      Max(rest, last)
  }

  function Scale(peak: nat): (b: Byte) {
    Min(255, peak * 255 / 32767)
  }

  /** Two's complement: the only number in range that differs from the two bytes by a multiple of 65536. */
  lemma SampleIsTwosComplement(low: Byte, high: Byte, v: int)
    requires -32768 <= v <= 32767
    ensures v == Sample(low, high) <==> (v - 256 * high - low) % 65536 == 0
  {
  }

  /** The share of full scale in 255ths, rounded down, and 255 for what is beyond full scale. */
  lemma ScaleIsShare(peak: nat)
    ensures peak <= 32767 ==> 32767 * Scale(peak) <= 255 * peak < 32767 * (Scale(peak) + 1)
    ensures peak > 32767 ==> Scale(peak) == 255
  {
  }

  lemma ScaleIsMonotone(p: nat, q: nat)
    requires p <= q
    ensures Scale(p) <= Scale(q)
    ensures p >= 32767 ==> Scale(p) == 255
  {
  }

  function Buckets(frames: nat): nat {
    Min(WAVEFORM_BYTES, frames)
  }

  /** Where bucket `i` begins. */
  function Low(frames: nat, i: nat): nat
    requires frames > 0
  {
    i * frames / Buckets(frames)
  }

  lemma {:induction false} MulAtLeast(n: nat, k: nat)
    requires k >= 1
    ensures n * k >= n
  {
    if k > 1 {
      MulAtLeast(n, k - 1);
      assert n * k == n * (k - 1) + n;
    }
  }

  lemma Quotient(a: nat, n: nat, q: nat, r: nat)
    requires n > 0 && r < n && a == n * q + r
    ensures a / n == q
  {
    var (b, s) := (a / n, a % n);
    assert a == n * b + s;
    if b > q {
      assert n * (b - q) == n * b - n * q;
      MulAtLeast(n, b - q);
    } else if b < q {
      assert n * (q - b) == n * q - n * b;
      MulAtLeast(n, q - b);
    }
  }

  lemma QuotientOfSum(n: nat, b: nat, c: nat, q: nat, r: nat)
    requires n > 0 && c < n && r < n
    ensures (n * b + c + (n * q + r)) / n == b + q + if c + r < n then 0 else 1
  {
    var carry := if c + r < n then 0 else 1;
    assert n * (b + q + carry) == n * b + n * q + n * carry;
    Quotient(n * b + c + (n * q + r), n, b + q + carry, c + r - n * carry);
  }

  lemma QuotientPositive(n: nat, q: nat, r: nat)
    requires r < n <= n * q + r
    ensures q >= 1
  {
    assert q == 0 ==> n * q == 0;
  }

  /** Adding at least one divisor adds the whole quotient of what is added, or one more. */
  lemma QuotientGrows(a: nat, frames: nat, n: nat)
    requires 0 < n <= frames
    ensures a / n + 1 <= (a + frames) / n <= a / n + frames / n + 1
  {
    var (b, c, q, r) := (a / n, a % n, frames / n, frames % n);
    assert a == n * b + c && frames == n * q + r;
    QuotientPositive(n, q, r);
    QuotientOfSum(n, b, c, q, r);
  }

  lemma Ends(frames: nat, n: nat)
    requires n > 0
    ensures 0 * frames / n == 0 && n * frames / n == frames
  {
    assert 0 * frames == 0;
    Quotient(0, n, 0, 0);
    Quotient(n * frames, n, frames, 0);
  }

  /** Buckets are never empty, so taking at least one sample changes nothing; their sizes differ by at most one. */
  lemma BucketsGrow(frames: nat, i: nat)
    requires frames > 0 && i < Buckets(frames)
    ensures Low(frames, i) + 1 <= Low(frames, i + 1) <= Low(frames, i) + frames / Buckets(frames) + 1
  {
    assert (i + 1) * frames == i * frames + frames;
    QuotientGrows(i * frames, frames, Buckets(frames));
  }

  /** The first bucket begins with the samples and the last one ends with them. */
  lemma BucketsSpan(frames: nat)
    requires frames > 0
    ensures Low(frames, 0) == 0 && Low(frames, Buckets(frames)) == frames
  {
    Ends(frames, Buckets(frames));
  }

  lemma {:induction false} LowIsMonotone(frames: nat, i: nat, j: nat)
    requires frames > 0 && i <= j <= Buckets(frames)
    ensures Low(frames, i) <= Low(frames, j) && (i < j ==> Low(frames, i) < Low(frames, j))
  {
    hide Low;
    if i < j {
      BucketsGrow(frames, j - 1);
      LowIsMonotone(frames, i, j - 1);
    }
  }

  /** The buckets tile the samples: each lies in one bucket and in no other. */
  lemma BucketsTile(frames: nat, k: nat) returns (i: nat)
    requires k < frames
    ensures i < Buckets(frames) && Low(frames, i) <= k < Low(frames, i + 1)
    ensures forall j | 0 <= j < Buckets(frames) && Low(frames, j) <= k < Low(frames, j + 1) :: j == i
  {
    hide Low;
    BucketsSpan(frames);
    i := 0;
    while Low(frames, i + 1) <= k
      invariant i < Buckets(frames) && Low(frames, i) <= k
      decreases Buckets(frames) - i
    {
      i := i + 1;
    }
    forall j | 0 <= j < Buckets(frames) && Low(frames, j) <= k < Low(frames, j + 1) ensures j == i {
      if j < i {
        LowIsMonotone(frames, j + 1, i);
      } else if i < j {
        LowIsMonotone(frames, i + 1, j);
      }
    }
  }

  /** Bucket `i` holds at least one sample, and its byte is its scaled peak. */
  ghost predicate BucketPeak(samples: seq<int>, wave: seq<Byte>, i: nat)
    requires samples != [] && i < |wave|
  {
    && Low(|samples|, i) < Low(|samples|, i + 1) <= |samples|
    && wave[i] == Scale(Peak(samples[Low(|samples|, i)..Low(|samples|, i + 1)]))
  }

  /** One scaled peak a bucket, in order; nothing for nothing. */
  ghost predicate IsWaveform(samples: seq<int>, wave: seq<Byte>) {
    if samples == [] then wave == []
    else |wave| == Buckets(|samples|) && forall i | 0 <= i < |wave| :: BucketPeak(samples, wave, i)
  }

  /** The byte of one bucket. */
  method BucketByte(samples: seq<int>, index: nat) returns (b: Byte)
    requires index < Buckets(|samples|)
    ensures Low(|samples|, index) < Low(|samples|, index + 1) <= |samples|
    ensures b == Scale(Peak(samples[Low(|samples|, index)..Low(|samples|, index + 1)]))
  {
    hide Low, Scale, Peak;
    var (frames, buckets) := (|samples|, Buckets(|samples|));
    BucketsGrow(frames, index);
    BucketsSpan(frames);
    LowIsMonotone(frames, index + 1, buckets);
    LowIs(frames, index);
    LowIs(frames, index + 1);
    var low := index * frames / buckets;
    var high := Max(low + 1, (index + 1) * frames / buckets);
    assert high == Low(frames, index + 1);
    var peak := PeakBetween(samples, low, high);
    ScaleIs(peak);
    b := Min(255, peak * 255 / 32767);
  }

  method PeakBetween(samples: seq<int>, low: nat, high: nat) returns (peak: nat)
    requires low < high <= |samples|
    ensures peak == Peak(samples[low..high])
  {
    peak := Abs(samples[low]);
    PeakOfOne(samples[low..low + 1]);
    for k := low + 1 to high
      invariant peak == Peak(samples[low..k])
    {
      PeakOneMore(samples, low, k);
      peak := Max(peak, Abs(samples[k]));
    }
  }

  lemma PeakOfOne(samples: seq<int>)
    requires |samples| == 1
    ensures Peak(samples) == Abs(samples[0])
  {
  }

  lemma PeakOneMore(samples: seq<int>, low: nat, k: nat)
    requires low < k < |samples|
    ensures Peak(samples[low..k + 1]) == Max(Peak(samples[low..k]), Abs(samples[k]))
  {
    assert samples[low..k + 1][..k - low] == samples[low..k];
  }

  method WaveformFromPcm(pcm: seq<Byte>) returns (wave: seq<Byte>)
    ensures IsWaveform(Samples(pcm), wave)
  {
    hide Low, Scale, Samples, Peak;
    wave := [];
    var frames := |pcm| / 2;
    var samples := Samples(pcm);
    if frames <= 0 {
      return;
    }
    var buckets := Min(WAVEFORM_BYTES, frames);
    for index := 0 to buckets
      invariant |wave| == index
      invariant forall i | 0 <= i < index :: BucketPeak(samples, wave, i)
    {
      ghost var before := wave;
      var b := BucketByte(samples, index);
      wave := wave + [b];
      forall i | 0 <= i <= index ensures BucketPeak(samples, wave, i) {
        assert i < index ==> BucketPeak(samples, before, i);
      }
    }
  }

  lemma LowIs(frames: nat, i: nat)
    requires frames > 0
    ensures Low(frames, i) == i * frames / Buckets(frames)
  {
  }

  lemma ScaleIs(peak: nat)
    ensures Scale(peak) == Min(255, peak * 255 / 32767)
  {
  }

  /** The waveform's highest byte is the scaled peak of the whole recording. */
  lemma WaveformPeaksWithTheRecording(samples: seq<int>, wave: seq<Byte>)
    requires samples != [] && IsWaveform(samples, wave)
    ensures forall i | 0 <= i < |wave| :: wave[i] <= Scale(Peak(samples))
    ensures Scale(Peak(samples)) in wave
  {
    hide Low, Scale, Peak;
    var frames := |samples|;
    forall i | 0 <= i < |wave| ensures wave[i] <= Scale(Peak(samples)) {
      assert BucketPeak(samples, wave, i);
      PeakOfPart(samples, Low(frames, i), Low(frames, i + 1));
      ScaleIsMonotone(Peak(samples[Low(frames, i)..Low(frames, i + 1)]), Peak(samples));
    }
    var k :| 0 <= k < frames && Abs(samples[k]) == Peak(samples);
    var b := BucketsTile(frames, k);
    assert BucketPeak(samples, wave, b);
    var part := samples[Low(frames, b)..Low(frames, b + 1)];
    PeakOfPart(samples, Low(frames, b), Low(frames, b + 1));
    assert part[k - Low(frames, b)] == samples[k];
    assert wave[b] == Scale(Peak(samples));
  }

  lemma PeakOfPart(samples: seq<int>, low: nat, high: nat)
    requires low < high <= |samples|
    ensures Peak(samples[low..high]) <= Peak(samples)
  {
    var part := samples[low..high];
    var i :| 0 <= i < |part| && Abs(part[i]) == Peak(part);
    assert part[i] == samples[low + i];
  }

  /** Full scale is 255 for both extremes, although the negative one is a step larger. */
  lemma ExtremesAreFullScale(samples: seq<int>, wave: seq<Byte>)
    requires samples != [] && IsWaveform(samples, wave) && (-32768 in samples || 32767 in samples)
    ensures 255 in wave
  {
    var i :| 0 <= i < |samples| && (samples[i] == -32768 || samples[i] == 32767);
    assert Abs(samples[i]) >= 32767;
    WaveformPeaksWithTheRecording(samples, wave);
    ScaleIsMonotone(32767, Peak(samples));
  }
}
