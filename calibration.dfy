/** The calibration store: per-axis offsets and scales, their defaults,
    the per-sample correction and the offsets a calibration batch yields. */
module Calibration {
  import opened Common

  /** Number of draws in one calibration batch (`cal_samples`). */
  const CAL_SAMPLES := 100

  /** Gravity bias of the z-force channel. */
  const GRAVITY := 9.81

  datatype CalibrationProfile = CalibrationProfile(offsets: Vec6, scales: Vec6, isCalibrated: bool)

  /** The zero-initialised static store, before `gk_sensor_init` runs. */
  const ZERO_PROFILE := CalibrationProfile(ZERO6, ZERO6, false)

  /** The profile `gk_sensor_init` installs. */
  const DEFAULT_PROFILE := CalibrationProfile(
    [0.0, 0.0, GRAVITY, 0.0, 0.0, 0.0],
    [1.0, 1.0, 1.0, 1.0, 1.0, 1.0],
    true)

  /** The correction applied to every raw sample, channel by channel. */
  function Apply(raw: Vec6, p: CalibrationProfile): (c: Vec6)
    ensures forall i :: 0 <= i < 6 ==> c[i] == (raw[i] - p.offsets[i]) * p.scales[i]
  {
    [(raw[0] - p.offsets[0]) * p.scales[0],
     (raw[1] - p.offsets[1]) * p.scales[1],
     (raw[2] - p.offsets[2]) * p.scales[2],
     (raw[3] - p.offsets[3]) * p.scales[3],
     (raw[4] - p.offsets[4]) * p.scales[4],
     (raw[5] - p.offsets[5]) * p.scales[5]]
  }

  /** With non-zero scales the correction loses nothing: the raw sample is
      recovered from the calibrated one. */
  lemma ApplyInvertible(raw: Vec6, p: CalibrationProfile, i: int)
    requires 0 <= i < 6 && p.scales[i] != 0.0
    ensures raw[i] == Apply(raw, p)[i] / p.scales[i] + p.offsets[i]
  {
    var c := Apply(raw, p)[i];
    ScaleCancels(c, raw[i] - p.offsets[i], p.scales[i]);
  }

  lemma ScaleCancels(c: real, x: real, s: real)
    requires s != 0.0 && c == x * s
    ensures c / s == x
  {
  }

  /** A stationary sensor draws `(0, 0, -9.81, 0, 0, 0)`. */
  const STATIONARY: Vec6 := [0.0, 0.0, -GRAVITY, 0.0, 0.0, 0.0]

  /** With the default profile the gravity bias is subtracted a second
      time: the stationary sample calibrates to twice gravity downward. */
  lemma DefaultProfileOnStationary()
    ensures Apply(STATIONARY, DEFAULT_PROFILE) == [0.0, 0.0, -2.0 * GRAVITY, 0.0, 0.0, 0.0]
  {
  }

  /** Number of draws that succeeded. */
  function OkCount(draws: seq<RawRead>): nat
  {
    if |draws| == 0 then 0
    else OkCount(draws[..|draws| - 1]) + (if draws[|draws| - 1].ReadOk? then 1 else 0)
  }

  /** Sum of channel `ch` over the draws that succeeded; failed draws add nothing. */
  function SumChannel(draws: seq<RawRead>, ch: int): (s: real)
    requires 0 <= ch < 6
    ensures OkCount(draws) == 0 ==> s == 0.0
  {
    if |draws| == 0 then 0.0
    else
      var last := draws[|draws| - 1];
      SumChannel(draws[..|draws| - 1], ch) + (if last.ReadOk? then last.values[ch] else 0.0)
  }

  /** Offsets from a calibration batch: every sum is divided by the batch
      size, whether or not all draws succeeded, and the z-force offset adds
      the gravity bias back. */
  function BatchOffsets(draws: seq<RawRead>): (o: Vec6)
    ensures forall ch :: 0 <= ch < 6 ==>
      o[ch] * (CAL_SAMPLES as real) == SumChannel(draws, ch) + (if ch == 2 then 100.0 * GRAVITY else 0.0)
  {
    var n := CAL_SAMPLES as real;
    [SumChannel(draws, 0) / n,
     SumChannel(draws, 1) / n,
     SumChannel(draws, 2) / n - (-GRAVITY),
     SumChannel(draws, 3) / n,
     SumChannel(draws, 4) / n,
     SumChannel(draws, 5) / n]
  }

  /** The store after a calibration batch: new offsets, scales unchanged,
      marked calibrated. */
  function Calibrated(p: CalibrationProfile, draws: seq<RawRead>): (q: CalibrationProfile)
    ensures q.scales == p.scales && q.isCalibrated
  {
    p.(offsets := BatchOffsets(draws), isCalibrated := true)
  }

  /** In a batch where every successful draw returns `v`, the channel sum is
      the number of successes times `v`. */
  lemma {:induction false} SumChannelUniform(draws: seq<RawRead>, v: Vec6, ch: int)
    requires 0 <= ch < 6
    requires forall i :: 0 <= i < |draws| ==> draws[i] == ReadOk(v) || draws[i] == ReadFailed
    ensures SumChannel(draws, ch) == OkCount(draws) as real * v[ch]
  {
    if |draws| > 0 {
      var prefix := draws[..|draws| - 1];
      var last := draws[|draws| - 1];
      assert forall i :: 0 <= i < |prefix| ==> prefix[i] == draws[i];
      SumChannelUniform(prefix, v, ch);
      var k := OkCount(prefix) as real;
      if last.ReadOk? {
        assert last == ReadOk(v);
        assert SumChannel(draws, ch) == SumChannel(prefix, ch) + v[ch];
        assert OkCount(draws) as real == k + 1.0;
        assert (k + 1.0) * v[ch] == k * v[ch] + v[ch];
      } else {
        assert SumChannel(draws, ch) == SumChannel(prefix, ch);
        assert OkCount(draws) as real == k;
      }
    }
  }

  /** The denominator is the batch size, not the number of good draws:
      with `k` successes out of 100 the offset is `k * v / 100`. */
  lemma OffsetsOfUniformBatch(draws: seq<RawRead>, v: Vec6, ch: int)
    requires |draws| == CAL_SAMPLES && 0 <= ch < 6
    requires forall i :: 0 <= i < |draws| ==> draws[i] == ReadOk(v) || draws[i] == ReadFailed
    ensures BatchOffsets(draws)[ch]
         == OkCount(draws) as real * v[ch] / 100.0 + (if ch == 2 then GRAVITY else 0.0)
  {
    SumChannelUniform(draws, v, ch);
  }

  /** A batch in which every draw failed leaves the default offsets. */
  lemma AllDrawsFailed(draws: seq<RawRead>)
    requires |draws| == CAL_SAMPLES
    requires forall i :: 0 <= i < |draws| ==> draws[i] == ReadFailed
    ensures BatchOffsets(draws) == DEFAULT_PROFILE.offsets
  {
    forall ch | 0 <= ch < 6 ensures SumChannel(draws, ch) == 0.0 {
      SumChannelUniform(draws, ZERO6, ch);
    }
  }

  /** One hundred stationary draws give all-zero offsets; afterwards the
      stationary sample calibrates to itself, so the z channel still draws
      gravity rather than zero. */
  lemma StationaryBatch(draws: seq<RawRead>, p: CalibrationProfile)
    requires |draws| == CAL_SAMPLES
    requires forall i :: 0 <= i < |draws| ==> draws[i] == ReadOk(STATIONARY)
    requires p.scales == DEFAULT_PROFILE.scales
    ensures BatchOffsets(draws) == ZERO6
    ensures Apply(STATIONARY, Calibrated(p, draws)) == STATIONARY
  {
    assert OkCount(draws) == CAL_SAMPLES by {
      OkCountAll(draws);
    }
    forall ch | 0 <= ch < 6
      ensures SumChannel(draws, ch) == 100.0 * STATIONARY[ch]
    {
      SumChannelUniform(draws, STATIONARY, ch);
    }
  }

  lemma {:induction false} OkCountAll(draws: seq<RawRead>)
    requires forall i :: 0 <= i < |draws| ==> draws[i].ReadOk?
    ensures OkCount(draws) == |draws|
  {
    if |draws| > 0 {
      OkCountAll(draws[..|draws| - 1]);
    }
  }
}
