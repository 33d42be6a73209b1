/** The two-stage noise filter of the force sensor, as a pure state
    machine: a five-slot ring of calibrated samples, a per-channel median
    over the occupied slots, a second five-slot ring of those medians and
    a moving average over it. */
module RingFilter {
  import opened Common
  import opened Median

  /** Capacity of both rings (`history[5]`, `smoothed_history[5]`). */
  const HISTORY_SIZE := 5

  datatype FilterState = FilterState(history: seq<Vec6>, smoothed: seq<Vec6>, index: nat, count: int)

  ghost predicate Wf(s: FilterState)
  {
    |s.history| == HISTORY_SIZE && |s.smoothed| == HISTORY_SIZE && 0 <= s.count <= HISTORY_SIZE
  }

  /** The zeroed filter state left by `gk_sensor_init`. */
  const EMPTY: FilterState := FilterState(
    [ZERO6, ZERO6, ZERO6, ZERO6, ZERO6],
    [ZERO6, ZERO6, ZERO6, ZERO6, ZERO6], 0, 0)

  /** Channel `ch` of the first `n` slots of a ring. */
  function Column(rows: seq<Vec6>, ch: int, n: int): (c: seq<real>)
    requires 0 <= ch < 6 && 0 <= n <= |rows|
    ensures |c| == n && forall i :: 0 <= i < n ==> c[i] == rows[i][ch]
  {
    seq(n, i requires 0 <= i < n => rows[i][ch])
  }

  /** Growing a column by one slot appends that slot's value to its sum. */
  lemma ColumnSumExtend(rows: seq<Vec6>, ch: int, n: int)
    requires 0 <= ch < 6 && 0 <= n < |rows|
    ensures Sum(Column(rows, ch, n + 1)) == Sum(Column(rows, ch, n)) + rows[n][ch]
  {
    assert Column(rows, ch, n + 1)[..n] == Column(rows, ch, n);
  }

  /** Per channel, the median of the first `n` slots: always the value
      one of those slots holds. */
  function MedianVector(rows: seq<Vec6>, n: int): (m: Vec6)
    requires 1 <= n <= |rows|
    ensures forall ch :: 0 <= ch < 6 ==> m[ch] in Column(rows, ch, n)
  {
    var m := seq(6, ch requires 0 <= ch < 6 => MedianOf(Column(rows, ch, n)));
    assert forall ch :: 0 <= ch < 6 ==> m[ch] == MedianOf(Column(rows, ch, n));
    m
  }

  /** A vector whose every channel is the median of that channel's column
      is the median vector. */
  lemma MedianVectorChannels(rows: seq<Vec6>, n: int, v: seq<real>)
    requires 1 <= n <= |rows| && |v| == 6
    requires forall c :: 0 <= c < 6 ==> v[c] == MedianOf(Column(rows, c, n))
    ensures v == MedianVector(rows, n)
  {
  }

  /** Per channel, the average of the first `n` slots: `n` times it is
      the channel's sum. */
  function MeanVector(rows: seq<Vec6>, n: int): (m: Vec6)
    requires 1 <= n <= |rows|
    ensures forall ch :: 0 <= ch < 6 ==> m[ch] * (n as real) == Sum(Column(rows, ch, n))
  {
    seq(6, ch requires 0 <= ch < 6 => Mean(Column(rows, ch, n)))
  }

  datatype StepResult = StepResult(state: FilterState, output: Vec6)

  /** One accepted sample: steps 1 to 3 of `gk_sensor_read_data`. */
  function Step(s: FilterState, sample: Vec6): (r: StepResult)
    requires Wf(s)
    ensures Wf(r.state)
  {
    var slot := s.index % HISTORY_SIZE;
    var history := s.history[slot := sample];
    var index := s.index + 1;
    var count := if s.count < HISTORY_SIZE then s.count + 1 else s.count;
    var median := MedianVector(history, count);
    var smoothSlot := (index - 1) % HISTORY_SIZE;
    var smoothed := s.smoothed[smoothSlot := median];
    var smoothCount := if count < HISTORY_SIZE then count else HISTORY_SIZE;
    StepResult(FilterState(history, smoothed, index, count), MeanVector(smoothed, smoothCount))
  }

  /** Ring insertion: the sample lands in slot `index % 5` and the median
      vector in the same slot of the second ring, no other slot changes,
      the write index advances by one and the occupancy saturates at 5. */
  lemma StepIsRingInsertion(s: FilterState, sample: Vec6)
    requires Wf(s)
    ensures var r := Step(s, sample).state; var slot := s.index % HISTORY_SIZE;
      && r.history[slot] == sample
      && (forall k :: 0 <= k < HISTORY_SIZE && k != slot ==> r.history[k] == s.history[k])
      && (forall k :: 0 <= k < HISTORY_SIZE && k != slot ==> r.smoothed[k] == s.smoothed[k])
      && (forall ch :: 0 <= ch < 6 ==>
            r.smoothed[slot][ch] == MedianOf(Column(r.history, ch, r.count)))
      && r.index == s.index + 1
      && 1 <= r.count <= HISTORY_SIZE
      && r.count == (if s.count < HISTORY_SIZE then s.count + 1 else HISTORY_SIZE)
  {
  }

  /** Each output channel is the mean of the occupied slots of the median ring. */
  lemma StepOutputIsMovingAverage(s: FilterState, sample: Vec6, ch: int)
    requires Wf(s) && 0 <= ch < 6
    ensures var r := Step(s, sample);
      r.output[ch] == Sum(Column(r.state.smoothed, ch, r.state.count)) / r.state.count as real
  {
  }

  /** The state reached from `s` by accepting `samples` in order. */
  function Feed(s: FilterState, samples: seq<Vec6>): (t: FilterState)
    requires Wf(s)
    ensures Wf(t)
  {
    if |samples| == 0 then s
    else Step(Feed(s, samples[..|samples| - 1]), samples[|samples| - 1]).state
  }

  lemma SlotsDiffer(a: int, b: int)
    requires 0 <= b < a < b + HISTORY_SIZE
    ensures a % HISTORY_SIZE != b % HISTORY_SIZE
  {
  }

  /** From the zeroed state the ring holds exactly the latest `min(n, 5)`
      samples, sample `j` in slot `j % 5`: each insertion evicts the oldest. */
  lemma {:induction false} RingHoldsLatest(samples: seq<Vec6>)
    ensures var t := Feed(EMPTY, samples); var n := |samples|;
      && t.index == n
      && t.count == (if n < HISTORY_SIZE then n else HISTORY_SIZE)
      && forall j :: n - t.count <= j < n ==> t.history[j % HISTORY_SIZE] == samples[j]
  {
    var n := |samples|;
    if n > 0 {
      var prefix := samples[..n - 1];
      RingHoldsLatest(prefix);
      var p := Feed(EMPTY, prefix);
      var t := Feed(EMPTY, samples);
      assert t == Step(p, samples[n - 1]).state;
      forall j | n - t.count <= j < n
        ensures t.history[j % HISTORY_SIZE] == samples[j]
      {
        if j < n - 1 {
          assert prefix[j] == samples[j];
          SlotsDiffer(n - 1, j);
        }
      }
    }
  }

  /** Every reachable state has `count == min(index, 5)`. */
  ghost predicate Coherent(s: FilterState)
  {
    Wf(s) && s.count == (if s.index < HISTORY_SIZE then s.index else HISTORY_SIZE)
  }

  /** All occupied slots of both rings hold `v`. */
  ghost predicate SettledOn(s: FilterState, v: Vec6)
  {
    Wf(s) && forall i :: 0 <= i < s.count ==> s.history[i] == v && s.smoothed[i] == v
  }

  lemma StepSettled(s: FilterState, v: Vec6)
    requires Coherent(s) && SettledOn(s, v)
    ensures Coherent(Step(s, v).state) && SettledOn(Step(s, v).state, v)
    ensures Step(s, v).output == v
  {
    var r := Step(s, v);
    var t := r.state;
    assert forall i :: 0 <= i < t.count ==> t.history[i] == v;
    forall ch | 0 <= ch < 6
      ensures MedianOf(Column(t.history, ch, t.count)) == v[ch]
    {
      MedianOfConstant(Column(t.history, ch, t.count), v[ch]);
    }
    assert forall i :: 0 <= i < t.count ==> t.smoothed[i] == v;
    assert r.output == MeanVector(t.smoothed, t.count);
    forall ch | 0 <= ch < 6
      ensures r.output[ch] == v[ch]
    {
      assert r.output[ch] == Mean(Column(t.smoothed, ch, t.count));
      MeanConstant(Column(t.smoothed, ch, t.count), v[ch]);
    }
  }

  /** Feeding one constant vector from the zeroed state: the filter output
      equals that vector on every call, in particular after five calls. */
  lemma {:induction false} ConstantInputPassesThrough(samples: seq<Vec6>, v: Vec6)
    requires |samples| >= 1
    requires forall i :: 0 <= i < |samples| ==> samples[i] == v
    ensures Step(Feed(EMPTY, samples[..|samples| - 1]), v).output == v
    ensures Coherent(Feed(EMPTY, samples)) && SettledOn(Feed(EMPTY, samples), v)
  {
    var n := |samples|;
    var p := Feed(EMPTY, samples[..n - 1]);
    if n == 1 {
      assert samples[..0] == [];
      assert p == EMPTY;
    } else {
      ConstantInputPassesThrough(samples[..n - 1], v);
      assert samples[..n - 1][..n - 2] == samples[..n - 2];
    }
    StepSettled(p, v);
  }
}
