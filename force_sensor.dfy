/** The force-sensor module state and its operations: start-up, reading
    and filtering one sample, strike localisation with the session
    statistics, and calibration. The module's static calibration store and
    filter state are the fields of one `Sensor` object. */
module ForceSensor {
  import opened Common
  import opened Median
  import opened Calibration
  import opened RingFilter
  import opened Strike
  import opened SessionStats

  /** The caller-owned force record (`gk_force_data_t`). */
  class ForceData {
    var fx: real
    var fy: real
    var fz: real
    var mx: real
    var my: real
    var mz: real
    var timestamp: u32

    constructor ()
      ensures Values() == ZERO6 && timestamp == 0
    {
      fx, fy, fz, mx, my, mz := 0.0, 0.0, 0.0, 0.0, 0.0, 0.0;
      timestamp := 0;
    }

    /** The six channels in the order fx, fy, fz, mx, my, mz. */
    ghost function Values(): seq<real>
      reads this
    {
      [fx, fy, fz, mx, my, mz]
    }
  }

  /** The caller-owned strike record (`gk_hit_point_t`). */
  class HitPointRecord {
    var x: real
    var y: real
    var force: real
    var timestamp: u32

    constructor ()
      ensures x == 0.0 && y == 0.0 && force == 0.0 && timestamp == 0
    {
      x, y, force, timestamp := 0.0, 0.0, 0.0, 0;
    }
  }

  /** One stored copy of a published record (`last_data`, `filtered_data`). */
  datatype ForceReading = ForceReading(values: Vec6, timestamp: u32)

  const NO_READING := ForceReading(ZERO6, 0)

  /** The rows of a 5-by-6 ring buffer. */
  ghost function RowsOf(a: array2<real>): (rows: seq<Vec6>)
    reads a
    requires a.Length0 == HISTORY_SIZE && a.Length1 == 6
    ensures |rows| == HISTORY_SIZE
    ensures forall i, j :: 0 <= i < HISTORY_SIZE && 0 <= j < 6 ==> rows[i][j] == a[i, j]
  {
    seq(HISTORY_SIZE, i requires 0 <= i < HISTORY_SIZE reads a =>
      seq(6, j requires 0 <= j < 6 reads a => a[i, j]))
  }

  lemma ZeroRows(a: array2<real>)
    requires a.Length0 == HISTORY_SIZE && a.Length1 == 6
    requires forall i, j :: 0 <= i < HISTORY_SIZE && 0 <= j < 6 ==> a[i, j] == 0.0
    ensures RowsOf(a) == EMPTY.history
  {
    var rows := RowsOf(a);
    forall i | 0 <= i < HISTORY_SIZE
      ensures rows[i] == ZERO6
    {
      assert forall j :: 0 <= j < 6 ==> rows[i][j] == ZERO6[j];
    }
  }

  /** Writes `v` into row `row`, channel by channel. */
  method WriteRow(a: array2<real>, row: int, v: Vec6)
    requires a.Length0 == HISTORY_SIZE && a.Length1 == 6 && 0 <= row < HISTORY_SIZE
    modifies a
    ensures RowsOf(a) == old(RowsOf(a))[row := v]
  {
    ghost var before := RowsOf(a);
    for i := 0 to 6
      invariant forall r, c :: 0 <= r < HISTORY_SIZE && 0 <= c < 6 ==>
        a[r, c] == (if r == row && c < i then v[c] else before[r][c])
    {
      a[row, i] := v[i];
    }
    ghost var after := RowsOf(a);
    forall r | 0 <= r < HISTORY_SIZE
      ensures after[r] == before[row := v][r]
    {
      assert forall c :: 0 <= c < 6 ==> after[r][c] == before[row := v][r][c];
    }
  }

  /** The module state: calibration store and filter state. */
  class Sensor {
    var cal: CalibrationProfile
    var lastData: ForceReading
    var filteredData: ForceReading
    var isInitialized: bool
    var hitCount: u32
    var maxForceSession: real
    const history: array2<real>
    const smoothedHistory: array2<real>
    var historyIndex: nat
    var historyCount: int

    /** The buffers have their fixed shape, and the occupancy follows the
        write index: `history_count == min(history_index, 5)`. */
    ghost predicate Valid()
      reads this`historyIndex, this`historyCount
    {
      && history.Length0 == HISTORY_SIZE && history.Length1 == 6
      && smoothedHistory.Length0 == HISTORY_SIZE && smoothedHistory.Length1 == 6
      && history != smoothedHistory
      && historyCount == (if historyIndex < HISTORY_SIZE then historyIndex else HISTORY_SIZE)
    }

    /** The filter part of the state. */
    ghost function Filter(): (s: FilterState)
      reads this`historyIndex, this`historyCount, history, smoothedHistory
      requires Valid()
      ensures Coherent(s)
    {
      FilterState(RowsOf(history), RowsOf(smoothedHistory), historyIndex, historyCount)
    }

    ghost function Session(): Stats
      reads this`hitCount, this`maxForceSession
    {
      Stats(hitCount, maxForceSession)
    }

    /** The zero-initialised static state, before `gk_sensor_init`. */
    constructor ()
      ensures Valid() && fresh(history) && fresh(smoothedHistory)
      ensures cal == ZERO_PROFILE && !isInitialized
      ensures Session() == RESET && Filter() == EMPTY
      ensures lastData == NO_READING && filteredData == NO_READING
    {
      cal := ZERO_PROFILE;
      lastData, filteredData := NO_READING, NO_READING;
      isInitialized := false;
      hitCount, maxForceSession := 0, 0.0;
      history := new real[HISTORY_SIZE, 6]((i, j) => 0.0);
      smoothedHistory := new real[HISTORY_SIZE, 6]((i, j) => 0.0);
      historyIndex, historyCount := 0, 0;
      new;
      ZeroRows(history);
      ZeroRows(smoothedHistory);
    }

    /** `gk_sensor_init`: installs the default calibration, zeroes the
        whole filter and statistics state and marks the module ready. */
    method Init() returns (rc: Status)
      requires Valid()
      modifies this, history, smoothedHistory
      ensures Valid() && rc == Ok
      ensures cal == DEFAULT_PROFILE && isInitialized
      ensures Session() == RESET && Filter() == EMPTY
      ensures lastData == NO_READING && filteredData == NO_READING
    {
      cal := DEFAULT_PROFILE;
      lastData, filteredData := NO_READING, NO_READING;
      hitCount, maxForceSession := 0, 0.0;
      forall i, j | 0 <= i < HISTORY_SIZE && 0 <= j < 6 {
        history[i, j] := 0.0;
      }
      forall i, j | 0 <= i < HISTORY_SIZE && 0 <= j < 6 {
        smoothedHistory[i, j] := 0.0;
      }
      historyIndex, historyCount := 0, 0;
      isInitialized := true;
      ZeroRows(history);
      ZeroRows(smoothedHistory);
      rc := Ok;
    }

    /** The loop of step 2 that copies channel `channel` of the occupied
        slots of `history` into a five-slot scratch array. */
    method GatherChannel(channel: int) returns (values: seq<real>)
      requires Valid() && 0 <= channel < 6
      ensures |values| == HISTORY_SIZE && historyCount <= |values|
      ensures values[..historyCount] == Column(RowsOf(history), channel, historyCount)
    {
      var channelValues := new real[HISTORY_SIZE];
      for i := 0 to historyCount
        invariant forall k :: 0 <= k < i ==> channelValues[k] == history[k, channel]
      {
        channelValues[i] := history[i, channel];
      }
      values := channelValues[..];
    }

    /** The median of channel `channel` over the occupied slots of
        `history`, by `calculate_median` on the gathered values. */
    method ChannelMedian(channel: int) returns (median: real)
      requires Valid() && 0 <= channel < 6 && 1 <= historyCount
      ensures median == MedianOf(Column(RowsOf(history), channel, historyCount))
    {
      var channelValues := GatherChannel(channel);
      median := CalculateMedian(channelValues, historyCount);
    }

    /** Step 2 of the filter: the per-channel median over the occupied
        slots of `history`. */
    method MedianStage() returns (m: Vec6)
      requires Valid() && 1 <= historyCount
      ensures m == MedianVector(RowsOf(history), historyCount)
    {
      ghost var rows := RowsOf(history);
      var out: seq<real> := [];
      for channel := 0 to 6
        invariant |out| == channel
        invariant forall c :: 0 <= c < channel ==> out[c] == MedianOf(Column(rows, c, historyCount))
      {
        var median := ChannelMedian(channel);
        out := out + [median];
      }
      MedianVectorChannels(rows, historyCount, out);
      m := out;
    }

    /** Step 3 of the filter: the per-channel average of the first `n`
        slots of `smoothed_history`. */
    method MeanStage(n: int) returns (m: Vec6)
      requires Valid() && 1 <= n <= HISTORY_SIZE
      ensures m == MeanVector(RowsOf(smoothedHistory), n)
    {
      ghost var rows := RowsOf(smoothedHistory);
      var out: seq<real> := [];
      for channel := 0 to 6
        invariant |out| == channel
        invariant forall c :: 0 <= c < channel ==> out[c] == Mean(Column(rows, c, n))
      {
        var sum := 0.0;
        for i := 0 to n
          invariant sum == Sum(Column(rows, channel, i))
        {
          ColumnSumExtend(rows, channel, i);
          sum := sum + smoothedHistory[i, channel];
        }
        out := out + [sum / n as real];
      }
      m := out;
    }

    /** Step 1 of the filter: the sample goes into slot `history_index % 5`
        of `history`, the write index advances and the occupancy saturates. */
    method InsertSample(sample: Vec6)
      requires Valid()
      modifies this`historyIndex, this`historyCount, history
      ensures Valid()
      ensures RowsOf(history) == old(RowsOf(history))[old(historyIndex) % HISTORY_SIZE := sample]
      ensures historyIndex == old(historyIndex) + 1
      ensures historyCount == (if old(historyCount) < HISTORY_SIZE then old(historyCount) + 1 else old(historyCount))
    {
      var idx := historyIndex % HISTORY_SIZE;
      WriteRow(history, idx, sample);
      historyIndex := historyIndex + 1;
      if historyCount < HISTORY_SIZE {
        historyCount := historyCount + 1;
      }
    }

    /** The three filter steps on one calibrated sample. */
    method FilterStep(sample: Vec6) returns (out: Vec6)
      requires Valid()
      modifies this`historyIndex, this`historyCount, history, smoothedHistory
      ensures Valid()
      ensures Filter() == Step(old(Filter()), sample).state
      ensures out == Step(old(Filter()), sample).output
    {
      ghost var r := Step(Filter(), sample);
      InsertSample(sample);
      assert RowsOf(history) == r.state.history;
      var median := MedianStage();
      var smoothIdx := (historyIndex - 1) % HISTORY_SIZE;
      WriteRow(smoothedHistory, smoothIdx, median);
      assert Filter() == r.state;
      var smoothCount := if historyCount < HISTORY_SIZE then historyCount else HISTORY_SIZE;
      out := MeanStage(smoothCount);
    }

    /** Fills the caller's record with the filter output and keeps the
        two copies of it in the module state. */
    method Publish(data: ForceData, out: Vec6, now: u32)
      modifies data, this`lastData, this`filteredData
      ensures data.Values() == out && data.timestamp == now
      ensures lastData == ForceReading(out, now) && filteredData == lastData
    {
      data.fx, data.fy, data.fz := out[0], out[1], out[2];
      data.mx, data.my, data.mz := out[3], out[4], out[5];
      data.timestamp := now;
      lastData := ForceReading(out, now);
      filteredData := lastData;
    }

    /** `gk_sensor_read_data`. `raw` is what the driver returns for this
        call and `now` the platform clock. An uninitialised module or a
        missing record is rejected, a failed driver read reports a
        communication error, and in both cases nothing changes. Otherwise
        the calibrated sample goes through one filter step and the record
        receives the filter output stamped with `now`. */
    method ReadData(data: ForceData?, raw: RawRead, now: u32) returns (rc: Status)
      requires Valid()
      modifies this, history, smoothedHistory, data
      ensures Valid()
      ensures rc == InvalidParm <==> !old(isInitialized) || data == null
      ensures rc == ComError <==> old(isInitialized) && data != null && raw.ReadFailed?
      ensures rc != Ok ==> unchanged(this, history, smoothedHistory)
      ensures rc != Ok && data != null ==> unchanged(data)
      ensures rc == Ok <==> old(isInitialized) && data != null && raw.ReadOk?
      ensures rc == Ok && raw.ReadOk? && data != null ==>
        var r := Step(old(Filter()), Apply(raw.values, old(cal)));
        && Filter() == r.state
        && data.Values() == r.output && data.timestamp == now
        && lastData == ForceReading(r.output, now) && filteredData == lastData
      ensures cal == old(cal) && isInitialized == old(isInitialized) && Session() == old(Session())
    {
      if !isInitialized || data == null {
        return InvalidParm;
      }
      if raw.ReadFailed? {
        return ComError;
      }
      var calibrated := Apply(raw.values, cal);
      ghost var r := Step(Filter(), calibrated);
      var smoothed := FilterStep(calibrated);
      assert Filter() == r.state && smoothed == r.output;
      Publish(data, smoothed, now);
      rc := Ok;
    }

    /** `gk_calculate_hit_point`. Missing records are rejected; a force
        below the gate reports a communication error; in both cases the
        strike record and the statistics are unchanged. A strike fills the
        record from `Locate`, copies the input timestamp and is counted
        in the session statistics. */
    method CalculateHitPoint(forceData: ForceData?, hitPoint: HitPointRecord?, sqrtf: real -> real)
      returns (rc: Status)
      requires Valid() && IsSqrt(sqrtf)
      modifies this, hitPoint
      ensures Valid()
      ensures forceData == null || hitPoint == null ==> rc == InvalidParm
      ensures rc != Ok ==> unchanged(this)
      ensures rc != Ok && hitPoint != null ==> unchanged(hitPoint)
      ensures forceData != null && hitPoint != null ==>
        var d := Locate(Vec3(forceData.fx, forceData.fy, forceData.fz),
                        Vec3(forceData.mx, forceData.my, forceData.mz), sqrtf);
        && (d.NoStrike? <==> rc == ComError)
        && (d.Strike? ==>
              && rc == Ok
              && hitPoint.x == d.x && hitPoint.y == d.y && hitPoint.force == d.force
              && hitPoint.timestamp == forceData.timestamp
              && Session() == Record(old(Session()), d.force))
      ensures cal == old(cal) && isInitialized == old(isInitialized)
      ensures lastData == old(lastData) && filteredData == old(filteredData)
      ensures historyIndex == old(historyIndex) && historyCount == old(historyCount)
    {
      if forceData == null || hitPoint == null {
        return InvalidParm;
      }
      var d := Locate(Vec3(forceData.fx, forceData.fy, forceData.fz),
                      Vec3(forceData.mx, forceData.my, forceData.mz), sqrtf);
      if d.NoStrike? {
        return ComError;
      }
      hitPoint.x, hitPoint.y := d.x, d.y;
      hitPoint.force := d.force;
      hitPoint.timestamp := forceData.timestamp;
      var session := Record(Stats(hitCount, maxForceSession), d.force);
      hitCount, maxForceSession := session.hitCount, session.maxForce;
      rc := Ok;
    }

    /** `gk_sensor_get_hit_count`. */
    method GetHitCount() returns (n: u32)
      ensures n == Session().hitCount
    {
      n := hitCount;
    }

    /** `gk_sensor_get_max_force_session`. */
    method GetMaxForceSession() returns (f: real)
      ensures f == Session().maxForce
    {
      f := maxForceSession;
    }

    /** `gk_sensor_reset_session_stats`: both counters back to zero. */
    method ResetSessionStats()
      requires Valid()
      modifies this
      ensures Valid() && Session() == RESET
      ensures cal == old(cal) && isInitialized == old(isInitialized)
      ensures lastData == old(lastData) && filteredData == old(filteredData)
      ensures historyIndex == old(historyIndex) && historyCount == old(historyCount)
    {
      hitCount := 0;
      maxForceSession := 0.0;
    }

    /** `gk_sensor_calibrate`. `draws` are the driver's answers to its 100
        reads. The offsets become the per-channel sums of the successful
        draws divided by 100, the scales stay, the store is marked
        calibrated, and the call always succeeds. */
    method Calibrate(draws: seq<RawRead>) returns (rc: Status)
      requires Valid() && |draws| == CAL_SAMPLES
      modifies this
      ensures Valid() && rc == Ok
      ensures cal == Calibrated(old(cal), draws)
      ensures isInitialized == old(isInitialized) && Session() == old(Session())
      ensures lastData == old(lastData) && filteredData == old(filteredData)
      ensures historyIndex == old(historyIndex) && historyCount == old(historyCount)
    {
      var sumFx, sumFy, sumFz := 0.0, 0.0, 0.0;
      var sumMx, sumMy, sumMz := 0.0, 0.0, 0.0;
      for i := 0 to CAL_SAMPLES
        invariant sumFx == SumChannel(draws[..i], 0) && sumFy == SumChannel(draws[..i], 1)
        invariant sumFz == SumChannel(draws[..i], 2) && sumMx == SumChannel(draws[..i], 3)
        invariant sumMy == SumChannel(draws[..i], 4) && sumMz == SumChannel(draws[..i], 5)
      {
        assert draws[..i + 1][..i] == draws[..i];
        if draws[i].ReadOk? {
          var raw := draws[i].values;
          sumFx, sumFy, sumFz := sumFx + raw[0], sumFy + raw[1], sumFz + raw[2];
          sumMx, sumMy, sumMz := sumMx + raw[3], sumMy + raw[4], sumMz + raw[5];
        }
      }
      assert draws[..CAL_SAMPLES] == draws;
      var n := CAL_SAMPLES as real;
      cal := cal.(offsets := [sumFx / n, sumFy / n, sumFz / n - (-GRAVITY),
                              sumMx / n, sumMy / n, sumMz / n],
                  isCalibrated := true);
      rc := Ok;
    }

    /** One pass of the application's main loop: read a filtered sample
        and, when that succeeds, localise it; the detection is what is
        handed to the display, `NoStrike` when nothing is shown. */
    method MainPass(raw: RawRead, now: u32, sqrtf: real -> real) returns (shown: Detection)
      requires Valid() && IsSqrt(sqrtf)
      modifies this, history, smoothedHistory
      ensures Valid()
      ensures !old(isInitialized) || raw.ReadFailed? ==>
        shown == NoStrike && unchanged(this, history, smoothedHistory)
      ensures old(isInitialized) && raw.ReadOk? ==>
        var out := Step(old(Filter()), Apply(raw.values, old(cal))).output;
        && Filter() == Step(old(Filter()), Apply(raw.values, old(cal))).state
        && shown == Locate(Vec3(out[0], out[1], out[2]), Vec3(out[3], out[4], out[5]), sqrtf)
        && Session() == (if shown.Strike? then Record(old(Session()), shown.force) else old(Session()))
        && lastData == ForceReading(out, now) && filteredData == lastData
      ensures cal == old(cal) && isInitialized == old(isInitialized)
    {
      var forceData := new ForceData();
      var rc := ReadData(forceData, raw, now);
      if rc != Ok {
        return NoStrike;
      }
      ghost var out := Step(old(Filter()), Apply(raw.values, old(cal))).output;
      assert forceData.Values() == out;
      shown := Localise(forceData, sqrtf);
    }

    /** The second half of a main-loop pass: localise a filtered sample;
        `NoStrike` when the hit-point calculation declines. */
    method Localise(forceData: ForceData, sqrtf: real -> real) returns (shown: Detection)
      requires Valid() && IsSqrt(sqrtf)
      modifies this
      ensures Valid()
      ensures var v := forceData.Values();
        shown == Locate(Vec3(v[0], v[1], v[2]), Vec3(v[3], v[4], v[5]), sqrtf)
      ensures Session() == (if shown.Strike? then Record(old(Session()), shown.force) else old(Session()))
      ensures cal == old(cal) && isInitialized == old(isInitialized)
      ensures lastData == old(lastData) && filteredData == old(filteredData)
      ensures historyIndex == old(historyIndex) && historyCount == old(historyCount)
    {
      ghost var d := Locate(Vec3(forceData.fx, forceData.fy, forceData.fz),
                            Vec3(forceData.mx, forceData.my, forceData.mz), sqrtf);
      var hitPoint := new HitPointRecord();
      var rc := CalculateHitPoint(forceData, hitPoint, sqrtf);
      if rc != Ok {
        assert d.NoStrike?;
        return NoStrike;
      }
      shown := Strike(hitPoint.x, hitPoint.y, hitPoint.force);
      assert shown == d;
    }
  }
}
