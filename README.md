# gk_bag force pipeline and user profile, in Dafny

This project models the firmware core of the gk_bag smart punching bag.
A 6-axis force/torque sensor sits behind the striking surface. Each raw
reading is calibrated by per-axis offset and scale. It then goes through a
two-stage noise filter: a median over a 5-slot ring of samples, followed by
a moving average over a 5-slot ring of medians. The filtered force is gated
at 5 N. Above the gate, the contact point on the 10 cm cylindrical bag is
solved from the force and the compensated torque. The result is reported
in centimetres, axis-swapped and clamped to ±15 cm, and it updates the
session statistics (hit count and peak force). A small second core is the
user profile: start-up, early rejection in the QR-code login, guarded
profile edits, and the demo profile.

Modules, one concern each:

- `Common`: `u32` with wrap-around increment, status codes, 6-channel
  vectors, sum and mean, clamp, and the square-root contract.
- `Median`: `calculate_median` as an in-place bubble sort on an `array`,
  proved against a functional insertion sort, plus the median's rank
  properties.
- `Calibration`: the calibration profile, its defaults, the per-axis
  correction and the offsets of a calibration batch.
- `RingFilter`: the filter as a pure state machine (`Step`), with ring and
  moving-average lemmas.
- `Strike`: torque compensation, the lever arm, the cylinder quadratic and
  its three solve branches, the gate, and the final report (`Locate`).
- `SessionStats`: the hit-count/peak-force update as a value, and folds
  over a strike sequence.
- `ForceSensor`: the module's static state as a class `Sensor`. The two
  ring buffers are `array2<real>` fields (5×6) and the operations are
  methods. Each filter method is proved against `RingFilter.Step` through
  the ghost view `Filter()`.
- `UserAuth`: `g_user_info` as a class `UserStore` with a record field,
  and its operations as methods.

Modelling choices:

- Sensor readings, the sample source and the clock are parameters.
- `sqrtf` is a function parameter `sqrtf` satisfying `IsSqrt`
  (non-negative, and squares back to its argument on non-negative input).
- The JSON parser used by the login is also a parameter. It returns the
  string members of the parsed object, or `None` when the text is not JSON.
- All arithmetic is on `real`.

Points where the code behaves differently from what a reader might
expect; the model follows the code:

- **Calibration z-force offset.** The code sets the z-force offset to the
  batch mean *plus* 9.81 (apps/gk_bag/src/force_sensor.c:337); its comment
  says only that this accounts for gravity, which suggests removing the
  gravity reading from the z channel. As written, 100 stationary draws
  `(0, 0, -9.81, 0, 0, 0)` give all-zero offsets, and afterwards the
  stationary sample calibrates to itself, gravity still on the z channel
  (`Calibration.StationaryBatch`).
- **Default profile.** With the defaults from `gk_sensor_init`, a
  stationary sample calibrates to twice gravity downward
  (`Calibration.DefaultProfileOnStationary`).
- **Calibration denominator.** The denominator is always 100, even when
  some draws fail. A batch in which every draw fails still succeeds and
  installs the default offsets.
- **Sub-threshold forces.** A force below the threshold is reported with
  the same code as a communication error (`OPRT_COM_ERROR`). It is not a
  separate "no strike" channel.

## Model

| member | source | states |
|---|---|---|
| Common.WrappingInc | apps/gk_bag/src/force_sensor.c:280 | the `uint32_t` increment: one more below 2^32-1, zero at 2^32-1 |
| Common.Clamp | apps/gk_bag/src/force_sensor.c:276-277 | the `fmaxf(-15, fminf(15, v))` clamp stays in bounds and is the identity inside them |
| Common.SqrtBelow | apps/gk_bag/src/force_sensor.c:228-229 | for a non-negative argument, `sqrtf(x) < 5` holds exactly when `x < 25`, so the magnitude gate is a test on `‖F‖²` |
| Median.Sort | apps/gk_bag/src/force_sensor.c:119-127 | the reference sort: its result is sorted and is a permutation of its input |
| Median.SortedUnique | apps/gk_bag/src/force_sensor.c:119-129 | two sorted permutations of one multiset are equal, so the median does not depend on the sort used |
| Median.MedianOf | apps/gk_bag/src/force_sensor.c:129 | the element at index `count/2` of the sorted values is one of the input values |
| Median.MedianOfSortedPermutation | apps/gk_bag/src/force_sensor.c:119-129 | any sorted permutation of the input has the median at index `count/2` |
| Median.MedianRank | apps/gk_bag/src/force_sensor.c:129 | at least `count/2 + 1` inputs are at most the median, and at least `count - count/2` are at least it |
| Median.MedianOfOne | apps/gk_bag/src/force_sensor.c:129 | one value: the median is that value |
| Median.MedianOfTwo | apps/gk_bag/src/force_sensor.c:129 | two values: the median is the larger one (index 1) |
| Median.MedianOfConstant | apps/gk_bag/src/force_sensor.c:129 | all values equal: the median is that value |
| Median.SwapAdjacent | apps/gk_bag/src/force_sensor.c:121-125 | the swap of `temp_array[j]` and `temp_array[j+1]` exchanges the two, keeps the multiset of the window and touches no other cell |
| Median.BubblePass | apps/gk_bag/src/force_sensor.c:120-126 | one inner pass carries the largest of the prefix to its end, keeps the multiset and leaves the rest of the array alone |
| Median.BubbleSort | apps/gk_bag/src/force_sensor.c:119-127 | the nested loops leave the first `count` cells sorted and a permutation of the input, and every cell from `count` on unchanged |
| Median.CalculateMedian | apps/gk_bag/src/force_sensor.c:111-130 | copying `count` (1 to 5) values into a local array, bubble-sorting it and taking index `count/2` returns `MedianOf` the values |
| Calibration.Apply | apps/gk_bag/src/force_sensor.c:145-150 | every channel of the calibrated sample is `(raw[i] - offset[i]) * scale[i]` |
| Calibration.ApplyInvertible | apps/gk_bag/src/force_sensor.c:145-150 | with a non-zero scale the raw channel is recovered from the calibrated one |
| Calibration.DefaultProfileOnStationary | apps/gk_bag/src/force_sensor.c:85-100 | under the start-up defaults the stationary sample calibrates to `(0, 0, -19.62, 0, 0, 0)` |
| Calibration.Calibrated | apps/gk_bag/src/force_sensor.c:335-342 | after a batch the scales are unchanged and the store is marked calibrated |
| Calibration.SumChannel | apps/gk_bag/src/force_sensor.c:321-332 | a channel's running sum over a batch in which no draw succeeded is 0: failed draws add nothing |
| Calibration.BatchOffsets | apps/gk_bag/src/force_sensor.c:335-340 | each offset times the batch size 100 is the channel's sum, plus 100 × 9.81 on the z-force channel: the divisor is the batch size, not the number of good draws |
| Calibration.SumChannelUniform | apps/gk_bag/src/force_sensor.c:321-332 | failed draws add nothing: in a batch of `v`s and failures the channel sum is the success count times `v` |
| Calibration.OffsetsOfUniformBatch | apps/gk_bag/src/force_sensor.c:335-340 | with `k` good draws of `v` out of 100 the offset is `k * v / 100`, plus 9.81 on the z-force channel |
| Calibration.AllDrawsFailed | apps/gk_bag/src/force_sensor.c:321-340 | a batch of failed draws yields exactly the default offsets |
| Calibration.StationaryBatch | apps/gk_bag/src/force_sensor.c:335-340 | 100 stationary draws give all-zero offsets, and the stationary sample then calibrates to itself |
| RingFilter.Column | apps/gk_bag/src/force_sensor.c:168-170 | the gathered channel has one entry per occupied slot, entry `i` being slot `i`'s value |
| RingFilter.ColumnSumExtend | apps/gk_bag/src/force_sensor.c:183-186 | the running sum over one more slot adds that slot's value |
| RingFilter.MedianVector | apps/gk_bag/src/force_sensor.c:164-172 | every channel of the median vector is a value that one of the occupied slots holds in that channel |
| RingFilter.MedianVectorChannels | apps/gk_bag/src/force_sensor.c:166-172 | a vector whose every channel is the median of that channel's occupied slots, computed one channel at a time, is the median vector |
| RingFilter.MeanVector | apps/gk_bag/src/force_sensor.c:180-188 | every channel of the average times the occupancy is the channel's sum over the occupied slots |
| RingFilter.Step | apps/gk_bag/src/force_sensor.c:155-188 | one accepted sample keeps both rings at 5 slots and the occupancy within 0 to 5 |
| RingFilter.StepIsRingInsertion | apps/gk_bag/src/force_sensor.c:155-178 | the sample goes to slot `index % 5`, the median vector goes to the same slot of the second ring, no other slot changes, the index rises by 1, and the count rises by 1 up to 5 |
| RingFilter.StepOutputIsMovingAverage | apps/gk_bag/src/force_sensor.c:180-188 | each output channel is the sum over the occupied slots of the median ring divided by the occupancy |
| RingFilter.Feed | apps/gk_bag/src/force_sensor.c:155-162 | any sequence of accepted samples keeps the filter state well-formed |
| RingFilter.RingHoldsLatest | apps/gk_bag/src/force_sensor.c:155-162 | from the zeroed state the ring holds exactly the latest `min(n, 5)` samples, sample `j` in slot `j % 5`, and `count == min(n, 5)` |
| RingFilter.StepSettled | apps/gk_bag/src/force_sensor.c:166-188 | when all occupied slots hold `v`, accepting `v` keeps that so and outputs `v` |
| RingFilter.ConstantInputPassesThrough | apps/gk_bag/src/force_sensor.c:155-188 | from the zeroed state, feeding a constant vector outputs that vector on every call, the fifth included |
| Strike.CompensateTorque | apps/gk_bag/src/force_sensor.c:220-221 | the torque correction keeps `τz`, adds `0.20 Fy` to `τx` and `0.15 Fx` to `τy`, and changes nothing for a purely axial force |
| Strike.PerpendicularArmScaled | apps/gk_bag/src/force_sensor.c:234-237 | `‖F‖²` times `γ_perp` is the cross product `F × τ` |
| Strike.PerpendicularArmOrthogonal | apps/gk_bag/src/force_sensor.c:234-237 | `γ_perp = F × τ / ‖F‖²` is orthogonal to `F` |
| Strike.PerpendicularArmOfLever | apps/gk_bag/src/force_sensor.c:234-237 | for the torque of `F` applied at `r`, `γ_perp` is `r` minus its projection onto `F`, the foot of the line of action |
| Strike.CylinderQuadraticShape | apps/gk_bag/src/force_sensor.c:243-245 | the leading coefficient is non-negative and zero exactly for an axial force, and the constant term is at least `-R²` |
| Strike.CylinderQuadraticMeaning | apps/gk_bag/src/force_sensor.c:243-245 | the quadratic's value at `k` is the squared horizontal distance of `k F + γ_perp` from the axis minus the squared radius |
| Strike.SelectBranch | apps/gk_bag/src/force_sensor.c:248-261 | near-axial exactly when `a < eps`; real root exactly when `a >= eps` and the discriminant is non-negative; no real root exactly when `a >= eps` and it is negative |
| Strike.NearAxialK | apps/gk_bag/src/force_sensor.c:249-251 | in the near-axial branch `k1 (Fz² + eps) = -(Fz γz)` |
| Strike.RealRootK | apps/gk_bag/src/force_sensor.c:252-256 | in the real-root branch `2a k1 + b = -sqrtf(D)`, the minus-sign root, so `k1` is at or before the vertex `-b/2a` whenever `sqrtf(D) >= 0` |
| Strike.NoRealRootK | apps/gk_bag/src/force_sensor.c:257-259 | in the no-real-root branch `k1` is the vertex `-b/2a` |
| Strike.RealRootIsSmallerRoot | apps/gk_bag/src/force_sensor.c:253-256 | with `a >= eps` and a non-negative discriminant, the minus-branch `k1` is a root and no root is smaller |
| Strike.NoRealRootIsNearestPoint | apps/gk_bag/src/force_sensor.c:257-259 | with a negative discriminant no real root exists, and `k1 = -(Fx γx + Fy γy)/a` minimises the quadratic |
| Strike.NearAxialMinimisesResidual | apps/gk_bag/src/force_sensor.c:249-251 | with `a < eps`, `k1 = -(Fz γz)/(Fz² + eps)` minimises the regularised axial residual |
| Strike.ContactPointOnLine | apps/gk_bag/src/force_sensor.c:264-267 | `γ = k F + γ_perp` lies on the line through `γ_perp` along `F` (`(γ - γ_perp) × F = 0`), with `F·γ = k‖F‖² + F·γ_perp` |
| Strike.ContactOfOnLine | apps/gk_bag/src/force_sensor.c:233-267 | the solved point lies on the line of action through the perpendicular arm of the compensated torque, and `F·γ = k1 ‖F‖²` |
| Strike.BelowGate | apps/gk_bag/src/force_sensor.c:228-231 | when the magnitude is the non-negative root of `‖F‖²`, the gate rejects exactly when `‖F‖² < 25` |
| Strike.Locate | apps/gk_bag/src/force_sensor.c:213-277 | no strike exactly when `‖F‖² < 25`; a strike has both coordinates in ±15 cm, a force of at least 5 N, and force² equal to `‖F‖²` |
| Strike.LocateAboveGate | apps/gk_bag/src/force_sensor.c:229-277 | above the gate the report is `(clamp(γy·100), clamp(γx·100))` with the force `sqrtf(‖F‖²)`, where `γ` is solved from the compensated torque |
| Strike.LocalisesTrueContact | apps/gk_bag/src/force_sensor.c:233-267 | if the torque is that of a non-axial force applied at a point on the bag surface, a real root exists and the solved point is that point or is behind it on the line of action |
| Strike.GateExamples | apps/gk_bag/src/force_sensor.c:228-231 | `‖F‖ = 4.9` gives no strike, and `‖F‖ = 5.1` gives a strike |
| Strike.PureXForceHitsCentreLine | apps/gk_bag/src/force_sensor.c:220-277 | a pure +x force of at least 5 N with zero torque is reported at `(0, -10)` cm with that force |
| Strike.ClampedAtEdge | apps/gk_bag/src/force_sensor.c:249-277 | an axial 10 N force with 10 N·m of torque solves to a point 100 cm out, reported clamped at exactly 15 cm |
| SessionStats.Record | apps/gk_bag/src/force_sensor.c:280-283 | a confirmed strike adds one to the hit count (`WrappingInc`, wrapping at 2^32); the peak becomes the larger of the old peak and the force, and changes exactly when the force is strictly larger |
| SessionStats.RecordAll | apps/gk_bag/src/force_sensor.c:280-283 | recording a sequence of strikes adds its length to the count modulo 2^32, never lowers the peak, and leaves a peak that bounds every recorded force |
| SessionStats.PeakBounds | apps/gk_bag/src/force_sensor.c:281-283 | the peak of a strike sequence is non-negative, bounds every force, and is 0 or one of the forces |
| SessionStats.StrikesSinceReset | apps/gk_bag/src/force_sensor.c:280-283 | `n` strikes after a reset leave the count at `n mod 2^32`, and the peak at the largest force or 0 |
| SessionStats.PeakNeverDecreases | apps/gk_bag/src/force_sensor.c:281-283 | recording strikes never lowers the peak |
| SessionStats.ThreeStrikes | apps/gk_bag/src/force_sensor.c:280-283 | strikes of 20, 55 and 10 N after a reset give count 3 and peak 55 N |
| ForceSensor.WriteRow | apps/gk_bag/src/force_sensor.c:156-158 | writing a vector into one row of a 5×6 buffer changes that row only |
| ForceSensor.Sensor.constructor | apps/gk_bag/src/force_sensor.c:15-36 | the zero-initialised statics: zero calibration, not initialised, zero counters, empty rings |
| ForceSensor.Sensor.Init | apps/gk_bag/src/force_sensor.c:76-108 | installs the default calibration (fz offset 9.81, unit scales, calibrated), zeroes the state and the rings, and marks the module initialised; always `Ok` |
| ForceSensor.Sensor.GatherChannel | apps/gk_bag/src/force_sensor.c:167-170 | the scratch array holds, in its first `count` cells, the channel's values of the occupied ring slots in slot order |
| ForceSensor.Sensor.ChannelMedian | apps/gk_bag/src/force_sensor.c:167-171 | the median computed for one channel is `MedianOf` that channel's occupied slots |
| ForceSensor.Sensor.MedianStage | apps/gk_bag/src/force_sensor.c:164-172 | the per-channel median of the occupied ring slots equals the specification's median vector |
| ForceSensor.Sensor.MeanStage | apps/gk_bag/src/force_sensor.c:180-188 | the per-channel average of the occupied median-ring slots equals the specification's mean vector |
| ForceSensor.Sensor.InsertSample | apps/gk_bag/src/force_sensor.c:155-162 | the sample lands in row `index % 5`, the index advances and the count saturates at 5 |
| ForceSensor.Sensor.FilterStep | apps/gk_bag/src/force_sensor.c:155-188 | the new filter state and output are those of `RingFilter.Step` on the old state |
| ForceSensor.Sensor.Publish | apps/gk_bag/src/force_sensor.c:191-200 | the caller's record gets the six filtered channels and the timestamp, and both stored copies are set to it |
| ForceSensor.Sensor.ReadData | apps/gk_bag/src/force_sensor.c:132-203 | invalid parameter exactly when uninitialised or `data` is null; communication error exactly when the read fails; otherwise `Ok`, the filter steps on the calibrated sample and the record holds the output with the current time; on an error nothing changes |
| ForceSensor.Sensor.CalculateHitPoint | apps/gk_bag/src/force_sensor.c:206-289 | a null argument gives invalid parameter; below the gate gives communication error; on any error the record and statistics are untouched; on success the record holds the located strike and the input timestamp, and the statistics are updated by `Record` |
| ForceSensor.Sensor.GetHitCount | apps/gk_bag/src/force_sensor.c:292-295 | returns the session hit count |
| ForceSensor.Sensor.GetMaxForceSession | apps/gk_bag/src/force_sensor.c:297-300 | returns the session peak force |
| ForceSensor.Sensor.ResetSessionStats | apps/gk_bag/src/force_sensor.c:302-307 | both counters return to zero and nothing else changes |
| ForceSensor.Sensor.Calibrate | apps/gk_bag/src/force_sensor.c:309-351 | the six running sums over the 100 draws give `Calibration.Calibrated` of the old profile; scales, filter and statistics are kept; always `Ok` |
| ForceSensor.Sensor.MainPass | apps/gk_bag/src/main.c:32-45 | one loop pass: no strike and no change when uninitialised or the read fails; otherwise the filter steps, the latest and filtered records both become the output with the current time, the shown detection is `Locate` of the filtered force and torque, and the statistics change exactly on a strike; the calibration and the initialised flag are kept |
| ForceSensor.Sensor.Localise | apps/gk_bag/src/main.c:36-39 | the shown detection is `Locate` of the sample's force and torque, the statistics change by `Record` exactly on a strike, and calibration, readings and filter counters are kept |
| UserAuth.UpdateVerdict | apps/gk_bag/src/user_auth.c:118-136 | `Ok` exactly when logged in and all three values are in range; not-logged-in takes precedence over every range check; invalid parameter exactly when logged in with some value out of range |
| UserAuth.DefaultProfileIsValid | apps/gk_bag/src/user_auth.c:159-164 | the demo profile passes every guard, with its own values and with any in-range values |
| UserAuth.LoggedOutRejectsAll | apps/gk_bag/src/user_auth.c:118-121 | a logged-out record rejects every edit as not logged in, whatever the values |
| UserAuth.Truncate | apps/gk_bag/src/user_auth.c:60-61 | the copy is a prefix of the source of length `min(‖s‖, max)`, and the whole source when it fits |
| UserAuth.LoggedIn | apps/gk_bag/src/user_auth.c:59-62 | after login, id and name are prefixes of the parsed values within 63 and 31 characters, the user is logged in, and height, weight and gender are kept |
| UserAuth.LoginKeepsShortNames | apps/gk_bag/src/user_auth.c:60-61 | an id and name that fit are stored unchanged |
| UserAuth.UserStore.constructor | apps/gk_bag/src/user_auth.c:9 | the zero-initialised record |
| UserAuth.UserStore.Init | apps/gk_bag/src/user_auth.c:11-20 | the record is zeroed and logged out; always `Ok` |
| UserAuth.UserStore.Login | apps/gk_bag/src/user_auth.c:22-68 | `Ok` exactly for non-empty text that parses and has all three fields; invalid parameter exactly for null or empty text or a missing `user_id`/`username`/`token`; parse error exactly for unparsable text; the record is untouched on any error; on success it is `LoggedIn` of the old record |
| UserAuth.UserStore.UpdateInfo | apps/gk_bag/src/user_auth.c:114-147 | the code is `UpdateVerdict` of the old record; on `Ok` exactly height, weight and gender take the arguments; otherwise nothing changes |
| UserAuth.UserStore.GetUserInfo | apps/gk_bag/src/user_auth.c:149-152 | returns the current record |
| UserAuth.UserStore.SetDefaultUserInfo | apps/gk_bag/src/user_auth.c:155-168 | the record becomes `default_user`/`Demo User`, 175 cm, 70 kg, gender 0, logged in |
| UserAuth.InitThenUpdate | apps/gk_bag/src/user_auth.c:16-17 | after start-up any edit fails as not logged in and the record stays blank |
| UserAuth.DefaultThenUpdate | apps/gk_bag/src/user_auth.c:138-140 | after the demo profile an in-range edit succeeds and changes only height, weight and gender |

## Left out

- `read_raw_sensor_data` (apps/gk_bag/src/force_sensor.c:39-74) is a
  random-number hardware simulation. Each read is instead a `RawRead`
  parameter, either six values or a failure.
- The clock (`tal_time_get_posix`), the sleeps (`tal_system_sleep`) and all
  logging are platform I/O and are not modelled. The timestamp is a
  parameter of `ReadData`.
- IEEE single-precision rounding is not modelled. All arithmetic is exact
  on `real`, and `fminf`/`fmaxf` are exact min/max.
- `sqrtf` is foreign code. It is a parameter satisfying `IsSqrt`.
- `history_index` is a C `int` that would overflow after 2^31 reads. It is
  a `nat` here; the overflow is left out because it is undefined behaviour
  in C.
- The `residual` field of the hit-point record
  (apps/gk_bag/include/gk_bag.h:41) is never assigned and is not modelled.
- `ForceSensor.Sensor.CalculateHitPoint`: like the source, it does not
  check that the module was initialised.
- `ForceSensor.Sensor.Calibrate` takes its 100 draws as a sequence of
  exactly `CAL_SAMPLES` driver answers. The batch size is fixed in the
  source too.
- The unused constants `SENSOR_I2C_ADDR`, `SENSOR_SAMPLE_RATE_HZ` and
  `NOISE_FILTER_ALPHA` are not modelled.
- The GUI (`gui_main.c`, `gui_graphics.c`) is not part of this model. Of
  `main.c`, only one pass of the main loop is modelled (`MainPass`); the
  detection it returns stands for the hand-off to the display. Thread
  creation and the endless 20 Hz loop are not modelled.
- `UserAuth.UserStore.Login`: cJSON is abstracted to a map of string
  members. A member present under a non-string type is not distinguished.
  Truncation is by characters rather than bytes.
- The token check in `gk_user_login` is a constant `true`, so its
  communication-error branch is unreachable and is not modelled.
- `gk_user_register` (apps/gk_bag/src/user_auth.c:70-112) is not part of
  this model. It is the registration variant of the login path.
- `UserAuth.UserStore.GetUserInfo` returns a copy of the record. The
  source returns a pointer to the static record, and aliasing through that
  pointer is not modelled.
