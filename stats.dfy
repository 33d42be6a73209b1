/** The session statistics kept beside the filter: how many strikes were
    confirmed and the largest force among them. */
module SessionStats {
  import opened Common

  datatype Stats = Stats(hitCount: u32, maxForce: real)

  /** Both counters at zero, as after a reset or the zeroed start-up state. */
  const RESET := Stats(0, 0.0)

  /** The update of one confirmed strike of magnitude `force`: the count
      goes up by one with `uint32_t` wrap-around, and the peak is replaced
      when the new force is strictly larger. */
  function Record(s: Stats, force: real): (t: Stats)
    ensures t.hitCount == WrappingInc(s.hitCount)
    ensures s.hitCount as int < 0xFFFF_FFFF ==> t.hitCount as int == s.hitCount as int + 1
    ensures t.maxForce >= s.maxForce && t.maxForce >= force
    ensures t.maxForce == s.maxForce || t.maxForce == force
    ensures force > s.maxForce <==> t.maxForce != s.maxForce
  {
    Stats(WrappingInc(s.hitCount), if force > s.maxForce then force else s.maxForce)
  }

  /** The statistics after confirming the strikes `forces` in order. */
  function RecordAll(s: Stats, forces: seq<real>): (t: Stats)
    ensures t.hitCount as int == (s.hitCount as int + |forces|) % 0x1_0000_0000
    ensures t.maxForce >= s.maxForce
    ensures forall i :: 0 <= i < |forces| ==> forces[i] <= t.maxForce
  {
    if |forces| == 0 then s else Record(RecordAll(s, forces[..|forces| - 1]), forces[|forces| - 1])
  }

  /** The largest of `forces`, or 0 when there is none or all are smaller. */
  function Peak(forces: seq<real>): real
  {
    if |forces| == 0 then 0.0 else Max(Peak(forces[..|forces| - 1]), forces[|forces| - 1])
  }

  lemma {:induction false} PeakBounds(forces: seq<real>)
    ensures Peak(forces) >= 0.0
    ensures forall i :: 0 <= i < |forces| ==> forces[i] <= Peak(forces)
    ensures Peak(forces) == 0.0 || Peak(forces) in forces
  {
    if |forces| > 0 {
      var prefix := forces[..|forces| - 1];
      PeakBounds(prefix);
      assert forall i :: 0 <= i < |prefix| ==> forces[i] == prefix[i];
    }
  }

  /** From a reset, `n` strikes leave the count at `n` modulo 2^32 and
      the peak at the largest force confirmed, or 0 if none was positive. */
  lemma {:induction false} StrikesSinceReset(forces: seq<real>)
    ensures RecordAll(RESET, forces).hitCount as int == |forces| % 0x1_0000_0000
    ensures RecordAll(RESET, forces).maxForce == Peak(forces)
  {
    if |forces| > 0 {
      StrikesSinceReset(forces[..|forces| - 1]);
    }
  }

  /** The peak never decreases while strikes are recorded. */
  lemma {:induction false} PeakNeverDecreases(s: Stats, forces: seq<real>)
    ensures RecordAll(s, forces).maxForce >= s.maxForce
  {
    if |forces| > 0 {
      PeakNeverDecreases(s, forces[..|forces| - 1]);
    }
  }

  /** Strikes of 20 N, 55 N and 10 N after a reset: three hits, peak 55 N. */
  lemma ThreeStrikes()
    ensures RecordAll(RESET, [20.0, 55.0, 10.0]) == Stats(3, 55.0)
  {
    var f := [20.0, 55.0, 10.0];
    assert f[..2] == [20.0, 55.0] && f[..2][..1] == [20.0] && f[..2][..1][..0] == [];
    assert RecordAll(RESET, [20.0]) == Stats(1, 20.0);
    assert RecordAll(RESET, [20.0, 55.0]) == Stats(2, 55.0);
  }
}
