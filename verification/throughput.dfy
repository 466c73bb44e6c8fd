/** The frame-rate label (app.py, after each processed frame): frames
    processed divided by the wall-clock time since the loop began, or a
    placeholder while no time has elapsed. The clock is a parameter. */
module Throughput {
  import opened Wrappers

  /** `None` stands for the "Calculating..." placeholder. */
  function Rate(frames: nat, elapsed: real): (r: Option<real>)
    ensures r.Some? <==> elapsed > 0.0
    ensures r.Some? ==> r.value >= 0.0 && r.value * elapsed == frames as real
  {
    if elapsed > 0.0 then Some(frames as real / elapsed) else None
  }

  /** The clock keeps running while playback is paused and the counter does
      not move, so the reported rate can only fall during a pause. */
  lemma RateFallsDuringPause(frames: nat, before: real, after: real)
    requires 0.0 < before <= after
    ensures Rate(frames, after).value <= Rate(frames, before).value
  {
    var a := Rate(frames, after).value;
    var b := Rate(frames, before).value;
    assert a * after == b * before;
    assert b * before <= b * after;
    assert (a - b) * after == a * after - b * after;
    NonPositiveFactor(a - b, after);
  }

  lemma NonPositiveFactor(x: real, y: real)
    requires y > 0.0
    ensures x * y <= 0.0 ==> x <= 0.0
  {
  }
}
