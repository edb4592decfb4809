/**
 The adaptive bitrate controller (src/adaptive_bitrate.cpp): moving averages of loss and round-trip time, and a scale
 that bad samples shrink and that a timer lets grow again. Floats are modelled as reals; the clock, in nanoseconds,
 is a parameter of the calls that read it.
 */
module AdaptiveBitrate {
  const ALPHA := 0.3
  const RECOVERY_STEP := 0.4 * 0.01
  const MIN_RTT := 5.0
  const TIMEOUT := 10_000_000_000

  datatype Config = Config(enabled: bool, minBitrate: int, maxBitrate: int)

  datatype Controller = Controller(ewmaLoss: real, ewmaRtt: real, scale: real, primed: bool, inRecovery: bool,
                                   recoveryStart: int)

  function Fresh(start: int): Controller {
    Controller(0.0, 0.0, 1.0, false, false, start)
  }

  function Least(a: real, b: real): real {
    if b < a then b else a
  }

  function Greatest(a: real, b: real): real {
    if a < b then b else a
  }

  function Between(x: real, lo: real, hi: real): real {
    if x < lo then lo else if hi < x then hi else x
  }

  function Averaged(sample: real, average: real): real {
    ALPHA * sample + (1.0 - ALPHA) * average
  }

  predicate Spike(s: Controller, rtt: real) {
    rtt > 2.0 * Averaged(rtt, s.ewmaRtt)
  }

  /** Whether a sample of a primed controller counts as congestion. */
  predicate Congested(s: Controller, loss: real, rtt: real) {
    Spike(s, Greatest(rtt, 0.0)) || Averaged(Between(loss, 0.0, 100.0), s.ewmaLoss) > 0.0
  }

  function LossPenalty(ewmaLoss: real): real {
    if ewmaLoss > 5.0 then 0.5 else if ewmaLoss > 1.0 then 1.0 - ewmaLoss / 100.0 else 1.0
  }

  function RttPenalty(spike: bool): real {
    if spike then 0.7 else 1.0
  }

  function Shrunk(scale: real, lossPenalty: real, rttPenalty: real): real {
    Least(scale * lossPenalty * rttPenalty, 1.0)
  }

  function Penalised(scale: real, ewmaLoss: real, spike: bool): real {
    Shrunk(scale, LossPenalty(ewmaLoss), RttPenalty(spike))
  }

  function Network(s: Controller, loss: real, rtt: real, now: int): Controller {
    var loss', rtt' := Between(loss, 0.0, 100.0), Greatest(rtt, 0.0);
    if !s.primed then s.(ewmaLoss := loss', ewmaRtt := Greatest(MIN_RTT, rtt'), primed := true)
    else
      var n := s.(ewmaLoss := Averaged(loss', s.ewmaLoss), ewmaRtt := Averaged(rtt', s.ewmaRtt));
      if Congested(s, loss, rtt) then
        n.(inRecovery := false, scale := Penalised(s.scale, n.ewmaLoss, Spike(s, rtt')))
      else if !s.inRecovery then n.(inRecovery := true, recoveryStart := now)
      else n
  }

  predicate Slow(encodeMs: real) {
    encodeMs > 11.0
  }

  predicate Stutters(fps: real) {
    fps < 0.88
  }

  predicate Drops(dropped: real) {
    dropped > 0.05
  }

  predicate Unhealthy(fps: real, encodeMs: real, dropped: real) {
    Slow(encodeMs) || Stutters(fps) || Drops(dropped)
  }

  function Health(s: Controller, fps: real, encodeMs: real, dropped: real, now: int): Controller {
    var a := if Slow(encodeMs) then s.scale * 0.88 else s.scale;
    var b := if Stutters(fps) then a * 0.88 else a;
    var c := if Drops(dropped) then b * 0.9 else b;
    if Unhealthy(fps, encodeMs, dropped) then s.(scale := c, inRecovery := false)
    else if !s.inRecovery then s.(inRecovery := true, recoveryStart := now)
    else if now - s.recoveryStart >= TIMEOUT then s.(scale := Least(s.scale + RECOVERY_STEP, 1.0))
    else s
  }

  // ---------------------------------------------------------------------------------------------------
  // Every run of an enabled controller
  // ---------------------------------------------------------------------------------------------------

  datatype Sample =
    | Net(loss: real, rtt: real, now: int)
    | Stream(fps: real, encodeMs: real, dropped: real, now: int)

  function Apply(s: Controller, e: Sample): Controller {
    match e
    case Net(loss, rtt, now) => Network(s, loss, rtt, now)
    case Stream(fps, encodeMs, dropped, now) => Health(s, fps, encodeMs, dropped, now)
  }

  function Run(s: Controller, samples: seq<Sample>): Controller
    decreases |samples|
  {
    if samples == [] then s else Apply(Run(s, samples[..|samples| - 1]), samples[|samples| - 1])
  }

  /** Congested or unhealthy. */
  predicate Bad(s: Controller, e: Sample) {
    match e
    case Net(loss, rtt, _) => s.primed && Congested(s, loss, rtt)
    case Stream(fps, encodeMs, dropped, _) => Unhealthy(fps, encodeMs, dropped)
  }

  ghost predicate Clocked(samples: seq<Sample>) {
    forall i, j :: 0 <= i < j < |samples| ==> samples[i].now <= samples[j].now
  }

  predicate Inv(s: Controller) {
    && 0.0 < s.scale <= 1.0 && 0.0 <= s.ewmaLoss <= 100.0 && 0.0 <= s.ewmaRtt
    && (!s.primed ==> s.ewmaLoss == 0.0)
  }

  lemma Shrinks(x: real, p: real)
    requires 0.0 < x <= 1.0 && 0.0 < p <= 1.0
    ensures 0.0 < x * p <= x
  {
    assert x * p <= x * 1.0;
  }

  lemma PenalisedShrinks(scale: real, ewmaLoss: real, spike: bool)
    requires 0.0 < scale <= 1.0 && 0.0 <= ewmaLoss <= 100.0
    ensures 0.0 < Penalised(scale, ewmaLoss, spike) <= scale
  {
    Shrinks(scale, LossPenalty(ewmaLoss));
    Shrinks(scale * LossPenalty(ewmaLoss), RttPenalty(spike));
  }

  lemma NetworkKeepsInv(s: Controller, loss: real, rtt: real, now: int)
    requires Inv(s)
    ensures Inv(Network(s, loss, rtt, now)) && Network(s, loss, rtt, now).scale <= s.scale
  {
    hide Penalised;
    PenalisedShrinks(s.scale, Averaged(Between(loss, 0.0, 100.0), s.ewmaLoss), Spike(s, Greatest(rtt, 0.0)));
  }

  lemma HealthKeepsInv(s: Controller, fps: real, encodeMs: real, dropped: real, now: int)
    requires Inv(s)
    ensures var n := Health(s, fps, encodeMs, dropped, now);
      && Inv(n)
      && (n.scale > s.scale ==> s.inRecovery && now - s.recoveryStart >= TIMEOUT)
      && (Unhealthy(fps, encodeMs, dropped) ==> n.scale < s.scale)
  {
  }

  lemma ApplyKeepsInv(s: Controller, e: Sample)
    requires Inv(s)
    ensures Inv(Apply(s, e))
    ensures Apply(s, e).scale > s.scale ==> s.inRecovery && e.now - s.recoveryStart >= TIMEOUT
  {
    match e
    case Net(loss, rtt, now) => NetworkKeepsInv(s, loss, rtt, now);
    case Stream(fps, encodeMs, dropped, now) => HealthKeepsInv(s, fps, encodeMs, dropped, now);
  }

  lemma RunOneMore(s: Controller, samples: seq<Sample>, e: Sample)
    ensures Run(s, samples + [e]) == Apply(Run(s, samples), e)
  {
    assert (samples + [e])[..|samples|] == samples;
  }

  /** Whatever the samples, the scale stays above 0 and at most 1. */
  lemma {:induction false} ScaleStaysInRange(start: int, samples: seq<Sample>)
    ensures Inv(Run(Fresh(start), samples)) && 0.0 < Run(Fresh(start), samples).scale <= 1.0
    decreases |samples|
  {
    if samples != [] {
      ScaleStaysInRange(start, samples[..|samples| - 1]);
      ApplyKeepsInv(Run(Fresh(start), samples[..|samples| - 1]), samples[|samples| - 1]);
    }
  }

  /** After a bad sample at time `bad` a recovery can only start later. */
  lemma {:induction false} RecoveryStartsAfterBad(s: Controller, samples: seq<Sample>, i: nat, j: nat)
    requires Clocked(samples) && i < j <= |samples| && Bad(Run(s, samples[..i]), samples[i])
    ensures var n := Run(s, samples[..j]); n.inRecovery ==> n.recoveryStart >= samples[i].now
    decreases j
  {
    assert samples[..j] == samples[..j - 1] + [samples[j - 1]];
    RunOneMore(s, samples[..j - 1], samples[j - 1]);
    if j > i + 1 {
      RecoveryStartsAfterBad(s, samples, i, j - 1);
    }
  }

  /** No sample within ten seconds of a bad one raises the scale. */
  lemma NeverRisesSoonAfterBad(start: int, samples: seq<Sample>, i: nat, j: nat)
    requires Clocked(samples) && i <= j < |samples|
    requires Bad(Run(Fresh(start), samples[..i]), samples[i])
    requires samples[j].now - samples[i].now < TIMEOUT
    ensures Run(Fresh(start), samples[..j + 1]).scale <= Run(Fresh(start), samples[..j]).scale
  {
    assert samples[..j + 1] == samples[..j] + [samples[j]];
    RunOneMore(Fresh(start), samples[..j], samples[j]);
    ScaleStaysInRange(start, samples[..j]);
    ApplyKeepsInv(Run(Fresh(start), samples[..j]), samples[j]);
    if i < j {
      RecoveryStartsAfterBad(Fresh(start), samples, i, j);
    } else {
      var s := Run(Fresh(start), samples[..j]);
      if samples[j].Net? {
        NetworkKeepsInv(s, samples[j].loss, samples[j].rtt, samples[j].now);
      } else {
        HealthKeepsInv(s, samples[j].fps, samples[j].encodeMs, samples[j].dropped, samples[j].now);
      }
    }
  }

  // ---------------------------------------------------------------------------------------------------
  // Recovery
  // ---------------------------------------------------------------------------------------------------

  /** The health samples among `samples`. */
  function Ticks(samples: seq<Sample>): nat
    decreases |samples|
  {
    if samples == [] then 0
    else Ticks(samples[..|samples| - 1]) + if samples[|samples| - 1].Stream? then 1 else 0
  }

  /** No sample is bad when it arrives, and every one comes after the timer has run out. */
  ghost predicate Calm(s: Controller, samples: seq<Sample>) {
    forall i :: 0 <= i < |samples| ==>
      !Bad(Run(s, samples[..i]), samples[i]) && samples[i].now - s.recoveryStart >= TIMEOUT
  }

  lemma OneMoreTick(scale: real, n: nat)
    ensures Least(Least(scale + RECOVERY_STEP * n as real, 1.0) + RECOVERY_STEP, 1.0)
         == Least(scale + RECOVERY_STEP * (n + 1) as real, 1.0)
  {
    assert (n + 1) as real == n as real + 1.0;
  }

  lemma {:induction false} RecoveryIsLinear(s: Controller, samples: seq<Sample>)
    requires Inv(s) && s.inRecovery && Calm(s, samples)
    ensures var n := Run(s, samples);
      && n.inRecovery && n.recoveryStart == s.recoveryStart
      && n.scale == Least(s.scale + RECOVERY_STEP * Ticks(samples) as real, 1.0)
    decreases |samples|
  {
    if samples != [] {
      var n := |samples| - 1;
      var before := samples[..n];
      forall i | 0 <= i < n
        ensures !Bad(Run(s, before[..i]), before[i]) && before[i].now - s.recoveryStart >= TIMEOUT
      {
        assert before[..i] == samples[..i];
      }
      RecoveryIsLinear(s, before);
      assert !Bad(Run(s, samples[..n]), samples[n]);
      OneMoreTick(s.scale, Ticks(before));
      assert Run(s, samples) == Apply(Run(s, before), samples[n]);
      assert Ticks(samples) == Ticks(before) + if samples[n].Stream? then 1 else 0;
      hide Run, Ticks, Calm, Least, Averaged;
    }
  }

  lemma EnoughTicks(n: nat)
    requires n >= 250
    ensures RECOVERY_STEP * n as real >= 1.0
  {
    assert n as real >= 250.0;
  }

  /** Once the timer has run out, calm samples restore the full scale exactly when there are enough ticks: 250 are. */
  lemma RestoredIff(s: Controller, samples: seq<Sample>)
    requires Inv(s) && s.inRecovery && Calm(s, samples)
    ensures Run(s, samples).scale == 1.0 <==> s.scale + RECOVERY_STEP * Ticks(samples) as real >= 1.0
    ensures Ticks(samples) >= 250 ==> Run(s, samples).scale == 1.0
  {
    hide Run, Ticks, Calm;
    RecoveryIsLinear(s, samples);
    if Ticks(samples) >= 250 {
      EnoughTicks(Ticks(samples));
    }
  }

  /**
   A controller that is not recovering starts to with its first sample that is not bad, if that is a health sample or it
   is primed; from ten seconds later on calm samples add the step.
   */
  lemma RecoversTenSecondsLater(s: Controller, first: Sample, samples: seq<Sample>)
    requires Inv(s) && !s.inRecovery && !Bad(s, first) && (first.Net? ==> s.primed)
    requires var armed := Apply(s, first);
      forall i :: 0 <= i < |samples| ==>
        !Bad(Run(armed, samples[..i]), samples[i]) && samples[i].now >= first.now + 10_000_000_000
    ensures Apply(s, first).scale == s.scale
    ensures Run(Apply(s, first), samples).scale == Least(s.scale + 0.004 * Ticks(samples) as real, 1.0)
  {
    hide Run, Ticks, Least, Bad, Apply, Inv, Calm;
    FirstArms(s, first);
    var armed := Apply(s, first);
    CalmAfter(armed, first.now, samples);
    RecoveryIsLinear(armed, samples);
    var n := Ticks(samples);
    StepIs(n);
    assert Run(armed, samples).scale == Least(s.scale + RECOVERY_STEP * n as real, 1.0);
  }

  lemma CalmAfter(armed: Controller, at: int, samples: seq<Sample>)
    requires armed.recoveryStart == at
    requires forall i :: 0 <= i < |samples| ==>
      !Bad(Run(armed, samples[..i]), samples[i]) && samples[i].now >= at + 10_000_000_000
    ensures Calm(armed, samples)
  {
    hide Run, Bad;
  }

  lemma StepIs(n: nat)
    ensures RECOVERY_STEP * n as real == 0.004 * n as real
  {
  }

  lemma FirstArms(s: Controller, first: Sample)
    requires Inv(s) && !s.inRecovery && !Bad(s, first) && (first.Net? ==> s.primed)
    ensures var n := Apply(s, first); Inv(n) && n.inRecovery && n.recoveryStart == first.now && n.scale == s.scale
  {
    ApplyKeepsInv(s, first);
    hide Averaged, Penalised;
  }

  /** While the timer runs, a sample that is not bad leaves the scale and the timer as they are. */
  lemma NothingBeforeTheTimer(s: Controller, e: Sample)
    requires s.inRecovery && !Bad(s, e) && e.now < s.recoveryStart + 10_000_000_000
    ensures var n := Apply(s, e);
      n.scale == s.scale && n.inRecovery && n.recoveryStart == s.recoveryStart
  {
  }

  // ---------------------------------------------------------------------------------------------------
  // What counts as congestion
  // ---------------------------------------------------------------------------------------------------

  /** Against the average that already holds the sample, "twice" means three and a half times the average before. */
  lemma SpikeIff(s: Controller, rtt: real)
    ensures Spike(s, rtt) <==> rtt > 3.5 * s.ewmaRtt
  {
    assert 2.0 * Averaged(rtt, s.ewmaRtt) == 0.6 * rtt + 1.4 * s.ewmaRtt;
  }

  /** The first network sample only sets the averages, that of the round-trip time to at least 5 ms. */
  lemma FirstSampleOnlyPrimes(s: Controller, loss: real, rtt: real, now: int)
    requires !s.primed
    ensures var n := Network(s, loss, rtt, now);
      && n.primed && n.scale == s.scale && n.inRecovery == s.inRecovery && n.recoveryStart == s.recoveryStart
      && (loss < 0.0 ==> n.ewmaLoss == 0.0) && (0.0 <= loss <= 100.0 ==> n.ewmaLoss == loss)
      && (loss > 100.0 ==> n.ewmaLoss == 100.0)
      && (rtt >= 5.0 ==> n.ewmaRtt == rtt) && (rtt < 5.0 ==> n.ewmaRtt == 5.0)
  {
  }

  /**
   A network sample moves the average loss three tenths of the way to it, the sample taken between 0 and 100. The scale
   goes down exactly if the round-trip time is more than 3.5 times its average or the new average loss is above 1 %: by
   three tenths for the one; for the other by half above 5 %, and below by as many percent as are lost.
   */
  lemma NetworkPenalty(s: Controller, loss: real, rtt: real, now: int)
    requires Inv(s) && s.primed
    ensures var n := Network(s, loss, rtt, now);
      var spikes := 2.0 * rtt > 7.0 * s.ewmaRtt && rtt > 0.0;
      && (0.0 <= loss <= 100.0 ==> 10.0 * (n.ewmaLoss - s.ewmaLoss) == 3.0 * (loss - s.ewmaLoss))
      && (0.0 <= rtt ==> 10.0 * (n.ewmaRtt - s.ewmaRtt) == 3.0 * (rtt - s.ewmaRtt))
      && (n.scale < s.scale <==> spikes || n.ewmaLoss > 1.0)
      && (n.ewmaLoss <= 1.0 && spikes ==> 10.0 * n.scale == 7.0 * s.scale)
      && (n.ewmaLoss > 5.0 ==> if spikes then 20.0 * n.scale == 7.0 * s.scale else 2.0 * n.scale == s.scale)
      && (1.0 < n.ewmaLoss <= 5.0 && !spikes ==> 100.0 * (s.scale - n.scale) == n.ewmaLoss * s.scale)
      && (1.0 < n.ewmaLoss <= 5.0 && spikes ==> n.scale <= 0.7 * s.scale)
      && (spikes || n.ewmaLoss > 0.0 ==> !n.inRecovery)
  {
    SpikeIff(s, Greatest(rtt, 0.0));
    var average := Averaged(Between(loss, 0.0, 100.0), s.ewmaLoss);
    assert 0.0 <= average <= 100.0;
    PenaltyOf(s.scale, average, Spike(s, Greatest(rtt, 0.0)));
    hide Penalised;
  }

  /** What the loss alone amounts to. */
  lemma LossyScale(scale: real, average: real)
    requires 0.0 < scale <= 1.0 && 0.0 <= average <= 100.0
    ensures var lossy := scale * LossPenalty(average);
      && 0.0 < lossy <= scale && (lossy < scale <==> average > 1.0)
      && (average <= 1.0 ==> lossy == scale)
      && (average > 5.0 ==> lossy == 0.5 * scale)
      && (1.0 < average <= 5.0 ==> 100.0 * (scale - lossy) == average * scale)
  {
    if 1.0 < average <= 5.0 {
      var part := average * scale;
      assert part > 0.0;
      assert scale * (average / 100.0) == part / 100.0;
      assert scale * (1.0 - average / 100.0) == scale - scale * (average / 100.0);
      Shrinks(scale, 1.0 - average / 100.0);
    }
  }

  lemma LossyThenSpike(scale: real, average: real, spike: bool)
    requires 0.0 < scale * LossPenalty(average) <= scale <= 1.0
    ensures Penalised(scale, average, spike)
         == (if spike then 0.7 else 1.0) * (scale * LossPenalty(average))
  {
    hide LossPenalty;
    var lossy := scale * LossPenalty(average);
    assert RttPenalty(spike) == if spike then 0.7 else 1.0;
  }

  /** What a penalty amounts to. */
  lemma PenaltyOf(scale: real, average: real, spike: bool)
    requires 0.0 < scale <= 1.0 && 0.0 <= average <= 100.0
    ensures var n := Penalised(scale, average, spike);
      && (n < scale <==> spike || average > 1.0) && n <= scale
      && (average <= 1.0 ==> n == if spike then 0.7 * scale else scale)
      && (average > 5.0 ==> n == if spike then 0.35 * scale else 0.5 * scale)
      && (1.0 < average <= 5.0 && !spike ==> 100.0 * (scale - n) == average * scale)
      && (1.0 < average <= 5.0 && spike ==> n <= 0.7 * scale)
  {
    hide Penalised, LossPenalty;
    LossyScale(scale, average);
    LossyThenSpike(scale, average, spike);
    SpikeOn(scale, scale * LossPenalty(average), average, average * scale, spike);
  }

  lemma SpikeOn(scale: real, lossy: real, average: real, part: real, spike: bool)
    requires 0.0 < lossy <= scale <= 1.0 && (lossy < scale <==> average > 1.0)
    requires average <= 1.0 ==> lossy == scale
    requires average > 5.0 ==> lossy == 0.5 * scale
    requires 1.0 < average <= 5.0 ==> 100.0 * (scale - lossy) == part
    ensures var n := (if spike then 0.7 else 1.0) * lossy;
      && (n < scale <==> spike || average > 1.0) && n <= scale
      && (average <= 1.0 ==> n == if spike then 0.7 * scale else scale)
      && (average > 5.0 ==> n == if spike then 0.35 * scale else 0.5 * scale)
      && (1.0 < average <= 5.0 && !spike ==> 100.0 * (scale - n) == part)
      && (1.0 < average <= 5.0 && spike ==> n <= 0.7 * scale)
  {
    if spike {
      assert 0.7 * lossy <= 0.7 * scale;
    }
  }

  /**
   A health sample lowers the scale exactly if encoding takes more than 11 ms, the frame rate falls below 88 % or more
   than 5 % of the frames are dropped: by 12 % for each of the first two and by a tenth for the last, one on the other.
   */
  lemma HealthPenalty(s: Controller, fps: real, encodeMs: real, dropped: real, now: int)
    requires Inv(s)
    ensures var n := Health(s, fps, encodeMs, dropped, now);
      && (n.scale < s.scale <==> encodeMs > 11.0 || fps < 0.88 || dropped > 0.05)
      && (n.scale < s.scale ==> !n.inRecovery)
      && (encodeMs > 11.0 ==> n.scale <= 0.88 * s.scale)
      && (fps < 0.88 ==> n.scale <= 0.88 * s.scale)
      && (dropped > 0.05 ==> n.scale <= 0.9 * s.scale)
      && (encodeMs > 11.0 && fps < 0.88 && dropped > 0.05 ==> n.scale == 0.69696 * s.scale)
      && n.ewmaLoss == s.ewmaLoss && n.ewmaRtt == s.ewmaRtt
  {
  }

  predicate Loses(e: Sample) {
    e.Net? && e.loss > 0.0
  }

  /** The average of the loss is positive exactly if some sample so far has reported a loss. */
  lemma {:induction false} LossIsRememberedIff(start: int, samples: seq<Sample>)
    ensures Run(Fresh(start), samples).ewmaLoss > 0.0 <==> exists i :: 0 <= i < |samples| && Loses(samples[i])
    decreases |samples|
  {
    if samples != [] {
      var n := |samples| - 1;
      var before, e := samples[..n], samples[n];
      LossIsRememberedIff(start, before);
      ScaleStaysInRange(start, before);
      var s := Run(Fresh(start), before);
      assert Run(Fresh(start), samples) == Apply(s, e);
      LossAdds(s, e);
      if exists i :: 0 <= i < n && Loses(before[i]) {
        var i :| 0 <= i < n && Loses(before[i]);
        assert Loses(samples[i]);
      }
      if exists i :: 0 <= i < |samples| && Loses(samples[i]) {
        var i :| 0 <= i < |samples| && Loses(samples[i]);
        assert i < n ==> before[i] == samples[i];
      }
    }
  }

  lemma LossAdds(s: Controller, e: Sample)
    requires Inv(s)
    ensures Apply(s, e).ewmaLoss > 0.0 <==> s.ewmaLoss > 0.0 || Loses(e)
  {
  }

  /** One loss, however long ago, makes every later network sample count as congestion. */
  lemma OneLossCongestsForever(start: int, samples: seq<Sample>, i: nat, j: nat)
    requires i < j < |samples| && Loses(samples[i]) && samples[j].Net?
    ensures Bad(Run(Fresh(start), samples[..j]), samples[j])
  {
    var before := samples[..j];
    assert before[i] == samples[i];
    LossIsRememberedIff(start, before);
    ScaleStaysInRange(start, before);
  }

  /**
   So after one loss no sample within ten seconds of any later network sample raises the scale: as long as network
   samples come more often than that, it never recovers.
   */
  lemma OneLossEndsRecovery(start: int, samples: seq<Sample>, i: nat, j: nat, k: nat)
    requires Clocked(samples) && i < j <= k < |samples| && Loses(samples[i]) && samples[j].Net?
    requires samples[k].now - samples[j].now < TIMEOUT
    ensures Run(Fresh(start), samples[..k + 1]).scale <= Run(Fresh(start), samples[..k]).scale
  {
    OneLossCongestsForever(start, samples, i, j);
    NeverRisesSoonAfterBad(start, samples, j, k);
  }

  // ---------------------------------------------------------------------------------------------------
  // The bitrate
  // ---------------------------------------------------------------------------------------------------

  /** The conversion to an integer drops the fraction of a positive number. */
  function Scaled(base: int, scale: real): int {
    (base as real * scale).Floor
  }

  function Target(c: Config, scale: real, base: int): int {
    if !c.enabled then
      if base < c.minBitrate then c.minBitrate else if c.maxBitrate < base then c.maxBitrate else base
    else if base <= 0 then c.minBitrate
    else
      var scaled := Scaled(base, scale);
      var a := if base < scaled then base else scaled;
      var b := if c.maxBitrate < a then c.maxBitrate else a;
      var r := if b < c.minBitrate then c.minBitrate else b;
      if r <= 0 then c.minBitrate else r
  }

  /** The bitrate is within its bounds and, unless the floor forbids it, no more than was asked for. */
  lemma TargetWithinBounds(c: Config, scale: real, base: int)
    requires 0 < c.minBitrate <= c.maxBitrate && 0.0 < scale <= 1.0
    ensures c.minBitrate <= Target(c, scale, base) <= c.maxBitrate
    ensures Target(c, scale, base) <= base || Target(c, scale, base) == c.minBitrate
    ensures c.enabled && c.minBitrate <= base <= c.maxBitrate && scale == 1.0 ==> Target(c, scale, base) == base
  {
  }

  /**
   Between the bounds the bitrate is the scaled request, less than 1 below it; beyond them it is the bound. Without the
   controller the request itself is kept between the bounds.
   */
  lemma TargetIsTheScaledRequest(c: Config, scale: real, base: int)
    requires 0 < c.minBitrate <= c.maxBitrate && 0.0 < scale <= 1.0
    ensures var r, wanted := Target(c, scale, base), if c.enabled then base as real * scale else base as real;
      && (wanted <= c.minBitrate as real ==> r == c.minBitrate)
      && (wanted >= c.maxBitrate as real ==> r == c.maxBitrate)
      && (c.minBitrate as real <= wanted <= c.maxBitrate as real ==> wanted - 1.0 < r as real <= wanted)
  {
    var product := base as real * scale;
    if base > 0 {
      Products(base as real, base as real, scale, 1.0);
      assert product <= base as real;
    } else {
      Products(0.0, -base as real, scale, scale);
      assert product <= 0.0;
    }
    ScaledIsBelow(base, scale);
    hide Scaled;
  }

  lemma ScaledIsBelow(base: int, scale: real)
    ensures base as real * scale - 1.0 < Scaled(base, scale) as real <= base as real * scale
  {
  }

  /** A larger scale or request never gives a smaller bitrate. */
  lemma TargetIsMonotone(c: Config, s: real, t: real, base: int, more: int)
    requires 0 < c.minBitrate <= c.maxBitrate && 0.0 < s <= t <= 1.0 && base <= more
    ensures Target(c, s, base) <= Target(c, t, more)
  {
    if base > 0 {
      ScaledIsMonotone(base, more, s, t);
      hide Scaled;
    }
  }

  lemma Products(a: real, b: real, x: real, y: real)
    requires 0.0 <= a <= b && 0.0 <= x <= y
    ensures 0.0 <= a * x <= b * y
  {
    assert a * x <= a * y;
    assert a * y <= b * y;
  }

  lemma ScaledIsMonotone(base: int, more: int, s: real, t: real)
    requires 0 < base <= more && 0.0 < s <= t
    ensures 0 <= Scaled(base, s) <= Scaled(more, t)
  {
    Products(base as real, more as real, s, t);
    var x, y := base as real * s, more as real * t;
    assert 0.0 <= x <= y;
  }

  // ---------------------------------------------------------------------------------------------------
  // The object the sessions update
  // ---------------------------------------------------------------------------------------------------

  class BitrateController {
    const cfg: Config
    var ewmaLoss: real
    var ewmaRtt: real
    var scale: real
    var primed: bool
    var inRecovery: bool
    var recoveryStart: int

    function View(): Controller
      reads this
    {
      Controller(ewmaLoss, ewmaRtt, scale, primed, inRecovery, recoveryStart)
    }

    constructor (cfg: Config)
      ensures View() == Fresh(0) && this.cfg == cfg
    {
      this.cfg := cfg;
      ewmaLoss, ewmaRtt, scale, primed, inRecovery, recoveryStart := 0.0, 0.0, 1.0, false, false, 0;
    }

    /** What congestion does to the scale. */
    method Penalise(rttSpike: bool)
      modifies this`scale, this`inRecovery
      ensures scale == Penalised(old(scale), ewmaLoss, rttSpike) && !inRecovery
    {
      hide Shrunk;
      inRecovery := false;
      var lossPenalty := 1.0;
      if ewmaLoss > 5.0 {
        lossPenalty := 0.5;
      } else if ewmaLoss > 1.0 {
        lossPenalty := 1.0 - ewmaLoss / 100.0;
      }
      var rttPenalty := 1.0;
      if rttSpike {
        rttPenalty := 0.7;
      }
      scale := Shrunk(scale, lossPenalty, rttPenalty);
    }

    method Average(loss: real, rtt: real)
      modifies this`ewmaLoss, this`ewmaRtt
      ensures ewmaLoss == Averaged(loss, old(ewmaLoss)) && ewmaRtt == Averaged(rtt, old(ewmaRtt))
    {
      ewmaLoss := ALPHA * loss + (1.0 - ALPHA) * ewmaLoss;
      ewmaRtt := ALPHA * rtt + (1.0 - ALPHA) * ewmaRtt;
    }

    method UpdateNetworkStats(packetLoss: real, rttMs: real, now: int)
      modifies this
      ensures View() == if cfg.enabled then Network(old(View()), packetLoss, rttMs, now) else old(View())
    {
      hide Averaged, Penalised, Between, Greatest;
      if !cfg.enabled {
        return;
      }
      var loss, rtt := Between(packetLoss, 0.0, 100.0), Greatest(rttMs, 0.0);
      if !primed {
        ewmaLoss := loss;
        ewmaRtt := Greatest(MIN_RTT, rtt);
        primed := true;
        return;
      }
      Average(loss, rtt);
      var rttSpike := rtt > 2.0 * ewmaRtt;
      if rttSpike || ewmaLoss > 0.0 {
        Penalise(rttSpike);
      } else if !inRecovery {
        inRecovery := true;
        recoveryStart := now;
      }
    }

    method UpdateStreamHealth(fpsRatio: real, encodeTimeMs: real, droppedRatio: real, now: int)
      modifies this
      ensures View() ==
        if cfg.enabled then Health(old(View()), fpsRatio, encodeTimeMs, droppedRatio, now) else old(View())
    {
      if !cfg.enabled {
        return;
      }
      var fps, encode := Between(fpsRatio, 0.0, 4.0), Greatest(encodeTimeMs, 0.0);
      var dropped := Between(droppedRatio, 0.0, 1.0);
      var unhealthy := false;
      if encode > 11.0 {
        scale := scale * 0.88;
        unhealthy := true;
      }
      if fps < 0.88 {
        scale := scale * 0.88;
        unhealthy := true;
      }
      if dropped > 0.05 {
        scale := scale * 0.9;
        unhealthy := true;
      }
      if unhealthy {
        inRecovery := false;
        return;
      }
      if !inRecovery {
        inRecovery := true;
        recoveryStart := now;
        return;
      }
      if now - recoveryStart >= TIMEOUT {
        scale := Least(scale + RECOVERY_STEP, 1.0);
      }
    }

    method GetTargetBitrate(base: int) returns (result: int)
      ensures result == Target(cfg, scale, base)
      ensures 0 < cfg.minBitrate <= cfg.maxBitrate && 0.0 < scale <= 1.0 ==>
        cfg.minBitrate <= result <= cfg.maxBitrate && (result <= base || result == cfg.minBitrate)
    {
      if 0 < cfg.minBitrate <= cfg.maxBitrate && 0.0 < scale <= 1.0 {
        TargetWithinBounds(cfg, scale, base);
      }
      hide Scaled;
      if !cfg.enabled {
        return if base < cfg.minBitrate then cfg.minBitrate else if cfg.maxBitrate < base then cfg.maxBitrate else base;
      }
      if base <= 0 {
        return cfg.minBitrate;
      }
      result := Scaled(base, scale);
      if base < result {
        result := base;
      }
      if cfg.maxBitrate < result {
        result := cfg.maxBitrate;
      }
      if result < cfg.minBitrate {
        result := cfg.minBitrate;
      }
      if result <= 0 {
        result := cfg.minBitrate;
      }
    }

    method Reset()
      modifies this
      ensures View() == Fresh(old(recoveryStart))
    {
      ewmaLoss, ewmaRtt, scale, inRecovery, primed := 0.0, 0.0, 1.0, false, false;
    }
  }
}
