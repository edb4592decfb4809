/**
 The lock-free accumulator of latency samples (src/latency_stats.cpp): any number of collectors, each a sequence of
 atomic steps that interleave freely, whose weak compare-exchange may fail for no reason. Doubles are modelled as
 reals with infinities and NaN; sums do not round.
 */
module LatencyStats {
  datatype Double = NaN | NegInf | Fin(v: real) | PosInf

  /** `a < b` on doubles. */
  predicate Less(a: Double, b: Double) {
    match (a, b)
    case (NaN, _) => false
    case (_, NaN) => false
    case (NegInf, _) => b != NegInf
    case (Fin(x), Fin(y)) => x < y
    case (Fin(_), PosInf) => true
    case _ => false
  }

  const CAP := 60000.0

  /** The sample that is recorded: what is not a finite, non-negative number counts as 0, and 60 s is the most. */
  function Clamp(value: Double): (r: real)
    ensures 0.0 <= r <= CAP
    ensures value.Fin? && 0.0 <= value.v <= CAP ==> r == value.v
  {
    match value
    case Fin(v) => if v < 0.0 then 0.0 else if v > CAP then CAP else v
    case _ => 0.0
  }

  const WRAP := 0x1_0000_0000

  /** The four atomic fields; `samples` is an unsigned 32-bit counter. */
  datatype Acc = Acc(samples: nat, total: real, min: Double, max: Double)

  const EMPTY := Acc(0, 0.0, PosInf, NegInf)

  // ---------------------------------------------------------------------------------------------------
  // Collectors, step by step
  // ---------------------------------------------------------------------------------------------------

  /** Where a collector is; in the two loops it holds the value it last loaded. */
  datatype Pc = Begin | Counted | Summed | Lowering(cur: Double) | Lowered | Raising(cur: Double) | Done

  datatype Collector = Collector(value: Double, pc: Pc)

  datatype System = System(acc: Acc, collectors: seq<Collector>)

  /** Collector `who` takes its next atomic step; `spurious` makes a compare-exchange fail for no reason. */
  datatype Event = Event(who: nat, spurious: bool)

  function StepOf(a: Acc, c: Collector, spurious: bool): (Acc, Pc) {
    var v := Clamp(c.value);
    match c.pc
    case Begin => (a.(samples := (a.samples + 1) % WRAP), Counted)
    case Counted => (a.(total := a.total + v), Summed)
    case Summed => (a, Lowering(a.min))
    case Lowering(cur) =>
      if !Less(Fin(v), cur) then (a, Lowered)
      else if cur == a.min && !spurious then (a.(min := Fin(v)), Lowered)
      else (a, Lowering(a.min))
    case Lowered => (a, Raising(a.max))
    case Raising(cur) =>
      if !Less(cur, Fin(v)) then (a, Done)
      else if cur == a.max && !spurious then (a.(max := Fin(v)), Done)
      else (a, Raising(a.max))
    case Done => (a, Done)
  }

  function Next(s: System, e: Event): System {
    if e.who >= |s.collectors| then s
    else
      var (a, pc) := StepOf(s.acc, s.collectors[e.who], e.spurious);
      System(a, s.collectors[e.who := s.collectors[e.who].(pc := pc)])
  }

  function Run(s: System, events: seq<Event>): System
    decreases |events|
  {
    if events == [] then s else Run(Next(s, events[0]), events[1..])
  }

  function Started(values: seq<Double>): System {
    System(EMPTY, seq(|values|, i requires 0 <= i < |values| => Collector(values[i], Begin)))
  }

  predicate AllDone(s: System) {
    forall i :: 0 <= i < |s.collectors| ==> s.collectors[i].pc == Done
  }

  // ---------------------------------------------------------------------------------------------------
  // One after the other
  // ---------------------------------------------------------------------------------------------------

  function Collected(a: Acc, value: Double): Acc {
    var v := Clamp(value);
    Acc((a.samples + 1) % WRAP, a.total + v,
        if Less(Fin(v), a.min) then Fin(v) else a.min, if Less(a.max, Fin(v)) then Fin(v) else a.max)
  }

  function Sequentially(values: seq<Double>): Acc
    decreases |values|
  {
    if values == [] then EMPTY else Collected(Sequentially(values[..|values| - 1]), values[|values| - 1])
  }

  // ---------------------------------------------------------------------------------------------------
  // What every interleaving keeps
  // ---------------------------------------------------------------------------------------------------

  predicate HasCounted(c: Collector) {
    c.pc != Begin
  }

  predicate HasSummed(c: Collector) {
    c.pc != Begin && c.pc != Counted
  }

  predicate HasLowered(c: Collector) {
    c.pc.Lowered? || c.pc.Raising? || c.pc.Done?
  }

  predicate HasRaised(c: Collector) {
    c.pc.Done?
  }

  function CountOf(cs: seq<Collector>): nat
    decreases |cs|
  {
    if cs == [] then 0 else CountOf(cs[..|cs| - 1]) + if HasCounted(cs[|cs| - 1]) then 1 else 0
  }

  function SumOf(cs: seq<Collector>): real
    decreases |cs|
  {
    if cs == [] then 0.0
    else SumOf(cs[..|cs| - 1]) + if HasSummed(cs[|cs| - 1]) then Clamp(cs[|cs| - 1].value) else 0.0
  }

  /** The least sample of the collectors that have left their first loop; +infinity if there is none. */
  ghost predicate IsLeast(m: Double, cs: seq<Collector>) {
    && (forall i :: 0 <= i < |cs| && HasLowered(cs[i]) ==> !Less(Fin(Clamp(cs[i].value)), m))
    && (m == PosInf || exists i :: 0 <= i < |cs| && HasLowered(cs[i]) && m == Fin(Clamp(cs[i].value)))
  }

  /** The greatest sample of the collectors that are done; -infinity if there is none. */
  ghost predicate IsGreatest(m: Double, cs: seq<Collector>) {
    && (forall i :: 0 <= i < |cs| && HasRaised(cs[i]) ==> !Less(m, Fin(Clamp(cs[i].value))))
    && (m == NegInf || exists i :: 0 <= i < |cs| && HasRaised(cs[i]) && m == Fin(Clamp(cs[i].value)))
  }

  /** A value loaded in a loop can only have been overtaken. */
  ghost predicate Behind(a: Acc, cs: seq<Collector>) {
    forall i :: 0 <= i < |cs| ==>
      (cs[i].pc.Lowering? ==> !Less(cs[i].pc.cur, a.min) && cs[i].pc.cur != NaN && cs[i].pc.cur != NegInf) &&
      (cs[i].pc.Raising? ==> !Less(a.max, cs[i].pc.cur) && cs[i].pc.cur != NaN && cs[i].pc.cur != PosInf)
  }

  ghost predicate Inv(s: System) {
    && s.acc.samples == CountOf(s.collectors) % WRAP
    && s.acc.total == SumOf(s.collectors)
    && IsLeast(s.acc.min, s.collectors)
    && IsGreatest(s.acc.max, s.collectors)
    && Behind(s.acc, s.collectors)
  }

  lemma {:induction false} OneChanges(cs: seq<Collector>, i: nat, pc: Pc)
    requires i < |cs|
    ensures var c := cs[i].(pc := pc);
      var ds := cs[i := c];
      && CountOf(ds) == CountOf(cs) + (if HasCounted(c) then 1 else 0) - (if HasCounted(cs[i]) then 1 else 0)
      && SumOf(ds) == SumOf(cs) + (if HasSummed(c) then Clamp(c.value) else 0.0)
                                - (if HasSummed(cs[i]) then Clamp(c.value) else 0.0)
    decreases |cs|
  {
    var n := |cs| - 1;
    var ds := cs[i := cs[i].(pc := pc)];
    if i < n {
      OneChanges(cs[..n], i, pc);
      assert ds[..n] == cs[..n][i := cs[i].(pc := pc)];
    } else {
      assert ds[..n] == cs[..n];
    }
  }

  lemma LeastKept(s: System, e: Event)
    requires Inv(s) && e.who < |s.collectors|
    ensures IsLeast(Next(s, e).acc.min, Next(s, e).collectors)
  {
    hide CountOf, SumOf, IsGreatest, Clamp;
    var n := Next(s, e);
    var c := s.collectors[e.who];
    var v := Fin(Clamp(c.value));
    forall i | 0 <= i < |n.collectors| && HasLowered(n.collectors[i])
      ensures !Less(Fin(Clamp(n.collectors[i].value)), n.acc.min)
    {
      if i != e.who {
        assert n.collectors[i] == s.collectors[i];
      }
    }
    if n.acc.min != PosInf && n.acc.min == s.acc.min {
      var i :| 0 <= i < |s.collectors| && HasLowered(s.collectors[i]) &&
               s.acc.min == Fin(Clamp(s.collectors[i].value));
      assert HasLowered(n.collectors[i]) && n.collectors[i].value == s.collectors[i].value;
    } else if n.acc.min != s.acc.min {
      assert HasLowered(n.collectors[e.who]) && n.acc.min == v;
    }
  }

  lemma GreatestKept(s: System, e: Event)
    requires Inv(s) && e.who < |s.collectors|
    ensures IsGreatest(Next(s, e).acc.max, Next(s, e).collectors)
  {
    hide CountOf, SumOf, IsLeast, Clamp;
    var n := Next(s, e);
    var c := s.collectors[e.who];
    var v := Fin(Clamp(c.value));
    forall i | 0 <= i < |n.collectors| && HasRaised(n.collectors[i])
      ensures !Less(n.acc.max, Fin(Clamp(n.collectors[i].value)))
    {
      if i != e.who {
        assert n.collectors[i] == s.collectors[i];
      }
    }
    if n.acc.max != NegInf && n.acc.max == s.acc.max {
      var i :| 0 <= i < |s.collectors| && HasRaised(s.collectors[i]) &&
               s.acc.max == Fin(Clamp(s.collectors[i].value));
      assert HasRaised(n.collectors[i]) && n.collectors[i].value == s.collectors[i].value;
    } else if n.acc.max != s.acc.max {
      assert HasRaised(n.collectors[e.who]) && n.acc.max == v;
    }
  }

  lemma BehindKept(s: System, e: Event)
    requires Inv(s) && e.who < |s.collectors|
    ensures Behind(Next(s, e).acc, Next(s, e).collectors)
  {
    hide CountOf, SumOf, Clamp;
    var n := Next(s, e);
    forall i | 0 <= i < |n.collectors|
      ensures n.collectors[i].pc.Lowering? ==>
                !Less(n.collectors[i].pc.cur, n.acc.min) && n.collectors[i].pc.cur != NaN &&
                n.collectors[i].pc.cur != NegInf
      ensures n.collectors[i].pc.Raising? ==>
                !Less(n.acc.max, n.collectors[i].pc.cur) && n.collectors[i].pc.cur != NaN &&
                n.collectors[i].pc.cur != PosInf
    {
      if i != e.who {
        assert n.collectors[i] == s.collectors[i];
      }
    }
  }

  lemma WrapOneMore(n: nat)
    ensures (n % WRAP + 1) % WRAP == (n + 1) % WRAP
  {
  }

  lemma SumsKept(s: System, e: Event)
    requires Inv(s) && e.who < |s.collectors|
    ensures var n := Next(s, e);
      n.acc.samples == CountOf(n.collectors) % WRAP && n.acc.total == SumOf(n.collectors)
  {
    hide CountOf, SumOf, Clamp, IsLeast, IsGreatest, Behind, Less;
    OneChanges(s.collectors, e.who, StepOf(s.acc, s.collectors[e.who], e.spurious).1);
    WrapOneMore(CountOf(s.collectors));
  }

  lemma NextKeepsInv(s: System, e: Event)
    requires Inv(s)
    ensures Inv(Next(s, e))
  {
    if e.who < |s.collectors| {
      SumsKept(s, e);
      LeastKept(s, e);
      GreatestKept(s, e);
      BehindKept(s, e);
    }
  }

  lemma {:induction false} RunKeepsInv(s: System, events: seq<Event>)
    requires Inv(s)
    ensures Inv(Run(s, events))
    ensures |Run(s, events).collectors| == |s.collectors|
    ensures forall i :: 0 <= i < |s.collectors| ==> Run(s, events).collectors[i].value == s.collectors[i].value
    decreases |events|
  {
    if events != [] {
      NextKeepsInv(s, events[0]);
      RunKeepsInv(Next(s, events[0]), events[1..]);
    }
  }

  lemma {:induction false} NothingCounted(cs: seq<Collector>)
    requires forall i :: 0 <= i < |cs| ==> cs[i].pc == Begin
    ensures CountOf(cs) == 0 && SumOf(cs) == 0.0
    decreases |cs|
  {
    if cs != [] {
      NothingCounted(cs[..|cs| - 1]);
    }
  }

  lemma StartedInv(values: seq<Double>)
    ensures Inv(Started(values))
  {
    NothingCounted(Started(values).collectors);
  }

  // ---------------------------------------------------------------------------------------------------
  // Every interleaving gives what a sequential run gives
  // ---------------------------------------------------------------------------------------------------

  ghost predicate Finished(cs: seq<Collector>, values: seq<Double>) {
    |cs| == |values| && forall i :: 0 <= i < |cs| ==> cs[i] == Collector(values[i], Done)
  }

  lemma FinishedPrefix(cs: seq<Collector>, values: seq<Double>)
    requires Finished(cs, values) && cs != []
    ensures Finished(cs[..|cs| - 1], values[..|cs| - 1])
    ensures cs == cs[..|cs| - 1] + [Collector(values[|cs| - 1], Done)]
  {
  }

  lemma {:induction false} SequentialSums(cs: seq<Collector>, values: seq<Double>)
    requires Finished(cs, values)
    ensures CountOf(cs) == |values|
    ensures Sequentially(values).samples == |values| % WRAP && Sequentially(values).total == SumOf(cs)
    decreases |cs|
  {
    hide Clamp;
    if cs != [] {
      FinishedPrefix(cs, values);
      var n := |cs| - 1;
      SequentialSums(cs[..n], values[..n]);
      assert cs[n] == Collector(values[n], Done);
      hide Less, Finished;
      WrapOneMore(n);
      assert Sequentially(values) == Collected(Sequentially(values[..n]), values[n]);
    }
  }

  /** A sequential run finds the least and the greatest. */
  lemma {:induction false} SequentialExtremes(cs: seq<Collector>, values: seq<Double>)
    requires Finished(cs, values)
    ensures IsLeast(Sequentially(values).min, cs) && IsGreatest(Sequentially(values).max, cs)
    decreases |cs|
  {
    if cs != [] {
      var n := |cs| - 1;
      var c := Collector(values[n], Done);
      FinishedPrefix(cs, values);
      SequentialExtremes(cs[..n], values[..n]);
      LeastExtends(Sequentially(values[..n]).min, cs[..n], c);
      GreatestExtends(Sequentially(values[..n]).max, cs[..n], c);
      hide Less, IsLeast, IsGreatest, Clamp;
    }
  }

  lemma LeastExtends(m: Double, cs: seq<Collector>, c: Collector)
    requires IsLeast(m, cs) && HasLowered(c)
    ensures var v := Fin(Clamp(c.value)); IsLeast(if Less(v, m) then v else m, cs + [c])
  {
    hide Clamp;
    var v, ds := Fin(Clamp(c.value)), cs + [c];
    assert ds[|cs|] == c;
    assert forall i :: 0 <= i < |cs| ==> ds[i] == cs[i];
  }

  lemma GreatestExtends(m: Double, cs: seq<Collector>, c: Collector)
    requires IsGreatest(m, cs) && HasRaised(c)
    ensures var v := Fin(Clamp(c.value)); IsGreatest(if Less(m, v) then v else m, cs + [c])
  {
    hide Clamp;
    var v, ds := Fin(Clamp(c.value)), cs + [c];
    assert ds[|cs|] == c;
    assert forall i :: 0 <= i < |cs| ==> ds[i] == cs[i];
  }

  lemma LeastIsUnique(m: Double, n: Double, cs: seq<Collector>)
    requires IsLeast(m, cs) && IsLeast(n, cs)
    ensures m == n
  {
    hide Clamp;
  }

  lemma GreatestIsUnique(m: Double, n: Double, cs: seq<Collector>)
    requires IsGreatest(m, cs) && IsGreatest(n, cs)
    ensures m == n
  {
    hide Clamp;
  }

  /** Once all collectors are done, minimum, maximum, total and count are those of collecting one by one. */
  lemma InterleavingIsInvisible(values: seq<Double>, events: seq<Event>)
    requires AllDone(Run(Started(values), events))
    ensures Run(Started(values), events).acc == Sequentially(values)
  {
    StartedInv(values);
    RunKeepsInv(Started(values), events);
    var s := Run(Started(values), events);
    assert Finished(s.collectors, values);
    SequentialSums(s.collectors, values);
    SequentialExtremes(s.collectors, values);
    LeastIsUnique(s.acc.min, Sequentially(values).min, s.collectors);
    GreatestIsUnique(s.acc.max, Sequentially(values).max, s.collectors);
  }

  /** Steps that are left to a collector that runs alone. */
  function StepsLeft(a: Acc, c: Collector): nat {
    match c.pc
    case Begin => 6
    case Counted => 5
    case Summed => 4
    case Lowering(cur) => if Less(Fin(Clamp(c.value)), cur) && cur != a.min then 4 else 3
    case Lowered => 2
    case Raising(cur) => if Less(cur, Fin(Clamp(c.value))) && cur != a.max then 2 else 1
    case Done => 0
  }

  /** The steps of `who` alone, some of which fail for no reason. */
  function Alone(who: nat, spurious: seq<bool>): seq<Event> {
    seq(|spurious|, i requires 0 <= i < |spurious| => Event(who, spurious[i]))
  }

  function Lucky(spurious: seq<bool>): nat {
    if spurious == [] then 0 else (if spurious[0] then 0 else 1) + Lucky(spurious[1..])
  }

  lemma StepsRunOut(a: Acc, c: Collector, spurious: bool)
    ensures var (b, pc) := StepOf(a, c, spurious);
      var left := StepsLeft(b, c.(pc := pc));
      left <= StepsLeft(a, c) && (!spurious && c.pc != Done ==> left < StepsLeft(a, c))
  {
    hide Clamp;
  }

  /** A collector that the others leave alone is done once enough of its steps have not failed for no reason. */
  lemma {:induction false} AloneItFinishes(s: System, who: nat, spurious: seq<bool>)
    requires who < |s.collectors| && StepsLeft(s.acc, s.collectors[who]) <= Lucky(spurious)
    ensures var t := Run(s, Alone(who, spurious)); who < |t.collectors| && t.collectors[who].pc == Done
    decreases |spurious|
  {
    if spurious != [] {
      var t := Next(s, Event(who, spurious[0]));
      StepsRunOut(s.acc, s.collectors[who], spurious[0]);
      hide StepsLeft, StepOf;
      AloneItFinishes(t, who, spurious[1..]);
      assert Alone(who, spurious)[1..] == Alone(who, spurious[1..]);
    }
  }

  // ---------------------------------------------------------------------------------------------------
  // Snapshots
  // ---------------------------------------------------------------------------------------------------

  datatype Snapshot = Snapshot(min: Double, max: Double, avg: real, samples: nat)

  /** A snapshot reads the four fields one after the other; each may already come from a later state. */
  function SnapshotAcross(counted: Acc, lowest: Acc, highest: Acc, summed: Acc): Snapshot {
    if counted.samples > 0 then
      Snapshot(lowest.min, highest.max, summed.total / counted.samples as real, counted.samples)
    else Snapshot(Fin(0.0), Fin(0.0), 0.0, 0)
  }

  function SnapshotOf(a: Acc): Snapshot {
    SnapshotAcross(a, a, a, a)
  }

  function After(values: seq<Double>, events: seq<Event>, n: nat): System
    requires n <= |events|
  {
    Run(Started(values), events[..n])
  }

  lemma ExtremesOf(values: seq<Double>, events: seq<Event>)
    ensures var s := Run(Started(values), events);
      && (s.acc.min == PosInf <==> forall i :: 0 <= i < |s.collectors| ==> !HasLowered(s.collectors[i]))
      && (s.acc.max == NegInf <==> forall i :: 0 <= i < |s.collectors| ==> !HasRaised(s.collectors[i]))
  {
    StartedInv(values);
    RunKeepsInv(Started(values), events);
    hide CountOf, SumOf, Clamp, Behind;
  }

  /**
   A snapshot whose reads see the fields as they are after `i`, `j`, `k` and `n` events, in whatever order, shows the
   sentinels exactly if samples were counted at the read of the count and no collector had left its first loop at the
   read of the minimum, or was done at the read of the maximum: the count comes before them.
   */
  lemma SentinelLeaksIff(values: seq<Double>, events: seq<Event>, i: nat, j: nat, k: nat, n: nat)
    requires i <= |events| && j <= |events| && k <= |events| && n <= |events|
    ensures var counted, lowest := After(values, events, i), After(values, events, j);
      var highest, summed := After(values, events, k), After(values, events, n);
      var r := SnapshotAcross(counted.acc, lowest.acc, highest.acc, summed.acc);
      && (r.min == PosInf <==>
            counted.acc.samples > 0 && forall c :: c in lowest.collectors ==> !HasLowered(c))
      && (r.max == NegInf <==>
            counted.acc.samples > 0 && forall c :: c in highest.collectors ==> !HasRaised(c))
  {
    ExtremesOf(values, events[..j]);
    ExtremesOf(values, events[..k]);
    hide Run, HasLowered, HasRaised;
  }

  /** One step of one collector is enough to see it. */
  lemma SentinelLeaks()
    ensures SnapshotOf(Run(Started([Fin(2.5)]), [Event(0, false)]).acc).min == PosInf
  {
    var s := Started([Fin(2.5)]);
    assert Run(Next(s, Event(0, false)), []) == Next(s, Event(0, false));
  }

  lemma Blend(lo: real, hi: real, total: real, v: real, n: real, lower: real, higher: real)
    requires 0.0 <= n && lo * n <= total <= hi * n && lower <= lo && lower <= v && hi <= higher && v <= higher
    ensures lower * (n + 1.0) <= total + v <= higher * (n + 1.0)
  {
    assert lower * n <= lo * n;
    assert hi * n <= higher * n;
    assert lower * (n + 1.0) == lower * n + lower;
    assert higher * (n + 1.0) == higher * n + higher;
  }

  /** The extremes are finite, and `n` times the least is at most the total, the total at most `n` times the most. */
  ghost predicate Between(a: Acc, n: real) {
    a.min.Fin? && a.max.Fin? && 0.0 <= a.min.v <= a.max.v <= CAP && a.min.v * n <= a.total <= a.max.v * n
  }

  lemma CollectedBetween(a: Acc, value: Double, n: real)
    requires Between(a, n) && 0.0 <= n
    ensures Between(Collected(a, value), n + 1.0)
  {
    hide Clamp;
    var v := Clamp(value);
    var b := Collected(a, value);
    Blend(a.min.v, a.max.v, a.total, v, n, b.min.v, b.max.v);
  }

  lemma {:induction false} SequentiallyBetween(values: seq<Double>)
    requires values != []
    ensures Between(Sequentially(values), |values| as real)
    decreases |values|
  {
    var n := |values| - 1;
    if n == 0 {
      assert Sequentially(values[..0]) == EMPTY;
    } else {
      SequentiallyBetween(values[..n]);
      CollectedBetween(Sequentially(values[..n]), values[n], n as real);
      assert Sequentially(values) == Collected(Sequentially(values[..n]), values[n]);
      hide Between, Collected, Sequentially;
    }
  }

  lemma SnapshotBetween(a: Acc)
    requires a.samples > 0 && Between(a, a.samples as real)
    ensures var r := SnapshotOf(a); r.min.Fin? && r.max.Fin? && 0.0 <= r.min.v <= r.avg <= r.max.v <= CAP
  {
    Averaged(a.min.v, a.total, a.max.v, a.samples as real);
  }

  lemma SequentialSnapshot(values: seq<Double>)
    requires 0 < |values| < WRAP
    ensures var r := SnapshotOf(Sequentially(values));
      && r.samples == |values| && r.min.Fin? && r.max.Fin?
      && 0.0 <= r.min.v <= r.avg <= r.max.v <= CAP
  {
    hide Sequentially, Between, SnapshotOf, Clamp;
    SequentiallyBetween(values);
    SequentialSums(seq(|values|, i requires 0 <= i < |values| => Collector(values[i], Done)), values);
    SnapshotBetween(Sequentially(values));
    SamplesOf(Sequentially(values));
  }

  lemma SamplesOf(a: Acc)
    ensures SnapshotOf(a).samples == a.samples
  {
  }

  /** With all collectors done and fewer than 2^32 samples, the snapshot counts them and its average is between. */
  lemma SnapshotAtRest(values: seq<Double>, events: seq<Event>)
    requires AllDone(Run(Started(values), events)) && 0 < |values| < WRAP
    ensures var r := SnapshotOf(Run(Started(values), events).acc);
      && r.samples == |values| && r.min.Fin? && r.max.Fin?
      && 0.0 <= r.min.v <= r.avg <= r.max.v <= CAP
  {
    hide Sequentially, Run, AllDone, SnapshotOf;
    InterleavingIsInvisible(values, events);
    SequentialSnapshot(values);
  }

  /** A latency that is recorded as it is: a number of milliseconds up to a minute. */
  predicate Plausible(value: Double) {
    value.Fin? && 0.0 <= value.v <= 60000.0
  }

  ghost predicate AllPlausible(values: seq<Double>) {
    forall i :: 0 <= i < |values| ==> Plausible(values[i])
  }

  function Total(values: seq<Double>): real
    decreases |values|
  {
    if values == [] then 0.0
    else Total(values[..|values| - 1]) + if values[|values| - 1].Fin? then values[|values| - 1].v else 0.0
  }

  /** The total is the sum, and the extremes are values that are there and bound all the others. */
  ghost predicate Describes(a: Acc, values: seq<Double>) {
    && a.total == Total(values) && a.min.Fin? && a.max.Fin?
    && a.min in values && a.max in values
    && forall i :: 0 <= i < |values| ==> values[i].Fin? && a.min.v <= values[i].v <= a.max.v
  }

  lemma OneIsDescribed(value: Double)
    requires Plausible(value)
    ensures Describes(Collected(EMPTY, value), [value])
  {
    hide Total;
    var a := Collected(EMPTY, value);
    assert a.total == value.v && a.min == value && a.max == value;
    TotalOfOne(value);
    assert [value][0] in [value];
  }

  lemma TotalOfOne(value: Double)
    requires value.Fin?
    ensures Total([value]) == value.v
  {
    assert Total([value][..0]) == 0.0;
  }

  lemma OneMoreIsDescribed(a: Acc, values: seq<Double>, value: Double)
    requires Describes(a, values) && Plausible(value)
    ensures Describes(Collected(a, value), values + [value])
  {
    var more := values + [value];
    assert more[..|values|] == values && more[|values|] == value;
    assert forall i :: 0 <= i < |values| ==> more[i] == values[i];
    assert forall x <- values :: x in more;
    assert value in more;
  }

  lemma {:induction false} SequentiallyDescribes(values: seq<Double>)
    requires values != [] && AllPlausible(values)
    ensures Describes(Sequentially(values), values)
    decreases |values|
  {
    hide Describes, Collected, Plausible;
    var n := |values| - 1;
    var before, last := values[..n], values[n];
    assert Sequentially(values) == Collected(Sequentially(before), last);
    assert values == before + [last];
    if n == 0 {
      assert before == [] && values == [last];
      OneIsDescribed(last);
    } else {
      assert forall i :: 0 <= i < n ==> before[i] == values[i];
      SequentiallyDescribes(before);
      OneMoreIsDescribed(Sequentially(before), before, last);
    }
  }

  /**
   Whatever the interleaving, once all collectors are done the snapshot of fewer than 2^32 plausible latencies holds
   their number, their average, and a least and a greatest of them.
   */
  lemma SnapshotDescribesTheValues(values: seq<Double>, events: seq<Event>)
    requires AllDone(Run(Started(values), events)) && 0 < |values| < 0x1_0000_0000 && AllPlausible(values)
    ensures var r := SnapshotOf(Run(Started(values), events).acc);
      && r.samples == |values| && r.avg == Total(values) / |values| as real
      && r.min in values && r.max in values
      && forall i :: 0 <= i < |values| ==>
           values[i].Fin? && r.min.Fin? && r.max.Fin? && r.min.v <= values[i].v <= r.max.v
  {
    hide Sequentially, Run, AllDone, Plausible;
    InterleavingIsInvisible(values, events);
    SnapshotAtRest(values, events);
    SequentiallyDescribes(values);
    SamplesOf(Sequentially(values));
  }

  /** A latency that is negative, infinite or no number is recorded like 0, one of more than a minute like a minute. */
  lemma ImplausibleAreClamped(a: Acc, value: Double)
    ensures value.NaN? || value.NegInf? || value.PosInf? || (value.Fin? && value.v < 0.0) ==>
      Collected(a, value) == Collected(a, Fin(0.0))
    ensures value.Fin? && value.v > 60000.0 ==> Collected(a, value) == Collected(a, Fin(60000.0))
  {
  }

  lemma Averaged(lo: real, total: real, hi: real, n: real)
    requires 0.0 < n && lo * n <= total <= hi * n
    ensures lo <= total / n <= hi
  {
    var avg := total / n;
    assert avg * n == total;
    StrictlyTimes(avg, lo, n);
    StrictlyTimes(hi, avg, n);
  }

  lemma StrictlyTimes(x: real, y: real, n: real)
    requires 0.0 < n
    ensures x < y ==> x * n < y * n
  {
  }

  // ---------------------------------------------------------------------------------------------------
  // The object, used by one thread
  // ---------------------------------------------------------------------------------------------------

  class MetricAccumulator {
    var samples: nat
    var total: real
    var min: Double
    var max: Double

    function View(): Acc
      reads this
    {
      Acc(samples, total, min, max)
    }

    constructor ()
      ensures View() == EMPTY
    {
      samples, total, min, max := 0, 0.0, PosInf, NegInf;
    }

    /** `unlucky` compare-exchanges fail for no reason. */
    method Collect(value: Double, unlucky: nat)
      modifies this
      ensures View() == Collected(old(View()), value)
    {
      var v := match value
        case Fin(x) => if x < 0.0 then 0.0 else x
        case _ => 0.0;
      if v > CAP {
        v := CAP;
      }
      samples := (samples + 1) % WRAP;
      total := total + v;

      var failures := unlucky;
      var curMin := min;
      while Less(Fin(v), curMin)
        invariant curMin == min && View() == old(View()).(samples := samples, total := total)
        invariant samples == (old(samples) + 1) % WRAP && total == old(total) + v
        decreases failures
      {
        if failures > 0 {
          failures := failures - 1;
          curMin := min;
        } else {
          min := Fin(v);
          break;
        }
      }

      var curMax := max;
      while Less(curMax, Fin(v))
        invariant curMax == max && View() == Collected(old(View()), value).(max := old(max))
        decreases failures
      {
        if failures > 0 {
          failures := failures - 1;
          curMax := max;
        } else {
          max := Fin(v);
          break;
        }
      }
    }

    method TakeSnapshot() returns (result: Snapshot)
      ensures result == SnapshotOf(View())
    {
      result := Snapshot(Fin(0.0), Fin(0.0), 0.0, 0);
      var s := samples;
      if s > 0 {
        result := result.(min := min, max := max);
        result := result.(avg := total / s as real, samples := s);
      }
    }

    method Reset()
      modifies this
      ensures View() == EMPTY
    {
      min, max := PosInf, NegInf;
      total, samples := 0.0, 0;
    }
  }
}
