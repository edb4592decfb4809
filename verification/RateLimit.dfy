/**
 The limiter of failed logins (src/confighttp.cpp): a bucket of failures per address, which counts within a window
 of 30 seconds, and expired buckets are pruned on every call. Time is in nanoseconds.
 */
module RateLimit {
  const WINDOW := 30_000_000_000
  const LIMIT := 10

  datatype Bucket = Bucket(start: int, failures: nat)

  type Buckets = map<string, Bucket>

  predicate Expired(b: Bucket, now: int) {
    now - b.start > WINDOW
  }

  function Pruned(m: Buckets, now: int): Buckets {
    map ip | ip in m && !Expired(m[ip], now) :: m[ip]
  }

  /**
   A call: the clock is read first, and once more when the bucket is created. A check answers whether a login may
   be tried; a success forgets the address.
   */
  datatype Call =
    | Check(ip: string, now: int, created: int)
    | Failure(ip: string, now: int, created: int)
    | Success(ip: string)

  /**
   The limiter as written, without its pruning, or with neither pruning nor restarting: there a bucket whose window is
   over is replaced by a new one.
   */
  datatype Mode = Pruning | Keeping | Replacing

  /** `g_login_failures[ip]`, restarted if its window is over. */
  function Touched(m: Buckets, ip: string, now: int, created: int, mode: Mode): Bucket {
    var b := if ip in m then m[ip] else Bucket(created, 0);
    if Expired(b, now) then Bucket(if mode == Replacing then created else now, 0) else b
  }

  predicate Allowed(b: Bucket) {
    b.failures < LIMIT
  }

  /** One call on the buckets. */
  function Step(m: Buckets, c: Call, mode: Mode): Buckets {
    match c
    case Success(ip) => m - {ip}
    case Check(ip, now, created) =>
      var p := if mode == Pruning then Pruned(m, now) else m;
      p[ip := Touched(p, ip, now, created, mode)]
    case Failure(ip, now, created) =>
      var p := if mode == Pruning then Pruned(m, now) else m;
      var b := Touched(p, ip, now, created, mode);
      p[ip := b.(failures := b.failures + 1)]
  }

  function Run(m: Buckets, calls: seq<Call>, mode: Mode): Buckets
    decreases |calls|
  {
    if calls == [] then m else Step(Run(m, calls[..|calls| - 1], mode), calls[|calls| - 1], mode)
  }

  /** What call `n` of a run answers, if it is a check. */
  function Answer(calls: seq<Call>, n: nat, mode: Mode): bool
    requires n < |calls|
  {
    var after := Run(map[], calls[..n + 1], mode);
    calls[n].Check? ==> calls[n].ip in after && Allowed(after[calls[n].ip])
  }

  /** The clock does not run backwards, within a call and from call to call. */
  ghost predicate Clocked(calls: seq<Call>) {
    && (forall i :: 0 <= i < |calls| && !calls[i].Success? ==> calls[i].now <= calls[i].created)
    && (forall i, j :: 0 <= i < j < |calls| && !calls[i].Success? && !calls[j].Success? ==>
          calls[i].created <= calls[j].now)
  }

  // ---------------------------------------------------------------------------------------------------
  // Pruning
  // ---------------------------------------------------------------------------------------------------

  /** Whether no call reads a later time when it creates the bucket. */
  ghost predicate OneReading(calls: seq<Call>) {
    forall i :: 0 <= i < |calls| && !calls[i].Success? ==> calls[i].created == calls[i].now
  }

  /** Whether no call lets the clock advance by more than this between its two readings. */
  ghost predicate AdvancesAtMost(calls: seq<Call>, delta: nat) {
    forall i :: 0 <= i < |calls| && !calls[i].Success? ==> calls[i].created - calls[i].now <= delta
  }

  /** The time of the last call that read the clock. */
  function LastTime(calls: seq<Call>): (t: int)
    decreases |calls|
  {
    if calls == [] then 0
    else if calls[|calls| - 1].Success? then LastTime(calls[..|calls| - 1]) else calls[|calls| - 1].now
  }

  predicate NoClock(calls: seq<Call>) {
    forall i :: 0 <= i < |calls| ==> calls[i].Success?
  }

  lemma {:induction false} LastTimeIsBefore(calls: seq<Call>, c: Call)
    requires Clocked(calls + [c]) && !c.Success?
    ensures NoClock(calls) || LastTime(calls) <= c.now
    decreases |calls|
  {
    if calls != [] {
      var n := |calls| - 1;
      var all := calls + [c];
      assert all[n] == calls[n] && all[n + 1] == c;
      if calls[n].Success? {
        assert forall i :: 0 <= i < n ==> (calls[..n] + [c])[i] == all[i];
        assert (calls[..n] + [c])[n] == all[n + 1];
        LastTimeIsBefore(calls[..n], c);
      }
    }
  }

  /** What is left after pruning is what would be there, less the buckets that are over. */
  ghost predicate PrunedForm(p: Buckets, u: Buckets, now: int) {
    && (forall ip :: ip in p ==> ip in u && p[ip] == u[ip])
    && (forall ip :: ip in u && ip !in p ==> Expired(u[ip], now))
  }

  lemma StepKeepsPrunedForm(p: Buckets, u: Buckets, last: int, c: Call, mode: Mode)
    requires PrunedForm(p, u, last) && (c.Success? || last <= c.now <= c.created) && mode != Pruning
    requires mode == Keeping && !c.Success? ==> c.created == c.now
    ensures PrunedForm(Step(p, c, Pruning), Step(u, c, mode), if c.Success? then last else c.now)
    ensures !c.Success? ==> Step(p, c, Pruning)[c.ip] == Step(u, c, mode)[c.ip]
  {
  }

  lemma {:induction false} NothingWithoutClock(calls: seq<Call>, mode: Mode)
    requires NoClock(calls)
    ensures Run(map[], calls, mode) == map[]
    decreases |calls|
  {
    if calls != [] {
      NothingWithoutClock(calls[..|calls| - 1], mode);
    }
  }

  /** A run and the run without pruning agree up to buckets that are over, and on the bucket touched last. */
  ghost predicate InStep(calls: seq<Call>, mode: Mode) {
    var p, u := Run(map[], calls, Pruning), Run(map[], calls, mode);
    && PrunedForm(p, u, LastTime(calls))
    && (calls != [] && !calls[|calls| - 1].Success? ==>
          var ip := calls[|calls| - 1].ip; ip in p && ip in u && p[ip] == u[ip])
  }

  lemma RunOneMore(calls: seq<Call>, c: Call, mode: Mode)
    ensures Run(map[], calls + [c], mode) == Step(Run(map[], calls, mode), c, mode)
    ensures LastTime(calls + [c]) == if c.Success? then LastTime(calls) else c.now
  {
    assert (calls + [c])[..|calls|] == calls;
  }

  lemma NothingIsPruned(now: int)
    ensures PrunedForm(map[], map[], now)
  {
  }

  lemma StepTouches(m: Buckets, c: Call, mode: Mode)
    requires !c.Success?
    ensures c.ip in Step(m, c, mode)
  {
  }

  lemma InStepOneMore(before: seq<Call>, c: Call, mode: Mode)
    requires InStep(before, mode) && mode != Pruning && Clocked(before + [c])
    requires mode == Keeping && !c.Success? ==> c.created == c.now
    ensures InStep(before + [c], mode)
  {
    hide Run, Step, PrunedForm, LastTime, NoClock;
    var calls := before + [c];
    assert calls[|before|] == c;
    var p, u := Run(map[], before, Pruning), Run(map[], before, mode);
    RunOneMore(before, c, Pruning);
    RunOneMore(before, c, mode);
    var last := LastTime(before);
    if !c.Success? {
      LastTimeIsBefore(before, c);
      if NoClock(before) {
        NothingWithoutClock(before, Pruning);
        NothingWithoutClock(before, mode);
        last := c.now;
        NothingIsPruned(last);
      }
      StepTouches(p, c, Pruning);
      StepTouches(u, c, mode);
    }
    StepKeepsPrunedForm(p, u, last, c, mode);
  }

  lemma {:induction false} RunsInStep(calls: seq<Call>, mode: Mode)
    requires Clocked(calls) && mode != Pruning && (mode == Keeping ==> OneReading(calls))
    ensures InStep(calls, mode)
    decreases |calls|
  {
    if calls != [] {
      var n := |calls| - 1;
      assert calls == calls[..n] + [calls[n]];
      RunsInStep(calls[..n], mode);
      InStepOneMore(calls[..n], calls[n], mode);
    }
  }

  /**
   Every check is answered as if nothing had ever been pruned and buckets that are over were replaced; and as if only
   the pruning were gone, provided the clock does not advance within a call.
   */
  lemma PruningIsInvisible(calls: seq<Call>, n: nat)
    requires Clocked(calls) && n < |calls|
    ensures Answer(calls, n, Pruning) == Answer(calls, n, Replacing)
    ensures OneReading(calls) ==> Answer(calls, n, Pruning) == Answer(calls, n, Keeping)
  {
    RunsInStep(calls[..n + 1], Replacing);
    if OneReading(calls) {
      RunsInStep(calls[..n + 1], Keeping);
    }
  }

  // ---------------------------------------------------------------------------------------------------
  // At most twenty failures in any window
  // ---------------------------------------------------------------------------------------------------

  /**
   What one address has done: when it failed, the last window it was in (its start and its failures), whether its last
   call was a check that let it through, and the latest time its last call can have read.
   */
  datatype Ledger = Ledger(times: seq<int>, seen: bool, start: int, failures: nat, cleared: bool, last: int)

  const BLANK := Ledger([], false, 0, 0, false, 0)

  /** The ledger of address `a` after a run, read off the calls and the buckets they leave. */
  function LedgerOf(calls: seq<Call>, a: string): Ledger
    decreases |calls|
  {
    if calls == [] then BLANK
    else
      var before, c := calls[..|calls| - 1], calls[|calls| - 1];
      Entered(LedgerOf(before, a), Run(map[], before, Pruning), c, a)
  }

  function Entered(l: Ledger, m: Buckets, c: Call, a: string): Ledger {
    if c.ip != a || c.Success? then l
    else
      var b := Touched(Pruned(m, c.now), a, c.now, c.created, Pruning);
      var w := l.(seen := true, start := b.start, last := c.created);
      if c.Check? then w.(failures := b.failures, cleared := Allowed(b))
      else w.(failures := b.failures + 1, times := l.times + [c.now], cleared := false)
  }

  /** Address `a` never succeeds, and each of its failures follows a check of its own that let it through. */
  predicate Sequential(calls: seq<Call>, a: string)
    decreases |calls|
  {
    calls != [] ==>
      var before, c := calls[..|calls| - 1], calls[|calls| - 1];
      Sequential(before, a) && (c.ip == a ==> c.Check? || (c.Failure? && LedgerOf(before, a).cleared))
  }

  /**
   The calls, in the order in which they take the lock. Each reads the clock before it has the lock, and others may
   take it in between; `created` is read with the lock held, so it is no earlier than anything read by the calls
   before. Only the calls of address `a` itself come one after the other.
   */
  ghost predicate ClockedFor(calls: seq<Call>, a: string) {
    && (forall i :: 0 <= i < |calls| && !calls[i].Success? ==> calls[i].now <= calls[i].created)
    && (forall i, j :: 0 <= i < j < |calls| && !calls[i].Success? && !calls[j].Success? && calls[j].ip == a ==>
          calls[i].now <= calls[j].created)
    && (forall i, j | 0 <= i < j < |calls| && !calls[i].Success? && !calls[j].Success?
          :: calls[i].ip == a && calls[j].ip == a ==> calls[i].created <= calls[j].now)
  }

  /** A run in the order of the clock is one of these. */
  lemma ClockedIsClockedFor(calls: seq<Call>, a: string)
    requires Clocked(calls)
    ensures ClockedFor(calls, a)
  {
    forall i, j | 0 <= i < j < |calls| && !calls[i].Success? && !calls[j].Success?
      ensures calls[i].now <= calls[j].created
    {
      assert calls[i].now <= calls[i].created <= calls[j].now;
    }
  }

  /** Some call has read a time at which a window with this start is over. */
  ghost predicate SeenOver(calls: seq<Call>, start: int) {
    exists i :: 0 <= i < |calls| && !calls[i].Success? && calls[i].now - start > WINDOW
  }

  /** The ledger agrees with the bucket; if that is gone, its window was over for some call. */
  ghost predicate Agrees(l: Ledger, calls: seq<Call>, a: string) {
    var m := Run(map[], calls, Pruning);
    && (a in m ==> l.seen && m[a] == Bucket(l.start, l.failures))
    && (a !in m && l.seen ==> SeenOver(calls, l.start))
  }

  /**
   The failures of the last window come last; those before are behind its start, and those that are ten further back
   are behind it by more than a window.
   */
  ghost predicate Paced(l: Ledger) {
    var n := |l.times|;
    && l.failures <= LIMIT && l.failures <= n && l.start <= l.last
    && (l.cleared ==> l.failures < LIMIT)
    && (!l.seen ==> l == BLANK)
    && (forall i :: n - l.failures <= i < n ==> l.times[i] <= l.start + WINDOW)
    && (forall i :: 0 <= i < n - l.failures ==> l.times[i] < l.start)
    && (forall i :: 0 <= i < n - l.failures - LIMIT ==> l.times[i] + WINDOW < l.start)
  }

  /** Twenty-one failures always take longer than a window. */
  ghost predicate Spread(times: seq<int>) {
    forall i :: 0 <= i && i + 2 * LIMIT < |times| ==> times[i] + WINDOW < times[i + 2 * LIMIT]
  }

  lemma SameWindow(l: Ledger, m: Buckets, c: Call, a: string)
    requires Paced(l) && Spread(l.times) && !c.Success? && c.ip == a && a in m && !Expired(m[a], c.now)
    requires m[a] == Bucket(l.start, l.failures) && l.seen && l.last <= c.now <= c.created
    requires c.Failure? ==> l.cleared
    ensures var n := Entered(l, m, c, a);
      Paced(n) && Spread(n.times) && Step(m, c, Pruning)[a] == Bucket(n.start, n.failures) && n.seen
  {
    assert Touched(Pruned(m, c.now), a, c.now, c.created, Pruning) == Bucket(l.start, l.failures);
    if c.Failure? {
      assert Entered(l, m, c, a)
          == l.(times := l.times + [c.now], failures := l.failures + 1, cleared := false, last := c.created);
    }
  }

  lemma NewWindow(l: Ledger, m: Buckets, c: Call, a: string)
    requires Paced(l) && Spread(l.times) && !c.Success? && c.ip == a && (a in m ==> Expired(m[a], c.now))
    requires l.seen ==> l.last <= c.now && l.start + WINDOW < c.created
    requires c.now <= c.created && (c.Failure? ==> l.cleared)
    ensures var n := Entered(l, m, c, a);
      Paced(n) && Spread(n.times) && Step(m, c, Pruning)[a] == Bucket(n.start, n.failures) && n.seen
  {
    var n := Entered(l, m, c, a);
    assert Touched(Pruned(m, c.now), a, c.now, c.created, Pruning) == Bucket(c.created, 0);
    assert forall i :: 0 <= i < |l.times| ==> l.times[i] < c.created;
    assert forall i :: 0 <= i < |l.times| - LIMIT ==> l.times[i] + WINDOW < c.created;
    if c.Failure? {
      assert n.times == l.times + [c.now];
    }
  }

  /** The call of another address leaves the bucket alone, unless it finds it over. */
  lemma OtherAddress(before: seq<Call>, c: Call, a: string)
    requires c.ip != a && Agrees(LedgerOf(before, a), before, a)
    ensures Agrees(LedgerOf(before + [c], a), before + [c], a)
  {
    var calls := before + [c];
    assert calls[..|before|] == before && calls[|before|] == c;
    var l, m := LedgerOf(before, a), Run(map[], before, Pruning);
    if SeenOver(before, l.start) {
      var i :| 0 <= i < |before| && !before[i].Success? && before[i].now - l.start > WINDOW;
      assert calls[i] == before[i];
    }
    if a in m && a !in Step(m, c, Pruning) {
      assert calls[|before|].now - l.start > WINDOW;
    }
  }

  /** The last call of the address is behind a new one. */
  lemma {:induction false} LastIsBefore(before: seq<Call>, c: Call, a: string)
    requires ClockedFor(before + [c], a) && !c.Success? && c.ip == a && LedgerOf(before, a).seen
    ensures LedgerOf(before, a).last <= c.now
    decreases |before|
  {
    var n := |before| - 1;
    var all := before + [c];
    assert all[n] == before[n] && all[n + 1] == c;
    if before[n].ip != a || before[n].Success? {
      ClockedWithout(before, c, a);
      LastIsBefore(before[..n], c, a);
    }
  }

  lemma ClockedWithout(before: seq<Call>, c: Call, a: string)
    requires ClockedFor(before + [c], a) && before != []
    ensures ClockedFor(before[..|before| - 1] + [c], a)
  {
    var n := |before| - 1;
    var all, less := before + [c], before[..n] + [c];
    assert forall i :: 0 <= i < n ==> less[i] == all[i];
    assert less[n] == all[n + 1];
  }

  /** What any call has read is behind what the new one reads with the lock held. */
  lemma OverBefore(before: seq<Call>, c: Call, a: string, start: int)
    requires ClockedFor(before + [c], a) && !c.Success? && c.ip == a && SeenOver(before, start)
    ensures start + WINDOW < c.created
  {
    var i :| 0 <= i < |before| && !before[i].Success? && before[i].now - start > WINDOW;
    var all := before + [c];
    assert all[i] == before[i] && all[|before|] == c;
  }

  ghost predicate LedgerInv(calls: seq<Call>, a: string) {
    var l := LedgerOf(calls, a);
    Paced(l) && Spread(l.times) && Agrees(l, calls, a)
  }

  lemma LedgerStep(before: seq<Call>, c: Call, a: string)
    requires ClockedFor(before + [c], a) && Sequential(before + [c], a) && LedgerInv(before, a)
    ensures LedgerInv(before + [c], a)
  {
    var calls := before + [c];
    assert calls[..|before|] == before && calls[|before|] == c;
    if c.ip != a {
      OtherAddress(before, c, a);
    } else {
      var l, m := LedgerOf(before, a), Run(map[], before, Pruning);
      assert c.now <= c.created;
      if l.seen {
        LastIsBefore(before, c, a);
      }
      hide Paced, Spread, Step, Pruned, Touched, SeenOver;
      assert Run(map[], calls, Pruning) == Step(m, c, Pruning);
      if a in m && !Expired(m[a], c.now) {
        SameWindow(l, m, c, a);
      } else {
        if l.seen && a !in m {
          OverBefore(before, c, a, l.start);
        }
        NewWindow(l, m, c, a);
      }
      StepTouches(m, c, Pruning);
    }
  }

  lemma ClockedPrefix(calls: seq<Call>, n: nat, a: string)
    requires ClockedFor(calls, a) && n <= |calls|
    ensures ClockedFor(calls[..n], a)
  {
  }

  lemma {:induction false} LedgerKept(calls: seq<Call>, a: string)
    requires ClockedFor(calls, a) && Sequential(calls, a)
    ensures LedgerInv(calls, a)
    decreases |calls|
  {
    if calls != [] {
      var n := |calls| - 1;
      assert calls == calls[..n] + [calls[n]];
      ClockedPrefix(calls, n, a);
      LedgerKept(calls[..n], a);
      LedgerStep(calls[..n], calls[n], a);
    }
  }

  /** The times at which address `a` failed. */
  function FailureTimes(calls: seq<Call>, a: string): seq<int>
    decreases |calls|
  {
    if calls == [] then []
    else
      var c := calls[|calls| - 1];
      FailureTimes(calls[..|calls| - 1], a) + if c.Failure? && c.ip == a then [c.now] else []
  }

  lemma {:induction false} LedgerTimes(calls: seq<Call>, a: string)
    ensures LedgerOf(calls, a).times == FailureTimes(calls, a)
    decreases |calls|
  {
    if calls != [] {
      LedgerTimes(calls[..|calls| - 1], a);
    }
  }

  /**
   An address whose checks and failures come one after the other, without a success, fails at most twenty times in
   any 30 seconds, whatever other addresses do in between and in whatever order they get the lock: the twenty-first
   failure is more than a window later.
   */
  lemma AtMostTwentyPerWindow(calls: seq<Call>, a: string, i: nat)
    requires ClockedFor(calls, a) && Sequential(calls, a) && i + 20 < |FailureTimes(calls, a)|
    ensures FailureTimes(calls, a)[i + 20] - FailureTimes(calls, a)[i] > WINDOW
  {
    LedgerKept(calls, a);
    LedgerTimes(calls, a);
  }

  // ---------------------------------------------------------------------------------------------------
  // The bound is reached, and needs its conditions
  // ---------------------------------------------------------------------------------------------------

  /** `k` times a check that is followed by a failure, all at time `t`. */
  function Tries(a: string, t: int, k: nat): seq<Call> {
    if k == 0 then [] else Tries(a, t, k - 1) + [Check(a, t, t), Failure(a, t, t)]
  }

  function Failures(a: string, t: int, k: nat): seq<Call> {
    if k == 0 then [] else Failures(a, t, k - 1) + [Failure(a, t, t)]
  }

  function Checks(a: string, t: int, k: nat): seq<Call> {
    if k == 0 then [] else Checks(a, t, k - 1) + [Check(a, t, t)]
  }

  /** A run that may go on at time `t`. */
  ghost predicate Until(calls: seq<Call>, t: int) {
    Clocked(calls) && forall i :: 0 <= i < |calls| && !calls[i].Success? ==> calls[i].created <= t
  }

  lemma UntilOneMore(calls: seq<Call>, c: Call, t: int)
    requires Until(calls, t) && !c.Success? && c.now == c.created == t
    ensures Until(calls + [c], t)
  {
    var all := calls + [c];
    assert all[|calls|] == c;
    assert forall i :: 0 <= i < |calls| ==> all[i] == calls[i];
  }

  lemma OneMore(calls: seq<Call>, c: Call, a: string, mode: Mode)
    ensures var all := calls + [c];
      && Run(map[], all, mode) == Step(Run(map[], calls, mode), c, mode)
      && (Sequential(all, a) <==>
            Sequential(calls, a) && (c.ip == a ==> c.Check? || (c.Failure? && LedgerOf(calls, a).cleared)))
      && LedgerOf(all, a) == Entered(LedgerOf(calls, a), Run(map[], calls, Pruning), c, a)
      && FailureTimes(all, a) == FailureTimes(calls, a) + if c.Failure? && c.ip == a then [c.now] else []
  {
    assert (calls + [c])[..|calls|] == calls;
  }

  /** A check at time `t` would leave nothing but bucket `b`, which is not over. */
  ghost predicate Ready(m: Buckets, a: string, t: int, b: Bucket) {
    Step(m, Check(a, t, t), Pruning) == map[a := b] && !Expired(b, t)
  }

  lemma ReadyAgain(a: string, t: int, b: Bucket)
    requires !Expired(b, t)
    ensures Ready(map[a := b], a, t, b)
  {
    assert Pruned(map[a := b], t) == map[a := b];
  }

  lemma ReadyClears(l: Ledger, m: Buckets, a: string, t: int, b: Bucket)
    requires Ready(m, a, t, b) && b.failures < LIMIT
    ensures Entered(l, m, Check(a, t, t), a).cleared
  {
    assert Step(m, Check(a, t, t), Pruning)[a] == b;
  }

  lemma FailureCounts(a: string, t: int, b: Bucket, mode: Mode)
    requires !Expired(b, t)
    ensures Step(map[a := b], Failure(a, t, t), mode) == map[a := b.(failures := b.failures + 1)]
  {
    assert Pruned(map[a := b], t) == map[a := b];
  }

  /** One more try at time `t` in a window with room. */
  lemma OneTry(calls: seq<Call>, a: string, t: int, b: Bucket)
    requires Until(calls, t) && Sequential(calls, a) && b.failures < LIMIT
    requires Ready(Run(map[], calls, Pruning), a, t, b)
    ensures var all := calls + [Check(a, t, t), Failure(a, t, t)];
      && Until(all, t) && Sequential(all, a)
      && Run(map[], all, Pruning) == map[a := b.(failures := b.failures + 1)]
      && FailureTimes(all, a) == FailureTimes(calls, a) + [t]
  {
    hide Step, Run, Sequential, LedgerOf, FailureTimes, Until, Entered;
    var check, failure := Check(a, t, t), Failure(a, t, t);
    var one := calls + [check];
    UntilOneMore(calls, check, t);
    OneMore(calls, check, a, Pruning);
    UntilOneMore(one, failure, t);
    OneMore(one, failure, a, Pruning);
    ReadyClears(LedgerOf(calls, a), Run(map[], calls, Pruning), a, t, b);
    FailureCounts(a, t, b, Pruning);
    assert calls + [check, failure] == one + [failure];
  }

  lemma {:induction false} TriesRun(calls: seq<Call>, a: string, t: int, start: int, k: nat)
    requires Until(calls, t) && Sequential(calls, a) && 0 < k <= LIMIT
    requires Ready(Run(map[], calls, Pruning), a, t, Bucket(start, 0))
    ensures var all := calls + Tries(a, t, k);
      && Until(all, t) && Sequential(all, a)
      && Run(map[], all, Pruning) == map[a := Bucket(start, k)]
      && FailureTimes(all, a) == FailureTimes(calls, a) + seq(k, _ => t)
    decreases k
  {
    hide Step, Run, Sequential, LedgerOf, FailureTimes, Until;
    var less := calls + Tries(a, t, k - 1);
    if k == 1 {
      assert less == calls;
      assert seq(k, _ => t) == [t];
    } else {
      TriesRun(calls, a, t, start, k - 1);
      ReadyAgain(a, t, Bucket(start, k - 1));
      assert seq(k, _ => t) == seq(k - 1, _ => t) + [t];
    }
    OneTry(less, a, t, Bucket(start, k - 1));
    assert calls + Tries(a, t, k) == less + [Check(a, t, t), Failure(a, t, t)];
  }

  lemma FirstCheck(a: string)
    ensures var calls := [Check(a, 0, 0)];
      Until(calls, WINDOW) && Sequential(calls, a) && FailureTimes(calls, a) == [] &&
      Ready(Run(map[], calls, Pruning), a, WINDOW, Bucket(0, 0))
  {
    OneMore([], Check(a, 0, 0), a, Pruning);
    assert [] + [Check(a, 0, 0)] == [Check(a, 0, 0)];
    ReadyAgain(a, WINDOW, Bucket(0, 0));
  }

  lemma ReadyAnew(a: string, b: Bucket, t: int)
    requires Expired(b, t)
    ensures Ready(map[a := b], a, t, Bucket(t, 0))
  {
    assert Pruned(map[a := b], t) == map[];
  }

  lemma UntilLater(calls: seq<Call>, s: int, t: int)
    requires Until(calls, s) && s <= t
    ensures Until(calls, t)
  {
  }

  /** Ten tries at the very end of a window and ten just after it: twenty failures within a nanosecond. */
  lemma TwentyAreReached(a: string)
    ensures var calls := [Check(a, 0, 0)] + Tries(a, WINDOW, 10) + Tries(a, WINDOW + 1, 10);
      && Clocked(calls) && ClockedFor(calls, a) && Sequential(calls, a) && |FailureTimes(calls, a)| == 20
      && FailureTimes(calls, a)[19] - FailureTimes(calls, a)[0] == 1
  {
    hide Run, Step, Sequential, FailureTimes, LedgerOf, Tries, Clocked, Ready;
    FirstCheck(a);
    TriesRun([Check(a, 0, 0)], a, WINDOW, 0, 10);
    var second := [Check(a, 0, 0)] + Tries(a, WINDOW, 10);
    ReadyAnew(a, Bucket(0, 10), WINDOW + 1);
    UntilLater(second, WINDOW, WINDOW + 1);
    TriesRun(second, a, WINDOW + 1, WINDOW + 1, 10);
    ClockedIsClockedFor(second + Tries(a, WINDOW + 1, 10), a);
  }

  lemma {:induction false} FailuresRun(calls: seq<Call>, a: string, t: int, b: Bucket, k: nat, mode: Mode)
    requires Run(map[], calls, mode) == map[a := b] && !Expired(b, t)
    ensures Run(map[], calls + Failures(a, t, k), mode) == map[a := b.(failures := b.failures + k)]
    decreases k
  {
    hide Step, Run, Sequential, LedgerOf, FailureTimes;
    if k == 0 {
      assert calls + [] == calls;
    } else {
      FailuresRun(calls, a, t, b, k - 1, mode);
      OneMore(calls + Failures(a, t, k - 1), Failure(a, t, t), a, mode);
      FailureCounts(a, t, b.(failures := b.failures + k - 1), mode);
      assert calls + Failures(a, t, k) == calls + Failures(a, t, k - 1) + [Failure(a, t, t)];
    }
  }

  lemma {:induction false} ChecksRun(a: string, t: int, k: nat)
    requires k > 0
    ensures Run(map[], Checks(a, t, k), Pruning) == map[a := Bucket(t, 0)]
    decreases k
  {
    OneMore(Checks(a, t, k - 1), Check(a, t, t), a, Pruning);
    if k > 1 {
      ChecksRun(a, t, k - 1);
    }
  }

  lemma {:induction false} ChecksPrefix(a: string, t: int, k: nat, n: nat)
    requires n <= k
    ensures |Checks(a, t, k)| == k && Checks(a, t, k)[..n] == Checks(a, t, n)
    decreases k
  {
    if n < k {
      ChecksPrefix(a, t, k - 1, n);
    } else if k > 0 {
      ChecksPrefix(a, t, k - 1, k - 1);
    }
  }

  /** Checks that all come before the failures all pass: then any number of failures fits into one window. */
  lemma ConcurrentChecksAllPass(a: string, k: nat, n: nat)
    requires n < k
    ensures var calls := Checks(a, 0, k) + Failures(a, 0, k);
      && |Checks(a, 0, k)| == k && Answer(calls, n, Pruning)
      && Run(map[], calls, Pruning) == map[a := Bucket(0, k)]
  {
    ChecksRun(a, 0, k);
    FailuresRun(Checks(a, 0, k), a, 0, Bucket(0, 0), k, Pruning);
    ChecksPrefix(a, 0, k, n + 1);
    ChecksRun(a, 0, n + 1);
    var calls := Checks(a, 0, k) + Failures(a, 0, k);
    assert calls[..n + 1] == Checks(a, 0, k)[..n + 1];
  }

  /** A check that opens the first bucket, and one that finds it over and reads the clock twice. */
  lemma Reopened(a: string)
    ensures var calls := [Check(a, 0, 0), Check(a, WINDOW + 1, WINDOW + 2)];
      && Until(calls, WINDOW + 2)
      && Run(map[], calls, Keeping) == map[a := Bucket(WINDOW + 1, 0)]
      && Run(map[], calls, Pruning) == map[a := Bucket(WINDOW + 2, 0)]
  {
    var first, second := Check(a, 0, 0), Check(a, WINDOW + 1, WINDOW + 2);
    assert [first, second][..1] == [first] && [first][..0] == [];
    assert Run(map[], [first], Keeping) == Run(map[], [first], Pruning) == map[a := Bucket(0, 0)];
    assert Pruned(map[a := Bucket(0, 0)], WINDOW + 1) == map[];
  }

  lemma {:induction false} FailuresUntil(calls: seq<Call>, a: string, t: int, k: nat)
    requires Until(calls, t)
    ensures Until(calls + Failures(a, t, k), t)
    decreases k
  {
    if k == 0 {
      assert calls + [] == calls;
    } else {
      FailuresUntil(calls, a, t, k - 1);
      UntilOneMore(calls + Failures(a, t, k - 1), Failure(a, t, t), t);
      assert calls + Failures(a, t, k) == calls + Failures(a, t, k - 1) + [Failure(a, t, t)];
    }
  }

  /** A run on which the limiter answers differently with and without its pruning. */
  function TellingRun(a: string): seq<Call> {
    [Check(a, 0, 0), Check(a, WINDOW + 1, WINDOW + 2)] + Failures(a, WINDOW + 2, 10)
    + [Check(a, 2 * WINDOW + 2, 2 * WINDOW + 2)]
  }

  lemma TellingRunIsClocked(a: string)
    ensures var calls := TellingRun(a); Clocked(calls) && AdvancesAtMost(calls, 1) && |calls| == 13
  {
    var last := Check(a, 2 * WINDOW + 2, 2 * WINDOW + 2);
    var first := [Check(a, 0, 0), Check(a, WINDOW + 1, WINDOW + 2)];
    var before := first + Failures(a, WINDOW + 2, 10);
    hide Run, Failures, Until;
    FailuresLength(a, WINDOW + 2, 10);
    Reopened(a);
    FailuresUntil(first, a, WINDOW + 2, 10);
    UntilLater(before, WINDOW + 2, 2 * WINDOW + 2);
    UntilOneMore(before, last, 2 * WINDOW + 2);
    UntilIsClocked(before + [last], 2 * WINDOW + 2);
  }

  /** One nanosecond within one call is enough: the pruned bucket starts later than the restarted one. */
  lemma PruningShowsIfTheClockAdvances(a: string)
    ensures var calls := TellingRun(a);
      && Clocked(calls) && AdvancesAtMost(calls, 1) && |calls| == 13
      && Answer(calls, 12, Keeping) && !Answer(calls, 12, Pruning)
  {
    TellingRunIsClocked(a);
    hide Run, Failures, Clocked, AdvancesAtMost;
    var last := Check(a, 2 * WINDOW + 2, 2 * WINDOW + 2);
    var first := [Check(a, 0, 0), Check(a, WINDOW + 1, WINDOW + 2)];
    var before := first + Failures(a, WINDOW + 2, 10);
    assert (before + [last])[..13] == before + [last];
    Reopened(a);
    FailuresRun(first, a, WINDOW + 2, Bucket(WINDOW + 1, 0), 10, Keeping);
    FailuresRun(first, a, WINDOW + 2, Bucket(WINDOW + 2, 0), 10, Pruning);
    OneMore(before, last, a, Keeping);
    OneMore(before, last, a, Pruning);
  }

  lemma UntilIsClocked(calls: seq<Call>, t: int)
    requires Until(calls, t)
    ensures Clocked(calls)
  {
  }

  /**
   The answers are those of the limiter without its pruning, on all runs whose calls let the clock advance by at most
   `delta`, exactly if `delta` is nothing.
   */
  lemma PruningIsInvisibleIff(delta: nat)
    ensures (forall calls: seq<Call>, n: nat ::
              Clocked(calls) && AdvancesAtMost(calls, delta) && n < |calls| ==>
                Answer(calls, n, Pruning) == Answer(calls, n, Keeping))
            <==> delta == 0
  {
    if delta == 0 {
      forall calls: seq<Call>, n: nat | Clocked(calls) && AdvancesAtMost(calls, delta) && n < |calls|
        ensures Answer(calls, n, Pruning) == Answer(calls, n, Keeping)
      {
        PruningIsInvisible(calls, n);
      }
    } else {
      PruningShowsIfTheClockAdvances("");
      var calls := TellingRun("");
      assert AdvancesAtMost(calls, delta);
      assert Answer(calls, 12, Pruning) != Answer(calls, 12, Keeping);
    }
  }

  lemma {:induction false} FailuresLength(a: string, t: int, k: nat)
    ensures |Failures(a, t, k)| == k
    ensures forall i :: 0 <= i < k ==> Failures(a, t, k)[i] == Failure(a, t, t)
  {
    if k > 0 {
      FailuresLength(a, t, k - 1);
    }
  }

  // ---------------------------------------------------------------------------------------------------
  // One window
  // ---------------------------------------------------------------------------------------------------

  /** Nobody logs in from `a`, and all these calls fall into the 30 seconds that began at `start`. */
  ghost predicate WithinWindow(calls: seq<Call>, a: string, start: int) {
    forall c <- calls :: if c.Success? then c.ip != a else c.now <= start + 30_000_000_000
  }

  lemma StepInWindow(m: Buckets, c: Call, a: string)
    requires a in m && if c.Success? then c.ip != a else c.now <= m[a].start + 30_000_000_000
    ensures var after := Step(m, c, Pruning);
      a in after && after[a] == m[a].(failures := m[a].failures + if c.Failure? && c.ip == a then 1 else 0)
  {
  }

  lemma StepOpensWindow(m: Buckets, c: Call, a: string)
    requires a !in m && !c.Success? && c.ip == a && c.now <= c.created + 30_000_000_000
    ensures var after := Step(m, c, Pruning);
      a in after && after[a] == Bucket(c.created, if c.Failure? then 1 else 0)
  {
  }

  /** From the call that finds no bucket of its address on, the bucket counts the failures of the address. */
  lemma {:induction false} WindowCounts(m: Buckets, calls: seq<Call>, a: string)
    requires a !in m && calls != [] && !calls[0].Success? && calls[0].ip == a
    requires WithinWindow(calls, a, calls[0].created)
    ensures var after := Run(m, calls, Pruning);
      a in after && after[a] == Bucket(calls[0].created, |FailureTimes(calls, a)|)
    decreases |calls|
  {
    hide Step;
    var n := |calls| - 1;
    var before, c := calls[..n], calls[n];
    assert c in calls && calls[0] in calls;
    if n == 0 {
      StepOpensWindow(m, c, a);
      assert Run(m, before, Pruning) == m && FailureTimes(before, a) == [];
    } else {
      assert forall b <- before :: b in calls;
      WindowCounts(m, before, a);
      StepInWindow(Run(m, before, Pruning), c, a);
    }
  }

  /**
   Within the 30 seconds that begin with the first call of an address, whatever other addresses do, a login may be tried
   exactly as long as fewer than ten have failed.
   */
  lemma LockedOutIff(m: Buckets, calls: seq<Call>, a: string, now: int, created: int)
    requires a !in m && calls != [] && !calls[0].Success? && calls[0].ip == a
    requires WithinWindow(calls, a, calls[0].created) && now <= calls[0].created + 30_000_000_000
    ensures var after := Step(Run(m, calls, Pruning), Check(a, now, created), Pruning);
      Allowed(after[a]) <==> |FailureTimes(calls, a)| < 10
  {
    hide Run;
    WindowCounts(m, calls, a);
  }

  /** When the 30 seconds are over the address starts anew: a login may be tried, and no failure is remembered. */
  lemma LockoutEnds(m: Buckets, a: string, now: int, created: int)
    requires a in m && now > m[a].start + 30_000_000_000 && now <= created
    ensures var after := Step(m, Check(a, now, created), Pruning);
      Allowed(after[a]) && after[a] == Bucket(created, 0)
  {
  }

  /**
   A login that succeeds forgets the failures of its address alone: the others' buckets stay, and the next check finds
   no bucket, opens one with its own time and no failures, and lets the login be tried.
   */
  lemma SuccessForgets(m: Buckets, a: string, other: string, now: int, created: int)
    requires now <= created && other != a
    ensures var forgot := Step(m, Success(a), Pruning);
      var after := Step(forgot, Check(a, now, created), Pruning);
      && a !in forgot && (other in forgot <==> other in m) && (other in m ==> forgot[other] == m[other])
      && Allowed(after[a]) && after[a] == Bucket(created, 0)
  {
  }

  // ---------------------------------------------------------------------------------------------------
  // The map the handlers share
  // ---------------------------------------------------------------------------------------------------

  class LoginFailures {
    var buckets: Buckets

    constructor ()
      ensures buckets == map[]
    {
      buckets := map[];
    }

    /** `prune_rate_limits`: exactly the expired buckets go. */
    method Prune(now: int)
      modifies this
      ensures buckets == Pruned(old(buckets), now)
    {
      var left := buckets.Keys;
      while left != {}
        invariant left <= old(buckets).Keys
        invariant buckets == map ip | ip in old(buckets) && (ip in left || !Expired(old(buckets)[ip], now))
                                      :: old(buckets)[ip]
        decreases left
      {
        var ip :| ip in left;
        if now - buckets[ip].start > WINDOW {
          buckets := buckets - {ip};
        }
        left := left - {ip};
      }
    }

    method Allow(ip: string, now: int, created: int) returns (allowed: bool)
      modifies this
      ensures buckets == Step(old(buckets), Check(ip, now, created), Pruning)
      ensures allowed == (ip in buckets && Allowed(buckets[ip]))
    {
      Prune(now);
      if ip !in buckets {
        buckets := buckets[ip := Bucket(created, 0)];
      }
      if now - buckets[ip].start > WINDOW {
        buckets := buckets[ip := Bucket(now, 0)];
      }
      allowed := buckets[ip].failures < LIMIT;
    }

    method RecordFailure(ip: string, now: int, created: int)
      modifies this
      ensures buckets == Step(old(buckets), Failure(ip, now, created), Pruning)
    {
      Prune(now);
      if ip !in buckets {
        buckets := buckets[ip := Bucket(created, 0)];
      }
      if now - buckets[ip].start > WINDOW {
        buckets := buckets[ip := Bucket(now, 0)];
      }
      buckets := buckets[ip := buckets[ip].(failures := buckets[ip].failures + 1)];
    }

    method Reset(ip: string)
      modifies this
      ensures buckets == Step(old(buckets), Success(ip), Pruning)
    {
      buckets := buckets - {ip};
    }
  }
}
