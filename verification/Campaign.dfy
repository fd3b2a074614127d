/**
 * The bounded campaign loop: ramp phases, dispatch pacing under a rate and a wall-time cap, and the
 * accounting of every event's receipts. The clock, the fences and the event consumer are the
 * environment: parameters that may be anything, except that time does not run backwards and a sleep
 * lasts at least as long as asked.
 */
module Campaign {
  import opened Common
  import opened CampaignEvidence

  /** What the loop does that an observer can see. */
  datatype Entry = Fenced(completed: nat) | Started(event: nat, at: real) | Checkpoint(limit: nat) | AdmissionFenced

  datatype Limits = Limits(rate: nat, wallTime: nat, spend: nat, proposals: nat, proposalsPerEvent: nat)

  // ----- the ramp

  /** Strictly increasing positive limits that end at the exact cohort. */
  predicate RampOk(phases: seq<nat>, cohort: nat) {
    && phases != [] && phases[|phases| - 1] == cohort && phases[0] > 0
    && forall i, j :: 0 <= i < j < |phases| ==> phases[i] < phases[j]
  }

  /** The completed counts at which a phase begins. */
  function PhaseStarts(phases: seq<nat>): seq<nat> { if phases == [] then [] else [0] + phases[..|phases| - 1] }

  function FenceAt(phases: seq<nat>, k: nat): seq<Entry> { if k in PhaseStarts(phases) then [Fenced(k)] else [] }

  function CheckpointAt(phases: seq<nat>, k: nat): seq<Entry> { if k in phases then [Checkpoint(k)] else [] }

  /** The trace of the first `n` events: a fence where a phase begins, the dispatch, a checkpoint where one ends. */
  function Trace(events: seq<nat>, phases: seq<nat>, times: seq<real>, n: nat): seq<Entry>
    requires n <= |events| && n <= |times|
  {
    if n == 0 then []
    else
      Trace(events, phases, times, n - 1)
      + (FenceAt(phases, n - 1) + [Started(events[n - 1], times[n - 1])] + CheckpointAt(phases, n))
  }

  /** Scans the ramp and rejects a limit that does not grow. */
  method ValidateRamp(phases: seq<nat>, cohort: nat) returns (ok: bool)
    ensures ok <==> RampOk(phases, cohort)
  {
    if phases == [] { return false; }
    var prior := 0;
    for i := 0 to |phases|
      invariant prior == if i == 0 then 0 else phases[i - 1]
      invariant i > 0 ==> phases[0] > 0
      invariant forall j, k :: 0 <= j < k < i ==> phases[j] < phases[k]
    {
      if phases[i] <= prior { return false; }
      prior := phases[i];
    }
    ok := prior == cohort;
  }

  // ----- pacing

  /** The minimum time between two starts; a campaign without a positive rate never starts. */
  function Interval(rate: nat): real { if rate == 0 then 0.0 else 60.0 / (rate as real) }

  ghost predicate Gaps(times: seq<real>, interval: real) {
    forall i :: 0 <= i < |times| - 1 ==> times[i + 1] - times[i] >= interval
  }

  /** Dispatch times inside the wall cap, each at least the minimum interval after the one before it. */
  ghost predicate Paced(times: seq<real>, started: real, limits: Limits) {
    && (forall i :: 0 <= i < |times| ==> started <= times[i] < started + limits.wallTime as real)
    && Gaps(times, Interval(limits.rate))
  }

  lemma {:induction false} Spread(times: seq<real>, interval: real, i: nat, j: nat)
    requires i <= j < |times| && Gaps(times, interval)
    ensures times[j] - times[i] >= (j - i) as real * interval
    decreases j
  {
    if i < j {
      Spread(times, interval, i, j - 1);
      assert times[j - 1 + 1] - times[j - 1] >= interval;
      assert (j - i) as real * interval == (j - 1 - i) as real * interval + interval;
    }
  }

  lemma TimesMonotone(a: real, b: real, x: real)
    requires x >= 0.0
    ensures a >= b ==> a * x >= b * x
  {
    if a >= b { assert (a - b) * x >= 0.0; }
  }

  lemma IntervalTimesRate(rate: nat)
    requires rate > 0
    ensures rate as real * Interval(rate) == 60.0 && Interval(rate) > 0.0
  {
  }

  /** Two dispatches of one minute are fewer than `rate` steps apart. */
  lemma FewerThanRate(times: seq<real>, rate: nat, x: real, i: nat, j: nat)
    requires rate > 0 && i <= j < |times| && Gaps(times, Interval(rate)) && x <= times[i] && times[j] < x + 60.0
    ensures j - i < rate
  {
    Spread(times, Interval(rate), i, j);
    IntervalTimesRate(rate);
    hide Interval;
    TimesMonotone((j - i) as real, rate as real, Interval(rate));
  }

  /** How many dispatches fall into the half-open minute from `x`. */
  function InMinute(times: seq<real>, x: real): nat {
    if times == [] then 0
    else InMinute(times[..|times| - 1], x) + (if x <= times[|times| - 1] < x + 60.0 then 1 else 0)
  }

  lemma GapsPrefix(times: seq<real>, interval: real, n: nat)
    requires n <= |times| && Gaps(times, interval)
    ensures Gaps(times[..n], interval)
  {
    forall i | 0 <= i < |times[..n]| - 1 ensures times[..n][i + 1] - times[..n][i] >= interval {
      assert times[i + 1] - times[i] >= interval;
    }
  }

  lemma {:induction false} NoneInMinute(times: seq<real>, x: real)
    requires forall i :: 0 <= i < |times| ==> times[i] < x
    ensures InMinute(times, x) == 0
  {
    if times != [] { NoneInMinute(times[..|times| - 1], x); }
  }

  /** From the first dispatch at or after `x`, the dispatches of its minute have consecutive indices. */
  lemma {:induction false} InMinuteFrom(times: seq<real>, rate: nat, x: real, first: nat)
    requires rate > 0 && Gaps(times, Interval(rate)) && first <= |times|
    requires (forall i :: 0 <= i < first ==> times[i] < x) && (first < |times| ==> times[first] >= x)
    ensures InMinute(times, x) <= rate && InMinute(times, x) <= |times| - first
    decreases |times|
  {
    if first == |times| {
      NoneInMinute(times, x);
    } else {
      var n := |times| - 1;
      GapsPrefix(times, Interval(rate), n);
      InMinuteFrom(times[..n], rate, x, first);
      if times[n] < x + 60.0 { FewerThanRate(times, rate, x, first, n); }
    }
  }

  /** The dispatches of the half-open minute from `x`. */
  ghost function MinuteFrom(times: seq<real>, x: real): set<nat> { set i | 0 <= i < |times| && x <= times[i] < x + 60.0 }

  lemma MinuteNext(times: seq<real>, x: real)
    ensures times == [] ==> MinuteFrom(times, x) == {}
    ensures times != [] ==>
              var last := |times| - 1;
              && last !in MinuteFrom(times[..last], x)
              && MinuteFrom(times, x) == MinuteFrom(times[..last], x) + (if x <= times[last] < x + 60.0 then {last} else {})
  {
  }

  lemma {:induction false} InMinuteCounts(times: seq<real>, x: real)
    ensures InMinute(times, x) == |MinuteFrom(times, x)|
  {
    hide MinuteFrom;
    MinuteNext(times, x);
    if times != [] { InMinuteCounts(times[..|times| - 1], x); }
  }

  /** Any half-open minute holds at most `rate` dispatches. */
  lemma RateHolds(times: seq<real>, limits: Limits, started: real, x: real)
    requires limits.rate > 0 && Paced(times, started, limits)
    ensures |MinuteFrom(times, x)| <= limits.rate
  {
    InMinuteCounts(times, x);
    var first := 0;
    while first < |times| && times[first] < x
      invariant first <= |times| && forall i :: 0 <= i < first ==> times[i] < x
    {
      first := first + 1;
    }
    InMinuteFrom(times, limits.rate, x, first);
  }

  // ----- what a whole trace contains

  function Checkpoints(log: seq<Entry>): seq<nat> {
    if log == [] then []
    else Checkpoints(log[..|log| - 1]) + (if log[|log| - 1].Checkpoint? then [log[|log| - 1].limit] else [])
  }

  function Fences(log: seq<Entry>): seq<nat> {
    if log == [] then []
    else Fences(log[..|log| - 1]) + (if log[|log| - 1].Fenced? then [log[|log| - 1].completed] else [])
  }

  lemma {:induction false} CheckpointsConcat(a: seq<Entry>, b: seq<Entry>)
    ensures Checkpoints(a + b) == Checkpoints(a) + Checkpoints(b)
  {
    if b == [] {
      assert a + b == a;
    } else {
      assert (a + b)[..|a + b| - 1] == a + b[..|b| - 1];
      CheckpointsConcat(a, b[..|b| - 1]);
    }
  }

  lemma {:induction false} FencesConcat(a: seq<Entry>, b: seq<Entry>)
    ensures Fences(a + b) == Fences(a) + Fences(b)
  {
    if b == [] {
      assert a + b == a;
    } else {
      assert (a + b)[..|a + b| - 1] == a + b[..|b| - 1];
      FencesConcat(a, b[..|b| - 1]);
    }
  }

  /** The members of an increasing sequence up to a bound, in order. */
  function UpTo(limits: seq<nat>, n: int): seq<nat> {
    if limits == [] then []
    else UpTo(limits[..|limits| - 1], n) + (if limits[|limits| - 1] <= n then [limits[|limits| - 1]] else [])
  }

  /** The number, if the sequence contains it. */
  function Only(s: seq<nat>, n: nat): seq<nat> { if n in s then [n] else [] }

  ghost predicate Increasing(s: seq<nat>) { forall i, j :: 0 <= i < j < |s| ==> s[i] < s[j] }

  lemma {:induction false} UpToNext(s: seq<nat>, n: nat)
    requires Increasing(s)
    ensures UpTo(s, n) == UpTo(s, n - 1) + Only(s, n)
  {
    if s != [] {
      var front, last := s[..|s| - 1], s[|s| - 1];
      UpToNext(front, n);
      if last <= n - 1 {
        assert n !in s;
      } else if last == n {
        assert n !in front;
      } else {
        assert n in s <==> n in front;
      }
    }
  }

  lemma {:induction false} UpToAll(s: seq<nat>, n: nat)
    requires forall i :: 0 <= i < |s| ==> s[i] <= n
    ensures UpTo(s, n) == s
  {
    if s != [] {
      UpToAll(s[..|s| - 1], n);
      assert s == s[..|s| - 1] + [s[|s| - 1]];
    }
  }

  lemma {:induction false} UpToNone(s: seq<nat>, n: int)
    requires forall i :: 0 <= i < |s| ==> s[i] > n
    ensures UpTo(s, n) == []
  {
    if s != [] { UpToNone(s[..|s| - 1], n); }
  }

  lemma OneIteration(phases: seq<nat>, k: nat, e: nat, t: real)
    ensures var it := FenceAt(phases, k) + [Started(e, t)] + CheckpointAt(phases, k + 1);
            Checkpoints(it) == Only(phases, k + 1) && Fences(it) == Only(PhaseStarts(phases), k)
  {
    var f, d, c := FenceAt(phases, k), [Started(e, t)], CheckpointAt(phases, k + 1);
    CheckpointsConcat(f + d, c);
    CheckpointsConcat(f, d);
    FencesConcat(f + d, c);
    FencesConcat(f, d);
    assert d[..0] == [] && (f != [] ==> f[..0] == []) && (c != [] ==> c[..0] == []);
  }

  lemma TraceStep(events: seq<nat>, phases: seq<nat>, times: seq<real>, n: nat)
    requires 0 < n <= |events| && n <= |times|
    ensures var before, after := Trace(events, phases, times, n - 1), Trace(events, phases, times, n);
            && Checkpoints(after) == Checkpoints(before) + Only(phases, n)
            && Fences(after) == Fences(before) + Only(PhaseStarts(phases), n - 1)
  {
    hide *;
    TraceUnrolls(events, phases, times, n);
    var it := FenceAt(phases, n - 1) + [Started(events[n - 1], times[n - 1])] + CheckpointAt(phases, n);
    OneIteration(phases, n - 1, events[n - 1], times[n - 1]);
    CheckpointsConcat(Trace(events, phases, times, n - 1), it);
    FencesConcat(Trace(events, phases, times, n - 1), it);
  }

  lemma TraceUnrolls(events: seq<nat>, phases: seq<nat>, times: seq<real>, n: nat)
    requires 0 < n <= |events| && n <= |times|
    ensures Trace(events, phases, times, n) ==
            Trace(events, phases, times, n - 1)
            + (FenceAt(phases, n - 1) + [Started(events[n - 1], times[n - 1])] + CheckpointAt(phases, n))
  {
    hide FenceAt, CheckpointAt;
  }

  lemma RampIncreases(phases: seq<nat>, cohort: nat)
    requires RampOk(phases, cohort)
    ensures Increasing(phases) && Increasing(PhaseStarts(phases))
  {
  }

  lemma LimitsBounded(phases: seq<nat>, cohort: nat)
    requires RampOk(phases, cohort)
    ensures cohort > 0 && forall i :: 0 <= i < |phases| ==> 0 < phases[i] <= cohort
  {
    var last := |phases| - 1;
    forall i | 0 <= i < |phases| ensures 0 < phases[i] <= cohort {
      if i > 0 { assert phases[0] < phases[i]; }
      if i < last { assert phases[i] < phases[last]; }
    }
  }

  lemma StartsBounded(phases: seq<nat>, cohort: nat)
    requires RampOk(phases, cohort)
    ensures |PhaseStarts(phases)| == |phases|
    ensures forall i :: 0 <= i < |PhaseStarts(phases)| ==> PhaseStarts(phases)[i] <= cohort - 1
  {
    var last := |phases| - 1;
    LimitsBounded(phases, cohort);
    forall i | 0 <= i < |PhaseStarts(phases)| ensures PhaseStarts(phases)[i] <= cohort - 1 {
      if i > 0 { assert phases[i - 1] < phases[last]; }
    }
  }

  /** All limits lie in (0, cohort], all phase starts in [0, cohort). */
  lemma RampBounds(phases: seq<nat>, cohort: nat)
    requires RampOk(phases, cohort)
    ensures UpTo(phases, 0) == [] && UpTo(PhaseStarts(phases), -1) == []
    ensures cohort > 0 && UpTo(phases, cohort) == phases && UpTo(PhaseStarts(phases), cohort - 1) == PhaseStarts(phases)
  {
    hide UpTo, RampOk, PhaseStarts;
    LimitsBounded(phases, cohort);
    StartsBounded(phases, cohort);
    UpToNone(phases, 0);
    UpToNone(PhaseStarts(phases), -1);
    UpToAll(phases, cohort);
    UpToAll(PhaseStarts(phases), cohort - 1);
  }

  /** After `n` events the checkpoints are the limits reached, and the fences the phase starts passed. */
  lemma {:induction false} TraceCounts(events: seq<nat>, phases: seq<nat>, times: seq<real>, n: nat)
    requires n <= |events| && n <= |times| && RampOk(phases, |events|)
    ensures Checkpoints(Trace(events, phases, times, n)) == UpTo(phases, n)
    ensures Fences(Trace(events, phases, times, n)) == UpTo(PhaseStarts(phases), n - 1)
    decreases n
  {
    hide RampOk, Increasing, UpTo, PhaseStarts, Trace, Checkpoints, Fences, Only;
    if n == 0 {
      TraceStart(events, phases, times);
    } else {
      RampIncreases(phases, |events|);
      TraceStep(events, phases, times, n);
      TraceCounts(events, phases, times, n - 1);
      UpToNext(phases, n);
      UpToNext(PhaseStarts(phases), n - 1);
    }
  }

  lemma TraceStart(events: seq<nat>, phases: seq<nat>, times: seq<real>)
    requires RampOk(phases, |events|)
    ensures Checkpoints(Trace(events, phases, times, 0)) == UpTo(phases, 0)
    ensures Fences(Trace(events, phases, times, 0)) == UpTo(PhaseStarts(phases), -1)
  {
    RampBounds(phases, |events|);
  }

  /** A completed cohort has one checkpoint for each phase, at exactly its limit, and one fence for each. */
  lemma CompletedTrace(events: seq<nat>, phases: seq<nat>, times: seq<real>)
    requires |events| == |times| && RampOk(phases, |events|)
    ensures var log := Trace(events, phases, times, |events|);
            Checkpoints(log) == phases && Fences(log) == PhaseStarts(phases) && |PhaseStarts(phases)| == |phases|
  {
    hide RampOk, UpTo, Trace, Checkpoints, Fences, PhaseStarts;
    TraceCounts(events, phases, times, |events|);
    RampBounds(phases, |events|);
    StartsBounded(phases, |events|);
  }

  // ----- totals

  function TotalActual(receipts: seq<seq<Ingest>>): nat {
    if receipts == [] then 0 else TotalActual(receipts[..|receipts| - 1]) + SumActual(receipts[|receipts| - 1])
  }

  function TotalReserved(receipts: seq<seq<Ingest>>): nat {
    if receipts == [] then 0 else TotalReserved(receipts[..|receipts| - 1]) + SumReserved(receipts[|receipts| - 1])
  }

  function TotalProposals(receipts: seq<seq<Ingest>>): nat {
    if receipts == [] then 0 else TotalProposals(receipts[..|receipts| - 1]) + SumProposals(receipts[|receipts| - 1])
  }

  datatype Totals = Totals(proposals: nat, spend: nat, fallbacks: nat, retries: nat)

  /** The receipts account exactly for the totals: every event reconciles, without fallback or retry. */
  ghost predicate Accounts(totals: Totals, receipts: seq<seq<Ingest>>, limits: Limits) {
    && (forall i :: 0 <= i < |receipts| ==>
          EventReconciled(receipts[i]) && SumProposals(receipts[i]) <= limits.proposalsPerEvent)
    && totals == Totals(TotalProposals(receipts), TotalActual(receipts), 0, 0)
    && totals.spend <= limits.spend && totals.proposals <= limits.proposals
  }

  /** What was spent never exceeds what was reserved. */
  lemma {:induction false} SpendWithinReservations(receipts: seq<seq<Ingest>>)
    requires forall i :: 0 <= i < |receipts| ==> EventReconciled(receipts[i])
    ensures TotalActual(receipts) <= TotalReserved(receipts)
  {
    if receipts != [] {
      SpendWithinReservations(receipts[..|receipts| - 1]);
      ActualWithinReserved(receipts[|receipts| - 1]);
    }
  }

  /** Adds one event's receipt to the totals, or stops at the first cap it exceeds. */
  method Account(totals: Totals, ghost receipts: seq<seq<Ingest>>, gs: seq<Ingest>, limits: Limits)
    returns (r: Option<Totals>)
    requires Accounts(totals, receipts, limits)
    ensures r.Some? ==> Accounts(r.value, receipts + [gs], limits)
    ensures r.Some? <==>
            && EventReconciled(gs) && SumProposals(gs) <= limits.proposalsPerEvent
            && totals.proposals + SumProposals(gs) <= limits.proposals && totals.spend + SumActual(gs) <= limits.spend
  {
    var receipt := ReceiptEvidence(gs);
    if receipt.None? || receipt.value.proposals > limits.proposalsPerEvent { return None; }
    var proposals := totals.proposals + receipt.value.proposals;
    if proposals > limits.proposals { return None; }
    var spend := totals.spend + receipt.value.actual;
    if spend > limits.spend { return None; }
    assert (receipts + [gs])[..|receipts|] == receipts;
    r := Some(Totals(proposals, spend, totals.fallbacks + receipt.value.fallbacks, totals.retries + receipt.value.retries));
  }

  // ----- the environment of a run

  type Duration = d: real | 0.0 <= d

  /** What the environment answers to one iteration: the fences, the event's result, and how long each call took. */
  datatype Answers = Answers(
    fence: bool, poll: Duration, oversleep: Duration, start: Duration, consume: Duration,
    result: Option<seq<Ingest>>, finish: Duration)

  datatype Environment = Environment(first: Duration, answers: seq<Answers>, lastFence: bool, lastPoll: Duration)

  /** How long an iteration that reads the clock at `now` has to wait. */
  function Delay(now: real, last: Option<real>, interval: real): (d: real)
    ensures d >= 0.0
  {
    if last.Some? && now - last.value < interval then interval - (now - last.value) else 0.0
  }

  /** When an iteration that begins at `clock` starts its dispatch. */
  function StartsAt(clock: real, last: Option<real>, interval: real, w: Answers): real {
    var delay := Delay(clock + w.poll, last, interval);
    clock + w.poll + (if delay > 0.0 then delay + w.oversleep else 0.0) + w.start
  }

  function EndsAt(clock: real, last: Option<real>, interval: real, w: Answers): real {
    StartsAt(clock, last, interval, w) + w.consume + w.finish
  }

  /** When the k-th dispatch starts in a run that is not stopped, and when k events are done. */
  function Began(env: Environment, started: real, interval: real, k: nat): real
    requires k < |env.answers|
    decreases k, 1
  {
    StartsAt(Ended(env, started, interval, k), LastBegan(env, started, interval, k), interval, env.answers[k])
  }

  function LastBegan(env: Environment, started: real, interval: real, k: nat): Option<real>
    requires k <= |env.answers|
    decreases k, 0
  {
    if k == 0 then None else Some(Began(env, started, interval, k - 1))
  }

  function Ended(env: Environment, started: real, interval: real, k: nat): real
    requires k <= |env.answers|
    decreases k, 0
  {
    if k == 0 then started
    else Began(env, started, interval, k - 1) + env.answers[k - 1].consume + env.answers[k - 1].finish
  }

  function ResultOf(w: Answers): seq<Ingest> { if w.result.None? then [] else w.result.value }

  /** The receipts of the first n events. */
  function Results(env: Environment, n: nat): seq<seq<Ingest>>
    requires n <= |env.answers|
  {
    seq(n, i requires 0 <= i < n => ResultOf(env.answers[i]))
  }

  /** The waiting time does not fit under the wall cap, or the dispatch would start beyond it. */
  predicate NoTime(clock: real, last: Option<real>, started: real, limits: Limits, w: Answers) {
    var delay := Delay(clock + w.poll, last, Interval(limits.rate));
    || (delay > 0.0 && clock + w.poll - started + delay >= limits.wallTime as real)
    || StartsAt(clock, last, Interval(limits.rate), w) - started >= limits.wallTime as real
  }

  /** The event leaves no result, leaves it beyond the wall cap, or its receipts fail or exceed a cap. */
  ghost predicate Unaccountable(
      clock: real, last: Option<real>, started: real, limits: Limits, sum: Totals, w: Answers)
  {
    || w.result.None?
    || EndsAt(clock, last, Interval(limits.rate), w) - started >= limits.wallTime as real
    || !EventReconciled(w.result.value) || SumProposals(w.result.value) > limits.proposalsPerEvent
    || sum.proposals + SumProposals(w.result.value) > limits.proposals
    || sum.spend + SumActual(w.result.value) > limits.spend
  }

  /** Nothing in the environment stops the run: fences, results, caps and the time of the whole. */
  ghost predicate Completes(env: Environment, started: real, events: seq<nat>, phases: seq<nat>, limits: Limits)
    requires |env.answers| == |events|
  {
    && RampOk(phases, |events|) && limits.rate > 0 && limits.wallTime > 0
    && (forall k :: 0 <= k < |events| && k in PhaseStarts(phases) ==> env.answers[k].fence) && env.lastFence
    && (forall k :: 0 <= k < |events| ==> Delivers(env.answers[k], limits))
    && TotalProposals(Results(env, |events|)) <= limits.proposals && TotalActual(Results(env, |events|)) <= limits.spend
    && Ended(env, started, Interval(limits.rate), |events|) + env.lastPoll - started < limits.wallTime as real
  }

  /** The event by itself is delivered with reconciled receipts within its own cap. */
  ghost predicate Delivers(w: Answers, limits: Limits) {
    w.result.Some? && EventReconciled(w.result.value) && SumProposals(w.result.value) <= limits.proposalsPerEvent
  }

  lemma {:induction false} EndedGrows(env: Environment, started: real, interval: real, k: nat, n: nat)
    requires k <= n <= |env.answers|
    ensures Ended(env, started, interval, k) <= Ended(env, started, interval, n)
    decreases n
  {
    if k < n { EndedGrows(env, started, interval, k, n - 1); }
  }

  lemma {:induction false} TotalsGrow(env: Environment, k: nat, n: nat)
    requires k <= n <= |env.answers|
    ensures TotalProposals(Results(env, k)) <= TotalProposals(Results(env, n))
    ensures TotalActual(Results(env, k)) <= TotalActual(Results(env, n))
    decreases n
  {
    if k < n {
      TotalsGrow(env, k, n - 1);
      ResultsNext(env, n - 1);
    }
  }

  lemma ResultsNext(env: Environment, k: nat)
    requires k < |env.answers|
    ensures Results(env, k + 1) == Results(env, k) + [ResultOf(env.answers[k])]
    ensures TotalProposals(Results(env, k + 1)) == TotalProposals(Results(env, k)) + SumProposals(ResultOf(env.answers[k]))
    ensures TotalActual(Results(env, k + 1)) == TotalActual(Results(env, k)) + SumActual(ResultOf(env.answers[k]))
  {
    assert Results(env, k + 1)[..k] == Results(env, k);
  }

  /** An iteration that stops is one the run cannot complete with. */
  lemma StopsRun(
      env: Environment, started: real, events: seq<nat>, phases: seq<nat>, limits: Limits, k: nat, sum: Totals)
    requires |env.answers| == |events| && k < |events|
    requires sum.proposals == TotalProposals(Results(env, k)) && sum.spend == TotalActual(Results(env, k))
    requires var clock, last, w := Ended(env, started, Interval(limits.rate), k),
                                   LastBegan(env, started, Interval(limits.rate), k), env.answers[k];
             || (k in PhaseStarts(phases) && !w.fence)
             || NoTime(clock, last, started, limits, w) || Unaccountable(clock, last, started, limits, sum, w)
    ensures !Completes(env, started, events, phases, limits)
  {
    hide Interval, EventReconciled, RampOk, PhaseStarts, Results, TotalProposals, TotalActual;
    EndedGrows(env, started, Interval(limits.rate), k + 1, |events|);
    TotalsGrow(env, k + 1, |events|);
    ResultsNext(env, k);
  }

  // ----- the loop

  /** How far a stopped run got into the iteration after its completed events. */
  ghost predicate Pending(
      log: seq<Entry>, events: seq<nat>, phases: seq<nat>, times: seq<real>, completed: nat)
    requires completed <= |events|
  {
    || (log == [] && |times| == completed)
    || (completed < |events| && log == FenceAt(phases, completed) && |times| == completed)
    || (completed < |events| && |times| == completed + 1
        && log == FenceAt(phases, completed) + [Started(events[completed], times[completed])])
    || (completed == |events| && log == [AdmissionFenced] && |times| == completed)
  }

  class Worker {
    var clock: real
    var log: seq<Entry>

    constructor ()
      ensures log == []
    {
      clock, log := 0.0, [];
    }

    method Monotonic(passed: Duration) returns (t: real)
      modifies this`clock
      ensures t == clock == old(clock) + passed
    {
      clock := clock + passed;
      t := clock;
    }

    method Sleep(delay: real, oversleep: Duration)
      modifies this`clock
      ensures clock == old(clock) + delay + oversleep
    {
      clock := clock + delay + oversleep;
    }

    /** Waits out the minimum interval and reads the start time of the next dispatch. */
    method Pace(last: Option<real>, started: real, limits: Limits, w: Answers) returns (at: Option<real>)
      requires started <= clock && (last.Some? ==> last.value <= clock)
      modifies this`clock
      ensures clock >= old(clock)
      ensures at.None? <==> NoTime(old(clock), last, started, limits, w)
      ensures at.Some? ==>
                && at.value == clock == StartsAt(old(clock), last, Interval(limits.rate), w)
                && clock < started + limits.wallTime as real
                && (last.Some? ==> at.value - last.value >= Interval(limits.rate))
    {
      var now := Monotonic(w.poll);
      if last.Some? && now - last.value < Interval(limits.rate) {
        var delay := Interval(limits.rate) - (now - last.value);
        if now - started + delay >= limits.wallTime as real { return None; }
        Sleep(delay, w.oversleep);
      }
      var start := Monotonic(w.start);
      if start - started >= limits.wallTime as real { return None; }
      at := Some(start);
    }

    /**
     * One iteration: fence where a phase begins, pace, dispatch, and account for the receipts. It stops
     * exactly when a fence refuses, there is no time, or the event cannot be accounted for.
     */
    method Iterate(
        event: nat, phases: seq<nat>, k: nat, last: Option<real>, started: real, limits: Limits,
        sum: Totals, ghost receipts: seq<seq<Ingest>>, w: Answers)
      returns (at: Option<real>, next: Option<Totals>)
      requires started <= clock && (last.Some? ==> last.value <= clock)
      requires Accounts(sum, receipts, limits)
      modifies this
      ensures clock >= old(clock)
      ensures at.None? <==> (k in PhaseStarts(phases) && !w.fence) || NoTime(old(clock), last, started, limits, w)
      ensures at.Some? ==>
                && at.value == StartsAt(old(clock), last, Interval(limits.rate), w) < started + limits.wallTime as real
                && started <= at.value <= clock && (last.Some? ==> at.value - last.value >= Interval(limits.rate))
      ensures next.None? <==> at.None? || Unaccountable(old(clock), last, started, limits, sum, w)
      ensures next.Some? ==>
                && w.result.Some? && Accounts(next.value, receipts + [w.result.value], limits)
                && clock == EndsAt(old(clock), last, Interval(limits.rate), w)
      ensures at.None? ==> log == old(log) + FenceAt(phases, k)
      ensures at.Some? && next.None? ==> log == old(log) + (FenceAt(phases, k) + [Started(event, at.value)])
      ensures next.Some? ==>
                log == old(log) + (FenceAt(phases, k) + [Started(event, at.value)] + CheckpointAt(phases, k + 1))
    {
      hide Interval, NoTime, StartsAt, Accounts, EventReconciled, SumProposals, SumActual, PhaseStarts;
      at, next := None, None;
      if k in PhaseStarts(phases) {
        log := log + [Fenced(k)];
        if !w.fence { return; }
      }
      at := Pace(last, started, limits, w);
      if at.None? { return; }
      log := log + [Started(event, at.value)];
      var ended := Monotonic(w.consume + w.finish);
      if w.result.None? || ended - started >= limits.wallTime as real { return; }
      next := Account(sum, receipts, w.result.value, limits);
      if next.None? { return; }
      if k + 1 in phases { log := log + [Checkpoint(k + 1)]; }
    }

    /** The campaign loop; `totals` is None exactly when some stop condition is met. */
    method RunCampaign(events: seq<nat>, phases: seq<nat>, limits: Limits, env: Environment)
      returns (totals: Option<Totals>, started: real, times: seq<real>, ghost receipts: seq<seq<Ingest>>)
      requires |env.answers| == |events|
      modifies this
      ensures started == old(clock) + env.first
      ensures totals.Some? <==> Completes(env, started, events, phases, limits)
      ensures |receipts| <= |times| <= |events| && Paced(times, started, limits)
      ensures forall i :: 0 <= i < |times| ==> times[i] == Began(env, started, Interval(limits.rate), i)
      ensures receipts == Results(env, |receipts|)
      ensures totals.Some? ==>
                && |times| == |receipts| == |events|
                && log == old(log) + Trace(events, phases, times, |events|) + [AdmissionFenced]
                && Accounts(totals.value, receipts, limits)
      ensures totals.None? ==> Stopped(old(log), log, events, phases, times, |receipts|)
    {
      hide NoTime, Unaccountable, Completes, StartsAt, Delivers, TotalProposals, TotalActual, TotalReserved, Trace, Pending;
      totals, times, receipts := None, [], [];
      started := Monotonic(env.first);
      var ok := ValidateRamp(phases, |events|);
      if !ok || limits.rate == 0 || limits.wallTime == 0 {
        NeverStarts(env, started, log, events, phases, limits);
        return;
      }
      var sum := Totals(0, 0, 0, 0);
      ghost var interval := Interval(limits.rate);
      Starts(env, started, events, phases, limits);
      hide Accounts, Paced, Stopped, RampOk, FenceAt, CheckpointAt, Interval, Results, PhaseStarts, Ended, Began;
      for k := 0 to |events|
        invariant |times| == k && OnSchedule(env, started, phases, limits, k, clock, times, receipts, sum)
        invariant log == old(log) + Trace(events, phases, times, k)
      {
        hide Accounts, Paced, Stopped, RampOk, FenceAt, CheckpointAt, Trace, Interval, NoTime, Unaccountable, Completes,
             Results, PhaseStarts, StartsAt, Pending, OnSchedule, Ended, Began;
        var last := if k == 0 then None else Some(times[k - 1]);
        ghost var before, earlier, begun := log, times, clock;
        ScheduleNow(env, started, phases, limits, k, clock, times, receipts, sum);
        var at, next := Iterate(events[k], phases, k, last, started, limits, sum, receipts, env.answers[k]);
        if at.None? {
          StopsRun(env, started, events, phases, limits, k, sum);
          StoppedAt(old(log), log, events, phases, times, k, FenceAt(phases, k));
          return;
        }
        ScheduleNext(env, started, phases, limits, k, begun, times, receipts, sum, at.value, next, clock);
        times := times + [at.value];
        TraceStable(events, phases, earlier, times, k);
        if next.None? {
          StopsRun(env, started, events, phases, limits, k, sum);
          StoppedAt(old(log), log, events, phases, times, k, FenceAt(phases, k) + [Started(events[k], times[k])]);
          return;
        }
        TraceNext(events, phases, times, k, old(log), before, log);
        sum, receipts := next.value, receipts + [env.answers[k].result.value];
      }
      ScheduleNow(env, started, phases, limits, |events|, clock, times, receipts, sum);
      log := log + [AdmissionFenced];
      var now := Monotonic(env.lastPoll);
      Finishes(env, started, events, phases, limits);
      if !env.lastFence || now - started >= limits.wallTime as real {
        StoppedAt(old(log), log, events, phases, times, |events|, [AdmissionFenced]);
        return;
      }
      totals := Some(sum);
    }
  }

  lemma AccountableDelivers(
      clock: real, last: Option<real>, started: real, limits: Limits, sum: Totals, w: Answers)
    requires !Unaccountable(clock, last, started, limits, sum, w)
    ensures Delivers(w, limits)
  {
  }

  /** The run so far: on the ideal schedule, accounted for, and refused nothing. */
  ghost predicate OnSchedule(
      env: Environment, started: real, phases: seq<nat>, limits: Limits, k: nat, clock: real, times: seq<real>,
      receipts: seq<seq<Ingest>>, sum: Totals)
  {
    && |times| == |receipts| == k <= |env.answers| && clock == Ended(env, started, Interval(limits.rate), k)
    && (forall i :: 0 <= i < k ==> times[i] == Began(env, started, Interval(limits.rate), i))
    && receipts == Results(env, k) && Paced(times, started, limits) && Accounts(sum, receipts, limits)
    && (forall i :: 0 <= i < k && i in PhaseStarts(phases) ==> env.answers[i].fence)
    && forall i :: 0 <= i < k ==> Delivers(env.answers[i], limits)
  }

  /** What the next iteration may rely on. */
  lemma ScheduleNow(
      env: Environment, started: real, phases: seq<nat>, limits: Limits, k: nat, clock: real, times: seq<real>,
      receipts: seq<seq<Ingest>>, sum: Totals)
    requires OnSchedule(env, started, phases, limits, k, clock, times, receipts, sum)
    ensures |times| == |receipts| == k && started <= clock && (k > 0 ==> times[k - 1] <= clock)
    ensures clock == Ended(env, started, Interval(limits.rate), k)
    ensures LastBegan(env, started, Interval(limits.rate), k) == if k == 0 then None else Some(times[k - 1])
    ensures forall i :: 0 <= i < k ==> times[i] == Began(env, started, Interval(limits.rate), i)
    ensures receipts == Results(env, k) && Paced(times, started, limits) && Accounts(sum, receipts, limits)
    ensures sum.proposals == TotalProposals(Results(env, k)) <= limits.proposals
    ensures sum.spend == TotalActual(Results(env, k)) <= limits.spend
    ensures forall i :: 0 <= i < k && i in PhaseStarts(phases) ==> env.answers[i].fence
    ensures forall i :: 0 <= i < k ==> Delivers(env.answers[i], limits)
  {
    hide Interval, Paced, PhaseStarts, TotalProposals, TotalActual, Results, StartsAt, Delivers;
    EndedGrows(env, started, Interval(limits.rate), 0, k);
  }

  /** One more dispatch on schedule; and one more event, if it was accounted for. */
  lemma ScheduleNext(
      env: Environment, started: real, phases: seq<nat>, limits: Limits, k: nat, clock: real, times: seq<real>,
      receipts: seq<seq<Ingest>>, sum: Totals, at: real, next: Option<Totals>, clock': real)
    requires OnSchedule(env, started, phases, limits, k, clock, times, receipts, sum) && k < |env.answers|
    requires k in PhaseStarts(phases) ==> env.answers[k].fence
    requires var last, w := LastBegan(env, started, Interval(limits.rate), k), env.answers[k];
             && at == StartsAt(clock, last, Interval(limits.rate), w) && started <= at < started + limits.wallTime as real
             && (last.Some? ==> at - last.value >= Interval(limits.rate))
             && (next.Some? ==>
                   && !Unaccountable(clock, last, started, limits, sum, w) && w.result.Some?
                   && Accounts(next.value, receipts + [w.result.value], limits)
                   && clock' == EndsAt(clock, last, Interval(limits.rate), w))
    ensures Paced(times + [at], started, limits)
    ensures forall i :: 0 <= i <= k ==> (times + [at])[i] == Began(env, started, Interval(limits.rate), i)
    ensures next.Some? ==>
              OnSchedule(env, started, phases, limits, k + 1, clock', times + [at],
                         receipts + [env.answers[k].result.value], next.value)
  {
    hide Interval, Paced, PhaseStarts, Results, StartsAt, Accounts, Unaccountable, Delivers;
    PacedAppend(times, at, started, limits);
    ResultsNext(env, k);
    assert Began(env, started, Interval(limits.rate), k) == at;
    if next.Some? {
      assert Ended(env, started, Interval(limits.rate), k + 1) == at + env.answers[k].consume + env.answers[k].finish;
      AccountableDelivers(clock, LastBegan(env, started, Interval(limits.rate), k), started, limits, sum, env.answers[k]);
    }
  }

  lemma NeverStarts(
      env: Environment, started: real, log: seq<Entry>, events: seq<nat>, phases: seq<nat>, limits: Limits)
    requires |env.answers| == |events| && (!RampOk(phases, |events|) || limits.rate == 0 || limits.wallTime == 0)
    ensures !Completes(env, started, events, phases, limits) && Stopped(log, log, events, phases, [], 0)
    ensures Paced([], started, limits) && Results(env, 0) == []
  {
    StoppedAt(log, log, events, phases, [], 0, []);
  }

  lemma Starts(env: Environment, started: real, events: seq<nat>, phases: seq<nat>, limits: Limits)
    requires |env.answers| == |events|
    ensures Accounts(Totals(0, 0, 0, 0), [], limits) && Paced([], started, limits) && Results(env, 0) == []
    ensures Trace(events, phases, [], 0) == []
    ensures OnSchedule(env, started, phases, limits, 0, started, [], [], Totals(0, 0, 0, 0))
  {
  }

  /** After the last event only the last fence and the time decide. */
  lemma Finishes(env: Environment, started: real, events: seq<nat>, phases: seq<nat>, limits: Limits)
    requires |env.answers| == |events| && RampOk(phases, |events|) && limits.rate > 0 && limits.wallTime > 0
    requires forall k :: 0 <= k < |events| && k in PhaseStarts(phases) ==> env.answers[k].fence
    requires forall k :: 0 <= k < |events| ==> Delivers(env.answers[k], limits)
    requires TotalProposals(Results(env, |events|)) <= limits.proposals
    requires TotalActual(Results(env, |events|)) <= limits.spend
    ensures Completes(env, started, events, phases, limits) <==>
            && env.lastFence
            && Ended(env, started, Interval(limits.rate), |events|) + env.lastPoll - started < limits.wallTime as real
  {
  }

  /** A run that stopped after some completed events, somewhere inside the next iteration. */
  ghost predicate Stopped(
      base: seq<Entry>, log: seq<Entry>, events: seq<nat>, phases: seq<nat>, times: seq<real>, completed: nat)
    requires completed <= |events| && completed <= |times|
  {
    exists pending :: Pending(pending, events, phases, times, completed)
                      && log == base + Trace(events, phases, times, completed) + pending
  }

  lemma StoppedAt(
      base: seq<Entry>, log: seq<Entry>, events: seq<nat>, phases: seq<nat>, times: seq<real>, completed: nat,
      pending: seq<Entry>)
    requires completed <= |events| && completed <= |times| && Pending(pending, events, phases, times, completed)
    requires log == (base + Trace(events, phases, times, completed)) + pending
    ensures Stopped(base, log, events, phases, times, completed)
  {
  }

  /** What one whole iteration appends to the log. */
  lemma TraceNext(
      events: seq<nat>, phases: seq<nat>, times: seq<real>, k: nat, base: seq<Entry>, before: seq<Entry>, after: seq<Entry>)
    requires k < |events| && k < |times| && before == base + Trace(events, phases, times, k)
    requires after == before + (FenceAt(phases, k) + [Started(events[k], times[k])] + CheckpointAt(phases, k + 1))
    ensures after == base + Trace(events, phases, times, k + 1)
  {
    var it := FenceAt(phases, k) + [Started(events[k], times[k])] + CheckpointAt(phases, k + 1);
    assert Trace(events, phases, times, k + 1) == Trace(events, phases, times, k) + it;
    hide FenceAt, CheckpointAt, Trace;
    assert (base + Trace(events, phases, times, k)) + it == base + (Trace(events, phases, times, k) + it);
  }

  lemma PacedAppend(times: seq<real>, t: real, started: real, limits: Limits)
    requires Paced(times, started, limits) && started <= t < started + limits.wallTime as real
    requires times != [] ==> t - times[|times| - 1] >= Interval(limits.rate)
    ensures Paced(times + [t], started, limits)
  {
    var more := times + [t];
    forall i | 0 <= i < |more| - 1 ensures more[i + 1] - more[i] >= Interval(limits.rate) {
      if i < |times| - 1 { assert times[i + 1] - times[i] >= Interval(limits.rate); }
    }
  }

  /** The trace of the first events does not depend on later times. */
  lemma {:induction false} TraceStable(events: seq<nat>, phases: seq<nat>, times: seq<real>, more: seq<real>, n: nat)
    requires n <= |events| && n <= |times| && times <= more
    ensures Trace(events, phases, more, n) == Trace(events, phases, times, n)
    decreases n
  {
    hide FenceAt, CheckpointAt;
    if n > 0 {
      TraceStable(events, phases, times, more, n - 1);
      assert more[n - 1] == times[n - 1];
    }
  }
}
