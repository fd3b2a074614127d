/**
 * The open-time validators as the loops that run, what a passing chain means as a whole, and why they
 * accept every store that commits built.
 */
module CheckValidators {
  import opened Common
  import opened CheckModel
  import opened CheckHistory
  import opened CheckEvidence
  import opened CheckCommit
  import opened CheckIntegrity
  import opened CheckRuns
  import opened CheckMeaning

  // ----- attempt chains: the whole chain from its links

  lemma {:induction false} ChainHolds(attempts: seq<AttemptRow>, request: nat, a: AttemptRow)
    ensures a in AttemptChain(attempts, request) <==> a in attempts && a.request == request
  {
    if attempts != [] { ChainHolds(attempts[..|attempts| - 1], request, a); }
  }

  /** The Outcome of an attempt, if it has one, does not complete before the attempt starts. */
  predicate IntervalOk(s: Store, a: AttemptRow) {
    var o := OutcomeOfAttempt(s, a.id);
    o.Some? ==> a.startedAt <= o.value.completedAt
  }

  /** The earlier attempt has an Outcome, and its whole interval ends before the later one starts. */
  predicate EndsBefore(s: Store, a: AttemptRow, b: AttemptRow) {
    var o := OutcomeOfAttempt(s, a.id);
    o.Some? && a.startedAt <= o.value.completedAt <= b.startedAt
  }

  lemma {:induction false} LinksOrder(s: Store, chain: seq<AttemptRow>, i: nat, j: nat)
    requires ChainOk(s, chain) && i < j < |chain|
    requires forall a :: a in chain ==> IntervalOk(s, a)
    ensures EndsBefore(s, chain[i], chain[j])
    decreases j
  {
    assert LinkOk(s, chain, j);
    assert IntervalOk(s, chain[j - 1]);
    if i < j - 1 { LinksOrder(s, chain, i, j - 1); }
  }

  /**
   * Any two attempts of one Request are numbered by their place in the chain, and the start-to-completion
   * interval of the earlier one ends before the later one starts.
   */
  lemma IntervalsOrdered(s: Store, request: nat, i: nat, j: nat)
    requires Inv(s) && i < j < |AttemptChain(s.attempts, request)|
    ensures var chain := AttemptChain(s.attempts, request);
            chain[i].number == i + 1 && chain[j].number == j + 1 && EndsBefore(s, chain[i], chain[j])
  {
    var chain := AttemptChain(s.attempts, request);
    assert ChainOk(s, chain);
    assert LinkOk(s, chain, i) && LinkOk(s, chain, j);
    forall a | a in chain ensures IntervalOk(s, a) { AttemptInterval(s, a, request); }
    LinksOrder(s, chain, i, j);
  }

  lemma AttemptInterval(s: Store, a: AttemptRow, request: nat)
    requires RecordsOk(s) && UniqueKeys(s.attempts, AttemptKey) && a in AttemptChain(s.attempts, request)
    ensures IntervalOk(s, a)
  {
    ChainHolds(s.attempts, request, a);
    FindUnique(s.attempts, AttemptKey, a);
    var o := OutcomeOfAttempt(s, a.id);
    if o.Some? { assert OutcomeOk(s, o.value); }
  }

  /** Only the last attempt of a Request may be waiting for its Outcome, and the chain is complete. */
  lemma ChainIsGapFree(s: Store, a: AttemptRow)
    requires Inv(s) && a in s.attempts
    ensures var chain := AttemptChain(s.attempts, a.request);
            && 1 <= a.number <= |chain| && chain[a.number - 1] == a
            && (OutcomeOfAttempt(s, a.id).None? ==> a.number == |chain|)
  {
    hide RecordsOk, KeysOk, SourcesOk, BaselineHeadsOk, CoverageOk;
    var chain := AttemptChain(s.attempts, a.request);
    ChainHolds(s.attempts, a.request, a);
    var i :| 0 <= i < |chain| && chain[i] == a;
    assert ChainOk(s, chain);
    assert LinkOk(s, chain, i);
    if i < |chain| - 1 { IntervalsOrdered(s, a.request, i, i + 1); }
  }

  // ----- lineage of findings

  /** Whatever a finding cites, it is one Request, one of its attempts and that attempt's Outcome. */
  lemma LineageIsOneChain(s: Store, scope: Scope, l: Lineage)
    requires Inv(s) && LineageErrorOf(s, scope, l).None?
    ensures Cite(s, l).Ok?
    ensures var c := Cite(s, l).value;
            && Request(s, c.request.id) == Some(c.request)
            && (c.attempt.Some? ==> c.attempt.value.request == c.request.id)
            && (c.outcome.Some? ==>
                  && c.attempt.Some? && c.outcome.value.attempt == c.attempt.value.id
                  && c.outcome.value.request == c.request.id && c.outcome.value.completedAt == l.observedAt)
            && (c.outcome.None? && c.attempt.Some? ==> c.attempt.value.startedAt <= l.observedAt)
  {
    hide CoverageOk, SourcesOk, AttemptChainsOk, BaselineHeadsOk;
    var c := Cite(s, l).value;
    if c.outcome.Some? {
      assert OutcomeOk(s, c.outcome.value);
    }
  }

  // ----- the attempt-chain validator

  /** Whether the row after a prefix of the scan continues its Request's chain. */
  predicate RowContinues(s: Store, done: seq<AttemptRow>, a: AttemptRow) {
    var chain := AttemptChain(done, a.request);
    LinkOk(s, chain + [a], |chain|)
  }

  lemma ChainsExtend(s: Store, done: seq<AttemptRow>, a: AttemptRow)
    requires forall r :: ChainOk(s, AttemptChain(done, r))
    ensures (forall r :: ChainOk(s, AttemptChain(done + [a], r))) <==> RowContinues(s, done, a)
  {
    ChainAppend(done, a, a.request);
    var chain := AttemptChain(done, a.request);
    if RowContinues(s, done, a) {
      forall r ensures ChainOk(s, AttemptChain(done + [a], r)) {
        assert ChainOk(s, AttemptChain(done, r));
        ChainAppend(done, a, r);
        if r == a.request {
          forall i | 0 <= i < |chain + [a]| ensures LinkOk(s, chain + [a], i) {
            if i < |chain| { assert LinkOk(s, chain, i); }
          }
        } else {
          assert AttemptChain(done + [a], r) == AttemptChain(done, r);
        }
      }
    } else {
      assert !LinkOk(s, AttemptChain(done + [a], a.request), |chain|);
      assert !ChainOk(s, AttemptChain(done + [a], a.request));
    }
  }

  lemma {:induction false} ChainPrefix(done: seq<AttemptRow>, rest: seq<AttemptRow>, request: nat)
    ensures AttemptChain(done, request) <= AttemptChain(done + rest, request)
  {
    if rest == [] {
      assert done + rest == done;
    } else {
      ChainPrefix(done, rest[..|rest| - 1], request);
      assert done + rest == (done + rest[..|rest| - 1]) + [rest[|rest| - 1]];
      ChainAppend(done + rest[..|rest| - 1], rest[|rest| - 1], request);
    }
  }

  /** A link depends only on the chain up to it. */
  lemma LinkLocal(s: Store, chain: seq<AttemptRow>, longer: seq<AttemptRow>, i: nat)
    requires chain <= longer && i < |chain|
    ensures LinkOk(s, longer, i) <==> LinkOk(s, chain, i)
  {
    assert longer[i] == chain[i] && (i > 0 ==> longer[i - 1] == chain[i - 1]);
  }

  lemma SplitAt(rows: seq<AttemptRow>, k: nat)
    requires k < |rows|
    ensures rows == (rows[..k] + [rows[k]]) + rows[k + 1..]
  {
  }

  lemma BrokenStaysBroken(s: Store, rows: seq<AttemptRow>, k: nat)
    requires k < |rows| && !RowContinues(s, rows[..k], rows[k])
    ensures !forall r :: ChainOk(s, AttemptChain(rows, r))
  {
    var a := rows[k];
    var chain := AttemptChain(rows[..k], a.request);
    ChainAppend(rows[..k], a, a.request);
    hide LinkOk, AttemptChain;
    SplitAt(rows, k);
    ChainPrefix(rows[..k] + [a], rows[k + 1..], a.request);
    LinkLocal(s, chain + [a], AttemptChain(rows, a.request), |chain|);
    assert !ChainOk(s, AttemptChain(rows, a.request));
  }

  /** The scan keeps, for each Request, the number and identity of the last attempt it has seen. */
  method ValidateAttemptChains(s: Store, rows: seq<AttemptRow>) returns (ok: bool)
    requires forall a :: a in rows ==> Request(s, a.request).Some?
    ensures ok <==> forall r :: ChainOk(s, AttemptChain(rows, r))
  {
    var priorByRequest: map<nat, (nat, nat)> := map[];
    for k := 0 to |rows|
      invariant forall r :: ChainOk(s, AttemptChain(rows[..k], r))
      invariant forall r :: r in priorByRequest <==> AttemptChain(rows[..k], r) != []
      invariant forall r :: r in priorByRequest ==>
                  var chain := AttemptChain(rows[..k], r);
                  priorByRequest[r] == (chain[|chain| - 1].number, chain[|chain| - 1].id)
    {
      var a := rows[k];
      ghost var chain := AttemptChain(rows[..k], a.request);
      var previous := if a.request in priorByRequest then Some(priorByRequest[a.request]) else None;
      var expectedNumber := if previous.None? then 1 else previous.value.0 + 1;
      var expectedId := if previous.None? then None else Some(previous.value.1);
      assert chain != [] ==> chain[|chain| - 1].number == |chain| by {
        assert ChainOk(s, chain);
        if chain != [] { assert LinkOk(s, chain, |chain| - 1); }
      }
      assert a in rows;
      if a.number != expectedNumber || a.prior != expectedId
         || a.startedAt < Request(s, a.request).value.requestedAt
      {
        BrokenStaysBroken(s, rows, k);
        return false;
      }
      if previous.Some? {
        var priorOutcome := OutcomeOfAttempt(s, previous.value.1);
        if priorOutcome.None? || a.startedAt < priorOutcome.value.completedAt {
          BrokenStaysBroken(s, rows, k);
          return false;
        }
      }
      assert rows[..k + 1] == rows[..k] + [a];
      ChainsExtend(s, rows[..k], a);
      forall r ensures AttemptChain(rows[..k + 1], r) == AttemptChain(rows[..k], r) + (if a.request == r then [a] else []) {
        ChainAppend(rows[..k], a, r);
      }
      priorByRequest := priorByRequest[a.request := (a.number, a.id)];
    }
    assert rows[..|rows|] == rows;
    ok := true;
  }

  // ----- the rows the validator reads, ordered by (request, number)

  predicate OrderedByNumber(rows: seq<AttemptRow>) {
    forall i, j :: 0 <= i < j < |rows| && rows[i].request == rows[j].request ==> rows[i].number <= rows[j].number
  }

  lemma {:induction false} ChainCounts(attempts: seq<AttemptRow>, request: nat, a: AttemptRow)
    ensures multiset(AttemptChain(attempts, request))[a] == if a.request == request then multiset(attempts)[a] else 0
  {
    if attempts != [] {
      var front, last := attempts[..|attempts| - 1], attempts[|attempts| - 1];
      assert attempts == front + [last];
      ChainCounts(front, request, a);
    }
  }

  lemma {:induction false} ChainOrdered(rows: seq<AttemptRow>, request: nat)
    requires OrderedByNumber(rows)
    ensures OrderedByNumber(AttemptChain(rows, request))
  {
    if rows != [] {
      var front, last := rows[..|rows| - 1], rows[|rows| - 1];
      ChainOrdered(front, request);
      forall a | a in AttemptChain(front, request)
        ensures a.request == request ==> a.number <= last.number || last.request != request
      {
        ChainHolds(front, request, a);
      }
    }
  }

  lemma LastAgrees(chain: seq<AttemptRow>, other: seq<AttemptRow>, request: nat)
    requires Numbered(chain) && OrderedByNumber(other) && |chain| == |other| > 0
    requires chain[|chain| - 1] in other && other[|chain| - 1] in chain
    requires forall a :: a in chain ==> a.request == request
    ensures chain[|chain| - 1] == other[|chain| - 1]
  {
    var n := |chain| - 1;
    var j :| 0 <= j < |other| && other[j] == chain[n];
    var i :| 0 <= i < |chain| && chain[i] == other[n];
    if j < n { assert other[j].number <= other[n].number; }
  }

  /** A numbered chain is the only ordering of its attempts by number. */
  lemma {:induction false} NumberedIsOrder(chain: seq<AttemptRow>, other: seq<AttemptRow>, request: nat)
    requires Numbered(chain) && OrderedByNumber(other) && multiset(chain) == multiset(other)
    requires forall a :: a in chain ==> a.request == request
    ensures chain == other
  {
    PermutationEnds(chain, other);
    if chain != [] {
      var n := |chain| - 1;
      LastAgrees(chain, other, request);
      PermutationFronts(chain, other);
      NumberedIsOrder(chain[..n], other[..n], request);
    }
  }

  lemma PermutationEnds<T>(a: seq<T>, b: seq<T>)
    requires multiset(a) == multiset(b)
    ensures |a| == |b| && (a != [] ==> a[|a| - 1] in b && b[|a| - 1] in a)
  {
    assert |multiset(a)| == |a| && |multiset(b)| == |b|;
    if a != [] { assert a[|a| - 1] in multiset(b) && b[|a| - 1] in multiset(a); }
  }

  lemma PermutationFronts<T>(a: seq<T>, b: seq<T>)
    requires multiset(a) == multiset(b) && |a| == |b| > 0 && a[|a| - 1] == b[|b| - 1]
    ensures multiset(a[..|a| - 1]) == multiset(b[..|b| - 1])
  {
    assert a == a[..|a| - 1] + [a[|a| - 1]] && b == b[..|b| - 1] + [b[|b| - 1]];
    assert multiset(a[..|a| - 1]) == multiset(a) - multiset{a[|a| - 1]};
    assert multiset(b[..|b| - 1]) == multiset(b) - multiset{b[|b| - 1]};
  }

  /** In a store that commits built, the validator's ordered scan accepts. */
  lemma OrderedScanAccepts(s: Store, rows: seq<AttemptRow>)
    requires AttemptChainsOk(s) && OrderedByNumber(rows) && multiset(rows) == multiset(s.attempts)
    ensures forall r :: ChainOk(s, AttemptChain(rows, r))
  {
    forall r ensures ChainOk(s, AttemptChain(rows, r)) {
      var chain := AttemptChain(s.attempts, r);
      assert ChainOk(s, chain);
      assert Numbered(chain) by {
        forall i | 0 <= i < |chain| ensures chain[i].number == i + 1 { assert LinkOk(s, chain, i); }
      }
      ChainOrdered(rows, r);
      forall a ensures multiset(chain)[a] == multiset(AttemptChain(rows, r))[a] {
        ChainCounts(s.attempts, r, a);
        ChainCounts(rows, r, a);
      }
      assert multiset(chain) == multiset(AttemptChain(rows, r));
      forall a | a in chain ensures a.request == r { ChainHolds(s.attempts, r, a); }
      NumberedIsOrder(chain, AttemptChain(rows, r), r);
    }
  }

  // ----- the baseline-head validator

  /** What the validator demands: exact lineages and heads, and no head without its decision. */
  ghost predicate HeadsValid(s: Store) {
    && (forall d :: BaselineChain(s.baselines, d) != [] ==> LineageOk(BaselineChain(s.baselines, d)) && HeadOk(s, d))
    && forall d :: d in s.heads ==> Find(s.baselines, BaselineKey, s.heads[d].current).Some?
  }

  method ValidateLineage(chain: seq<BaselineRow>) returns (ok: bool)
    ensures ok <==> LineageOk(chain)
  {
    var prior: Option<nat> := None;
    for i := 0 to |chain|
      invariant forall j :: 0 <= j < i ==> LineageLinkOk(chain, j)
      invariant prior == if i == 0 then None else Some(chain[i - 1].id)
    {
      if i == 0 {
        if !chain[i].kind.Establish? || chain[i].previous.Some? { assert !LineageLinkOk(chain, i); return false; }
      } else if chain[i].previous != prior || chain[i].kind.Establish? {
        assert !LineageLinkOk(chain, i);
        return false;
      }
      prior := Some(chain[i].id);
    }
    ok := true;
  }

  lemma {:induction false} BaselineChainHolds(bs: seq<BaselineRow>, definition: nat, b: BaselineRow)
    ensures b in BaselineChain(bs, definition) <==> b in bs && b.definition == definition
  {
    if bs != [] { BaselineChainHolds(bs[..|bs| - 1], definition, b); }
  }

  method ValidateBaselineHeads(s: Store) returns (ok: bool)
    ensures ok <==> HeadsValid(s)
  {
    var definitions := set b | b in s.baselines :: b.definition;
    ghost var done: set<nat> := {};
    while definitions != {}
      invariant forall d :: d in done ==> LineageOk(BaselineChain(s.baselines, d)) && HeadOk(s, d)
      invariant forall b :: b in s.baselines ==> b.definition in done || b.definition in definitions
      invariant forall d :: d in definitions ==> exists b :: b in s.baselines && b.definition == d
      decreases |definitions|
    {
      var d :| d in definitions;
      var chain := BaselineChain(s.baselines, d);
      assert chain != [] by {
        var b :| b in s.baselines && b.definition == d;
        BaselineChainHolds(s.baselines, d, b);
      }
      var lineage := ValidateLineage(chain);
      if !lineage { return false; }
      var last := chain[|chain| - 1];
      if d !in s.heads || s.heads[d].current != last.id || s.heads[d].updatedAt != last.decidedAt {
        assert !HeadOk(s, d);
        return false;
      }
      definitions := definitions - {d};
      done := done + {d};
    }
    forall d | BaselineChain(s.baselines, d) != [] ensures d in done {
      BaselineChainHolds(s.baselines, d, BaselineChain(s.baselines, d)[0]);
    }
    ok := forall d :: d in s.heads.Keys ==> Find(s.baselines, BaselineKey, s.heads[d].current).Some?;
  }

  /** A store that commits built has linear baselines whose heads are their last decisions: accepted. */
  lemma HeadsAccepted(s: Store)
    requires BaselineHeadsOk(s)
    ensures HeadsValid(s)
  {
    forall d | d in s.heads ensures Find(s.baselines, BaselineKey, s.heads[d].current).Some? {
      var chain := BaselineChain(s.baselines, d);
      assert HeadOk(s, d);
      BaselineChainHolds(s.baselines, d, chain[|chain| - 1]);
    }
  }

  // ----- event coverage

  /** The validator compares the set of a table's event positions with the ledger's events of its kind. */
  method ValidateCoverage(positions: seq<nat>, ledger: seq<EventKind>, k: EventKind) returns (ok: bool)
    ensures ok <==> (set p | p in positions) == (set p | p in PositionsOf(ledger, k))
  {
    var events: set<nat> := {};
    for i := 0 to |ledger|
      invariant events == set p | p in PositionsOf(ledger[..i], k)
    {
      if ledger[i] == k { events := events + {i + 1}; }
      assert ledger[..i + 1] == ledger[..i] + [ledger[i]];
      PositionsAppend(ledger[..i], ledger[i], k);
    }
    assert ledger[..|ledger|] == ledger;
    var rows: set<nat> := {};
    for i := 0 to |positions|
      invariant rows == set p | p in positions[..i]
    {
      rows := rows + {positions[i]};
      assert positions[..i + 1] == positions[..i] + [positions[i]];
    }
    assert positions[..|positions|] == positions;
    ok := events == rows;
  }

  // ----- the confirmation loop of the transition evidence

  /** The scan over a guard's confirmations, which also learns whether the current Outcome is complete. */
  method CheckConfirmations(s: Store, t: TransitionRow, contract: SnapshotContract, cs: seq<Confirmation>)
    returns (e: Option<EvidenceError>, currentComplete: bool)
    ensures e == ConfirmationsError(s, t, contract, cs, {})
    ensures e.None? ==> (currentComplete <==> exists i :: 0 <= i < |cs| && cs[i].outcome == t.outcome
                                                && Outcome(s, t.outcome).Some?
                                                && CompleteOutcome(Outcome(s, t.outcome).value))
  {
    var requestIds: set<nat> := {};
    currentComplete := false;
    for i := 0 to |cs|
      invariant ConfirmationsError(s, t, contract, cs, {}) == ConfirmationsError(s, t, contract, cs[i..], requestIds)
      invariant currentComplete <==> exists j :: 0 <= j < i && cs[j].outcome == t.outcome
                                       && Outcome(s, t.outcome).Some? && CompleteOutcome(Outcome(s, t.outcome).value)
    {
      assert cs[i..][0] == cs[i] && cs[i..][1..] == cs[i + 1..];
      e := ConfirmationError(s, t, contract, cs[i], requestIds);
      if e.Some? { return e, false; }
      requestIds := requestIds + {cs[i].request};
      if cs[i].outcome == t.outcome && CompleteOutcome(Outcome(s, cs[i].outcome).value) { currentComplete := true; }
    }
    assert cs[|cs|..] == [];
    e := None;
  }

  /** The whole order-independent evidence check of a transition on its retained Outcome. */
  method CheckTransitionEvidence(s: Store, t: TransitionRow, o: OutcomeRow) returns (e: Option<EvidenceError>)
    requires Outcome(s, t.outcome) == Some(o)
    ensures e == UnorderedError(s, t, o)
    ensures e.None? <==> EvidenceStands(s, t, o)
  {
    UnorderedMeans(s, t, o);
    hide EvidenceStands, ConfirmationsError;
    if o.completedAt != t.observedAt { return Some(ObservationTimeDiffers); }
    if t.current.Some? && !HasOccurrence(s, t, t.current.value) { return Some(LacksOccurrence); }
    if t.guardEvidence.Unguarded? { return None; }
    var cs, own := t.guardEvidence.confirmations, Request(s, o.request);
    if own.None? { return Some(UnretainedConfirmation); }
    if cs == [] { return Some(NoConfirmations); }
    if forall i :: 0 <= i < |cs| ==> cs[i].outcome != t.outcome { return Some(CurrentNotConfirmed); }
    var complete: bool;
    e, complete := CheckConfirmations(s, t, own.value.snapshot, cs);
    if e.Some? { return; }
    if t.guardEvidence.Absence? {
      if complete != t.guardEvidence.successfulComplete { return Some(CompletenessDiffers); }
    } else if own.value.trigger != PlannedWindow(t.guardEvidence.window) {
      return Some(AnotherWindow);
    }
  }
}
