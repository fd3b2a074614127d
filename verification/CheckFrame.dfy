/**
 * The exact frame of re-validation: which appends change the history verdict of a retained
 * Observable Transition, and which can never change it.
 */
module CheckFrame {
  import opened Common
  import opened CheckModel
  import opened CheckHistory
  import opened CheckEvidence
  import opened CheckCommit
  import opened CheckIntegrity
  import opened CheckRuns

  function CurrentBoundary(s: Store, t: TransitionRow): Boundary
    requires Outcome(s, t.outcome).Some?
  {
    BoundaryOf(Outcome(s, t.outcome).value)
  }

  function PriorOf(s: Store, t: TransitionRow): Option<OutcomeRow>
    requires Outcome(s, t.outcome).Some?
  {
    PriorOutcome(s.outcomes, t.item, t.outcome, CurrentBoundary(s, t))
  }

  /** A backdated Outcome that observed the item and is later than its present prior Outcome. */
  predicate OutcomeDisturbs(s: Store, o: OutcomeRow, t: TransitionRow)
    requires Outcome(s, t.outcome).Some?
  {
    && Observes(o, t.item) && o.completedAt < CurrentBoundary(s, t).completedAt
    && (PriorOf(s, t).None? || PriorOf(s, t).value.completedAt <= o.completedAt)
  }

  /** A second Occurrence of the item on the prior Outcome. */
  predicate OccurrenceDisturbs(s: Store, d: OccurrenceRow, t: TransitionRow)
    requires Outcome(s, t.outcome).Some?
  {
    PriorOf(s, t).Some? && RetainedFor(s, d, PriorOf(s, t).value.id, t.item)
  }

  predicate BecomesLatest(s: Store, u: TransitionRow, t: TransitionRow)
    requires Outcome(s, t.outcome).Some?
  {
    var o := Outcome(s, u.outcome);
    var latest := LatestTransition(s, t.item, CurrentBoundary(s, t));
    && u.item == t.item && o.Some? && Precedes(o.value, CurrentBoundary(s, t))
    && (latest.None? || Older(latest.value.key, Key(o.value.completedAt, o.value.position, u.position)))
  }

  /** A transition that becomes the latest earlier one of the item and does not license this kind. */
  predicate TransitionDisturbs(s: Store, u: TransitionRow, t: TransitionRow)
    requires Outcome(s, t.outcome).Some?
  {
    BecomesLatest(s, u, t) && KindError(t.kind, Some(u.kind)).Some?
  }

  predicate Disturbs(s: Store, c: Command, t: TransitionRow)
    requires Outcome(s, t.outcome).Some?
  {
    match c
    case RecordOutcome(o) => OutcomeDisturbs(s, o, t)
    case RecordOccurrence(d) => OccurrenceDisturbs(s, d, t)
    case RecordTransition(u) => TransitionDisturbs(s, u, t)
    case _ => false
  }

  // ----- the facts the verdict depends on

  lemma OutcomePositionRetained(s: Store, o: OutcomeRow)
    requires CoverageOk(s) && o in s.outcomes
    ensures 1 <= o.position <= |s.ledger|
  {
    PositionRetained(s.outcomes, OutcomePosition, s.ledger, OutcomeRecorded, o);
  }

  lemma OutcomeOfTransition(s: Store, t: TransitionRow)
    requires RecordsOk(s) && t in s.transitions
    ensures Outcome(s, t.outcome).Some? && Outcome(s, t.outcome).value.id == t.outcome
  {
    assert TransitionRecordOk(s, t);
  }

  lemma LatestStable(s: Store, s': Store, item: ItemId, b: Boundary)
    requires RecordsOk(s) && Extends(s, s') && s'.transitions == s.transitions
    ensures LatestTransition(s', item, b) == LatestTransition(s, item, b)
  {
    forall t | t in s.transitions ensures Find(s.outcomes, OutcomeKey, t.outcome).Some? {
      OutcomeOfTransition(s, t);
    }
    TransitionCandidatesStable(s.outcomes, s'.outcomes, s.transitions, item, b);
  }

  lemma RetainedStable(s: Store, s': Store, outcome: nat, item: ItemId)
    requires RecordsOk(s) && Extends(s, s')
    ensures OccurrencesFor(s', s.occurrences, outcome, item) == OccurrencesFor(s, s.occurrences, outcome, item)
  {
    forall d | d in s.occurrences ensures Revision(s, d.revision).Some? { assert OccurrenceOk(s, d); }
    OccurrencesForStable(s, s', s.occurrences, outcome, item);
  }

  lemma {:induction false} NoneRetained(s: Store, ds: seq<OccurrenceRow>, outcome: nat, item: ItemId)
    requires forall d :: d in ds ==> d.outcome != outcome
    ensures OccurrencesFor(s, ds, outcome, item) == []
  {
    if ds != [] {
      NoneRetained(s, ds[..|ds| - 1], outcome, item);
      assert ds[|ds| - 1] in ds;
    }
  }

  // ----- one lemma for each kind of append: the history the store answers, then the verdict on it

  lemma HistoryAfterOutcome(s: Store, s': Store, o: OutcomeRow, t: TransitionRow)
    requires RecordsOk(s) && CoverageOk(s) && Extends(s, s') && t in s.transitions
    requires s'.outcomes == s.outcomes + [o] && Outcome(s, o.id).None? && o.position == NextPosition(s)
    requires s'.occurrences == s.occurrences && s'.transitions == s.transitions
    ensures Outcome(s, t.outcome).Some? && Outcome(s', t.outcome) == Outcome(s, t.outcome)
    ensures var current := Outcome(s, t.outcome).value;
            var h := HistoryOf(s, t.item, current);
            HistoryOf(s', t.item, current) ==
            if OutcomeDisturbs(s, o, t) then History(Some(o), [], h.latest) else h
  {
    OutcomeOfTransition(s, t);
    var current := Outcome(s, t.outcome).value;
    FindStable(s.outcomes, s'.outcomes, OutcomeKey, t.outcome);
    LatestStable(s, s', t.item, BoundaryOf(current));
    PriorAfterOutcome(s, o, t);
    if OutcomeDisturbs(s, o, t) {
      forall d | d in s.occurrences ensures d.outcome != o.id { assert OccurrenceOk(s, d); }
      NoneRetained(s', s.occurrences, o.id, t.item);
    } else if PriorOf(s, t).Some? {
      RetainedStable(s, s', PriorOf(s, t).value.id, t.item);
    }
  }

  lemma PriorAfterOutcome(s: Store, o: OutcomeRow, t: TransitionRow)
    requires CoverageOk(s) && Outcome(s, t.outcome).Some?
    requires Outcome(s, o.id).None? && o.position == NextPosition(s)
    ensures PriorOutcome(s.outcomes + [o], t.item, t.outcome, CurrentBoundary(s, t)) ==
            if OutcomeDisturbs(s, o, t) then Some(o) else PriorOf(s, t)
  {
    var b := CurrentBoundary(s, t);
    OutcomePositionRetained(s, Outcome(s, t.outcome).value);
    PriorOutcomeAppend(s.outcomes, o, t.item, t.outcome, b);
    PriorOutcomeObserved(s.outcomes, t.item, t.outcome, b);
    if PriorOf(s, t).Some? { OutcomePositionRetained(s, PriorOf(s, t).value); }
  }

  lemma HistoryAfterOccurrence(s: Store, s': Store, d: OccurrenceRow, t: TransitionRow)
    requires RecordsOk(s) && Extends(s, s') && t in s.transitions
    requires s'.occurrences == s.occurrences + [d]
    requires s'.outcomes == s.outcomes && s'.transitions == s.transitions && s'.revisions == s.revisions
    ensures Outcome(s, t.outcome).Some?
    ensures var current := Outcome(s, t.outcome).value;
            var h := HistoryOf(s, t.item, current);
            HistoryOf(s', t.item, current) ==
            if OccurrenceDisturbs(s, d, t) then h.(retained := h.retained + [d]) else h
  {
    OutcomeOfTransition(s, t);
    LatestStable(s, s', t.item, CurrentBoundary(s, t));
    if PriorOf(s, t).Some? {
      var prior := PriorOf(s, t).value.id;
      RetainedStable(s, s', prior, t.item);
      OccurrencesForAppend(s', s.occurrences, d, prior, t.item);
    }
  }

  lemma HistoryAfterTransition(s: Store, s': Store, u: TransitionRow, t: TransitionRow)
    requires RecordsOk(s) && Extends(s, s') && t in s.transitions
    requires s'.transitions == s.transitions + [u]
    requires s'.outcomes == s.outcomes && s'.occurrences == s.occurrences
    ensures Outcome(s, t.outcome).Some?
    ensures var current := Outcome(s, t.outcome).value;
            var h := HistoryOf(s, t.item, current);
            HistoryOf(s', t.item, current) == if BecomesLatest(s, u, t) then h.(latest := Some(u.kind)) else h
  {
    OutcomeOfTransition(s, t);
    var b := CurrentBoundary(s, t);
    var o := Outcome(s, u.outcome);
    if PriorOf(s, t).Some? { RetainedStable(s, s', PriorOf(s, t).value.id, t.item); }
    TransitionCandidatesAppend(s.outcomes, s.transitions, u, t.item, b);
    var cs := TransitionCandidates(s.outcomes, s.transitions, t.item, b);
    if u.item == t.item && o.Some? && Precedes(o.value, b) {
      LatestAppend(cs, Candidate(Key(o.value.completedAt, o.value.position, u.position), u));
    } else {
      assert TransitionCandidates(s.outcomes, s'.transitions, t.item, b) == cs;
    }
  }

  lemma HistoryAfterOther(s: Store, s': Store, t: TransitionRow)
    requires RecordsOk(s) && Extends(s, s') && t in s.transitions
    requires s'.outcomes == s.outcomes && s'.occurrences == s.occurrences && s'.transitions == s.transitions
    ensures Outcome(s, t.outcome).Some?
    ensures HistoryOf(s', t.item, Outcome(s, t.outcome).value) == HistoryOf(s, t.item, Outcome(s, t.outcome).value)
  {
    OutcomeOfTransition(s, t);
    if PriorOf(s, t).Some? { RetainedStable(s, s', PriorOf(s, t).value.id, t.item); }
  }

  // ----- the exact frame

  lemma FrameOfOutcome(s: Store, s': Store, o: OutcomeRow, t: TransitionRow)
    requires RecordsOk(s) && CoverageOk(s) && Extends(s, s') && t in s.transitions
    requires s'.outcomes == s.outcomes + [o] && Outcome(s, o.id).None? && o.position == NextPosition(s)
    requires s'.occurrences == s.occurrences && s'.transitions == s.transitions
    requires TransitionHistoryError(s, t).None?
    ensures TransitionHistoryError(s', t).None? <==> !OutcomeDisturbs(s, o, t)
  {
    HistoryAfterOutcome(s, s', o, t);
  }

  lemma FrameOfOccurrence(s: Store, s': Store, d: OccurrenceRow, t: TransitionRow)
    requires RecordsOk(s) && Extends(s, s') && t in s.transitions
    requires s'.occurrences == s.occurrences + [d]
    requires s'.outcomes == s.outcomes && s'.transitions == s.transitions && s'.revisions == s.revisions
    requires TransitionHistoryError(s, t).None?
    ensures TransitionHistoryError(s', t).None? <==> !OccurrenceDisturbs(s, d, t)
  {
    HistoryAfterOccurrence(s, s', d, t);
  }

  lemma FrameOfTransition(s: Store, s': Store, u: TransitionRow, t: TransitionRow)
    requires RecordsOk(s) && Extends(s, s') && t in s.transitions
    requires s'.transitions == s.transitions + [u]
    requires s'.outcomes == s.outcomes && s'.occurrences == s.occurrences
    requires TransitionHistoryError(s, t).None?
    ensures TransitionHistoryError(s', t).None? <==> !TransitionDisturbs(s, u, t)
  {
    HistoryAfterTransition(s, s', u, t);
  }

  lemma FrameOfOther(s: Store, s': Store, t: TransitionRow)
    requires RecordsOk(s) && Extends(s, s') && t in s.transitions
    requires s'.outcomes == s.outcomes && s'.occurrences == s.occurrences && s'.transitions == s.transitions
    ensures TransitionHistoryError(s', t) == TransitionHistoryError(s, t)
  {
    HistoryAfterOther(s, s', t);
  }

  /** A passing history verdict survives an append if and only if the append does not disturb it. */
  lemma HistoryFrame(s: Store, c: Command, t: TransitionRow)
    requires KeysOk(s) && RecordsOk(s) && CoverageOk(s) && AtNext(s, c) && Fresh(s, c)
    requires t in s.transitions && TransitionHistoryError(s, t).None?
    ensures TransitionHistoryError(Appended(s, c), t).None? <==> !Disturbs(s, c, t)
  {
    hide TransitionHistoryError, RecordsOk, CoverageOk, OutcomeDisturbs, OccurrenceDisturbs, TransitionDisturbs;
    var s' := Appended(s, c);
    CommitExtends(s, c);
    match c
    case RecordOutcome(o) => FrameOfOutcome(s, s', o, t);
    case RecordOccurrence(d) => FrameOfOccurrence(s, s', d, t);
    case RecordTransition(u) => FrameOfTransition(s, s', u, t);
    case _ => FrameOfOther(s, s', t);
  }

  /** The whole evidence of a retained transition changes only through its history verdict. */
  lemma EvidenceIsHistory(s: Store, t: TransitionRow)
    requires TransitionRecordOk(s, t)
    ensures TransitionEvidenceError(s, t).None? <==> TransitionHistoryError(s, t).None?
  {
  }

  /** Accepted at open time, for a store that only commits built: every history verdict passes. */
  lemma AcceptedIsHistory(s: Store)
    requires Inv(s)
    ensures Accepted(s) <==> forall t :: t in s.transitions ==> TransitionHistoryError(s, t).None?
  {
    forall t | t in s.transitions ensures TransitionOk(s, t) <==> TransitionHistoryError(s, t).None? {
      assert TransitionRecordOk(s, t);
      EvidenceIsHistory(s, t);
    }
  }

  // ----- the read-back inside a commit never fires

  lemma OwnHistory(s: Store, s': Store, t: TransitionRow, o: OutcomeRow)
    requires RecordsOk(s) && Extends(s, s') && Outcome(s, t.outcome) == Some(o)
    requires s'.transitions == s.transitions + [t]
    requires s'.outcomes == s.outcomes && s'.occurrences == s.occurrences
    ensures HistoryOf(s', t.item, o) == HistoryOf(s, t.item, o)
  {
    var b := BoundaryOf(o);
    TransitionCandidatesAppend(s.outcomes, s.transitions, t, t.item, b);
    assert TransitionCandidates(s.outcomes, s'.transitions, t.item, b)
           == TransitionCandidates(s.outcomes, s.transitions, t.item, b);
    var prior := PriorOutcome(s.outcomes, t.item, o.id, b);
    if prior.Some? { RetainedStable(s, s', prior.value.id, t.item); }
  }

  lemma OwnVerdict(s: Store, s': Store, t: TransitionRow)
    requires RecordsOk(s) && Extends(s, s') && TransitionHistoryError(s, t).None?
    requires s'.transitions == s.transitions + [t]
    requires s'.outcomes == s.outcomes && s'.occurrences == s.occurrences
    ensures TransitionHistoryError(s', t).None?
  {
    OwnHistory(s, s', t, Outcome(s, t.outcome).value);
  }

  /** A commit succeeds exactly when its guard admits the placed command. */
  lemma ReadBackNeverFires(s: Store, command: Command)
    requires Inv(s)
    ensures var c := Placed(s, command);
            if Refused(s, c).Some? then Commit(s, command) == Err(Refused(s, c).value)
            else Commit(s, command) == Ok(Appended(s, c))
  {
    hide RecordsOk, CoverageOk, SourcesOk, AttemptChainsOk, BaselineHeadsOk, TransitionRefused, BaselineRefused,
         TransitionEvidenceError, BaselineEvidenceError;
    var c := Placed(s, command);
    PlacedIdempotent(s, command);
    if Refused(s, c).None? {
      CommitKeeps(s, c);
      var s' := Appended(s, c);
      if c.RecordTransition? {
        TransitionReadBack(s, s', c.transition);
      } else if c.DecideBaseline? {
        BaselineReadBack(s, c.baseline, s');
      }
    }
  }

  lemma TransitionReadBack(s: Store, s': Store, t: TransitionRow)
    requires TransitionRefused(s, t).None? && RecordsOk(s) && RecordsOk(s') && Extends(s, s')
    requires s'.transitions == s.transitions + [t]
    requires s'.outcomes == s.outcomes && s'.occurrences == s.occurrences
    ensures TransitionEvidenceError(s', t).None?
  {
    TransitionAdmits(s, t);
    OwnVerdict(s, s', t);
    assert TransitionRecordOk(s', t) by { assert t in s'.transitions; }
    hide RecordsOk, TransitionRefused, TransitionHistoryError;
    EvidenceIsHistory(s', t);
  }

  lemma BaselineReadBack(s: Store, b: BaselineRow, s': Store)
    requires BaselineRefused(s, b).None? && Extends(s, s')
    ensures BaselineEvidenceError(s', b).None?
  {
    BaselineEvidenceStable(s, s', b);
  }

  // ----- whole runs

  /** The placed command disturbs some retained transition that passes now. */
  ghost predicate Backdated(s: Store, command: Command)
    requires Inv(s)
  {
    var c := Placed(s, command);
    Refused(s, c).None?
    && exists t :: t in s.transitions && Outcome(s, t.outcome).Some? && Disturbs(s, c, t)
  }

  /** No command of the run disturbs a transition retained when it is committed. */
  ghost predicate Undisturbed(s: Store, cs: seq<Command>)
    requires Inv(s)
    decreases cs
  {
    cs == [] || (StepKeeps(s, cs[0]); !Backdated(s, cs[0]) && Undisturbed(Step(s, cs[0]), cs[1..]))
  }

  lemma AppendedTransitions(s: Store, c: Command)
    ensures Appended(s, c).transitions == s.transitions + (if c.RecordTransition? then [c.transition] else [])
  {
  }

  /** Every old verdict passes after the append exactly when it disturbs none, and the new one passes. */
  lemma VerdictsAfter(s: Store, c: Command)
    requires KeysOk(s) && RecordsOk(s) && CoverageOk(s) && AtNext(s, c) && Fresh(s, c)
    requires c.RecordTransition? ==> TransitionHistoryError(s, c.transition).None?
    requires forall t :: t in s.transitions ==> TransitionHistoryError(s, t).None?
    ensures (forall t :: t in Appended(s, c).transitions ==> TransitionHistoryError(Appended(s, c), t).None?) <==>
            !exists t :: t in s.transitions && Outcome(s, t.outcome).Some? && Disturbs(s, c, t)
  {
    hide TransitionHistoryError, Disturbs, Fresh, CoverageOk;
    var s' := Appended(s, c);
    AppendedTransitions(s, c);
    forall t | t in s.transitions
      ensures Outcome(s, t.outcome).Some? && t in s'.transitions
      ensures TransitionHistoryError(s', t).None? <==> !Disturbs(s, c, t)
    {
      HistoryFrame(s, c, t);
    }
    if c.RecordTransition? {
      CommitExtends(s, c);
      OwnVerdict(s, s', c.transition);
    }
  }

  lemma TransitionPasses(s: Store, c: Command)
    requires c.RecordTransition? && Refused(s, c).None?
    ensures TransitionHistoryError(s, c.transition).None?
  {
    TransitionAdmits(s, c.transition);
  }

  /** One step turns an accepted store into an accepted store exactly when it is not backdated. */
  lemma StepAccepted(s: Store, command: Command)
    requires Inv(s) && Accepted(s)
    ensures Accepted(Step(s, command)) <==> !Backdated(s, command)
  {
    hide RecordsOk, CoverageOk, SourcesOk, AttemptChainsOk, BaselineHeadsOk, TransitionHistoryError, Disturbs,
         Refused, Appended, Placed, Commit;
    var c := Placed(s, command);
    ReadBackNeverFires(s, command);
    if Refused(s, c).None? {
      PlacedIdempotent(s, command);
      CommitKeeps(s, c);
      AdmittedSources(s, c);
      if c.RecordTransition? { TransitionPasses(s, c); }
      AcceptedIsHistory(s);
      AcceptedIsHistory(Appended(s, c));
      VerdictsAfter(s, c);
    }
  }

  /** From the empty store, every run keeps the invariant; if nothing is backdated, every reopening accepts. */
  lemma {:induction false} RunAccepted(s: Store, cs: seq<Command>)
    requires Inv(s) && Accepted(s) && Undisturbed(s, cs)
    ensures Inv(Run(s, cs)) && Accepted(Run(s, cs))
    decreases cs
  {
    hide Inv, Accepted, Backdated, Step;
    if cs != [] {
      StepKeeps(s, cs[0]);
      StepAccepted(s, cs[0]);
      RunAccepted(Step(s, cs[0]), cs[1..]);
    }
  }

  lemma ReopenAfterRun(cs: seq<Command>)
    requires (EmptyInv(); Undisturbed(EMPTY, cs))
    ensures Accepted(Run(EMPTY, cs))
  {
    EmptyInv();
    RunAccepted(EMPTY, cs);
  }
}
