/**
 * The state machine each Source Item's transitions follow in (completedAt, position) order, in every
 * store whose transitions all pass re-validation.
 */
module CheckStateMachine {
  import opened Common
  import opened CheckModel
  import opened CheckHistory
  import opened CheckEvidence
  import opened CheckCommit
  import opened CheckIntegrity
  import opened CheckRuns
  import opened CheckFrame
  import opened CheckLookup

  /** A store whose transitions all pass re-validation. */
  ghost predicate Settled(s: Store) {
    && RecordsOk(s) && CoverageOk(s) && UniqueKeys(s.outcomes, OutcomeKey) && UniqueKeys(s.transitions, TransitionSlot)
    && forall t :: t in s.transitions ==> TransitionHistoryError(s, t).None?
  }

  lemma AcceptedSettles(s: Store)
    requires Inv(s) && Accepted(s)
    ensures Settled(s)
  {
    AcceptedIsHistory(s);
  }

  /** The order of an item's history: the (completedAt, position) of the Outcome behind a transition. */
  predicate Before(s: Store, u: TransitionRow, t: TransitionRow) {
    var o := Outcome(s, u.outcome);
    o.Some? && Outcome(s, t.outcome).Some? && Precedes(o.value, CurrentBoundary(s, t))
  }

  /** The transition of the same item immediately before this one. */
  function Predecessor(s: Store, t: TransitionRow): Option<TransitionRow>
    requires Outcome(s, t.outcome).Some?
  {
    var l := LatestTransition(s, t.item, CurrentBoundary(s, t));
    if l.None? then None else Some(l.value.value)
  }

  lemma PredecessorBefore(s: Store, t: TransitionRow)
    requires Outcome(s, t.outcome).Some? && Predecessor(s, t).Some?
    ensures var u := Predecessor(s, t).value; u in s.transitions && u.item == t.item && Before(s, u, t)
  {
    var b := CurrentBoundary(s, t);
    TransitionCandidatesAre(s.outcomes, s.transitions, t.item, b, LatestTransition(s, t.item, b).value);
  }

  /** Nothing of the item lies between a transition and its predecessor. */
  lemma PredecessorAdjacent(s: Store, t: TransitionRow, u: TransitionRow)
    requires Outcome(s, t.outcome).Some? && u in s.transitions && u.item == t.item && Before(s, u, t)
    ensures Predecessor(s, t).Some? && !Before(s, Predecessor(s, t).value, u)
  {
    var b := CurrentBoundary(s, t);
    var cs := TransitionCandidates(s.outcomes, s.transitions, t.item, b);
    var o := Outcome(s, u.outcome).value;
    var c := Candidate(Key(o.completedAt, o.position, u.position), u);
    TransitionCandidatesAre(s.outcomes, s.transitions, t.item, b, c);
    LatestIsLatest(cs, c);
    TransitionCandidatesAre(s.outcomes, s.transitions, t.item, b, Latest(cs).value);
  }

  // ----- first observations

  lemma CurrentObserved(s: Store, t: TransitionRow)
    requires RecordsOk(s) && t in s.transitions && t.current.Some?
    ensures Outcome(s, t.outcome).Some? && Observes(Outcome(s, t.outcome).value, t.item)
  {
    assert TransitionRecordOk(s, t);
    var d :| d in s.occurrences && d.outcome == t.outcome && d.revision == t.current.value.revision
             && d.representation == t.current.value.representation && d.definitionVersion == t.definitionVersion;
    OccurrenceObserved(s, d);
  }

  /** What a passing verdict says, query by query. */
  lemma Passed(s: Store, t: TransitionRow)
    requires RecordsOk(s) && t in s.transitions && TransitionHistoryError(s, t).None?
    ensures Outcome(s, t.outcome).Some?
    ensures PriorOf(s, t).None? <==> IsFirstObservation(t.kind)
    ensures KindError(t.kind, KindOf(LatestTransition(s, t.item, CurrentBoundary(s, t)))).None?
  {
    OutcomeOfTransition(s, t);
    hide RecordsOk;
    var h := HistoryOf(s, t.item, Outcome(s, t.outcome).value);
    assert h.prior == PriorOf(s, t);
  }

  /** Anything but a first observation was preceded by an Outcome that observed the item. */
  lemma PriorExists(s: Store, t: TransitionRow)
    requires Settled(s) && t in s.transitions && !IsFirstObservation(t.kind)
    ensures Outcome(s, t.outcome).Some?
    ensures exists o :: o in s.outcomes && Observes(o, t.item) && Precedes(o, CurrentBoundary(s, t))
  {
    hide RecordsOk, CoverageOk, TransitionHistoryError;
    Passed(s, t);
    PriorOutcomeObserved(s.outcomes, t.item, t.outcome, CurrentBoundary(s, t));
  }

  lemma NothingBeforeFirst(s: Store, t: TransitionRow, o: OutcomeRow)
    requires Settled(s) && t in s.transitions && IsFirstObservation(t.kind)
    requires o in s.outcomes && Observes(o, t.item)
    ensures Outcome(s, t.outcome).Some? && !Precedes(o, CurrentBoundary(s, t))
  {
    hide RecordsOk, CoverageOk, TransitionHistoryError;
    Passed(s, t);
    FindUnique(s.outcomes, OutcomeKey, o);
    if Precedes(o, CurrentBoundary(s, t)) {
      PriorOutcomeLatest(s.outcomes, t.item, t.outcome, CurrentBoundary(s, t), o);
    }
  }

  lemma Ordered(s: Store, t: TransitionRow, u: TransitionRow)
    requires Settled(s) && t in s.transitions && u in s.transitions && t.item == u.item && t != u
    ensures Outcome(s, t.outcome).Some? && Outcome(s, u.outcome).Some?
    ensures Before(s, t, u) || Before(s, u, t)
  {
    hide RecordsOk, CoverageOk, TransitionHistoryError;
    OutcomeOfTransition(s, t);
    OutcomeOfTransition(s, u);
    FindUnique(s.transitions, TransitionSlot, t);
    FindUnique(s.transitions, TransitionSlot, u);
    if Outcome(s, t.outcome).value.position == Outcome(s, u.outcome).value.position {
      SamePosition(s, Outcome(s, t.outcome).value, Outcome(s, u.outcome).value);
      assert false;
    }
  }

  /** A first observation precedes every other transition of its item, so an item has at most one. */
  lemma FirstObservationIsFirst(s: Store, t: TransitionRow, u: TransitionRow)
    requires Settled(s) && t in s.transitions && u in s.transitions && t.item == u.item && t != u
    requires IsFirstObservation(t.kind)
    ensures Before(s, t, u) && !IsFirstObservation(u.kind)
  {
    Ordered(s, t, u);
    FirstNotAfter(s, t, u);
    if IsFirstObservation(u.kind) { FirstNotAfter(s, u, t); }
  }

  lemma FirstHasCurrent(s: Store, t: TransitionRow)
    requires RecordsOk(s) && t in s.transitions && IsFirstObservation(t.kind)
    ensures t.current.Some?
  {
    assert TransitionRecordOk(s, t);
  }

  lemma FirstNotAfter(s: Store, t: TransitionRow, u: TransitionRow)
    requires Settled(s) && t in s.transitions && u in s.transitions && t.item == u.item
    requires IsFirstObservation(t.kind)
    ensures !Before(s, u, t)
  {
    hide RecordsOk, CoverageOk, UniqueKeys, TransitionHistoryError;
    if Before(s, u, t) {
      if IsFirstObservation(u.kind) {
        FirstHasCurrent(s, u);
        CurrentObserved(s, u);
        NothingBeforeFirst(s, t, Outcome(s, u.outcome).value);
      } else {
        PriorExists(s, u);
        var o :| o in s.outcomes && Observes(o, u.item) && Precedes(o, CurrentBoundary(s, u));
        NothingBeforeFirst(s, t, o);
      }
    }
  }

  // ----- endings and the Agenda

  /** The order rules a passing transition obeys, stated on its predecessor. */
  lemma KindLicensed(s: Store, t: TransitionRow)
    requires Settled(s) && t in s.transitions
    ensures Outcome(s, t.outcome).Some?
    ensures var u := Predecessor(s, t); KindError(t.kind, if u.None? then None else Some(u.value.kind)).None?
  {
    hide RecordsOk, CoverageOk, TransitionHistoryError;
    Passed(s, t);
  }

  /** A reactivation directly follows an ending of the same item. */
  lemma ReactivationFollowsEnding(s: Store, t: TransitionRow)
    requires Settled(s) && t in s.transitions && t.kind.Reactivated?
    ensures Outcome(s, t.outcome).Some?
    ensures Predecessor(s, t).Some? && IsEnding(Predecessor(s, t).value.kind)
    ensures Predecessor(s, t).value in s.transitions && Before(s, Predecessor(s, t).value, t)
  {
    KindLicensed(s, t);
    PredecessorBefore(s, t);
  }

  predicate AgendaFollows(k: TransitionKind) {
    k.AgendaRescheduled? || k.AgendaCancelled? || k.AgendaMissedExpectation? || k.AgendaLateOccurrence?
  }

  /** What may directly precede an Agenda transition that is not a creation. */
  predicate AgendaStep(earlier: TransitionKind, k: TransitionKind) {
    if k.AgendaLateOccurrence? then earlier.AgendaMissedExpectation? else AgendaFollows(k) && IsAgendaOpen(earlier)
  }

  predicate AgendaLink(s: Store, t: TransitionRow, u: TransitionRow) {
    Outcome(s, t.outcome).Some? && Predecessor(s, t) == Some(u) && AgendaStep(u.kind, t.kind)
  }

  /** An unbroken block of an item's history, newest first, that ends in an Agenda creation. */
  ghost predicate AgendaBlock(s: Store, block: seq<TransitionRow>) {
    && block != [] && block[0] in s.transitions && Outcome(s, block[0].outcome).Some?
    && if |block| == 1 then block[0].kind.AgendaCreated?
       else AgendaLink(s, block[0], block[1]) && AgendaBlock(s, block[1..])
  }

  lemma AgendaPredecessor(s: Store, t: TransitionRow)
    requires Settled(s) && t in s.transitions && AgendaFollows(t.kind)
    ensures Outcome(s, t.outcome).Some? && Predecessor(s, t).Some?
    ensures var u := Predecessor(s, t).value;
            AgendaLink(s, t, u) && u in s.transitions && u.item == t.item && Before(s, u, t)
  {
    KindLicensed(s, t);
    PredecessorBefore(s, t);
  }

  /** Every rescheduled, cancelled, missed or late Agenda transition traces back to its creation. */
  lemma {:induction false} AgendaTracesBack(s: Store, t: TransitionRow, o: OutcomeRow) returns (block: seq<TransitionRow>)
    requires Settled(s) && t in s.transitions && (AgendaFollows(t.kind) || t.kind.AgendaCreated?)
    requires Outcome(s, t.outcome) == Some(o)
    ensures AgendaBlock(s, block) && block[0] == t
    decreases o.completedAt, o.position
  {
    hide Settled, Predecessor, LatestTransition;
    if t.kind.AgendaCreated? { return [t]; }
    AgendaPredecessor(s, t);
    var u := Predecessor(s, t).value;
    var rest := AgendaTracesBack(s, u, Outcome(s, u.outcome).value);
    block := [t] + rest;
    assert block[1..] == rest;
  }

  /** The block is the item's whole history up to the transition it explains. */
  lemma {:induction false} AgendaBlockIsWholeHistory(s: Store, block: seq<TransitionRow>, u: TransitionRow)
    requires Settled(s) && AgendaBlock(s, block)
    requires u in s.transitions && u.item == block[0].item && Before(s, u, block[0])
    ensures u in block
    decreases |block|
  {
    if |block| == 1 {
      FirstNotAfter(s, block[0], u);
    } else if u != block[1] {
      NextEarlier(s, block[0], block[1], u);
      AgendaBlockIsWholeHistory(s, block[1..], u);
    }
  }

  /** A transition before another is its predecessor or before that. */
  lemma NextEarlier(s: Store, t: TransitionRow, v: TransitionRow, u: TransitionRow)
    requires Settled(s) && Outcome(s, t.outcome).Some? && Predecessor(s, t) == Some(v)
    requires u in s.transitions && u.item == t.item && Before(s, u, t) && u != v
    ensures v.item == t.item && Before(s, u, v)
  {
    PredecessorAdjacent(s, t, u);
    PredecessorBefore(s, t);
    Ordered(s, u, v);
  }
}
