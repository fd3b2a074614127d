/**
 * What the evidence checks and the commit guards of the Check store decide, stated on the retained rows:
 * each passes exactly when the rows stand in the relation described here.
 */
module CheckMeaning {
  import opened Common
  import opened CheckModel
  import opened CheckHistory
  import opened CheckEvidence
  import opened CheckCommit
  import opened CheckIntegrity
  import opened CheckRuns
  import opened CheckFrame
  import CheckLookup
  import opened CheckStateMachine

  // ----- the guard of a transition

  /** A check that ended with the whole current state. */
  predicate Conclusive(o: OutcomeRow) {
    && (o.kind == SuccessEmpty || o.kind == SuccessUnchanged || o.kind == SuccessChanged)
    && !o.incomplete && !o.quarantined
  }

  /** A confirmation: an earlier Outcome of the Request it names, comparable with the transition's own. */
  predicate ConfirmationStands(s: Store, t: TransitionRow, own: RequestRow, c: Confirmation) {
    var o, r := Outcome(s, c.outcome), Request(s, c.request);
    && o.Some? && r.Some? && o.value.request == c.request && r.value.adapterDigest == c.adapterDigest
    && o.value.completedAt <= t.observedAt
    && o.value.definition == t.definition && o.value.definitionVersion == t.definitionVersion
    && match t.guardEvidence
       case Unguarded => true
       case Absence(_, _, authorizesEnding) =>
         r.value.snapshot == own.snapshot && (authorizesEnding ==> Conclusive(o.value))
       case AgendaMiss(_, window) => r.value.trigger == PlannedWindow(window) && Conclusive(o.value)
  }

  /** The guard cites the transition's own Outcome among distinct Requests' confirmations that all stand. */
  predicate GuardStands(s: Store, t: TransitionRow, o: OutcomeRow) {
    t.guardEvidence != Unguarded ==>
      var cs, own := t.guardEvidence.confirmations, Request(s, o.request);
      && own.Some?
      && (exists i :: 0 <= i < |cs| && cs[i].outcome == t.outcome)
      && (forall i :: 0 <= i < |cs| ==> ConfirmationStands(s, t, own.value, cs[i]))
      && (forall i, j :: 0 <= i < j < |cs| ==> cs[i].request != cs[j].request)
      && match t.guardEvidence
         case Unguarded => true
         case Absence(_, complete, _) => complete == Conclusive(o)
         case AgendaMiss(_, window) => own.value.trigger == PlannedWindow(window)
  }

  /** The whole evidence of a transition that does not depend on the order of Outcomes. */
  predicate EvidenceStands(s: Store, t: TransitionRow, o: OutcomeRow) {
    && t.observedAt == o.completedAt
    && (t.current.Some? ==>
          exists i :: 0 <= i < |s.occurrences| &&
            var d := s.occurrences[i];
            && d.outcome == t.outcome && d.definitionVersion == t.definitionVersion
            && d.revision == t.current.value.revision && d.representation == t.current.value.representation)
    && GuardStands(s, t, o)
  }

  lemma ConfirmsStands(s: Store, t: TransitionRow, own: RequestRow, c: Confirmation)
    ensures Confirms(s, t, own.snapshot, c) <==> ConfirmationStands(s, t, own, c)
  {
  }

  lemma GuardMeans(s: Store, t: TransitionRow, o: OutcomeRow)
    ensures GuardError(s, t, o).None? <==> GuardStands(s, t, o)
  {
    if t.guardEvidence != Unguarded && Request(s, o.request).Some? {
      hide Confirms, ConfirmationStands, ConfirmationsError;
      var cs, own := t.guardEvidence.confirmations, Request(s, o.request).value;
      ConfirmationsMean(s, t, own.snapshot, cs, {});
      forall i | 0 <= i < |cs| ensures Confirms(s, t, own.snapshot, cs[i]) <==> ConfirmationStands(s, t, own, cs[i]) {
        ConfirmsStands(s, t, own, cs[i]);
      }
    }
  }

  /** The order-independent evidence check passes exactly when the evidence stands. */
  lemma UnorderedMeans(s: Store, t: TransitionRow, o: OutcomeRow)
    ensures UnorderedError(s, t, o).None? <==> EvidenceStands(s, t, o)
  {
    hide GuardError, GuardStands;
    GuardMeans(s, t, o);
    if t.current.Some? && HasOccurrence(s, t, t.current.value) {
      var d :| d in s.occurrences && d.outcome == t.outcome && d.revision == t.current.value.revision
               && d.representation == t.current.value.representation && d.definitionVersion == t.definitionVersion;
    }
  }

  /** In every store a run reaches, the evidence of every transition stands. */
  lemma TransitionsStand(cs: seq<Command>, t: TransitionRow)
    requires t in Run(EMPTY, cs).transitions
    ensures var s := Run(EMPTY, cs);
            Outcome(s, t.outcome).Some? && EvidenceStands(s, t, Outcome(s, t.outcome).value)
  {
    hide Run, UnorderedError, EvidenceStands;
    EmptyInv();
    RunKeeps(EMPTY, cs);
    var s := Run(EMPTY, cs);
    assert TransitionRecordOk(s, t);
    UnorderedMeans(s, t, Outcome(s, t.outcome).value);
  }

  // ----- the history verdict

  /** The latest of the earlier Outcomes that observed the item. */
  ghost predicate LatestObserver(s: Store, t: TransitionRow, o: OutcomeRow, p: OutcomeRow) {
    && p in s.outcomes && Observes(p, t.item) && p.id != o.id && ComesBefore(p, o)
    && forall q :: q in s.outcomes && Observes(q, t.item) && q.id != o.id && ComesBefore(q, o) ==> !ComesBefore(p, q)
  }

  /** Earlier by completion time, and by ledger position among equals. */
  predicate ComesBefore(p: OutcomeRow, o: OutcomeRow) {
    p.completedAt < o.completedAt || (p.completedAt == o.completedAt && p.position < o.position)
  }

  /** The Outcome retained this one Occurrence of the item and no other. */
  ghost predicate OnlyOccurrence(s: Store, ds: seq<OccurrenceRow>, p: OutcomeRow, item: ItemId, i: nat) {
    && i < |ds| && OccursIn(s, ds[i], p, item)
    && forall j :: 0 <= j < |ds| && j != i ==> !OccursIn(s, ds[j], p, item)
  }

  predicate OccursIn(s: Store, d: OccurrenceRow, p: OutcomeRow, item: ItemId) {
    d.outcome == p.id && Revision(s, d.revision).Some? && Revision(s, d.revision).value.item == item
  }

  /** A first observation has no earlier observer; anything else names what the latest one saw. */
  ghost predicate PriorStands(s: Store, t: TransitionRow, o: OutcomeRow) {
    if t.kind in {FirstObserved, Activated, AgendaCreated}
    then forall p :: p in s.outcomes && Observes(p, t.item) && p.id != o.id ==> !ComesBefore(p, o)
    else exists p, i: nat :: LatestObserver(s, t, o, p) && OnlyOccurrence(s, s.occurrences, p, t.item, i)
                             && t.prior == Some(s.occurrences[i].revision)
  }

  lemma {:induction false} NoneMeans(s: Store, ds: seq<OccurrenceRow>, p: OutcomeRow, item: ItemId)
    ensures OccurrencesFor(s, ds, p.id, item) == [] <==> forall j :: 0 <= j < |ds| ==> !OccursIn(s, ds[j], p, item)
  {
    if ds != [] {
      NoneMeans(s, ds[..|ds| - 1], p, item);
      assert forall j :: 0 <= j < |ds| - 1 ==> ds[..|ds| - 1][j] == ds[j];
    }
  }

  lemma {:induction false} OnlyIs(s: Store, ds: seq<OccurrenceRow>, p: OutcomeRow, item: ItemId, i: nat)
    requires OnlyOccurrence(s, ds, p, item, i)
    ensures OccurrencesFor(s, ds, p.id, item) == [ds[i]]
  {
    var front := ds[..|ds| - 1];
    assert forall j :: 0 <= j < |front| ==> front[j] == ds[j];
    if i < |front| { OnlyIs(s, front, p, item, i); } else { NoneMeans(s, front, p, item); }
  }

  lemma {:induction false} OneIsOnly(s: Store, ds: seq<OccurrenceRow>, p: OutcomeRow, item: ItemId) returns (i: nat)
    requires |OccurrencesFor(s, ds, p.id, item)| == 1
    ensures OnlyOccurrence(s, ds, p, item, i)
  {
    var front, last := ds[..|ds| - 1], ds[|ds| - 1];
    assert forall j :: 0 <= j < |front| ==> front[j] == ds[j];
    if OccursIn(s, last, p, item) {
      NoneMeans(s, front, p, item);
      i := |front|;
    } else {
      i := OneIsOnly(s, front, p, item);
    }
  }

  lemma PrecedesComesBefore(p: OutcomeRow, o: OutcomeRow)
    ensures Precedes(p, BoundaryOf(o)) <==> ComesBefore(p, o)
    ensures Older(OutcomeCandidate(p).key, OutcomeCandidate(o).key) <==> ComesBefore(p, o)
  {
  }

  /** The prior-observation half of the verdict passes exactly when the prior observation stands. */
  lemma PriorMeans(s: Store, t: TransitionRow, o: OutcomeRow)
    requires CoverageOk(s)
    ensures var h := HistoryOf(s, t.item, o); PriorError(t, h.prior, h.retained).None? <==> PriorStands(s, t, o)
  {
    hide CoverageOk, PriorOutcome, OccurrencesFor, Observes;
    var prior := PriorOutcome(s.outcomes, t.item, o.id, BoundaryOf(o));
    PriorOutcomeObserved(s.outcomes, t.item, o.id, BoundaryOf(o));
    forall p ensures Precedes(p, BoundaryOf(o)) <==> ComesBefore(p, o) { PrecedesComesBefore(p, o); }
    forall p | p in s.outcomes && Observes(p, t.item) && p.id != o.id && ComesBefore(p, o)
      ensures prior.Some? && !ComesBefore(prior.value, p)
    {
      PriorOutcomeLatest(s.outcomes, t.item, o.id, BoundaryOf(o), p);
      PrecedesComesBefore(prior.value, p);
    }
    if prior.Some? {
      assert LatestObserver(s, t, o, prior.value);
      LatestObserverIs(s, t, o, prior.value);
      if t.prior.Some? { SingleOccurrence(s, t.item, prior.value, t.prior.value); }
    }
  }

  lemma LatestObserverIs(s: Store, t: TransitionRow, o: OutcomeRow, p: OutcomeRow)
    requires CoverageOk(s) && LatestObserver(s, t, o, p)
    ensures forall q :: LatestObserver(s, t, o, q) ==> q == p
  {
    hide CoverageOk, Observes;
    forall q | LatestObserver(s, t, o, q) ensures q == p {
      SamePositionIs(s, p, q);
    }
  }

  lemma SamePositionIs(s: Store, p: OutcomeRow, q: OutcomeRow)
    requires CoverageOk(s) && p in s.outcomes && q in s.outcomes && !ComesBefore(p, q) && !ComesBefore(q, p)
    ensures p == q
  {
    CheckLookup.SamePosition(s, p, q);
  }

  // ----- the order of kinds

  /** The transition of the same item with no other one of the item between them. */
  ghost predicate DirectlyBefore(s: Store, u: TransitionRow, t: TransitionRow) {
    && u in s.transitions && u.item == t.item && Before(s, u, t)
    && forall v :: v in s.transitions && v.item == t.item && Before(s, v, t) ==> !Before(s, u, v)
  }

  /** What the kind of a transition demands of the one directly before it. */
  predicate Licenses(earlier: TransitionKind, k: TransitionKind) {
    match k
    case Reactivated => earlier in {ResolvedOrCleared, Expired, Cancelled, Withdrawn}
    case AgendaRescheduled => earlier in {AgendaCreated, AgendaRescheduled}
    case AgendaCancelled => earlier in {AgendaCreated, AgendaRescheduled}
    case AgendaMissedExpectation => earlier in {AgendaCreated, AgendaRescheduled}
    case AgendaLateOccurrence => earlier == AgendaMissedExpectation
    case _ => true
  }

  predicate Free(k: TransitionKind) {
    k !in {Reactivated, AgendaRescheduled, AgendaCancelled, AgendaMissedExpectation, AgendaLateOccurrence}
  }

  /** The kind is free, or the transition directly before licenses it. */
  ghost predicate KindStands(s: Store, t: TransitionRow) {
    Free(t.kind) || exists u :: DirectlyBefore(s, u, t) && Licenses(u.kind, t.kind)
  }

  lemma PredecessorDirectly(s: Store, t: TransitionRow)
    requires Outcome(s, t.outcome).Some?
    ensures Predecessor(s, t).Some? ==> DirectlyBefore(s, Predecessor(s, t).value, t)
    ensures Predecessor(s, t).None? ==> forall u :: !DirectlyBefore(s, u, t)
  {
    hide Before, Predecessor;
    if Predecessor(s, t).Some? { PredecessorBefore(s, t); }
    forall v | v in s.transitions && v.item == t.item && Before(s, v, t)
      ensures Predecessor(s, t).Some? && !Before(s, Predecessor(s, t).value, v)
    {
      PredecessorAdjacent(s, t, v);
    }
  }

  lemma DirectlyIsOne(s: Store, t: TransitionRow, u: TransitionRow, v: TransitionRow)
    requires CoverageOk(s) && UniqueKeys(s.outcomes, OutcomeKey) && UniqueKeys(s.transitions, TransitionSlot)
    requires Outcome(s, t.outcome).Some? && DirectlyBefore(s, u, t) && DirectlyBefore(s, v, t)
    ensures u == v
  {
    hide CoverageOk;
    var a, b := Outcome(s, u.outcome).value, Outcome(s, v.outcome).value;
    PrecedesComesBefore(a, b);
    PrecedesComesBefore(b, a);
    SamePositionIs(s, a, b);
    FindUnique(s.transitions, TransitionSlot, u);
    FindUnique(s.transitions, TransitionSlot, v);
  }

  /** The kind half of the verdict passes exactly when the kind stands. */
  lemma KindMeans(s: Store, t: TransitionRow, o: OutcomeRow)
    requires CoverageOk(s) && UniqueKeys(s.outcomes, OutcomeKey) && UniqueKeys(s.transitions, TransitionSlot)
    requires Outcome(s, t.outcome) == Some(o)
    ensures KindError(t.kind, HistoryOf(s, t.item, o).latest).None? <==> KindStands(s, t)
  {
    hide CoverageOk, UniqueKeys, LatestTransition, DirectlyBefore, PriorOutcome;
    PredecessorDirectly(s, t);
    var latest := Predecessor(s, t);
    assert HistoryOf(s, t.item, o).latest == if latest.None? then None else Some(latest.value.kind);
    forall u | DirectlyBefore(s, u, t) ensures latest == Some(u) {
      DirectlyIsOne(s, t, u, latest.value);
    }
  }

  /** The history verdict on a transition passes exactly when its prior observation and its kind stand. */
  lemma HistoryMeans(s: Store, t: TransitionRow)
    requires CoverageOk(s) && UniqueKeys(s.outcomes, OutcomeKey) && UniqueKeys(s.transitions, TransitionSlot)
    ensures TransitionHistoryError(s, t).None? <==>
            && Outcome(s, t.outcome).Some?
            && PriorStands(s, t, Outcome(s, t.outcome).value) && KindStands(s, t)
  {
    if Outcome(s, t.outcome).Some? {
      hide CoverageOk, UniqueKeys, PriorStands, KindStands, HistoryOf, PriorError, KindError;
      PriorMeans(s, t, Outcome(s, t.outcome).value);
      KindMeans(s, t, Outcome(s, t.outcome).value);
    }
  }

  /** A store that commits built opens exactly when every transition's history stands. */
  lemma OpensMeans(s: Store)
    requires Inv(s)
    ensures Accepted(s) <==>
            forall t :: t in s.transitions ==>
              && Outcome(s, t.outcome).Some?
              && PriorStands(s, t, Outcome(s, t.outcome).value) && KindStands(s, t)
  {
    AcceptedIsHistory(s);
    hide RecordsOk, SourcesOk, AttemptChainsOk, BaselineHeadsOk, CoverageOk, PriorStands, KindStands,
         TransitionHistoryError, Accepted;
    forall t ensures TransitionHistoryError(s, t).None? <==>
                     && Outcome(s, t.outcome).Some?
                     && PriorStands(s, t, Outcome(s, t.outcome).value) && KindStands(s, t)
    {
      HistoryMeans(s, t);
    }
  }

  // ----- the shape of a transition, column by column

  /** Which Revisions each kind carries, and which guards go with which kinds. */
  lemma ShapeMeans(t: TransitionRow)
    ensures WellShaped(t) <==>
            var ending := t.kind in {ResolvedOrCleared, Expired, Cancelled, Withdrawn};
            var agenda := t.kind in {AgendaCreated, AgendaRescheduled, AgendaCancelled, AgendaMissedExpectation,
                                     AgendaLateOccurrence};
            && (t.prior.None? <==> t.kind in {FirstObserved, Activated, AgendaCreated})
            && (t.current.None? <==>
                  t.kind in {AmbiguousAbsence, AgendaMissedExpectation} || (ending && t.guardEvidence.Absence?))
            && (t.prior.Some? && t.current.Some? ==>
                  (t.prior.value == t.current.value.revision <==> t.kind == Reobserved))
            && (t.kind == AmbiguousAbsence ==> t.guardEvidence.Absence? && !t.guardEvidence.authorizesEnding)
            && (ending && t.guardEvidence.Absence? ==>
                  t.guardEvidence.authorizesEnding && t.observation == CompleteCurrentState)
            && (t.kind == AgendaMissedExpectation ==> t.guardEvidence.AgendaMiss?)
            && (t.guardEvidence.AgendaMiss? ==> agenda) && (agenda ==> !t.guardEvidence.Absence?)
            && (agenda ==> t.observation == PlannedAgenda)
            && (t.kind == Replaced <==> t.related.Some?) && t.related != Some(t.item)
  {
  }

  // ----- the other evidence

  /** A Baseline Decision repeats one complete check of its Version and retains what its manifest claims. */
  predicate BaselineStands(s: Store, b: BaselineRow) {
    var v, r, o := Version(s, b.definitionVersion), Request(s, b.request), Outcome(s, b.outcome);
    && v.Some? && r.Some? && o.Some? && o.value.request == b.request && o.value.completedAt == b.decidedAt
    && v.value.definition == r.value.definition == o.value.definition == b.definition
    && r.value.definitionVersion == o.value.definitionVersion == b.definitionVersion
    && v.value.baselinePolicy == r.value.baselinePolicy == b.baselinePolicy && v.value.observation == b.observation
    && (b.manualHold
        || (o.value.digests == b.digests && !o.value.incomplete
            && o.value.kind in {SuccessEmpty, SuccessUnchanged, SuccessChanged}))
    && forall i :: 0 <= i < |b.entries| && b.entries[i].lineage.Some? ==>
         EntryStands(s, b, b.entries[i].lineage.value.0, b.entries[i].lineage.value.1)
  }

  /** The item and its Revision belong to the definition, and the decision's Outcome retained that Revision. */
  predicate EntryStands(s: Store, b: BaselineRow, item: ItemId, revision: nat) {
    && Item(s, item).Some? && Item(s, item).value.definition == b.definition
    && Revision(s, revision).Some? && Revision(s, revision).value.item == item
    && Revision(s, revision).value.definition == b.definition
    && exists i :: 0 <= i < |s.occurrences| && s.occurrences[i].revision == revision && s.occurrences[i].outcome == b.outcome
  }

  lemma EntryMeans(s: Store, b: BaselineRow, e: ManifestEntry)
    ensures EntryRetained(s, b, e) <==> e.lineage.None? || EntryStands(s, b, e.lineage.value.0, e.lineage.value.1)
  {
    if e.lineage.Some? && EntryRetained(s, b, e) {
      var d :| d in s.occurrences && d.revision == e.lineage.value.1 && d.outcome == b.outcome;
    }
  }

  lemma BaselineMeans(s: Store, b: BaselineRow)
    ensures BaselineEvidenceError(s, b).None? <==> BaselineStands(s, b)
  {
    hide EntryRetained, EntryStands;
    forall i | 0 <= i < |b.entries|
      ensures EntryRetained(s, b, b.entries[i]) <==>
              (b.entries[i].lineage.Some? ==>
                 EntryStands(s, b, b.entries[i].lineage.value.0, b.entries[i].lineage.value.1))
    {
      EntryMeans(s, b, b.entries[i]);
    }
  }

  /**
   * What a Finding cites: one Request, perhaps one of its attempts and that attempt's Outcome, exactly those
   * it names, at a time they allow, and of the scope it claims.
   */
  predicate CitesOneChain(s: Store, scope: Scope, l: Lineage, r: RequestRow, a: Option<AttemptRow>, o: Option<OutcomeRow>) {
    && (l.request.Some? || l.attempt.Some? || l.outcome.Some?)
    && Request(s, r.id) == Some(r) && (a.Some? ==> Attempt(s, a.value.id) == a && a.value.request == r.id)
    && (o.Some? ==> Outcome(s, o.value.id) == o && o.value.request == r.id && a.Some? && o.value.attempt == a.value.id)
    && (l.request.Some? ==> l.request.value == r.id)
    && (l.attempt.Some? ==> a.Some? && l.attempt.value == a.value.id)
    && l.outcome == (if o.Some? then Some(o.value.id) else None)
    && (a.Some? ==> l.attempt.Some? || l.outcome.Some?)
    && (if o.Some? then o.value.completedAt == l.observedAt && o.value.definition == r.definition
                        && o.value.definitionVersion == r.definitionVersion
        else if a.Some? then a.value.startedAt <= l.observedAt
        else r.requestedAt <= l.observedAt)
    && match scope
       case RequestScope(id) => id == r.id
       case AttemptScope(id) => a.Some? && id == a.value.id
       case OutcomeScope(id) => o.Some? && id == o.value.id
       case DefinitionScope(id) => id == r.definition
       case VersionScope(id) => id == r.definitionVersion
       case AdapterScope(id) => a.Some? && id == a.value.adapterRequest
       case ItemScope(item) =>
         && Item(s, item).Some? && Item(s, item).value.definition == r.definition
         && (o.Some? ==> exists i :: 0 <= i < |s.occurrences| && OccursIn(s, s.occurrences[i], o.value, item))
  }

  lemma ScopeMeans(s: Store, item: ItemId, o: OutcomeRow)
    ensures (exists d :: d in s.occurrences && RetainedFor(s, d, o.id, item)) <==>
            exists i :: 0 <= i < |s.occurrences| && OccursIn(s, s.occurrences[i], o, item)
  {
    if d :| d in s.occurrences && RetainedFor(s, d, o.id, item) {
      var i :| 0 <= i < |s.occurrences| && s.occurrences[i] == d;
      assert OccursIn(s, s.occurrences[i], o, item);
    }
    if i :| 0 <= i < |s.occurrences| && OccursIn(s, s.occurrences[i], o, item) {
      assert RetainedFor(s, s.occurrences[i], o.id, item);
    }
  }

  lemma CitedMeans(s: Store, scope: Scope, l: Lineage)
    requires Cite(s, l).Ok?
    requires Cite(s, l).value.outcome.Some? ==> OutcomeOk(s, Cite(s, l).value.outcome.value)
    ensures var c := Cite(s, l).value;
            LineageErrorOf(s, scope, l).None? <==> CitesOneChain(s, scope, l, c.request, c.attempt, c.outcome)
  {
    hide OccursIn, RetainedFor, Resolve, DistinctObserved;
    var c := Cite(s, l).value;
    if c.outcome.Some? && scope.ItemScope? { ScopeMeans(s, scope.item, c.outcome.value); }
  }

  /** A Finding's lineage is accepted exactly when it cites one chain. */
  lemma LineageMeans(s: Store, scope: Scope, l: Lineage)
    requires RecordsOk(s)
    ensures LineageErrorOf(s, scope, l).None? <==>
            exists r, a, o :: CitesOneChain(s, scope, l, r, a, o)
  {
    if Cite(s, l).Ok? && Cite(s, l).value.outcome.Some? { assert OutcomeOk(s, Cite(s, l).value.outcome.value); }
    hide RecordsOk, CitesOneChain, Cite, CitedError, OutcomeOk;
    if Cite(s, l).Ok? { CitedMeans(s, scope, l); }
    forall r, a, o | CitesOneChain(s, scope, l, r, a, o) ensures Cite(s, l) == Ok(Cited(r, a, o)) {
      CiteIs(s, scope, l, r, a, o);
    }
  }

  lemma CiteIs(s: Store, scope: Scope, l: Lineage, r: RequestRow, a: Option<AttemptRow>, o: Option<OutcomeRow>)
    requires CitesOneChain(s, scope, l, r, a, o)
    ensures Cite(s, l) == Ok(Cited(r, a, o))
  {
  }

  // ----- what each commit guard admits

  /** The Version of its definition with the greatest number. */
  ghost predicate IsCurrent(s: Store, v: VersionRow) {
    v in s.versions && forall w :: w in s.versions && w.definition == v.definition ==> w.number <= v.number
  }

  lemma CurrentVersionMeans(s: Store, definition: nat, v: VersionRow)
    requires SourcesOk(s)
    ensures CurrentVersion(s.versions, definition) == Some(v) <==> IsCurrent(s, v) && v.definition == definition
  {
    forall i | 0 <= i < |s.versions| && s.versions[i].definition == definition
      ensures CurrentVersion(s.versions, definition).Some?
      ensures s.versions[i].number <= CurrentVersion(s.versions, definition).value.number
    {
      CurrentIsGreatest(s.versions, definition, i);
    }
    if IsCurrent(s, v) && v.definition == definition {
      var u := CurrentVersion(s.versions, definition).value;
      var i :| 0 <= i < |s.versions| && s.versions[i] == v;
      var j :| 0 <= j < |s.versions| && s.versions[j] == u;
      assert v.number == u.number;
    }
  }

  /** A Request is admitted exactly when it repeats the current Version's terms under a new identity. */
  lemma RequestAdmitted(s: Store, r: RequestRow)
    requires Inv(s) && r.position == NextPosition(s)
    ensures RequestRefused(s, r).None? <==>
            && (forall x :: x in s.requests ==> x.id != r.id)
            && exists v :: IsCurrent(s, v) && v.definition == r.definition && v.id == r.definitionVersion
                           && v.rights == r.rights && v.baselinePolicy == r.baselinePolicy
                           && v.revisionPolicy == r.revisionPolicy && r.snapshot.coverage in v.coverage
    ensures RequestRefused(s, r).None? <==> (forall x :: x in s.requests ==> x.id != r.id) && RequestOk(s, r)
  {
    hide RecordsOk, AttemptChainsOk, BaselineHeadsOk, CoverageOk, IsCurrent;
    var current := CurrentVersion(s.versions, r.definition);
    if current.Some? { CurrentVersionMeans(s, r.definition, current.value); }
    forall v | IsCurrent(s, v) && v.definition == r.definition ensures current == Some(v) {
      CurrentVersionMeans(s, r.definition, v);
    }
    CurrentIsCurrentAt(s, r.definition);
    CurrentAtIsCurrent(s, r.definition, r.definitionVersion);
  }

  /** At the next position, only the current Version is current. */
  lemma CurrentAtIsCurrent(s: Store, definition: nat, version: nat)
    requires SourcesOk(s) && UniqueKeys(s.versions, VersionKey)
    ensures CurrentAt(s, definition, version, NextPosition(s)) <==>
            var v := CurrentVersion(s.versions, definition); v.Some? && v.value.id == version
  {
    CurrentIsCurrentAt(s, definition);
    if CurrentAt(s, definition, version, NextPosition(s)) {
      var v := Version(s, version).value;
      forall w | w in s.versions && w.definition == definition ensures w.number <= v.number {
        var i :| 0 <= i < |s.versions| && s.versions[i] == w;
        assert s.versions[i].position <= |s.ledger|;
      }
      CurrentVersionMeans(s, definition, v);
    }
  }

  /**
   * An attempt is admitted exactly when, under a new identity, the chain of its Request with it at the end
   * is what the open-time validator accepts. In particular the next retry is admitted once the last
   * attempt's Outcome is retained.
   */
  lemma AttemptAdmitted(s: Store, a: AttemptRow)
    requires Inv(s)
    ensures AttemptRefused(s, a).None? <==>
            && (forall x :: x in s.attempts ==> x.id != a.id)
            && AttemptOk(s, a) && ChainOk(s, AttemptChain(s.attempts, a.request) + [a])
  {
    hide RecordsOk, SourcesOk, BaselineHeadsOk, CoverageOk;
    var chain := AttemptChain(s.attempts, a.request);
    assert ChainOk(s, chain);
    assert Numbered(chain) by {
      forall i | 0 <= i < |chain| ensures chain[i].number == i + 1 { assert LinkOk(s, chain, i); }
    }
    HeadIsLast(s.attempts, a.request);
    if AttemptRefused(s, a).None? {
      ChainGrows(s, a);
    } else if ChainOk(s, chain + [a]) {
      assert LinkOk(s, chain + [a], |chain|);
    }
  }

  /** An Outcome is admitted exactly when it validates as a record and its attempt and identities are unused. */
  lemma OutcomeAdmitted(s: Store, o: OutcomeRow)
    requires o.observed == IndexOf(s, o)
    ensures OutcomeRefused(s, o).None? <==>
            && OutcomeOk(s, o)
            && forall x :: x in s.outcomes ==> x.id != o.id && x.attempt != o.attempt && x.proposal != o.proposal
  {
    hide Resolve;
    if OutcomeRefused(s, o).None? { NewOutcome(s, s, o); }
  }

  lemma {:induction false} MatchingMeans(observed: seq<ObservedItem>, item: ItemId, digest: nat)
    requires forall i, j :: 0 <= i < j < |observed| ==> observed[i].item != observed[j].item
    ensures |Matching(observed, item, digest)| ==
            if exists i :: 0 <= i < |observed| && observed[i].item == item && observed[i].digest == digest then 1 else 0
  {
    if observed != [] {
      var rest := observed[1..];
      assert forall i :: 0 <= i < |rest| ==> rest[i] == observed[i + 1];
      MatchingMeans(rest, item, digest);
      if exists i :: 0 <= i < |observed| && observed[i].item == item && observed[i].digest == digest {
        var i :| 0 <= i < |observed| && observed[i].item == item && observed[i].digest == digest;
        assert i > 0 ==> rest[i - 1] == observed[i];
      }
    }
  }

  /** An Outcome observed the item as this representation. */
  predicate ObservedAs(o: OutcomeRow, item: ItemId, digest: nat) {
    exists i :: 0 <= i < |o.observed| && o.observed[i].item == item && o.observed[i].digest == digest
  }

  lemma BindsMeans(s: Store, o: OutcomeRow, item: ItemId, digest: nat)
    requires OutcomeOk(s, o)
    ensures BindsOneObservedItem(s, o, item, digest) <==> ObservedAs(o, item, digest)
  {
    hide Matching, Resolve;
    MatchingMeans(o.observed, item, digest);
  }

  /** An Occurrence is admitted exactly when it repeats its Outcome's times and names what that observed. */
  lemma OccurrenceAdmitted(s: Store, d: OccurrenceRow)
    requires Inv(s)
    ensures OccurrenceRefused(s, d).None? <==>
            var o, r, p := Outcome(s, d.outcome), Revision(s, d.revision), Representation(s, d.representation);
            && o.Some? && r.Some? && p.Some? && p.value.revision == d.revision
            && ObservedAs(o.value, r.value.item, p.value.digest)
            && o.value.definition == r.value.definition && o.value.receipt == Some(d.receipt)
            && o.value.kind in {SuccessUnchanged, SuccessChanged, SuccessPartial, SuccessTruncated}
            && o.value.definitionVersion == p.value.definitionVersion == d.definitionVersion
            && (exists v :: IsCurrent(s, v) && v.definition == r.value.definition && v.id == d.definitionVersion)
            && o.value.completedAt == d.observedAt
            && r.value.observedAt <= d.observedAt && p.value.producedAt <= d.observedAt
            && forall x :: x in s.occurrences ==>
                 x.id != d.id && !(x.outcome == d.outcome && x.revision == d.revision && x.kind == d.kind)
  {
    hide SourcesOk, AttemptChainsOk, BaselineHeadsOk, CoverageOk, IsCurrent, OutcomeOk, BindsOneObservedItem, ObservedAs;
    var o, r, p := Outcome(s, d.outcome), Revision(s, d.revision), Representation(s, d.representation);
    if o.Some? && r.Some? && p.Some? {
      assert OutcomeOk(s, o.value);
      hide RecordsOk;
      BindsMeans(s, o.value, r.value.item, p.value.digest);
      var current := CurrentVersion(s.versions, r.value.definition);
      if current.Some? { CurrentVersionMeans(s, r.value.definition, current.value); }
      forall v | IsCurrent(s, v) && v.definition == r.value.definition ensures current == Some(v) {
        CurrentVersionMeans(s, r.value.definition, v);
      }
    }
  }

  /** A Baseline Decision is admitted exactly when it stands and extends its definition's lineage by one. */
  lemma BaselineAdmitted(s: Store, b: BaselineRow)
    requires Inv(s)
    ensures BaselineRefused(s, b).None? <==>
            && BaselineStands(s, b)
            && (exists v :: IsCurrent(s, v) && v.definition == b.definition && v.id == b.definitionVersion)
            && LineageOk(BaselineChain(s.baselines, b.definition) + [b])
            && forall x :: x in s.baselines ==> x.id != b.id && x.outcome != b.outcome
  {
    hide RecordsOk, SourcesOk, AttemptChainsOk, CoverageOk, IsCurrent, BaselineEvidenceError, BaselineStands;
    BaselineMeans(s, b);
    var current := CurrentVersion(s.versions, b.definition);
    if current.Some? { CurrentVersionMeans(s, b.definition, current.value); }
    forall v | IsCurrent(s, v) && v.definition == b.definition ensures current == Some(v) {
      CurrentVersionMeans(s, b.definition, v);
    }
    LineageGrows(s, b);
  }

  lemma LineageGrows(s: Store, b: BaselineRow)
    requires BaselineHeadsOk(s)
    ensures LineageOk(BaselineChain(s.baselines, b.definition) + [b]) <==> FollowsHead(s, b)
  {
    var chain := BaselineChain(s.baselines, b.definition);
    assert LineageOk(chain) && HeadOk(s, b.definition);
    forall i | 0 <= i < |chain| ensures LineageLinkOk(chain + [b], i) { assert LineageLinkOk(chain, i); }
    assert LineageLinkOk(chain + [b], |chain|) <==> FollowsHead(s, b);
  }

  /** What a transition must match in the rows it names, evidence and shape apart. */
  ghost predicate Anchored(s: Store, t: TransitionRow, o: OutcomeRow) {
    && o.definition == t.definition && o.definitionVersion == t.definitionVersion
    && Item(s, t.item).Some? && Item(s, t.item).value.definition == t.definition
    && Request(s, o.request).Some? && Request(s, o.request).value.transitionPolicy == t.transitionPolicy
    && (exists v :: IsCurrent(s, v) && v.definition == t.definition && v.id == t.definitionVersion
                    && v.observation == t.observation)
    && (t.current.None? ==> t.kind == AmbiguousAbsence || !o.incomplete)
    && (t.prior.Some? ==> Revision(s, t.prior.value).Some? && Revision(s, t.prior.value).value.item == t.item)
    && (t.current.Some? ==>
          var r, p := Revision(s, t.current.value.revision), Representation(s, t.current.value.representation);
          r.Some? && r.value.item == t.item && p.Some? && p.value.revision == t.current.value.revision)
    && (t.related.Some? ==> Item(s, t.related.value).Some? && Item(s, t.related.value).value.definition == t.definition)
  }

  /** A transition is admitted exactly when its shape, its anchors, its evidence and its history stand. */
  lemma TransitionAdmitted(s: Store, t: TransitionRow)
    requires Inv(s)
    ensures TransitionRefused(s, t).None? <==>
            && WellShaped(t) && Outcome(s, t.outcome).Some?
            && var o := Outcome(s, t.outcome).value;
               && Anchored(s, t, o) && EvidenceStands(s, t, o) && PriorStands(s, t, o) && KindStands(s, t)
               && forall x :: x in s.transitions ==> x.id != t.id && !(x.outcome == t.outcome && x.item == t.item)
  {
    hide RecordsOk, SourcesOk, AttemptChainsOk, BaselineHeadsOk, CoverageOk, IsCurrent, WellShaped, UniqueKeys;
    hide EvidenceStands, PriorStands, KindStands, UnorderedError, TransitionHistoryError;
    if Outcome(s, t.outcome).Some? {
      UnorderedMeans(s, t, Outcome(s, t.outcome).value);
      HistoryMeans(s, t);
      assert EvidenceStands(s, t, Outcome(s, t.outcome).value) ==>
               Outcome(s, t.outcome).value.completedAt == t.observedAt by { ObservedThen(s, t, Outcome(s, t.outcome).value); }
    }
    var current := CurrentVersion(s.versions, t.definition);
    if current.Some? { CurrentVersionMeans(s, t.definition, current.value); }
    forall v | IsCurrent(s, v) && v.definition == t.definition ensures current == Some(v) {
      CurrentVersionMeans(s, t.definition, v);
    }
  }

  lemma ObservedThen(s: Store, t: TransitionRow, o: OutcomeRow)
    ensures EvidenceStands(s, t, o) ==> o.completedAt == t.observedAt
  {
  }

  /** A Finding is admitted exactly when it cites one chain under a new identity; so is one of its occurrences. */
  lemma FindingAdmitted(s: Store, f: FindingRow, d: FindingOccurrenceRow)
    requires Inv(s)
    ensures FindingRefused(s, f).None? <==>
            && (exists r, a, o :: CitesOneChain(s, f.scope, f.lineage, r, a, o))
            && forall x :: x in s.findings ==> x.id != f.id
    ensures FindingOccurrenceRefused(s, d).None? <==>
            && Finding(s, d.finding).Some?
            && (exists r, a, o :: CitesOneChain(s, Finding(s, d.finding).value.scope, d.lineage, r, a, o))
            && forall x :: x in s.findingOccurrences ==> x.id != d.id
  {
    hide RecordsOk, SourcesOk, AttemptChainsOk, BaselineHeadsOk, CoverageOk, CitesOneChain, LineageErrorOf;
    LineageMeans(s, f.scope, f.lineage);
    if Finding(s, d.finding).Some? { LineageMeans(s, Finding(s, d.finding).value.scope, d.lineage); }
  }

  // ----- what a retained record must match

  /** The Version was retained by then, and none of its definition with a greater number was. */
  ghost predicate WasCurrent(s: Store, definition: nat, version: nat, position: nat) {
    exists v :: v in s.versions && v.id == version && v.definition == definition && v.position <= position
                && forall w :: w in s.versions && w.definition == definition && w.position <= position ==> w.number <= v.number
  }

  lemma CurrentAtMeans(s: Store, definition: nat, version: nat, position: nat)
    requires UniqueKeys(s.versions, VersionKey)
    ensures CurrentAt(s, definition, version, position) <==> WasCurrent(s, definition, version, position)
  {
    forall v | v in s.versions && v.id == version ensures Version(s, version) == Some(v) {
      FindUnique(s.versions, VersionKey, v);
    }
    if CurrentAt(s, definition, version, position) {
      var v := Version(s, version).value;
      forall w | w in s.versions && w.definition == definition && w.position <= position ensures w.number <= v.number {
        var i :| 0 <= i < |s.versions| && s.versions[i] == w;
      }
    }
  }

  /** A Request repeats the terms of the Version that was current when it was made. */
  lemma RequestRecordMeans(s: Store, r: RequestRow)
    requires UniqueKeys(s.versions, VersionKey)
    ensures RequestOk(s, r) <==>
            && WasCurrent(s, r.definition, r.definitionVersion, r.position)
            && exists v :: v in s.versions && v.id == r.definitionVersion && v.rights == r.rights
                           && v.baselinePolicy == r.baselinePolicy && v.revisionPolicy == r.revisionPolicy
                           && r.snapshot.coverage in v.coverage
  {
    CurrentAtMeans(s, r.definition, r.definitionVersion, r.position);
    forall v | v in s.versions && v.id == r.definitionVersion ensures Version(s, r.definitionVersion) == Some(v) {
      FindUnique(s.versions, VersionKey, v);
    }
    hide WasCurrent;
  }

  /** An Occurrence repeats its Outcome's columns and names one item and representation that it observed. */
  lemma OccurrenceRecordMeans(s: Store, d: OccurrenceRow)
    requires Outcome(s, d.outcome).Some? ==> OutcomeOk(s, Outcome(s, d.outcome).value)
    ensures OccurrenceOk(s, d) <==>
            var o, r, p := Outcome(s, d.outcome), Revision(s, d.revision), Representation(s, d.representation);
            && o.Some? && r.Some? && p.Some? && d.id in s.links && s.links[d.id] == d.outcome
            && o.value.definition == r.value.definition == d.definition
            && o.value.definitionVersion == d.definitionVersion
            && o.value.completedAt == d.observedAt && o.value.receipt == Some(d.receipt)
            && o.value.kind in {SuccessUnchanged, SuccessChanged, SuccessPartial, SuccessTruncated}
            && ObservedAs(o.value, r.value.item, p.value.digest)
  {
    hide OutcomeOk, BindsOneObservedItem, ObservedAs;
    var o, r, p := Outcome(s, d.outcome), Revision(s, d.revision), Representation(s, d.representation);
    if o.Some? && r.Some? && p.Some? { BindsMeans(s, o.value, r.value.item, p.value.digest); }
  }

  /** A transition matches the rows it names, under the Version that was current, and its evidence stands. */
  lemma TransitionRecordMeans(s: Store, t: TransitionRow)
    requires UniqueKeys(s.versions, VersionKey)
    ensures TransitionRecordOk(s, t) <==>
            var o, item := Outcome(s, t.outcome), Item(s, t.item);
            && WellShaped(t) && o.Some? && EvidenceStands(s, t, o.value)
            && WasCurrent(s, t.definition, t.definitionVersion, t.position)
            && (exists v :: v in s.versions && v.id == t.definitionVersion && v.observation == t.observation)
            && o.value.definition == t.definition && o.value.definitionVersion == t.definitionVersion
            && item.Some? && item.value.definition == t.definition
            && Request(s, o.value.request).Some?
            && Request(s, o.value.request).value.transitionPolicy == t.transitionPolicy
            && (t.current.Some? ==>
                  Revision(s, t.current.value.revision).Some?
                  && Revision(s, t.current.value.revision).value.item == t.item)
  {
    CurrentAtMeans(s, t.definition, t.definitionVersion, t.position);
    forall v | v in s.versions && v.id == t.definitionVersion ensures Version(s, t.definitionVersion) == Some(v) {
      FindUnique(s.versions, VersionKey, v);
    }
    if Outcome(s, t.outcome).Some? { UnorderedMeans(s, t, Outcome(s, t.outcome).value); }
    hide WasCurrent, UnorderedError, EvidenceStands, WellShaped;
  }

  // ----- the identities of sources

  /** Items, their identity digests, Revisions and Representations are each retained once. */
  ghost predicate SourcesDistinct(s: Store) {
    && UniqueKeys(s.items, ItemKey) && UniqueKeys(s.items, ItemDigestKey)
    && UniqueKeys(s.revisions, RevisionKey) && UniqueKeys(s.representations, RepresentationKey)
  }

  lemma CommitDistinct(s: Store, c: Command)
    requires SourcesDistinct(s)
    ensures SourcesDistinct(Step(s, c))
  {
    hide RequestRefused, AttemptRefused, OutcomeRefused, OccurrenceRefused, BaselineRefused, TransitionRefused,
         FindingRefused, FindingOccurrenceRefused, TransitionEvidenceError, BaselineEvidenceError, IndexOf;
    match c
    case AddItem(i) =>
      if Refused(s, c).None? {
        UniqueAppend(s.items, i, ItemKey);
        UniqueAppend(s.items, i, ItemDigestKey);
      }
    case AddRevision(r) => if Refused(s, c).None? { UniqueAppend(s.revisions, r, RevisionKey); }
    case AddRepresentation(p) => if Refused(s, c).None? { UniqueAppend(s.representations, p, RepresentationKey); }
    case _ =>
  }

  /** In every store a run reaches, so that a delivered key names at most one item. */
  lemma {:induction false} RunDistinct(s: Store, cs: seq<Command>)
    requires SourcesDistinct(s)
    ensures SourcesDistinct(Run(s, cs))
    decreases cs
  {
    if cs != [] {
      CommitDistinct(s, cs[0]);
      hide Step, SourcesDistinct;
      RunDistinct(Step(s, cs[0]), cs[1..]);
    }
  }

  // ----- the observed-item index

  /** The index exists exactly when every delivered key names a retained item, and then names those items. */
  lemma {:induction false} ResolveMeans(s: Store, trigger: Trigger, definition: nat, observed: seq<ObservedItem>)
    ensures Resolve(s, trigger, definition, observed).Some? <==>
            forall i :: 0 <= i < |observed| ==> NamesItem(s, trigger, definition, observed[i].key)
    ensures var r := Resolve(s, trigger, definition, observed);
            r.Some? ==> forall i :: 0 <= i < |observed| ==>
              && r.value[i].key == observed[i].key && r.value[i].digest == observed[i].digest
              && if trigger == DeliveredInput
                 then exists x :: x in s.items && x.definition == definition && x.identityDigest == observed[i].key
                                  && r.value[i].item == x.id
                 else r.value[i].item == Derived(definition, observed[i].key)
  {
    if observed != [] {
      var rest := observed[1..];
      assert forall i :: 0 <= i < |rest| ==> rest[i] == observed[i + 1];
      assert forall i :: 0 < i < |observed| ==> observed[i] == rest[i - 1];
      ResolveMeans(s, trigger, definition, rest);
      var r := Resolve(s, trigger, definition, observed);
      assert r.Some? ==> forall i :: 0 < i < |observed| ==>
        r.value[i] == Resolve(s, trigger, definition, rest).value[i - 1];
    }
  }

  ghost predicate NamesItem(s: Store, trigger: Trigger, definition: nat, key: nat) {
    trigger == DeliveredInput ==> exists x :: x in s.items && x.definition == definition && x.identityDigest == key
  }

  // ----- the admission lookup

  /** A query is well formed when item and Request share their Version and a retained Outcome agrees with it. */
  lemma QueryMeans(s: Store, q: CheckLookup.Query)
    requires Inv(s)
    ensures CheckLookup.QueryError(s, q).None? <==>
            var i, r := Item(s, q.item), Request(s, q.request);
            && i.Some? && r.Some? && i.value.definition == r.value.definition
            && i.value.definitionVersion == r.value.definitionVersion && r.value.requestedAt <= q.completedAt
            && forall o :: o in s.outcomes && o.id == q.outcome ==>
                 o.request == q.request && o.completedAt == q.completedAt && Observes(o, q.item)
  {
    var current := Outcome(s, q.outcome);
    hide SourcesOk, AttemptChainsOk, BaselineHeadsOk, CoverageOk, Resolve;
    if current.Some? {
      assert OutcomeOk(s, current.value);
      CheckLookup.ObservedOnce(current.value.observed, q.item);
      hide CheckLookup.TimesObserved, RecordsOk;
      forall o | o in s.outcomes && o.id == q.outcome ensures current == Some(o) { FindUnique(s.outcomes, OutcomeKey, o); }
    }
  }

  /** An Outcome other than the query's own that observed the item before it, or before it would be retained. */
  ghost predicate Earlier(s: Store, q: CheckLookup.Query, p: OutcomeRow) {
    && p in s.outcomes && Observes(p, q.item) && p.id != q.outcome
    && (p.completedAt < q.completedAt
        || (p.completedAt == q.completedAt
            && forall o :: o in s.outcomes && o.id == q.outcome ==> p.position < o.position))
  }

  ghost predicate LatestEarlier(s: Store, q: CheckLookup.Query, p: OutcomeRow) {
    Earlier(s, q, p) && forall x :: Earlier(s, q, x) ==> !ComesBefore(p, x)
  }

  lemma EarlierIsBefore(s: Store, q: CheckLookup.Query, p: OutcomeRow)
    requires UniqueKeys(s.outcomes, OutcomeKey) && CheckLookup.QueryError(s, q).None? && p in s.outcomes
    ensures ObservedBefore(p, q.item, q.outcome, CheckLookup.QueryBoundary(s, q)) <==> Earlier(s, q, p)
  {
    hide Observes;
    forall o | o in s.outcomes && o.id == q.outcome ensures Outcome(s, q.outcome) == Some(o) {
      FindUnique(s.outcomes, OutcomeKey, o);
    }
  }

  lemma ObserverMeans(s: Store, q: CheckLookup.Query)
    requires UniqueKeys(s.outcomes, OutcomeKey) && CoverageOk(s) && CheckLookup.QueryError(s, q).None?
    ensures var r := CheckLookup.PriorObserver(s, q);
            && (r.None? ==> forall p :: !Earlier(s, q, p))
            && (r.Some? ==> forall p :: LatestEarlier(s, q, p) <==> p == r.value)
  {
    hide UniqueKeys, CoverageOk, Observes, PriorOutcome, CheckLookup.QueryError, CheckLookup.QueryBoundary;
    var b := CheckLookup.QueryBoundary(s, q);
    var r := CheckLookup.PriorObserver(s, q);
    PriorOutcomeObserved(s.outcomes, q.item, q.outcome, b);
    forall p | p in s.outcomes ensures ObservedBefore(p, q.item, q.outcome, b) <==> Earlier(s, q, p) {
      EarlierIsBefore(s, q, p);
    }
    forall p | Earlier(s, q, p) ensures r.Some? && !ComesBefore(r.value, p) {
      PriorOutcomeLatest(s.outcomes, q.item, q.outcome, b, p);
      PrecedesComesBefore(r.value, p);
    }
    forall p | LatestEarlier(s, q, p) ensures r == Some(p) { SamePositionIs(s, p, r.value); }
  }

  /**
   * In every reachable store a well-formed lookup answers None exactly when no earlier Outcome observed the
   * item, and R exactly when every earlier observer retained an Occurrence of it and the latest one
   * retained a single one, of Revision R.
   */
  lemma LookupMeans(s: Store, q: CheckLookup.Query, revision: nat)
    requires Inv(s) && CheckLookup.QueryError(s, q).None?
    ensures CheckLookup.ObservedPriorRevision(s, q) == Ok(None) <==> forall p :: !Earlier(s, q, p)
    ensures CheckLookup.ObservedPriorRevision(s, q) == Ok(Some(revision)) <==>
            && (forall p :: Earlier(s, q, p) ==>
                  exists i :: 0 <= i < |s.occurrences| && OccursIn(s, s.occurrences[i], p, q.item))
            && exists p, i: nat :: LatestEarlier(s, q, p) && OnlyOccurrence(s, s.occurrences, p, q.item, i)
                                   && s.occurrences[i].revision == revision
  {
    CheckLookup.LookupExact(s, q);
    hide RecordsOk, SourcesOk, AttemptChainsOk, BaselineHeadsOk, CoverageOk, UniqueKeys, Earlier, LatestEarlier,
         OccurrencesFor, OccursIn, OnlyOccurrence, PriorOutcome, Observes,
         CheckLookup.QueryError, CheckLookup.ObservedPriorRevision, CheckLookup.PriorObserver;
    ObserverMeans(s, q);
    UnresolvedMeans(s, q);
    var observer := CheckLookup.PriorObserver(s, q);
    if observer.Some? {
      assert LatestEarlier(s, q, observer.value);
      LatestIsEarlier(s, q, observer.value);
      SingleOccurrence(s, q.item, observer.value, revision);
    }
  }

  lemma LatestIsEarlier(s: Store, q: CheckLookup.Query, p: OutcomeRow)
    requires LatestEarlier(s, q, p)
    ensures Earlier(s, q, p)
  {
  }

  lemma UnresolvedMeans(s: Store, q: CheckLookup.Query)
    requires UniqueKeys(s.outcomes, OutcomeKey) && CheckLookup.QueryError(s, q).None?
    ensures CheckLookup.Unresolved(s, q) <==>
            exists p :: Earlier(s, q, p)
                        && !exists i :: 0 <= i < |s.occurrences| && OccursIn(s, s.occurrences[i], p, q.item)
  {
    hide UniqueKeys, Observes, OccurrencesFor, OccursIn, CheckLookup.QueryError, CheckLookup.QueryBoundary;
    forall p | p in s.outcomes
      ensures ObservedBefore(p, q.item, q.outcome, CheckLookup.QueryBoundary(s, q)) <==> Earlier(s, q, p)
      ensures OccurrencesFor(s, s.occurrences, p.id, q.item) == [] <==>
              !exists i :: 0 <= i < |s.occurrences| && OccursIn(s, s.occurrences[i], p, q.item)
    {
      EarlierIsBefore(s, q, p);
      NoneMeans(s, s.occurrences, p, q.item);
    }
  }

  lemma SingleOccurrence(s: Store, item: ItemId, p: OutcomeRow, revision: nat)
    ensures var found := OccurrencesFor(s, s.occurrences, p.id, item);
            (|found| == 1 && found[0].revision == revision) <==>
            exists i: nat :: OnlyOccurrence(s, s.occurrences, p, item, i) && s.occurrences[i].revision == revision
  {
    hide OccurrencesFor, OccursIn;
    if |OccurrencesFor(s, s.occurrences, p.id, item)| == 1 {
      var i := OneIsOnly(s, s.occurrences, p, item);
      OnlyIs(s, s.occurrences, p, item, i);
    }
    forall i: nat | OnlyOccurrence(s, s.occurrences, p, item, i)
      ensures OccurrencesFor(s, s.occurrences, p.id, item) == [s.occurrences[i]]
    {
      OnlyIs(s, s.occurrences, p, item, i);
    }
  }
}
