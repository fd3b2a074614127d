/**
 * The admission lookup of the prior observed Revision. It is written differently from the commit
 * guard's history verdict and is called before or after the current Outcome is retained.
 */
module CheckLookup {
  import opened Common
  import opened CheckModel
  import opened CheckHistory
  import opened CheckEvidence
  import opened CheckCommit
  import opened CheckIntegrity
  import opened CheckRuns
  import opened CheckFrame

  datatype LookupError =
    | NotRetained | SourceVersionDiffers | BoundaryDiffers | ItemNotObserved | BoundaryTooEarly
    | UnresolvedPrior | OccurrenceWithoutObservation | LacksOneOccurrence | SourceLineageDiffers

  /** What a caller passes: the item, its Check Request, and the Outcome that bounds the history. */
  datatype Query = Query(item: ItemId, request: nat, outcome: nat, completedAt: nat)

  /** The cut of the history: a retained Outcome has a ledger position, a proposed one has none. */
  function QueryBoundary(s: Store, q: Query): Boundary {
    var current := Outcome(s, q.outcome);
    if current.None? then Boundary(q.completedAt, None) else Boundary(q.completedAt, Some(current.value.position))
  }

  function TimesObserved(observed: seq<ObservedItem>, item: ItemId): nat {
    if observed == [] then 0
    else (if observed[0].item == item then 1 else 0) + TimesObserved(observed[1..], item)
  }

  function QueryError(s: Store, q: Query): Option<LookupError> {
    var item := Item(s, q.item);
    var request := Request(s, q.request);
    var current := Outcome(s, q.outcome);
    if item.None? || request.None? then Some(NotRetained)
    else if item.value.definition != request.value.definition
            || item.value.definitionVersion != request.value.definitionVersion
    then Some(SourceVersionDiffers)
    else if current.Some? && (current.value.request != q.request
                              || current.value.definition != request.value.definition
                              || current.value.definitionVersion != request.value.definitionVersion
                              || current.value.completedAt != q.completedAt)
    then Some(BoundaryDiffers)
    else if current.Some? && TimesObserved(current.value.observed, q.item) != 1 then Some(ItemNotObserved)
    else if q.completedAt < request.value.requestedAt then Some(BoundaryTooEarly)
    else None
  }

  /** Some earlier Outcome observed the item and retained no Occurrence of it. */
  predicate Unresolved(s: Store, q: Query) {
    exists o :: o in s.outcomes && ObservedBefore(o, q.item, q.outcome, QueryBoundary(s, q))
                && OccurrencesFor(s, s.occurrences, o.id, q.item) == []
  }

  // ----- the latest earlier Occurrence of an item, as the lookup joins it

  predicate OccurredBefore(s: Store, d: OccurrenceRow, q: Query, b: Boundary) {
    var o := Outcome(s, d.outcome);
    && RevisionItem(s, d.revision) == Some(q.item) && d.outcome != q.outcome
    && o.Some? && Precedes(o.value, b)
  }

  function OccurrenceCandidate(s: Store, d: OccurrenceRow): Candidate<OccurrenceRow>
    requires Outcome(s, d.outcome).Some?
  {
    var o := Outcome(s, d.outcome).value;
    Candidate(Key(o.completedAt, o.position, d.position), d)
  }

  function OccurrenceCandidates(s: Store, ds: seq<OccurrenceRow>, q: Query, b: Boundary): seq<Candidate<OccurrenceRow>> {
    if ds == [] then []
    else
      var last := ds[|ds| - 1];
      OccurrenceCandidates(s, ds[..|ds| - 1], q, b)
      + (if OccurredBefore(s, last, q, b) then [OccurrenceCandidate(s, last)] else [])
  }

  function LatestOccurrence(s: Store, q: Query): Option<OccurrenceRow> {
    var l := Latest(OccurrenceCandidates(s, s.occurrences, q, QueryBoundary(s, q)));
    if l.None? then None else Some(l.value.value)
  }

  function PriorObserver(s: Store, q: Query): Option<OutcomeRow> {
    PriorOutcome(s.outcomes, q.item, q.outcome, QueryBoundary(s, q))
  }

  /** The end of the lookup: the latest observer and the latest Occurrence must tell the same story. */
  function Reconciled(s: Store, q: Query): Result<Option<nat>, LookupError>
    requires Item(s, q.item).Some?
  {
    var latest := LatestOccurrence(s, q);
    var observer := PriorObserver(s, q);
    if observer.None? then
      if latest.Some? then Err(OccurrenceWithoutObservation) else Ok(None)
    else
      var ds := OccurrencesFor(s, s.occurrences, observer.value.id, q.item);
      if |ds| != 1 then Err(LacksOneOccurrence)
      else if latest.None? || latest.value.revision != ds[0].revision
              || RevisionItem(s, latest.value.revision) != Some(q.item)
              || observer.value.definition != Item(s, q.item).value.definition
              || observer.value.definitionVersion != ds[0].definitionVersion
              || ds[0].observedAt != observer.value.completedAt
      then Err(SourceLineageDiffers)
      else Ok(Some(latest.value.revision))
  }

  function ObservedPriorRevision(s: Store, q: Query): Result<Option<nat>, LookupError> {
    var e := QueryError(s, q);
    if e.Some? then Err(e.value)
    else if Unresolved(s, q) then Err(UnresolvedPrior)
    else Reconciled(s, q)
  }

  // ----- agreement with the commit guard

  function QueryOf(t: TransitionRow, o: OutcomeRow): Query { Query(t.item, o.request, o.id, o.completedAt) }

  lemma QueryIsCut(s: Store, o: OutcomeRow, t: TransitionRow)
    requires Outcome(s, o.id) == Some(o)
    ensures QueryBoundary(s, QueryOf(t, o)) == BoundaryOf(o)
    ensures PriorObserver(s, QueryOf(t, o)) == HistoryOf(s, t.item, o).prior
  {
  }

  /**
   * Whenever the lookup returns, it decides the guard's prior check: None means exactly the
   * first-observation kinds pass it, R means exactly the other kinds whose prior Revision is R do.
   */
  lemma LookupDecidesGuard(s: Store, t: TransitionRow, o: OutcomeRow)
    requires Outcome(s, t.outcome) == Some(o)
    ensures var answer := ObservedPriorRevision(s, QueryOf(t, o));
            var h := HistoryOf(s, t.item, o);
            answer.Ok? ==>
              (PriorError(t, h.prior, h.retained).None? <==>
               if answer.value.None? then IsFirstObservation(t.kind)
               else !IsFirstObservation(t.kind) && t.prior == answer.value)
  {
    QueryIsCut(s, o, t);
  }

  // ----- before and after the current Outcome is retained

  lemma {:induction false} ObservedOnce(observed: seq<ObservedItem>, item: ItemId)
    requires DistinctObserved(observed)
    ensures TimesObserved(observed, item) == if exists i :: 0 <= i < |observed| && observed[i].item == item then 1 else 0
  {
    if observed != [] {
      var rest := observed[1..];
      assert forall i :: 0 <= i < |rest| ==> rest[i] == observed[i + 1];
      ObservedOnce(rest, item);
      if observed[0].item == item {
        assert forall i :: 0 <= i < |rest| ==> rest[i].item != item;
      } else if exists i :: 0 <= i < |observed| && observed[i].item == item {
        var i :| 0 <= i < |observed| && observed[i].item == item;
        assert rest[i - 1].item == item;
      }
    }
  }

  /** Every retained Outcome precedes the cut before the append exactly when it does after it. */
  lemma CutUnchanged(s: Store, s': Store, q: Query, o: OutcomeRow, p: OutcomeRow)
    requires CoverageOk(s) && p in s.outcomes
    requires s'.outcomes == s.outcomes + [o] && Outcome(s, o.id).None? && o.position == NextPosition(s)
    requires q.outcome == o.id
    ensures Precedes(p, QueryBoundary(s', q)) <==> Precedes(p, QueryBoundary(s, q))
  {
    OutcomePositionRetained(s, p);
    FindAppended(s.outcomes, o, OutcomeKey, o.id);
  }

  lemma {:induction false} ObserversUnchanged(s: Store, s': Store, q: Query, o: OutcomeRow, os: seq<OutcomeRow>)
    requires CoverageOk(s) && forall p :: p in os ==> p in s.outcomes
    requires s'.outcomes == s.outcomes + [o] && Outcome(s, o.id).None? && o.position == NextPosition(s)
    requires q.outcome == o.id
    ensures PriorObservers(os, q.item, q.outcome, QueryBoundary(s', q))
            == PriorObservers(os, q.item, q.outcome, QueryBoundary(s, q))
  {
    if os != [] {
      CutUnchanged(s, s', q, o, os[|os| - 1]);
      ObserversUnchanged(s, s', q, o, os[..|os| - 1]);
    }
  }

  lemma PriorObserverUnchanged(s: Store, s': Store, q: Query, o: OutcomeRow)
    requires CoverageOk(s)
    requires s'.outcomes == s.outcomes + [o] && Outcome(s, o.id).None? && o.position == NextPosition(s)
    requires q.outcome == o.id
    ensures PriorObserver(s', q) == PriorObserver(s, q)
  {
    ObserversUnchanged(s, s', q, o, s.outcomes);
    PriorOutcomeAppend(s.outcomes, o, q.item, q.outcome, QueryBoundary(s', q));
  }

  lemma {:induction false} OccurrencesUnchanged(s: Store, s': Store, q: Query, o: OutcomeRow, ds: seq<OccurrenceRow>)
    requires RecordsOk(s) && CoverageOk(s) && forall d :: d in ds ==> d in s.occurrences
    requires s'.outcomes == s.outcomes + [o] && Outcome(s, o.id).None? && o.position == NextPosition(s)
    requires s'.revisions == s.revisions && q.outcome == o.id
    ensures OccurrenceCandidates(s', ds, q, QueryBoundary(s', q)) == OccurrenceCandidates(s, ds, q, QueryBoundary(s, q))
  {
    if ds != [] {
      var d := ds[|ds| - 1];
      assert OccurrenceOk(s, d) by { assert d in s.occurrences; }
      FindStable(s.outcomes, s'.outcomes, OutcomeKey, d.outcome);
      CutUnchanged(s, s', q, o, Outcome(s, d.outcome).value);
      OccurrencesUnchanged(s, s', q, o, ds[..|ds| - 1]);
    }
  }

  lemma UnresolvedUnchanged(s: Store, s': Store, q: Query, o: OutcomeRow)
    requires CoverageOk(s) && q.outcome == o.id
    requires s'.outcomes == s.outcomes + [o] && Outcome(s, o.id).None? && o.position == NextPosition(s)
    requires forall p :: p in s.outcomes ==> OccurrencesFor(s', s'.occurrences, p.id, q.item)
                                             == OccurrencesFor(s, s.occurrences, p.id, q.item)
    ensures Unresolved(s', q) <==> Unresolved(s, q)
  {
    forall p | p in s.outcomes
      ensures ObservedBefore(p, q.item, q.outcome, QueryBoundary(s', q))
              <==> ObservedBefore(p, q.item, q.outcome, QueryBoundary(s, q))
    {
      CutUnchanged(s, s', q, o, p);
    }
    assert !ObservedBefore(o, q.item, q.outcome, QueryBoundary(s', q));
  }

  lemma ReconciledUnchanged(s: Store, s': Store, q: Query, o: OutcomeRow)
    requires RecordsOk(s) && CoverageOk(s) && Extends(s, s') && q.outcome == o.id && Item(s, q.item).Some?
    requires s' == s.(ledger := s'.ledger, outcomes := s.outcomes + [o])
    requires Outcome(s, o.id).None? && o.position == NextPosition(s)
    ensures Item(s', q.item).Some? && Reconciled(s', q) == Reconciled(s, q)
  {
    hide RecordsOk, CoverageOk, OccurrenceCandidates, OccurrencesFor, PriorOutcome, QueryBoundary;
    PriorObserverUnchanged(s, s', q, o);
    OccurrencesUnchanged(s, s', q, o, s.occurrences);
    if PriorObserver(s, q).Some? { RetainedStable(s, s', PriorObserver(s, q).value.id, q.item); }
  }

  lemma QueryErrorUnchanged(s: Store, s': Store, item: ItemId, o: OutcomeRow)
    requires OutcomeRefused(s, o).None? && DistinctObserved(o.observed)
    requires s' == s.(ledger := s'.ledger, outcomes := s.outcomes + [o])
    ensures var q := Query(item, o.request, o.id, o.completedAt);
            QueryError(s', q) ==
            if QueryError(s, q).None? && !Observes(o, item) then Some(ItemNotObserved)
            else if QueryError(s, q) == Some(BoundaryTooEarly) && !Observes(o, item) then Some(ItemNotObserved)
            else QueryError(s, q)
  {
    FindAppended(s.outcomes, o, OutcomeKey, o.id);
    ObservedOnce(o.observed, item);
  }

  /**
   * The lookup gives the same answer immediately before and immediately after its Outcome is
   * retained, for every item that Outcome observed.
   */
  lemma LookupBeforeIsAfter(s: Store, c: Command, item: ItemId)
    requires Inv(s) && c.RecordOutcome? && Admitted(s, c) && Observes(c.outcome, item)
    ensures var q := Query(item, c.outcome.request, c.outcome.id, c.outcome.completedAt);
            ObservedPriorRevision(Appended(s, c), q) == ObservedPriorRevision(s, q)
  {
    hide RecordsOk, SourcesOk, AttemptChainsOk, BaselineHeadsOk, CoverageOk, Unresolved, Reconciled;
    var s', o := Appended(s, c), c.outcome;
    var q := Query(item, o.request, o.id, o.completedAt);
    AdmittedSources(s, c);
    CommitExtends(s, c);
    assert DistinctObserved(o.observed) by { NewOutcome(s, s', o); }
    QueryErrorUnchanged(s, s', item, o);
    if QueryError(s, q).None? {
      forall p | p in s.outcomes ensures OccurrencesFor(s', s'.occurrences, p.id, item)
                                         == OccurrencesFor(s, s.occurrences, p.id, item)
      {
        RetainedStable(s, s', p.id, item);
      }
      UnresolvedUnchanged(s, s', q, o);
      ReconciledUnchanged(s, s', q, o);
    }
  }

  // ----- in a reachable store the lookup is the simple query

  /** The Revision the latest earlier observer retained. */
  function RetainedPrior(s: Store, q: Query): Result<Option<nat>, LookupError> {
    var observer := PriorObserver(s, q);
    if observer.None? then Ok(None)
    else
      var ds := OccurrencesFor(s, s.occurrences, observer.value.id, q.item);
      if |ds| == 1 then Ok(Some(ds[0].revision)) else Err(LacksOneOccurrence)
  }

  lemma {:induction false} OccurrenceCandidatesAre(
      s: Store, ds: seq<OccurrenceRow>, q: Query, b: Boundary, c: Candidate<OccurrenceRow>)
    ensures c in OccurrenceCandidates(s, ds, q, b) <==>
            c.value in ds && OccurredBefore(s, c.value, q, b) && c == OccurrenceCandidate(s, c.value)
  {
    if ds != [] { OccurrenceCandidatesAre(s, ds[..|ds| - 1], q, b, c); }
  }

  /** An Occurrence is retained only for an item its Outcome observed. */
  lemma OccurrenceObserved(s: Store, d: OccurrenceRow)
    requires RecordsOk(s) && d in s.occurrences
    ensures Outcome(s, d.outcome).Some? && RevisionItem(s, d.revision).Some?
    ensures Observes(Outcome(s, d.outcome).value, RevisionItem(s, d.revision).value)
  {
    assert OccurrenceOk(s, d);
    var o := Outcome(s, d.outcome).value;
    assert OutcomeOk(s, o);
    assert Matching(o.observed, RevisionItem(s, d.revision).value,
                    Representation(s, d.representation).value.digest) != [];
  }

  lemma SamePosition(s: Store, a: OutcomeRow, b: OutcomeRow)
    requires CoverageOk(s) && a in s.outcomes && b in s.outcomes && a.position == b.position
    ensures a == b
  {
    var i :| 0 <= i < |s.outcomes| && s.outcomes[i] == a;
    var j :| 0 <= j < |s.outcomes| && s.outcomes[j] == b;
    if i < j {
      PositionsIncrease(s.ledger, OutcomeRecorded, i, j);
      assert false;
    } else if j < i {
      PositionsIncrease(s.ledger, OutcomeRecorded, j, i);
      assert false;
    }
  }

  lemma NoObserverNoOccurrence(s: Store, q: Query)
    requires RecordsOk(s) && PriorObserver(s, q).None?
    ensures LatestOccurrence(s, q).None?
  {
    var b := QueryBoundary(s, q);
    var cs := OccurrenceCandidates(s, s.occurrences, q, b);
    if cs != [] {
      var l := Latest(cs).value;
      OccurrenceCandidatesAre(s, s.occurrences, q, b, l);
      OccurrenceObserved(s, l.value);
      PriorOutcomeLatest(s.outcomes, q.item, q.outcome, b, Outcome(s, l.value.outcome).value);
    }
  }

  /** The latest Occurrence belongs to the latest observer, if that observer retained any. */
  lemma LatestAmong(s: Store, q: Query, observer: OutcomeRow, d: OccurrenceRow)
    requires RecordsOk(s) && CoverageOk(s)
    requires PriorObserver(s, q) == Some(observer) && Outcome(s, observer.id) == Some(observer)
    requires ObservedBefore(observer, q.item, q.outcome, QueryBoundary(s, q))
    requires d in OccurrencesFor(s, s.occurrences, observer.id, q.item)
    ensures LatestOccurrence(s, q).Some?
    ensures LatestOccurrence(s, q).value in OccurrencesFor(s, s.occurrences, observer.id, q.item)
  {
    hide RecordsOk, CoverageOk, OccurrenceCandidates, OccurrencesFor, PriorOutcome;
    var b := QueryBoundary(s, q);
    var cs := OccurrenceCandidates(s, s.occurrences, q, b);
    OccurrencesForAre(s, s.occurrences, observer.id, q.item, d);
    OccurrenceCandidatesAre(s, s.occurrences, q, b, OccurrenceCandidate(s, d));
    LatestIsLatest(cs, OccurrenceCandidate(s, d));
    var l := Latest(cs).value;
    OccurrenceCandidatesAre(s, s.occurrences, q, b, l);
    OccurrenceObserved(s, l.value);
    var holder := Outcome(s, l.value.outcome).value;
    PriorOutcomeLatest(s.outcomes, q.item, q.outcome, b, holder);
    SamePosition(s, holder, observer);
    OccurrencesForAre(s, s.occurrences, observer.id, q.item, l.value);
  }

  /** The lineage an Occurrence repeats is its Outcome's and its item's. */
  lemma OccurrenceLineage(s: Store, d: OccurrenceRow, item: ItemId)
    requires RecordsOk(s) && SourcesOk(s) && d in s.occurrences && RevisionItem(s, d.revision) == Some(item)
    ensures Outcome(s, d.outcome).Some? && Item(s, item).Some?
    ensures var o := Outcome(s, d.outcome).value;
            && o.definition == Item(s, item).value.definition
            && o.definitionVersion == d.definitionVersion && d.observedAt == o.completedAt
  {
    assert OccurrenceOk(s, d);
    assert Revision(s, d.revision).value in s.revisions;
  }

  lemma OneOccurrence(s: Store, q: Query, observer: OutcomeRow, d: OccurrenceRow)
    requires RecordsOk(s) && SourcesOk(s) && CoverageOk(s) && UniqueKeys(s.outcomes, OutcomeKey)
    requires PriorObserver(s, q) == Some(observer)
    requires OccurrencesFor(s, s.occurrences, observer.id, q.item) == [d]
    ensures LatestOccurrence(s, q) == Some(d) && RevisionItem(s, d.revision) == Some(q.item)
    ensures Item(s, q.item).Some? && observer.definition == Item(s, q.item).value.definition
    ensures observer.definitionVersion == d.definitionVersion && d.observedAt == observer.completedAt
  {
    hide RecordsOk, SourcesOk, CoverageOk, LatestOccurrence, PriorOutcome, QueryBoundary;
    PriorOutcomeObserved(s.outcomes, q.item, q.outcome, QueryBoundary(s, q));
    FindUnique(s.outcomes, OutcomeKey, observer);
    LatestAmong(s, q, observer, d);
    OccurrencesForAre(s, s.occurrences, observer.id, q.item, d);
    OccurrenceLineage(s, d, q.item);
  }

  lemma ReconciledExact(s: Store, q: Query)
    requires RecordsOk(s) && SourcesOk(s) && CoverageOk(s) && UniqueKeys(s.outcomes, OutcomeKey)
    requires Item(s, q.item).Some?
    ensures Reconciled(s, q) == RetainedPrior(s, q)
  {
    var observer := PriorObserver(s, q);
    if observer.None? {
      NoObserverNoOccurrence(s, q);
    } else {
      var ds := OccurrencesFor(s, s.occurrences, observer.value.id, q.item);
      if |ds| == 1 { OneOccurrence(s, q, observer.value, ds[0]); }
    }
  }

  /**
   * In every reachable store the lookup is the simple query: the consistency refusals at its end are
   * unreachable, and a well-formed query fails exactly when some earlier observer retained no
   * Occurrence or the latest one retained several.
   */
  lemma LookupExact(s: Store, q: Query)
    requires Inv(s)
    ensures ObservedPriorRevision(s, q) ==
            if QueryError(s, q).Some? then Err(QueryError(s, q).value)
            else if Unresolved(s, q) then Err(UnresolvedPrior)
            else RetainedPrior(s, q)
  {
    if QueryError(s, q).None? { ReconciledExact(s, q); }
  }
}
