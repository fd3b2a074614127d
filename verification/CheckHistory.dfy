/**
 * History queries of the Check store. They order Outcomes by (completedAt, ledger position), which
 * is not the order of commits, so an Outcome committed later can precede one committed earlier.
 */
module CheckHistory {
  import opened Common
  import opened CheckModel

  /** The sort key of an ORDER BY over Outcomes and the rows joined to them. */
  datatype Key = Key(completedAt: nat, outcomePosition: nat, rowPosition: nat)

  predicate Older(a: Key, b: Key) {
    || a.completedAt < b.completedAt
    || (a.completedAt == b.completedAt && a.outcomePosition < b.outcomePosition)
    || (a.completedAt == b.completedAt && a.outcomePosition == b.outcomePosition && a.rowPosition < b.rowPosition)
  }

  datatype Candidate<T> = Candidate(key: Key, value: T)

  /** `ORDER BY key DESC LIMIT 1`. */
  function Latest<T>(cs: seq<Candidate<T>>): (r: Option<Candidate<T>>)
    ensures r.None? <==> cs == []
    ensures r.Some? ==> r.value in cs
  {
    if cs == [] then None
    else
      var m := Latest(cs[..|cs| - 1]);
      if m.None? || Older(m.value.key, cs[|cs| - 1].key) then Some(cs[|cs| - 1]) else m
  }

  lemma {:induction false} LatestIsLatest<T>(cs: seq<Candidate<T>>, c: Candidate<T>)
    requires c in cs
    ensures !Older(Latest(cs).value.key, c.key)
  {
    if c in cs[..|cs| - 1] { LatestIsLatest(cs[..|cs| - 1], c); }
  }

  lemma LatestAppend<T>(cs: seq<Candidate<T>>, c: Candidate<T>)
    ensures Latest(cs + [c]) ==
            if Latest(cs).None? || Older(Latest(cs).value.key, c.key) then Some(c) else Latest(cs)
  {
    assert (cs + [c])[..|cs|] == cs;
  }

  /**
   * Which Outcomes precede the boundary of a query: those of a retained current Outcome are cut at
   * its (completedAt, position); an Outcome that is not retained yet has no position, and the cut
   * is at its completion time inclusive.
   */
  datatype Boundary = Boundary(completedAt: nat, position: Option<nat>)

  predicate Precedes(o: OutcomeRow, b: Boundary) {
    || o.completedAt < b.completedAt
    || (o.completedAt == b.completedAt && (b.position.None? || o.position < b.position.value))
  }

  function BoundaryOf(o: OutcomeRow): Boundary { Boundary(o.completedAt, Some(o.position)) }

  predicate Observes(o: OutcomeRow, item: ItemId) {
    exists i :: 0 <= i < |o.observed| && o.observed[i].item == item
  }

  // ----- the latest earlier Outcome that observed an item

  predicate ObservedBefore(o: OutcomeRow, item: ItemId, except: nat, b: Boundary) {
    Observes(o, item) && o.id != except && Precedes(o, b)
  }

  function OutcomeCandidate(o: OutcomeRow): Candidate<OutcomeRow> {
    Candidate(Key(o.completedAt, o.position, 0), o)
  }

  function PriorObservers(os: seq<OutcomeRow>, item: ItemId, except: nat, b: Boundary)
    : seq<Candidate<OutcomeRow>>
  {
    if os == [] then []
    else
      var last := os[|os| - 1];
      PriorObservers(os[..|os| - 1], item, except, b)
      + (if ObservedBefore(last, item, except, b) then [OutcomeCandidate(last)] else [])
  }

  /** The latest earlier Outcome that observed an item. */
  function PriorOutcome(os: seq<OutcomeRow>, item: ItemId, except: nat, b: Boundary): Option<OutcomeRow> {
    var l := Latest(PriorObservers(os, item, except, b));
    if l.None? then None else Some(l.value.value)
  }

  lemma {:induction false} PriorObserversAre(
      os: seq<OutcomeRow>, item: ItemId, except: nat, b: Boundary, c: Candidate<OutcomeRow>)
    ensures c in PriorObservers(os, item, except, b) <==>
            c.value in os && ObservedBefore(c.value, item, except, b) && c == OutcomeCandidate(c.value)
  {
    if os != [] { PriorObserversAre(os[..|os| - 1], item, except, b, c); }
  }

  /** The query returns an earlier observer of the item. */
  lemma PriorOutcomeObserved(os: seq<OutcomeRow>, item: ItemId, except: nat, b: Boundary)
    ensures var r := PriorOutcome(os, item, except, b);
            r.Some? ==> r.value in os && ObservedBefore(r.value, item, except, b)
  {
    var l := Latest(PriorObservers(os, item, except, b));
    if l.Some? { PriorObserversAre(os, item, except, b, l.value); }
  }

  /** Every earlier observer of the item is the one returned, or older than it. */
  lemma PriorOutcomeLatest(os: seq<OutcomeRow>, item: ItemId, except: nat, b: Boundary, o: OutcomeRow)
    requires o in os && ObservedBefore(o, item, except, b)
    ensures var r := PriorOutcome(os, item, except, b);
            r.Some? && !Older(OutcomeCandidate(r.value).key, OutcomeCandidate(o).key)
  {
    var cs := PriorObservers(os, item, except, b);
    PriorObserversAre(os, item, except, b, OutcomeCandidate(o));
    LatestIsLatest(cs, OutcomeCandidate(o));
    PriorObserversAre(os, item, except, b, Latest(cs).value);
  }

  /** What appending one Outcome does to the query. */
  lemma PriorOutcomeAppend(os: seq<OutcomeRow>, o: OutcomeRow, item: ItemId, except: nat, b: Boundary)
    ensures var p := PriorOutcome(os, item, except, b);
            PriorOutcome(os + [o], item, except, b) ==
            if ObservedBefore(o, item, except, b)
               && (p.None? || Older(OutcomeCandidate(p.value).key, OutcomeCandidate(o).key))
            then Some(o) else p
  {
    assert (os + [o])[..|os|] == os;
    var cs := PriorObservers(os, item, except, b);
    if cs != [] { PriorObserversAre(os, item, except, b, Latest(cs).value); }
    if ObservedBefore(o, item, except, b) {
      assert PriorObservers(os + [o], item, except, b) == cs + [OutcomeCandidate(o)];
      LatestAppend(cs, OutcomeCandidate(o));
    } else {
      assert PriorObservers(os + [o], item, except, b) == cs;
    }
  }

  // ----- the Revisions an Outcome retained for an item

  predicate RetainedFor(s: Store, d: OccurrenceRow, outcome: nat, item: ItemId) {
    d.outcome == outcome && RevisionItem(s, d.revision) == Some(item)
  }

  function OccurrencesFor(s: Store, ds: seq<OccurrenceRow>, outcome: nat, item: ItemId): seq<OccurrenceRow> {
    if ds == [] then []
    else
      var last := ds[|ds| - 1];
      OccurrencesFor(s, ds[..|ds| - 1], outcome, item) + (if RetainedFor(s, last, outcome, item) then [last] else [])
  }

  lemma {:induction false} OccurrencesForAre(s: Store, ds: seq<OccurrenceRow>, outcome: nat, item: ItemId, d: OccurrenceRow)
    ensures d in OccurrencesFor(s, ds, outcome, item) <==> d in ds && RetainedFor(s, d, outcome, item)
  {
    if ds != [] { OccurrencesForAre(s, ds[..|ds| - 1], outcome, item, d); }
  }

  // ----- the latest earlier transition of an item

  function TransitionCandidates(os: seq<OutcomeRow>, ts: seq<TransitionRow>, item: ItemId, b: Boundary)
    : seq<Candidate<TransitionRow>>
  {
    if ts == [] then []
    else
      var last := ts[|ts| - 1];
      var o := Find(os, OutcomeKey, last.outcome);
      TransitionCandidates(os, ts[..|ts| - 1], item, b)
      + (if last.item == item && o.Some? && Precedes(o.value, b)
         then [Candidate(Key(o.value.completedAt, o.value.position, last.position), last)] else [])
  }

  lemma {:induction false} TransitionCandidatesAre(
      os: seq<OutcomeRow>, ts: seq<TransitionRow>, item: ItemId, b: Boundary, c: Candidate<TransitionRow>)
    ensures c in TransitionCandidates(os, ts, item, b) <==>
            && c.value in ts && c.value.item == item
            && var o := Find(os, OutcomeKey, c.value.outcome);
               o.Some? && Precedes(o.value, b) && c.key == Key(o.value.completedAt, o.value.position, c.value.position)
  {
    if ts != [] { TransitionCandidatesAre(os, ts[..|ts| - 1], item, b, c); }
  }

  function LatestTransition(s: Store, item: ItemId, b: Boundary): Option<Candidate<TransitionRow>> {
    Latest(TransitionCandidates(s.outcomes, s.transitions, item, b))
  }

  // ----- the history verdict on one Observable Transition

  datatype HistoryError =
    | UnretainedOutcome | PriorLacksOneOccurrence | PreviouslyObserved | PriorRevisionDiffers
    | ReactivationWithoutEnding | NoOpenExpectation | NoMissedExpectation

  predicate IsFirstObservation(k: TransitionKind) { k.FirstObserved? || k.Activated? || k.AgendaCreated? }

  predicate IsEnding(k: TransitionKind) { k.ResolvedOrCleared? || k.Expired? || k.Cancelled? || k.Withdrawn? }

  predicate IsAgendaOpen(k: TransitionKind) { k.AgendaCreated? || k.AgendaRescheduled? }

  /** The Revision the prior observed Outcome retained for the item, if there is such an Outcome. */
  function ObservedPrior(prior: Option<OutcomeRow>, retained: seq<OccurrenceRow>): Result<Option<nat>, HistoryError> {
    if prior.None? then Ok(None)
    else if |retained| != 1 then Err(PriorLacksOneOccurrence)
    else Ok(Some(retained[0].revision))
  }

  /** The first half of the verdict: the prior Revision of a transition against observed history. */
  function PriorError(t: TransitionRow, prior: Option<OutcomeRow>, retained: seq<OccurrenceRow>): Option<HistoryError> {
    var observed := ObservedPrior(prior, retained);
    if observed.Err? then Some(observed.error)
    else if IsFirstObservation(t.kind) then
      if prior.Some? then Some(PreviouslyObserved) else None
    else if t.prior.None? || observed.value != t.prior then Some(PriorRevisionDiffers)
    else None
  }

  /** The second half: the kind of a transition against the kind of the latest earlier one. */
  function KindError(k: TransitionKind, latest: Option<TransitionKind>): Option<HistoryError> {
    if k.Reactivated? && !(latest.Some? && IsEnding(latest.value)) then Some(ReactivationWithoutEnding)
    else if (k.AgendaRescheduled? || k.AgendaCancelled? || k.AgendaMissedExpectation?)
            && !(latest.Some? && IsAgendaOpen(latest.value)) then Some(NoOpenExpectation)
    else if k.AgendaLateOccurrence? && !(latest.Some? && latest.value.AgendaMissedExpectation?)
    then Some(NoMissedExpectation)
    else None
  }

  function KindOf(c: Option<Candidate<TransitionRow>>): Option<TransitionKind> {
    if c.None? then None else Some(c.value.value.kind)
  }

  /** What the store answers to the history queries about one transition of an Outcome. */
  datatype History = History(prior: Option<OutcomeRow>, retained: seq<OccurrenceRow>, latest: Option<TransitionKind>)

  function HistoryOf(s: Store, item: ItemId, o: OutcomeRow): History {
    var prior := PriorOutcome(s.outcomes, item, o.id, BoundaryOf(o));
    History(
      prior,
      if prior.None? then [] else OccurrencesFor(s, s.occurrences, prior.value.id, item),
      KindOf(LatestTransition(s, item, BoundaryOf(o))))
  }

  function Verdict(t: TransitionRow, h: History): Option<HistoryError> {
    var e := PriorError(t, h.prior, h.retained);
    if e.Some? then e else KindError(t.kind, h.latest)
  }

  function TransitionHistoryError(s: Store, t: TransitionRow): Option<HistoryError> {
    var o := Outcome(s, t.outcome);
    if o.None? then Some(UnretainedOutcome) else Verdict(t, HistoryOf(s, t.item, o.value))
  }

  // ----- how appends act on the joined queries

  lemma {:induction false} OccurrencesForStable(s: Store, s': Store, ds: seq<OccurrenceRow>, outcome: nat, item: ItemId)
    requires Extends(s, s')
    requires forall d :: d in ds ==> Revision(s, d.revision).Some?
    ensures OccurrencesFor(s', ds, outcome, item) == OccurrencesFor(s, ds, outcome, item)
  {
    LookupsStable(s, s');
    if ds != [] {
      OccurrencesForStable(s, s', ds[..|ds| - 1], outcome, item);
      assert ds[|ds| - 1] in ds;
    }
  }

  lemma OccurrencesForAppend(s: Store, ds: seq<OccurrenceRow>, d: OccurrenceRow, outcome: nat, item: ItemId)
    ensures OccurrencesFor(s, ds + [d], outcome, item) ==
            OccurrencesFor(s, ds, outcome, item) + (if RetainedFor(s, d, outcome, item) then [d] else [])
  {
    assert (ds + [d])[..|ds|] == ds;
  }

  lemma {:induction false} TransitionCandidatesStable(
      os: seq<OutcomeRow>, os': seq<OutcomeRow>, ts: seq<TransitionRow>, item: ItemId, b: Boundary)
    requires os <= os'
    requires forall t :: t in ts ==> Find(os, OutcomeKey, t.outcome).Some?
    ensures TransitionCandidates(os', ts, item, b) == TransitionCandidates(os, ts, item, b)
  {
    if ts != [] {
      var last := ts[|ts| - 1];
      assert last in ts;
      FindStable(os, os', OutcomeKey, last.outcome);
      TransitionCandidatesStable(os, os', ts[..|ts| - 1], item, b);
    }
  }

  lemma TransitionCandidatesAppend(
      os: seq<OutcomeRow>, ts: seq<TransitionRow>, u: TransitionRow, item: ItemId, b: Boundary)
    ensures var o := Find(os, OutcomeKey, u.outcome);
            TransitionCandidates(os, ts + [u], item, b) == TransitionCandidates(os, ts, item, b)
            + (if u.item == item && o.Some? && Precedes(o.value, b)
               then [Candidate(Key(o.value.completedAt, o.value.position, u.position), u)] else [])
  {
    assert (ts + [u])[..|ts|] == ts;
  }
}
