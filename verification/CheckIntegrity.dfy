/**
 * What the open-time validators demand of the retained tables, and the invariant every commit keeps.
 */
module CheckIntegrity {
  import opened Common
  import opened CheckModel
  import opened CheckHistory
  import opened CheckEvidence
  import opened CheckCommit

  // ----- record validation, one predicate for each table

  /** The Version was the current one of its definition when the record at `position` was made. */
  predicate CurrentAt(s: Store, definition: nat, version: nat, position: nat) {
    var v := Version(s, version);
    && v.Some? && v.value.definition == definition && v.value.position <= position
    && forall i :: 0 <= i < |s.versions| ==>
         s.versions[i].definition == definition && s.versions[i].number > v.value.number
         ==> position < s.versions[i].position
  }

  predicate RequestOk(s: Store, r: RequestRow) {
    var v := Version(s, r.definitionVersion);
    && CurrentAt(s, r.definition, r.definitionVersion, r.position)
    && v.Some? && v.value.definition == r.definition && v.value.rights == r.rights
    && v.value.baselinePolicy == r.baselinePolicy && v.value.revisionPolicy == r.revisionPolicy
    && r.snapshot.coverage in v.value.coverage
  }

  predicate AttemptOk(s: Store, a: AttemptRow) {
    var parent := Request(s, a.request);
    parent.Some? && parent.value.adapterDigest == a.adapterDigest
  }

  predicate OutcomeOk(s: Store, o: OutcomeRow) {
    var attempt := Attempt(s, o.attempt);
    var parent := Request(s, o.request);
    && attempt.Some? && parent.Some?
    && attempt.value.request == o.request && parent.value.definition == o.definition
    && parent.value.definitionVersion == o.definitionVersion
    && (o.digests.producerSlot.Some? ==> o.digests.producerSlot.value == parent.value.snapshot.producerSlot)
    && attempt.value.startedAt <= o.completedAt
    && Resolve(s, parent.value.trigger, o.definition, o.observed) == Some(o.observed)
    && DistinctObserved(o.observed)
  }

  predicate OccurrenceOk(s: Store, d: OccurrenceRow) {
    var o := Outcome(s, d.outcome);
    var revision := Revision(s, d.revision);
    var representation := Representation(s, d.representation);
    && o.Some? && revision.Some? && representation.Some?
    && d.id in s.links && s.links[d.id] == d.outcome
    && d.definition == o.value.definition && d.definitionVersion == o.value.definitionVersion
    && d.definition == revision.value.definition
    && d.observedAt == o.value.completedAt && o.value.receipt == Some(d.receipt)
    && OccurrenceKindAllowed(o.value.kind)
    && BindsOneObservedItem(s, o.value, revision.value.item, representation.value.digest)
  }

  predicate BaselineOk(s: Store, b: BaselineRow) {
    && BaselineEvidenceError(s, b).None?
    && CurrentAt(s, b.definition, b.definitionVersion, b.position)
  }

  /** Everything validated about a transition except the order-dependent history verdict. */
  predicate TransitionRecordOk(s: Store, t: TransitionRow) {
    var v := Version(s, t.definitionVersion);
    var o := Outcome(s, t.outcome);
    var item := Item(s, t.item);
    && o.Some? && item.Some? && v.Some?
    && CurrentAt(s, t.definition, t.definitionVersion, t.position)
    && v.value.definition == t.definition && v.value.observation == t.observation
    && o.value.definition == t.definition && o.value.definitionVersion == t.definitionVersion
    && item.value.definition == t.definition
    && Request(s, o.value.request).Some?
    && Request(s, o.value.request).value.transitionPolicy == t.transitionPolicy
    && UnorderedError(s, t, o.value).None?
    && WellShaped(t)
    && (t.current.Some? ==> RevisionItem(s, t.current.value.revision) == Some(t.item))
  }

  predicate TransitionOk(s: Store, t: TransitionRow) {
    TransitionRecordOk(s, t) && TransitionEvidenceError(s, t).None?
  }

  predicate FindingOk(s: Store, f: FindingRow) { LineageErrorOf(s, f.scope, f.lineage).None? }

  predicate FindingOccurrenceOk(s: Store, f: FindingOccurrenceRow) {
    var finding := Finding(s, f.finding);
    finding.Some? && LineageErrorOf(s, finding.value.scope, f.lineage).None?
  }

  ghost predicate RecordsOk(s: Store) {
    && (forall r :: r in s.requests ==> RequestOk(s, r))
    && (forall a :: a in s.attempts ==> AttemptOk(s, a))
    && (forall o :: o in s.outcomes ==> OutcomeOk(s, o))
    && (forall d :: d in s.occurrences ==> OccurrenceOk(s, d))
    && (forall b :: b in s.baselines ==> BaselineOk(s, b))
    && (forall t :: t in s.transitions ==> TransitionRecordOk(s, t))
    && (forall f :: f in s.findings ==> FindingOk(s, f))
    && (forall f :: f in s.findingOccurrences ==> FindingOccurrenceOk(s, f))
  }

  // ----- attempt chains

  function AttemptChain(attempts: seq<AttemptRow>, request: nat): seq<AttemptRow> {
    if attempts == [] then []
    else
      var last := attempts[|attempts| - 1];
      AttemptChain(attempts[..|attempts| - 1], request) + (if last.request == request then [last] else [])
  }

  /** One link: numbered, linked to its predecessor, started after the Request and after that one ended. */
  predicate LinkOk(s: Store, chain: seq<AttemptRow>, i: nat)
    requires i < |chain|
  {
    var parent := Request(s, chain[i].request);
    && chain[i].number == i + 1
    && chain[i].prior == (if i == 0 then None else Some(chain[i - 1].id))
    && parent.Some? && parent.value.requestedAt <= chain[i].startedAt
    && (i > 0 ==>
          var o := OutcomeOfAttempt(s, chain[i - 1].id);
          o.Some? && o.value.completedAt <= chain[i].startedAt)
  }

  ghost predicate ChainOk(s: Store, chain: seq<AttemptRow>) {
    forall i :: 0 <= i < |chain| ==> LinkOk(s, chain, i)
  }

  ghost predicate AttemptChainsOk(s: Store) { forall r :: ChainOk(s, AttemptChain(s.attempts, r)) }

  // ----- baseline heads

  function BaselineChain(bs: seq<BaselineRow>, definition: nat): seq<BaselineRow> {
    if bs == [] then []
    else
      var last := bs[|bs| - 1];
      BaselineChain(bs[..|bs| - 1], definition) + (if last.definition == definition then [last] else [])
  }

  predicate LineageLinkOk(chain: seq<BaselineRow>, i: nat)
    requires i < |chain|
  {
    if i == 0 then chain[i].kind.Establish? && chain[i].previous.None?
    else !chain[i].kind.Establish? && chain[i].previous == Some(chain[i - 1].id)
  }

  ghost predicate LineageOk(chain: seq<BaselineRow>) {
    forall i :: 0 <= i < |chain| ==> LineageLinkOk(chain, i)
  }

  /** The head of a definition is its last decision, and a definition without decisions has no head. */
  predicate HeadOk(s: Store, definition: nat) {
    var chain := BaselineChain(s.baselines, definition);
    if chain == [] then definition !in s.heads
    else definition in s.heads
         && s.heads[definition] == BaselineHead(chain[|chain| - 1].id, chain[|chain| - 1].decidedAt)
  }

  ghost predicate BaselineHeadsOk(s: Store) {
    forall d :: LineageOk(BaselineChain(s.baselines, d)) && HeadOk(s, d)
  }

  // ----- ledger coverage

  /** The ledger sequences of the events of one kind. */
  function PositionsOf(ledger: seq<EventKind>, k: EventKind): seq<nat> {
    if ledger == [] then []
    else PositionsOf(ledger[..|ledger| - 1], k) + (if ledger[|ledger| - 1] == k then [|ledger|] else [])
  }

  lemma {:induction false} PositionsAre(ledger: seq<EventKind>, k: EventKind, p: nat)
    ensures p in PositionsOf(ledger, k) <==> 1 <= p <= |ledger| && ledger[p - 1] == k
  {
    if ledger != [] { PositionsAre(ledger[..|ledger| - 1], k, p); }
  }

  lemma {:induction false} PositionsIncrease(ledger: seq<EventKind>, k: EventKind, i: nat, j: nat)
    requires i < j < |PositionsOf(ledger, k)|
    ensures PositionsOf(ledger, k)[i] < PositionsOf(ledger, k)[j]
  {
    var front := PositionsOf(ledger[..|ledger| - 1], k);
    if j < |front| {
      PositionsIncrease(ledger[..|ledger| - 1], k, i, j);
    } else {
      assert front[i] in front;
      PositionsAre(ledger[..|ledger| - 1], k, front[i]);
    }
  }

  function Column<T>(rows: seq<T>, position: T -> nat): (r: seq<nat>)
    ensures |r| == |rows| && forall i :: 0 <= i < |rows| ==> r[i] == position(rows[i])
  {
    seq(|rows|, i requires 0 <= i < |rows| => position(rows[i]))
  }

  function RequestPosition(r: RequestRow): nat { r.position }
  function AttemptPosition(r: AttemptRow): nat { r.position }
  function OutcomePosition(r: OutcomeRow): nat { r.position }
  function OccurrencePosition(r: OccurrenceRow): nat { r.position }
  function BaselinePosition(r: BaselineRow): nat { r.position }
  function TransitionPosition(r: TransitionRow): nat { r.position }
  function FindingPosition(r: FindingRow): nat { r.position }
  function FindingOccurrencePosition(r: FindingOccurrenceRow): nat { r.position }

  /** Row by row, in table order, each table lists exactly the ledger events of its kind. */
  predicate CoverageOk(s: Store) {
    && Column(s.requests, RequestPosition) == PositionsOf(s.ledger, RequestRegistered)
    && Column(s.attempts, AttemptPosition) == PositionsOf(s.ledger, AttemptStarted)
    && Column(s.outcomes, OutcomePosition) == PositionsOf(s.ledger, OutcomeRecorded)
    && Column(s.occurrences, OccurrencePosition) == PositionsOf(s.ledger, OccurrenceRecorded)
    && Column(s.baselines, BaselinePosition) == PositionsOf(s.ledger, BaselineDecided)
    && Column(s.transitions, TransitionPosition) == PositionsOf(s.ledger, TransitionRecorded)
    && Column(s.findings, FindingPosition) == PositionsOf(s.ledger, FindingOpened)
    && Column(s.findingOccurrences, FindingOccurrencePosition) == PositionsOf(s.ledger, FindingOccurrenceRecorded)
  }

  // ----- the invariant

  ghost predicate UniqueKeys<T, K>(rows: seq<T>, key: T -> K) {
    forall i, j :: 0 <= i < j < |rows| ==> key(rows[i]) != key(rows[j])
  }

  ghost predicate KeysOk(s: Store) {
    && UniqueKeys(s.versions, VersionKey) && UniqueKeys(s.requests, RequestKey)
    && UniqueKeys(s.attempts, AttemptKey) && UniqueKeys(s.outcomes, OutcomeKey)
    && UniqueKeys(s.outcomes, OutcomeAttemptKey) && UniqueKeys(s.baselines, BaselineKey)
    && UniqueKeys(s.transitions, TransitionSlot)
    && (forall k :: k in s.links ==> Find(s.occurrences, OccurrenceKey, k).Some?)
  }

  ghost predicate SourcesOk(s: Store) {
    && (forall v :: v in s.versions ==> 1 <= v.position <= |s.ledger|)
    && (forall i, j :: 0 <= i < j < |s.versions| && s.versions[i].definition == s.versions[j].definition ==>
          s.versions[i].number < s.versions[j].number)
    && (forall r :: r in s.revisions ==> Item(s, r.item).Some? && Item(s, r.item).value.definition == r.definition)
  }

  /** Everything a commit guarantees for ever, whatever is committed after it. */
  ghost predicate Inv(s: Store) {
    KeysOk(s) && SourcesOk(s) && RecordsOk(s) && AttemptChainsOk(s) && BaselineHeadsOk(s) && CoverageOk(s)
  }

  /** What the open-time integrity check accepts. */
  ghost predicate Accepted(s: Store) {
    && RecordsOk(s) && (forall t :: t in s.transitions ==> TransitionOk(s, t))
    && AttemptChainsOk(s) && BaselineHeadsOk(s) && CoverageOk(s)
  }

  lemma EmptyInv()
    ensures Inv(EMPTY)
  {
  }
}
