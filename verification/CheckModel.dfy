/**
 * The retained tables of the Check authority store and the ledger that orders them.
 *
 * Times, identities and digests are natural numbers compared by equality and order. A row's
 * `position` is the ledger sequence of the event that recorded it; positions start at 1.
 */
module CheckModel {
  import opened Common

  /** A Source Item identity: derived from (definition, item key), or registered independently. */
  datatype ItemId = Derived(definition: nat, key: nat) | Registered(number: nat)

  datatype ObservationModel =
    AppendOnly | MutableItem | CompleteCurrentState | RollingList | ExplicitDelta | PlannedAgenda

  datatype VersionRow = VersionRow(
    id: nat, definition: nat, number: nat, rights: nat, baselinePolicy: nat, revisionPolicy: nat,
    observation: ObservationModel, coverage: set<nat>, position: nat)

  datatype ItemRow = ItemRow(id: ItemId, definition: nat, definitionVersion: nat, identityDigest: nat)

  datatype RevisionRow = RevisionRow(id: nat, item: ItemId, definition: nat, observedAt: nat)

  datatype RepresentationRow = RepresentationRow(
    id: nat, revision: nat, definitionVersion: nat, digest: nat, producedAt: nat)

  datatype Trigger = PlannedWindow(window: nat) | DeliveredInput | OtherTrigger

  /** The columns an absence confirmation must share with the current Check contract. */
  datatype SnapshotContract = SnapshotContract(
    producerSlot: nat, coverage: nat, coveragePolicy: nat, validatorPolicy: nat)

  datatype RequestRow = RequestRow(
    id: nat, definition: nat, definitionVersion: nat, trigger: Trigger, snapshot: SnapshotContract,
    rights: nat, adapterDigest: nat, baselinePolicy: nat, revisionPolicy: nat, transitionPolicy: nat,
    requestedAt: nat, position: nat)

  datatype AttemptRow = AttemptRow(
    id: nat, request: nat, number: nat, prior: Option<nat>, adapterRequest: nat, adapterDigest: nat,
    startedAt: nat, position: nat)

  datatype OutcomeKind =
    SuccessEmpty | SuccessUnchanged | SuccessChanged | SuccessPartial | SuccessTruncated | OtherOutcome

  /** The digests a Baseline Decision must repeat exactly. */
  datatype ContentDigests = ContentDigests(
    body: Option<nat>, producerSlot: Option<nat>, representation: Option<nat>, validator: Option<nat>)

  datatype ObservedItem = ObservedItem(key: nat, digest: nat, item: ItemId)

  datatype OutcomeRow = OutcomeRow(
    id: nat, request: nat, attempt: nat, proposal: nat, definition: nat, definitionVersion: nat,
    kind: OutcomeKind, quarantined: bool, incomplete: bool, receipt: Option<nat>,
    digests: ContentDigests, observed: seq<ObservedItem>, completedAt: nat, position: nat)

  datatype OccurrenceRow = OccurrenceRow(
    id: nat, outcome: nat, revision: nat, representation: nat, definition: nat, definitionVersion: nat,
    kind: nat, observedAt: nat, receipt: nat, position: nat)

  datatype BaselineKind = Establish | Reset | Rebuild

  datatype ManifestEntry = ManifestEntry(key: nat, lineage: Option<(ItemId, nat)>)

  datatype BaselineRow = BaselineRow(
    id: nat, definition: nat, definitionVersion: nat, request: nat, outcome: nat, kind: BaselineKind,
    manualHold: bool, observation: ObservationModel, baselinePolicy: nat, previous: Option<nat>,
    digests: ContentDigests, entries: seq<ManifestEntry>, decidedAt: nat, position: nat)

  datatype BaselineHead = BaselineHead(current: nat, updatedAt: nat)

  datatype TransitionKind =
    | FirstObserved | Revised | Reobserved | Activated | Escalated | Deescalated
    | ResolvedOrCleared | Expired | Cancelled | Withdrawn | Replaced | Reactivated
    | AgendaCreated | AgendaRescheduled | AgendaCancelled | AgendaMissedExpectation
    | AgendaLateOccurrence | AmbiguousAbsence

  datatype Confirmation = Confirmation(outcome: nat, request: nat, adapterDigest: nat)

  datatype Guard =
    | Unguarded
    | Absence(confirmations: seq<Confirmation>, successfulComplete: bool, authorizesEnding: bool)
    | AgendaMiss(confirmations: seq<Confirmation>, window: nat)

  datatype CurrentState = CurrentState(revision: nat, representation: nat)

  datatype TransitionRow = TransitionRow(
    id: nat, definition: nat, definitionVersion: nat, outcome: nat, item: ItemId, kind: TransitionKind,
    observation: ObservationModel, prior: Option<nat>, current: Option<CurrentState>,
    related: Option<ItemId>, transitionPolicy: nat, guardEvidence: Guard, observedAt: nat, position: nat)

  datatype Scope =
    | RequestScope(id: nat) | AttemptScope(id: nat) | OutcomeScope(id: nat) | DefinitionScope(id: nat)
    | VersionScope(id: nat) | AdapterScope(id: nat) | ItemScope(item: ItemId)

  /** The Check lineage a Finding or a Finding occurrence cites. */
  datatype Lineage = Lineage(request: Option<nat>, attempt: Option<nat>, outcome: Option<nat>, observedAt: nat)

  datatype FindingRow = FindingRow(id: nat, scope: Scope, lineage: Lineage, position: nat)

  datatype FindingOccurrenceRow = FindingOccurrenceRow(id: nat, finding: nat, lineage: Lineage, position: nat)

  datatype EventKind =
    | SourceEvent | RequestRegistered | AttemptStarted | OutcomeRecorded | OccurrenceRecorded
    | BaselineDecided | TransitionRecorded | FindingOpened | FindingOccurrenceRecorded

  datatype Store = Store(
    ledger: seq<EventKind>,
    versions: seq<VersionRow>, items: seq<ItemRow>, revisions: seq<RevisionRow>,
    representations: seq<RepresentationRow>,
    requests: seq<RequestRow>, attempts: seq<AttemptRow>, outcomes: seq<OutcomeRow>,
    occurrences: seq<OccurrenceRow>, links: map<nat, nat>,
    baselines: seq<BaselineRow>, heads: map<nat, BaselineHead>,
    transitions: seq<TransitionRow>,
    findings: seq<FindingRow>, findingOccurrences: seq<FindingOccurrenceRow>)

  const EMPTY := Store([], [], [], [], [], [], [], [], [], map[], [], map[], [], [], [])

  function VersionKey(r: VersionRow): nat { r.id }
  function ItemKey(r: ItemRow): ItemId { r.id }
  function ItemDigestKey(r: ItemRow): (nat, nat) { (r.definition, r.identityDigest) }
  function RevisionKey(r: RevisionRow): nat { r.id }
  function RepresentationKey(r: RepresentationRow): nat { r.id }
  function RequestKey(r: RequestRow): nat { r.id }
  function AttemptKey(r: AttemptRow): nat { r.id }
  function OutcomeKey(r: OutcomeRow): nat { r.id }
  function OutcomeAttemptKey(r: OutcomeRow): nat { r.attempt }
  function OutcomeProposalKey(r: OutcomeRow): nat { r.proposal }
  function OccurrenceKey(r: OccurrenceRow): nat { r.id }
  function OccurrenceSlot(r: OccurrenceRow): (nat, nat, nat) { (r.outcome, r.revision, r.kind) }
  function BaselineKey(r: BaselineRow): nat { r.id }
  function BaselineOutcomeKey(r: BaselineRow): nat { r.outcome }
  function TransitionKey(r: TransitionRow): nat { r.id }
  function TransitionSlot(r: TransitionRow): (nat, ItemId) { (r.outcome, r.item) }
  function FindingKey(r: FindingRow): nat { r.id }
  function FindingOccurrenceKey(r: FindingOccurrenceRow): nat { r.id }

  function Version(s: Store, id: nat): Option<VersionRow> { Find(s.versions, VersionKey, id) }
  function Item(s: Store, id: ItemId): Option<ItemRow> { Find(s.items, ItemKey, id) }
  function Revision(s: Store, id: nat): Option<RevisionRow> { Find(s.revisions, RevisionKey, id) }
  function Representation(s: Store, id: nat): Option<RepresentationRow> {
    Find(s.representations, RepresentationKey, id)
  }
  function Request(s: Store, id: nat): Option<RequestRow> { Find(s.requests, RequestKey, id) }
  function Attempt(s: Store, id: nat): Option<AttemptRow> { Find(s.attempts, AttemptKey, id) }
  function Outcome(s: Store, id: nat): Option<OutcomeRow> { Find(s.outcomes, OutcomeKey, id) }
  function OutcomeOfAttempt(s: Store, id: nat): Option<OutcomeRow> {
    Find(s.outcomes, OutcomeAttemptKey, id)
  }
  function Finding(s: Store, id: nat): Option<FindingRow> { Find(s.findings, FindingKey, id) }

  function RevisionItem(s: Store, id: nat): Option<ItemId> {
    var r := Revision(s, id);
    if r.Some? then Some(r.value.item) else None
  }

  function NextPosition(s: Store): nat { |s.ledger| + 1 }

  /**
   * `s'` is `s` after any number of appends: rows are never updated or deleted, and a Source
   * Definition Version added later is recorded later.
   */
  ghost predicate Extends(s: Store, s': Store) {
    && s.ledger <= s'.ledger
    && s.versions <= s'.versions
    && (forall i :: |s.versions| <= i < |s'.versions| ==> s'.versions[i].position > |s.ledger|)
    && s.items <= s'.items && s.revisions <= s'.revisions && s.representations <= s'.representations
    && s.requests <= s'.requests && s.attempts <= s'.attempts && s.outcomes <= s'.outcomes
    && s.occurrences <= s'.occurrences
    && (forall k :: k in s.links ==> k in s'.links && s'.links[k] == s.links[k])
    && s.baselines <= s'.baselines && s.transitions <= s'.transitions
    && s.findings <= s'.findings && s.findingOccurrences <= s'.findingOccurrences
  }

  /** Every primary-key lookup that succeeds is stable under appends. */
  lemma LookupsStable(s: Store, s': Store)
    requires Extends(s, s')
    ensures forall id :: Version(s, id).Some? ==> Version(s', id) == Version(s, id)
    ensures forall id :: Item(s, id).Some? ==> Item(s', id) == Item(s, id)
    ensures forall id :: Revision(s, id).Some? ==> Revision(s', id) == Revision(s, id)
    ensures forall id :: Representation(s, id).Some? ==> Representation(s', id) == Representation(s, id)
    ensures forall id :: Request(s, id).Some? ==> Request(s', id) == Request(s, id)
    ensures forall id :: Attempt(s, id).Some? ==> Attempt(s', id) == Attempt(s, id)
    ensures forall id :: Outcome(s, id).Some? ==> Outcome(s', id) == Outcome(s, id)
    ensures forall id :: OutcomeOfAttempt(s, id).Some? ==> OutcomeOfAttempt(s', id) == OutcomeOfAttempt(s, id)
    ensures forall id :: Finding(s, id).Some? ==> Finding(s', id) == Finding(s, id)
  {
    forall id | Version(s, id).Some? { FindStable(s.versions, s'.versions, VersionKey, id); }
    forall id | Item(s, id).Some? { FindStable(s.items, s'.items, ItemKey, id); }
    forall id | Revision(s, id).Some? { FindStable(s.revisions, s'.revisions, RevisionKey, id); }
    forall id | Representation(s, id).Some? {
      FindStable(s.representations, s'.representations, RepresentationKey, id);
    }
    forall id | Request(s, id).Some? { FindStable(s.requests, s'.requests, RequestKey, id); }
    forall id | Attempt(s, id).Some? { FindStable(s.attempts, s'.attempts, AttemptKey, id); }
    forall id | Outcome(s, id).Some? { FindStable(s.outcomes, s'.outcomes, OutcomeKey, id); }
    forall id | OutcomeOfAttempt(s, id).Some? {
      FindStable(s.outcomes, s'.outcomes, OutcomeAttemptKey, id);
    }
    forall id | Finding(s, id).Some? { FindStable(s.findings, s'.findings, FindingKey, id); }
  }
}
