/**
 * The commit methods of the Check store as functions: each judges one command against the retained
 * tables and either refuses it or appends one ledger event together with its row.
 *
 * The `position` a command carries is ignored: the ledger assigns it.
 */
module CheckCommit {
  import opened Common
  import opened CheckModel
  import opened CheckHistory
  import opened CheckEvidence

  datatype Command =
    | AddVersion(version: VersionRow)
    | AddItem(item: ItemRow)
    | AddRevision(revision: RevisionRow)
    | AddRepresentation(representation: RepresentationRow)
    | RegisterRequest(request: RequestRow)
    | StartAttempt(attempt: AttemptRow)
    | RecordOutcome(outcome: OutcomeRow)
    | RecordOccurrence(occurrence: OccurrenceRow)
    | DecideBaseline(baseline: BaselineRow)
    | RecordTransition(transition: TransitionRow)
    | OpenFinding(finding: FindingRow)
    | RecordFindingOccurrence(findingOccurrence: FindingOccurrenceRow)

  datatype CheckError =
    | IdentifierReuse | Unretained | VersionConflict | StateConflict | SemanticCollision
    | ConstraintViolated | ReadBackDiffers

  type Committed = Result<Store, CheckError>

  // ----- source versions

  /** The latest Version of a definition, in table order. */
  function CurrentVersion(vs: seq<VersionRow>, definition: nat): (r: Option<VersionRow>)
    ensures r.Some? ==> r.value in vs && r.value.definition == definition
    ensures r.None? ==> forall v :: v in vs ==> v.definition != definition
  {
    if vs == [] then None
    else if vs[|vs| - 1].definition == definition then Some(vs[|vs| - 1])
    else CurrentVersion(vs[..|vs| - 1], definition)
  }

  predicate PinsCurrentVersion(s: Store, definition: nat, version: nat) {
    var v := CurrentVersion(s.versions, definition);
    v.Some? && v.value.id == version
  }

  // ----- attempts

  /** The attempt of a Request with the greatest number. */
  function HeadAttempt(attempts: seq<AttemptRow>, request: nat): Option<AttemptRow> {
    if attempts == [] then None
    else
      var last := attempts[|attempts| - 1];
      var h := HeadAttempt(attempts[..|attempts| - 1], request);
      if last.request == request && (h.None? || h.value.number < last.number) then Some(last) else h
  }

  // ----- the shape of a typed transition request

  predicate IsAgenda(k: TransitionKind) {
    k.AgendaCreated? || k.AgendaRescheduled? || k.AgendaCancelled? || k.AgendaMissedExpectation? || k.AgendaLateOccurrence?
  }

  predicate RevisionPair(t: TransitionRow) {
    t.prior.Some? && t.current.Some? && t.prior.value != t.current.value.revision
  }

  /** The prior and current Revisions each kind of transition carries. */
  predicate RevisionsShaped(t: TransitionRow) {
    if IsFirstObservation(t.kind) then t.prior.None? && t.current.Some?
    else if t.kind.Reobserved? then t.prior.Some? && t.current.Some? && t.prior.value == t.current.value.revision
    else if t.kind.AmbiguousAbsence? then
      t.prior.Some? && t.current.None? && t.guardEvidence.Absence? && !t.guardEvidence.authorizesEnding
    else if t.kind.AgendaMissedExpectation? then t.prior.Some? && t.current.None? && t.guardEvidence.AgendaMiss?
    else if IsEnding(t.kind) && t.guardEvidence.Absence? then
      t.observation.CompleteCurrentState? && t.prior.Some? && t.current.None? && t.guardEvidence.authorizesEnding
    else RevisionPair(t)
  }

  /** Only an Agenda transition may carry an Agenda guard, and it carries no absence guard. */
  predicate WellShaped(t: TransitionRow) {
    && RevisionsShaped(t)
    && (IsAgenda(t.kind) ==> t.observation.PlannedAgenda? && !t.guardEvidence.Absence?)
    && (t.guardEvidence.AgendaMiss? ==> IsAgenda(t.kind))
    && (t.kind.Replaced? <==> t.related.Some?)
    && (t.related.Some? ==> t.related.value != t.item)
  }

  // ----- guards, one for each commit method

  function RequestRefused(s: Store, r: RequestRow): Option<CheckError> {
    var v := CurrentVersion(s.versions, r.definition);
    if v.None? || v.value.id != r.definitionVersion then Some(VersionConflict)
    else if v.value.rights != r.rights || v.value.baselinePolicy != r.baselinePolicy
            || v.value.revisionPolicy != r.revisionPolicy || r.snapshot.coverage !in v.value.coverage
    then Some(VersionConflict)
    else if Request(s, r.id).Some? then Some(IdentifierReuse)
    else None
  }

  function AttemptRefused(s: Store, a: AttemptRow): Option<CheckError> {
    var parent := Request(s, a.request);
    if parent.None? then Some(Unretained)
    else if parent.value.adapterDigest != a.adapterDigest || a.startedAt < parent.value.requestedAt
    then Some(VersionConflict)
    else
      var head := HeadAttempt(s.attempts, a.request);
      if head.Some? && (OutcomeOfAttempt(s, head.value.id).None?
                        || a.startedAt < OutcomeOfAttempt(s, head.value.id).value.completedAt)
      then Some(VersionConflict)
      else if a.number != (if head.None? then 1 else head.value.number + 1)
              || a.prior != (if head.None? then None else Some(head.value.id))
      then Some(VersionConflict)
      else if Attempt(s, a.id).Some? then Some(IdentifierReuse)
      else None
  }

  function OutcomeRefused(s: Store, o: OutcomeRow): Option<CheckError> {
    var attempt := Attempt(s, o.attempt);
    var parent := Request(s, o.request);
    if attempt.None? || parent.None? then Some(Unretained)
    else if attempt.value.request != o.request || parent.value.definition != o.definition
            || parent.value.definitionVersion != o.definitionVersion
            || (o.digests.producerSlot.Some? && o.digests.producerSlot.value != parent.value.snapshot.producerSlot)
            || o.completedAt < attempt.value.startedAt
    then Some(VersionConflict)
    else if Outcome(s, o.id).Some? then Some(IdentifierReuse)
    else if Find(s.outcomes, OutcomeProposalKey, o.proposal).Some? then Some(StateConflict)
    else
      var observed := Resolve(s, parent.value.trigger, o.definition, o.observed);
      if observed.None? then Some(Unretained)
      else if !DistinctObserved(observed.value) || OutcomeOfAttempt(s, o.attempt).Some?
      then Some(ConstraintViolated)
      else None
  }

  predicate OccurrenceKindAllowed(k: OutcomeKind) {
    k.SuccessUnchanged? || k.SuccessChanged? || k.SuccessPartial? || k.SuccessTruncated?
  }

  function OccurrenceRefused(s: Store, d: OccurrenceRow): Option<CheckError> {
    var o := Outcome(s, d.outcome);
    var revision := Revision(s, d.revision);
    var representation := Representation(s, d.representation);
    if o.None? || revision.None? || representation.None? then Some(Unretained)
    else if !BindsOneObservedItem(s, o.value, revision.value.item, representation.value.digest)
    then Some(StateConflict)
    else if o.value.definition != revision.value.definition
            || o.value.definitionVersion != d.definitionVersion || o.value.completedAt != d.observedAt
            || o.value.receipt != Some(d.receipt) || !OccurrenceKindAllowed(o.value.kind)
    then Some(StateConflict)
    else if !PinsCurrentVersion(s, revision.value.definition, d.definitionVersion) then Some(VersionConflict)
    else if d.observedAt < revision.value.observedAt || representation.value.revision != d.revision
            || representation.value.definitionVersion != d.definitionVersion
            || d.observedAt < representation.value.producedAt
    then Some(StateConflict)
    else if Find(s.occurrences, OccurrenceKey, d.id).Some? then Some(IdentifierReuse)
    else if Find(s.occurrences, OccurrenceSlot, OccurrenceSlot(d)).Some? then Some(ConstraintViolated)
    else None
  }

  function BaselineRefused(s: Store, b: BaselineRow): Option<CheckError> {
    if !PinsCurrentVersion(s, b.definition, b.definitionVersion) then Some(VersionConflict)
    else if BaselineEvidenceError(s, b).Some? then Some(VersionConflict)
    else
      var head := if b.definition in s.heads then Some(s.heads[b.definition].current) else None;
      if b.kind.Establish? && (head.Some? || b.previous.Some?) then Some(VersionConflict)
      else if !b.kind.Establish? && (head.None? || head != b.previous) then Some(VersionConflict)
      else if Find(s.baselines, BaselineKey, b.id).Some? then Some(IdentifierReuse)
      else if Find(s.baselines, BaselineOutcomeKey, b.outcome).Some? then Some(ConstraintViolated)
      else None
  }

  function TransitionRefused(s: Store, t: TransitionRow): Option<CheckError> {
    var v := CurrentVersion(s.versions, t.definition);
    var o := Outcome(s, t.outcome);
    var item := Item(s, t.item);
    if !WellShaped(t) then Some(StateConflict)
    else if v.None? || v.value.id != t.definitionVersion then Some(VersionConflict)
    else if o.None? || item.None? || Request(s, o.value.request).None? then Some(Unretained)
    else if v.value.observation != t.observation || o.value.definition != t.definition
            || o.value.definitionVersion != t.definitionVersion || item.value.definition != t.definition
            || Request(s, o.value.request).value.transitionPolicy != t.transitionPolicy
    then Some(VersionConflict)
    else if o.value.incomplete && !t.kind.AmbiguousAbsence? && t.current.None? then Some(VersionConflict)
    else if t.prior.Some? && RevisionItem(s, t.prior.value) != Some(t.item) then Some(StateConflict)
    else if t.current.Some? && (RevisionItem(s, t.current.value.revision) != Some(t.item)
                                || Representation(s, t.current.value.representation).None?
                                || Representation(s, t.current.value.representation).value.revision
                                   != t.current.value.revision)
    then Some(StateConflict)
    else if t.related.Some? && (Item(s, t.related.value).None?
                                || Item(s, t.related.value).value.definition != t.definition)
    then Some(StateConflict)
    else if TransitionEvidenceError(s, t).Some? then Some(VersionConflict)
    else if Find(s.transitions, TransitionSlot, TransitionSlot(t)).Some? then Some(SemanticCollision)
    else if Find(s.transitions, TransitionKey, t.id).Some? then Some(IdentifierReuse)
    else None
  }

  function FindingRefused(s: Store, f: FindingRow): Option<CheckError> {
    if LineageErrorOf(s, f.scope, f.lineage).Some? then Some(StateConflict)
    else if Finding(s, f.id).Some? then Some(IdentifierReuse)
    else None
  }

  function FindingOccurrenceRefused(s: Store, f: FindingOccurrenceRow): Option<CheckError> {
    var finding := Finding(s, f.finding);
    if finding.None? then Some(Unretained)
    else if LineageErrorOf(s, finding.value.scope, f.lineage).Some? then Some(StateConflict)
    else if Find(s.findingOccurrences, FindingOccurrenceKey, f.id).Some? then Some(IdentifierReuse)
    else None
  }

  function Refused(s: Store, c: Command): Option<CheckError> {
    match c
    case AddVersion(v) => if Version(s, v.id).Some? then Some(IdentifierReuse) else None
    case AddItem(i) =>
      if !PinsCurrentVersion(s, i.definition, i.definitionVersion) then Some(VersionConflict)
      else if Item(s, i.id).Some? || Find(s.items, ItemDigestKey, ItemDigestKey(i)).Some? then Some(IdentifierReuse)
      else None
    case AddRevision(r) =>
      if Item(s, r.item).None? || Item(s, r.item).value.definition != r.definition then Some(Unretained)
      else if Revision(s, r.id).Some? then Some(IdentifierReuse)
      else None
    case AddRepresentation(p) =>
      if Revision(s, p.revision).None? then Some(Unretained)
      else if Representation(s, p.id).Some? then Some(IdentifierReuse)
      else None
    case RegisterRequest(r) => RequestRefused(s, r)
    case StartAttempt(a) => AttemptRefused(s, a)
    case RecordOutcome(o) => OutcomeRefused(s, o)
    case RecordOccurrence(d) => OccurrenceRefused(s, d)
    case DecideBaseline(b) => BaselineRefused(s, b)
    case RecordTransition(t) => TransitionRefused(s, t)
    case OpenFinding(f) => FindingRefused(s, f)
    case RecordFindingOccurrence(f) => FindingOccurrenceRefused(s, f)
  }

  // ----- the rows one accepted command appends

  function NextVersionNumber(s: Store, definition: nat): nat {
    var v := CurrentVersion(s.versions, definition);
    if v.None? then 1 else v.value.number + 1
  }

  /** The observed-item index the store derives for an Outcome, if every key resolves. */
  function IndexOf(s: Store, o: OutcomeRow): seq<ObservedItem> {
    var parent := Request(s, o.request);
    if parent.None? then o.observed
    else
      var observed := Resolve(s, parent.value.trigger, o.definition, o.observed);
      if observed.None? then o.observed else observed.value
  }

  /** The command with what the store fills in: its ledger position and the columns it derives. */
  function Placed(s: Store, c: Command): Command {
    var p := NextPosition(s);
    match c
    case AddVersion(v) => AddVersion(v.(number := NextVersionNumber(s, v.definition), position := p))
    case RegisterRequest(r) => RegisterRequest(r.(position := p))
    case StartAttempt(a) => StartAttempt(a.(position := p))
    case RecordOutcome(o) => RecordOutcome(o.(observed := IndexOf(s, o), position := p))
    case RecordOccurrence(d) =>
      var r := Revision(s, d.revision);
      RecordOccurrence(d.(definition := if r.Some? then r.value.definition else d.definition, position := p))
    case DecideBaseline(b) => DecideBaseline(b.(position := p))
    case RecordTransition(t) => RecordTransition(t.(position := p))
    case OpenFinding(f) => OpenFinding(f.(position := p))
    case RecordFindingOccurrence(f) => RecordFindingOccurrence(f.(position := p))
    case _ => c
  }

  function Appended(s: Store, c: Command): Store {
    match c
    case AddVersion(v) => s.(ledger := s.ledger + [SourceEvent], versions := s.versions + [v])
    case AddItem(i) => s.(ledger := s.ledger + [SourceEvent], items := s.items + [i])
    case AddRevision(r) => s.(ledger := s.ledger + [SourceEvent], revisions := s.revisions + [r])
    case AddRepresentation(r) => s.(ledger := s.ledger + [SourceEvent], representations := s.representations + [r])
    case RegisterRequest(r) => s.(ledger := s.ledger + [RequestRegistered], requests := s.requests + [r])
    case StartAttempt(a) => s.(ledger := s.ledger + [AttemptStarted], attempts := s.attempts + [a])
    case RecordOutcome(o) => s.(ledger := s.ledger + [OutcomeRecorded], outcomes := s.outcomes + [o])
    case RecordOccurrence(d) =>
      s.(ledger := s.ledger + [OccurrenceRecorded], occurrences := s.occurrences + [d],
         links := s.links[d.id := d.outcome])
    case DecideBaseline(b) =>
      s.(ledger := s.ledger + [BaselineDecided], baselines := s.baselines + [b],
         heads := s.heads[b.definition := BaselineHead(b.id, b.decidedAt)])
    case RecordTransition(t) => s.(ledger := s.ledger + [TransitionRecorded], transitions := s.transitions + [t])
    case OpenFinding(f) => s.(ledger := s.ledger + [FindingOpened], findings := s.findings + [f])
    case RecordFindingOccurrence(f) =>
      s.(ledger := s.ledger + [FindingOccurrenceRecorded], findingOccurrences := s.findingOccurrences + [f])
  }

  /**
   * One commit. A transition or a baseline is read back inside the transaction that inserted it, and
   * a read-back that fails rolls the transaction back.
   */
  function Commit(s: Store, command: Command): Committed {
    var c := Placed(s, command);
    var e := Refused(s, c);
    if e.Some? then Err(e.value)
    else
      var s' := Appended(s, c);
      if c.RecordTransition? && TransitionEvidenceError(s', c.transition).Some? then Err(ReadBackDiffers)
      else if c.DecideBaseline? && BaselineEvidenceError(s', c.baseline).Some? then Err(ReadBackDiffers)
      else Ok(s')
  }

  /** A refused command leaves the store as it was. */
  function Step(s: Store, c: Command): Store {
    var r := Commit(s, c);
    if r.Ok? then r.value else s
  }

  function Run(s: Store, cs: seq<Command>): Store
    decreases cs
  {
    if cs == [] then s else Run(Step(s, cs[0]), cs[1..])
  }

  /** A command that is placed and admitted: exactly what a successful commit appends. */
  predicate Admitted(s: Store, c: Command) { Placed(s, c) == c && Refused(s, c).None? }

  // ----- what the structural proofs need to know of an admitted command

  /** The row carries the next ledger position. */
  predicate AtNext(s: Store, c: Command) {
    var p := NextPosition(s);
    match c
    case AddVersion(v) => v.position == p
    case RegisterRequest(r) => r.position == p
    case StartAttempt(a) => a.position == p
    case RecordOutcome(o) => o.position == p
    case RecordOccurrence(d) => d.position == p
    case DecideBaseline(b) => b.position == p
    case RecordTransition(t) => t.position == p
    case OpenFinding(f) => f.position == p
    case RecordFindingOccurrence(f) => f.position == p
    case _ => true
  }

  /** The row's keys are not in use. */
  predicate Fresh(s: Store, c: Command) {
    match c
    case AddVersion(v) => Version(s, v.id).None?
    case RegisterRequest(r) => Request(s, r.id).None?
    case StartAttempt(a) => Attempt(s, a.id).None?
    case RecordOutcome(o) => Outcome(s, o.id).None? && OutcomeOfAttempt(s, o.attempt).None?
    case RecordOccurrence(d) => Find(s.occurrences, OccurrenceKey, d.id).None?
    case DecideBaseline(b) => Find(s.baselines, BaselineKey, b.id).None?
    case RecordTransition(t) => Find(s.transitions, TransitionSlot, TransitionSlot(t)).None?
    case _ => true
  }

  lemma PlacedAtNext(s: Store, c: Command)
    requires Placed(s, c) == c
    ensures AtNext(s, c)
  {
  }

  lemma OutcomeAdmits(s: Store, o: OutcomeRow)
    requires OutcomeRefused(s, o).None?
    ensures Outcome(s, o.id).None? && OutcomeOfAttempt(s, o.attempt).None?
  {
  }

  lemma AdmittedFresh(s: Store, c: Command)
    requires Refused(s, c).None?
    ensures Fresh(s, c)
  {
    match c
    case RecordOutcome(o) => OutcomeAdmits(s, o);
    case _ =>
  }

  lemma AppendedExtends(s: Store, c: Command)
    requires AtNext(s, c)
    requires c.RecordOccurrence? ==> c.occurrence.id !in s.links
    ensures Extends(s, Appended(s, c))
  {
  }
}
