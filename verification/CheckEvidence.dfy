/**
 * The evidence functions of the Check store: each reads the retained tables and returns the first
 * error it finds, or None. They run before a commit and again whenever a record is read back.
 */
module CheckEvidence {
  import opened Common
  import opened CheckModel
  import opened CheckHistory

  // ----- observed items

  /** The Source Item identity behind one observed key; a delivered key must name a retained item. */
  function ObservedItemId(s: Store, trigger: Trigger, definition: nat, key: nat): Option<ItemId> {
    if trigger.DeliveredInput? then
      var row := Find(s.items, ItemDigestKey, (definition, key));
      if row.None? then None else Some(row.value.id)
    else Some(Derived(definition, key))
  }

  /** The observed-item index of an Outcome, recomputed from its keys. */
  function Resolve(s: Store, trigger: Trigger, definition: nat, observed: seq<ObservedItem>)
    : (r: Option<seq<ObservedItem>>)
    ensures r.Some? ==> |r.value| == |observed|
  {
    if observed == [] then Some([])
    else
      var item := ObservedItemId(s, trigger, definition, observed[0].key);
      var rest := Resolve(s, trigger, definition, observed[1..]);
      if item.None? || rest.None? then None else Some([observed[0].(item := item.value)] + rest.value)
  }

  predicate DistinctObserved(observed: seq<ObservedItem>) {
    forall i, j :: 0 <= i < j < |observed| ==>
      observed[i].key != observed[j].key && observed[i].item != observed[j].item
  }

  function Matching(observed: seq<ObservedItem>, item: ItemId, digest: nat): (r: seq<ObservedItem>)
    ensures r != [] ==> exists i :: 0 <= i < |observed| && observed[i].item == item && observed[i].digest == digest
  {
    if observed == [] then []
    else
      var first := if observed[0].item == item && observed[0].digest == digest then [observed[0]] else [];
      assert observed[1..] != [] ==> forall i :: 0 <= i < |observed[1..]| ==> observed[1..][i] == observed[i + 1];
      first + Matching(observed[1..], item, digest)
  }

  /** Whether an Occurrence names exactly one observed item of its Outcome. */
  predicate BindsOneObservedItem(s: Store, o: OutcomeRow, item: ItemId, digest: nat) {
    var parent := Request(s, o.request);
    parent.Some?
    && var observed := Resolve(s, parent.value.trigger, o.definition, o.observed);
       observed.Some? && |Matching(observed.value, item, digest)| == 1
  }

  // ----- Observable Transition evidence

  datatype EvidenceError =
    | HistoryDiffers(history: HistoryError) | ObservationTimeDiffers | LacksOccurrence
    | NoConfirmations | CurrentNotConfirmed | UnretainedConfirmation | ConfirmationDiffers
    | RepeatedRequest | ConfirmationLater | AnotherVersion | AnotherSnapshotContract
    | EndingOnIncomplete | AnotherWindow | MissOnIncomplete | CompletenessDiffers

  predicate CompleteKind(k: OutcomeKind) { k.SuccessEmpty? || k.SuccessUnchanged? || k.SuccessChanged? }

  predicate CompleteOutcome(o: OutcomeRow) { !o.incomplete && CompleteKind(o.kind) && !o.quarantined }

  predicate HasOccurrence(s: Store, t: TransitionRow, c: CurrentState) {
    exists d :: d in s.occurrences && d.outcome == t.outcome && d.revision == c.revision
                && d.representation == c.representation && d.definitionVersion == t.definitionVersion
  }

  /** One confirmation of a guard, judged against the retained Outcome and Request it names. */
  function ConfirmationError(s: Store, t: TransitionRow, contract: SnapshotContract, c: Confirmation, seen: set<nat>)
    : Option<EvidenceError>
  {
    var row := Outcome(s, c.outcome);
    if row.None? then Some(UnretainedConfirmation)
    else
      var parent := Request(s, row.value.request);
      if parent.None? then Some(UnretainedConfirmation)
      else if row.value.request != c.request || parent.value.adapterDigest != c.adapterDigest
      then Some(ConfirmationDiffers)
      else if c.request in seen then Some(RepeatedRequest)
      else if row.value.completedAt > t.observedAt then Some(ConfirmationLater)
      else if row.value.definition != t.definition || row.value.definitionVersion != t.definitionVersion
      then Some(AnotherVersion)
      else if t.guardEvidence.Absence? then
        if parent.value.snapshot != contract then Some(AnotherSnapshotContract)
        else if t.guardEvidence.authorizesEnding && !CompleteOutcome(row.value) then Some(EndingOnIncomplete)
        else None
      else if t.guardEvidence.AgendaMiss? then
        if parent.value.trigger != PlannedWindow(t.guardEvidence.window) then Some(AnotherWindow)
        else if !CompleteOutcome(row.value) then Some(MissOnIncomplete)
        else None
      else None
  }

  function ConfirmationsError(s: Store, t: TransitionRow, contract: SnapshotContract, cs: seq<Confirmation>, seen: set<nat>)
    : Option<EvidenceError>
  {
    if cs == [] then None
    else
      var e := ConfirmationError(s, t, contract, cs[0], seen);
      if e.Some? then e else ConfirmationsError(s, t, contract, cs[1..], seen + {cs[0].request})
  }

  function GuardError(s: Store, t: TransitionRow, current: OutcomeRow): Option<EvidenceError> {
    if t.guardEvidence.Unguarded? then None
    else
      var cs := t.guardEvidence.confirmations;
      var parent := Request(s, current.request);
      if parent.None? then Some(UnretainedConfirmation)
      else if cs == [] then Some(NoConfirmations)
      else if forall i :: 0 <= i < |cs| ==> cs[i].outcome != t.outcome then Some(CurrentNotConfirmed)
      else
        var e := ConfirmationsError(s, t, parent.value.snapshot, cs, {});
        if e.Some? then e
        else if t.guardEvidence.Absence? && CompleteOutcome(current) != t.guardEvidence.successfulComplete
        then Some(CompletenessDiffers)
        else if t.guardEvidence.AgendaMiss? && parent.value.trigger != PlannedWindow(t.guardEvidence.window)
        then Some(AnotherWindow)
        else None
  }

  /** The evidence that does not depend on the order of Outcomes. */
  function UnorderedError(s: Store, t: TransitionRow, current: OutcomeRow): Option<EvidenceError> {
    if current.completedAt != t.observedAt then Some(ObservationTimeDiffers)
    else if t.current.Some? && !HasOccurrence(s, t, t.current.value) then Some(LacksOccurrence)
    else GuardError(s, t, current)
  }

  function TransitionEvidenceError(s: Store, t: TransitionRow): Option<EvidenceError> {
    var o := Outcome(s, t.outcome);
    if o.None? then Some(HistoryDiffers(UnretainedOutcome))
    else if o.value.completedAt != t.observedAt then Some(ObservationTimeDiffers)
    else
      var h := TransitionHistoryError(s, t);
      if h.Some? then Some(HistoryDiffers(h.value)) else UnorderedError(s, t, o.value)
  }

  // ----- Baseline Decision evidence

  datatype BaselineError = UnretainedAuthority | LineageDiffers | IncompleteConsumed | ManifestDiffers

  predicate EntryRetained(s: Store, b: BaselineRow, e: ManifestEntry) {
    e.lineage.None?
    || var (item, revision) := e.lineage.value;
       && Item(s, item).Some? && Item(s, item).value.definition == b.definition
       && Revision(s, revision).Some? && Revision(s, revision).value.definition == b.definition
       && Revision(s, revision).value.item == item
       && exists d :: d in s.occurrences && d.revision == revision && d.outcome == b.outcome
  }

  function BaselineEvidenceError(s: Store, b: BaselineRow): Option<BaselineError> {
    var v := Version(s, b.definitionVersion);
    var r := Request(s, b.request);
    var o := Outcome(s, b.outcome);
    if v.None? || r.None? || o.None? then Some(UnretainedAuthority)
    else if v.value.definition != b.definition || v.value.observation != b.observation
            || v.value.baselinePolicy != b.baselinePolicy
            || r.value.definition != b.definition || r.value.definitionVersion != b.definitionVersion
            || r.value.baselinePolicy != b.baselinePolicy
            || o.value.request != b.request || o.value.definition != b.definition
            || o.value.definitionVersion != b.definitionVersion || o.value.completedAt != b.decidedAt
    then Some(LineageDiffers)
    else if !b.manualHold && (o.value.incomplete || !CompleteKind(o.value.kind) || o.value.digests != b.digests)
    then Some(IncompleteConsumed)
    else if exists i :: 0 <= i < |b.entries| && !EntryRetained(s, b, b.entries[i]) then Some(ManifestDiffers)
    else None
  }

  // ----- Operational Finding lineage

  datatype LineageError =
    | UnretainedLineage | AttemptDiffersFromRequest | OutcomeDiffersFromRequest | OutcomeDiffersFromAttempt
    | NoRequest | TimeDiffers | PrecedesAttempt | PrecedesRequest | SourceDiffers | ScopeDiffers

  /** The retained records behind a cited lineage; an Outcome's Attempt is filled in. */
  datatype Cited = Cited(request: RequestRow, attempt: Option<AttemptRow>, outcome: Option<OutcomeRow>)

  function Cite(s: Store, l: Lineage): Result<Cited, LineageError> {
    var r := if l.request.Some? then Request(s, l.request.value) else None;
    var a := if l.attempt.Some? then Attempt(s, l.attempt.value) else None;
    var o := if l.outcome.Some? then Outcome(s, l.outcome.value) else None;
    if (l.request.Some? && r.None?) || (l.attempt.Some? && a.None?) || (l.outcome.Some? && o.None?)
    then Err(UnretainedLineage)
    else if r.Some? && a.Some? && a.value.request != r.value.id then Err(AttemptDiffersFromRequest)
    else if r.Some? && o.Some? && o.value.request != r.value.id then Err(OutcomeDiffersFromRequest)
    else if a.Some? && o.Some? && o.value.attempt != a.value.id then Err(OutcomeDiffersFromAttempt)
    else if r.None? && a.None? && o.None? then Err(NoRequest)
    else
      var request := if r.Some? then r
                     else Request(s, if a.Some? then a.value.request else o.value.request);
      var attempt := if a.None? && o.Some? then Attempt(s, o.value.attempt) else a;
      if request.None? || (o.Some? && attempt.None?) then Err(UnretainedLineage)
      else Ok(Cited(request.value, attempt, o))
  }

  function CitedError(s: Store, scope: Scope, observedAt: nat, c: Cited): Option<LineageError> {
    var Cited(r, a, o) := c;
    if o.Some? && o.value.completedAt != observedAt then Some(TimeDiffers)
    else if o.None? && a.Some? && observedAt < a.value.startedAt then Some(PrecedesAttempt)
    else if o.None? && a.None? && observedAt < r.requestedAt then Some(PrecedesRequest)
    else if o.Some? && (o.value.definition != r.definition || o.value.definitionVersion != r.definitionVersion)
    then Some(SourceDiffers)
    else if ScopeMatches(s, scope, r, a, o) then None else Some(ScopeDiffers)
  }

  function LineageErrorOf(s: Store, scope: Scope, l: Lineage): Option<LineageError> {
    var c := Cite(s, l);
    if c.Err? then Some(c.error) else CitedError(s, scope, l.observedAt, c.value)
  }

  predicate ScopeMatches(s: Store, scope: Scope, r: RequestRow, a: Option<AttemptRow>, o: Option<OutcomeRow>) {
    match scope
    case RequestScope(id) => id == r.id
    case AttemptScope(id) => a.Some? && id == a.value.id
    case OutcomeScope(id) => o.Some? && id == o.value.id
    case DefinitionScope(id) => id == r.definition
    case VersionScope(id) => id == r.definitionVersion
    case AdapterScope(id) => a.Some? && id == a.value.adapterRequest
    case ItemScope(item) =>
      && Item(s, item).Some? && Item(s, item).value.definition == r.definition
      && (o.Some? ==> exists d :: d in s.occurrences && RetainedFor(s, d, o.value.id, item))
  }

  // ----- what a passing guard means

  /** A confirmation that stands by itself, whatever the other confirmations are. */
  predicate Confirms(s: Store, t: TransitionRow, contract: SnapshotContract, c: Confirmation) {
    var o := Outcome(s, c.outcome);
    && o.Some? && o.value.request == c.request && o.value.completedAt <= t.observedAt
    && o.value.definition == t.definition && o.value.definitionVersion == t.definitionVersion
    && var r := Request(s, c.request);
       && r.Some? && r.value.adapterDigest == c.adapterDigest
       && (t.guardEvidence.Absence? ==>
             r.value.snapshot == contract && (t.guardEvidence.authorizesEnding ==> CompleteOutcome(o.value)))
       && (t.guardEvidence.AgendaMiss? ==>
             r.value.trigger == PlannedWindow(t.guardEvidence.window) && CompleteOutcome(o.value))
  }

  /** The scan passes exactly when every confirmation stands and no Request confirms twice. */
  lemma {:induction false} ConfirmationsMean(
      s: Store, t: TransitionRow, contract: SnapshotContract, cs: seq<Confirmation>, seen: set<nat>)
    ensures ConfirmationsError(s, t, contract, cs, seen).None? <==>
            && (forall i :: 0 <= i < |cs| ==> Confirms(s, t, contract, cs[i]) && cs[i].request !in seen)
            && (forall i, j :: 0 <= i < j < |cs| ==> cs[i].request != cs[j].request)
    decreases |cs|
  {
    if cs != [] {
      ConfirmationMeans(s, t, contract, cs[0], seen);
      hide ConfirmationError, Confirms;
      var rest := cs[1..];
      ConfirmationsMean(s, t, contract, rest, seen + {cs[0].request});
      assert forall i :: 0 <= i < |rest| ==> rest[i] == cs[i + 1];
      assert forall i :: 0 < i < |cs| ==> cs[i] == rest[i - 1];
    }
  }

  lemma ConfirmationMeans(s: Store, t: TransitionRow, contract: SnapshotContract, c: Confirmation, seen: set<nat>)
    ensures ConfirmationError(s, t, contract, c, seen).None? <==> Confirms(s, t, contract, c) && c.request !in seen
  {
  }

  // ----- stability: what an append can never change

  lemma {:induction false} ResolveStable(s: Store, s': Store, trigger: Trigger, definition: nat, observed: seq<ObservedItem>)
    requires Extends(s, s')
    requires Resolve(s, trigger, definition, observed).Some?
    ensures Resolve(s', trigger, definition, observed) == Resolve(s, trigger, definition, observed)
  {
    if observed != [] {
      if trigger.DeliveredInput? {
        FindStable(s.items, s'.items, ItemDigestKey, (definition, observed[0].key));
      }
      ResolveStable(s, s', trigger, definition, observed[1..]);
    }
  }

  lemma {:induction false} ConfirmationsStable(
      s: Store, s': Store, t: TransitionRow, contract: SnapshotContract, cs: seq<Confirmation>, seen: set<nat>)
    requires Extends(s, s')
    requires ConfirmationsError(s, t, contract, cs, seen).None?
    ensures ConfirmationsError(s', t, contract, cs, seen).None?
  {
    LookupsStable(s, s');
    if cs != [] {
      ConfirmationsStable(s, s', t, contract, cs[1..], seen + {cs[0].request});
    }
  }

  /** Every guard and occurrence check of a transition, once passed, is passed after any appends. */
  lemma UnorderedStable(s: Store, s': Store, t: TransitionRow, current: OutcomeRow)
    requires Extends(s, s')
    requires UnorderedError(s, t, current).None?
    ensures UnorderedError(s', t, current).None?
  {
    LookupsStable(s, s');
    if !t.guardEvidence.Unguarded? {
      ConfirmationsStable(s, s', t, Request(s, current.request).value.snapshot, t.guardEvidence.confirmations, {});
    }
  }

  lemma BaselineEvidenceStable(s: Store, s': Store, b: BaselineRow)
    requires Extends(s, s')
    requires BaselineEvidenceError(s, b).None?
    ensures BaselineEvidenceError(s', b).None?
  {
    LookupsStable(s, s');
    forall i | 0 <= i < |b.entries| ensures EntryRetained(s', b, b.entries[i]) {
      assert EntryRetained(s, b, b.entries[i]);
    }
  }

  lemma CiteStable(s: Store, s': Store, l: Lineage)
    requires Extends(s, s') && Cite(s, l).Ok?
    ensures Cite(s', l) == Cite(s, l)
  {
    LookupsStable(s, s');
  }

  lemma ScopeStable(s: Store, s': Store, scope: Scope, c: Cited)
    requires Extends(s, s') && ScopeMatches(s, scope, c.request, c.attempt, c.outcome)
    ensures ScopeMatches(s', scope, c.request, c.attempt, c.outcome)
  {
    LookupsStable(s, s');
    if scope.ItemScope? && c.outcome.Some? {
      var d :| d in s.occurrences && RetainedFor(s, d, c.outcome.value.id, scope.item);
      assert d in s'.occurrences && RetainedFor(s', d, c.outcome.value.id, scope.item);
    }
  }

  lemma LineageStable(s: Store, s': Store, scope: Scope, l: Lineage)
    requires Extends(s, s')
    requires LineageErrorOf(s, scope, l).None?
    ensures LineageErrorOf(s', scope, l).None?
  {
    CiteStable(s, s', l);
    ScopeStable(s, s', scope, Cite(s, l).value);
  }
}
