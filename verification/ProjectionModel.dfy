/**
 * The complete projection boundary as a state machine: the ledger, the generations with their
 * delivery tables, and the derived graph of each generation. Every batch is built from the ledger as
 * it stands when it is needed.
 */
module ProjectionModel {
  import opened Common
  import L = ProjectionLifecycle
  import R = ProjectionRecords

  // ----- the graph and its adapter

  /** What one ledger event contributes: removals first, then documents and relations by key. */
  datatype Batch = Batch(removals: set<R.Key>, puts: map<R.Key, nat>)

  /** The projected records and, for each delivered sequence, its marker with the whole batch. */
  datatype Graph = Graph(records: map<R.Key, nat>, markers: map<nat, Batch>)

  const EMPTY_GRAPH := Graph(map[], map[])

  /** One graph transaction: a repeated batch is a duplicate, any other difference a conflict. */
  function Apply(g: Graph, sequence: nat, b: Batch): Option<Graph> {
    if sequence in g.markers then
      if g.markers[sequence] == b then Some(g) else None
    else
      var kept := map k | k in g.records && k !in b.removals :: g.records[k];
      if exists k :: k in b.puts && k in kept && kept[k] != b.puts[k] then None
      else Some(Graph(kept + b.puts, g.markers[sequence := b]))
  }

  /** The in-order fold of batches 1..n from an empty graph. */
  function Fold(batches: seq<Batch>): Option<Graph> {
    if batches == [] then Some(EMPTY_GRAPH)
    else
      var front := Fold(batches[..|batches| - 1]);
      if front.None? then None else Apply(front.value, |batches|, batches[|batches| - 1])
  }

  lemma {:induction false} FoldMarkers(batches: seq<Batch>)
    ensures Fold(batches).Some? ==>
              forall q :: q in Fold(batches).value.markers <==> 1 <= q <= |batches|
  {
    if batches != [] { FoldMarkers(batches[..|batches| - 1]); }
  }

  /** Applying a batch again changes nothing. */
  lemma ApplyTwice(g: Graph, sequence: nat, b: Batch)
    requires Apply(g, sequence, b).Some?
    ensures Apply(Apply(g, sequence, b).value, sequence, b) == Apply(g, sequence, b)
  {
  }

  // ----- the ledger

  /** A ledger event: source authority, which the mapping may require, or a projection or candidate event. */
  datatype Event = Source(required: bool, authority: L.Event) | Derived

  function SourceWatermark(ledger: seq<Event>): (n: nat)
    ensures n <= |ledger|
  {
    if ledger == [] then 0
    else if ledger[|ledger| - 1].Source? then |ledger|
    else SourceWatermark(ledger[..|ledger| - 1])
  }

  lemma WatermarkUnmoved(ledger: seq<Event>)
    ensures SourceWatermark(ledger + [Derived]) == SourceWatermark(ledger)
  {
    assert (ledger + [Derived])[..|ledger|] == ledger;
  }

  /** What the ledger says to the records: derived events say nothing. */
  function Authority(ledger: seq<Event>): seq<L.Event> {
    seq(|ledger|, i requires 0 <= i < |ledger| => if ledger[i].Source? then ledger[i].authority else L.Other)
  }

  /** The batch of one event, built when the ledger has `n` events. */
  function BatchOf(authority: seq<L.Event>, f: R.Fixture, n: nat, event: nat): Batch
    requires n <= |authority|
  {
    Batch(R.RemovalsAt(authority, f, n, event), R.RecordsOf(f, R.PutsAt(authority, f, n, event)))
  }

  // ----- generations

  datatype Phase = Building | Validating | Active | Retired | Failed

  datatype Outcome = Applied | RetryableFailure

  datatype Delivery = Delivery(outcome: Outcome, finalized: bool, attempts: nat)

  /** Retained validation evidence: the graph digest stands for the graph it was computed from. */
  datatype Validation = Validation(checkpoint: nat, lifecycle: nat, authority: nat, graph: Graph)

  datatype Generation = Generation(
    family: nat, phase: Phase, lifecycle: nat, authority: nat, validatedThrough: Option<nat>, checkpoint: nat,
    gaps: set<nat>, deadLetters: nat, deliveries: map<nat, Delivery>, graph: Graph, validations: seq<Validation>)

  datatype Policy = Policy(maxAttempts: nat, maxGapSpan: nat)

  datatype State = State(policy: Policy, fixture: R.Fixture, ledger: seq<Event>, generations: map<nat, Generation>)

  /** The batch of one event, built now. */
  function BatchNow(s: State, q: nat): Batch { BatchOf(Authority(s.ledger), s.fixture, |s.ledger|, q) }

  /** The batches of the first events, all built now. */
  function Expected(s: State, n: nat): seq<Batch> { seq(n, i requires 0 <= i < n => BatchNow(s, i + 1)) }

  predicate Terminal(p: Phase) { p.Retired? || p.Failed? }

  predicate Succeeded(g: Generation, q: nat) {
    q in g.deliveries && g.deliveries[q].finalized && g.deliveries[q].outcome.Applied?
  }

  /** A delivery that has used up its attempts. */
  predicate FailedForGood(g: Generation, q: nat) {
    q in g.deliveries && g.deliveries[q].finalized && g.deliveries[q].outcome.RetryableFailure?
  }

  /** Whether the contiguous checkpoint may pass a sequence. */
  predicate Passable(g: Generation, ledger: seq<Event>, q: nat) {
    && 1 <= q <= |ledger| && q !in g.gaps
    && (q in g.deliveries ==> Succeeded(g, q)) && (ledger[q - 1].Source? && ledger[q - 1].required ==> Succeeded(g, q))
  }

  function Advanced(g: Generation, ledger: seq<Event>, from: nat, upper: nat): nat
    decreases upper - from
  {
    if from < upper && Passable(g, ledger, from + 1) then Advanced(g, ledger, from + 1, upper) else from
  }

  /** The sequences skipped by an out-of-order delivery that are not finalized. */
  function Skipped(g: Generation, q: nat): set<nat> {
    set m | g.checkpoint < m < q && !(m in g.deliveries && g.deliveries[m].finalized)
  }

  /** One row of the delivery table; a finalized failure may still be recovered by an application. */
  function Record(s: State, g: Generation, q: nat, outcome: Outcome): Option<Generation> {
    var existing := q in g.deliveries;
    if !(1 <= q <= |s.ledger|) || Terminal(g.phase) then None
    else if existing && g.deliveries[q].finalized && !(g.deliveries[q].outcome.RetryableFailure? && outcome.Applied?)
    then None
    else if q > g.checkpoint + 1 + s.policy.maxGapSpan then None
    else
      var attempts := if existing then g.deliveries[q].attempts + 1 else 1;
      var dead := outcome.RetryableFailure? && attempts >= s.policy.maxAttempts;
      var recorded := g.(
        deliveries := g.deliveries[q := Delivery(outcome, outcome.Applied? || dead, attempts)],
        gaps := g.gaps + Skipped(g, q) + (if dead then {q} else {}),
        deadLetters := g.deadLetters + (if dead then 1 else 0),
        authority := g.authority + 1);
      Some(recorded.(checkpoint := Advanced(recorded, s.ledger + [Derived], g.checkpoint, q)))
  }

  function Put(s: State, id: nat, g: Generation): State { s.(generations := s.generations[id := g]) }

  function Committed(s: State, id: nat, g: Generation): State {
    Put(s, id, g).(ledger := s.ledger + [Derived])
  }

  // ----- operations of the facade

  datatype Write = Written | WriteFailed

  /**
   * What the environment decides: `builds` is whether a batch could be built, its bytes being there to read
   * and every invalidity having its event; `commits` and `cleans` are whether the call got as far as
   * committing the delivery row and deleting the graph before it failed.
   */
  datatype Operation =
    | AppendSource(required: bool, authority: L.Event)
    | AppendDerived
    | Create(id: nat, family: nat)
    | Transition(id: nat, target: Phase)
    | Deliver(id: nat, expected: nat, sequence: nat, builds: bool, write: Write, commits: bool)
    | BeginRebuild(id: nat, through: nat, cleans: bool)
    | Reapply(id: nat, sequence: nat, builds: bool, write: Write)
    | ResolveGap(id: nat, sequence: nat)
    | Validate(id: nat, expected: nat, checkpoint: nat, builds: bool, qualified: bool)
    | Promote(id: nat, checkpoint: nat, builds: bool, compatible: bool, prior: Option<nat>)

  predicate AllowedTransition(from: Phase, target: Phase) {
    match from
    case Building => target.Validating? || target.Failed?
    case Validating => target.Active? || target.Failed?
    case Active => target.Retired? || target.Failed?
    case _ => false
  }

  /**
   * Graph apply, then the delivery row. When the row is not committed the graph keeps the write:
   * that is the crash window.
   */
  function DeliverOnce(s: State, id: nat, g: Generation, q: nat, write: Write, commits: bool): State {
    var graph := if write.Written? then Apply(g.graph, q, BatchNow(s, q)) else None;
    if graph.None? then
      var r := Record(s, g, q, RetryableFailure);
      if r.Some? then Committed(s, id, r.value) else s
    else
      var applied := g.(graph := graph.value);
      var r := Record(s, applied, q, Applied);
      if commits && r.Some? then Committed(s, id, r.value) else Put(s, id, applied)
  }

  /** The exact checkpoint, no gaps, no dead letters, and every delivery applied. */
  predicate CheckpointExact(s: State, g: Generation, checkpoint: nat) {
    && SourceWatermark(s.ledger) == checkpoint && g.checkpoint == checkpoint
    && g.gaps == {} && g.deadLetters == 0 && forall q :: 1 <= q <= checkpoint ==> Succeeded(g, q)
  }

  /** The graph is read back and compared with the fold of the expected batches. */
  predicate Reconciles(s: State, g: Generation, checkpoint: nat) { Fold(Expected(s, checkpoint)) == Some(g.graph) }

  predicate Current(g: Generation, v: Validation, checkpoint: nat) {
    && v.checkpoint == checkpoint && g.validatedThrough == Some(checkpoint)
    && v.lifecycle == g.lifecycle && v.authority == g.authority
  }

  predicate Promotable(s: State, g: Generation, checkpoint: nat) {
    && g.phase.Validating? && CheckpointExact(s, g, checkpoint) && Reconciles(s, g, checkpoint)
    && g.validations != [] && Current(g, g.validations[|g.validations| - 1], checkpoint)
    && g.validations[|g.validations| - 1].graph == g.graph
  }

  predicate IsActive(s: State, id: nat) { id in s.generations && s.generations[id].phase.Active? }

  /** The named prior generation is the family's active one, or there is none. */
  predicate PriorMatches(s: State, family: nat, prior: Option<nat>) {
    && (prior.Some? ==> IsActive(s, prior.value) && s.generations[prior.value].family == family)
    && forall id :: id in s.generations && IsActive(s, id) && s.generations[id].family == family ==> prior == Some(id)
  }

  function Promoted(s: State, id: nat, g: Generation, checkpoint: nat, prior: Option<nat>): State {
    var active := g.(phase := Active, lifecycle := g.lifecycle + 1, authority := g.authority + 1,
                     validatedThrough := Some(checkpoint));
    if prior.None? || prior.value !in s.generations then Committed(s, id, active)
    else
      var p := s.generations[prior.value];
      var retired := p.(phase := Retired, lifecycle := p.lifecycle + 1, authority := p.authority + 1);
      Committed(Committed(s, prior.value, retired), id, active)
  }

  function Step(s: State, op: Operation): State {
    match op
    case AppendSource(required, authority) => s.(ledger := s.ledger + [Source(required, authority)])
    case AppendDerived => s.(ledger := s.ledger + [Derived])
    case Create(id, family) =>
      if id in s.generations then s
      else Committed(s, id, Generation(family, Building, 1, 1, None, 0, {}, 0, map[], EMPTY_GRAPH, []))
    case Transition(id, target) =>
      if id !in s.generations || target.Validating? || target.Active?
         || !AllowedTransition(s.generations[id].phase, target)
      then s
      else
        var g := s.generations[id];
        Committed(s, id, g.(phase := target, lifecycle := g.lifecycle + 1, authority := g.authority + 1))
    case Deliver(id, expected, q, builds, write, commits) =>
      if id !in s.generations || s.generations[id].authority != expected || Terminal(s.generations[id].phase)
         || !(1 <= q <= |s.ledger|) || !builds
      then s
      else DeliverOnce(s, id, s.generations[id], q, write, commits)
    case BeginRebuild(id, through, cleans) =>
      if id !in s.generations || SourceWatermark(s.ledger) != through || !s.generations[id].phase.Building?
         || through < s.generations[id].checkpoint
      then s
      else
        var g := s.generations[id].(authority := s.generations[id].authority + 1,
                                    graph := if cleans then EMPTY_GRAPH else s.generations[id].graph);
        Committed(s, id, g.(checkpoint := Advanced(g, s.ledger + [Derived], g.checkpoint, through)))
    case Reapply(id, q, builds, write) =>
      if id !in s.generations || !(1 <= q <= |s.ledger|) || !builds || write.WriteFailed? then s
      else
        var g := s.generations[id];
        var graph := Apply(g.graph, q, BatchNow(s, q));
        if graph.None? then s else Put(s, id, g.(graph := graph.value))
    case ResolveGap(id, q) =>
      if id !in s.generations || Terminal(s.generations[id].phase) || q !in s.generations[id].gaps
         || !Succeeded(s.generations[id], q)
      then s
      else
        var g := s.generations[id].(gaps := s.generations[id].gaps - {q}, authority := s.generations[id].authority + 1);
        var ledger := s.ledger + [Derived];
        Committed(s, id, g.(checkpoint := Advanced(g, ledger, g.checkpoint, |ledger|)))
    case Validate(id, expected, checkpoint, builds, qualified) =>
      if id !in s.generations || Terminal(s.generations[id].phase) || s.generations[id].authority != expected
         || !builds || !qualified || !CheckpointExact(s, s.generations[id], checkpoint)
         || !Reconciles(s, s.generations[id], checkpoint)
      then s
      else
        var g := s.generations[id];
        Committed(s, id, g.(
          phase := if g.phase.Active? then Active else Validating, lifecycle := g.lifecycle + 1,
          authority := g.authority + 1, validatedThrough := Some(checkpoint),
          validations := g.validations + [Validation(checkpoint, g.lifecycle + 1, g.authority + 1, g.graph)]))
    case Promote(id, checkpoint, builds, compatible, prior) =>
      if id !in s.generations || !builds || !compatible || !Promotable(s, s.generations[id], checkpoint)
         || !PriorMatches(s, s.generations[id].family, prior)
      then s
      else Promoted(s, id, s.generations[id], checkpoint, prior)
  }

  function Run(s: State, ops: seq<Operation>): State
    decreases ops
  {
    if ops == [] then s else Run(Step(s, ops[0]), ops[1..])
  }
}
