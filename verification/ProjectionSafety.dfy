/** What every run of the projection facade keeps, what an activation proves, and what is served after it. */
module ProjectionSafety {
  import opened Common
  import L = ProjectionLifecycle
  import R = ProjectionRecords
  import opened ProjectionModel
  import opened ProjectionContent

  // ----- the source watermark

  /** Nothing the projection does moves the source watermark; only source authority does. */
  lemma WatermarkKept(s: State, op: Operation)
    requires !op.AppendSource?
    ensures SourceWatermark(Step(s, op).ledger) == SourceWatermark(s.ledger)
  {
    hide SourceWatermark, Step;
    WatermarkUnmoved(s.ledger);
    WatermarkUnmoved(s.ledger + [Derived]);
    StepLedger(s, op);
  }

  /** Every other step appends at most two derived events. */
  lemma StepLedger(s: State, op: Operation)
    ensures Step(s, op).fixture == s.fixture
    ensures op.AppendSource? ==> Step(s, op).ledger == s.ledger + [Source(op.required, op.authority)]
    ensures !op.AppendSource? ==>
              || Step(s, op).ledger == s.ledger || Step(s, op).ledger == s.ledger + [Derived]
              || Step(s, op).ledger == s.ledger + [Derived] + [Derived]
  {
    hide Record, DeliverOnce, Promotable, CheckpointExact, Reconciles, Advanced, PriorMatches, BatchNow, Apply;
    if op.Deliver? && op.id in s.generations {
      DeliverLedger(s, op.id, s.generations[op.id], op.sequence, op.write, op.commits);
    }
  }

  lemma DeliverLedger(s: State, id: nat, g: Generation, q: nat, write: Write, commits: bool)
    ensures var s' := DeliverOnce(s, id, g, q, write, commits);
            s'.fixture == s.fixture && (s'.ledger == s.ledger || s'.ledger == s.ledger + [Derived])
  {
    hide BatchNow, Apply, Record;
  }

  /** A derived event changes neither the current records nor any batch. */
  lemma DerivedChangesNothing(s: State, s': State)
    requires s'.fixture == s.fixture && s'.ledger == s.ledger + [Derived]
    ensures CurrentRecords(s') == CurrentRecords(s)
    ensures forall q :: BatchNow(s', q) == BatchNow(s, q)
  {
    var authority, more := Authority(s.ledger), Authority(s'.ledger);
    assert authority <= more && more[|s.ledger|].Other?;
    hide R.CurrentKeys, R.PutsAt, R.RemovalsAt;
    R.BatchStable(authority, more, s.fixture, |s.ledger|, 0);
    R.OtherChangesNothing(more, s.fixture, |s.ledger|, 0);
    assert R.CurrentKeys(more, s.fixture, |s'.ledger|) == R.CurrentKeys(authority, s.fixture, |s.ledger|);
    forall q: nat ensures BatchNow(s', q) == BatchNow(s, q) {
      R.BatchStable(authority, more, s.fixture, |s.ledger|, q);
      R.OtherChangesNothing(more, s.fixture, |s.ledger|, q);
    }
  }

  lemma StepCurrent(s: State, op: Operation)
    requires !op.AppendSource?
    ensures CurrentRecords(Step(s, op)) == CurrentRecords(s)
  {
    hide Step, CurrentRecords, BatchNow;
    StepLedger(s, op);
    var once := s.(ledger := s.ledger + [Derived]);
    DerivedChangesNothing(s, once);
    if Step(s, op).ledger == s.ledger + [Derived] {
      DerivedChangesNothing(s, Step(s, op));
    } else if Step(s, op).ledger == s.ledger + [Derived] + [Derived] {
      DerivedChangesNothing(once, Step(s, op));
    } else {
      SameLedger(s, Step(s, op));
    }
  }

  lemma SameLedger(s: State, s': State)
    requires s'.fixture == s.fixture && s'.ledger == s.ledger
    ensures CurrentRecords(s') == CurrentRecords(s)
  {
  }

  // ----- activation

  /** What a step that activates a generation found in the state before it. */
  ghost predicate ActivationEvidence(s: State, id: nat) {
    && id in s.generations
    && var g := s.generations[id];
       && g.phase.Validating?
       && g.checkpoint == SourceWatermark(s.ledger)
       && g.gaps == {} && g.deadLetters == 0
       && (forall q :: 1 <= q <= g.checkpoint ==> Succeeded(g, q))
       && MarkersFresh(s, g.graph, g.checkpoint) && g.graph.records == CurrentRecords(s)
       && g.validations != []
       && var v := g.validations[|g.validations| - 1];
          v.graph == g.graph && v.checkpoint == g.checkpoint && v.authority == g.authority && v.lifecycle == g.lifecycle
  }

  lemma DeliverPhase(s: State, id: nat, g: Generation, q: nat, write: Write, commits: bool)
    requires id in s.generations && s.generations[id] == g
    ensures var s' := DeliverOnce(s, id, g, q, write, commits);
            && s'.generations.Keys == s.generations.Keys
            && s'.generations[id].phase == g.phase && s'.generations[id].family == g.family
            && s'.generations[id].lifecycle == g.lifecycle
            && s'.generations[id].validations == g.validations && s'.generations[id].validatedThrough == g.validatedThrough
            && s'.generations[id].authority >= g.authority
            && (s'.generations[id].authority == g.authority ==> s'.generations[id] == g.(graph := s'.generations[id].graph))
            && forall x :: x in s.generations && x != id ==> s'.generations[x] == s.generations[x]
  {
    hide BatchNow, Apply, Advanced;
  }

  lemma PromotableIsCurrent(s: State, g: Generation, checkpoint: nat)
    requires Promotable(s, g, checkpoint)
    ensures g.graph.records == CurrentRecords(s) && MarkersFresh(s, g.graph, checkpoint)
  {
    ReconciledIsCurrent(s, g);
    ExpectedMarkers(s, checkpoint);
  }

  /** Only a promotion activates, and only what it may promote. */
  lemma OnlyPromotionActivates(s: State, op: Operation, id: nat)
    requires !IsActive(s, id) && IsActive(Step(s, op), id)
    ensures op.Promote? && op.id == id && id in s.generations && Promotable(s, s.generations[id], op.checkpoint)
    ensures Step(s, op).generations[id].graph == s.generations[id].graph
  {
    hide Advanced, SourceWatermark, Record, DeliverOnce, BatchNow, Apply, Promotable, CheckpointExact, Reconciles;
    if op.Deliver? && op.id in s.generations {
      DeliverPhase(s, op.id, s.generations[op.id], op.sequence, op.write, op.commits);
    }
  }

  /**
   * A generation becomes ACTIVE only from VALIDATING, by a promotion that found it at the exact source
   * watermark, without gaps or dead letters, with every delivery applied, and with the graph that was
   * validated. That graph holds exactly the documents and relations the ledger then calls for.
   */
  lemma ActivationIsProved(s: State, op: Operation, id: nat)
    requires !IsActive(s, id) && IsActive(Step(s, op), id)
    ensures op.Promote? && op.id == id && ActivationEvidence(s, id)
    ensures Step(s, op).generations[id].graph.records == CurrentRecords(Step(s, op))
  {
    OnlyPromotionActivates(s, op, id);
    hide Step, CurrentRecords, Reconciles, MarkersFresh;
    PromotableIsCurrent(s, s.generations[id], op.checkpoint);
    StepCurrent(s, op);
  }

  /** Over a whole run: every activation in it was proved by the step that made it. */
  lemma {:induction false} EveryActivationIsProved(s: State, ops: seq<Operation>, id: nat) returns (k: nat)
    requires !IsActive(s, id) && IsActive(Run(s, ops), id)
    ensures k < |ops| && ops[k].Promote? && ops[k].id == id
    ensures ActivationEvidence(Run(s, ops[..k]), id)
    ensures var s' := Step(Run(s, ops[..k]), ops[k]);
            IsActive(s', id) && s'.generations[id].graph.records == CurrentRecords(s')
    decreases |ops|
  {
    hide Step, ActivationEvidence, CurrentRecords;
    var s' := Step(s, ops[0]);
    if IsActive(s', id) {
      ActivationIsProved(s, ops[0], id);
      assert ops[..0] == [];
      k := 0;
    } else {
      var k' := EveryActivationIsProved(s', ops[1..], id);
      k := k' + 1;
      assert ops[..k][1..] == ops[1..][..k'];
    }
  }

  // ----- what is served

  /** Deliveries are of retained events, and from validation on an applied source event is in the graph. */
  ghost predicate Delivered(ledger: seq<Event>, g: Generation) {
    && (forall q :: q in g.deliveries ==> 1 <= q <= |ledger|)
    && (g.phase.Validating? || g.phase.Active? ==>
          forall q :: 1 <= q <= |ledger| && ledger[q - 1].Source? && Succeeded(g, q) ==> q in g.graph.markers)
  }

  ghost predicate Inv(s: State) {
    forall id :: id in s.generations ==> Grown(s, s.generations[id].graph) && Delivered(s.ledger, s.generations[id])
  }

  /** A generation keeps its part of the invariant when only the ledger grows. */
  lemma InvStays(s: State, s': State, g: Generation)
    requires Grown(s, g.graph) && Delivered(s.ledger, g) && s.ledger <= s'.ledger && s'.fixture == s.fixture
    ensures Grown(s', g.graph) && Delivered(s'.ledger, g)
  {
    GrownStays(s, s', g.graph);
    assert forall i :: 0 <= i < |s.ledger| ==> s'.ledger[i] == s.ledger[i];
  }

  /** What one step may do to one generation's graph and deliveries. */
  ghost predicate Moves(s: State, op: Operation, g: Generation, g': Generation) {
    || (g'.graph == g.graph && g'.deliveries == g.deliveries && (g'.phase == g.phase || !g'.phase.Validating?)
        && (g'.phase.Active? ==> g.phase.Active? || g.phase.Validating?))
    || (op.BeginRebuild? && g'.graph == EMPTY_GRAPH && g'.deliveries == g.deliveries && g'.phase.Building?)
    || (op.Validate? && Reconciles(s, g, SourceWatermark(s.ledger)) && g'.graph == g.graph && g'.deliveries == g.deliveries)
    || Sends(s, op, g, g')
  }

  /** A delivery or a reapplication: the graph takes one batch, or a failure is recorded. */
  ghost predicate Sends(s: State, op: Operation, g: Generation, g': Generation) {
    && (op.Deliver? || op.Reapply?) && 1 <= op.sequence <= |s.ledger| && g'.phase == g.phase
    && (forall q :: q != op.sequence ==> (Succeeded(g', q) <==> Succeeded(g, q)))
    && (forall q :: q in g'.deliveries ==> q in g.deliveries || q == op.sequence)
    && (Apply(g.graph, op.sequence, BatchNow(s, op.sequence)) == Some(g'.graph)
        || (g'.graph == g.graph && (Succeeded(g', op.sequence) ==> Succeeded(g, op.sequence))))
  }

  lemma RecordSends(s: State, g: Generation, q: nat, outcome: Outcome)
    requires Record(s, g, q, outcome).Some?
    ensures var r := Record(s, g, q, outcome).value;
            && r.graph == g.graph && r.phase == g.phase && r.deliveries.Keys == g.deliveries.Keys + {q}
            && (forall x :: x != q ==> (Succeeded(r, x) <==> Succeeded(g, x)))
            && (outcome.RetryableFailure? ==> !Succeeded(r, q))
  {
    hide Advanced;
  }

  lemma DeliverSends(s: State, op: Operation)
    requires op.Deliver? && op.id in s.generations && 1 <= op.sequence <= |s.ledger|
    ensures var g := s.generations[op.id];
            var s' := DeliverOnce(s, op.id, g, op.sequence, op.write, op.commits);
            op.id in s'.generations && Sends(s, op, g, s'.generations[op.id])
  {
    hide Record, Apply, BatchNow;
    var g := s.generations[op.id];
    var graph := if op.write.Written? then Apply(g.graph, op.sequence, BatchNow(s, op.sequence)) else None;
    if graph.None? {
      if Record(s, g, op.sequence, RetryableFailure).Some? { RecordSends(s, g, op.sequence, RetryableFailure); }
    } else {
      var applied := g.(graph := graph.value);
      if Record(s, applied, op.sequence, Applied).Some? { RecordSends(s, applied, op.sequence, Applied); }
    }
  }

  lemma StepMoves(s: State, op: Operation, id: nat)
    requires id in s.generations
    ensures id in Step(s, op).generations && Moves(s, op, s.generations[id], Step(s, op).generations[id])
  {
    hide Advanced, Reconciles, Record, DeliverOnce, BatchNow, Apply, PriorMatches, Promotable, SourceWatermark, Sends;
    if op.Deliver? && op.id in s.generations {
      DeliverPhase(s, op.id, s.generations[op.id], op.sequence, op.write, op.commits);
      if 1 <= op.sequence <= |s.ledger| { DeliverSends(s, op); }
    }
    if op.Promote? && op.id in s.generations && Promotable(s, s.generations[op.id], op.checkpoint) {
      PromotableValidating(s, s.generations[op.id], op.checkpoint);
    }
    if op.Reapply? && op.id == id { ReapplySends(s, op); }
  }

  lemma PromotableValidating(s: State, g: Generation, checkpoint: nat)
    requires Promotable(s, g, checkpoint)
    ensures g.phase.Validating?
  {
  }

  lemma ReapplySends(s: State, op: Operation)
    requires op.Reapply? && op.id in s.generations
    ensures op.id in Step(s, op).generations
    ensures Step(s, op) == s || Sends(s, op, s.generations[op.id], Step(s, op).generations[op.id])
  {
    hide Apply, BatchNow;
  }

  /** A generation that moved keeps its part of the invariant. */
  lemma MovedKeeps(s: State, op: Operation, g: Generation, g': Generation)
    requires Grown(s, g.graph) && Delivered(s.ledger, g) && Moves(s, op, g, g')
    ensures Grown(s, g'.graph) && Delivered(s.ledger, g')
  {
    hide Grown, Apply, BatchNow, Reconciles, Sends;
    if op.BeginRebuild? && g'.graph == EMPTY_GRAPH && g'.deliveries == g.deliveries && g'.phase.Building? {
      EmptyGrown(s);
    } else if Sends(s, op, g, g') {
      SentKeeps(s, op, g, g');
    } else if op.Validate? && Reconciles(s, g, SourceWatermark(s.ledger)) {
      ReconciledUpToDate(s, g);
    }
  }

  lemma SentKeeps(s: State, op: Operation, g: Generation, g': Generation)
    requires Grown(s, g.graph) && Delivered(s.ledger, g) && Sends(s, op, g, g')
    ensures Grown(s, g'.graph) && Delivered(s.ledger, g')
  {
    hide Grown, BatchNow;
    if Apply(g.graph, op.sequence, BatchNow(s, op.sequence)).Some? {
      GrownApplies(s, g.graph, op.sequence);
      ApplyMarks(g.graph, op.sequence, BatchNow(s, op.sequence));
    }
    hide Apply;
    assert Apply(g.graph, op.sequence, BatchNow(s, op.sequence)) == Some(g'.graph) ==>
             forall q :: q in g.graph.markers || q == op.sequence ==> q in g'.graph.markers;
  }

  lemma ApplyMarks(g: Graph, sequence: nat, b: Batch)
    requires Apply(g, sequence, b).Some?
    ensures forall q :: q in Apply(g, sequence, b).value.markers <==> q in g.markers || q == sequence
  {
  }

  lemma ReconciledUpToDate(s: State, g: Generation)
    requires Reconciles(s, g, SourceWatermark(s.ledger))
    ensures UpToDate(s, g.graph)
  {
    ExpectedMarkers(s, SourceWatermark(s.ledger));
    forall i: nat | i < |s.ledger| && s.ledger[i].Source? ensures i < SourceWatermark(s.ledger) { SourceBelow(s.ledger, i); }
  }

  lemma StepInv(s: State, op: Operation)
    requires Inv(s)
    ensures Inv(Step(s, op))
  {
    hide Step, Grown, Delivered, Moves;
    var s' := Step(s, op);
    StepLedger(s, op);
    forall id | id in s'.generations
      ensures Grown(s', s'.generations[id].graph) && Delivered(s'.ledger, s'.generations[id])
    {
      if id in s.generations {
        StepMoves(s, op, id);
        MovedKeeps(s, op, s.generations[id], s'.generations[id]);
        InvStays(s, s', s'.generations[id]);
      } else {
        OnlyCreates(s, op, id);
        EmptyGrown(s');
        NewDelivered(s'.ledger, s'.generations[id]);
      }
    }
  }

  lemma OnlyCreates(s: State, op: Operation, id: nat)
    requires id !in s.generations && id in Step(s, op).generations
    ensures var g := Step(s, op).generations[id]; g.graph == EMPTY_GRAPH && g.deliveries == map[] && g.phase.Building?
  {
    hide Record, DeliverOnce, Promotable, CheckpointExact, Reconciles, Advanced, PriorMatches, BatchNow, Apply;
    if op.Deliver? && op.id in s.generations {
      DeliverPhase(s, op.id, s.generations[op.id], op.sequence, op.write, op.commits);
    }
  }

  lemma NewDelivered(ledger: seq<Event>, g: Generation)
    requires g.deliveries == map[] && g.phase.Building?
    ensures Delivered(ledger, g)
  {
  }

  lemma {:induction false} RunInv(s: State, ops: seq<Operation>)
    requires Inv(s)
    ensures Inv(Run(s, ops))
    decreases |ops|
  {
    hide Step, Inv;
    if ops != [] {
      StepInv(s, ops[0]);
      RunInv(Step(s, ops[0]), ops[1..]);
    }
  }

  /**
   * Over every run, with deliveries in any order, repeated, failed or cut off by a crash: an ACTIVE
   * generation to which every source event has been applied serves exactly the current records.
   */
  lemma ServedIsCurrent(s: State, ops: seq<Operation>, id: nat)
    requires Inv(s) && IsActive(Run(s, ops), id)
    requires var s' := Run(s, ops);
             forall q :: 1 <= q <= |s'.ledger| && s'.ledger[q - 1].Source? ==> Succeeded(s'.generations[id], q)
    ensures Run(s, ops).generations[id].graph.records == CurrentRecords(Run(s, ops))
  {
    hide Run, Grown, CurrentRecords;
    RunInv(s, ops);
    var s' := Run(s, ops);
    assert UpToDate(s', s'.generations[id].graph);
    GrownIsCurrent(s', s'.generations[id].graph);
  }

  /** Over every run, no batch of a sequence that a graph has not seen ever conflicts with it. */
  lemma NeverConflicts(s: State, ops: seq<Operation>, id: nat, q: nat)
    requires Inv(s) && id in Run(s, ops).generations && 1 <= q <= |Run(s, ops).ledger|
    requires q !in Run(s, ops).generations[id].graph.markers
    ensures Apply(Run(s, ops).generations[id].graph, q, BatchNow(Run(s, ops), q)).Some?
  {
    hide Run, Grown, Apply, BatchNow;
    RunInv(s, ops);
    GrownApplies(Run(s, ops), Run(s, ops).generations[id].graph, q);
  }

  // ----- at most one active generation in a family

  ghost predicate OneActive(s: State) {
    forall a, b :: IsActive(s, a) && IsActive(s, b) && s.generations[a].family == s.generations[b].family ==> a == b
  }

  lemma StepOneActive(s: State, op: Operation)
    requires OneActive(s)
    ensures OneActive(Step(s, op))
  {
    hide Advanced, Fold, Apply, BatchNow, SourceWatermark, Record, DeliverOnce, Promotable, CheckpointExact, Reconciles;
    if op.Deliver? && op.id in s.generations {
      DeliverPhase(s, op.id, s.generations[op.id], op.sequence, op.write, op.commits);
    }
  }

  lemma {:induction false} RunOneActive(s: State, ops: seq<Operation>)
    requires OneActive(s)
    ensures OneActive(Run(s, ops))
    decreases ops
  {
    hide Step, OneActive;
    if ops != [] {
      StepOneActive(s, ops[0]);
      RunOneActive(Step(s, ops[0]), ops[1..]);
    }
  }

  // ----- what the authority version protects

  /** A generation moves only forward, and one whose authority version stands still changed nothing but its graph. */
  ghost predicate Guarded(g: Generation, g': Generation) {
    g'.authority >= g.authority && (g'.authority == g.authority ==> g' == g.(graph := g'.graph))
  }

  lemma StepGuarded(s: State, op: Operation, id: nat)
    requires id in s.generations
    ensures id in Step(s, op).generations && Guarded(s.generations[id], Step(s, op).generations[id])
  {
    hide Advanced, Fold, Apply, BatchNow, SourceWatermark, Record, DeliverOnce, Promotable, CheckpointExact,
         Reconciles, PriorMatches;
    if op.Deliver? && op.id in s.generations {
      DeliverPhase(s, op.id, s.generations[op.id], op.sequence, op.write, op.commits);
    }
  }

  lemma {:induction false} RunGuarded(s: State, ops: seq<Operation>, id: nat)
    requires id in s.generations
    ensures id in Run(s, ops).generations && Guarded(s.generations[id], Run(s, ops).generations[id])
    decreases ops
  {
    hide Step;
    if ops != [] {
      StepGuarded(s, ops[0], id);
      RunGuarded(Step(s, ops[0]), ops[1..], id);
    }
  }

  /**
   * Whatever happened between a validation and the promotion that uses it: the promoted generation is,
   * graph included, the generation that was validated. Any recorded delivery in between has advanced
   * the authority version and refuses the promotion; any unrecorded graph write shows in the digest.
   */
  lemma PromotesWhatWasValidated(
      s: State, ops: seq<Operation>, id: nat, checkpoint: nat)
    requires id in s.generations && s.generations[id].validations != []
    requires var g := s.generations[id];
             var v := g.validations[|g.validations| - 1];
             v.authority == g.authority && v.graph == g.graph
    requires id in Run(s, ops).generations && Promotable(Run(s, ops), Run(s, ops).generations[id], checkpoint)
    requires Run(s, ops).generations[id].validations == s.generations[id].validations
    ensures Run(s, ops).generations[id] == s.generations[id]
  {
    hide Run;
    RunGuarded(s, ops, id);
  }
}
