/**
 * How far a generation gets: what its contiguous checkpoint is, when it can be validated, and that
 * deliveries in order lead to activation.
 */
module ProjectionProgress {
  import opened Common
  import L = ProjectionLifecycle
  import R = ProjectionRecords
  import opened ProjectionModel
  import opened ProjectionContent
  import opened ProjectionSafety

  // ----- the contiguous checkpoint

  /** The checkpoint moves over every sequence it may pass, and stops at the first one it may not or at the bound. */
  lemma {:induction false} AdvancedIsFurthest(g: Generation, ledger: seq<Event>, from: nat, upper: nat)
    ensures var r := Advanced(g, ledger, from, upper);
            && (from >= upper ==> r == from)
            && (from <= upper ==>
                  && from <= r <= upper && (forall q :: from < q <= r ==> Passable(g, ledger, q))
                  && (r < upper ==> !Passable(g, ledger, r + 1)))
    decreases upper - from
  {
    if from < upper && Passable(g, ledger, from + 1) { AdvancedIsFurthest(g, ledger, from + 1, upper); }
  }

  /** A sequence may be passed unless it is an open gap, was not delivered though required, or was delivered in vain. */
  lemma PassableMeans(g: Generation, ledger: seq<Event>, q: nat)
    ensures Passable(g, ledger, q) <==>
            && 1 <= q <= |ledger| && q !in g.gaps
            && (q in g.deliveries
                || !(ledger[q - 1].Source? && ledger[q - 1].required))
            && (q in g.deliveries ==> g.deliveries[q].outcome == Applied && g.deliveries[q].finalized)
  {
  }

  /** What the delivery table, the gaps and the checkpoint of a generation say of each other. */
  ghost predicate Ordered(g: Generation, n: nat) {
    && g.checkpoint <= n && (forall q :: q in g.deliveries ==> 1 <= q <= n)
    && (forall q {:trigger q in g.gaps} :: FailedForGood(g, q) ==> q in g.gaps)
    && (forall x, m :: x in g.deliveries && g.checkpoint < m < x ==> m in g.gaps || Succeeded(g, m))
    && (Succeeded(g, g.checkpoint + 1) ==> g.checkpoint + 1 in g.gaps)
  }

  /** What recording a delivery does, column by column. */
  lemma RecordMeans(s: State, g: Generation, q: nat, outcome: Outcome)
    ensures var r := Record(s, g, q, outcome);
            var attempts := if q in g.deliveries then g.deliveries[q].attempts + 1 else 1;
            var dead := outcome == RetryableFailure && attempts >= s.policy.maxAttempts;
            && (r.Some? <==>
                  && 1 <= q <= |s.ledger| && g.phase in {Building, Validating, Active}
                  && !Succeeded(g, q) && (FailedForGood(g, q) ==> outcome == Applied)
                  && q - g.checkpoint - 1 <= s.policy.maxGapSpan)
            && (r.Some? ==>
                  && r.value.deliveries == g.deliveries[q := Delivery(outcome, outcome == Applied || dead, attempts)]
                  && (forall m :: m in r.value.gaps <==>
                        || m in g.gaps || (m == q && dead)
                        || (g.checkpoint < m < q && !Succeeded(g, m) && !FailedForGood(g, m)))
                  && r.value.deadLetters == g.deadLetters + (if dead then 1 else 0)
                  && r.value.authority == g.authority + 1
                  && r.value == g.(deliveries := r.value.deliveries, gaps := r.value.gaps,
                                   deadLetters := r.value.deadLetters, authority := r.value.authority,
                                   checkpoint := r.value.checkpoint)
                  && r.value.checkpoint == Advanced(r.value, s.ledger + [Derived], g.checkpoint, q))
  {
    var r := Record(s, g, q, outcome);
    if r.Some? {
      AdvancedIgnores(r.value, r.value.(checkpoint := g.checkpoint), s.ledger + [Derived], g.checkpoint, q);
    }
  }

  /** The bound does not depend on the checkpoint a generation carries. */
  lemma {:induction false} AdvancedIgnores(g: Generation, h: Generation, ledger: seq<Event>, from: nat, upper: nat)
    requires g.gaps == h.gaps && g.deliveries == h.deliveries
    ensures Advanced(g, ledger, from, upper) == Advanced(h, ledger, from, upper)
    decreases upper - from
  {
    if from < upper && Passable(g, ledger, from + 1) { AdvancedIgnores(g, h, ledger, from + 1, upper); }
  }

  // ----- every run keeps that order

  lemma RecordOrdered(s: State, g: Generation, q: nat, outcome: Outcome)
    requires Ordered(g, |s.ledger|) && Record(s, g, q, outcome).Some?
    ensures Ordered(Record(s, g, q, outcome).value, |s.ledger| + 1)
  {
    RecordMeans(s, g, q, outcome);
    hide Record, Advanced, Passable;
    var r := Record(s, g, q, outcome).value;
    AdvancedIsFurthest(r, s.ledger + [Derived], g.checkpoint, q);
    PassableMeans(r, s.ledger + [Derived], r.checkpoint);
    PassableMeans(r, s.ledger + [Derived], r.checkpoint + 1);
    forall m | m != q ensures (Succeeded(r, m) <==> Succeeded(g, m)) && (FailedForGood(r, m) <==> FailedForGood(g, m)) {}
    forall m ensures m in g.gaps ==> m in r.gaps {}
    assert g.checkpoint <= r.checkpoint;
    assert Succeeded(g, q + 1) && g.checkpoint < q ==> q in g.gaps;
  }

  /** Moving the checkpoint of an unchanged table over what it may pass keeps the order. */
  lemma AdvanceOrdered(g: Generation, g': Generation, ledger: seq<Event>, upper: nat)
    requires ledger != [] && Ordered(g, |ledger| - 1) && g.checkpoint <= upper <= |ledger|
    requires g'.deliveries == g.deliveries
    requires forall m :: (m in g'.gaps ==> m in g.gaps) && (m in g.gaps && m !in g'.gaps ==> Succeeded(g, m))
    requires g'.gaps == g.gaps || upper == |ledger|
    requires g'.checkpoint == Advanced(g', ledger, g.checkpoint, upper)
    ensures Ordered(g', |ledger|)
  {
    hide Advanced, Passable;
    AdvancedIsFurthest(g', ledger, g.checkpoint, upper);
    PassableMeans(g', ledger, g'.checkpoint + 1);
    PassableMeans(g', ledger, g.checkpoint + 1);
    forall m ensures (Succeeded(g', m) <==> Succeeded(g, m)) && (FailedForGood(g', m) <==> FailedForGood(g, m)) {}
  }

  lemma OrderedStays(g: Generation, g': Generation, n: nat, m: nat)
    requires Ordered(g, n) && n <= m
    requires g'.checkpoint == g.checkpoint && g'.gaps == g.gaps && g'.deliveries == g.deliveries
    ensures Ordered(g', m)
  {
    forall x ensures (Succeeded(g', x) <==> Succeeded(g, x)) && (FailedForGood(g', x) <==> FailedForGood(g, x)) {}
  }

  lemma DeliverOrdered(s: State, id: nat, q: nat, write: Write, commits: bool)
    requires id in s.generations && Ordered(s.generations[id], |s.ledger|)
    ensures var s' := DeliverOnce(s, id, s.generations[id], q, write, commits);
            id in s'.generations && |s'.ledger| >= |s.ledger| && Ordered(s'.generations[id], |s'.ledger|)
  {
    hide BatchNow, Apply, Record, Ordered;
    var g := s.generations[id];
    var graph := if write.Written? then Apply(g.graph, q, BatchNow(s, q)) else None;
    if graph.None? {
      if Record(s, g, q, RetryableFailure).Some? { RecordOrdered(s, g, q, RetryableFailure); }
    } else {
      var applied := g.(graph := graph.value);
      OrderedStays(g, applied, |s.ledger|, |s.ledger|);
      if Record(s, applied, q, Applied).Some? { RecordOrdered(s, applied, q, Applied); }
    }
  }

  ghost predicate AllOrdered(s: State) { forall id :: id in s.generations ==> Ordered(s.generations[id], |s.ledger|) }

  /** A delivery never moves the checkpoint back. */
  lemma DeliverAdvances(s: State, id: nat, g: Generation, q: nat, write: Write, commits: bool)
    requires id in s.generations && s.generations[id] == g
    ensures id in DeliverOnce(s, id, g, q, write, commits).generations
    ensures DeliverOnce(s, id, g, q, write, commits).generations[id].checkpoint >= g.checkpoint
  {
    hide Advanced, Apply, BatchNow, Record;
    var graph := if write.Written? then Apply(g.graph, q, BatchNow(s, q)) else None;
    var applied := if graph.Some? then g.(graph := graph.value) else g;
    var outcome := if graph.Some? then Applied else RetryableFailure;
    RecordMeans(s, applied, q, outcome);
    var r := Record(s, applied, q, outcome);
    if r.Some? { AdvancedIsFurthest(r.value, s.ledger + [Derived], g.checkpoint, q); }
  }

  lemma CreatedOrdered(g: Generation, n: nat)
    requires g.checkpoint == 0 && g.gaps == {} && g.deliveries == map[]
    ensures Ordered(g, n)
  {
  }

  lemma BeginOrdered(s: State, id: nat, through: nat, cleans: bool)
    requires id in s.generations && Ordered(s.generations[id], |s.ledger|)
    ensures var s' := Step(s, BeginRebuild(id, through, cleans));
            id in s'.generations && |s'.ledger| >= |s.ledger| && Ordered(s'.generations[id], |s'.ledger|)
  {
    hide Advanced, Ordered, SourceWatermark;
    var g := s.generations[id];
    var s' := Step(s, BeginRebuild(id, through, cleans));
    if s' != s {
      var h := g.(authority := g.authority + 1, graph := if cleans then EMPTY_GRAPH else g.graph);
      AdvancedIgnores(h, s'.generations[id], s'.ledger, g.checkpoint, through);
      AdvanceOrdered(g, s'.generations[id], s'.ledger, through);
    }
  }

  lemma ResolveOrdered(s: State, id: nat, q: nat)
    requires id in s.generations && Ordered(s.generations[id], |s.ledger|)
    ensures var s' := Step(s, ResolveGap(id, q));
            id in s'.generations && |s'.ledger| >= |s.ledger| && Ordered(s'.generations[id], |s'.ledger|)
  {
    hide Advanced, Ordered;
    var g := s.generations[id];
    var s' := Step(s, ResolveGap(id, q));
    if s' != s {
      assert g.checkpoint <= |s'.ledger| by { OrderedBound(g, |s.ledger|); }
      AdvancedIgnores(g.(gaps := g.gaps - {q}, authority := g.authority + 1), s'.generations[id], s'.ledger,
                      g.checkpoint, |s'.ledger|);
      AdvanceOrdered(g, s'.generations[id], s'.ledger, |s'.ledger|);
    }
  }

  lemma OrderedBound(g: Generation, n: nat)
    requires Ordered(g, n)
    ensures g.checkpoint <= n
  {
  }

  /** Every other operation leaves the table, the gaps and the checkpoint of each generation alone. */
  lemma OthersLeave(s: State, op: Operation, id: nat)
    requires id in s.generations
    requires !(op.Deliver? && op.id == id) && !(op.BeginRebuild? && op.id == id) && !(op.ResolveGap? && op.id == id)
    ensures id in Step(s, op).generations
    ensures var g, g' := s.generations[id], Step(s, op).generations[id];
            && g'.checkpoint == g.checkpoint && g'.gaps == g.gaps && g'.deliveries == g.deliveries
            && g'.deadLetters == g.deadLetters
  {
    hide Advanced, Apply, BatchNow, Record, DeliverOnce, Promotable, CheckpointExact, Reconciles, PriorMatches, SourceWatermark;
    if op.Deliver? && op.id in s.generations {
      DeliverPhase(s, op.id, s.generations[op.id], op.sequence, op.write, op.commits);
    }
  }

  lemma StepOrdered(s: State, op: Operation)
    requires AllOrdered(s)
    ensures AllOrdered(Step(s, op))
  {
    hide Ordered;
    var s' := Step(s, op);
    StepLedger(s, op);
    forall id | id in s'.generations ensures Ordered(s'.generations[id], |s'.ledger|) {
      if id !in s.generations {
        OnlyCreates(s, op, id);
        CreatedIsNew(s, op, id);
        CreatedOrdered(s'.generations[id], |s'.ledger|);
      } else {
        StepOrderedOne(s, op, id);
      }
    }
  }

  lemma CreatedIsNew(s: State, op: Operation, id: nat)
    requires id !in s.generations && id in Step(s, op).generations
    ensures var g := Step(s, op).generations[id]; g.checkpoint == 0 && g.gaps == {} && g.deliveries == map[]
  {
    hide Record, DeliverOnce, Promotable, CheckpointExact, Reconciles, Advanced, PriorMatches, BatchNow, Apply;
    if op.Deliver? && op.id in s.generations {
      DeliverPhase(s, op.id, s.generations[op.id], op.sequence, op.write, op.commits);
    }
  }

  lemma StepOrderedOne(s: State, op: Operation, id: nat)
    requires id in s.generations && Ordered(s.generations[id], |s.ledger|)
    ensures id in Step(s, op).generations && Ordered(Step(s, op).generations[id], |Step(s, op).ledger|)
  {
    hide Ordered, Step;
    StepLedger(s, op);
    if op.BeginRebuild? && op.id == id {
      BeginOrdered(s, id, op.through, op.cleans);
    } else if op.ResolveGap? && op.id == id {
      ResolveOrdered(s, id, op.sequence);
    } else if op.Deliver? && op.id == id {
      DeliverIs(s, op);
      DeliverOrdered(s, id, op.sequence, op.write, op.commits);
    } else {
      OthersLeave(s, op, id);
      OrderedStays(s.generations[id], Step(s, op).generations[id], |s.ledger|, |Step(s, op).ledger|);
    }
  }

  lemma DeliverIs(s: State, op: Operation)
    requires op.Deliver? && op.id in s.generations
    ensures Step(s, op) == s
            || Step(s, op) == DeliverOnce(s, op.id, s.generations[op.id], op.sequence, op.write, op.commits)
  {
  }

  lemma {:induction false} RunOrdered(s: State, ops: seq<Operation>)
    requires AllOrdered(s)
    ensures AllOrdered(Run(s, ops))
    decreases |ops|
  {
    hide Step, AllOrdered;
    if ops != [] {
      StepOrdered(s, ops[0]);
      RunOrdered(Step(s, ops[0]), ops[1..]);
    }
  }

  // ----- when a generation can be validated

  /** Without open gaps, the checkpoint has reached every sequence up to which all deliveries are applied. */
  lemma CheckpointReaches(s: State, ops: seq<Operation>, id: nat, n: nat)
    requires AllOrdered(s) && id in Run(s, ops).generations
    requires var g := Run(s, ops).generations[id]; g.gaps == {} && forall q :: 1 <= q <= n ==> Succeeded(g, q)
    ensures Run(s, ops).generations[id].checkpoint >= n
  {
    hide Run;
    RunOrdered(s, ops);
    var g := Run(s, ops).generations[id];
  }

  /**
   * A reachable generation without gaps whose source events are all applied can be validated exactly when
   * it has no dead letter, its checkpoint has not run past the source watermark, and its batches are fresh.
   */
  lemma ValidatesExactly(s: State, ops: seq<Operation>, id: nat)
    requires Inv(s) && AllOrdered(s) && id in Run(s, ops).generations
    requires var t, g := Run(s, ops), Run(s, ops).generations[id];
             && g.gaps == {} && g.phase in {Building, Validating, Active}
             && forall q :: 1 <= q <= SourceWatermark(t.ledger) ==> Succeeded(g, q)
    ensures var t, g := Run(s, ops), Run(s, ops).generations[id];
            var w := SourceWatermark(t.ledger);
            Step(t, Validate(id, g.authority, w, true, true)) != t <==>
            g.deadLetters == 0 && g.checkpoint <= w && MarkersFresh(t, g.graph, w)
  {
    var t := Run(s, ops);
    var g, w := t.generations[id], SourceWatermark(t.ledger);
    CheckpointReaches(s, ops, id, w);
    RunInv(s, ops);
    hide Run, Reconciles, MarkersFresh, Grown, Delivered;
    ReconcilesIffFresh(t, g);
  }

  /** The graph does not reconcile any less after a derived event. */
  lemma ReconcilesStays(s: State, s': State, g: Generation, n: nat)
    requires s'.fixture == s.fixture && s'.ledger == s.ledger + [Derived] && Reconciles(s, g, n)
    ensures Reconciles(s', g, n)
  {
    DerivedChangesNothing(s, s');
    hide BatchNow, Fold;
    assert Expected(s', n) == Expected(s, n);
  }

  /** What has been validated can be promoted: a generation at its exact checkpoint becomes ACTIVE in two steps. */
  lemma ValidateThenPromote(s: State, id: nat, prior: Option<nat>)
    requires id in s.generations && s.generations[id].phase in {Building, Validating}
    requires var g, w := s.generations[id], SourceWatermark(s.ledger);
             CheckpointExact(s, g, w) && Reconciles(s, g, w) && PriorMatches(s, g.family, prior)
    ensures var w := SourceWatermark(s.ledger);
            var t := Step(s, Validate(id, s.generations[id].authority, w, true, true));
            IsActive(Step(t, Promote(id, w, true, true, prior)), id)
  {
    var g, w := s.generations[id], SourceWatermark(s.ledger);
    var t := Step(s, Validate(id, g.authority, w, true, true));
    var h := t.generations[id];
    hide Reconciles, SourceWatermark;
    WatermarkUnmoved(s.ledger);
    ReconcilesStays(s, t, g, w);
    SameGraphReconciles(t, g, h, w);
    assert CheckpointExact(t, h, w) by { forall q | Succeeded(g, q) ensures Succeeded(h, q) {} }
    assert PriorMatches(t, h.family, prior);
    assert Promotable(t, h, w);
  }

  lemma SameGraphReconciles(s: State, g: Generation, h: Generation, n: nat)
    requires Reconciles(s, g, n) && h.graph == g.graph
    ensures Reconciles(s, h, n)
  {
  }

  // ----- deliveries in order

  /** The state after the sequences 1..n were delivered in order, each write and commit succeeding. */
  function DeliveredInOrder(s: State, id: nat, n: nat): State
    requires id in s.generations
    ensures id in DeliveredInOrder(s, id, n).generations
  {
    if n == 0 then s
    else
      var t := DeliveredInOrder(s, id, n - 1);
      StepKeepsGenerations(t, Deliver(id, t.generations[id].authority, n, true, Written, true), id);
      Step(t, Deliver(id, t.generations[id].authority, n, true, Written, true))
  }

  lemma StepKeepsGenerations(s: State, op: Operation, id: nat)
    requires id in s.generations
    ensures id in Step(s, op).generations
  {
    hide Step;
    StepGuarded(s, op, id);
  }

  /** A new generation, as created. */
  predicate New(g: Generation) {
    && g.phase == Building && g.checkpoint == 0 && g.gaps == {} && g.deadLetters == 0 && g.deliveries == map[]
    && g.graph == EMPTY_GRAPH
  }

  /** What in-order delivery of the first n sequences makes of a new generation. */
  ghost predicate InOrder(s: State, g: Generation, n: nat) {
    && g.phase == Building && g.checkpoint == n && g.gaps == {} && g.deadLetters == 0
    && (forall q :: q in g.deliveries <==> 1 <= q <= n) && (forall q :: 1 <= q <= n ==> Succeeded(g, q))
    && Reconciles(s, g, n)
  }

  lemma RecordNext(s: State, g: Generation, n: nat)
    requires g.phase == Building && g.checkpoint == n < |s.ledger| && g.gaps == {} && g.deadLetters == 0
    requires (forall q :: q in g.deliveries <==> 1 <= q <= n) && (forall q :: 1 <= q <= n ==> Succeeded(g, q))
    ensures Record(s, g, n + 1, Applied).Some?
    ensures var r := Record(s, g, n + 1, Applied).value;
            && r.phase == Building && r.checkpoint == n + 1 && r.gaps == {} && r.deadLetters == 0
            && (forall q :: q in r.deliveries <==> 1 <= q <= n + 1) && (forall q :: 1 <= q <= n + 1 ==> Succeeded(r, q))
            && r.graph == g.graph && r.family == g.family
  {
    RecordMeans(s, g, n + 1, Applied);
    hide Record, Advanced;
    var r := Record(s, g, n + 1, Applied).value;
    assert r.gaps == {} by { forall m ensures m !in r.gaps {} }
    AdvancedIsFurthest(r, s.ledger + [Derived], n, n + 1);
    PassableMeans(r, s.ledger + [Derived], n + 1);
    forall q | 1 <= q <= n ensures Succeeded(r, q) { assert Succeeded(g, q); }
  }

  lemma DeliverNext(s: State, id: nat, n: nat)
    requires id in s.generations && InOrder(s, s.generations[id], n) && n < |s.ledger|
    ensures var g := s.generations[id];
            var s' := Step(s, Deliver(id, g.authority, n + 1, true, Written, true));
            && id in s'.generations && InOrder(s', s'.generations[id], n + 1)
            && s'.generations[id].family == g.family
            && s'.fixture == s.fixture && s'.ledger == s.ledger + [Derived]
            && s'.generations == s.generations[id := s'.generations[id]]
  {
    hide BatchNow, Apply, Record, Fold;
    var g := s.generations[id];
    NextNeverConflicts(s, g, n);
    var applied := g.(graph := Apply(g.graph, n + 1, BatchNow(s, n + 1)).value);
    forall q | 1 <= q <= n ensures Succeeded(applied, q) { assert Succeeded(g, q); }
    RecordNext(s, applied, n);
    var s' := Step(s, Deliver(id, g.authority, n + 1, true, Written, true));
    assert s' == Committed(s, id, Record(s, applied, n + 1, Applied).value);
    ReconcilesStays(s, s', s'.generations[id], n + 1);
  }

  lemma NextNeverConflicts(s: State, g: Generation, n: nat)
    requires Reconciles(s, g, n) && n < |s.ledger|
    ensures Apply(g.graph, n + 1, BatchNow(s, n + 1)).Some?
    ensures Reconciles(s, g.(graph := Apply(g.graph, n + 1, BatchNow(s, n + 1)).value), n + 1)
  {
    hide Apply, BatchNow;
    assert Expected(s, n + 1)[..n] == Expected(s, n);
    ExpectedMarkers(s, n + 1);
  }

  lemma NewInOrder(s: State, g: Generation)
    requires New(g)
    ensures InOrder(s, g, 0)
  {
    assert Expected(s, 0) == [];
  }

  lemma {:induction false} InOrderKeeps(s: State, id: nat, n: nat)
    requires id in s.generations && New(s.generations[id]) && n <= |s.ledger|
    ensures var t := DeliveredInOrder(s, id, n);
            && InOrder(t, t.generations[id], n) && t.generations[id].family == s.generations[id].family
            && t.fixture == s.fixture && |t.ledger| == |s.ledger| + n
            && SourceWatermark(t.ledger) == SourceWatermark(s.ledger)
            && t.generations == s.generations[id := t.generations[id]]
    decreases n
  {
    hide InOrder, Step, SourceWatermark, New;
    if n == 0 {
      NewInOrder(s, s.generations[id]);
      assert s.generations == s.generations[id := s.generations[id]];
    } else {
      InOrderKeeps(s, id, n - 1);
      var t := DeliveredInOrder(s, id, n - 1);
      DeliverNext(t, id, n - 1);
      WatermarkUnmoved(t.ledger);
    }
  }

  /**
   * Deliveries of all sequences up to the source watermark, in order, to a new generation: its checkpoint
   * is the watermark, and validation followed by promotion makes it ACTIVE with the current records.
   */
  lemma InOrderActivates(s: State, id: nat, prior: Option<nat>)
    requires id in s.generations && New(s.generations[id]) && PriorMatches(s, s.generations[id].family, prior)
    ensures var w := SourceWatermark(s.ledger);
            var t := DeliveredInOrder(s, id, w);
            && t.generations[id].checkpoint == w
            && var v := Step(t, Validate(id, t.generations[id].authority, w, true, true));
               var a := Step(v, Promote(id, w, true, true, prior));
               IsActive(a, id) && a.generations[id].graph.records == CurrentRecords(a)
  {
    hide Step, DeliveredInOrder, Reconciles, CurrentRecords, SourceWatermark;
    var w := SourceWatermark(s.ledger);
    InOrderKeeps(s, id, w);
    var t := DeliveredInOrder(s, id, w);
    assert !IsActive(t, id);
    assert PriorMatches(t, t.generations[id].family, prior);
    ValidateThenPromote(t, id, prior);
    var v := Step(t, Validate(id, t.generations[id].authority, w, true, true));
    ValidationActivatesNothing(t, Validate(id, t.generations[id].authority, w, true, true), id);
    ActivationIsProved(v, Promote(id, w, true, true, prior), id);
  }

  lemma ValidationActivatesNothing(s: State, op: Operation, id: nat)
    requires !IsActive(s, id) && !op.Promote?
    ensures !IsActive(Step(s, op), id)
  {
    hide Step;
    if IsActive(Step(s, op), id) { OnlyPromotionActivates(s, op, id); }
  }

  // ----- what stands in the way for ever, or until the next source event

  lemma StepDeadLetters(s: State, op: Operation, id: nat)
    requires id in s.generations
    ensures id in Step(s, op).generations && Step(s, op).generations[id].deadLetters >= s.generations[id].deadLetters
  {
    hide Advanced, Apply, BatchNow, Record, Promotable, CheckpointExact, Reconciles, PriorMatches, SourceWatermark;
    var g := s.generations[id];
    if op.Deliver? && op.id == id {
      RecordMeans(s, g, op.sequence, RetryableFailure);
      if Apply(g.graph, op.sequence, BatchNow(s, op.sequence)).Some? {
        RecordMeans(s, g.(graph := Apply(g.graph, op.sequence, BatchNow(s, op.sequence)).value), op.sequence, Applied);
      }
    } else if !(op.BeginRebuild? && op.id == id) && !(op.ResolveGap? && op.id == id) {
      OthersLeave(s, op, id);
    }
  }

  /** A dead letter is for ever: no later recovery of its delivery lets the generation be activated. */
  lemma {:induction false} DeadLetterNeverActive(s: State, ops: seq<Operation>, id: nat)
    requires id in s.generations && s.generations[id].deadLetters > 0 && !IsActive(s, id)
    ensures id in Run(s, ops).generations && !IsActive(Run(s, ops), id)
    decreases |ops|
  {
    hide Step;
    if ops != [] {
      StepDeadLetters(s, ops[0], id);
      if IsActive(Step(s, ops[0]), id) { OnlyPromotionActivates(s, ops[0], id); }
      DeadLetterNeverActive(Step(s, ops[0]), ops[1..], id);
    }
  }

  /** The sequence was delivered or has to be. */
  predicate Expects(s: State, id: nat, q: nat)
    requires id in s.generations && 1 <= q <= |s.ledger|
  {
    q in s.generations[id].deliveries || (s.ledger[q - 1].Source? && s.ledger[q - 1].required)
  }

  /**
   * Resolving the last gap of a generation that is otherwise complete runs its checkpoint past the source
   * watermark, over the derived events: no validation succeeds before the next source event.
   */
  lemma ResolutionOvershoots(s: State, id: nat, q: nat, v: Operation)
    requires id in s.generations && Ordered(s.generations[id], |s.ledger|)
    requires Step(s, ResolveGap(id, q)) != s && s.generations[id].gaps == {q}
    requires forall x :: 1 <= x <= |s.ledger| && Expects(s, id, x) ==> Succeeded(s.generations[id], x)
    requires v.Validate? && v.id == id
    ensures var t := Step(s, ResolveGap(id, q));
            && id in t.generations && t.generations[id].gaps == {}
            && t.generations[id].checkpoint == |t.ledger| > SourceWatermark(t.ledger)
            && Step(t, v) == t
  {
    hide Advanced, Reconciles, SourceWatermark;
    var t := Step(s, ResolveGap(id, q));
    var g := s.generations[id].(gaps := s.generations[id].gaps - {q}, authority := s.generations[id].authority + 1);
    AdvancedIsFurthest(g, t.ledger, g.checkpoint, |t.ledger|);
    var r := Advanced(g, t.ledger, g.checkpoint, |t.ledger|);
    PassableMeans(g, t.ledger, r + 1);
    assert forall x :: Succeeded(g, x) <==> Succeeded(s.generations[id], x);
    WatermarkUnmoved(s.ledger);
  }

  // ----- phases

  /** The moves a generation's phase can make. */
  predicate Follows(from: Phase, next: Phase) {
    match next
    case Validating => from == Building
    case Active => from == Validating
    case Retired => from == Active
    case Failed => from in {Building, Validating, Active}
    case Building => false
  }

  lemma StepPhase(s: State, op: Operation, id: nat)
    requires id in s.generations
    ensures id in Step(s, op).generations
    ensures var g, g' := s.generations[id], Step(s, op).generations[id];
            && (g'.phase != g.phase ==> Follows(g.phase, g'.phase))
            && (g.phase in {Retired, Failed} ==> g' == g.(graph := g'.graph))
  {
    hide Advanced, Apply, BatchNow, Record, DeliverOnce, CheckpointExact, Reconciles, SourceWatermark;
    if op.Deliver? && op.id in s.generations {
      DeliverPhase(s, op.id, s.generations[op.id], op.sequence, op.write, op.commits);
    }
  }

  /** A retired or failed generation never changes again, its graph apart. */
  lemma {:induction false} TerminalStays(s: State, ops: seq<Operation>, id: nat)
    requires id in s.generations && s.generations[id].phase in {Retired, Failed}
    ensures id in Run(s, ops).generations
    ensures Run(s, ops).generations[id] == s.generations[id].(graph := Run(s, ops).generations[id].graph)
    decreases |ops|
  {
    hide Step;
    if ops != [] {
      StepPhase(s, ops[0], id);
      TerminalStays(Step(s, ops[0]), ops[1..], id);
    }
  }
}
