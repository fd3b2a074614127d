/**
 * The destructive rebuild of a building generation: it empties the graph and walks the ledger, and it
 * recovers from any graph content and any delivery table, including a crash between the graph write
 * and the commit of its delivery row.
 */
module ProjectionRebuild {
  import opened Common
  import R = ProjectionRecords
  import opened ProjectionModel
  import opened ProjectionContent
  import opened ProjectionProgress
  import opened ProjectionSafety

  datatype Counts = Counts(reapplied: nat, recorded: nat, blocked: nat)

  datatype Visited = Raised | Reapplied | Recorded | Blocked

  /** What the environment does at one sequence: whether a batch is built, the graph write and the commit. */
  datatype Conditions = Conditions(builds: bool, write: Write, commits: bool)

  /** The graph is the fold of the first `n` batches as they would be built now, and those deliveries have succeeded. */
  ghost predicate Rebuilt(s: State, g: Generation, n: nat) {
    Reconciles(s, g, n) && forall q :: 1 <= q <= n ==> Succeeded(g, q)
  }

  lemma NothingRebuilt(s: State, g: Generation)
    requires g.graph == EMPTY_GRAPH
    ensures Rebuilt(s, g, 0)
  {
    assert Expected(s, 0) == [];
  }

  /** The next batch never conflicts. */
  lemma RebuiltApplies(s: State, g: Generation, n: nat)
    requires Rebuilt(s, g, n) && n < |s.ledger|
    ensures Apply(g.graph, n + 1, BatchNow(s, n + 1)).Some?
  {
    hide Apply, BatchNow;
    assert Expected(s, n + 1)[..n] == Expected(s, n);
    ExpectedMarkers(s, n + 1);
  }

  lemma RebuiltNext(s: State, g: Generation, g': Generation, n: nat)
    requires Rebuilt(s, g, n) && Apply(g.graph, n + 1, BatchNow(s, n + 1)) == Some(g'.graph)
    requires Succeeded(g', n + 1) && SameElsewhere(g, g', n + 1)
    ensures Rebuilt(s, g', n + 1)
  {
    hide Apply, BatchNow;
    forall q | 1 <= q <= n ensures Succeeded(g', q) { assert Succeeded(g, q); }
    assert Expected(s, n + 1)[..n] == Expected(s, n);
  }

  /** Batches are built at different moments of a rebuild, but its own events change none of them. */
  lemma RebuiltStays(s: State, s': State, g: Generation, n: nat)
    requires Rebuilt(s, g, n) && s'.fixture == s.fixture && (s'.ledger == s.ledger || s'.ledger == s.ledger + [Derived])
    ensures Rebuilt(s', g, n)
  {
    if s'.ledger != s.ledger { DerivedChangesNothing(s, s'); }
    hide BatchOf, Fold;
    assert Expected(s', n) == Expected(s, n);
  }

  ghost predicate NoPromotion(ops: seq<Operation>) { forall i :: 0 <= i < |ops| ==> !ops[i].Promote? }

  lemma {:induction false} RunConcat(s: State, a: seq<Operation>, b: seq<Operation>)
    ensures Run(s, a + b) == Run(Run(s, a), b)
    decreases |a|
  {
    hide Step;
    if a == [] {
      assert a + b == b;
    } else {
      assert (a + b)[1..] == a[1..] + b;
      RunConcat(Step(s, a[0]), a[1..], b);
    }
  }

  lemma NoneConcat(a: seq<Operation>, b: seq<Operation>)
    requires NoPromotion(a) && NoPromotion(b)
    ensures NoPromotion(a + b)
  {
  }

  lemma OneStep(s: State, op: Operation)
    ensures Run(s, [op]) == Step(s, op)
  {
    hide Step;
    assert [op][1..] == [];
  }

  /** The delivery rows of all other sequences are as they were. */
  ghost predicate SameElsewhere(g: Generation, g': Generation, q: nat) {
    forall x :: x != q ==> (x in g.deliveries <==> x in g'.deliveries)
                           && (x in g.deliveries ==> g'.deliveries[x] == g.deliveries[x])
  }

  /** The delivery rows after a sequence are as they were. */
  ghost predicate SameAbove(g: Generation, g': Generation, n: nat) {
    forall x :: x > n ==> (x in g.deliveries <==> x in g'.deliveries)
                          && (x in g.deliveries ==> g'.deliveries[x] == g.deliveries[x])
  }

  /** The graph write succeeds, and the delivery has not used up its attempts. */
  predicate CannotFail(g: Generation, q: nat, w: Conditions) { w.write.Written? && !FailedForGood(g, q) }

  /** Every graph write of the walk succeeds, and no delivery of it had used up its attempts before. */
  ghost predicate NothingFails(g: Generation, conditions: seq<Conditions>) {
    forall i :: 0 <= i < |conditions| ==> CannotFail(g, i + 1, conditions[i])
  }

  lemma RebuiltIsCurrent(s: State, g: Generation, through: nat)
    requires Rebuilt(s, g, through) && through == SourceWatermark(s.ledger)
    ensures g.graph.records == CurrentRecords(s)
  {
    ReconciledIsCurrent(s, g);
  }

  /** How many of the sequences 1..n have an applied, final delivery. */
  function SucceededUpTo(g: Generation, n: nat): nat {
    if n == 0 then 0 else SucceededUpTo(g, n - 1) + (if Succeeded(g, n) then 1 else 0)
  }

  lemma {:induction false} SucceededSame(g: Generation, g': Generation, q: nat, n: nat)
    requires SameElsewhere(g, g', q) && n < q
    ensures SucceededUpTo(g', n) == SucceededUpTo(g, n)
    decreases n
  {
    if n > 0 { SucceededSame(g, g', q, n - 1); }
  }

  // ----- what each call returns

  /** The write succeeds and the batch does not conflict with the graph. */
  predicate Lands(s: State, g: Generation, q: nat, w: Conditions) {
    w.write.Written? && Apply(g.graph, q, BatchNow(s, q)).Some?
  }

  /** The delivery table takes a row. */
  predicate Recordable(s: State, g: Generation, q: nat, outcome: Outcome) {
    && 1 <= q <= |s.ledger| && g.phase in {Building, Validating, Active}
    && !Succeeded(g, q) && (FailedForGood(g, q) ==> outcome == Applied) && q - g.checkpoint - 1 <= s.policy.maxGapSpan
  }

  /** What delivering one sequence returns; nothing when it raises. */
  ghost function OutcomeOf(s: State, g: Generation, q: nat, w: Conditions): Option<Outcome> {
    if !w.builds then None
    else if Lands(s, g, q, w) then if w.commits && Recordable(s, g, q, Applied) then Some(Applied) else None
    else if Recordable(s, g, q, RetryableFailure) then Some(RetryableFailure)
    else None
  }

  /** What visiting one sequence comes to. */
  ghost function VisitOf(s: State, g: Generation, q: nat, w: Conditions): Visited {
    if FailedForGood(g, q) then Blocked
    else if Succeeded(g, q) then if w.builds && Lands(s, g, q, w) then Reapplied else Raised
    else
      match OutcomeOf(s, g, q, w)
      case None => Raised
      case Some(Applied) => Recorded
      case Some(RetryableFailure) => Blocked
  }

  /** A rebuild can start: a building generation, at the source watermark, not behind its checkpoint. */
  predicate Starts(s: State, id: nat, through: nat) {
    && id in s.generations && s.generations[id].phase == Building
    && SourceWatermark(s.ledger) == through >= s.generations[id].checkpoint
  }

  lemma BeginIs(s: State, id: nat, through: nat, cleans: bool)
    requires Starts(s, id, through)
    ensures var g := s.generations[id].(authority := s.generations[id].authority + 1,
                                        graph := if cleans then EMPTY_GRAPH else s.generations[id].graph);
            Step(s, BeginRebuild(id, through, cleans)) ==
            Committed(s, id, g.(checkpoint := Advanced(g, s.ledger + [Derived], g.checkpoint, through)))
  {
    hide Advanced, SourceWatermark;
  }

  /** Nothing raises: batches are built and written, and what was not applied yet is recorded within the gap span. */
  ghost predicate Favourable(s: State, g: Generation, conditions: seq<Conditions>) {
    forall i :: 0 <= i < |conditions| ==> CannotRaise(s, g, i + 1, conditions[i])
  }

  predicate CannotRaise(s: State, g: Generation, q: nat, w: Conditions) {
    && CannotFail(g, q, w) && w.builds
    && (!Succeeded(g, q) ==> w.commits && q - g.checkpoint - 1 <= s.policy.maxGapSpan)
  }

  lemma FavourableFailsNothing(s: State, g: Generation, conditions: seq<Conditions>)
    requires Favourable(s, g, conditions)
    ensures NothingFails(g, conditions)
  {
    forall i | 0 <= i < |conditions| ensures CannotFail(g, i + 1, conditions[i]) {
      assert CannotRaise(s, g, i + 1, conditions[i]);
    }
  }

  /** In a favourable walk, the visit after a rebuilt prefix does not raise. */
  lemma FavourableVisits(s0: State, g0: Generation, s: State, g: Generation, k: nat, conditions: seq<Conditions>)
    requires Favourable(s0, g0, conditions) && k < |conditions| && k < |s.ledger| && s.policy == s0.policy
    requires SameAbove(g0, g, k) && g.checkpoint >= g0.checkpoint && g.phase.Building? && Rebuilt(s, g, k)
    ensures !VisitOf(s, g, k + 1, conditions[k]).Raised?
  {
    hide Rebuilt, Apply, BatchNow;
    assert CannotRaise(s0, g0, k + 1, conditions[k]);
    RebuiltApplies(s, g, k);
  }

  lemma WalkStarts(g0: Generation, g: Generation)
    requires g.deliveries == g0.deliveries
    ensures SameAbove(g0, g, 0) && SucceededUpTo(g0, 0) == SucceededUpTo(g, 0) == 0
  {
  }

  /** What one visit adds to the three counts' bookkeeping. */
  lemma WalkNext(g0: Generation, g: Generation, g': Generation, k: nat)
    requires SameAbove(g0, g, k) && SameElsewhere(g, g', k + 1)
    ensures SameAbove(g0, g', k + 1)
    ensures SucceededUpTo(g', k + 1) == SucceededUpTo(g, k) + (if Succeeded(g', k + 1) then 1 else 0)
    ensures SucceededUpTo(g0, k + 1) == SucceededUpTo(g0, k) + (if Succeeded(g, k + 1) then 1 else 0)
  {
    SucceededSame(g, g', k + 1, k);
    assert k + 1 in g0.deliveries <==> k + 1 in g.deliveries;
  }

  lemma NothingFailsAt(g0: Generation, g: Generation, k: nat, conditions: seq<Conditions>)
    requires NothingFails(g0, conditions) && k < |conditions| && SameAbove(g0, g, k)
    ensures !FailedForGood(g, k + 1) && conditions[k].write.Written?
  {
    assert CannotFail(g0, k + 1, conditions[k]);
  }

  class Boundary {
    const policy: Policy
    const fixture: R.Fixture
    var ledger: seq<Event>
    var generations: map<nat, Generation>

    function View(): State
      reads this
    {
      State(policy, fixture, ledger, generations)
    }

    constructor (p: Policy, f: R.Fixture)
      ensures policy == p && fixture == f && ledger == [] && generations == map[] && Inv(View())
    {
      policy, fixture := p, f;
      ledger, generations := [], map[];
    }

    method Commit(id: nat, g: Generation)
      modifies this`ledger, this`generations
      ensures View() == Committed(old(View()), id, g)
    {
      generations := generations[id := g];
      ledger := ledger + [Derived];
    }

    /** Builds one batch, applies it and records it; no outcome means the call raised. */
    method DeliverLocked(id: nat, q: nat, w: Conditions) returns (outcome: Option<Outcome>)
      requires id in generations && 1 <= q <= |ledger|
      modifies this`ledger, this`generations
      ensures !w.builds ==> outcome.None? && View() == old(View())
      ensures w.builds ==> View() == DeliverOnce(old(View()), id, old(generations[id]), q, w.write, w.commits)
      ensures outcome == OutcomeOf(old(View()), old(generations[id]), q, w)
      ensures id in generations && (ledger == old(ledger) || ledger == old(ledger) + [Derived])
      ensures outcome == Some(Applied) ==>
                && Succeeded(generations[id], q)
                && Apply(old(generations[id]).graph, q, BatchNow(old(View()), q)) == Some(generations[id].graph)
      ensures outcome.Some? ==> SameElsewhere(old(generations[id]), generations[id], q)
      ensures outcome == Some(RetryableFailure) ==>
                && generations[id].graph == old(generations[id]).graph && !Succeeded(generations[id], q)
                && (w.write.WriteFailed? || Apply(old(generations[id]).graph, q, BatchNow(old(View()), q)).None?)
    {
      hide BatchNow, Apply, Advanced;
      if !w.builds { return None; }
      var g := generations[id];
      var batch := BatchNow(View(), q);
      var graph := if w.write.Written? then Apply(g.graph, q, batch) else None;
      if graph.None? {
        var failure := Record(View(), g, q, RetryableFailure);
        RecordMeans(View(), g, q, RetryableFailure);
        if failure.None? { return None; }
        Commit(id, failure.value);
        return Some(RetryableFailure);
      }
      var applied := g.(graph := graph.value);
      var row := Record(View(), applied, q, Applied);
      RecordMeans(View(), applied, q, Applied);
      if !w.commits || row.None? {
        generations := generations[id := applied];
        return None;
      }
      Commit(id, row.value);
      outcome := Some(Applied);
    }

    /** Applies again the batch of a delivery that is already recorded; a graph failure is raised. */
    method ReapplyOne(id: nat, q: nat, w: Conditions) returns (ok: bool)
      requires id in generations && 1 <= q <= |ledger|
      modifies this`generations
      ensures id in generations && generations[id] == old(generations[id]).(graph := generations[id].graph)
      ensures View() == Step(old(View()), Reapply(id, q, w.builds, w.write))
      ensures ok <==> w.builds && Lands(old(View()), old(generations[id]), q, w)
      ensures ok ==> Apply(old(generations[id]).graph, q, BatchNow(old(View()), q)) == Some(generations[id].graph)
    {
      hide BatchNow, Apply;
      if !w.builds || w.write.WriteFailed? { return false; }
      var g := generations[id];
      var graph := Apply(g.graph, q, BatchNow(View(), q));
      if graph.None? { return false; }
      generations := generations[id := g.(graph := graph.value)];
      ok := true;
    }

    /** One sequence of the walk: applied deliveries again, failed ones not at all, the rest delivered. */
    method Visit(id: nat, q: nat, w: Conditions) returns (visit: Visited, ghost ops: seq<Operation>)
      requires id in generations && generations[id].phase.Building? && 1 <= q <= |ledger|
      modifies this`ledger, this`generations
      ensures id in generations && generations[id].phase.Building? && |ledger| >= |old(ledger)|
      ensures SourceWatermark(ledger) == SourceWatermark(old(ledger))
      ensures visit == VisitOf(old(View()), old(generations[id]), q, w)
      ensures generations[id].checkpoint >= old(generations[id]).checkpoint
      ensures View() == Run(old(View()), ops) && NoPromotion(ops)
      ensures (visit.Reapplied? || visit.Recorded?) && Rebuilt(old(View()), old(generations[id]), q - 1) ==>
                Rebuilt(View(), generations[id], q)
      ensures visit.Blocked? && Rebuilt(old(View()), old(generations[id]), q - 1) ==>
                w.write.WriteFailed? || FailedForGood(old(generations[id]), q)
      ensures !visit.Raised? ==>
                && SameElsewhere(old(generations[id]), generations[id], q)
                && (visit.Reapplied? <==> Succeeded(old(generations[id]), q))
                && (visit.Blocked? <==> !Succeeded(generations[id], q))
    {
      hide SourceWatermark, Rebuilt, Apply, Record, DeliverOnce, BatchNow;
      ghost var s, before := View(), generations[id];
      ops := [];
      if q in generations[id].deliveries && generations[id].deliveries[q].finalized {
        if generations[id].deliveries[q].outcome.RetryableFailure? { return Blocked, ops; }
        var ok := ReapplyOne(id, q, w);
        ops := [Reapply(id, q, w.builds, w.write)];
        OneStep(s, ops[0]);
        WatermarkKept(s, ops[0]);
        if !ok { return Raised, ops; }
        visit := Reapplied;
      } else {
        var outcome := DeliverLocked(id, q, w);
        if w.builds {
          ops := [Deliver(id, before.authority, q, w.builds, w.write, w.commits)];
          OneStep(s, ops[0]);
          WatermarkKept(s, ops[0]);
          DeliverPhase(s, id, before, q, w.write, w.commits);
          DeliverAdvances(s, id, before, q, w.write, w.commits);
        }
        if outcome.None? { return Raised, ops; }
        if outcome.value.RetryableFailure? {
          if Rebuilt(s, before, q - 1) { RebuiltApplies(s, before, q - 1); }
          return Blocked, ops;
        }
        visit := Recorded;
      }
      if Rebuilt(s, before, q - 1) {
        RebuiltNext(s, before, generations[id], q - 1);
        RebuiltStays(s, View(), generations[id], q);
      }
    }

    /** Commits the start of a rebuild at the exact source watermark and, unless that fails, empties the graph. */
    method Begin(id: nat, through: nat, cleans: bool) returns (begun: bool, ghost ops: seq<Operation>)
      modifies this`ledger, this`generations
      ensures View() == Run(old(View()), ops) && NoPromotion(ops)
      ensures SourceWatermark(ledger) == SourceWatermark(old(ledger))
      ensures begun <==> Starts(old(View()), id, through) && cleans
      ensures begun ==>
                && id in old(generations) && id in generations
                && generations[id].checkpoint >= old(generations[id]).checkpoint
                && generations[id].deliveries == old(generations[id].deliveries)
                && generations[id].phase.Building? && SourceWatermark(ledger) == through
                && Rebuilt(View(), generations[id], 0)
    {
      if SourceWatermark(ledger) != through || id !in generations || !generations[id].phase.Building?
         || through < generations[id].checkpoint
      {
        return false, [];
      }
      assert Starts(View(), id, through);
      BeginIs(View(), id, through, cleans);
      hide Advanced, SourceWatermark, Run, Step, Rebuilt, Starts;
      ops := [BeginRebuild(id, through, cleans)];
      OneStep(View(), ops[0]);
      WatermarkKept(View(), ops[0]);
      var g := generations[id].(authority := generations[id].authority + 1,
                                graph := if cleans then EMPTY_GRAPH else generations[id].graph);
      AdvancedIsFurthest(g, ledger + [Derived], g.checkpoint, through);
      Commit(id, g.(checkpoint := Advanced(g, ledger + [Derived], g.checkpoint, through)));
      if cleans { NothingRebuilt(View(), generations[id]); }
      begun := cleans;
    }

    /** The rebuild; no result means that some step raised. */
    method Rebuild(id: nat, through: nat, cleans: bool, conditions: seq<Conditions>)
      returns (r: Option<Counts>, ghost ops: seq<Operation>)
      requires |conditions| == through
      modifies this`ledger, this`generations
      ensures View() == Run(old(View()), ops) && NoPromotion(ops)
      ensures SourceWatermark(ledger) == SourceWatermark(old(ledger))
      ensures r.Some? ==>
                && id in old(generations) && id in generations && SourceWatermark(ledger) == through
                && r.value.reapplied + r.value.recorded + r.value.blocked == through
                && r.value.reapplied == SucceededUpTo(old(generations[id]), through)
                && r.value.blocked == through - SucceededUpTo(generations[id], through)
                && (r.value.blocked == 0 ==>
                      Rebuilt(View(), generations[id], through) && generations[id].graph.records == CurrentRecords(View()))
                && (NothingFails(old(generations[id]), conditions) ==> r.value.blocked == 0)
      ensures r.Some? ==> Starts(old(View()), id, through) && cleans
      ensures Starts(old(View()), id, through) && cleans
              && Favourable(old(View()), old(generations[id]), conditions) ==>
                r.Some? && r.value.blocked == 0
    {
      hide SourceWatermark, Rebuilt, Step, Run, NoPromotion, CurrentRecords, Starts, Favourable, NothingFails, VisitOf,
           SucceededUpTo, SameAbove, SameElsewhere, Succeeded, FailedForGood;
      var begun, first := Begin(id, through, cleans);
      ops := first;
      if !begun { return None, ops; }
      WalkStarts(old(generations[id]), generations[id]);
      if Favourable(old(View()), old(generations[id]), conditions) {
        FavourableFailsNothing(old(View()), old(generations[id]), conditions);
      }
      var counts := Counts(0, 0, 0);
      for k := 0 to through
        invariant View() == Run(old(View()), ops) && NoPromotion(ops)
        invariant id in generations && generations[id].phase.Building? && through <= |ledger|
        invariant counts.reapplied + counts.recorded + counts.blocked == k
        invariant id in old(generations) && counts.reapplied == SucceededUpTo(old(generations[id]), k)
        invariant counts.blocked == k - SucceededUpTo(generations[id], k)
        invariant SameAbove(old(generations[id]), generations[id], k)
        invariant SourceWatermark(ledger) == SourceWatermark(old(ledger)) == through
        invariant counts.blocked == 0 ==> Rebuilt(View(), generations[id], k)
        invariant NothingFails(old(generations[id]), conditions) ==> counts.blocked == 0
        invariant generations[id].checkpoint >= old(generations[id]).checkpoint
      {
        hide SourceWatermark, Rebuilt, Step, Run, NoPromotion, CurrentRecords, Starts, Favourable, NothingFails, VisitOf,
             SucceededUpTo, SameAbove, SameElsewhere, Succeeded, FailedForGood;
        ghost var before := generations[id];
        if NothingFails(old(generations[id]), conditions) {
          NothingFailsAt(old(generations[id]), before, k, conditions);
        }
        if Favourable(old(View()), old(generations[id]), conditions) {
          FavourableVisits(old(View()), old(generations[id]), View(), before, k, conditions);
        }
        var visit, more := Visit(id, k + 1, conditions[k]);
        if !visit.Raised? { WalkNext(old(generations[id]), before, generations[id], k); }
        RunConcat(old(View()), ops, more);
        NoneConcat(ops, more);
        ops := ops + more;
        match visit
        case Raised => return None, ops;
        case Reapplied => counts := counts.(reapplied := counts.reapplied + 1);
        case Recorded => counts := counts.(recorded := counts.recorded + 1);
        case Blocked => counts := counts.(blocked := counts.blocked + 1);
      }
      r := Some(counts);
      if counts.blocked == 0 { RebuiltIsCurrent(View(), generations[id], through); }
    }

    // ----- validation and promotion

    /** Every delivery up to the checkpoint is recorded, final and applied. */
    method AllApplied(g: Generation, checkpoint: nat) returns (ok: bool)
      ensures ok <==> forall q :: 1 <= q <= checkpoint ==> Succeeded(g, q)
    {
      for q := 1 to checkpoint + 1
        invariant forall x :: 1 <= x < q ==> Succeeded(g, x)
      {
        if !Succeeded(g, q) { return false; }
      }
      ok := true;
    }

    /** Reads the graph back and compares it with the batches applied in order to an empty graph. */
    method Reconcile(g: Generation, batches: seq<Batch>) returns (ok: bool)
      ensures ok <==> Fold(batches) == Some(g.graph)
    {
      var expected := EMPTY_GRAPH;
      for k := 0 to |batches|
        invariant Fold(batches[..k]) == Some(expected)
      {
        assert batches[..k + 1][..k] == batches[..k];
        var next := Apply(expected, k + 1, batches[k]);
        if next.None? {
          FoldFails(batches, k + 1);
          return false;
        }
        expected := next.value;
      }
      assert batches[..|batches|] == batches;
      ok := expected == g.graph;
    }

    method Exact(g: Generation, checkpoint: nat) returns (ok: bool)
      ensures ok <==> CheckpointExact(View(), g, checkpoint) && Reconciles(View(), g, checkpoint)
    {
      if SourceWatermark(ledger) != checkpoint || g.checkpoint != checkpoint || g.gaps != {} || g.deadLetters != 0 {
        return false;
      }
      ok := AllApplied(g, checkpoint);
      if ok { ok := Reconcile(g, Expected(View(), checkpoint)); }
    }

    method ValidateGeneration(id: nat, expected: nat, checkpoint: nat, builds: bool, qualified: bool)
      modifies this`ledger, this`generations
      ensures View() == Step(old(View()), Validate(id, expected, checkpoint, builds, qualified))
      ensures View() != old(View()) ==>
                id in generations && generations[id].graph.records == CurrentRecords(View())
    {
      if id !in generations || Terminal(generations[id].phase) { return; }
      var g := generations[id];
      hide CheckpointExact, Reconciles, CurrentRecords;
      var exact := Exact(g, checkpoint);
      if !exact || !builds || !qualified || g.authority != expected { return; }
      ExactIsCurrent(View(), g, checkpoint);
      StepCurrent(View(), Validate(id, expected, checkpoint, builds, qualified));
      Commit(id, g.(
        phase := if g.phase.Active? then Active else Validating, lifecycle := g.lifecycle + 1,
        authority := g.authority + 1, validatedThrough := Some(checkpoint),
        validations := g.validations + [Validation(checkpoint, g.lifecycle + 1, g.authority + 1, g.graph)]));
    }

    method PromoteGeneration(id: nat, checkpoint: nat, builds: bool, compatible: bool, prior: Option<nat>)
      modifies this`ledger, this`generations
      ensures View() == Step(old(View()), Promote(id, checkpoint, builds, compatible, prior))
      ensures IsActive(View(), id) ==>
                IsActive(old(View()), id) || (ActivationEvidence(old(View()), id)
                                              && generations[id].graph.records == CurrentRecords(View()))
    {
      hide Advanced, Record, DeliverOnce, BatchNow, CurrentRecords, MarkersFresh;
      if id !in generations { return; }
      var g := generations[id];
      if !g.phase.Validating? || !builds || !compatible || g.validations == [] { return; }
      var v := g.validations[|g.validations| - 1];
      var exact := Exact(g, checkpoint);
      if !exact || v.graph != g.graph || !Current(g, v, checkpoint) || !PriorMatches(View(), g.family, prior) { return; }
      PromotableIsCurrent(View(), g, checkpoint);
      StepCurrent(View(), Promote(id, checkpoint, builds, compatible, prior));
      hide Reconciles, Fold, SourceWatermark;
      if prior.Some? {
        var p := generations[prior.value];
        Commit(prior.value, p.(phase := Retired, lifecycle := p.lifecycle + 1, authority := p.authority + 1));
      }
      Commit(id, g.(phase := Active, lifecycle := g.lifecycle + 1, authority := g.authority + 1,
                    validatedThrough := Some(checkpoint)));
    }
  }

  lemma ExactIsCurrent(s: State, g: Generation, checkpoint: nat)
    requires CheckpointExact(s, g, checkpoint) && Reconciles(s, g, checkpoint)
    ensures g.graph.records == CurrentRecords(s)
  {
    ReconciledIsCurrent(s, g);
  }

  lemma {:induction false} FoldFails(batches: seq<Batch>, n: nat)
    requires n <= |batches| && Fold(batches[..n]).None?
    ensures Fold(batches).None?
    decreases |batches| - n
  {
    if n == |batches| {
      assert batches[..n] == batches;
    } else {
      assert batches[..n + 1][..n] == batches[..n];
      FoldFails(batches, n + 1);
    }
  }
}
