/**
 * When each operation of the projection facade goes through, and what it then changes: everything else
 * in the store stays as it was.
 */
module ProjectionOperations {
  import opened Common
  import opened ProjectionModel
  import opened ProjectionSafety
  import opened ProjectionProgress

  /** The store with one more derived event and one generation replaced. */
  function With(s: State, id: nat, g: Generation): State {
    State(s.policy, s.fixture, s.ledger + [Derived], s.generations[id := g])
  }

  predicate Open(s: State, id: nat) {
    id in s.generations && s.generations[id].phase in {Building, Validating, Active}
  }

  lemma CreateMeans(s: State, id: nat, family: nat)
    ensures var t := Step(s, Create(id, family));
            if id in s.generations then t == s
            else t == With(s, id, t.generations[id]) && New(t.generations[id]) && t.generations[id].family == family
  {
  }

  /** A generation is failed from any open phase, and retired only from ACTIVE; both count in its versions. */
  lemma TransitionMeans(s: State, id: nat, target: Phase)
    ensures var t := Step(s, Transition(id, target));
            if Open(s, id) && (target == Failed || (target == Retired && s.generations[id].phase == Active))
            then var g := s.generations[id];
                 t == With(s, id, g.(phase := target, lifecycle := g.lifecycle + 1, authority := g.authority + 1))
            else t == s
  {
  }

  /** A delivery against another authority version, or whose batch cannot be built, changes nothing. */
  lemma DeliverMeans(s: State, op: Operation)
    requires op.Deliver?
    requires !Open(s, op.id) || s.generations[op.id].authority != op.expected || !op.builds
             || op.sequence == 0 || op.sequence > |s.ledger|
    ensures Step(s, op) == s
  {
    hide DeliverOnce;
  }

  /** A gap is resolved exactly when it is open and its delivery was applied; the checkpoint then moves on. */
  lemma ResolveGapMeans(s: State, id: nat, q: nat)
    ensures var t := Step(s, ResolveGap(id, q));
            if Open(s, id) && q in s.generations[id].gaps && q in s.generations[id].deliveries
               && s.generations[id].deliveries[q].outcome == Applied && s.generations[id].deliveries[q].finalized
            then var g := s.generations[id];
                 && id in t.generations && t.generations[id].checkpoint >= g.checkpoint
                 && t == With(s, id, g.(gaps := g.gaps - {q}, authority := g.authority + 1,
                                        checkpoint := t.generations[id].checkpoint))
            else t == s
  {
    hide Advanced;
    if id in s.generations {
      var g := s.generations[id].(gaps := s.generations[id].gaps - {q}, authority := s.generations[id].authority + 1);
      AdvancedIsFurthest(g, s.ledger + [Derived], g.checkpoint, |s.ledger| + 1);
    }
  }

  /** A rebuild starts exactly from BUILDING at the source watermark, not behind the checkpoint. */
  lemma BeginRebuildMeans(s: State, id: nat, through: nat, cleans: bool)
    ensures var t := Step(s, BeginRebuild(id, through, cleans));
            if id in s.generations && s.generations[id].phase == Building
               && s.generations[id].checkpoint <= through == SourceWatermark(s.ledger)
            then var g := s.generations[id];
                 && id in t.generations && g.checkpoint <= t.generations[id].checkpoint <= through
                 && t == With(s, id, g.(graph := if cleans then EMPTY_GRAPH else g.graph, authority := g.authority + 1,
                                        checkpoint := t.generations[id].checkpoint))
            else t == s
  {
    hide Advanced, SourceWatermark;
    if id in s.generations && s.generations[id].checkpoint <= through {
      var g := s.generations[id].(authority := s.generations[id].authority + 1,
                                  graph := if cleans then EMPTY_GRAPH else s.generations[id].graph);
      AdvancedIsFurthest(g, s.ledger + [Derived], g.checkpoint, through);
    }
  }

  /** What both validation and promotion verify: complete up to the source watermark, and the graph a rebuild gives. */
  predicate Complete(s: State, g: Generation, checkpoint: nat) {
    && checkpoint == SourceWatermark(s.ledger) == g.checkpoint && g.gaps == {} && g.deadLetters == 0
    && (forall q :: 1 <= q <= checkpoint ==>
          q in g.deliveries && g.deliveries[q].outcome == Applied && g.deliveries[q].finalized)
    && Fold(Expected(s, checkpoint)) == Some(g.graph)
  }

  lemma CompleteMeans(s: State, g: Generation, checkpoint: nat)
    ensures Complete(s, g, checkpoint) <==> CheckpointExact(s, g, checkpoint) && Reconciles(s, g, checkpoint)
  {
    assert forall q :: Succeeded(g, q) <==>
             q in g.deliveries && g.deliveries[q].outcome == Applied && g.deliveries[q].finalized;
  }

  /** A validation goes through exactly on a complete open generation at its authority version, and retains its graph. */
  lemma ValidateMeans(s: State, id: nat, expected: nat, checkpoint: nat, builds: bool, qualified: bool)
    ensures var t := Step(s, Validate(id, expected, checkpoint, builds, qualified));
            if builds && qualified && Open(s, id) && s.generations[id].authority == expected
               && Complete(s, s.generations[id], checkpoint)
            then var g := s.generations[id];
                 t == With(s, id, Generation(
                                    g.family, if g.phase == Active then Active else Validating, g.lifecycle + 1,
                                    g.authority + 1, Some(checkpoint), g.checkpoint, g.gaps, g.deadLetters,
                                    g.deliveries, g.graph,
                                    g.validations + [Validation(checkpoint, g.lifecycle + 1, g.authority + 1, g.graph)]))
            else t == s
  {
    if id in s.generations { CompleteMeans(s, s.generations[id], checkpoint); }
    hide CheckpointExact, Reconciles, Complete;
  }

  /** The caller names the family's active generation, or says there is none. */
  predicate NamesActive(s: State, family: nat, prior: Option<nat>) {
    && (forall id :: id in s.generations && s.generations[id].phase == Active && s.generations[id].family == family ==>
          prior == Some(id))
    && (prior.Some? ==> prior.value in s.generations && s.generations[prior.value].phase == Active
                        && s.generations[prior.value].family == family)
  }

  /** The latest validation is of this very generation: its versions, its checkpoint and its graph. */
  predicate ValidatedAsIs(g: Generation) {
    && g.phase == Validating && g.validatedThrough == Some(g.checkpoint) && g.validations != []
    && g.validations[|g.validations| - 1] == Validation(g.checkpoint, g.lifecycle, g.authority, g.graph)
  }

  /**
   * A promotion goes through exactly on a generation that is complete, validated as it is, and whose family's
   * active generation is named. It activates the one and retires the other, in that order of events.
   */
  lemma PromoteMeans(s: State, id: nat, checkpoint: nat, builds: bool, compatible: bool, prior: Option<nat>)
    ensures var t := Step(s, Promote(id, checkpoint, builds, compatible, prior));
            if builds && compatible && id in s.generations && ValidatedAsIs(s.generations[id])
               && Complete(s, s.generations[id], checkpoint) && NamesActive(s, s.generations[id].family, prior)
            then
              var g := s.generations[id];
              var active := g.(phase := Active, lifecycle := g.lifecycle + 1, authority := g.authority + 1);
              if prior.None? then t == With(s, id, active)
              else
                var p := s.generations[prior.value];
                var retired := p.(phase := Retired, lifecycle := p.lifecycle + 1, authority := p.authority + 1);
                prior.value != id && t == With(With(s, prior.value, retired), id, active)
            else t == s
  {
    if id in s.generations {
      var g := s.generations[id];
      CompleteMeans(s, g, checkpoint);
      assert PriorMatches(s, g.family, prior) <==> NamesActive(s, g.family, prior);
      hide CheckpointExact, Reconciles, Complete, PriorMatches, NamesActive;
      CompleteAt(s, g, checkpoint);
      PriorOther(s, id, prior);
    }
  }

  lemma CompleteAt(s: State, g: Generation, checkpoint: nat)
    ensures CheckpointExact(s, g, checkpoint) ==> g.checkpoint == checkpoint
  {
  }

  lemma PriorOther(s: State, id: nat, prior: Option<nat>)
    requires id in s.generations
    ensures prior.Some? && PriorMatches(s, s.generations[id].family, prior) ==>
              prior.value in s.generations && s.generations[prior.value].phase == Active
  {
  }
}
