/**
 * First-seen bookkeeping for content revisions: an incremental backfill behind a watermark, next to
 * direct retention while observing, compared with one simple minimum over the whole history.
 */
module FirstSeen {
  import opened Common

  /** One parsed item: the revision it carries and the (published, updated) markers it was pulled with. */
  datatype Item = Item(revision: nat, markers: nat)

  /** `succeeded` is what the query filters on; `assessed` is the content assessment made while parsing. */
  datatype Observation = Observation(fetchedAt: nat, succeeded: bool, assessed: bool, items: seq<Item>)

  /** What has a first-seen time: a revision, or a revision pulled with particular markers. */
  datatype Slot = Revision(revision: nat) | Pull(item: Item)

  datatype State = State(
    observations: seq<Observation>, revisions: map<nat, nat>, pulls: map<Item, nat>, watermark: Option<nat>)

  function SlotsOf(i: Item): set<Slot> { {Revision(i.revision), Pull(i)} }

  predicate Met(items: seq<Item>, slot: Slot) { exists i :: 0 <= i < |items| && slot in SlotsOf(items[i]) }

  /** A usable observation holds an item of the slot. */
  predicate Carries(o: Observation, slot: Slot) { o.succeeded && o.assessed && Met(o.items, slot) }

  lemma MetAppend(items: seq<Item>, i: Item, slot: Slot)
    ensures Met(items + [i], slot) <==> Met(items, slot) || slot in SlotsOf(i)
  {
    assert (items + [i])[|items|] == i;
    assert forall j :: 0 <= j < |items| ==> (items + [i])[j] == items[j];
  }

  /** The time recorded for a slot in a pair of tables or dictionaries. */
  function Seen(revisions: map<nat, nat>, pulls: map<Item, nat>, slot: Slot): Option<nat> {
    match slot
    case Revision(k) => if k in revisions then Some(revisions[k]) else None
    case Pull(i) => if i in pulls then Some(pulls[i]) else None
  }

  function Stored(s: State, slot: Slot): Option<nat> { Seen(s.revisions, s.pulls, slot) }

  predicate After(t: nat, watermark: Option<nat>) { watermark.None? || t > watermark.value }

  function Earlier(a: Option<nat>, b: Option<nat>): Option<nat> {
    if a.None? then b else if b.None? then a else if b.value < a.value then b else a
  }

  /** The least time among the observations after a watermark that carry the slot. */
  function Earliest(os: seq<Observation>, watermark: Option<nat>, slot: Slot): Option<nat> {
    if os == [] then None
    else
      var last := os[|os| - 1];
      Earlier(Earliest(os[..|os| - 1], watermark, slot),
              if After(last.fetchedAt, watermark) && Carries(last, slot) then Some(last.fetchedAt) else None)
  }

  /** The least time of any usable observation: what the history alone says. */
  function FirstObserved(s: State, slot: Slot): Option<nat> { Earliest(s.observations, None, slot) }

  lemma {:induction false} EarliestIsMinimum(os: seq<Observation>, watermark: Option<nat>, slot: Slot)
    ensures var r := Earliest(os, watermark, slot);
            && (r.None? ==> forall o :: o in os && After(o.fetchedAt, watermark) ==> !Carries(o, slot))
            && (r.Some? ==>
                  && (exists o :: o in os && After(o.fetchedAt, watermark) && Carries(o, slot) && o.fetchedAt == r.value)
                  && forall o :: o in os && After(o.fetchedAt, watermark) && Carries(o, slot) ==> r.value <= o.fetchedAt)
  {
    if os != [] {
      var front, last := os[..|os| - 1], os[|os| - 1];
      EarliestIsMinimum(front, watermark, slot);
      assert forall o :: o in os <==> o in front || o == last;
    }
  }

  // ----- the operations as functions on the tables

  function Latest(os: seq<Observation>): Option<nat> {
    if os == [] then None
    else
      var front, last := Latest(os[..|os| - 1]), os[|os| - 1];
      if last.succeeded && (front.None? || front.value < last.fetchedAt) then Some(last.fetchedAt) else front
  }

  /** An empty pull ledger makes the backfill read the whole history again. */
  function EffectiveWatermark(s: State): Option<nat> { if s.pulls == map[] then None else s.watermark }

  predicate NothingNew(s: State) {
    var latest, watermark := Latest(s.observations), EffectiveWatermark(s);
    latest.None? || (watermark.Some? && latest.value <= watermark.value)
  }

  ghost function Missing(s: State, slot: Slot): Option<nat> {
    if Stored(s, slot).Some? then None else Earliest(s.observations, EffectiveWatermark(s), slot)
  }

  /** The tables after a backfill: every missing slot gets its earliest unprocessed time. */
  ghost predicate Filled(s: State, s': State) {
    && s'.observations == s.observations
    && forall slot :: Stored(s', slot) == if Stored(s, slot).Some? then Stored(s, slot) else Missing(s, slot)
  }

  /**
   * One backfill call. Only when nothing was written may the watermark stay behind, because the write
   * lock was not available for it.
   */
  ghost predicate Backfill(s: State, s': State) {
    if NothingNew(s) then s' == s
    else
      && Filled(s, s')
      && (s'.watermark == Latest(s.observations)
          || (s'.watermark == s.watermark && s'.revisions == s.revisions && s'.pulls == s.pulls))
  }

  /** `INSERT OR IGNORE` of one row. */
  function RetainSlot(s: State, slot: Slot, t: nat): State {
    match slot
    case Revision(k) => if k in s.revisions then s else s.(revisions := s.revisions[k := t])
    case Pull(i) => if i in s.pulls then s else s.(pulls := s.pulls[i := t])
  }

  /** Both rows of an item, as retained with its observation. */
  function Retain(s: State, i: Item, t: nat): State {
    RetainSlot(RetainSlot(s, Revision(i.revision), t), Pull(i), t)
  }

  function Observe(s: State, o: Observation): State { s.(observations := s.observations + [o]) }

  function RetainAll(s: State, items: seq<Item>, t: nat): State {
    if items == [] then s else Retain(RetainAll(s, items[..|items| - 1], t), items[|items| - 1], t)
  }

  /** An observation kept in one transaction with the rows of its items. */
  function Whole(s: State, o: Observation): State {
    if o.succeeded && o.assessed then RetainAll(Observe(s, o), o.items, o.fetchedAt) else Observe(s, o)
  }

  lemma {:induction false} RetainAllStores(s: State, items: seq<Item>, t: nat, slot: Slot)
    ensures var s' := RetainAll(s, items, t);
            && s'.observations == s.observations && s'.watermark == s.watermark
            && Stored(s', slot) == if Stored(s, slot).None? && Met(items, slot) then Some(t) else Stored(s, slot)
  {
    if items != [] {
      hide Met;
      var front, last := items[..|items| - 1], items[|items| - 1];
      RetainAllStores(s, front, t, slot);
      MetAppend(front, last, slot);
      assert items == front + [last];
    }
  }

  /** Keeping a whole observation stores its time for exactly its slots that had none. */
  lemma WholeStores(s: State, o: Observation, slot: Slot)
    ensures var s' := Whole(s, o);
            && s'.observations == s.observations + [o] && s'.watermark == s.watermark
            && Stored(s', slot) ==
                 if Stored(s, slot).None? && Carries(o, slot) then Some(o.fetchedAt) else Stored(s, slot)
  {
    hide Met;
    RetainAllStores(Observe(s, o), o.items, o.fetchedAt, slot);
  }

  datatype Op = RunBackfill | Observes(o: Observation) | Retains(slot: Slot, t: nat) | Records(whole: Observation)

  /** One step of any interleaving. */
  ghost predicate Step(s: State, op: Op, s': State) {
    match op
    case RunBackfill => Backfill(s, s')
    case Observes(o) => s' == Observe(s, o)
    case Retains(slot, t) => s' == RetainSlot(s, slot, t)
    case Records(o) => s' == Whole(s, o)
  }

  ghost predicate Run(states: seq<State>, ops: seq<Op>) {
    |states| == |ops| + 1 && forall i :: 0 <= i < |ops| ==> Step(states[i], ops[i], states[i + 1])
  }

  // ----- stored values never change

  lemma StoredNeverChanges(s: State, op: Op, s': State, slot: Slot)
    requires Step(s, op, s') && Stored(s, slot).Some?
    ensures Stored(s', slot) == Stored(s, slot)
  {
    if op.Records? { WholeStores(s, op.whole, slot); }
  }

  lemma {:induction false} RunNeverRewrites(states: seq<State>, ops: seq<Op>, m: nat, n: nat, slot: Slot)
    requires Run(states, ops) && m <= n < |states| && Stored(states[m], slot).Some?
    ensures Stored(states[n], slot) == Stored(states[m], slot)
    decreases n
  {
    hide Step;
    if m < n {
      RunNeverRewrites(states, ops, m, n - 1, slot);
      StoredNeverChanges(states[n - 1], ops[n - 1], states[n - 1 + 1], slot);
    }
  }

  // ----- the incremental backfill against the simple computation

  /** Everything seen up to the watermark the backfill starts from is stored already. */
  ghost predicate Covered(s: State) {
    forall o, slot :: o in s.observations && Carries(o, slot) && !After(o.fetchedAt, EffectiveWatermark(s)) ==>
      Stored(s, slot).Some?
  }

  /** The simple computation: every slot that has no stored time gets its minimum over all history. */
  ghost predicate Simple(s: State, s': State) {
    forall slot :: Stored(s', slot) == if Stored(s, slot).Some? then Stored(s, slot) else FirstObserved(s, slot)
  }

  lemma {:induction false} LatestIsMaximum(os: seq<Observation>, o: Observation)
    requires o in os && o.succeeded
    ensures Latest(os).Some? && o.fetchedAt <= Latest(os).value
  {
    if o in os[..|os| - 1] { LatestIsMaximum(os[..|os| - 1], o); }
  }

  /** The latest time is the greatest of the succeeded observations, and there is none only without them. */
  lemma {:induction false} LatestIsAttained(os: seq<Observation>)
    ensures match Latest(os)
            case None => forall o :: o in os ==> !o.succeeded
            case Some(t) => && (exists o :: o in os && o.succeeded && o.fetchedAt == t)
                            && forall o :: o in os && o.succeeded ==> o.fetchedAt <= t
  {
    if os != [] {
      var front, last := os[..|os| - 1], os[|os| - 1];
      LatestIsAttained(front);
      assert forall o :: o in os <==> o in front || o == last;
    }
  }

  /** A backfill that changes anything sets the watermark to the greatest time of a succeeded observation. */
  lemma BackfillSetsWatermark(s: State, s': State)
    requires Backfill(s, s') && s' != s
    ensures s'.watermark.Some?
    ensures exists o :: o in s.observations && o.succeeded && Some(o.fetchedAt) == s'.watermark
    ensures forall o :: o in s.observations && o.succeeded ==> o.fetchedAt <= s'.watermark.value
  {
    LatestIsAttained(s.observations);
  }

  /** A backfill reads further exactly when a succeeded observation is after the watermark it starts from. */
  lemma NothingNewMeans(s: State)
    ensures NothingNew(s) <==>
            forall o :: o in s.observations && o.succeeded ==>
              s.pulls != map[] && s.watermark.Some? && o.fetchedAt <= s.watermark.value
  {
    LatestIsAttained(s.observations);
  }

  /** Nothing new means nothing that is after the watermark. */
  lemma NothingNewNothingAfter(s: State, slot: Slot)
    requires NothingNew(s)
    ensures Earliest(s.observations, EffectiveWatermark(s), slot).None?
  {
    EarliestIsMinimum(s.observations, EffectiveWatermark(s), slot);
    if Earliest(s.observations, EffectiveWatermark(s), slot).Some? {
      var o :| o in s.observations && After(o.fetchedAt, EffectiveWatermark(s)) && Carries(o, slot);
      LatestIsMaximum(s.observations, o);
    }
  }

  /** A backfill call always leaves the tables filled from its watermark, also when it returns early. */
  lemma BackfillFills(s: State, s': State)
    requires Backfill(s, s')
    ensures Filled(s, s')
  {
    if NothingNew(s) {
      forall slot ensures Missing(s, slot).None? { NothingNewNothingAfter(s, slot); }
    }
  }

  lemma SlotAgrees(s: State, slot: Slot)
    requires Stored(s, slot).None?
    ensures Missing(s, slot) == FirstObserved(s, slot) <==>
            forall o :: o in s.observations && !After(o.fetchedAt, EffectiveWatermark(s)) ==> !Carries(o, slot)
  {
    EarliestIsMinimum(s.observations, EffectiveWatermark(s), slot);
    EarliestIsMinimum(s.observations, None, slot);
    if Missing(s, slot).Some? {
      var o :| o in s.observations && After(o.fetchedAt, EffectiveWatermark(s)) && Carries(o, slot)
               && o.fetchedAt == Missing(s, slot).value;
      assert After(o.fetchedAt, None);
    }
    assert forall o :: o in s.observations ==> After(o.fetchedAt, None);
  }

  /**
   * The incremental backfill computes what the simple one computes if and only if everything the
   * watermark skips is stored.
   */
  lemma BackfillIsSimple(s: State, s': State)
    requires Backfill(s, s')
    ensures Simple(s, s') <==> Covered(s)
  {
    BackfillFills(s, s');
    forall slot | Stored(s, slot).None?
      ensures Stored(s', slot) == FirstObserved(s, slot) <==>
              forall o :: o in s.observations && !After(o.fetchedAt, EffectiveWatermark(s)) ==> !Carries(o, slot)
    {
      SlotAgrees(s, slot);
    }
    if Simple(s, s') {
      forall o, slot | o in s.observations && Carries(o, slot) && !After(o.fetchedAt, EffectiveWatermark(s))
        ensures Stored(s, slot).Some?
      {
      }
    }
  }

  // ----- coverage over runs

  lemma BackfillKeeps(s: State, s': State)
    requires Covered(s) && Backfill(s, s')
    ensures Covered(s')
  {
    BackfillFills(s, s');
    forall o, slot | o in s.observations && Carries(o, slot) ensures Stored(s', slot).Some? {
      EarliestIsMinimum(s.observations, EffectiveWatermark(s), slot);
    }
  }

  ghost predicate AllStored(s: State, o: Observation) { forall slot :: Carries(o, slot) ==> Stored(s, slot).Some? }

  /** A new observation keeps coverage exactly when it is after the watermark or carries nothing new. */
  lemma ObserveKeeps(s: State, o: Observation)
    requires Covered(s)
    ensures Covered(Observe(s, o)) <==> After(o.fetchedAt, EffectiveWatermark(s)) || AllStored(s, o)
  {
    var s' := Observe(s, o);
    assert forall slot :: Stored(s', slot) == Stored(s, slot);
    assert o in s'.observations;
    forall p | p in s'.observations ensures p in s.observations || p == o {}
    forall p | p in s.observations ensures p in s'.observations {}
  }

  /** The slots an operation stores by itself. */
  predicate Writes(op: Op, slot: Slot) {
    match op
    case Retains(retained, _) => slot == retained
    case Records(o) => Carries(o, slot)
    case _ => false
  }

  /** Everything at or before the recorded watermark is stored, or is about to be by the operation. */
  ghost predicate LosesNothing(s: State, op: Op) {
    forall o, slot :: o in s.observations && Carries(o, slot) && !After(o.fetchedAt, s.watermark) ==>
      Stored(s, slot).Some? || Writes(op, slot)
  }

  /** Retention keeps coverage exactly when it is not a first pull that would end a re-read still needed. */
  lemma RetainKeeps(s: State, slot: Slot, t: nat)
    requires Covered(s)
    ensures Covered(RetainSlot(s, slot, t)) <==>
            slot.Revision? || s.pulls != map[] || LosesNothing(s, Retains(slot, t))
  {
    var s' := RetainSlot(s, slot, t);
    assert forall x :: Stored(s', x).Some? <==> Stored(s, x).Some? || x == slot;
    if slot.Pull? && s.pulls == map[] {
      assert slot.item in s'.pulls;
      assert EffectiveWatermark(s') == s.watermark;
    }
  }

  /** The same for a whole observation, whose own slots are stored with it. */
  lemma RecordKeeps(s: State, o: Observation)
    requires Covered(s)
    ensures Covered(Whole(s, o)) <==>
            s.pulls != map[] || (forall i :: !Carries(o, Pull(i))) || LosesNothing(s, Records(o))
  {
    hide Whole, Carries;
    var s' := Whole(s, o);
    forall slot
      ensures Stored(s', slot).Some? <==> Stored(s, slot).Some? || Carries(o, slot)
    {
      WholeStores(s, o, slot);
    }
    WholeStores(s, o, Revision(0));
    assert o in s'.observations;
    forall p | p in s'.observations ensures p in s.observations || p == o {}
    forall p | p in s.observations ensures p in s'.observations {}
    assert forall i :: i in s'.pulls <==> Stored(s', Pull(i)).Some?;
    assert forall i :: i in s.pulls <==> Stored(s, Pull(i)).Some?;
    if s.pulls == map[] {
      if i :| Carries(o, Pull(i)) {
        assert i in s'.pulls;
      } else {
        assert s'.pulls == map[];
      }
    } else {
      var i :| i in s.pulls;
      assert i in s'.pulls;
    }
  }

  /** What has to hold before an operation for coverage to survive it. */
  ghost predicate Keeps(s: State, op: Op) {
    match op
    case RunBackfill => true
    case Observes(o) => After(o.fetchedAt, EffectiveWatermark(s)) || AllStored(s, o)
    case Retains(slot, _) => slot.Revision? || s.pulls != map[] || LosesNothing(s, op)
    case Records(o) => s.pulls != map[] || (forall i :: !Carries(o, Pull(i))) || LosesNothing(s, op)
  }

  lemma StepKeeps(s: State, op: Op, s': State)
    requires Covered(s) && Step(s, op, s')
    ensures Covered(s') <==> Keeps(s, op)
  {
    hide Covered, Backfill, LosesNothing, AllStored, Whole;
    match op
    case RunBackfill => BackfillKeeps(s, s');
    case Observes(o) => ObserveKeeps(s, o);
    case Retains(slot, t) => RetainKeeps(s, slot, t);
    case Records(o) => RecordKeeps(s, o);
  }

  /** A backfill right after a step is the simple one exactly when the step met its condition. */
  lemma NextBackfillIsSimple(s: State, op: Op, s': State, s'': State)
    requires Covered(s) && Step(s, op, s') && Backfill(s', s'')
    ensures Simple(s', s'') <==> Keeps(s, op)
  {
    StepKeeps(s, op, s');
    BackfillIsSimple(s', s'');
  }

  /**
   * Over every interleaving of backfills, observations and retentions, from any covered store, migrated
   * ones included: coverage holds throughout exactly when every step met its condition.
   */
  lemma {:induction false} RunCovered(states: seq<State>, ops: seq<Op>, n: nat)
    requires Run(states, ops) && Covered(states[0]) && n < |states|
    ensures (forall i :: 0 <= i <= n ==> Covered(states[i])) <==> (forall i :: 0 <= i < n ==> Keeps(states[i], ops[i]))
    decreases n
  {
    hide Covered, Keeps, Step;
    if n > 0 {
      RunCovered(states, ops, n - 1);
      if forall i :: 0 <= i < n ==> Covered(states[i]) {
        assert Covered(states[n - 1]);
        StepKeeps(states[n - 1], ops[n - 1], states[n - 1 + 1]);
      }
    }
  }

  /** So as long as the steps before it met their conditions, each backfill of a run is the simple one. */
  lemma RunIsSimple(states: seq<State>, ops: seq<Op>, n: nat)
    requires Run(states, ops) && Covered(states[0]) && n < |ops| && ops[n].RunBackfill?
    requires forall i :: 0 <= i < n ==> Keeps(states[i], ops[i])
    ensures Simple(states[n], states[n + 1])
  {
    hide Covered, Keeps, Simple;
    RunCovered(states, ops, n);
    assert Covered(states[n]);
    BackfillIsSimple(states[n], states[n + 1]);
  }

  // ----- the run law, without the watermark

  const EMPTY := State([], map[], map[], None)

  /** What is stored is the minimum of what was observed, and the watermark is the time of an observation. */
  ghost predicate Minimal(s: State) {
    && Covered(s)
    && (forall slot :: Stored(s, slot).Some? ==> Stored(s, slot) == FirstObserved(s, slot))
    && (s.watermark.Some? ==> exists o :: o in s.observations && o.succeeded && o.fetchedAt == s.watermark.value)
  }

  /** Later than every succeeded observation before it, if it succeeded itself. */
  predicate LaterThanAll(s: State, o: Observation) {
    o.succeeded ==> forall p :: p in s.observations && p.succeeded ==> p.fetchedAt < o.fetchedAt
  }

  lemma ObserveMinimal(s: State, o: Observation)
    requires Minimal(s) && LaterThanAll(s, o)
    ensures Minimal(Observe(s, o))
  {
    var s' := Observe(s, o);
    ObserveKeeps(s, o);
    assert Covered(s');
    hide Covered;
    forall slot | Stored(s, slot).Some? ensures FirstObserved(s', slot) == FirstObserved(s, slot) {
      FirstObservedAppend(s, s', o, slot);
      EarliestIsMinimum(s.observations, None, slot);
    }
    assert forall slot :: Stored(s', slot) == Stored(s, slot);
    assert forall p :: p in s.observations ==> p in s'.observations;
  }

  lemma BackfillMinimal(s: State, s': State)
    requires Minimal(s) && Backfill(s, s')
    ensures Minimal(s') && forall slot :: Stored(s', slot) == FirstObserved(s', slot)
  {
    BackfillKeeps(s, s');
    BackfillIsSimple(s, s');
    BackfillFills(s, s');
    if s' != s { BackfillSetsWatermark(s, s'); }
    hide Covered, Backfill;
    assert s'.observations == s.observations;
    assert forall slot :: FirstObserved(s', slot) == FirstObserved(s, slot);
  }

  /**
   * From the empty store, observations each later than every succeeded one before it, with backfills
   * anywhere between them: each backfill leaves every slot at the minimum of all history.
   */
  lemma {:induction false} RunIsMinimal(states: seq<State>, ops: seq<Op>, n: nat)
    requires Run(states, ops) && states[0] == EMPTY && n < |states|
    requires forall i :: 0 <= i < n ==>
               ops[i].RunBackfill? || (ops[i].Observes? && LaterThanAll(states[i], ops[i].o))
    ensures Minimal(states[n])
    ensures n > 0 && ops[n - 1].RunBackfill? ==> forall slot :: Stored(states[n], slot) == FirstObserved(states[n], slot)
    decreases n
  {
    hide Minimal, Backfill, Whole, RetainSlot, FirstObserved, LaterThanAll;
    if n == 0 {
      EmptyMinimal();
    } else {
      RunIsMinimal(states, ops, n - 1);
      assert Step(states[n - 1], ops[n - 1], states[n - 1 + 1]);
      if ops[n - 1].RunBackfill? {
        BackfillMinimal(states[n - 1], states[n]);
      } else {
        ObserveMinimal(states[n - 1], ops[n - 1].o);
      }
    }
  }

  lemma EmptyMinimal()
    ensures Minimal(EMPTY)
  {
  }

  /** A store migrated from before the pull ledger existed is covered: its backfill reads everything. */
  lemma MigratedThenBackfilled(s: State, s': State)
    requires s.pulls == map[] && Backfill(s, s')
    ensures Covered(s) && Simple(s, s')
    ensures forall o :: o in s.observations ==> AllStored(s', o)
  {
    BackfillIsSimple(s, s');
    BackfillFills(s, s');
    forall o, slot | o in s.observations && Carries(o, slot) ensures Stored(s', slot).Some? {
      EarliestIsMinimum(s.observations, EffectiveWatermark(s), slot);
    }
  }

  /**
   * Retaining into an empty pull ledger behind a watermark loses the re-read of the history: the next
   * backfill skips an older pull of the same revision and then dates it by its next appearance.
   */
  lemma RetainIntoEmptyLedger(s'': State)
    requires var s := State([Observation(1, true, true, [Item(1, 0)]), Observation(3, true, true, [Item(1, 0)])],
                            map[1 := 1], map[], Some(1));
             Backfill(RetainSlot(s, Pull(Item(1, 1)), 2), s'')
    ensures var a := Item(1, 0);
            var s := State([Observation(1, true, true, [a]), Observation(3, true, true, [a])],
                           map[1 := 1], map[], Some(1));
            var s' := RetainSlot(s, Pull(Item(1, 1)), 2);
            && Covered(s) && !Covered(s') && !Simple(s', s'')
            && FirstObserved(s', Pull(a)) == Some(1) && Stored(s'', Pull(a)) == Some(3)
  {
    var a, b := Item(1, 0), Item(1, 1);
    var first, second := Observation(1, true, true, [a]), Observation(3, true, true, [a]);
    var s := State([first, second], map[1 := 1], map[], Some(1));
    var s' := RetainSlot(s, Pull(b), 2);
    assert first.items[0] == a && second.items[0] == a;
    assert Pull(a) in SlotsOf(a);
    assert Carries(first, Pull(a)) && Carries(second, Pull(a));
    assert b in s'.pulls && s'.pulls != map[];
    assert first in s'.observations && Stored(s', Pull(a)).None?;
    TwoObservations(first, second, None, Pull(a));
    TwoObservations(first, second, Some(1), Pull(a));
    BackfillFills(s', s'');
    assert Stored(s'', Pull(a)) == Missing(s', Pull(a));
    BackfillIsSimple(s', s'');
  }

  lemma TwoObservations(a: Observation, b: Observation, watermark: Option<nat>, slot: Slot)
    ensures Earliest([a, b], watermark, slot) ==
            Earlier(if After(a.fetchedAt, watermark) && Carries(a, slot) then Some(a.fetchedAt) else None,
                    if After(b.fetchedAt, watermark) && Carries(b, slot) then Some(b.fetchedAt) else None)
  {
    hide Carries;
    var one, two := [a], [a, b];
    assert two[..|two| - 1] == one && one[..|one| - 1] == [];
    assert Earliest(one, watermark, slot) ==
           Earlier(None, if After(a.fetchedAt, watermark) && Carries(a, slot) then Some(a.fetchedAt) else None);
  }

  // ----- a second backfill writes nothing

  /** Whatever the state, two backfill calls in a row write what the first one wrote. */
  lemma SecondBackfillWritesNothing(s: State, s': State, s'': State)
    requires Backfill(s, s') && Backfill(s', s'')
    ensures forall slot :: Stored(s'', slot) == Stored(s', slot)
  {
    BackfillFills(s, s');
    BackfillFills(s', s'');
    if !NothingNew(s) && s'.watermark == Latest(s.observations) && s'.pulls != map[] {
      assert NothingNew(s');
    } else {
      forall slot ensures Missing(s', slot).None? {
        NoPullNoItem(s, s', slot);
      }
    }
  }

  lemma PullRecorded(s: State, s': State, o: Observation, i: Item)
    requires Filled(s, s') && s.pulls == map[] && o in s.observations && Carries(o, Pull(i))
    ensures i in s'.pulls
  {
    EarliestIsMinimum(s.observations, None, Pull(i));
    assert After(o.fetchedAt, None);
    assert Stored(s', Pull(i)) == Missing(s, Pull(i));
  }

  lemma PullsKept(s: State, s': State)
    requires Filled(s, s')
    ensures s'.pulls == map[] ==> s.pulls == map[]
  {
    forall x | x in s.pulls ensures x in s'.pulls { assert Stored(s', Pull(x)) == Stored(s, Pull(x)); }
  }

  /** A pull ledger that is still empty after a backfill means no usable observation carried an item. */
  lemma EmptyLedgerNoItem(s: State, s': State, slot: Slot)
    requires Filled(s, s') && s'.pulls == map[]
    ensures Earliest(s.observations, None, slot).None?
  {
    PullsKept(s, s');
    EarliestIsMinimum(s.observations, None, slot);
    forall o | o in s.observations ensures !Carries(o, slot) {
      if i :| o.succeeded && o.assessed && 0 <= i < |o.items| && slot in SlotsOf(o.items[i]) {
        assert Pull(o.items[i]) in SlotsOf(o.items[i]);
        PullRecorded(s, s', o, o.items[i]);
      }
    }
  }

  lemma NoPullNoItem(s: State, s': State, slot: Slot)
    requires Backfill(s, s') && Filled(s, s')
    requires || s'.pulls == map[] || NothingNew(s)
             || (s'.watermark == s.watermark && s'.revisions == s.revisions && s'.pulls == s.pulls)
    ensures Missing(s', slot).None?
  {
    if s'.pulls == map[] {
      EmptyLedgerNoItem(s, s', slot);
    } else if NothingNew(s) {
      NothingNewNothingAfter(s, slot);
    } else {
      assert Stored(s', slot) == if Stored(s, slot).Some? then Stored(s, slot) else Missing(s, slot);
      assert Stored(s', slot) == Stored(s, slot);
    }
  }

  // ----- a revision is not seen later than its pulls

  /** Every stored pull has its revision stored, no later than the pull. */
  ghost predicate RevisionsFirst(s: State) {
    forall i :: i in s.pulls ==> i.revision in s.revisions && s.revisions[i.revision] <= s.pulls[i]
  }

  /** No unprocessed observation carries an unrecorded pull of a revision stored at a later time. */
  ghost predicate NoEarlierPull(s: State) {
    forall o, i ::
      (o in s.observations && After(o.fetchedAt, EffectiveWatermark(s)) && Carries(o, Pull(i))
       && i !in s.pulls && i.revision in s.revisions)
      ==> s.revisions[i.revision] <= o.fetchedAt
  }

  /** The same for one observation. */
  ghost predicate NotEarlier(s: State, o: Observation) {
    forall i :: Carries(o, Pull(i)) && i !in s.pulls && i.revision in s.revisions ==>
      s.revisions[i.revision] <= o.fetchedAt
  }

  lemma PullCarriesRevision(o: Observation, i: Item)
    requires Carries(o, Pull(i))
    ensures Carries(o, Revision(i.revision))
  {
    var j :| 0 <= j < |o.items| && Pull(i) in SlotsOf(o.items[j]);
    assert Revision(i.revision) in SlotsOf(o.items[j]);
  }

  lemma NewPullAfterRevision(s: State, s': State, i: Item)
    requires Filled(s, s') && i !in s.pulls && i in s'.pulls
    ensures i.revision in s'.revisions
    ensures i.revision !in s.revisions ==> s'.revisions[i.revision] <= s'.pulls[i]
    ensures exists o :: o in s.observations && After(o.fetchedAt, EffectiveWatermark(s)) && Carries(o, Pull(i))
                        && o.fetchedAt == s'.pulls[i]
  {
    assert Stored(s', Pull(i)) == Missing(s, Pull(i));
    EarliestIsMinimum(s.observations, EffectiveWatermark(s), Pull(i));
    EarliestIsMinimum(s.observations, EffectiveWatermark(s), Revision(i.revision));
    var o :| o in s.observations && After(o.fetchedAt, EffectiveWatermark(s)) && Carries(o, Pull(i))
             && o.fetchedAt == s'.pulls[i];
    PullCarriesRevision(o, i);
    assert Stored(s', Revision(i.revision)).Some?;
  }

  /** A backfill keeps revisions no later than their pulls if and only if it has no earlier pull to add. */
  lemma BackfillKeepsRevisionsFirst(s: State, s': State)
    requires Backfill(s, s') && RevisionsFirst(s)
    ensures RevisionsFirst(s') <==> NoEarlierPull(s)
  {
    BackfillFills(s, s');
    forall i | i in s.pulls
      ensures i in s'.pulls && i.revision in s'.revisions && s'.revisions[i.revision] <= s'.pulls[i]
    {
      assert Stored(s', Pull(i)) == Stored(s, Pull(i));
      assert Stored(s', Revision(i.revision)) == Stored(s, Revision(i.revision));
    }
    if NoEarlierPull(s) {
      forall i | i in s'.pulls && i !in s.pulls
        ensures i.revision in s'.revisions && s'.revisions[i.revision] <= s'.pulls[i]
      {
        NewPullAfterRevision(s, s', i);
        if i.revision in s.revisions {
          assert Stored(s', Revision(i.revision)) == Stored(s, Revision(i.revision));
        }
      }
    } else {
      var o, i :| o in s.observations && After(o.fetchedAt, EffectiveWatermark(s)) && Carries(o, Pull(i))
                  && i !in s.pulls && i.revision in s.revisions && s.revisions[i.revision] > o.fetchedAt;
      EarliestIsMinimum(s.observations, EffectiveWatermark(s), Pull(i));
      assert Stored(s', Pull(i)) == Missing(s, Pull(i));
      assert Stored(s', Revision(i.revision)) == Stored(s, Revision(i.revision));
      assert s'.revisions[i.revision] > s'.pulls[i];
    }
  }

  /** Retention keeps it exactly when a pull that is new finds its revision stored, and no later. */
  lemma RetainKeepsRevisionsFirst(s: State, slot: Slot, t: nat)
    requires RevisionsFirst(s)
    ensures RevisionsFirst(RetainSlot(s, slot, t)) <==>
            slot.Revision? || slot.item in s.pulls
            || (slot.item.revision in s.revisions && s.revisions[slot.item.revision] <= t)
  {
    var s' := RetainSlot(s, slot, t);
    if slot.Pull? { assert slot.item in s'.pulls; }
  }

  /** A whole observation keeps it exactly when each new pull finds its revision no later, if stored at all. */
  lemma RecordKeepsRevisionsFirst(s: State, o: Observation)
    requires RevisionsFirst(s)
    ensures RevisionsFirst(Whole(s, o)) <==> NotEarlier(s, o)
  {
    hide Whole, Carries;
    var s' := Whole(s, o);
    forall i: Item
      ensures i in s'.pulls <==> i in s.pulls || Carries(o, Pull(i))
      ensures i in s'.pulls ==> s'.pulls[i] == if i in s.pulls then s.pulls[i] else o.fetchedAt
    {
      WholeStores(s, o, Pull(i));
      assert Stored(s', Pull(i)).Some? <==> i in s'.pulls;
    }
    forall k: nat
      ensures k in s'.revisions <==> k in s.revisions || Carries(o, Revision(k))
      ensures k in s'.revisions ==> s'.revisions[k] == if k in s.revisions then s.revisions[k] else o.fetchedAt
    {
      WholeStores(s, o, Revision(k));
      assert Stored(s', Revision(k)).Some? <==> k in s'.revisions;
    }
    forall i | Carries(o, Pull(i)) ensures Carries(o, Revision(i.revision)) { PullCarriesRevision(o, i); }
    if !NotEarlier(s, o) {
      var i :| Carries(o, Pull(i)) && i !in s.pulls && i.revision in s.revisions && s.revisions[i.revision] > o.fetchedAt;
      assert i in s'.pulls;
    }
  }

  /** What has to hold before an operation for revisions to stay no later than their pulls. */
  ghost predicate KeepsFirst(s: State, op: Op) {
    match op
    case RunBackfill => NoEarlierPull(s)
    case Observes(_) => true
    case Retains(slot, t) =>
      slot.Revision? || slot.item in s.pulls
      || (slot.item.revision in s.revisions && s.revisions[slot.item.revision] <= t)
    case Records(o) => NotEarlier(s, o)
  }

  lemma ObserveKeepsRevisionsFirst(s: State, o: Observation)
    requires RevisionsFirst(s)
    ensures RevisionsFirst(Observe(s, o))
  {
  }

  lemma StepKeepsFirst(s: State, op: Op, s': State)
    requires RevisionsFirst(s) && Step(s, op, s')
    ensures RevisionsFirst(s') <==> KeepsFirst(s, op)
  {
    hide RevisionsFirst, NoEarlierPull, NotEarlier, Backfill, Whole;
    match op
    case RunBackfill => BackfillKeepsRevisionsFirst(s, s');
    case Observes(o) => ObserveKeepsRevisionsFirst(s, o);
    case Retains(slot, t) => RetainKeepsRevisionsFirst(s, slot, t);
    case Records(o) => RecordKeepsRevisionsFirst(s, o);
  }

  /** Over every interleaving: no revision is ever dated after its pulls exactly when every step met its condition. */
  lemma {:induction false} RunRevisionsFirst(states: seq<State>, ops: seq<Op>, n: nat)
    requires Run(states, ops) && RevisionsFirst(states[0]) && n < |states|
    ensures (forall i :: 0 <= i <= n ==> RevisionsFirst(states[i])) <==>
            (forall i :: 0 <= i < n ==> KeepsFirst(states[i], ops[i]))
    decreases n
  {
    hide RevisionsFirst, KeepsFirst, Step;
    if n > 0 {
      RunRevisionsFirst(states, ops, n - 1);
      if forall i :: 0 <= i < n ==> RevisionsFirst(states[i]) {
        assert RevisionsFirst(states[n - 1]);
        StepKeepsFirst(states[n - 1], ops[n - 1], states[n - 1 + 1]);
      }
    }
  }

  // ----- whole observations in time order

  /** Everything ever observed is stored at its minimum, which has passed, and revisions come first. */
  ghost predicate UpToDate(s: State, now: nat) {
    && (forall slot :: Stored(s, slot) == FirstObserved(s, slot))
    && (forall slot :: Stored(s, slot).Some? ==> Stored(s, slot).value <= now)
    && RevisionsFirst(s)
  }

  function Now(from: nat, ops: seq<Op>): nat {
    if ops == [] then from
    else if ops[|ops| - 1].Records? then ops[|ops| - 1].whole.fetchedAt
    else Now(from, ops[..|ops| - 1])
  }

  /** Only whole observations, none earlier than the one before, and backfills anywhere between them. */
  ghost predicate InTimeOrder(from: nat, ops: seq<Op>) {
    forall i :: 0 <= i < |ops| ==>
      ops[i].RunBackfill? || (ops[i].Records? && Now(from, ops[..i]) <= ops[i].whole.fetchedAt)
  }

  lemma FirstObservedAppend(s: State, s': State, o: Observation, slot: Slot)
    requires s'.observations == s.observations + [o]
    ensures FirstObserved(s', slot) ==
            Earlier(FirstObserved(s, slot), if Carries(o, slot) then Some(o.fetchedAt) else None)
  {
    assert (s.observations + [o])[..|s.observations|] == s.observations;
  }

  lemma RecordUpToDate(s: State, o: Observation, now: nat)
    requires UpToDate(s, now) && now <= o.fetchedAt
    ensures UpToDate(Whole(s, o), o.fetchedAt)
  {
    hide Whole, Carries, Earliest;
    var s' := Whole(s, o);
    assert NotEarlier(s, o) by {
      forall i: Item | i.revision in s.revisions ensures s.revisions[i.revision] <= o.fetchedAt {
        assert Stored(s, Revision(i.revision)).Some?;
      }
    }
    RecordKeepsRevisionsFirst(s, o);
    WholeStores(s, o, Revision(0));
    hide RevisionsFirst, FirstObserved;
    forall slot
      ensures Stored(s', slot) == if Stored(s, slot).None? && Carries(o, slot) then Some(o.fetchedAt) else Stored(s, slot)
      ensures Stored(s', slot) == FirstObserved(s', slot)
    {
      WholeStores(s, o, slot);
      FirstObservedAppend(s, s', o, slot);
    }
  }

  lemma UpToDateStores(s: State, now: nat)
    requires UpToDate(s, now)
    ensures (forall o :: o in s.observations ==> AllStored(s, o)) && Covered(s)
    ensures forall slot :: Stored(s, slot) == FirstObserved(s, slot)
  {
    forall o, slot | o in s.observations && Carries(o, slot) ensures Stored(s, slot).Some? {
      EarliestIsMinimum(s.observations, None, slot);
    }
  }

  /** With nothing missing a backfill changes no row. */
  lemma BackfillWritesNothing(s: State, s': State)
    requires Backfill(s, s') && forall o :: o in s.observations ==> AllStored(s, o)
    ensures s'.revisions == s.revisions && s'.pulls == s.pulls
  {
    BackfillFills(s, s');
    forall slot ensures Stored(s', slot) == Stored(s, slot) {
      EarliestIsMinimum(s.observations, EffectiveWatermark(s), slot);
      forall o | o in s.observations ensures Carries(o, slot) ==> Stored(s, slot).Some? { assert AllStored(s, o); }
    }
    assert forall k :: k in s'.revisions <==> Stored(s', Revision(k)).Some?;
    assert forall k :: k in s.revisions <==> Stored(s, Revision(k)).Some?;
    assert forall k :: k in s.revisions ==> Stored(s', Revision(k)) == Stored(s, Revision(k));
    assert forall i :: i in s'.pulls <==> Stored(s', Pull(i)).Some?;
    assert forall i :: i in s.pulls <==> Stored(s, Pull(i)).Some?;
    assert forall i :: i in s.pulls ==> Stored(s', Pull(i)) == Stored(s, Pull(i));
  }

  /**
   * Whole observations in time order keep every slot at its minimum, never date a revision after a pull and
   * leave nothing to a backfill, wherever backfills run between them.
   */
  lemma {:induction false} WholeInTimeOrder(states: seq<State>, ops: seq<Op>, from: nat, n: nat)
    requires Run(states, ops) && UpToDate(states[0], from) && InTimeOrder(from, ops) && n < |states|
    ensures UpToDate(states[n], Now(from, ops[..n])) && Covered(states[n])
    ensures forall slot :: Stored(states[n], slot) == FirstObserved(states[n], slot)
    ensures n < |ops| && ops[n].RunBackfill? ==>
              states[n + 1].revisions == states[n].revisions && states[n + 1].pulls == states[n].pulls
    decreases n
  {
    if n > 0 {
      hide UpToDate, Whole, Backfill, Observe, RetainSlot;
      WholeInTimeOrder(states, ops, from, n - 1);
      assert ops[..n][..n - 1] == ops[..n - 1];
      assert Step(states[n - 1], ops[n - 1], states[n - 1 + 1]);
      StepUpToDate(states[n - 1], ops[n - 1], states[n], Now(from, ops[..n - 1]));
    }
    UpToDateStores(states[n], Now(from, ops[..n]));
    if n < |ops| && ops[n].RunBackfill? {
      hide Backfill, Whole;
      assert Step(states[n], ops[n], states[n + 1]);
      BackfillWritesNothing(states[n], states[n + 1]);
    }
  }

  lemma StepUpToDate(s: State, op: Op, s': State, now: nat)
    requires UpToDate(s, now) && Step(s, op, s')
    requires op.RunBackfill? || (op.Records? && now <= op.whole.fetchedAt)
    ensures UpToDate(s', if op.Records? then op.whole.fetchedAt else now)
  {
    if op.Records? {
      RecordUpToDate(s, op.whole, now);
    } else {
      UpToDateStores(s, now);
      BackfillWritesNothing(s, s');
      assert forall slot :: Stored(s', slot) == Stored(s, slot) && FirstObserved(s', slot) == FirstObserved(s, slot);
    }
  }

  /** An observation from before a retained one, backfilled after it, dates its pull before its revision. */
  lemma RetainBeforeBackfill(s': State)
    requires var s := Retain(State([Observation(1, true, true, [Item(1, 0)])], map[], map[], None), Item(1, 1), 2);
             Backfill(s, s')
    ensures !RevisionsFirst(s')
  {
    var s := Retain(State([Observation(1, true, true, [Item(1, 0)])], map[], map[], None), Item(1, 1), 2);
    assert s.pulls == map[Item(1, 1) := 2] && s.revisions == map[1 := 2];
    assert RevisionsFirst(s);
    var o := s.observations[0];
    assert Pull(Item(1, 0)) in SlotsOf(o.items[0]);
    assert o in s.observations && Carries(o, Pull(Item(1, 0))) && Item(1, 0) !in s.pulls;
    assert !NoEarlierPull(s);
    BackfillKeepsRevisionsFirst(s, s');
  }

  // ----- resolving a pull

  /** The pull's own time, or the revision's for stores from before the pull ledger existed. */
  function PullFirstObservedAt(s: State, i: Item): Option<nat> {
    if i in s.pulls then Some(s.pulls[i])
    else if i.revision in s.revisions then Some(s.revisions[i.revision])
    else None
  }

  /**
   * Where the revisions hold their first observations, a recorded pull that holds its own resolves to it,
   * and one that is not recorded, as in stores from before the pull ledger, to its revision's.
   */
  lemma ResolvesToFirst(s: State, i: Item)
    requires forall r :: Stored(s, Revision(r)) == FirstObserved(s, Revision(r))
    requires Stored(s, Pull(i)) in {None, FirstObserved(s, Pull(i))}
    ensures PullFirstObservedAt(s, i) ==
            if Stored(s, Pull(i)).Some? then FirstObserved(s, Pull(i)) else FirstObserved(s, Revision(i.revision))
  {
    assert Stored(s, Revision(i.revision)) == FirstObserved(s, Revision(i.revision));
  }

  /** The fallback is conservative: recording the pull later never moves its time backwards. */
  lemma FallbackIsConservative(s: State, op: Op, s': State, i: Item)
    requires Step(s, op, s') && RevisionsFirst(s') && PullFirstObservedAt(s, i).Some?
    ensures PullFirstObservedAt(s', i).Some?
    ensures PullFirstObservedAt(s, i).value <= PullFirstObservedAt(s', i).value
  {
    if i in s.pulls {
      StoredNeverChanges(s, op, s', Pull(i));
    } else {
      StoredNeverChanges(s, op, s', Revision(i.revision));
    }
  }

  // ----- the store

  /** The observations a query after a watermark selects. */
  function Select(os: seq<Observation>, watermark: Option<nat>): seq<Observation> {
    if os == [] then []
    else
      var last := os[|os| - 1];
      Select(os[..|os| - 1], watermark)
      + (if last.succeeded && After(last.fetchedAt, watermark) then [last] else [])
  }

  function Insert(o: Observation, os: seq<Observation>): seq<Observation> {
    if os == [] || o.fetchedAt < os[0].fetchedAt then [o] + os else [os[0]] + Insert(o, os[1..])
  }

  /** `ORDER BY fetched_at ASC`. */
  function InOrder(os: seq<Observation>): seq<Observation> {
    if os == [] then [] else Insert(os[|os| - 1], InOrder(os[..|os| - 1]))
  }

  predicate Ascending(os: seq<Observation>) {
    forall i, j :: 0 <= i < j < |os| ==> os[i].fetchedAt <= os[j].fetchedAt
  }

  lemma {:induction false} InsertHolds(o: Observation, os: seq<Observation>, p: Observation)
    ensures p in Insert(o, os) <==> p in os || p == o
  {
    if os != [] && os[0].fetchedAt <= o.fetchedAt {
      assert os == [os[0]] + os[1..];
      InsertHolds(o, os[1..], p);
    }
  }

  lemma {:induction false} InsertAscends(o: Observation, os: seq<Observation>)
    requires Ascending(os)
    ensures Ascending(Insert(o, os))
  {
    if os != [] && os[0].fetchedAt <= o.fetchedAt {
      InsertAscends(o, os[1..]);
      forall p | p in Insert(o, os[1..]) ensures os[0].fetchedAt <= p.fetchedAt { InsertHolds(o, os[1..], p); }
    }
  }

  lemma {:induction false} InOrderAscends(os: seq<Observation>)
    ensures Ascending(InOrder(os))
  {
    if os != [] {
      InOrderAscends(os[..|os| - 1]);
      InsertAscends(os[|os| - 1], InOrder(os[..|os| - 1]));
    }
  }

  lemma {:induction false} InOrderHolds(os: seq<Observation>, p: Observation)
    ensures p in InOrder(os) <==> p in os
  {
    if os != [] {
      InOrderHolds(os[..|os| - 1], p);
      InsertHolds(os[|os| - 1], InOrder(os[..|os| - 1]), p);
    }
  }

  lemma {:induction false} SelectHolds(os: seq<Observation>, watermark: Option<nat>, o: Observation)
    ensures o in Select(os, watermark) <==> o in os && o.succeeded && After(o.fetchedAt, watermark)
  {
    if os != [] { SelectHolds(os[..|os| - 1], watermark, o); }
  }

  lemma QueryHolds(os: seq<Observation>, watermark: Option<nat>, o: Observation)
    ensures o in InOrder(Select(os, watermark)) <==> o in os && o.succeeded && After(o.fetchedAt, watermark)
  {
    InOrderHolds(Select(os, watermark), o);
    SelectHolds(os, watermark, o);
  }

  lemma NoLaterThan(a: seq<Observation>, wa: Option<nat>, b: seq<Observation>, wb: Option<nat>, slot: Slot)
    requires forall o :: o in a && After(o.fetchedAt, wa) && Carries(o, slot) ==> o in b && After(o.fetchedAt, wb)
    ensures Earliest(a, wa, slot).Some? ==>
              Earliest(b, wb, slot).Some? && Earliest(b, wb, slot).value <= Earliest(a, wa, slot).value
  {
    EarliestIsMinimum(a, wa, slot);
    EarliestIsMinimum(b, wb, slot);
  }

  /** The ordered rows of the query have the same earliest times as the table behind the watermark. */
  lemma QueryEarliest(os: seq<Observation>, watermark: Option<nat>, slot: Slot)
    ensures Earliest(InOrder(Select(os, watermark)), None, slot) == Earliest(os, watermark, slot)
  {
    var rows := InOrder(Select(os, watermark));
    forall o | Carries(o, slot)
      ensures (o in rows && After(o.fetchedAt, None)) <==> (o in os && After(o.fetchedAt, watermark))
    {
      QueryHolds(os, watermark, o);
    }
    NoLaterThan(rows, None, os, watermark, slot);
    NoLaterThan(os, watermark, rows, None, slot);
  }

  /** What the dictionaries hold after the rows so far and the first items of the current row. */
  ghost predicate SeenSoFar(
      revisions: map<nat, nat>, pulls: map<Item, nat>, done: seq<Observation>, items: seq<Item>, t: nat)
  {
    forall slot :: Seen(revisions, pulls, slot) ==
      Earlier(Earliest(done, None, slot), if Met(items, slot) then Some(t) else None)
  }

  lemma NotLater(done: seq<Observation>, slot: Slot, t: nat)
    requires forall o :: o in done ==> o.fetchedAt <= t
    ensures Earliest(done, None, slot).Some? ==> Earliest(done, None, slot).value <= t
  {
    EarliestIsMinimum(done, None, slot);
  }

  /** Inserting the slots of one more item, if absent, into dictionaries that only hold times up to `t`. */
  lemma SeenStep(revisions: map<nat, nat>, pulls: map<Item, nat>, done: seq<Observation>, items: seq<Item>, i: Item, t: nat)
    requires SeenSoFar(revisions, pulls, done, items, t) && forall o :: o in done ==> o.fetchedAt <= t
    ensures SeenSoFar(if i.revision in revisions then revisions else revisions[i.revision := t],
                      if i in pulls then pulls else pulls[i := t], done, items + [i], t)
  {
    var revisions' := if i.revision in revisions then revisions else revisions[i.revision := t];
    var pulls' := if i in pulls then pulls else pulls[i := t];
    forall slot ensures Seen(revisions', pulls', slot) ==
      Earlier(Earliest(done, None, slot), if Met(items + [i], slot) then Some(t) else None)
    {
      hide Met;
      hide Earliest;
      NotLater(done, slot, t);
      MetAppend(items, i, slot);
    }
  }

  /** The entries whose key has no row yet. */
  function Absent<K>(seen: map<K, nat>, stored: map<K, nat>): map<K, nat> {
    map k | k in seen && k !in stored :: seen[k]
  }

  /** The dictionaries hold the earliest time of every slot met after the watermark. */
  ghost predicate Scanned(os: seq<Observation>, from: Option<nat>, revisionsSeen: map<nat, nat>, pullsSeen: map<Item, nat>) {
    forall slot :: Seen(revisionsSeen, pullsSeen, slot) == Earliest(os, from, slot)
  }

  /** Adding the missing entries of the dictionaries fills the tables. */
  lemma AddingFills(s: State, revisionsSeen: map<nat, nat>, pullsSeen: map<Item, nat>, s': State)
    requires Scanned(s.observations, EffectiveWatermark(s), revisionsSeen, pullsSeen)
    requires s'.observations == s.observations
    requires s'.revisions == s.revisions + Absent(revisionsSeen, s.revisions)
    requires s'.pulls == s.pulls + Absent(pullsSeen, s.pulls)
    ensures Filled(s, s')
  {
    forall slot ensures Stored(s', slot) == if Stored(s, slot).Some? then Stored(s, slot) else Missing(s, slot) {
      assert Seen(revisionsSeen, pullsSeen, slot) == Earliest(s.observations, EffectiveWatermark(s), slot);
    }
  }

  /** What writing the absent entries does, and what may happen to the watermark when there are none. */
  lemma Planned(s: State, revisionsSeen: map<nat, nat>, pullsSeen: map<Item, nat>)
    requires !NothingNew(s) && Scanned(s.observations, EffectiveWatermark(s), revisionsSeen, pullsSeen)
    ensures var toWrite, pullsToWrite := Absent(revisionsSeen, s.revisions), Absent(pullsSeen, s.pulls);
            && Backfill(s, s.(revisions := s.revisions + toWrite, pulls := s.pulls + pullsToWrite,
                              watermark := Latest(s.observations)))
            && (|toWrite| + |pullsToWrite| == 0 ==>
                  Backfill(s, s) && Backfill(s, s.(watermark := Latest(s.observations))))
  {
    var toWrite, pullsToWrite := Absent(revisionsSeen, s.revisions), Absent(pullsSeen, s.pulls);
    var s' := s.(revisions := s.revisions + toWrite, pulls := s.pulls + pullsToWrite,
                 watermark := Latest(s.observations));
    AddingFills(s, revisionsSeen, pullsSeen, s');
    AbsentAdds(revisionsSeen, s.revisions);
    AbsentAdds(pullsSeen, s.pulls);
    hide Absent, Scanned, Earliest;
    if |toWrite| + |pullsToWrite| == 0 {
      assert s'.revisions == s.revisions && s'.pulls == s.pulls;
      assert forall slot :: Stored(s', slot) == Stored(s, slot);
    }
  }

  class Store {
    var observations: seq<Observation>
    var revisions: map<nat, nat>
    var pulls: map<Item, nat>
    var watermark: Option<nat>

    function View(): State
      reads this
    {
      State(observations, revisions, pulls, watermark)
    }

    constructor ()
      ensures View() == State([], map[], map[], None) && Covered(View())
    {
      observations, revisions, pulls, watermark := [], map[], map[], None;
    }

    /** Keeps an observation and, with it, the first-seen rows of its items. */
    method RetainObservation(o: Observation)
      modifies this`observations, this`revisions, this`pulls
      ensures View() == Whole(old(View()), o)
      ensures forall slot :: Stored(View(), slot) ==
                if Stored(old(View()), slot).None? && Carries(o, slot) then Some(o.fetchedAt) else Stored(old(View()), slot)
    {
      forall slot { WholeStores(View(), o, slot); }
      observations := observations + [o];
      if !(o.succeeded && o.assessed) { return; }
      for n := 0 to |o.items|
        invariant View() == RetainAll(Observe(old(View()), o), o.items[..n], o.fetchedAt)
      {
        var i := o.items[n];
        assert o.items[..n + 1][..n] == o.items[..n];
        if i.revision !in revisions { revisions := revisions[i.revision := o.fetchedAt]; }
        if i !in pulls { pulls := pulls[i := o.fetchedAt]; }
      }
      assert o.items[..|o.items|] == o.items;
    }

    /** The incremental backfill; `lockAvailable` is whether a bare watermark update gets the write lock. */
    method BackfillMissing(lockAvailable: bool) returns (written: nat)
      modifies this`revisions, this`pulls, this`watermark
      ensures Backfill(old(View()), View())
      ensures !NothingNew(old(View())) && (lockAvailable || written > 0) ==> watermark == Latest(observations)
      ensures NothingNew(old(View())) || (!lockAvailable && written == 0) ==> View() == old(View())
      ensures written == (|revisions| - |old(revisions)|) + (|pulls| - |old(pulls)|)
    {
      var latest := Latest(observations);
      if NothingNew(View()) { return 0; }
      var revisionsSeen, pullsSeen := Scan(observations, EffectiveWatermark(View()));
      var toWrite, pullsToWrite := Absent(revisionsSeen, revisions), Absent(pullsSeen, pulls);
      AbsentAdds(revisionsSeen, revisions);
      AbsentAdds(pullsSeen, pulls);
      Planned(View(), revisionsSeen, pullsSeen);
      hide Backfill, EffectiveWatermark, Scanned, Latest, Absent;
      if |toWrite| + |pullsToWrite| == 0 {
        if lockAvailable { watermark := latest; }
        return 0;
      }
      revisions := revisions + toWrite;
      pulls := pulls + pullsToWrite;
      watermark := latest;
      return |toWrite| + |pullsToWrite|;
    }

    /** Reads the observations after a watermark in time order. */
    static method Scan(observations: seq<Observation>, from: Option<nat>)
      returns (revisionsSeen: map<nat, nat>, pullsSeen: map<Item, nat>)
      ensures Scanned(observations, from, revisionsSeen, pullsSeen)
    {
      var rows := InOrder(Select(observations, from));
      InOrderAscends(Select(observations, from));
      forall o | o in rows ensures o.succeeded { QueryHolds(observations, from, o); }
      revisionsSeen, pullsSeen := ParseRows(rows);
      forall slot ensures Seen(revisionsSeen, pullsSeen, slot) == Earliest(observations, from, slot) {
        QueryEarliest(observations, from, slot);
      }
    }

    /** Fills the two dictionaries with the first time each slot is met in the ordered rows. */
    static method ParseRows(rows: seq<Observation>) returns (revisionsSeen: map<nat, nat>, pullsSeen: map<Item, nat>)
      requires Ascending(rows) && forall o :: o in rows ==> o.succeeded
      ensures forall slot :: Seen(revisionsSeen, pullsSeen, slot) == Earliest(rows, None, slot)
    {
      revisionsSeen, pullsSeen := map[], map[];
      for n := 0 to |rows|
        invariant forall slot :: Seen(revisionsSeen, pullsSeen, slot) == Earliest(rows[..n], None, slot)
      {
        assert rows[..n + 1][..n] == rows[..n];
        assert rows[n] in rows;
        if rows[n].assessed {
          revisionsSeen, pullsSeen := ParseItems(rows[..n], rows[n], revisionsSeen, pullsSeen);
        }
      }
      assert rows[..|rows|] == rows;
    }

    static method ParseItems(
        ghost done: seq<Observation>, row: Observation, revisionsSeen: map<nat, nat>, pullsSeen: map<Item, nat>)
      returns (revisionsSeen': map<nat, nat>, pullsSeen': map<Item, nat>)
      requires row.succeeded && row.assessed && forall o :: o in done ==> o.fetchedAt <= row.fetchedAt
      requires forall slot :: Seen(revisionsSeen, pullsSeen, slot) == Earliest(done, None, slot)
      ensures forall slot :: Seen(revisionsSeen', pullsSeen', slot) ==
                Earlier(Earliest(done, None, slot), if Carries(row, slot) then Some(row.fetchedAt) else None)
    {
      revisionsSeen', pullsSeen' := revisionsSeen, pullsSeen;
      var t := row.fetchedAt;
      hide Earliest;
      for m := 0 to |row.items|
        invariant SeenSoFar(revisionsSeen', pullsSeen', done, row.items[..m], t)
      {
        var i := row.items[m];
        SeenStep(revisionsSeen', pullsSeen', done, row.items[..m], i, t);
        assert row.items[..m + 1] == row.items[..m] + [i];
        if i.revision !in revisionsSeen' { revisionsSeen' := revisionsSeen'[i.revision := t]; }
        if i !in pullsSeen' { pullsSeen' := pullsSeen'[i := t]; }
      }
      assert row.items[..|row.items|] == row.items;
    }
  }

  /** Adding the absent entries adds exactly that many rows. */
  lemma AbsentAdds<K>(seen: map<K, nat>, stored: map<K, nat>)
    ensures |stored + Absent(seen, stored)| == |stored| + |Absent(seen, stored)|
    ensures |Absent(seen, stored)| == 0 ==> stored + Absent(seen, stored) == stored
  {
    var added := Absent(seen, stored);
    assert (stored + added).Keys == stored.Keys + added.Keys;
    assert stored.Keys !! added.Keys;
    assert |stored.Keys + added.Keys| == |stored.Keys| + |added.Keys|;
  }
}
