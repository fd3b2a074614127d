/**
 * What a bounded campaign demands of its admissions, its provider receipts and its final partition.
 */
module CampaignEvidence {
  import opened Common

  // ----- admission caps

  /** One queue row: the ingest it came from, whether it proposes a relation, and its decision if any. */
  datatype Row = Row(ingest: nat, relation: bool, admit: Option<bool>)

  datatype Counts = Counts(proposals: nat, entities: nat, relations: nat, effects: nat)

  datatype Caps = Caps(total: Counts, perEvent: Counts)

  datatype CapStop = TotalCap | PerEventCap | NotFullyDecided

  function CountIf(rows: seq<Row>, p: Row -> bool): nat {
    if rows == [] then 0 else CountIf(rows[..|rows| - 1], p) + (if p(rows[|rows| - 1]) then 1 else 0)
  }

  function Select(rows: seq<Row>, group: set<nat>): seq<Row> {
    if rows == [] then []
    else Select(rows[..|rows| - 1], group) + (if rows[|rows| - 1].ingest in group then [rows[|rows| - 1]] else [])
  }

  predicate AdmitsEntity(r: Row) { r.admit == Some(true) && !r.relation }
  predicate AdmitsRelation(r: Row) { r.admit == Some(true) && r.relation }
  predicate IsEntity(r: Row) { !r.relation }
  predicate IsRelation(r: Row) { r.relation }

  function Actual(rows: seq<Row>): Counts {
    var e, l := CountIf(rows, AdmitsEntity), CountIf(rows, AdmitsRelation);
    Counts(|rows|, e, l, e + l)
  }

  /** Every proposal as an upper bound on an admission and its projected effect. */
  function Conservative(rows: seq<Row>): Counts {
    var e, l := CountIf(rows, IsEntity), CountIf(rows, IsRelation);
    Counts(|rows|, e, l, e + l)
  }

  predicate Within(c: Counts, cap: Counts) {
    c.proposals <= cap.proposals && c.entities <= cap.entities && c.relations <= cap.relations && c.effects <= cap.effects
  }

  function AdmissionCaps(rows: seq<Row>, groups: seq<set<nat>>, caps: Caps, decided: bool): Result<Counts, CapStop> {
    if !Within(Actual(rows), caps.total) then Err(TotalCap)
    else if exists i :: 0 <= i < |groups| &&
              var event := Select(rows, groups[i]);
              !Within(if decided then Actual(event) else Conservative(event), caps.perEvent)
    then Err(PerEventCap)
    else if !decided then
      if !Within(Conservative(rows), caps.total) then Err(TotalCap) else Ok(Conservative(rows))
    else if exists i :: 0 <= i < |rows| && rows[i].admit.None? then Err(NotFullyDecided)
    else Ok(Actual(rows))
  }

  /** The same proposals with any decisions. */
  ghost predicate SameProposals(a: seq<Row>, b: seq<Row>) {
    |a| == |b| && forall i :: 0 <= i < |a| ==> a[i].ingest == b[i].ingest && a[i].relation == b[i].relation
  }

  lemma {:induction false} ConservativeDominates(rows: seq<Row>, decided: seq<Row>)
    requires SameProposals(rows, decided)
    ensures CountIf(decided, AdmitsEntity) <= CountIf(rows, IsEntity)
    ensures CountIf(decided, AdmitsRelation) <= CountIf(rows, IsRelation)
  {
    if rows != [] { ConservativeDominates(rows[..|rows| - 1], decided[..|decided| - 1]); }
  }

  lemma {:induction false} SelectSame(rows: seq<Row>, decided: seq<Row>, group: set<nat>)
    requires SameProposals(rows, decided)
    ensures SameProposals(Select(rows, group), Select(decided, group))
  {
    if rows != [] { SelectSame(rows[..|rows| - 1], decided[..|decided| - 1], group); }
  }

  /**
   * If the check before the decisions passes, then for every assignment of decisions the check after
   * them raises no cap, and it stops exactly when some row is undecided.
   */
  lemma CapsDominate(rows: seq<Row>, decided: seq<Row>, groups: seq<set<nat>>, caps: Caps)
    requires SameProposals(rows, decided) && AdmissionCaps(rows, groups, caps, false).Ok?
    ensures AdmissionCaps(decided, groups, caps, true) ==
            if exists i :: 0 <= i < |decided| && decided[i].admit.None? then Err(NotFullyDecided) else Ok(Actual(decided))
  {
    ConservativeDominates(rows, decided);
    forall i | 0 <= i < |groups| ensures Within(Actual(Select(decided, groups[i])), caps.perEvent) {
      SelectSame(rows, decided, groups[i]);
      ConservativeDominates(Select(rows, groups[i]), Select(decided, groups[i]));
    }
  }

  // ----- what the caps bound

  /** The places of the rows of some ingests that satisfy a predicate. */
  ghost function Places(rows: seq<Row>, group: iset<nat>, p: Row -> bool): set<nat> {
    set i | 0 <= i < |rows| && rows[i].ingest in group && p(rows[i])
  }

  ghost const EVERYONE: iset<nat> := iset x: nat | true

  lemma {:induction false} CountIsPlaces(rows: seq<Row>, p: Row -> bool)
    ensures CountIf(rows, p) == |Places(rows, EVERYONE, p)|
  {
    if rows == [] {
      assert Places(rows, EVERYONE, p) == {};
    } else {
      var front, last := rows[..|rows| - 1], rows[|rows| - 1];
      CountIsPlaces(front, p);
      assert Places(rows, EVERYONE, p) == Places(front, EVERYONE, p) + (if p(last) then {|rows| - 1} else {});
    }
  }

  ghost function Members(group: set<nat>): iset<nat> { iset x | x in group }

  lemma {:induction false} SelectIsPlaces(rows: seq<Row>, group: set<nat>, p: Row -> bool)
    ensures CountIf(Select(rows, group), p) == |Places(rows, Members(group), p)|
  {
    if rows == [] {
      assert Places(rows, Members(group), p) == {};
    } else {
      var front, last := rows[..|rows| - 1], rows[|rows| - 1];
      SelectIsPlaces(front, group, p);
      assert Places(rows, Members(group), p) ==
             Places(front, Members(group), p) + (if last.ingest in group && p(last) then {|rows| - 1} else {});
      if last.ingest in group {
        CountNext(Select(front, group), last, p);
      } else {
        assert Select(front, group) + [] == Select(front, group);
      }
    }
  }

  lemma CountNext(rows: seq<Row>, r: Row, p: Row -> bool)
    ensures CountIf(rows + [r], p) == CountIf(rows, p) + (if p(r) then 1 else 0)
  {
    assert (rows + [r])[..|rows|] == rows;
  }

  predicate Any(r: Row) { true }

  lemma {:induction false} SelectAll(rows: seq<Row>, group: set<nat>)
    ensures |Select(rows, group)| == CountIf(Select(rows, group), Any)
    ensures |rows| == CountIf(rows, Any)
  {
    CountAny(rows);
    CountAny(Select(rows, group));
  }

  lemma {:induction false} CountAny(rows: seq<Row>)
    ensures CountIf(rows, Any) == |rows|
  {
    if rows != [] { CountAny(rows[..|rows| - 1]); }
  }

  /** Some rows of a group are within a cap: in number, in entities, in relations, and in both together. */
  ghost predicate Bounded(rows: seq<Row>, group: iset<nat>, entity: Row -> bool, relation: Row -> bool, cap: Counts) {
    && |Places(rows, group, Any)| <= cap.proposals
    && |Places(rows, group, entity)| <= cap.entities && |Places(rows, group, relation)| <= cap.relations
    && |Places(rows, group, entity)| + |Places(rows, group, relation)| <= cap.effects
  }

  /** The proposals of one kind. */
  ghost function Proposed(relation: bool): Row -> bool { (r: Row) => r.relation == relation }

  /** The admitted proposals of one kind. */
  ghost function Admitted(relation: bool): Row -> bool { (r: Row) => r.relation == relation && r.admit == Some(true) }

  lemma KindsMean(rows: seq<Row>, group: iset<nat>)
    ensures Places(rows, group, IsEntity) == Places(rows, group, Proposed(false))
    ensures Places(rows, group, IsRelation) == Places(rows, group, Proposed(true))
    ensures Places(rows, group, AdmitsEntity) == Places(rows, group, Admitted(false))
    ensures Places(rows, group, AdmitsRelation) == Places(rows, group, Admitted(true))
  {
  }

  lemma WithinMeans(rows: seq<Row>, group: set<nat>, cap: Counts)
    ensures Within(Actual(Select(rows, group)), cap) <==> Bounded(rows, Members(group), Admitted(false), Admitted(true), cap)
    ensures Within(Conservative(Select(rows, group)), cap) <==> Bounded(rows, Members(group), Proposed(false), Proposed(true), cap)
    ensures Within(Actual(rows), cap) <==> Bounded(rows, EVERYONE, Admitted(false), Admitted(true), cap)
    ensures Within(Conservative(rows), cap) <==> Bounded(rows, EVERYONE, Proposed(false), Proposed(true), cap)
  {
    hide CountIf, Select, Places, AdmitsEntity, AdmitsRelation, IsEntity, IsRelation, Any, Proposed, Admitted;
    KindsMean(rows, Members(group));
    KindsMean(rows, EVERYONE);
    SelectAll(rows, group);
    SelectIsPlaces(rows, group, Any);
    SelectIsPlaces(rows, group, AdmitsEntity);
    SelectIsPlaces(rows, group, AdmitsRelation);
    SelectIsPlaces(rows, group, IsEntity);
    SelectIsPlaces(rows, group, IsRelation);
    CountIsPlaces(rows, Any);
    CountIsPlaces(rows, AdmitsEntity);
    CountIsPlaces(rows, AdmitsRelation);
    CountIsPlaces(rows, IsEntity);
    CountIsPlaces(rows, IsRelation);
  }

  /**
   * Before the decisions the check passes exactly when all proposals, counted as admissions, fit the caps of
   * the campaign and of each event; after them, exactly when every row is decided and the admissions fit.
   */
  lemma CapsMean(rows: seq<Row>, groups: seq<set<nat>>, caps: Caps)
    ensures AdmissionCaps(rows, groups, caps, false).Ok? <==>
            && Bounded(rows, EVERYONE, Proposed(false), Proposed(true), caps.total)
            && forall i :: 0 <= i < |groups| ==> Bounded(rows, Members(groups[i]), Proposed(false), Proposed(true), caps.perEvent)
    ensures AdmissionCaps(rows, groups, caps, true).Ok? <==>
            && (forall i :: 0 <= i < |rows| ==> rows[i].admit.Some?)
            && Bounded(rows, EVERYONE, Admitted(false), Admitted(true), caps.total)
            && forall i :: 0 <= i < |groups| ==> Bounded(rows, Members(groups[i]), Admitted(false), Admitted(true), caps.perEvent)
  {
    WithinMeans(rows, {}, caps.total);
    forall i | 0 <= i < |groups|
      ensures Within(Actual(Select(rows, groups[i])), caps.perEvent) <==>
              Bounded(rows, Members(groups[i]), Admitted(false), Admitted(true), caps.perEvent)
      ensures Within(Conservative(Select(rows, groups[i])), caps.perEvent) <==>
              Bounded(rows, Members(groups[i]), Proposed(false), Proposed(true), caps.perEvent)
    {
      WithinMeans(rows, groups[i], caps.perEvent);
    }
    ConservativeDominates(rows, rows);
    hide CountIf, Select, Bounded, AdmitsEntity, AdmitsRelation, IsEntity, IsRelation, Proposed, Admitted;
  }

  // ----- provider receipts

  /** `exact` collects the identity, transport and usage comparisons made on an invocation or request. */
  datatype Invocation = Invocation(id: nat, exact: bool)

  datatype Request = Request(id: nat, exact: bool, cost: nat)

  /** One retained ingest: `receipted` collects the integrity checks on its single terminal receipt. */
  datatype Ingest = Ingest(
    receipted: bool, proposals: nat, chats: seq<Invocation>, requests: seq<Request>, requestCost: nat,
    accounted: bool, reserved: nat, actualUsd: nat, actual: nat)

  datatype Receipt = Receipt(proposals: nat, chats: nat, requests: nat, fallbacks: nat, retries: nat, actual: nat)

  function Cost(rs: seq<Request>): nat { if rs == [] then 0 else Cost(rs[..|rs| - 1]) + rs[|rs| - 1].cost }

  /** What one ingest must satisfy by itself. */
  predicate Reconciled(g: Ingest) {
    && g.receipted && |g.chats| == 1 && g.chats[0].exact
    && (forall i :: 0 <= i < |g.requests| ==> g.requests[i].exact)
    && (forall i, j :: 0 <= i < j < |g.requests| ==> g.requests[i].id != g.requests[j].id)
    && g.requestCost == Cost(g.requests) && g.accounted && g.actualUsd == g.requestCost && g.actual <= g.reserved
  }

  function SumActual(gs: seq<Ingest>): nat { if gs == [] then 0 else SumActual(gs[..|gs| - 1]) + gs[|gs| - 1].actual }

  function SumReserved(gs: seq<Ingest>): nat {
    if gs == [] then 0 else SumReserved(gs[..|gs| - 1]) + gs[|gs| - 1].reserved
  }

  function SumProposals(gs: seq<Ingest>): nat {
    if gs == [] then 0 else SumProposals(gs[..|gs| - 1]) + gs[|gs| - 1].proposals
  }

  function SumRequests(gs: seq<Ingest>): nat {
    if gs == [] then 0 else SumRequests(gs[..|gs| - 1]) + |gs[|gs| - 1].requests|
  }

  ghost function RequestIds(g: Ingest): set<nat> { set i | 0 <= i < |g.requests| :: g.requests[i].id }

  /** Every ingest reconciles, and no invocation or request identity is used twice. */
  ghost predicate EventReconciled(gs: seq<Ingest>) {
    && (forall i :: 0 <= i < |gs| ==> Reconciled(gs[i]))
    && (forall i, j :: 0 <= i < j < |gs| ==>
          gs[i].chats[0].id != gs[j].chats[0].id && RequestIds(gs[i]) !! RequestIds(gs[j]))
  }

  /** The ingests before `i` reconcile; the sets hold exactly their identities. */
  ghost predicate SoFar(gs: seq<Ingest>, i: nat, chatIds: set<nat>, requestIds: set<nat>)
    requires i <= |gs|
  {
    && EventReconciled(gs[..i])
    && (forall x :: x in chatIds <==> exists j :: 0 <= j < i && gs[j].chats[0].id == x)
    && (forall x :: x in requestIds <==> exists j :: 0 <= j < i && x in RequestIds(gs[j]))
  }

  /** The scan over the requests of one ingest, against the identities seen in the whole event. */
  method ScanRequests(requests: seq<Request>, seen: set<nat>) returns (ok: bool, seen': set<nat>, cost: nat)
    ensures ok <==>
            && (forall i :: 0 <= i < |requests| ==> requests[i].exact && requests[i].id !in seen)
            && (forall i, j :: 0 <= i < j < |requests| ==> requests[i].id != requests[j].id)
    ensures ok ==> seen' == seen + (set i | 0 <= i < |requests| :: requests[i].id) && cost == Cost(requests)
  {
    seen', cost := seen, 0;
    for i := 0 to |requests|
      invariant seen' == seen + (set j | 0 <= j < i :: requests[j].id) && cost == Cost(requests[..i])
      invariant forall j :: 0 <= j < i ==> requests[j].exact && requests[j].id !in seen
      invariant forall j, k :: 0 <= j < k < i ==> requests[j].id != requests[k].id
    {
      var r := requests[i];
      if !r.exact || r.id in seen' { return false, seen', cost; }
      assert requests[..i + 1][..i] == requests[..i];
      seen' := seen' + {r.id};
      cost := cost + r.cost;
    }
    assert requests[..|requests|] == requests;
    ok := true;
  }

  /** An ingest that reconciles by itself and repeats no identity seen before. */
  ghost predicate Adds(g: Ingest, chatIds: set<nat>, requestIds: set<nat>) {
    Reconciled(g) && g.chats[0].id !in chatIds && RequestIds(g) !! requestIds
  }

  lemma AddedReconciles(gs: seq<Ingest>, i: nat, chatIds: set<nat>, requestIds: set<nat>)
    requires i < |gs| && SoFar(gs, i, chatIds, requestIds) && Adds(gs[i], chatIds, requestIds)
    ensures EventReconciled(gs[..i + 1])
    ensures SoFar(gs, i + 1, chatIds + {gs[i].chats[0].id}, requestIds + RequestIds(gs[i]))
  {
    var front, more := gs[..i], gs[..i + 1];
    assert forall j :: 0 <= j < i ==> more[j] == front[j] == gs[j];
    assert more[i] == gs[i];
    forall j | 0 <= j < i ensures RequestIds(gs[j]) !! RequestIds(gs[i]) {
      assert forall x :: x in RequestIds(gs[j]) ==> x in requestIds;
    }
  }

  lemma ReconciledAdds(gs: seq<Ingest>, i: nat, chatIds: set<nat>, requestIds: set<nat>)
    requires i < |gs| && SoFar(gs, i, chatIds, requestIds) && EventReconciled(gs[..i + 1])
    ensures Adds(gs[i], chatIds, requestIds)
  {
    var more := gs[..i + 1];
    assert Reconciled(more[i]);
    forall j | 0 <= j < i ensures RequestIds(gs[j]) !! RequestIds(gs[i]) && gs[j].chats[0].id != gs[i].chats[0].id {
      assert more[j] == gs[j] && more[i] == gs[i];
    }
  }

  /** The comparisons made on one ingest. */
  method ScanIngest(g: Ingest, chatIds: set<nat>, requestIds: set<nat>) returns (ok: bool, requestIds': set<nat>)
    ensures ok <==> Adds(g, chatIds, requestIds)
    ensures ok ==> requestIds' == requestIds + RequestIds(g)
  {
    var scanned, seen, cost := ScanRequests(g.requests, requestIds);
    ok := g.receipted && |g.chats| == 1 && g.chats[0].exact && g.chats[0].id !in chatIds
          && scanned && g.requestCost == cost && g.accounted && g.actualUsd == cost && g.actual <= g.reserved;
    requestIds' := seen;
  }

  /** The evidence of one event, accumulated over its ingests; nothing if any comparison fails. */
  method ReceiptEvidence(gs: seq<Ingest>) returns (r: Option<Receipt>)
    ensures r.Some? <==> EventReconciled(gs)
    ensures r.Some? ==>
              r.value == Receipt(SumProposals(gs), |gs|, SumRequests(gs), 0, 0, SumActual(gs))
  {
    var proposals, chats, requests, actual := 0, 0, 0, 0;
    var chatIds: set<nat>, requestIds: set<nat> := {}, {};
    assert SoFar(gs, 0, {}, {});
    for i := 0 to |gs|
      invariant SoFar(gs, i, chatIds, requestIds) && chats == i
      invariant proposals == SumProposals(gs[..i]) && requests == SumRequests(gs[..i]) && actual == SumActual(gs[..i])
    {
      hide SoFar, EventReconciled, RequestIds;
      var g := gs[i];
      assert gs[..i + 1][..i] == gs[..i];
      var ok, requestIds' := ScanIngest(g, chatIds, requestIds);
      if !ok {
        PrefixReconciled(gs, i + 1);
        if EventReconciled(gs[..i + 1]) { ReconciledAdds(gs, i, chatIds, requestIds); }
        return None;
      }
      AddedReconciles(gs, i, chatIds, requestIds);
      proposals, chats, requests, actual :=
        proposals + g.proposals, chats + |g.chats|, requests + |g.requests|, actual + g.actual;
      chatIds, requestIds := chatIds + {g.chats[0].id}, requestIds';
    }
    assert gs[..|gs|] == gs;
    r := Some(Receipt(proposals, chats, requests, if chats > |gs| then chats - |gs| else 0, 0, actual));
  }

  lemma PrefixReconciled(gs: seq<Ingest>, n: nat)
    requires n <= |gs|
    ensures EventReconciled(gs) ==> EventReconciled(gs[..n])
  {
  }

  lemma {:induction false} ActualWithinReserved(gs: seq<Ingest>)
    requires forall i :: 0 <= i < |gs| ==> Reconciled(gs[i])
    ensures SumActual(gs) <= SumReserved(gs)
  {
    if gs != [] { ActualWithinReserved(gs[..|gs| - 1]); }
  }

  // ----- completion evidence

  datatype Kind = FreshEvent | ProjectEventGap | UnclassifiedGap

  datatype Identity = Identity(ledgerSeq: nat, event: nat)

  datatype Item = Item(identity: Identity, kind: Kind, content: nat, landedAt: real)

  /** A cohort event; `content` stands for its manifest digest and ingest identities. */
  datatype Event = Event(identity: Identity, content: nat)

  datatype Partition = Partition(observedAt: real, actionable: seq<Item>)

  /** A retained event row: whether it is terminal after one attempt, and when. */
  datatype Terminal = Terminal(identity: Identity, terminalOnce: bool, terminalAt: real)

  datatype CompletionStop =
    | EventIdentities | ObservationWindow | CohortWatermark | TerminalTime | Partition0 | Partition1
    | SelectedPartition | EventGap | Backlog | Lag | Velocity

  predicate DistinctItems(items: seq<Item>) {
    forall i, j :: 0 <= i < j < |items| ==> items[i].identity != items[j].identity
  }

  predicate PartitionOk(p: Partition) {
    DistinctItems(p.actionable) && forall i :: 0 <= i < |p.actionable| ==> p.actionable[i].landedAt <= p.observedAt
  }

  function MaxSeq(events: seq<Event>): nat
    requires events != []
  {
    var last := events[|events| - 1].identity.ledgerSeq;
    if |events| == 1 then last
    else
      var front := MaxSeq(events[..|events| - 1]);
      if front < last then last else front
  }

  function Ceiling(x: real): int { -((-x).Floor) }

  /** The whole seconds an item has been waiting at an instant, at least zero. */
  function LagOf(item: Item, at: real): nat {
    var c := Ceiling(at - item.landedAt);
    if c < 0 then 0 else c
  }

  predicate InPartition(items: seq<Item>, id: Identity) { exists i :: 0 <= i < |items| && items[i].identity == id }

  predicate Selected(before: seq<Item>, e: Event) {
    exists i :: 0 <= i < |before| && before[i].identity == e.identity && before[i].kind.FreshEvent?
                && before[i].content == e.content
  }

  /** The items above a watermark whose identity was not in the initial partition. */
  function Arrivals(items: seq<Item>, before: seq<Item>, watermark: nat): seq<Item> {
    if items == [] then []
    else
      var last := items[|items| - 1];
      Arrivals(items[..|items| - 1], before, watermark)
      + (if last.identity.ledgerSeq > watermark && !InPartition(before, last.identity) then [last] else [])
  }

  predicate InCohort(events: seq<Event>, id: Identity) { exists j :: 0 <= j < |events| && events[j].identity == id }

  predicate OnlyCohort(before: seq<Item>, events: seq<Event>) {
    forall i :: 0 <= i < |before| ==> InCohort(events, before[i].identity)
  }

  predicate AllFresh(items: seq<Item>) { forall i :: 0 <= i < |items| ==> items[i].kind.FreshEvent? }

  predicate AllAbove(items: seq<Item>, watermark: nat) {
    forall i :: 0 <= i < |items| ==> items[i].identity.ledgerSeq > watermark
  }

  predicate AllPrompt(items: seq<Item>, watermark: nat, at: real, maxLag: nat) {
    forall i :: 0 <= i < |items| && items[i].identity.ledgerSeq > watermark ==> LagOf(items[i], at) <= maxLag
  }

  predicate DistinctEvents(events: seq<Event>) {
    forall i, j :: 0 <= i < j < |events| ==> events[i].identity != events[j].identity
  }

  predicate OfCohort(events: seq<Event>, rows: seq<Terminal>) {
    forall i :: 0 <= i < |rows| ==>
      rows[i].terminalOnce && InCohort(events, rows[i].identity)
  }

  predicate InWindow(rows: seq<Terminal>, from: real, to: real) {
    forall i :: 0 <= i < |rows| ==> from < rows[i].terminalAt <= to
  }

  predicate AllSelected(before: seq<Item>, events: seq<Event>) {
    forall i :: 0 <= i < |events| ==> Selected(before, events[i])
  }

  function CompletionEvidence(
      events: seq<Event>, rows: seq<Terminal>, before: Partition, after: Partition, maxLag: nat)
    : Result<seq<Item>, CompletionStop>
  {
    if events == [] || !DistinctEvents(events) then Err(EventIdentities)
    else if after.observedAt <= before.observedAt then Err(ObservationWindow)
    else if |rows| != |events| || !OfCohort(events, rows) then Err(CohortWatermark)
    else if !InWindow(rows, before.observedAt, after.observedAt) then Err(TerminalTime)
    else if !PartitionOk(before) then Err(Partition0)
    else if !PartitionOk(after) then Err(Partition1)
    else if !AllSelected(before.actionable, events) || !OnlyCohort(before.actionable, events)
    then Err(SelectedPartition)
    else
      var items, watermark := after.actionable, MaxSeq(events);
      var arrivals := Arrivals(items, before.actionable, watermark);
      if !AllFresh(items) then Err(EventGap)
      else if !AllAbove(items, watermark) then Err(Backlog)
      else if !AllPrompt(items, watermark, after.observedAt, maxLag) then Err(Lag)
      else if |events| < |arrivals| then Err(Velocity)
      else Ok(arrivals)
  }

  lemma {:induction false} MaxSeqBounds(events: seq<Event>, i: nat)
    requires i < |events|
    ensures events[i].identity.ledgerSeq <= MaxSeq(events)
  {
    if i < |events| - 1 { MaxSeqBounds(events[..|events| - 1], i); }
  }

  lemma {:induction false} AllArrive(items: seq<Item>, before: seq<Item>, watermark: nat)
    requires forall i :: 0 <= i < |items| ==>
               items[i].identity.ledgerSeq > watermark && !InPartition(before, items[i].identity)
    ensures Arrivals(items, before, watermark) == items
  {
    if items != [] {
      AllArrive(items[..|items| - 1], before, watermark);
      assert items == items[..|items| - 1] + [items[|items| - 1]];
    }
  }

  /** The initial partition holds only cohort identities, so nothing in it is above the watermark. */
  lemma BeforeBelowWatermark(events: seq<Event>, before: seq<Item>, i: nat)
    requires events != [] && i < |before| && OnlyCohort(before, events)
    ensures before[i].identity.ledgerSeq <= MaxSeq(events)
  {
    var j :| 0 <= j < |events| && events[j].identity == before[i].identity;
    MaxSeqBounds(events, j);
  }

  lemma NotThere(before: seq<Item>, id: Identity)
    ensures InPartition(before, id) <==> exists j :: 0 <= j < |before| && before[j].identity == id
  {
  }

  /** The tests that completion evidence has passed. */
  lemma CompletionPassed(
      events: seq<Event>, rows: seq<Terminal>, before: Partition, after: Partition, maxLag: nat)
    requires CompletionEvidence(events, rows, before, after, maxLag).Ok?
    ensures events != [] && OnlyCohort(before.actionable, events) && AllFresh(after.actionable)
    ensures AllAbove(after.actionable, MaxSeq(events))
    ensures AllPrompt(after.actionable, MaxSeq(events), after.observedAt, maxLag)
    ensures var arrivals := Arrivals(after.actionable, before.actionable, MaxSeq(events));
            CompletionEvidence(events, rows, before, after, maxLag) == Ok(arrivals) && |arrivals| <= |events|
  {
    hide OnlyCohort, AllFresh, AllAbove, AllPrompt, Arrivals, MaxSeq, PartitionOk, AllSelected, DistinctEvents,
         OfCohort, InWindow;
  }

  /**
   * When completion evidence is produced, the arrivals it reports are the whole remaining partition:
   * every item left is a fresh event above the watermark, not in the initial partition and within the
   * lag bound, and there are no more of them than cohort events.
   */
  lemma CompletionIsWhole(
      events: seq<Event>, rows: seq<Terminal>, before: Partition, after: Partition, maxLag: nat)
    requires CompletionEvidence(events, rows, before, after, maxLag).Ok?
    ensures CompletionEvidence(events, rows, before, after, maxLag) == Ok(after.actionable)
    ensures |after.actionable| <= |events|
    ensures forall i :: 0 <= i < |after.actionable| ==>
              && after.actionable[i].kind.FreshEvent? && after.actionable[i].identity.ledgerSeq > MaxSeq(events)
              && (forall j :: 0 <= j < |before.actionable| ==>
                    before.actionable[j].identity != after.actionable[i].identity)
              && after.observedAt - after.actionable[i].landedAt <= maxLag as real
  {
    hide CompletionEvidence, OnlyCohort, LagOf, InPartition, Arrivals, MaxSeq;
    CompletionPassed(events, rows, before, after, maxLag);
    var items, watermark := after.actionable, MaxSeq(events);
    forall i | 0 <= i < |items|
      ensures !InPartition(before.actionable, items[i].identity)
      ensures forall j :: 0 <= j < |before.actionable| ==> before.actionable[j].identity != items[i].identity
    {
      forall j | 0 <= j < |before.actionable| ensures before.actionable[j].identity != items[i].identity {
        if before.actionable[j].identity == items[i].identity {
          BeforeBelowWatermark(events, before.actionable, j);
        }
      }
      NotThere(before.actionable, items[i].identity);
    }
    AllArrive(items, before.actionable, watermark);
    forall i | 0 <= i < |items| ensures after.observedAt - items[i].landedAt <= maxLag as real {
      PromptLag(items[i], after.observedAt, maxLag);
    }
  }

  lemma PromptLag(item: Item, at: real, maxLag: nat)
    requires LagOf(item, at) <= maxLag
    ensures at - item.landedAt <= maxLag as real
  {
  }

  // ----- what completion evidence requires

  lemma {:induction false} MaxSeqAttained(events: seq<Event>) returns (i: nat)
    requires events != []
    ensures i < |events| && events[i].identity.ledgerSeq == MaxSeq(events)
  {
    var front := events[..|events| - 1];
    i := |events| - 1;
    if front != [] && MaxSeq(front) >= events[i].identity.ledgerSeq { i := MaxSeqAttained(front); }
  }

  lemma LagMeans(item: Item, at: real, maxLag: nat)
    ensures LagOf(item, at) <= maxLag <==> at - item.landedAt <= maxLag as real
  {
  }

  /** The retained rows are those of the cohort, each terminal after one attempt inside the window. */
  predicate CohortTerminal(events: seq<Event>, rows: seq<Terminal>, from: real, to: real) {
    && |rows| == |events|
    && forall i :: 0 <= i < |rows| ==>
         rows[i].terminalOnce && from < rows[i].terminalAt <= to && InCohort(events, rows[i].identity)
  }

  /** A cohort event waits in a partition since the moment it landed there. */
  predicate Waits(items: seq<Item>, e: Event) {
    exists i :: 0 <= i < |items| && items[i] == Item(e.identity, FreshEvent, e.content, items[i].landedAt)
  }

  /** The initial partition is the cohort, fresh and with the same content. */
  ghost predicate StartsAsCohort(events: seq<Event>, before: seq<Item>) {
    && (forall j :: 0 <= j < |events| ==> Waits(before, events[j]))
    && forall i :: 0 <= i < |before| ==> before[i].identity in Identities(events)
  }

  /** What is left is new: fresh events above the whole cohort, waiting no longer than the bound. */
  predicate LeavesOnlyNew(events: seq<Event>, after: Partition, maxLag: nat) {
    && |after.actionable| <= |events|
    && forall i :: 0 <= i < |after.actionable| ==>
         var item := after.actionable[i];
         && item.kind == FreshEvent && after.observedAt - item.landedAt <= maxLag as real
         && forall j :: 0 <= j < |events| ==> item.identity.ledgerSeq > events[j].identity.ledgerSeq
  }

  lemma AboveMeans(events: seq<Event>, items: seq<Item>)
    requires events != []
    ensures AllAbove(items, MaxSeq(events)) <==>
            forall i, j :: 0 <= i < |items| && 0 <= j < |events| ==>
              items[i].identity.ledgerSeq > events[j].identity.ledgerSeq
  {
    var m := MaxSeqAttained(events);
    forall j | 0 <= j < |events| ensures events[j].identity.ledgerSeq <= MaxSeq(events) { MaxSeqBounds(events, j); }
  }

  lemma LeavesMeans(events: seq<Event>, before: seq<Item>, after: Partition, maxLag: nat)
    requires events != [] && OnlyCohort(before, events)
    ensures var items, watermark := after.actionable, MaxSeq(events);
            (&& AllFresh(items) && AllAbove(items, watermark) && AllPrompt(items, watermark, after.observedAt, maxLag)
             && |Arrivals(items, before, watermark)| <= |events|)
            <==> LeavesOnlyNew(events, after, maxLag)
  {
    hide LagOf, Arrivals, MaxSeq, OnlyCohort, InPartition;
    var items, watermark := after.actionable, MaxSeq(events);
    AboveMeans(events, items);
    forall i | 0 <= i < |items|
      ensures LagOf(items[i], after.observedAt) <= maxLag <==> after.observedAt - items[i].landedAt <= maxLag as real
    {
      LagMeans(items[i], after.observedAt, maxLag);
    }
    if AllAbove(items, watermark) {
      forall i | 0 <= i < |items| ensures !InPartition(before, items[i].identity) {
        NotThere(before, items[i].identity);
        if j :| 0 <= j < |before| && before[j].identity == items[i].identity { BeforeBelowWatermark(events, before, j); }
      }
      AllArrive(items, before, watermark);
    }
  }

  /** A partition of distinct items that had all landed when it was observed. */
  predicate Observed(p: Partition) {
    forall i :: 0 <= i < |p.actionable| ==>
      && p.actionable[i].landedAt <= p.observedAt
      && forall j :: 0 <= j < |p.actionable| && j != i ==> p.actionable[j].identity != p.actionable[i].identity
  }

  lemma ObservedMeans(p: Partition)
    ensures PartitionOk(p) <==> Observed(p)
  {
  }

  /** Completion evidence is produced exactly when all of this holds. */
  lemma CompletionMeans(
      events: seq<Event>, rows: seq<Terminal>, before: Partition, after: Partition, maxLag: nat)
    ensures CompletionEvidence(events, rows, before, after, maxLag).Ok? <==>
            && events != [] && (forall i, j :: 0 <= i < j < |events| ==> events[i].identity != events[j].identity)
            && before.observedAt < after.observedAt
            && CohortTerminal(events, rows, before.observedAt, after.observedAt)
            && Observed(before) && Observed(after)
            && StartsAsCohort(events, before.actionable) && LeavesOnlyNew(events, after, maxLag)
  {
    hide PartitionOk, AllFresh, AllAbove, AllPrompt, Arrivals, MaxSeq, LeavesOnlyNew, AllSelected, OnlyCohort,
         StartsAsCohort, OfCohort, InWindow, CohortTerminal, Observed;
    ObservedMeans(before);
    ObservedMeans(after);
    SelectedMeans(events, before.actionable);
    TerminalMeans(events, rows, before.observedAt, after.observedAt);
    if events != [] && OnlyCohort(before.actionable, events) {
      LeavesMeans(events, before.actionable, after, maxLag);
    }
  }

  lemma SelectedMeans(events: seq<Event>, before: seq<Item>)
    ensures StartsAsCohort(events, before) <==> AllSelected(before, events) && OnlyCohort(before, events)
  {
    hide Waits, Selected;
    forall j | 0 <= j < |events| ensures Selected(before, events[j]) <==> Waits(before, events[j]) {
      SelectedWaits(before, events[j]);
    }
  }

  lemma SelectedWaits(before: seq<Item>, e: Event)
    ensures Selected(before, e) <==> Waits(before, e)
  {
    if Selected(before, e) {
      var i :| 0 <= i < |before| && before[i].identity == e.identity && before[i].kind.FreshEvent?
               && before[i].content == e.content;
      assert before[i] == Item(e.identity, FreshEvent, e.content, before[i].landedAt);
    }
  }

  lemma TerminalMeans(events: seq<Event>, rows: seq<Terminal>, from: real, to: real)
    ensures CohortTerminal(events, rows, from, to) <==>
            |rows| == |events| && OfCohort(events, rows) && InWindow(rows, from, to)
  {
  }

  ghost function Identities(events: seq<Event>): set<Identity> { set i | 0 <= i < |events| :: events[i].identity }

  ghost function RowIdentities(rows: seq<Terminal>): set<Identity> { set i | 0 <= i < |rows| :: rows[i].identity }

  lemma {:induction false} IdentitiesCount(events: seq<Event>)
    requires forall i, j :: 0 <= i < j < |events| ==> events[i].identity != events[j].identity
    ensures |Identities(events)| == |events|
  {
    if events != [] {
      var front := events[..|events| - 1];
      IdentitiesCount(front);
      assert Identities(events) == Identities(front) + {events[|events| - 1].identity};
    } else {
      assert Identities(events) == {};
    }
  }

  lemma {:induction false} RowIdentitiesCount(rows: seq<Terminal>)
    requires forall i, j :: 0 <= i < j < |rows| ==> rows[i].identity != rows[j].identity
    ensures |RowIdentities(rows)| == |rows|
  {
    if rows != [] {
      var front := rows[..|rows| - 1];
      RowIdentitiesCount(front);
      assert RowIdentities(rows) == RowIdentities(front) + {rows[|rows| - 1].identity};
    } else {
      assert RowIdentities(rows) == {};
    }
  }

  /** So when it is produced, every event of the cohort is terminal after one attempt inside the window. */
  lemma CohortIsTerminal(
      events: seq<Event>, rows: seq<Terminal>, before: Partition, after: Partition, maxLag: nat, e: nat)
    requires CompletionEvidence(events, rows, before, after, maxLag).Ok? && e < |events|
    requires forall i, j :: 0 <= i < j < |rows| ==> rows[i].identity != rows[j].identity
    ensures exists i :: 0 <= i < |rows| && rows[i].identity == events[e].identity && rows[i].terminalOnce
                        && before.observedAt < rows[i].terminalAt <= after.observedAt
  {
    CompletionMeans(events, rows, before, after, maxLag);
    hide CompletionEvidence;
    IdentitiesCount(events);
    RowIdentitiesCount(rows);
    SubsetOfSameSize(RowIdentities(rows), Identities(events));
    assert events[e].identity in RowIdentities(rows);
  }

  lemma SubsetOfSameSize(a: set<Identity>, b: set<Identity>)
    requires a <= b && |a| == |b|
    ensures a == b
  {
    assert |b - a| == |b| - |a|;
  }
}
