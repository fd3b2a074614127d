/**
 * The development Candidate store: it admits one Candidate once, deduplicates every later proposal
 * to it, and re-validates three kinds of rows whenever it is opened.
 */
module Candidate {
  import opened Common

  /** The fixture authority a store is opened with. */
  datatype Manifest = Manifest(collision: nat, digest: nat)

  datatype Event = Event(id: nat, recordedAt: nat)

  datatype Verdict = Admitted | Deduplicated

  datatype CandidateRow = CandidateRow(id: nat, manifest: Manifest, createdAt: nat)

  datatype VersionRow = VersionRow(id: nat, candidate: nat, number: nat, context: nat, manifest: Manifest, recordedAt: nat)

  datatype DecisionRow = DecisionRow(
    id: nat, proposal: nat, verdict: Verdict, candidate: nat, version: nat, context: nat, manifest: Manifest,
    event: nat, recordedAt: nat)

  /** The authority command behind an idempotency key. */
  datatype CommandRow = CommandRow(proposal: nat, context: nat, event: nat)

  datatype Store = Store(
    ledger: seq<Event>, contexts: map<nat, nat>, commands: map<nat, CommandRow>,
    candidates: seq<CandidateRow>, versions: seq<VersionRow>, decisions: seq<DecisionRow>)

  const EMPTY := Store([], map[], map[], [], [], [])

  datatype AdmissionError = ContextNotRetained | IdempotencyConflict | ProposalDecided | EventReused | LacksVersion

  function EventKey(e: Event): nat { e.id }
  function CandidateKey(c: CandidateRow): nat { c.id }
  function CandidateCollision(c: CandidateRow): nat { c.manifest.collision }
  function VersionKey(v: VersionRow): nat { v.id }
  function VersionCandidate(v: VersionRow): nat { v.candidate }
  function DecisionEvent(d: DecisionRow): nat { d.event }
  function DecisionProposal(d: DecisionRow): nat { d.proposal }

  /** The ledger sequence of an event; 0 for one that is not retained. */
  function Sequence(ledger: seq<Event>, id: nat): nat {
    if ledger == [] then 0
    else if ledger[|ledger| - 1].id == id then |ledger|
    else Sequence(ledger[..|ledger| - 1], id)
  }

  // ----- the admission transaction

  /** The Candidate and version an admission is decided against, created if the collision digest is new. */
  datatype Target = Target(verdict: Verdict, candidate: nat, version: nat)

  function TargetOf(s: Store, m: Manifest, event: nat): Result<Target, AdmissionError> {
    var identity := Find(s.candidates, CandidateCollision, m.collision);
    if identity.None? then Ok(Target(Admitted, event, event))
    else
      var version := Find(s.versions, VersionCandidate, identity.value.id);
      if version.None? then Err(LacksVersion) else Ok(Target(Deduplicated, identity.value.id, version.value.id))
  }

  function Admit(s: Store, m: Manifest, key: nat, proposal: nat, context: nat, event: nat, now: nat)
    : Result<Store, AdmissionError>
  {
    if context !in s.contexts then Err(ContextNotRetained)
    else if key in s.commands then
      if s.commands[key].proposal == proposal && s.commands[key].context == context then Ok(s)
      else Err(IdempotencyConflict)
    else if Find(s.decisions, DecisionProposal, proposal).Some? then Err(ProposalDecided)
    else if Find(s.ledger, EventKey, event).Some? then Err(EventReused)
    else
      var target := TargetOf(s, m, event);
      if target.Err? then Err(target.error)
      else Ok(Recorded(s, m, key, proposal, context, event, now, target.value))
  }

  function Recorded(s: Store, m: Manifest, key: nat, proposal: nat, context: nat, event: nat, now: nat, t: Target): Store {
    s.(ledger := s.ledger + [Event(event, now)],
       commands := s.commands[key := CommandRow(proposal, context, event)],
       candidates := if t.verdict.Admitted? then s.candidates + [CandidateRow(t.candidate, m, now)] else s.candidates,
       versions := if t.verdict.Admitted?
                   then s.versions + [VersionRow(t.version, t.candidate, 1, context, m, now)] else s.versions,
       decisions := s.decisions
                    + [DecisionRow(event, proposal, t.verdict, t.candidate, t.version, context, m, event, now)])
  }

  // ----- the row validators

  /** The decisions of a Candidate in ledger order: the one with the least sequence. */
  function FirstDecision(ledger: seq<Event>, ds: seq<DecisionRow>, candidate: nat): Option<DecisionRow> {
    if ds == [] then None
    else
      var last := ds[|ds| - 1];
      var front := FirstDecision(ledger, ds[..|ds| - 1], candidate);
      if last.candidate == candidate
         && (front.None? || Sequence(ledger, last.event) < Sequence(ledger, front.value.event))
      then Some(last) else front
  }

  function VersionsOf(vs: seq<VersionRow>, candidate: nat): seq<VersionRow> {
    if vs == [] then []
    else VersionsOf(vs[..|vs| - 1], candidate) + (if vs[|vs| - 1].candidate == candidate then [vs[|vs| - 1]] else [])
  }

  predicate CandidateValid(s: Store, m: Manifest, c: CandidateRow) {
    var versions := VersionsOf(s.versions, c.id);
    var first := FirstDecision(s.ledger, s.decisions, c.id);
    && c.manifest == m && |versions| == 1 && first.Some?
    && c.id == first.value.event && versions[0].id == first.value.event && first.value.id == first.value.event
    && first.value.verdict.Admitted? && first.value.version == versions[0].id
    && first.value.recordedAt == c.createdAt && versions[0].recordedAt == c.createdAt
    && forall d :: d in s.decisions && d.candidate == c.id && d != first.value ==> d.verdict.Deduplicated?
  }

  predicate VersionValid(s: Store, m: Manifest, v: VersionRow) {
    var c := Find(s.candidates, CandidateKey, v.candidate);
    && c.Some? && v.context in s.contexts && v.number == 1 && v.manifest == m
    && v.recordedAt == c.value.createdAt && s.contexts[v.context] <= v.recordedAt
  }

  predicate DecisionValid(s: Store, m: Manifest, d: DecisionRow) {
    var event := Find(s.ledger, EventKey, d.event);
    var version := Find(s.versions, VersionKey, d.version);
    var c := Find(s.candidates, CandidateKey, d.candidate);
    var first := FirstDecision(s.ledger, s.decisions, d.candidate);
    && d.context in s.contexts && event.Some? && version.Some? && c.Some? && first.Some?
    && d.verdict == (if first.value.id == d.id then Admitted else Deduplicated)
    && d.manifest == m && d.recordedAt == event.value.recordedAt
    && version.value.candidate == d.candidate && version.value.number == 1 && c.value.manifest == m
    && c.value.createdAt <= d.recordedAt && version.value.recordedAt <= d.recordedAt
    && s.contexts[d.context] <= d.recordedAt
  }

  /** What opening the store checks. */
  ghost predicate Valid(s: Store, m: Manifest) {
    && (forall c :: c in s.candidates ==> CandidateValid(s, m, c))
    && (forall v :: v in s.versions ==> VersionValid(s, m, v))
    && (forall d :: d in s.decisions ==> DecisionValid(s, m, d))
  }

  // ----- what every run keeps

  /** Admitted once under its own event, then deduplicated for ever. */
  ghost predicate AdmitsOnce(s: Store, m: Manifest) {
    if s.decisions == [] then s.candidates == [] && s.versions == []
    else
      var first := s.decisions[0];
      && s.candidates == [CandidateRow(first.event, m, first.recordedAt)]
      && s.versions == [VersionRow(first.event, first.event, 1, first.context, m, first.recordedAt)]
      && first.verdict.Admitted? && first.id == first.event
      && (forall i :: 0 <= i < |s.decisions| ==>
            && s.decisions[i].candidate == first.event && s.decisions[i].version == first.event
            && (i > 0 ==> s.decisions[i].verdict.Deduplicated?))
  }

  /** Each decision is its own ledger event, in table order, under a retained context. */
  ghost predicate EventsOk(s: Store, m: Manifest) {
    && (forall i, j :: 0 <= i < j < |s.ledger| ==> s.ledger[i].id != s.ledger[j].id)
    && (forall d :: d in s.decisions ==>
          && d.id == d.event && d.manifest == m && d.context in s.contexts
          && Find(s.ledger, EventKey, d.event) == Some(Event(d.event, d.recordedAt)))
    && (forall i, j :: 0 <= i < j < |s.decisions| ==>
          Sequence(s.ledger, s.decisions[i].event) < Sequence(s.ledger, s.decisions[j].event))
  }

  /** Every committed command can be replayed to its decision. */
  ghost predicate Replayable(s: Store) {
    forall k :: k in s.commands ==> Find(s.decisions, DecisionEvent, s.commands[k].event).Some?
  }

  ghost predicate Inv(s: Store, m: Manifest) { AdmitsOnce(s, m) && EventsOk(s, m) && Replayable(s) }

  /** Every decision is no earlier than the Candidate it names and the context it cites. */
  ghost predicate Timely(s: Store) {
    forall d :: d in s.decisions ==>
      && d.context in s.contexts && s.contexts[d.context] <= d.recordedAt
      && s.decisions[0].recordedAt <= d.recordedAt
  }

  lemma {:induction false} SequenceAppend(ledger: seq<Event>, e: Event, id: nat)
    ensures Sequence(ledger + [e], id) == if e.id == id then |ledger| + 1 else Sequence(ledger, id)
    ensures Sequence(ledger, id) <= |ledger|
  {
    assert (ledger + [e])[..|ledger|] == ledger;
    if ledger != [] { SequenceAppend(ledger[..|ledger| - 1], e, id); }
  }

  lemma FindGrows(ledger: seq<Event>, e: Event, id: nat)
    requires Find(ledger, EventKey, id).Some?
    ensures Find(ledger + [e], EventKey, id) == Find(ledger, EventKey, id)
  {
    FindStable(ledger, ledger + [e], EventKey, id);
  }

  /** An event of another record keeps the invariant. */
  lemma EventKeeps(s: Store, m: Manifest, e: Event)
    requires Inv(s, m) && Find(s.ledger, EventKey, e.id).None?
    ensures Inv(s.(ledger := s.ledger + [e]), m)
  {
    var s' := s.(ledger := s.ledger + [e]);
    forall i | 0 <= i < |s.ledger| ensures s.ledger[i].id != e.id { assert EventKey(s.ledger[i]) != e.id; }
    forall d | d in s.decisions
      ensures d.event != e.id && Sequence(s'.ledger, d.event) == Sequence(s.ledger, d.event)
      ensures Find(s'.ledger, EventKey, d.event) == Some(Event(d.event, d.recordedAt))
    {
      SequenceAppend(s.ledger, e, d.event);
      FindGrows(s.ledger, e, d.event);
    }
  }

  lemma TargetIsFirst(s: Store, m: Manifest, event: nat)
    requires AdmitsOnce(s, m)
    ensures TargetOf(s, m, event) ==
            Ok(if s.decisions == [] then Target(Admitted, event, event)
               else Target(Deduplicated, s.decisions[0].event, s.decisions[0].event))
  {
    if s.decisions != [] {
      assert Find(s.candidates, CandidateCollision, m.collision) == Some(s.candidates[0]);
      assert Find(s.versions, VersionCandidate, s.candidates[0].id) == Some(s.versions[0]);
    }
  }

  /** One admission keeps the invariant; the missing-version error is unreachable. */
  lemma AdmitKeeps(s: Store, m: Manifest, key: nat, proposal: nat, context: nat, event: nat, now: nat)
    requires Inv(s, m)
    ensures var r := Admit(s, m, key, proposal, context, event, now);
            && (r.Ok? ==> Inv(r.value, m))
            && r != Err(LacksVersion)
  {
    TargetIsFirst(s, m, event);
    var r := Admit(s, m, key, proposal, context, event, now);
    if r.Ok? && r.value != s {
      var t := TargetOf(s, m, event).value;
      RecordedKeepsOnce(s, m, key, proposal, context, event, now, t);
      RecordedKeepsEvents(s, m, key, proposal, context, event, now, t);
      RecordedReplayable(s, m, key, proposal, context, event, now, t);
    }
  }

  lemma RecordedKeepsOnce(s: Store, m: Manifest, key: nat, proposal: nat, context: nat, event: nat, now: nat, t: Target)
    requires AdmitsOnce(s, m) && TargetOf(s, m, event) == Ok(t)
    ensures AdmitsOnce(Recorded(s, m, key, proposal, context, event, now, t), m)
  {
    TargetIsFirst(s, m, event);
    var s' := Recorded(s, m, key, proposal, context, event, now, t);
    assert forall i :: 0 <= i < |s.decisions| ==> s'.decisions[i] == s.decisions[i];
  }

  lemma RecordedReplayable(s: Store, m: Manifest, key: nat, proposal: nat, context: nat, event: nat, now: nat, t: Target)
    requires Replayable(s)
    ensures Replayable(Recorded(s, m, key, proposal, context, event, now, t))
  {
    var s' := Recorded(s, m, key, proposal, context, event, now, t);
    forall k | k in s'.commands ensures Find(s'.decisions, DecisionEvent, s'.commands[k].event).Some? {
      var id := s'.commands[k].event;
      if Find(s.decisions, DecisionEvent, id).Some? {
        FindStable(s.decisions, s'.decisions, DecisionEvent, id);
      } else {
        FindAppended(s.decisions, s'.decisions[|s.decisions|], DecisionEvent, id);
      }
    }
  }

  lemma RecordedKeepsEvents(s: Store, m: Manifest, key: nat, proposal: nat, context: nat, event: nat, now: nat, t: Target)
    requires Inv(s, m) && context in s.contexts && Find(s.ledger, EventKey, event).None?
    ensures EventsOk(Recorded(s, m, key, proposal, context, event, now, t), m)
  {
    var e := Event(event, now);
    EventKeeps(s, m, e);
    var s' := Recorded(s, m, key, proposal, context, event, now, t);
    FindAppended(s.ledger, e, EventKey, event);
    SequenceAppend(s.ledger, e, event);
    forall d | d in s.decisions ensures Sequence(s'.ledger, d.event) < Sequence(s'.ledger, event) {
      SequenceAppend(s.ledger, e, d.event);
      assert d.event != event;
    }
  }

  // ----- what an admission means

  /** The command was committed before under this key, for the same proposal and context. */
  predicate Repeats(s: Store, key: nat, proposal: nat, context: nat) {
    key in s.commands && s.commands[key].proposal == proposal && s.commands[key].context == context
  }

  /** A key, a proposal and an event that the store has not seen. */
  predicate Unseen(s: Store, key: nat, proposal: nat, event: nat) {
    && key !in s.commands && (forall d :: d in s.decisions ==> d.proposal != proposal)
    && forall e :: e in s.ledger ==> e.id != event
  }

  /**
   * An admission succeeds exactly under a retained context, for a command repeated as it was or for one
   * whose key, proposal and event are all new. A repeated one changes nothing.
   */
  lemma AdmitMeans(s: Store, m: Manifest, key: nat, proposal: nat, context: nat, event: nat, now: nat)
    requires Inv(s, m)
    ensures Admit(s, m, key, proposal, context, event, now).Ok? <==>
            context in s.contexts && (Repeats(s, key, proposal, context) || Unseen(s, key, proposal, event))
    ensures context in s.contexts && Repeats(s, key, proposal, context) ==>
              Admit(s, m, key, proposal, context, event, now) == Ok(s)
    ensures Admit(s, m, key, proposal, context, event, now) == Err(ContextNotRetained) <==> context !in s.contexts
    ensures Admit(s, m, key, proposal, context, event, now) == Err(IdempotencyConflict) <==>
            context in s.contexts && key in s.commands && !Repeats(s, key, proposal, context)
    ensures Admit(s, m, key, proposal, context, event, now) == Err(ProposalDecided) <==>
            && context in s.contexts && key !in s.commands
            && exists d :: d in s.decisions && d.proposal == proposal
  {
    TargetIsFirst(s, m, event);
    hide Inv, AdmitsOnce, TargetOf;
    var decided, drawn := Find(s.decisions, DecisionProposal, proposal), Find(s.ledger, EventKey, event);
    assert decided.None? <==> forall d :: d in s.decisions ==> d.proposal != proposal by {
      if decided.None? {
        forall d | d in s.decisions ensures d.proposal != proposal { assert DecisionProposal(d) != proposal; }
      }
    }
    assert drawn.None? <==> forall e :: e in s.ledger ==> e.id != event by {
      if drawn.None? { forall e | e in s.ledger ensures e.id != event { assert EventKey(e) != event; } }
    }
  }

  /**
   * The first admission creates the Candidate and its version under its own event; every later one adds
   * a decision that names them and nothing else, with the cited context, at the time of its event.
   */
  lemma AdmissionAdds(s: Store, m: Manifest, key: nat, proposal: nat, context: nat, event: nat, now: nat)
    requires Inv(s, m) && context in s.contexts && Unseen(s, key, proposal, event)
    ensures var first := if s.decisions == [] then event else s.decisions[0].event;
            var verdict := if s.decisions == [] then Admitted else Deduplicated;
            Admit(s, m, key, proposal, context, event, now) ==
            Ok(Store(
                 s.ledger + [Event(event, now)], s.contexts, s.commands[key := CommandRow(proposal, context, event)],
                 if s.decisions == [] then [CandidateRow(event, m, now)] else s.candidates,
                 if s.decisions == [] then [VersionRow(event, event, 1, context, m, now)] else s.versions,
                 s.decisions + [DecisionRow(event, proposal, verdict, first, first, context, m, event, now)]))
  {
    AdmitMeans(s, m, key, proposal, context, event, now);
    TargetIsFirst(s, m, event);
    if s.decisions == [] {
      assert s.candidates + [CandidateRow(event, m, now)] == [CandidateRow(event, m, now)];
      assert s.versions + [VersionRow(event, event, 1, context, m, now)] == [VersionRow(event, event, 1, context, m, now)];
    }
  }

  /** Each proposal is decided once, by the decision of exactly one command. */
  ghost predicate DecidedOnce(s: Store) {
    && (forall i, j :: 0 <= i < j < |s.decisions| ==> s.decisions[i].proposal != s.decisions[j].proposal)
    && (forall k :: k in s.commands ==> Carried(s, s.commands[k]))
    && (forall k, l :: k in s.commands && l in s.commands && k != l ==> s.commands[k].event != s.commands[l].event)
    && (forall d :: d in s.decisions ==> Commanded(s, d))
  }

  /** A decision has the command that asked for it. */
  ghost predicate Commanded(s: Store, d: DecisionRow) {
    exists k :: k in s.commands && s.commands[k] == CommandRow(d.proposal, d.context, d.event)
  }

  /** The decision that a command led to. */
  ghost predicate Carried(s: Store, c: CommandRow) {
    exists d :: d in s.decisions && d.event == c.event && d.proposal == c.proposal && d.context == c.context
  }

  lemma AdmitDecidesOnce(s: Store, m: Manifest, key: nat, proposal: nat, context: nat, event: nat, now: nat)
    requires Inv(s, m) && DecidedOnce(s) && Admit(s, m, key, proposal, context, event, now).Ok?
    ensures DecidedOnce(Admit(s, m, key, proposal, context, event, now).value)
  {
    AdmitMeans(s, m, key, proposal, context, event, now);
    if key !in s.commands {
      AdmissionAdds(s, m, key, proposal, context, event, now);
      var s' := Admit(s, m, key, proposal, context, event, now).value;
      forall d | d in s.decisions ensures d.event != event { EventRetained(s, m, d); }
      hide *;
      AppendDecidesOnce(s, s', key, s'.decisions[|s.decisions|]);
    }
  }

  lemma AppendDecidesOnce(s: Store, s': Store, key: nat, row: DecisionRow)
    requires DecidedOnce(s) && s'.decisions == s.decisions + [row] && key !in s.commands
    requires s'.commands == s.commands[key := CommandRow(row.proposal, row.context, row.event)]
    requires forall d :: d in s.decisions ==> d.event != row.event && d.proposal != row.proposal
    ensures DecidedOnce(s')
  {
    assert forall d :: d in s'.decisions <==> d in s.decisions || d == row;
    forall k | k in s'.commands ensures Carried(s', s'.commands[k]) {
      if k == key { assert row in s'.decisions; } else { CarriedGrows(s, s', s.commands[k]); }
    }
    forall k | k in s.commands ensures s.commands[k].event != row.event { assert Carried(s, s.commands[k]); }
    forall d | d in s'.decisions ensures Commanded(s', d) {
      if d == row {
        assert s'.commands[key] == CommandRow(d.proposal, d.context, d.event);
      } else {
        assert Commanded(s, d);
        var k :| k in s.commands && s.commands[k] == CommandRow(d.proposal, d.context, d.event);
        assert s'.commands[k] == s.commands[k];
      }
    }
  }

  lemma CarriedGrows(s: Store, s': Store, c: CommandRow)
    requires Carried(s, c) && forall d :: d in s.decisions ==> d in s'.decisions
    ensures Carried(s', c)
  {
    var d :| d in s.decisions && d.event == c.event && d.proposal == c.proposal && d.context == c.context;
    assert d in s'.decisions;
  }

  lemma EventRetained(s: Store, m: Manifest, d: DecisionRow)
    requires Inv(s, m) && d in s.decisions
    ensures Event(d.event, d.recordedAt) in s.ledger
  {
  }

  // ----- the validators

  lemma {:induction false} FirstIsHead(ledger: seq<Event>, ds: seq<DecisionRow>, candidate: nat)
    requires ds != [] && forall d :: d in ds ==> d.candidate == candidate
    requires forall i, j :: 0 <= i < j < |ds| ==> Sequence(ledger, ds[i].event) < Sequence(ledger, ds[j].event)
    ensures FirstDecision(ledger, ds, candidate) == Some(ds[0])
  {
    var front := ds[..|ds| - 1];
    if front != [] {
      assert forall d :: d in front ==> d in ds;
      assert forall i, j :: 0 <= i < j < |front| ==> front[i] == ds[i] && front[j] == ds[j];
      FirstIsHead(ledger, front, candidate);
      assert Sequence(ledger, ds[0].event) < Sequence(ledger, ds[|ds| - 1].event);
    }
  }

  lemma CandidateAccepted(s: Store, m: Manifest)
    requires Inv(s, m) && s.decisions != []
    ensures FirstDecision(s.ledger, s.decisions, s.candidates[0].id) == Some(s.decisions[0])
    ensures CandidateValid(s, m, s.candidates[0])
  {
    var c, first := s.candidates[0], s.decisions[0];
    forall d | d in s.decisions ensures d.candidate == c.id {}
    FirstIsHead(s.ledger, s.decisions, c.id);
    assert s.versions[..0] == [];
    assert VersionsOf(s.versions, c.id) == [s.versions[0]];
  }

  lemma DecisionAccepted(s: Store, m: Manifest, d: DecisionRow)
    requires Inv(s, m) && d in s.decisions
    ensures DecisionValid(s, m, d) <==>
            s.contexts[d.context] <= d.recordedAt && s.decisions[0].recordedAt <= d.recordedAt
  {
    CandidateAccepted(s, m);
    var i :| 0 <= i < |s.decisions| && s.decisions[i] == d;
    assert d.verdict == (if i == 0 then Admitted else Deduplicated);
    assert i > 0 ==> Sequence(s.ledger, s.decisions[0].event) < Sequence(s.ledger, d.event);
  }

  /** The three validators accept a store that admissions built exactly when its times are in order. */
  lemma ValidIsTimely(s: Store, m: Manifest)
    requires Inv(s, m)
    ensures Valid(s, m) <==> Timely(s)
  {
    if s.decisions != [] {
      CandidateAccepted(s, m);
      forall d | d in s.decisions
        ensures DecisionValid(s, m, d) <==>
                s.contexts[d.context] <= d.recordedAt && s.decisions[0].recordedAt <= d.recordedAt
      {
        DecisionAccepted(s, m, d);
      }
      assert s.decisions[0] in s.decisions;
      assert VersionValid(s, m, s.versions[0]) <==> s.contexts[s.decisions[0].context] <= s.decisions[0].recordedAt;
    }
  }

  // ----- runs under a clock

  datatype Action =
    | RetainContext(context: nat) | OtherEvent(event: nat)
    | Propose(key: nat, proposal: nat, context: nat, event: nat)

  function Step(s: Store, m: Manifest, a: Action, now: nat): Store {
    match a
    case RetainContext(c) => if c in s.contexts then s else s.(contexts := s.contexts[c := now])
    case OtherEvent(e) =>
      if Find(s.ledger, EventKey, e).Some? then s else s.(ledger := s.ledger + [Event(e, now)])
    case Propose(key, proposal, context, event) =>
      var r := Admit(s, m, key, proposal, context, event, now);
      if r.Ok? then r.value else s
  }

  lemma StepKeeps(s: Store, m: Manifest, a: Action, now: nat)
    requires Inv(s, m)
    ensures Inv(Step(s, m, a, now), m)
  {
    match a
    case RetainContext(c) =>
    case OtherEvent(e) => if Find(s.ledger, EventKey, e).None? { EventKeeps(s, m, Event(e, now)); }
    case Propose(key, proposal, context, event) => AdmitKeeps(s, m, key, proposal, context, event, now);
  }

  function Run(s: Store, m: Manifest, actions: seq<(Action, nat)>): Store
    decreases actions
  {
    if actions == [] then s else Run(Step(s, m, actions[0].0, actions[0].1), m, actions[1..])
  }

  /** Over every run, on any clock, there is at most one Candidate with one version, admitted once. */
  lemma {:induction false} RunAdmitsOnce(s: Store, m: Manifest, actions: seq<(Action, nat)>)
    requires Inv(s, m)
    ensures Inv(Run(s, m, actions), m)
    decreases actions
  {
    if actions != [] {
      StepKeeps(s, m, actions[0].0, actions[0].1);
      RunAdmitsOnce(Step(s, m, actions[0].0, actions[0].1), m, actions[1..]);
    }
  }

  /** Over every run each proposal is decided at most once. */
  lemma {:induction false} RunDecidesOnce(s: Store, m: Manifest, actions: seq<(Action, nat)>)
    requires Inv(s, m) && DecidedOnce(s)
    ensures DecidedOnce(Run(s, m, actions))
    decreases actions
  {
    if actions != [] {
      StepKeeps(s, m, actions[0].0, actions[0].1);
      StepDecidesOnce(s, m, actions[0].0, actions[0].1);
      RunDecidesOnce(Step(s, m, actions[0].0, actions[0].1), m, actions[1..]);
    }
  }

  lemma StepDecidesOnce(s: Store, m: Manifest, a: Action, now: nat)
    requires Inv(s, m) && DecidedOnce(s)
    ensures DecidedOnce(Step(s, m, a, now))
  {
    match a
    case RetainContext(c) => if c !in s.contexts { OthersDecided(s, s.(contexts := s.contexts[c := now])); }
    case OtherEvent(e) =>
      if Find(s.ledger, EventKey, e).None? { OthersDecided(s, s.(ledger := s.ledger + [Event(e, now)])); }
    case Propose(key, proposal, context, event) =>
      if Admit(s, m, key, proposal, context, event, now).Ok? {
        AdmitDecidesOnce(s, m, key, proposal, context, event, now);
      }
  }

  lemma OthersDecided(s: Store, s': Store)
    requires DecidedOnce(s) && s'.commands == s.commands && s'.decisions == s.decisions
    ensures DecidedOnce(s')
  {
    forall k | k in s'.commands ensures Carried(s', s'.commands[k]) { CarriedGrows(s, s', s.commands[k]); }
    forall d | d in s'.decisions ensures Commanded(s', d) { assert Commanded(s, d); }
  }

  /** What a run retains stays: contexts, commands and the prefix of decisions. */
  ghost predicate Extends(s: Store, s': Store) {
    && (forall c :: c in s.contexts ==> c in s'.contexts)
    && (forall k :: k in s.commands ==> k in s'.commands && s'.commands[k] == s.commands[k])
    && s.decisions <= s'.decisions
  }

  lemma {:induction false} RunExtends(s: Store, m: Manifest, actions: seq<(Action, nat)>)
    ensures Extends(s, Run(s, m, actions))
    decreases actions
  {
    if actions != [] {
      var next := Step(s, m, actions[0].0, actions[0].1);
      assert Extends(s, next);
      hide Step;
      RunExtends(next, m, actions[1..]);
    }
  }

  /**
   * After any later run a committed command still answers with the decision it led to, whatever event it
   * draws and whatever the time, and changes nothing; its key under another proposal or another retained
   * context is refused.
   */
  lemma ReplayAfterRun(
      s: Store, m: Manifest, key: nat, proposal: nat, context: nat, event: nat, now: nat, actions: seq<(Action, nat)>,
      proposal': nat, context': nat, event': nat, now': nat)
    requires Inv(s, m) && Admit(s, m, key, proposal, context, event, now).Ok?
    ensures var later := Run(Admit(s, m, key, proposal, context, event, now).value, m, actions);
            && Admit(later, m, key, proposal, context, event', now') == Ok(later)
            && (context' in later.contexts && (proposal', context') != (proposal, context) ==>
                  Admit(later, m, key, proposal', context', event', now') == Err(IdempotencyConflict))
  {
    var s' := Admit(s, m, key, proposal, context, event, now).value;
    AdmitKeeps(s, m, key, proposal, context, event, now);
    assert Repeats(s', key, proposal, context) && context in s'.contexts;
    RunAdmitsOnce(s', m, actions);
    RunExtends(s', m, actions);
    var later := Run(s', m, actions);
    hide Inv, Run, Admit;
    AdmitMeans(later, m, key, proposal, context, event', now');
    AdmitMeans(later, m, key, proposal', context', event', now');
  }

  /** Nothing in the store is later than the clock. */
  ghost predicate NotAfter(s: Store, now: nat) {
    && (forall c :: c in s.contexts ==> s.contexts[c] <= now)
    && (forall d :: d in s.decisions ==> d.recordedAt <= now)
  }

  predicate NonDecreasing(actions: seq<(Action, nat)>, since: nat) {
    && (forall i :: 0 <= i < |actions| ==> since <= actions[i].1)
    && (forall i, j :: 0 <= i < j < |actions| ==> actions[i].1 <= actions[j].1)
  }

  lemma StepTimely(s: Store, m: Manifest, a: Action, since: nat, now: nat)
    requires Inv(s, m) && Timely(s) && NotAfter(s, since) && since <= now
    ensures Timely(Step(s, m, a, now)) && NotAfter(Step(s, m, a, now), now)
  {
    if a.Propose? { TargetIsFirst(s, m, a.event); }
  }

  /** On a non-decreasing clock the validators accept every reachable store. */
  lemma {:induction false} RunValid(s: Store, m: Manifest, actions: seq<(Action, nat)>, since: nat)
    requires Inv(s, m) && Timely(s) && NotAfter(s, since) && NonDecreasing(actions, since)
    ensures Valid(Run(s, m, actions), m)
    decreases actions
  {
    if actions == [] {
      ValidIsTimely(s, m);
    } else {
      var now := actions[0].1;
      StepKeeps(s, m, actions[0].0, now);
      StepTimely(s, m, actions[0].0, since, now);
      assert NonDecreasing(actions[1..], now);
      RunValid(Step(s, m, actions[0].0, now), m, actions[1..], now);
    }
  }

  lemma OpensAfterRun(m: Manifest, actions: seq<(Action, nat)>)
    requires NonDecreasing(actions, 0)
    ensures Valid(Run(EMPTY, m, actions), m)
  {
    RunValid(EMPTY, m, actions, 0);
  }

  lemma TimelyAppend(s: Store, s': Store, d: DecisionRow)
    requires Timely(s) && s'.decisions == s.decisions + [d] && s'.contexts == s.contexts && d.context in s.contexts
    ensures Timely(s') <==>
            s.contexts[d.context] <= d.recordedAt && (s.decisions != [] ==> s.decisions[0].recordedAt <= d.recordedAt)
  {
    assert d in s'.decisions;
    assert forall x :: x in s'.decisions <==> x in s.decisions || x == d;
  }

  /**
   * A new decision on a valid store leaves it valid exactly when the clock is at or past the creation
   * of the Candidate and the recording of the context.
   */
  lemma AdmissionValid(s: Store, m: Manifest, key: nat, proposal: nat, context: nat, event: nat, now: nat)
    requires Inv(s, m) && Valid(s, m)
    requires Admit(s, m, key, proposal, context, event, now).Ok? && key !in s.commands
    ensures Valid(Admit(s, m, key, proposal, context, event, now).value, m) <==>
            s.contexts[context] <= now && (s.decisions != [] ==> s.decisions[0].recordedAt <= now)
  {
    var s' := Admit(s, m, key, proposal, context, event, now).value;
    AdmitKeeps(s, m, key, proposal, context, event, now);
    ValidIsTimely(s, m);
    ValidIsTimely(s', m);
    hide Valid, Inv, Timely, TargetOf;
    TimelyAppend(s, s', s'.decisions[|s.decisions|]);
  }

  lemma RunOne(s: Store, m: Manifest, a: (Action, nat))
    ensures Run(s, m, [a]) == Step(s, m, a.0, a.1)
  {
    hide Step;
    assert [a][1..] == [];
  }

  lemma RunTwo(s: Store, m: Manifest, a: (Action, nat), b: (Action, nat))
    ensures Run(s, m, [a, b]) == Step(Step(s, m, a.0, a.1), m, b.0, b.1)
  {
    hide Step;
    assert [a, b][1..] == [b];
    RunOne(Step(s, m, a.0, a.1), m, b);
  }

  lemma RunThree(s: Store, m: Manifest, a: (Action, nat), b: (Action, nat), c: (Action, nat))
    ensures Run(s, m, [a, b, c]) == Step(Run(s, m, [a, b]), m, c.0, c.1)
  {
    hide Step;
    assert [a, b, c][1..] == [b, c];
    RunTwo(Step(s, m, a.0, a.1), m, b, c);
    RunTwo(s, m, a, b);
  }

  const CONTEXT_AT_0 := (RetainContext(0), 0)
  const ADMITTED_AT_5 := (Propose(1, 1, 0, 1), 5)
  const PROPOSED_AT_4 := (Propose(2, 2, 0, 2), 4)

  lemma AdmittedOnce(m: Manifest)
    ensures var s := Run(EMPTY, m, [CONTEXT_AT_0, ADMITTED_AT_5]);
            s == Store([Event(1, 5)], map[0 := 0], map[1 := CommandRow(1, 0, 1)], [CandidateRow(1, m, 5)],
                       [VersionRow(1, 1, 1, 0, m, 5)], [DecisionRow(1, 1, Admitted, 1, 1, 0, m, 1, 5)])
  {
    RunTwo(EMPTY, m, CONTEXT_AT_0, ADMITTED_AT_5);
  }

  lemma ProposalCommits(s: Store, m: Manifest)
    requires Inv(s, m) && s.contexts == map[0 := 0] && s.ledger == [Event(1, 5)]
    requires 2 !in s.commands && |s.decisions| == 1 && s.decisions[0].proposal == 1
    ensures Admit(s, m, 2, 2, 0, 2, 4).Ok? && Step(s, m, Propose(2, 2, 0, 2), 4) == Admit(s, m, 2, 2, 0, 2, 4).value
    ensures |Admit(s, m, 2, 2, 0, 2, 4).value.decisions| == 2
  {
    hide Inv, TargetOf;
    assert TargetOf(s, m, 2).Ok? by { TargetExists(s, m, 2); }
  }

  lemma TargetExists(s: Store, m: Manifest, event: nat)
    requires Inv(s, m)
    ensures TargetOf(s, m, event).Ok?
  {
    TargetIsFirst(s, m, event);
  }

  /** A clock that steps back lets a run commit a decision that the next opening refuses. */
  lemma ClockStepsBack(m: Manifest)
    ensures var before := Run(EMPTY, m, [CONTEXT_AT_0, ADMITTED_AT_5]);
            var after := Run(EMPTY, m, [CONTEXT_AT_0, ADMITTED_AT_5, PROPOSED_AT_4]);
            Valid(before, m) && |after.decisions| == |before.decisions| + 1 && !Valid(after, m)
  {
    hide Valid, Inv, Run, Step, Admit;
    var s := Run(EMPTY, m, [CONTEXT_AT_0, ADMITTED_AT_5]);
    OpensAfterRun(m, [CONTEXT_AT_0, ADMITTED_AT_5]);
    EmptyKeeps(m);
    RunAdmitsOnce(EMPTY, m, [CONTEXT_AT_0, ADMITTED_AT_5]);
    RunThree(EMPTY, m, CONTEXT_AT_0, ADMITTED_AT_5, PROPOSED_AT_4);
    AdmittedOnce(m);
    ProposalCommits(s, m);
    AdmissionValid(s, m, 2, 2, 0, 2, 4);
  }

  lemma EmptyKeeps(m: Manifest)
    ensures Inv(EMPTY, m)
  {
  }

  // ----- the store

  class CandidateStore {
    const manifest: Manifest
    var ledger: seq<Event>
    var contexts: map<nat, nat>
    var commands: map<nat, CommandRow>
    var candidates: seq<CandidateRow>
    var versions: seq<VersionRow>
    var decisions: seq<DecisionRow>

    function View(): Store
      reads this
    {
      Store(ledger, contexts, commands, candidates, versions, decisions)
    }

    constructor (m: Manifest)
      ensures manifest == m && View() == EMPTY && Inv(View(), m)
    {
      manifest := m;
      ledger, contexts, commands, candidates, versions, decisions := [], map[], map[], [], [], [];
    }

    /** One admission transaction; `event` is the identity drawn for its ledger event. */
    method CommitAdmission(key: nat, proposal: nat, context: nat, event: nat, now: nat)
      returns (r: Result<DecisionRow, AdmissionError>)
      requires Inv(View(), manifest)
      modifies this`ledger, this`commands, this`candidates, this`versions, this`decisions
      ensures Inv(View(), manifest)
      ensures View() == Step(old(View()), manifest, Propose(key, proposal, context, event), now)
      ensures var admitted := Admit(old(View()), manifest, key, proposal, context, event, now);
              (r.Ok? <==> admitted.Ok?) && (r.Err? ==> admitted == Err(r.error))
      ensures r.Ok? ==> r.value in decisions && key in commands && r.value.event == commands[key].event
    {
      hide AdmitsOnce, EventsOk;
      StepKeeps(View(), manifest, Propose(key, proposal, context, event), now);
      TargetIsFirst(View(), manifest, event);
      if context !in contexts { return Err(ContextNotRetained); }
      if key in commands {
        if commands[key].proposal != proposal || commands[key].context != context { return Err(IdempotencyConflict); }
        return Ok(Find(decisions, DecisionEvent, commands[key].event).value);
      }
      hide Inv;
      if Find(decisions, DecisionProposal, proposal).Some? { return Err(ProposalDecided); }
      if Find(ledger, EventKey, event).Some? { return Err(EventReused); }
      var identity := Find(candidates, CandidateCollision, manifest.collision);
      var verdict, candidate, version := Admitted, event, event;
      if identity.None? {
        candidates := candidates + [CandidateRow(candidate, manifest, now)];
        versions := versions + [VersionRow(version, candidate, 1, context, manifest, now)];
      } else {
        verdict, candidate := Deduplicated, identity.value.id;
        version := Find(versions, VersionCandidate, candidate).value.id;
      }
      ledger := ledger + [Event(event, now)];
      commands := commands[key := CommandRow(proposal, context, event)];
      var row := DecisionRow(event, proposal, verdict, candidate, version, context, manifest, event, now);
      decisions := decisions + [row];
      r := Ok(row);
    }
  }
}
