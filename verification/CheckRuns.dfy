/** Every commit keeps the invariant, so it holds after every run from the empty store. */
module CheckRuns {
  import opened Common
  import opened CheckModel
  import opened CheckHistory
  import opened CheckEvidence
  import opened CheckCommit
  import opened CheckIntegrity

  // ----- rows that were valid stay valid

  lemma PositionRetained<T>(rows: seq<T>, position: T -> nat, ledger: seq<EventKind>, k: EventKind, row: T)
    requires Column(rows, position) == PositionsOf(ledger, k)
    requires row in rows
    ensures 1 <= position(row) <= |ledger|
  {
    var i :| 0 <= i < |rows| && rows[i] == row;
    assert Column(rows, position)[i] in PositionsOf(ledger, k);
    PositionsAre(ledger, k, position(row));
  }

  lemma CurrentAtStable(s: Store, s': Store, definition: nat, version: nat, position: nat)
    requires Extends(s, s')
    requires CurrentAt(s, definition, version, position) && position <= |s.ledger|
    ensures CurrentAt(s', definition, version, position)
  {
    LookupsStable(s, s');
    forall i | 0 <= i < |s'.versions| && s'.versions[i].definition == definition
               && s'.versions[i].number > Version(s, version).value.number
      ensures position < s'.versions[i].position
    {
      if i < |s.versions| { assert s'.versions[i] == s.versions[i]; }
    }
  }

  lemma OutcomeOkStable(s: Store, s': Store, o: OutcomeRow)
    requires Extends(s, s') && OutcomeOk(s, o)
    ensures OutcomeOk(s', o)
  {
    LookupsStable(s, s');
    ResolveStable(s, s', Request(s, o.request).value.trigger, o.definition, o.observed);
  }

  lemma OccurrenceOkStable(s: Store, s': Store, d: OccurrenceRow)
    requires Extends(s, s') && OccurrenceOk(s, d)
    ensures OccurrenceOk(s', d)
  {
    LookupsStable(s, s');
    var o := Outcome(s, d.outcome).value;
    ResolveStable(s, s', Request(s, o.request).value.trigger, o.definition, o.observed);
  }

  lemma TransitionRecordStable(s: Store, s': Store, t: TransitionRow)
    requires Extends(s, s') && TransitionRecordOk(s, t) && t.position <= |s.ledger|
    ensures TransitionRecordOk(s', t)
  {
    LookupsStable(s, s');
    UnorderedStable(s, s', t, Outcome(s, t.outcome).value);
    CurrentAtStable(s, s', t.definition, t.definitionVersion, t.position);
  }

  lemma RequestOkStable(s: Store, s': Store, r: RequestRow)
    requires Extends(s, s') && RequestOk(s, r) && r.position <= |s.ledger|
    ensures RequestOk(s', r)
  {
    LookupsStable(s, s');
    CurrentAtStable(s, s', r.definition, r.definitionVersion, r.position);
  }

  lemma BaselineOkStable(s: Store, s': Store, b: BaselineRow)
    requires Extends(s, s') && BaselineOk(s, b) && b.position <= |s.ledger|
    ensures BaselineOk(s', b)
  {
    BaselineEvidenceStable(s, s', b);
    CurrentAtStable(s, s', b.definition, b.definitionVersion, b.position);
  }

  /** The rows of `s` judged in `s'`. */
  ghost predicate OldRecordsOk(s: Store, s': Store) {
    && (forall r :: r in s.requests ==> RequestOk(s', r))
    && (forall a :: a in s.attempts ==> AttemptOk(s', a))
    && (forall o :: o in s.outcomes ==> OutcomeOk(s', o))
    && (forall d :: d in s.occurrences ==> OccurrenceOk(s', d))
    && (forall b :: b in s.baselines ==> BaselineOk(s', b))
    && (forall t :: t in s.transitions ==> TransitionRecordOk(s', t))
    && (forall f :: f in s.findings ==> FindingOk(s', f))
    && (forall f :: f in s.findingOccurrences ==> FindingOccurrenceOk(s', f))
  }

  /** Once a record passes validation it passes after any later appends, history verdicts apart. */
  lemma RecordsStable(s: Store, s': Store)
    requires RecordsOk(s) && CoverageOk(s) && Extends(s, s')
    ensures OldRecordsOk(s, s')
  {
    forall r | r in s.requests ensures RequestOk(s', r) {
      PositionRetained(s.requests, RequestPosition, s.ledger, RequestRegistered, r);
      RequestOkStable(s, s', r);
    }
    forall a | a in s.attempts ensures AttemptOk(s', a) { LookupsStable(s, s'); }
    forall o | o in s.outcomes ensures OutcomeOk(s', o) { OutcomeOkStable(s, s', o); }
    forall d | d in s.occurrences ensures OccurrenceOk(s', d) { OccurrenceOkStable(s, s', d); }
    forall b | b in s.baselines ensures BaselineOk(s', b) {
      PositionRetained(s.baselines, BaselinePosition, s.ledger, BaselineDecided, b);
      BaselineOkStable(s, s', b);
    }
    forall t | t in s.transitions ensures TransitionRecordOk(s', t) {
      PositionRetained(s.transitions, TransitionPosition, s.ledger, TransitionRecorded, t);
      TransitionRecordStable(s, s', t);
    }
    forall f | f in s.findings ensures FindingOk(s', f) { LineageStable(s, s', f.scope, f.lineage); }
    forall f | f in s.findingOccurrences ensures FindingOccurrenceOk(s', f) {
      LookupsStable(s, s');
      LineageStable(s, s', Finding(s, f.finding).value.scope, f.lineage);
    }
  }

  // ----- a guard that admits a row establishes its validation

  lemma CurrentIsCurrentAt(s: Store, definition: nat)
    requires SourcesOk(s) && UniqueKeys(s.versions, VersionKey)
    ensures CurrentVersion(s.versions, definition).Some? ==>
              var v := CurrentVersion(s.versions, definition).value;
              Version(s, v.id) == Some(v) && CurrentAt(s, definition, v.id, NextPosition(s))
  {
    if CurrentVersion(s.versions, definition).Some? {
      var v := CurrentVersion(s.versions, definition).value;
      FindUnique(s.versions, VersionKey, v);
      forall i | 0 <= i < |s.versions| && s.versions[i].definition == definition
        ensures s.versions[i].number <= v.number
      {
        CurrentIsGreatest(s.versions, definition, i);
      }
    }
  }

  lemma {:induction false} CurrentIsGreatest(vs: seq<VersionRow>, definition: nat, i: nat)
    requires i < |vs| && vs[i].definition == definition
    requires forall i, j :: 0 <= i < j < |vs| && vs[i].definition == vs[j].definition ==> vs[i].number < vs[j].number
    ensures CurrentVersion(vs, definition).Some? && vs[i].number <= CurrentVersion(vs, definition).value.number
  {
    if vs[|vs| - 1].definition != definition {
      CurrentIsGreatest(vs[..|vs| - 1], definition, i);
    }
  }

  lemma {:induction false} ResolveIdempotent(s: Store, trigger: Trigger, definition: nat, observed: seq<ObservedItem>)
    ensures var r := Resolve(s, trigger, definition, observed);
            r.Some? ==> Resolve(s, trigger, definition, r.value) == r
  {
    var r := Resolve(s, trigger, definition, observed);
    if observed != [] && r.Some? {
      ResolveIdempotent(s, trigger, definition, observed[1..]);
      assert r.value[1..] == Resolve(s, trigger, definition, observed[1..]).value;
    }
  }

  lemma NewRequest(s: Store, s': Store, r: RequestRow)
    requires SourcesOk(s) && UniqueKeys(s.versions, VersionKey)
    requires RequestRefused(s, r).None? && r.position == NextPosition(s) && s'.versions == s.versions
    ensures RequestOk(s', r)
  {
    CurrentIsCurrentAt(s, r.definition);
  }

  lemma NewAttempt(s: Store, s': Store, a: AttemptRow)
    requires AttemptRefused(s, a).None? && s'.requests == s.requests
    ensures AttemptOk(s', a)
  {
  }

  lemma NewOutcome(s: Store, s': Store, o: OutcomeRow)
    requires OutcomeRefused(s, o).None? && o.observed == IndexOf(s, o) && Extends(s, s')
    ensures OutcomeOk(s', o)
  {
    OutcomeOkStable(s, s', o);
  }

  lemma NewOccurrence(s: Store, s': Store, d: OccurrenceRow)
    requires OccurrenceRefused(s, d).None? && d.definition == Revision(s, d.revision).value.definition
    requires Extends(s, s') && d.id in s'.links && s'.links[d.id] == d.outcome
    ensures OccurrenceOk(s', d)
  {
    LookupsStable(s, s');
    var o := Outcome(s, d.outcome).value;
    ResolveStable(s, s', Request(s, o.request).value.trigger, o.definition, o.observed);
  }

  lemma NewBaseline(s: Store, s': Store, b: BaselineRow)
    requires SourcesOk(s) && UniqueKeys(s.versions, VersionKey)
    requires BaselineRefused(s, b).None? && b.position == NextPosition(s)
    requires Extends(s, s') && s'.versions == s.versions
    ensures BaselineOk(s', b)
  {
    CurrentIsCurrentAt(s, b.definition);
    BaselineEvidenceStable(s, s', b);
    CurrentAtIn(s, s', b.definition, b.definitionVersion, b.position);
  }

  lemma CurrentAtIn(s: Store, s': Store, definition: nat, version: nat, position: nat)
    requires CurrentAt(s, definition, version, position) && s'.versions == s.versions
    ensures CurrentAt(s', definition, version, position)
  {
  }

  lemma TransitionAdmits(s: Store, t: TransitionRow)
    requires TransitionRefused(s, t).None?
    ensures PinsCurrentVersion(s, t.definition, t.definitionVersion)
    ensures CurrentVersion(s.versions, t.definition).value.observation == t.observation
    ensures Outcome(s, t.outcome).Some? && Item(s, t.item).Some? && WellShaped(t)
    ensures var o := Outcome(s, t.outcome).value;
            && Request(s, o.request).Some? && o.definition == t.definition
            && o.definitionVersion == t.definitionVersion
            && Request(s, o.request).value.transitionPolicy == t.transitionPolicy
            && TransitionHistoryError(s, t).None? && UnorderedError(s, t, o).None?
    ensures Item(s, t.item).value.definition == t.definition
    ensures t.current.Some? ==> RevisionItem(s, t.current.value.revision) == Some(t.item)
    ensures TransitionEvidenceError(s, t).None?
    ensures Find(s.transitions, TransitionSlot, TransitionSlot(t)).None?
  {
  }

  lemma NewTransition(s: Store, s': Store, t: TransitionRow)
    requires SourcesOk(s) && UniqueKeys(s.versions, VersionKey)
    requires TransitionRefused(s, t).None? && t.position == NextPosition(s)
    requires Extends(s, s') && s'.versions == s.versions
    ensures TransitionRecordOk(s', t)
  {
    TransitionAdmits(s, t);
    CurrentIsCurrentAt(s, t.definition);
    CurrentAtIn(s, s', t.definition, t.definitionVersion, t.position);
    LookupsStable(s, s');
    UnorderedStable(s, s', t, Outcome(s, t.outcome).value);
  }

  lemma NewFindingOccurrence(s: Store, s': Store, f: FindingOccurrenceRow)
    requires FindingOccurrenceRefused(s, f).None? && Extends(s, s')
    ensures FindingOccurrenceOk(s', f)
  {
    LookupsStable(s, s');
    LineageStable(s, s', Finding(s, f.finding).value.scope, f.lineage);
  }

  // ----- the rows of every table pass validation after an accepted command

  lemma RecordsAfterSource(s: Store, s': Store)
    requires OldRecordsOk(s, s')
    requires s'.requests == s.requests && s'.attempts == s.attempts && s'.outcomes == s.outcomes
    requires s'.occurrences == s.occurrences && s'.baselines == s.baselines && s'.transitions == s.transitions
    requires s'.findings == s.findings && s'.findingOccurrences == s.findingOccurrences
    ensures RecordsOk(s')
  {
  }

  lemma RecordsAfterRequest(s: Store, s': Store, r: RequestRow)
    requires OldRecordsOk(s, s') && RequestOk(s', r)
    requires s' == s.(ledger := s'.ledger, requests := s.requests + [r])
    ensures RecordsOk(s')
  {
  }

  lemma RecordsAfterAttempt(s: Store, s': Store, a: AttemptRow)
    requires OldRecordsOk(s, s') && AttemptOk(s', a)
    requires s' == s.(ledger := s'.ledger, attempts := s.attempts + [a])
    ensures RecordsOk(s')
  {
  }

  lemma RecordsAfterOutcome(s: Store, s': Store, o: OutcomeRow)
    requires OldRecordsOk(s, s') && OutcomeOk(s', o)
    requires s' == s.(ledger := s'.ledger, outcomes := s.outcomes + [o])
    ensures RecordsOk(s')
  {
  }

  lemma RecordsAfterOccurrence(s: Store, s': Store, d: OccurrenceRow)
    requires OldRecordsOk(s, s') && OccurrenceOk(s', d)
    requires s' == s.(ledger := s'.ledger, occurrences := s.occurrences + [d], links := s'.links)
    ensures RecordsOk(s')
  {
  }

  lemma RecordsAfterBaseline(s: Store, s': Store, b: BaselineRow)
    requires OldRecordsOk(s, s') && BaselineOk(s', b)
    requires s' == s.(ledger := s'.ledger, baselines := s.baselines + [b], heads := s'.heads)
    ensures RecordsOk(s')
  {
  }

  lemma RecordsAfterTransition(s: Store, s': Store, t: TransitionRow)
    requires OldRecordsOk(s, s') && TransitionRecordOk(s', t)
    requires s' == s.(ledger := s'.ledger, transitions := s.transitions + [t])
    ensures RecordsOk(s')
  {
  }

  lemma RecordsAfterFinding(s: Store, s': Store, f: FindingRow)
    requires OldRecordsOk(s, s') && FindingOk(s', f)
    requires s' == s.(ledger := s'.ledger, findings := s.findings + [f])
    ensures RecordsOk(s')
  {
  }

  lemma RecordsAfterFindingOccurrence(s: Store, s': Store, f: FindingOccurrenceRow)
    requires OldRecordsOk(s, s') && FindingOccurrenceOk(s', f)
    requires s' == s.(ledger := s'.ledger, findingOccurrences := s.findingOccurrences + [f])
    ensures RecordsOk(s')
  {
  }

  lemma RecordsPreserved(s: Store, c: Command)
    requires SourcesOk(s) && UniqueKeys(s.versions, VersionKey) && RecordsOk(s) && CoverageOk(s)
    requires Admitted(s, c) && AtNext(s, c) && Extends(s, Appended(s, c))
    ensures RecordsOk(Appended(s, c))
  {
    hide RecordsOk, SourcesOk, CoverageOk, RequestRefused, AttemptRefused, OutcomeRefused,
         BaselineRefused, TransitionRefused, FindingOccurrenceRefused;
    var s' := Appended(s, c);
    RecordsStable(s, s');
    match c
    case RegisterRequest(r) => NewRequest(s, s', r); RecordsAfterRequest(s, s', r);
    case StartAttempt(a) => NewAttempt(s, s', a); RecordsAfterAttempt(s, s', a);
    case RecordOutcome(o) => NewOutcome(s, s', o); RecordsAfterOutcome(s, s', o);
    case RecordOccurrence(d) => NewOccurrence(s, s', d); RecordsAfterOccurrence(s, s', d);
    case DecideBaseline(b) => NewBaseline(s, s', b); RecordsAfterBaseline(s, s', b);
    case RecordTransition(t) => NewTransition(s, s', t); RecordsAfterTransition(s, s', t);
    case OpenFinding(f) => LineageStable(s, s', f.scope, f.lineage); RecordsAfterFinding(s, s', f);
    case RecordFindingOccurrence(f) =>
      NewFindingOccurrence(s, s', f);
      RecordsAfterFindingOccurrence(s, s', f);
    case _ => RecordsAfterSource(s, s');
  }

  // ----- ledger coverage

  lemma PositionsAppend(ledger: seq<EventKind>, e: EventKind, k: EventKind)
    ensures PositionsOf(ledger + [e], k) == PositionsOf(ledger, k) + (if e == k then [|ledger| + 1] else [])
  {
    assert (ledger + [e])[..|ledger|] == ledger;
  }

  /** A table lists its events after an append if it got a row exactly when the event was of its kind. */
  lemma TableCovered<T>(rows: seq<T>, rows': seq<T>, position: T -> nat, ledger: seq<EventKind>, e: EventKind, k: EventKind)
    requires Column(rows, position) == PositionsOf(ledger, k)
    requires e != k ==> rows' == rows
    requires e == k ==> |rows'| == |rows| + 1 && rows'[..|rows|] == rows && position(rows'[|rows|]) == |ledger| + 1
    ensures Column(rows', position) == PositionsOf(ledger + [e], k)
  {
    PositionsAppend(ledger, e, k);
    if e == k { assert Column(rows', position) == Column(rows, position) + [|ledger| + 1]; }
  }

  lemma CoveragePreserved(s: Store, c: Command)
    requires CoverageOk(s) && AtNext(s, c)
    ensures CoverageOk(Appended(s, c))
  {
    hide Column, PositionsOf;
    var s' := Appended(s, c);
    var e := s'.ledger[|s.ledger|];
    assert s'.ledger == s.ledger + [e];
    TableCovered(s.requests, s'.requests, RequestPosition, s.ledger, e, RequestRegistered);
    TableCovered(s.attempts, s'.attempts, AttemptPosition, s.ledger, e, AttemptStarted);
    TableCovered(s.outcomes, s'.outcomes, OutcomePosition, s.ledger, e, OutcomeRecorded);
    TableCovered(s.occurrences, s'.occurrences, OccurrencePosition, s.ledger, e, OccurrenceRecorded);
    TableCovered(s.baselines, s'.baselines, BaselinePosition, s.ledger, e, BaselineDecided);
    TableCovered(s.transitions, s'.transitions, TransitionPosition, s.ledger, e, TransitionRecorded);
    TableCovered(s.findings, s'.findings, FindingPosition, s.ledger, e, FindingOpened);
    TableCovered(s.findingOccurrences, s'.findingOccurrences, FindingOccurrencePosition, s.ledger, e,
                 FindingOccurrenceRecorded);
  }

  // ----- keys and sources

  lemma UniqueAppend<T, K>(rows: seq<T>, row: T, key: T -> K)
    requires UniqueKeys(rows, key) && Find(rows, key, key(row)).None?
    ensures UniqueKeys(rows + [row], key)
  {
  }

  lemma LinksPreserved(s: Store, s': Store, c: Command)
    requires forall k :: k in s.links ==> Find(s.occurrences, OccurrenceKey, k).Some?
    requires s' == Appended(s, c)
    ensures forall k :: k in s'.links ==> Find(s'.occurrences, OccurrenceKey, k).Some?
  {
    forall k | k in s'.links ensures Find(s'.occurrences, OccurrenceKey, k).Some? {
      if Find(s.occurrences, OccurrenceKey, k).Some? {
        FindStable(s.occurrences, s'.occurrences, OccurrenceKey, k);
      } else {
        FindAppended(s.occurrences, c.occurrence, OccurrenceKey, k);
      }
    }
  }

  lemma KeysPreserved(s: Store, c: Command)
    requires KeysOk(s) && Fresh(s, c)
    ensures KeysOk(Appended(s, c))
  {
    LinksPreserved(s, Appended(s, c), c);
    match c
    case AddVersion(v) => UniqueAppend(s.versions, v, VersionKey);
    case RegisterRequest(r) => UniqueAppend(s.requests, r, RequestKey);
    case StartAttempt(a) => UniqueAppend(s.attempts, a, AttemptKey);
    case RecordOutcome(o) =>
      UniqueAppend(s.outcomes, o, OutcomeKey);
      UniqueAppend(s.outcomes, o, OutcomeAttemptKey);
    case DecideBaseline(b) => UniqueAppend(s.baselines, b, BaselineKey);
    case RecordTransition(t) => UniqueAppend(s.transitions, t, TransitionSlot);
    case _ =>
  }

  /** A source row that continues its definition: the next Version number, a Revision of a retained item. */
  predicate SourceAdmitted(s: Store, c: Command) {
    && (c.AddVersion? ==> c.version.number == NextVersionNumber(s, c.version.definition))
    && (c.AddRevision? ==>
          Item(s, c.revision.item).Some? && Item(s, c.revision.item).value.definition == c.revision.definition)
  }

  lemma SourcesPreserved(s: Store, c: Command)
    requires SourcesOk(s) && AtNext(s, c) && SourceAdmitted(s, c) && Extends(s, Appended(s, c))
    ensures SourcesOk(Appended(s, c))
  {
    var s' := Appended(s, c);
    LookupsStable(s, s');
    if c.AddVersion? {
      forall i | 0 <= i < |s.versions| && s.versions[i].definition == c.version.definition
        ensures s.versions[i].number < c.version.number
      {
        CurrentIsGreatest(s.versions, c.version.definition, i);
      }
    }
  }

  // ----- attempt chains

  predicate Numbered(chain: seq<AttemptRow>) { forall i :: 0 <= i < |chain| ==> chain[i].number == i + 1 }

  lemma {:induction false} HeadIsLast(attempts: seq<AttemptRow>, request: nat)
    requires Numbered(AttemptChain(attempts, request))
    ensures var chain := AttemptChain(attempts, request);
            HeadAttempt(attempts, request) == if chain == [] then None else Some(chain[|chain| - 1])
  {
    if attempts != [] {
      var front := attempts[..|attempts| - 1];
      var chain, frontChain := AttemptChain(attempts, request), AttemptChain(front, request);
      assert frontChain == chain[..|frontChain|];
      HeadIsLast(front, request);
    }
  }

  lemma ChainAppend(attempts: seq<AttemptRow>, a: AttemptRow, request: nat)
    ensures AttemptChain(attempts + [a], request) ==
            AttemptChain(attempts, request) + (if a.request == request then [a] else [])
  {
    assert (attempts + [a])[..|attempts|] == attempts;
  }

  lemma ChainStable(s: Store, s': Store, chain: seq<AttemptRow>)
    requires Extends(s, s') && ChainOk(s, chain)
    ensures ChainOk(s', chain)
  {
    LookupsStable(s, s');
    forall i | 0 <= i < |chain| ensures LinkOk(s', chain, i) { assert LinkOk(s, chain, i); }
  }

  lemma ChainGrows(s: Store, a: AttemptRow)
    requires ChainOk(s, AttemptChain(s.attempts, a.request)) && AttemptRefused(s, a).None?
    ensures ChainOk(s, AttemptChain(s.attempts, a.request) + [a])
  {
    var chain := AttemptChain(s.attempts, a.request);
    assert Numbered(chain) by {
      forall i | 0 <= i < |chain| ensures chain[i].number == i + 1 { assert LinkOk(s, chain, i); }
    }
    HeadIsLast(s.attempts, a.request);
    forall i | 0 <= i < |chain + [a]| ensures LinkOk(s, chain + [a], i) {
      if i < |chain| { assert LinkOk(s, chain, i); }
    }
  }

  lemma ChainsPreserved(s: Store, c: Command)
    requires AttemptChainsOk(s) && Extends(s, Appended(s, c))
    requires c.StartAttempt? ==> AttemptRefused(s, c.attempt).None?
    ensures AttemptChainsOk(Appended(s, c))
  {
    var s' := Appended(s, c);
    forall r ensures ChainOk(s', AttemptChain(s'.attempts, r)) {
      assert ChainOk(s, AttemptChain(s.attempts, r));
      if c.StartAttempt? {
        ChainAppend(s.attempts, c.attempt, r);
        if c.attempt.request == r { ChainGrows(s, c.attempt); }
        assert AttemptChain(s'.attempts, r) == AttemptChain(s.attempts, r)
               || AttemptChain(s'.attempts, r) == AttemptChain(s.attempts, r) + [c.attempt];
      }
      ChainStable(s, s', AttemptChain(s'.attempts, r));
    }
  }

  // ----- baseline heads

  lemma BaselineChainAppend(bs: seq<BaselineRow>, b: BaselineRow, definition: nat)
    ensures BaselineChain(bs + [b], definition) ==
            BaselineChain(bs, definition) + (if b.definition == definition then [b] else [])
  {
    assert (bs + [b])[..|bs|] == bs;
  }

  /** The compare-and-advance rule on the head row. */
  predicate FollowsHead(s: Store, b: BaselineRow) {
    if b.definition in s.heads
    then !b.kind.Establish? && b.previous == Some(s.heads[b.definition].current)
    else b.kind.Establish? && b.previous.None?
  }

  lemma BaselineAdmits(s: Store, b: BaselineRow)
    requires BaselineRefused(s, b).None?
    ensures FollowsHead(s, b)
  {
  }

  lemma HeadAdvances(s: Store, s': Store, b: BaselineRow, d: nat)
    requires LineageOk(BaselineChain(s.baselines, d)) && HeadOk(s, d) && FollowsHead(s, b)
    requires s'.baselines == s.baselines + [b]
    requires s'.heads == s.heads[b.definition := BaselineHead(b.id, b.decidedAt)]
    ensures LineageOk(BaselineChain(s'.baselines, d)) && HeadOk(s', d)
  {
    BaselineChainAppend(s.baselines, b, d);
    var chain, chain' := BaselineChain(s.baselines, d), BaselineChain(s'.baselines, d);
    if b.definition == d {
      forall i | 0 <= i < |chain'| ensures LineageLinkOk(chain', i) {
        if i < |chain| { assert LineageLinkOk(chain, i); }
      }
    } else {
      assert chain' == chain;
    }
  }

  lemma HeadsPreserved(s: Store, c: Command)
    requires BaselineHeadsOk(s) && (c.DecideBaseline? ==> BaselineRefused(s, c.baseline).None?)
    ensures BaselineHeadsOk(Appended(s, c))
  {
    var s' := Appended(s, c);
    if c.DecideBaseline? {
      BaselineAdmits(s, c.baseline);
      forall d ensures LineageOk(BaselineChain(s'.baselines, d)) && HeadOk(s', d) {
        HeadAdvances(s, s', c.baseline, d);
      }
    } else {
      HeadsUntouched(s, s');
    }
  }

  lemma HeadsUntouched(s: Store, s': Store)
    requires BaselineHeadsOk(s) && s'.baselines == s.baselines && s'.heads == s.heads
    ensures BaselineHeadsOk(s')
  {
    forall d ensures LineageOk(BaselineChain(s'.baselines, d)) && HeadOk(s', d) {
      assert LineageOk(BaselineChain(s.baselines, d)) && HeadOk(s, d);
    }
  }

  // ----- whole runs

  lemma CommitExtends(s: Store, c: Command)
    requires KeysOk(s) && AtNext(s, c) && Fresh(s, c)
    ensures Extends(s, Appended(s, c))
  {
    AppendedExtends(s, c);
  }

  lemma AdmittedSources(s: Store, c: Command)
    requires Admitted(s, c)
    ensures AtNext(s, c) && Fresh(s, c) && SourceAdmitted(s, c)
  {
    PlacedAtNext(s, c);
    AdmittedFresh(s, c);
  }

  /** One commit keeps everything the invariant says, and only appends. */
  lemma CommitKeeps(s: Store, c: Command)
    requires Inv(s) && Admitted(s, c)
    ensures Inv(Appended(s, c)) && Extends(s, Appended(s, c))
  {
    AdmittedSources(s, c);
    CommitExtends(s, c);
    KeysPreserved(s, c);
    SourcesPreserved(s, c);
    RecordsPreserved(s, c);
    ChainsPreserved(s, c);
    HeadsPreserved(s, c);
    CoveragePreserved(s, c);
  }

  lemma PlacedIdempotent(s: Store, c: Command)
    ensures Placed(s, Placed(s, c)) == Placed(s, c)
  {
    if c.RecordOutcome? && Request(s, c.outcome.request).Some? {
      ResolveIdempotent(s, Request(s, c.outcome.request).value.trigger, c.outcome.definition, c.outcome.observed);
    }
  }

  lemma StepKeeps(s: Store, c: Command)
    requires Inv(s)
    ensures Inv(Step(s, c))
  {
    hide Inv;
    PlacedIdempotent(s, c);
    if Refused(s, Placed(s, c)).None? { CommitKeeps(s, Placed(s, c)); }
  }

  lemma {:induction false} RunKeeps(s: Store, cs: seq<Command>)
    requires Inv(s)
    ensures Inv(Run(s, cs))
    decreases cs
  {
    hide Inv, Step;
    if cs != [] {
      StepKeeps(s, cs[0]);
      RunKeeps(Step(s, cs[0]), cs[1..]);
    }
  }
}
