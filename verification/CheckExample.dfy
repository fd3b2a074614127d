/**
 * One run of admitted commands that builds a store with an Agenda block and a reactivation, and three
 * admitted commands after it, one of each kind that disturbs a retained transition. It also shows that
 * the stores the other modules speak about exist.
 */
module CheckExample {
  import opened Common
  import opened CheckModel
  import opened CheckHistory
  import opened CheckEvidence
  import opened CheckCommit
  import opened CheckIntegrity
  import opened CheckRuns
  import opened CheckFrame
  import opened CheckStateMachine

  const ITEM := Derived(1, 7)
  const CONTRACT := SnapshotContract(0, 0, 0, 0)
  const NO_DIGESTS := ContentDigests(None, None, None, None)
  const VERSION := VersionRow(1, 1, 1, 0, 0, 0, PlannedAgenda, {0}, 1)
  const SOURCE_ITEM := ItemRow(ITEM, 1, 1, 7)

  // ----- the rows, numbered from 1; Outcomes and their attempts share their number

  function RevisionOf(k: nat): RevisionRow { RevisionRow(k, ITEM, 1, 0) }
  function RepresentationOf(k: nat): RepresentationRow { RepresentationRow(k, k, 1, k, 0) }
  function RequestOf(k: nat): RequestRow { RequestRow(k, 1, 1, OtherTrigger, CONTRACT, 0, 0, 0, 0, 0, 0, 12 + k) }
  function AttemptOf(k: nat): AttemptRow { AttemptRow(k, k, 1, None, 0, 0, 0, 18 + k) }

  /** The Revision the k-th Outcome saw: the fourth saw the third one again. */
  function SeenAt(k: nat): nat { if k == 4 then 3 else k }

  function OutcomeAt(k: nat, completedAt: nat, position: nat): OutcomeRow {
    OutcomeRow(k, k, k, k, 1, 1, SuccessChanged, false, false, Some(3), NO_DIGESTS,
               [ObservedItem(7, SeenAt(k), ITEM)], completedAt, position)
  }

  function OutcomeOf(k: nat): OutcomeRow { OutcomeAt(k, 10 * k, 24 + k) }

  function OccurrenceAt(id: nat, k: nat, kind: nat, position: nat): OccurrenceRow {
    OccurrenceRow(id, k, SeenAt(k), SeenAt(k), 1, 1, kind, 10 * k, 3, position)
  }

  function OccurrenceOf(k: nat): OccurrenceRow { OccurrenceAt(k, k, 0, 29 + k) }

  function KindAt(k: nat): TransitionKind {
    if k == 1 then AgendaCreated else if k == 2 then AgendaRescheduled else if k == 3 then ResolvedOrCleared
    else if k == 4 then Reobserved else Reactivated
  }

  function TransitionAt(k: nat, position: nat): TransitionRow {
    TransitionRow(k, 1, 1, k, ITEM, KindAt(k), PlannedAgenda, if k <= 1 then None else Some(SeenAt(k - 1)),
                  Some(CurrentState(SeenAt(k), SeenAt(k))), None, 0, Unguarded, 10 * k, position)
  }

  /** The run commits the transitions of the Outcomes 1, 2, 3 and 5. */
  function Behind(k: nat): nat { if k == 4 then 5 else k }

  function TransitionOf(k: nat): TransitionRow { TransitionAt(Behind(k), 34 + k) }

  // ----- the store after the first n commands

  function Count(n: nat, start: nat, length: nat): nat {
    if n <= start then 0 else if n <= start + length then n - start else length
  }

  function Table<T>(n: nat, row: nat -> T): seq<T> { seq(n, i requires 0 <= i < n => row(i + 1)) }

  function EventAt(i: nat): EventKind {
    if i < 12 then SourceEvent else if i < 18 then RequestRegistered else if i < 24 then AttemptStarted
    else if i < 29 then OutcomeRecorded else if i < 34 then OccurrenceRecorded else TransitionRecorded
  }

  function Ledger(n: nat): seq<EventKind> { seq(n, i requires 0 <= i < n => EventAt(i)) }

  function Links(n: nat): map<nat, nat> { if n == 0 then map[] else Links(n - 1)[n := n] }

  function After(n: nat): Store {
    Store(Ledger(n), if n < 1 then [] else [VERSION], if n < 2 then [] else [SOURCE_ITEM],
          Table(Count(n, 2, 5), RevisionOf), Table(Count(n, 7, 5), RepresentationOf),
          Table(Count(n, 12, 6), RequestOf), Table(Count(n, 18, 6), AttemptOf), Table(Count(n, 24, 5), OutcomeOf),
          Table(Count(n, 29, 5), OccurrenceOf), Links(Count(n, 29, 5)), [], map[],
          Table(Count(n, 34, 4), TransitionOf), [], [])
  }

  function CommandAt(n: nat): Command {
    if n == 0 then AddVersion(VERSION) else if n == 1 then AddItem(SOURCE_ITEM)
    else if n < 7 then AddRevision(RevisionOf(n - 1))
    else if n < 12 then AddRepresentation(RepresentationOf(n - 6))
    else if n < 18 then RegisterRequest(RequestOf(n - 11))
    else if n < 24 then StartAttempt(AttemptOf(n - 17))
    else if n < 29 then RecordOutcome(OutcomeOf(n - 23))
    else if n < 34 then RecordOccurrence(OccurrenceOf(n - 28))
    else RecordTransition(TransitionOf(n - 33))
  }

  const END := 38

  lemma TableGrows<T>(n: nat, row: nat -> T)
    ensures Table(n, row) + [row(n + 1)] == Table(n + 1, row)
  {
  }

  lemma LedgerGrows(n: nat)
    ensures Ledger(n) + [EventAt(n)] == Ledger(n + 1)
  {
  }

  lemma AfterSource(n: nat)
    requires n < 12
    ensures Appended(After(n), CommandAt(n)) == After(n + 1)
  {
    hide RevisionOf, RepresentationOf, RequestOf, AttemptOf, OutcomeOf, OccurrenceOf, TransitionOf, Ledger, Table;
    LedgerGrows(n);
    TableGrows(Count(n, 2, 5), RevisionOf);
    TableGrows(Count(n, 7, 5), RepresentationOf);
  }

  lemma AfterCheck(n: nat)
    requires 12 <= n < 24
    ensures Appended(After(n), CommandAt(n)) == After(n + 1)
  {
    hide RevisionOf, RepresentationOf, RequestOf, AttemptOf, OutcomeOf, OccurrenceOf, TransitionOf, Ledger, Table;
    LedgerGrows(n);
    TableGrows(Count(n, 12, 6), RequestOf);
    TableGrows(Count(n, 18, 6), AttemptOf);
  }

  lemma AfterEvidence(n: nat)
    requires 24 <= n < END
    ensures Appended(After(n), CommandAt(n)) == After(n + 1)
  {
    hide RevisionOf, RepresentationOf, RequestOf, AttemptOf, OutcomeOf, TransitionOf, Ledger, Table;
    LedgerGrows(n);
    TableGrows(Count(n, 24, 5), OutcomeOf);
    TableGrows(Count(n, 29, 5), OccurrenceOf);
    TableGrows(Count(n, 34, 4), TransitionOf);
  }

  // ----- what the tables answer

  lemma FindRow<T, K>(n: nat, row: nat -> T, key: T -> K, k: nat)
    requires 1 <= k <= n && forall i, j :: 1 <= i < j <= n ==> key(row(i)) != key(row(j))
    ensures Find(Table(n, row), key, key(row(k))) == Some(row(k))
  {
    var rows := Table(n, row);
    assert rows[k - 1] == row(k);
    FindUnique(rows, key, row(k));
  }

  lemma NoRow<T, K>(n: nat, row: nat -> T, key: T -> K, id: K)
    requires forall k :: 1 <= k <= n ==> key(row(k)) != id
    ensures Find(Table(n, row), key, id).None?
  {
  }

  lemma RowNumber<T>(n: nat, row: nat -> T, x: T) returns (k: nat)
    requires x in Table(n, row)
    ensures 1 <= k <= n && x == row(k)
  {
    var i :| 0 <= i < n && Table(n, row)[i] == x;
    k := i + 1;
  }

  /** The tables by name, so that no proof needs the whole store. */
  lemma Tables(n: nat)
    ensures var s := After(n);
            && |s.ledger| == n && s.versions == (if n < 1 then [] else [VERSION])
            && s.requests == Table(Count(n, 12, 6), RequestOf) && s.attempts == Table(Count(n, 18, 6), AttemptOf)
            && s.outcomes == Table(Count(n, 24, 5), OutcomeOf) && s.occurrences == Table(Count(n, 29, 5), OccurrenceOf)
            && s.transitions == Table(Count(n, 34, 4), TransitionOf)
  {
  }

  lemma SourceRows(n: nat)
    ensures n >= 1 ==> CurrentVersion(After(n).versions, 1) == Some(VERSION)
    ensures n >= 2 ==> Item(After(n), ITEM) == Some(SOURCE_ITEM)
    ensures forall k :: 1 <= k <= Count(n, 2, 5) ==> Revision(After(n), k) == Some(RevisionOf(k))
    ensures forall k :: 1 <= k <= Count(n, 7, 5) ==> Representation(After(n), k) == Some(RepresentationOf(k))
  {
    forall k: nat | 1 <= k <= Count(n, 2, 5) ensures Revision(After(n), k) == Some(RevisionOf(k)) {
      FindRow(Count(n, 2, 5), RevisionOf, RevisionKey, k);
    }
    forall k: nat | 1 <= k <= Count(n, 7, 5) ensures Representation(After(n), k) == Some(RepresentationOf(k)) {
      FindRow(Count(n, 7, 5), RepresentationOf, RepresentationKey, k);
    }
  }

  lemma CheckRows(n: nat)
    ensures forall k :: 1 <= k <= Count(n, 12, 6) ==> Request(After(n), k) == Some(RequestOf(k))
    ensures forall k :: 1 <= k <= Count(n, 18, 6) ==> Attempt(After(n), k) == Some(AttemptOf(k))
    ensures forall k :: 1 <= k <= Count(n, 24, 5) ==> Outcome(After(n), k) == Some(OutcomeOf(k))
  {
    forall k: nat | 1 <= k <= Count(n, 12, 6) ensures Request(After(n), k) == Some(RequestOf(k)) {
      FindRow(Count(n, 12, 6), RequestOf, RequestKey, k);
    }
    forall k: nat | 1 <= k <= Count(n, 18, 6) ensures Attempt(After(n), k) == Some(AttemptOf(k)) {
      FindRow(Count(n, 18, 6), AttemptOf, AttemptKey, k);
    }
    forall k: nat | 1 <= k <= Count(n, 24, 5) ensures Outcome(After(n), k) == Some(OutcomeOf(k)) {
      FindRow(Count(n, 24, 5), OutcomeOf, OutcomeKey, k);
    }
  }

  lemma UnusedCheck(n: nat)
    ensures forall k :: Count(n, 12, 6) < k ==> Request(After(n), k).None?
    ensures forall k :: Count(n, 18, 6) < k ==> Attempt(After(n), k).None?
  {
    forall k: nat | Count(n, 12, 6) < k ensures Request(After(n), k).None? {
      NoRow(Count(n, 12, 6), RequestOf, RequestKey, k);
    }
    forall k: nat | Count(n, 18, 6) < k ensures Attempt(After(n), k).None? {
      NoRow(Count(n, 18, 6), AttemptOf, AttemptKey, k);
    }
  }

  lemma UnusedOutcome(n: nat, k: nat)
    requires Count(n, 24, 5) < k
    ensures Outcome(After(n), k).None? && OutcomeOfAttempt(After(n), k).None?
    ensures Find(After(n).outcomes, OutcomeProposalKey, k).None?
  {
    NoRow(Count(n, 24, 5), OutcomeOf, OutcomeKey, k);
    NoRow(Count(n, 24, 5), OutcomeOf, OutcomeAttemptKey, k);
    NoRow(Count(n, 24, 5), OutcomeOf, OutcomeProposalKey, k);
  }

  lemma UnusedOccurrence(n: nat, d: OccurrenceRow)
    requires Count(n, 29, 5) < d.id && (d.kind == 0 ==> Count(n, 29, 5) < d.outcome)
    ensures Find(After(n).occurrences, OccurrenceKey, d.id).None?
    ensures Find(After(n).occurrences, OccurrenceSlot, OccurrenceSlot(d)).None?
  {
    NoRow(Count(n, 29, 5), OccurrenceOf, OccurrenceKey, d.id);
    NoRow(Count(n, 29, 5), OccurrenceOf, OccurrenceSlot, OccurrenceSlot(d));
  }

  // ----- the commands are admitted

  /** The command is admitted as it stands and produces the next store. */
  ghost predicate Leads(s: Store, c: Command, s': Store) { Admitted(s, c) && Appended(s, c) == s' }

  lemma LeadsSource(n: nat)
    requires n < 12
    ensures Leads(After(n), CommandAt(n), After(n + 1))
  {
    AfterSource(n);
    SourceRows(n);
    hide Appended;
  }

  lemma {:induction false} NoHead(n: nat, k: nat)
    requires n < k
    ensures HeadAttempt(Table(n, AttemptOf), k).None?
    decreases n
  {
    if n > 0 {
      NoHead(n - 1, k);
      assert Table(n, AttemptOf)[..n - 1] == Table(n - 1, AttemptOf);
    }
  }

  lemma LeadsRequest(n: nat)
    requires 12 <= n < 18
    ensures Leads(After(n), CommandAt(n), After(n + 1))
  {
    hide Appended, After, Table;
    AfterCheck(n);
    SourceRows(n);
    UnusedCheck(n);
    Tables(n);
  }

  lemma LeadsAttempt(n: nat)
    requires 18 <= n < 24
    ensures Leads(After(n), CommandAt(n), After(n + 1))
  {
    hide Appended, After, Table;
    AfterCheck(n);
    CheckRows(n);
    UnusedCheck(n);
    Tables(n);
    NoHead(n - 18, n - 17);
  }

  /** The observed key of any Outcome resolves to the item. */
  lemma Resolved(s: Store, o: ObservedItem)
    requires o.key == 7 && o.item == ITEM
    ensures Resolve(s, OtherTrigger, 1, [o]) == Some([o])
    ensures Matching([o], ITEM, o.digest) == [o]
  {
    assert [o][1..] == [];
    assert Resolve(s, OtherTrigger, 1, []) == Some([]);
    assert [o.(item := ITEM)] + [] == [o];
    assert Matching([], ITEM, o.digest) == [];
  }

  /** An Outcome of the k-th attempt is admitted while it has none. */
  lemma OutcomeAdmitted(n: nat, k: nat, completedAt: nat)
    requires 24 <= n <= END && Count(n, 24, 5) < k <= 6
    ensures Admitted(After(n), RecordOutcome(OutcomeAt(k, completedAt, n + 1)))
  {
    hide After, Table, Resolve;
    CheckRows(n);
    Tables(n);
    Resolved(After(n), ObservedItem(7, SeenAt(k), ITEM));
    UnusedOutcome(n, k);
  }

  /** An Occurrence of what the k-th Outcome saw is admitted under a new identity and slot. */
  lemma OccurrenceAdmitted(n: nat, id: nat, k: nat, kind: nat)
    requires 29 <= n <= END && 1 <= k <= 5 && Count(n, 29, 5) < id && (kind == 0 ==> Count(n, 29, 5) < k)
    ensures Admitted(After(n), RecordOccurrence(OccurrenceAt(id, k, kind, n + 1)))
  {
    hide After, Table, Resolve, Matching;
    CheckRows(n);
    SourceRows(n);
    Tables(n);
    Resolved(After(n), ObservedItem(7, SeenAt(k), ITEM));
    UnusedOccurrence(n, OccurrenceAt(id, k, kind, n + 1));
  }

  // ----- the history of the item

  lemma PriorIs(n: nat, k: nat)
    requires 29 <= n && 1 <= k <= 5
    ensures PriorOutcome(After(n).outcomes, ITEM, k, BoundaryOf(OutcomeOf(k))) ==
            if k == 1 then None else Some(OutcomeOf(k - 1))
  {
    Tables(n);
    var os, b := After(n).outcomes, BoundaryOf(OutcomeOf(k));
    assert k > 1 ==> os[k - 2] == OutcomeOf(k - 1);
    hide After, Table;
    PriorOutcomeObserved(os, ITEM, k, b);
    var r := PriorOutcome(os, ITEM, k, b);
    if r.Some? { var j := RowNumber(5, OutcomeOf, r.value); }
    if k > 1 {
      assert OutcomeOf(k - 1).observed[0].item == ITEM;
      PriorOutcomeLatest(os, ITEM, k, b, OutcomeOf(k - 1));
    }
  }

  lemma {:induction false} RetainedIs(s: Store, n: nat, k: nat)
    requires forall j :: 1 <= j <= n ==> RevisionItem(s, SeenAt(j)) == Some(ITEM)
    ensures OccurrencesFor(s, Table(n, OccurrenceOf), k, ITEM) == if 1 <= k <= n then [OccurrenceOf(k)] else []
    decreases n
  {
    hide RevisionItem;
    if n > 0 {
      RetainedIs(s, n - 1, k);
      assert Table(n, OccurrenceOf)[..n - 1] == Table(n - 1, OccurrenceOf);
      assert Table(n, OccurrenceOf)[n - 1] == OccurrenceOf(n);
      assert RevisionItem(s, SeenAt(n)) == Some(ITEM);
    }
  }

  /** The transition committed last is the predecessor of the next one. */
  lemma PredecessorIs(n: nat, t: TransitionRow)
    requires 34 <= n <= END && t.item == ITEM && t.outcome == (if n == END then 5 else Behind(n - 33))
    ensures Outcome(After(n), t.outcome) == Some(OutcomeOf(t.outcome))
    ensures n < END ==>
              KindOf(LatestTransition(After(n), ITEM, BoundaryOf(OutcomeOf(t.outcome)))) ==
              if n == 34 then None else Some(KindAt(Behind(n - 34)))
  {
    var m, s := n - 34, After(n);
    Tables(n);
    CheckRows(n);
    assert m > 0 ==> s.transitions[m - 1] == TransitionOf(m);
    hide After, Table, LatestTransition;
    if n < END {
      if Predecessor(s, t).Some? {
        PredecessorBefore(s, t);
        var j := RowNumber(m, TransitionOf, Predecessor(s, t).value);
      }
      if m > 0 { PredecessorAdjacent(s, t, TransitionOf(m)); }
    }
  }

  lemma EachSeen(n: nat, k: nat)
    requires 12 <= n && 1 <= k <= 5
    ensures RevisionItem(After(n), SeenAt(k)) == Some(ITEM)
    ensures Representation(After(n), SeenAt(k)) == Some(RepresentationOf(SeenAt(k)))
  {
    hide After;
    SourceRows(n);
  }

  /** The history verdict of the next transition, or of the fourth Outcome's, which the run leaves out. */
  lemma HistoryPasses(n: nat, k: nat, position: nat)
    requires 34 <= n <= END && k == if n == END then 4 else Behind(n - 33)
    ensures TransitionHistoryError(After(n), TransitionAt(k, position)).None?
  {
    hide After, Table, PriorOutcome, LatestTransition, OccurrencesFor;
    CheckRows(n);
    PriorIs(n, k);
    forall j | 1 <= j <= 5 ensures RevisionItem(After(n), SeenAt(j)) == Some(ITEM) { EachSeen(n, j); }
    Tables(n);
    if k > 1 { RetainedIs(After(n), 5, k - 1); }
    if n < END { PredecessorIs(n, TransitionAt(k, position)); }
  }

  lemma EvidencePasses(n: nat, k: nat, position: nat)
    requires 34 <= n <= END && k == if n == END then 4 else Behind(n - 33)
    ensures TransitionEvidenceError(After(n), TransitionAt(k, position)).None?
  {
    Tables(n);
    assert After(n).occurrences[k - 1] == OccurrenceOf(k);
    hide After, Table, TransitionHistoryError;
    CheckRows(n);
    HistoryPasses(n, k, position);
    assert OccurrenceOf(k) in After(n).occurrences;
  }

  lemma UnusedTransition(n: nat, k: nat, position: nat)
    requires forall j :: 1 <= j <= Count(n, 34, 4) ==> Behind(j) != k
    ensures Find(After(n).transitions, TransitionKey, k).None?
    ensures Find(After(n).transitions, TransitionSlot, TransitionSlot(TransitionAt(k, position))).None?
  {
    NoRow(Count(n, 34, 4), TransitionOf, TransitionKey, k);
    NoRow(Count(n, 34, 4), TransitionOf, TransitionSlot, TransitionSlot(TransitionAt(k, position)));
  }

  lemma TransitionShaped(k: nat, position: nat)
    requires 1 <= k <= 5
    ensures WellShaped(TransitionAt(k, position))
  {
  }

  lemma TransitionAdmitted(n: nat, k: nat)
    requires 34 <= n <= END && k == if n == END then 4 else Behind(n - 33)
    ensures Admitted(After(n), RecordTransition(TransitionAt(k, n + 1)))
  {
    hide After, Table, TransitionEvidenceError, WellShaped, Outcome, Request, Item, Revision, Representation, CurrentVersion;
    EvidencePasses(n, k, n + 1);
    TransitionShaped(k, n + 1);
    CheckRows(n);
    SourceRows(n);
    Tables(n);
    EachSeen(n, k);
    if k > 1 { EachSeen(n, k - 1); }
    UnusedTransition(n, k, n + 1);
  }

  lemma LeadsEvidence(n: nat)
    requires 24 <= n < END
    ensures Leads(After(n), CommandAt(n), After(n + 1))
  {
    hide After, Appended, Admitted;
    AfterEvidence(n);
    if n < 29 {
      OutcomeAdmitted(n, n - 23, 10 * (n - 23));
    } else if n < 34 {
      OccurrenceAdmitted(n, n - 28, n - 28, 0);
    } else {
      TransitionAdmitted(n, Behind(n - 33));
    }
  }

  // ----- the run

  /** Such a command performs one step, keeps the invariant, and keeps acceptance unless it is backdated. */
  lemma Performs(s: Store, c: Command)
    requires Inv(s) && Admitted(s, c)
    ensures Step(s, c) == Appended(s, c) && Inv(Appended(s, c))
    ensures Accepted(s) ==> (Accepted(Appended(s, c)) <==> !Backdated(s, c))
  {
    hide Inv, Refused, Appended, Accepted, Backdated;
    ReadBackNeverFires(s, c);
    CommitKeeps(s, c);
    if Accepted(s) { StepAccepted(s, c); }
  }

  /** Every transition of the run belongs to a later Outcome than those before it. */
  lemma InOrder(n: nat)
    requires n < END && Inv(After(n))
    ensures !Backdated(After(n), CommandAt(n))
  {
    hide Inv, After, Table, Refused, LatestTransition;
    var s, c := After(n), CommandAt(n);
    Tables(n);
    CheckRows(n);
    forall t | t in s.transitions && Outcome(s, t.outcome).Some? ensures !Disturbs(s, Placed(s, c), t) {
      var j := RowNumber(Count(n, 34, 4), TransitionOf, t);
      assert n >= 34 && Outcome(s, t.outcome) == Some(OutcomeOf(Behind(j)));
    }
  }

  lemma {:induction false} Reached(n: nat)
    requires n <= END
    ensures Inv(After(n)) && Accepted(After(n))
    decreases n
  {
    hide Inv, Accepted, After, CommandAt, Admitted, Appended, Backdated;
    if n == 0 {
      AcceptedEmpty();
    } else {
      Reached(n - 1);
      if n <= 12 { LeadsSource(n - 1); }
      else if n <= 18 { LeadsRequest(n - 1); }
      else if n <= 24 { LeadsAttempt(n - 1); }
      else { LeadsEvidence(n - 1); }
      InOrder(n - 1);
      Performs(After(n - 1), CommandAt(n - 1));
    }
  }

  lemma AcceptedEmpty()
    ensures After(0) == EMPTY && Inv(EMPTY) && Accepted(EMPTY)
  {
    EmptyInv();
  }

  /** The commands of the run, in order. */
  function Commands(n: nat): seq<Command> { seq(n, i requires 0 <= i < n => CommandAt(i)) }

  lemma {:induction false} RunLast(s: Store, cs: seq<Command>, c: Command)
    ensures Run(s, cs + [c]) == Step(Run(s, cs), c)
    decreases cs
  {
    hide Step;
    if cs == [] {
      assert ([] + [c])[1..] == [];
    } else {
      assert (cs + [c])[1..] == cs[1..] + [c];
      RunLast(Step(s, cs[0]), cs[1..], c);
    }
  }

  lemma StepLeads(n: nat)
    requires n < END
    ensures Step(After(n), CommandAt(n)) == After(n + 1)
  {
    hide Inv, Accepted, After, CommandAt, Admitted, Appended, Backdated, Step;
    Reached(n);
    if n < 12 { LeadsSource(n); }
    else if n < 18 { LeadsRequest(n); }
    else if n < 24 { LeadsAttempt(n); }
    else { LeadsEvidence(n); }
    Performs(After(n), CommandAt(n));
  }

  lemma CommandsNext(n: nat)
    ensures Commands(0) == [] && Commands(n + 1) == Commands(n) + [CommandAt(n)]
  {
    hide CommandAt;
  }

  /** The tables are what the commands lead to from the empty store. */
  lemma {:induction false} RunReaches(n: nat)
    requires n <= END
    ensures Run(EMPTY, Commands(n)) == After(n)
    decreases n
  {
    if n == 0 {
      CommandsNext(0);
      AcceptedEmpty();
      hide *;
      RunNone(EMPTY);
    } else {
      hide *;
      RunReaches(n - 1);
      StepLeads(n - 1);
      CommandsNext(n - 1);
      RunLast(EMPTY, Commands(n - 1), CommandAt(n - 1));
    }
  }

  lemma RunNone(s: Store)
    ensures Run(s, []) == s
  {
  }

  // ----- what the run built, and what disturbs it

  lemma Retained(k: nat)
    requires 1 <= k <= 4
    ensures TransitionOf(k) in After(END).transitions
    ensures Outcome(After(END), Behind(k)) == Some(OutcomeOf(Behind(k)))
  {
    assert After(END).transitions[k - 1] == TransitionOf(k);
    CheckRows(END);
  }

  /** A store that commits built, that opens, and that holds an Agenda block and a reactivation. */
  lemma BlockAndReactivation()
    ensures var s := Run(EMPTY, Commands(END));
            && Inv(s) && Accepted(s) && Settled(s)
            && AgendaBlock(s, [TransitionOf(2), TransitionOf(1)])
            && TransitionOf(4) in s.transitions && TransitionOf(4).kind.Reactivated?
  {
    hide After, Table, Inv, Accepted, Settled, Predecessor, Outcome, Run;
    RunReaches(END);
    var s, t := After(END), TransitionOf(2);
    Reached(END);
    AcceptedSettles(s);
    Retained(1);
    Retained(2);
    Retained(4);
    AgendaPredecessor(s, t);
    OnlyCreationBefore(s);
    assert [t, TransitionOf(1)][1..] == [TransitionOf(1)];
  }

  lemma OnlyCreationBefore(s: Store)
    requires s == After(END) && Outcome(s, 2) == Some(OutcomeOf(2)) && Predecessor(s, TransitionOf(2)).Some?
    ensures Predecessor(s, TransitionOf(2)) == Some(TransitionOf(1))
  {
    hide After, Table, Predecessor;
    Tables(END);
    CheckRows(END);
    PredecessorBefore(s, TransitionOf(2));
    var j := RowNumber(4, TransitionOf, Predecessor(s, TransitionOf(2)).value);
    assert Outcome(s, Behind(j)) == Some(OutcomeOf(Behind(j)));
  }

  /** The store opens before the command and does not after it. */
  ghost predicate Breaks(s: Store, c: Command) {
    Inv(s) && Accepted(s) && Step(s, c) == Appended(s, c) && Inv(Step(s, c)) && !Accepted(Step(s, c))
  }

  lemma DisturbanceBreaks(c: Command, k: nat)
    requires 1 <= k <= 4 && Admitted(After(END), c)
    requires Outcome(After(END), Behind(k)).Some? && Disturbs(After(END), c, TransitionOf(k))
    ensures Breaks(Run(EMPTY, Commands(END)), c)
  {
    hide After, Inv, Accepted, Refused, Appended, Disturbs, Step, Run;
    Reached(END);
    RunReaches(END);
    Retained(k);
    assert Backdated(After(END), c);
    Performs(After(END), c);
  }

  /** An Outcome completed before the first one. */
  lemma BackdatedOutcomeBreaksReopening()
    ensures Breaks(Run(EMPTY, Commands(END)), RecordOutcome(OutcomeAt(6, 5, END + 1)))
  {
    hide After, Admitted, Breaks, PriorOutcome, Outcome;
    var o := OutcomeAt(6, 5, END + 1);
    OutcomeAdmitted(END, 6, 5);
    Retained(1);
    PriorIs(END, 1);
    assert o.observed[0].item == ITEM;
    assert OutcomeDisturbs(After(END), o, TransitionOf(1));
    DisturbanceBreaks(RecordOutcome(o), 1);
  }

  /** A second Occurrence on the Outcome before the reactivation. */
  lemma SecondOccurrenceBreaksReopening()
    ensures Breaks(Run(EMPTY, Commands(END)), RecordOccurrence(OccurrenceAt(6, 4, 1, END + 1)))
  {
    hide After, Admitted, Breaks, PriorOutcome, Outcome, RevisionItem;
    var d := OccurrenceAt(6, 4, 1, END + 1);
    OccurrenceAdmitted(END, 6, 4, 1);
    Retained(4);
    PriorIs(END, 5);
    EachSeen(END, 4);
    assert OccurrenceDisturbs(After(END), d, TransitionOf(4));
    DisturbanceBreaks(RecordOccurrence(d), 4);
  }

  /** The transition the run left out, between the ending and the reactivation. */
  lemma LateTransitionBreaksReopening()
    ensures Breaks(Run(EMPTY, Commands(END)), RecordTransition(TransitionAt(4, END + 1)))
  {
    hide After, Admitted, Breaks, LatestTransition, Outcome;
    var s, u := After(END), TransitionAt(4, END + 1);
    TransitionAdmitted(END, 4);
    Retained(4);
    CheckRows(END);
    var latest := LatestTransition(s, ITEM, BoundaryOf(OutcomeOf(5)));
    if latest.Some? { LatestIsEarlier(s, latest.value); }
    assert TransitionDisturbs(s, u, TransitionOf(4));
    DisturbanceBreaks(RecordTransition(u), 4);
  }

  /** Whatever is latest before the reactivation is of one of the first three Outcomes. */
  lemma LatestIsEarlier(s: Store, c: Candidate<TransitionRow>)
    requires s == After(END) && LatestTransition(s, ITEM, BoundaryOf(OutcomeOf(5))) == Some(c)
    ensures c.key.completedAt <= 30
  {
    hide After, Table;
    Tables(END);
    CheckRows(END);
    TransitionCandidatesAre(s.outcomes, s.transitions, ITEM, BoundaryOf(OutcomeOf(5)), c);
    var j := RowNumber(4, TransitionOf, c.value);
    assert Outcome(s, Behind(j)) == Some(OutcomeOf(Behind(j)));
  }
}
