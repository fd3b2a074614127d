/**
 * The Check authority store itself: an object whose commit methods judge a request against the
 * current tables and then insert rows and one ledger event in a single transaction.
 */
module CheckAuthority {
  import opened Common
  import opened CheckModel
  import opened CheckHistory
  import opened CheckEvidence
  import opened CheckCommit
  import opened CheckIntegrity
  import opened CheckRuns
  import opened CheckFrame

  lemma RecordOutcomeSteps(s: Store, o: OutcomeRow, row: OutcomeRow)
    requires Inv(s) && row == o.(observed := IndexOf(s, o), position := NextPosition(s))
    ensures RecordOutcome(row) == Placed(s, RecordOutcome(o))
    ensures var s' := if OutcomeRefused(s, row).None?
                      then s.(ledger := s.ledger + [OutcomeRecorded], outcomes := s.outcomes + [row])
                      else s;
            && Step(s, RecordOutcome(o)) == s' && Inv(s')
            && (Commit(s, RecordOutcome(o)).Ok? <==> OutcomeRefused(s, row).None?)
  {
    hide Inv;
    StepKeeps(s, RecordOutcome(o));
    ReadBackNeverFires(s, RecordOutcome(o));
  }

  lemma RecordOccurrenceSteps(s: Store, o: OccurrenceRow, row: OccurrenceRow)
    requires Inv(s) && RecordOccurrence(row) == Placed(s, RecordOccurrence(o))
    ensures RecordOccurrence(row) == Placed(s, RecordOccurrence(o))
    ensures var s' := if OccurrenceRefused(s, row).None?
                      then s.(ledger := s.ledger + [OccurrenceRecorded], occurrences := s.occurrences + [row],
                         links := s.links[row.id := row.outcome])
                      else s;
            && Step(s, RecordOccurrence(o)) == s' && Inv(s')
            && (Commit(s, RecordOccurrence(o)).Ok? <==> OccurrenceRefused(s, row).None?)
  {
    hide Inv;
    StepKeeps(s, RecordOccurrence(o));
    ReadBackNeverFires(s, RecordOccurrence(o));
  }

  lemma DecideBaselineSteps(s: Store, b: BaselineRow, row: BaselineRow)
    requires Inv(s) && row == b.(position := NextPosition(s))
    ensures var s' := s.(ledger := s.ledger + [BaselineDecided], baselines := s.baselines + [row],
                         heads := s.heads[row.definition := BaselineHead(row.id, row.decidedAt)]);
            if BaselineRefused(s, row).None?
            then BaselineEvidenceError(s', row).None? && Step(s, DecideBaseline(b)) == s' && Inv(s')
                 && Commit(s, DecideBaseline(b)).Ok?
            else Step(s, DecideBaseline(b)) == s && Commit(s, DecideBaseline(b)).Err?
  {
    hide RecordsOk, CoverageOk, SourcesOk, AttemptChainsOk, BaselineHeadsOk, BaselineRefused, BaselineEvidenceError;
    StepKeeps(s, DecideBaseline(b));
    ReadBackNeverFires(s, DecideBaseline(b));
    if BaselineRefused(s, row).None? {
      AdmittedFresh(s, DecideBaseline(row));
      CommitExtends(s, DecideBaseline(row));
      BaselineReadBack(s, row, Appended(s, DecideBaseline(row)));
    }
  }

  lemma RecordTransitionSteps(s: Store, t: TransitionRow, row: TransitionRow)
    requires Inv(s) && row == t.(position := NextPosition(s))
    ensures var s' := s.(ledger := s.ledger + [TransitionRecorded], transitions := s.transitions + [row]);
            if TransitionRefused(s, row).None?
            then TransitionEvidenceError(s', row).None? && Step(s, RecordTransition(t)) == s' && Inv(s')
                 && Commit(s, RecordTransition(t)).Ok?
            else Step(s, RecordTransition(t)) == s && Commit(s, RecordTransition(t)).Err?
  {
    hide Inv, TransitionRefused, TransitionEvidenceError;
    StepKeeps(s, RecordTransition(t));
    ReadBackNeverFires(s, RecordTransition(t));
  }

  class Authority {
    var ledger: seq<EventKind>
    var versions: seq<VersionRow>
    var items: seq<ItemRow>
    var revisions: seq<RevisionRow>
    var representations: seq<RepresentationRow>
    var requests: seq<RequestRow>
    var attempts: seq<AttemptRow>
    var outcomes: seq<OutcomeRow>
    var occurrences: seq<OccurrenceRow>
    var links: map<nat, nat>
    var baselines: seq<BaselineRow>
    var heads: map<nat, BaselineHead>
    var transitions: seq<TransitionRow>
    var findings: seq<FindingRow>
    var findingOccurrences: seq<FindingOccurrenceRow>

    function View(): Store
      reads this
    {
      Store(ledger, versions, items, revisions, representations, requests, attempts, outcomes, occurrences,
            links, baselines, heads, transitions, findings, findingOccurrences)
    }

    constructor ()
      ensures View() == EMPTY && Inv(View())
    {
      ledger, versions, items, revisions, representations := [], [], [], [], [];
      requests, attempts, outcomes, occurrences, links := [], [], [], [], map[];
      baselines, heads, transitions, findings, findingOccurrences := [], map[], [], [], [];
      new;
      EmptyInv();
    }

    /** Registers a Check Request under the current Version of its Source Definition. */
    method CommitRequest(request: RequestRow) returns (error: Option<CheckError>)
      requires Inv(View())
      modifies this`ledger, this`requests
      ensures Inv(View()) && View() == Step(old(View()), RegisterRequest(request))
      ensures error.None? <==> Commit(old(View()), RegisterRequest(request)).Ok?
    {
      hide Inv;
      StepKeeps(View(), RegisterRequest(request));
      ReadBackNeverFires(View(), RegisterRequest(request));
      var row := request.(position := NextPosition(View()));
      error := RequestRefused(View(), row);
      if error.None? {
        ledger := ledger + [RequestRegistered];
        requests := requests + [row];
      }
    }

    /** Starts the next attempt of a Request, once the previous one has its Outcome. */
    method CommitAttempt(attempt: AttemptRow) returns (error: Option<CheckError>)
      requires Inv(View())
      modifies this`ledger, this`attempts
      ensures Inv(View()) && View() == Step(old(View()), StartAttempt(attempt))
      ensures error.None? <==> Commit(old(View()), StartAttempt(attempt)).Ok?
    {
      hide Inv;
      StepKeeps(View(), StartAttempt(attempt));
      ReadBackNeverFires(View(), StartAttempt(attempt));
      var row := attempt.(position := NextPosition(View()));
      error := AttemptRefused(View(), row);
      if error.None? {
        ledger := ledger + [AttemptStarted];
        attempts := attempts + [row];
      }
    }

    /** Records the Outcome of an attempt with the observed-item index derived from its keys. */
    method CommitOutcome(outcome: OutcomeRow) returns (error: Option<CheckError>)
      requires Inv(View())
      modifies this`ledger, this`outcomes
      ensures Inv(View()) && View() == Step(old(View()), RecordOutcome(outcome))
      ensures error.None? <==> Commit(old(View()), RecordOutcome(outcome)).Ok?
    {
      hide Inv;
      var row := outcome.(observed := IndexOf(View(), outcome), position := NextPosition(View()));
      RecordOutcomeSteps(View(), outcome, row);
      error := OutcomeRefused(View(), row);
      if error.None? {
        ledger := ledger + [OutcomeRecorded];
        outcomes := outcomes + [row];
      }
    }

    /** Records a Discovery Occurrence bound to one observed item, together with its link row. */
    method CommitOccurrence(occurrence: OccurrenceRow) returns (error: Option<CheckError>)
      requires Inv(View())
      modifies this`ledger, this`occurrences, this`links
      ensures Inv(View()) && View() == Step(old(View()), RecordOccurrence(occurrence))
      ensures error.None? <==> Commit(old(View()), RecordOccurrence(occurrence)).Ok?
    {
      hide Inv;
      var revision := Revision(View(), occurrence.revision);
      var row := occurrence.(
        definition := if revision.Some? then revision.value.definition else occurrence.definition,
        position := NextPosition(View()));
      RecordOccurrenceSteps(View(), occurrence, row);
      error := OccurrenceRefused(View(), row);
      if error.None? {
        ledger := ledger + [OccurrenceRecorded];
        occurrences := occurrences + [row];
        links := links[row.id := row.outcome];
      }
    }

    /** Decides a baseline against the exact head, advances the head, and reads the decision back. */
    method CommitBaseline(baseline: BaselineRow) returns (error: Option<CheckError>)
      requires Inv(View())
      modifies this`ledger, this`baselines, this`heads
      ensures Inv(View()) && View() == Step(old(View()), DecideBaseline(baseline))
      ensures error.None? <==> Commit(old(View()), DecideBaseline(baseline)).Ok?
    {
      hide Inv;
      var before := View();
      var row := baseline.(position := NextPosition(View()));
      DecideBaselineSteps(before, baseline, row);
      error := BaselineRefused(View(), row);
      if error.None? {
        // rows written inside the transaction; they reach the tables only if the read-back passes
        var written := before.(
          ledger := ledger + [BaselineDecided], baselines := baselines + [row],
          heads := heads[row.definition := BaselineHead(row.id, row.decidedAt)]);
        if BaselineEvidenceError(written, row).Some? {
          error := Some(ReadBackDiffers);
        } else {
          ledger, baselines, heads := written.ledger, written.baselines, written.heads;
        }
      }
    }

    /** Records an Observable Transition and re-checks its evidence inside the same transaction. */
    method CommitTransition(transition: TransitionRow) returns (error: Option<CheckError>)
      requires Inv(View())
      modifies this`ledger, this`transitions
      ensures Inv(View()) && View() == Step(old(View()), RecordTransition(transition))
      ensures error.None? <==> Commit(old(View()), RecordTransition(transition)).Ok?
    {
      hide Inv;
      var before := View();
      var row := transition.(position := NextPosition(View()));
      RecordTransitionSteps(before, transition, row);
      error := TransitionRefused(View(), row);
      if error.None? {
        var written := before.(ledger := ledger + [TransitionRecorded], transitions := transitions + [row]);
        if TransitionEvidenceError(written, row).Some? {
          error := Some(ReadBackDiffers);
        } else {
          ledger, transitions := written.ledger, written.transitions;
        }
      }
    }

    method CommitFinding(finding: FindingRow) returns (error: Option<CheckError>)
      requires Inv(View())
      modifies this`ledger, this`findings
      ensures Inv(View()) && View() == Step(old(View()), OpenFinding(finding))
      ensures error.None? <==> Commit(old(View()), OpenFinding(finding)).Ok?
    {
      hide Inv;
      StepKeeps(View(), OpenFinding(finding));
      ReadBackNeverFires(View(), OpenFinding(finding));
      var row := finding.(position := NextPosition(View()));
      error := FindingRefused(View(), row);
      if error.None? {
        ledger := ledger + [FindingOpened];
        findings := findings + [row];
      }
    }

    method CommitFindingOccurrence(occurrence: FindingOccurrenceRow) returns (error: Option<CheckError>)
      requires Inv(View())
      modifies this`ledger, this`findingOccurrences
      ensures Inv(View()) && View() == Step(old(View()), RecordFindingOccurrence(occurrence))
      ensures error.None? <==> Commit(old(View()), RecordFindingOccurrence(occurrence)).Ok?
    {
      hide Inv;
      StepKeeps(View(), RecordFindingOccurrence(occurrence));
      ReadBackNeverFires(View(), RecordFindingOccurrence(occurrence));
      var row := occurrence.(position := NextPosition(View()));
      error := FindingOccurrenceRefused(View(), row);
      if error.None? {
        ledger := ledger + [FindingOccurrenceRecorded];
        findingOccurrences := findingOccurrences + [row];
      }
    }
  }
}
