/**
 * The part of the ledger a projected record depends on: the lifecycle of governed objects, the fixture
 * binding and the decisions on relations, each read at a moment, which is a length of the ledger.
 */
module ProjectionLifecycle {
  import opened Common

  datatype Object = Object(admission: nat, blob: nat)

  datatype Event =
    | Bind | Admit(relation: nat) | Withdraw(relation: nat)
    | Revoke(admission: nat) | RequestDeletion(blob: nat) | Tombstone(blob: nat) | RemovalFailed(blob: nat)
    | Removed(blob: nat) | Reclaimed(blob: nat) | Other

  // ----- the lifecycle of a governed object

  datatype Deletion = Requested | Tombstoned | PhysicallyRemoved

  /** The current lifecycle rows of an object: for each, the ledger sequence of its last event. */
  datatype Rows = Rows(revoked: Option<nat>, blobInactive: Option<nat>, deletion: Option<(Deletion, nat)>)

  /** A lifecycle event changes an object's rows only when the store accepts that transition. */
  function Update(r: Rows, o: Object, e: Event, sequence: nat): Rows {
    match e
    case Revoke(a) => if a == o.admission && r.revoked.None? then r.(revoked := Some(sequence)) else r
    case RequestDeletion(b) =>
      if b == o.blob && r.deletion.None? && r.blobInactive.None?
      then r.(deletion := Some((Requested, sequence))) else r
    case Tombstone(b) =>
      if b == o.blob && r.deletion.Some? && r.deletion.value.0.Requested?
      then r.(deletion := Some((Tombstoned, sequence)), blobInactive := Some(sequence)) else r
    case RemovalFailed(b) =>
      if b == o.blob && r.deletion.Some? && r.deletion.value.0.Tombstoned?
      then r.(deletion := Some((Tombstoned, sequence))) else r
    case Removed(b) =>
      if b == o.blob && r.deletion.Some? && r.deletion.value.0.Tombstoned?
      then r.(deletion := Some((PhysicallyRemoved, sequence)), blobInactive := Some(sequence)) else r
    case Reclaimed(b) =>
      if b == o.blob && r.deletion.None? && r.blobInactive.None? then r.(blobInactive := Some(sequence)) else r
    case _ => r
  }

  function RowsAt(ledger: seq<Event>, n: nat, o: Object): Rows
    requires n <= |ledger|
  {
    if n == 0 then Rows(None, None, None) else Update(RowsAt(ledger, n - 1, o), o, ledger[n - 1], n)
  }

  function Later(a: Option<nat>, b: Option<nat>): Option<nat> {
    if a.None? then b else if b.None? then a else if a.value < b.value then b else a
  }

  /** The event that makes an object invalid now: the latest among the rows that are not in order. */
  function InvalidEvent(r: Rows): Option<nat> {
    Later(Later(r.revoked, r.blobInactive), if r.deletion.None? then None else Some(r.deletion.value.1))
  }

  function InvalidAt(ledger: seq<Event>, n: nat, o: Object): Option<nat>
    requires n <= |ledger|
  {
    InvalidEvent(RowsAt(ledger, n, o))
  }

  /** An accepted lifecycle event is the latest one, whatever rows it touches. */
  lemma UpdateIsLatest(r: Rows, o: Object, e: Event, sequence: nat)
    requires InvalidEvent(r).Some? ==> InvalidEvent(r).value < sequence
    ensures InvalidEvent(Update(r, o, e, sequence)) == InvalidEvent(r)
            || InvalidEvent(Update(r, o, e, sequence)) == Some(sequence)
  {
  }

  lemma {:induction false} InvalidBounded(ledger: seq<Event>, n: nat, o: Object)
    requires n <= |ledger|
    ensures InvalidAt(ledger, n, o).Some? ==>
              1 <= InvalidAt(ledger, n, o).value <= n && !ledger[InvalidAt(ledger, n, o).value - 1].Other?
    decreases n
  {
    if n > 0 {
      InvalidBounded(ledger, n - 1, o);
      UpdateIsLatest(RowsAt(ledger, n - 1, o), o, ledger[n - 1], n);
    }
  }

  lemma InvalidStep(ledger: seq<Event>, n: nat, o: Object)
    requires n < |ledger|
    ensures InvalidAt(ledger, n + 1, o) == InvalidAt(ledger, n, o) || InvalidAt(ledger, n + 1, o) == Some(n + 1)
  {
    hide Update, InvalidEvent;
    InvalidBounded(ledger, n, o);
    UpdateIsLatest(RowsAt(ledger, n, o), o, ledger[n], n + 1);
  }

  /** Once invalid, an object stays invalid, and the event it names only moves forward. */
  lemma {:induction false} InvalidGrows(ledger: seq<Event>, n: nat, m: nat, o: Object)
    requires n <= m <= |ledger| && InvalidAt(ledger, n, o).Some?
    ensures InvalidAt(ledger, m, o).Some? && InvalidAt(ledger, n, o).value <= InvalidAt(ledger, m, o).value
    decreases m
  {
    hide InvalidAt;
    if n < m {
      InvalidGrows(ledger, n, m - 1, o);
      InvalidStep(ledger, m - 1, o);
      InvalidBounded(ledger, m - 1, o);
    }
  }

  /** From its event on, an object names that event for as long as it is the latest. */
  lemma {:induction false} InvalidSince(ledger: seq<Event>, n: nat, m: nat, o: Object)
    requires m <= |ledger| && InvalidAt(ledger, m, o).Some? && InvalidAt(ledger, m, o).value <= n <= m
    ensures InvalidAt(ledger, n, o) == InvalidAt(ledger, m, o)
    decreases m
  {
    if n < m {
      InvalidStep(ledger, m - 1, o);
      InvalidSince(ledger, n, m - 1, o);
    }
  }

  /** A current object's later invalidity comes from a later event. */
  lemma {:induction false} InvalidLater(ledger: seq<Event>, n: nat, m: nat, o: Object)
    requires n <= m <= |ledger| && InvalidAt(ledger, n, o).None? && InvalidAt(ledger, m, o).Some?
    ensures n < InvalidAt(ledger, m, o).value <= m
    decreases m
  {
    if n < m {
      InvalidStep(ledger, m - 1, o);
      if InvalidAt(ledger, m - 1, o).Some? { InvalidLater(ledger, n, m - 1, o); }
    }
  }

  // ----- what the lifecycle says, event by event

  /** The first event that takes the blob out of use: a deletion request, or a reclamation. */
  predicate Begins(ledger: seq<Event>, i: nat, blob: nat) {
    && i < |ledger| && ledger[i] in {RequestDeletion(blob), Reclaimed(blob)}
    && forall j :: 0 <= j < i ==> ledger[j] !in {RequestDeletion(blob), Reclaimed(blob)}
  }

  /** The first tombstone after the deletion request that began it. */
  ghost predicate Tombstones(ledger: seq<Event>, i: nat, blob: nat) {
    && i < |ledger| && ledger[i] == Tombstone(blob)
    && exists d: nat :: d < i && Begins(ledger, d, blob) && ledger[d] == RequestDeletion(blob)
                   && forall j :: d < j < i ==> ledger[j] != Tombstone(blob)
  }

  /** An attempt to remove the tombstoned bytes, up to the one that succeeds. */
  ghost predicate Removes(ledger: seq<Event>, i: nat, blob: nat) {
    && i < |ledger| && ledger[i] in {RemovalFailed(blob), Removed(blob)}
    && exists d: nat :: d < i && Tombstones(ledger, d, blob) && forall j :: d < j < i ==> ledger[j] != Removed(blob)
  }

  /** The first revocation of the admission. */
  predicate Revokes(ledger: seq<Event>, i: nat, admission: nat) {
    i < |ledger| && ledger[i] == Revoke(admission) && forall j :: 0 <= j < i ==> ledger[j] != Revoke(admission)
  }

  /** The events that invalidate an object, or invalidate it again. */
  ghost predicate Invalidates(ledger: seq<Event>, i: nat, o: Object) {
    Revokes(ledger, i, o.admission) || Begins(ledger, i, o.blob) || Tombstones(ledger, i, o.blob) || Removes(ledger, i, o.blob)
  }

  ghost predicate NoneOf(ledger: seq<Event>, n: nat, events: set<Event>)
    requires n <= |ledger|
  {
    forall i :: 0 <= i < n ==> ledger[i] !in events
  }

  /** The rows after n events, said by those events. */
  ghost predicate RowsSay(ledger: seq<Event>, n: nat, o: Object, r: Rows)
    requires n <= |ledger|
  {
    && (match r.revoked
        case None => NoneOf(ledger, n, {Revoke(o.admission)})
        case Some(q) => 1 <= q <= n && Revokes(ledger, q - 1, o.admission))
    && (match r.deletion
        case None =>
          (match r.blobInactive
           case None => NoneOf(ledger, n, {RequestDeletion(o.blob), Reclaimed(o.blob)})
           case Some(q) => 1 <= q <= n && Begins(ledger, q - 1, o.blob) && ledger[q - 1].Reclaimed?)
        case Some((Requested, q)) =>
          && r.blobInactive.None? && 1 <= q <= n && Begins(ledger, q - 1, o.blob) && ledger[q - 1].RequestDeletion?
          && forall j :: q <= j < n ==> ledger[j] != Tombstone(o.blob)
        case Some((Tombstoned, q)) =>
          && r.blobInactive.Some? && 1 <= r.blobInactive.value <= q <= n
          && Tombstones(ledger, r.blobInactive.value - 1, o.blob)
          && forall j :: r.blobInactive.value <= j < n ==> ledger[j] != Removed(o.blob)
        case Some((PhysicallyRemoved, q)) =>
          && r.blobInactive == Some(q) && 1 <= q <= n && Removes(ledger, q - 1, o.blob) && ledger[q - 1].Removed?)
  }

  lemma TombstonesOnce(ledger: seq<Event>, i: nat, j: nat, blob: nat)
    requires Tombstones(ledger, i, blob) && Tombstones(ledger, j, blob)
    ensures i == j
  {
    var d: nat :| d < i && Begins(ledger, d, blob) && ledger[d] == RequestDeletion(blob)
                  && forall k :: d < k < i ==> ledger[k] != Tombstone(blob);
    var e: nat :| e < j && Begins(ledger, e, blob) && ledger[e] == RequestDeletion(blob)
                  && forall k :: e < k < j ==> ledger[k] != Tombstone(blob);
    assert d == e;
  }

  /** A tombstone is accepted exactly as the first one after an accepted request. */
  lemma TombstoneAccepted(ledger: seq<Event>, n: nat, o: Object, r: Rows)
    requires n < |ledger| && RowsSay(ledger, n, o, r) && ledger[n] == Tombstone(o.blob)
    ensures Tombstones(ledger, n, o.blob) <==> r.deletion.Some? && r.deletion.value.0.Requested?
  {
    if Tombstones(ledger, n, o.blob) {
      var d: nat :| d < n && Begins(ledger, d, o.blob) && ledger[d] == RequestDeletion(o.blob)
                    && forall k :: d < k < n ==> ledger[k] != Tombstone(o.blob);
      if r.deletion.Some? && !r.deletion.value.0.Requested? {
        var t := EarlierTombstone(ledger, n, o, r);
        TombstonesOnce(ledger, t, n, o.blob);
      }
    }
  }

  lemma EarlierTombstone(ledger: seq<Event>, n: nat, o: Object, r: Rows) returns (t: nat)
    requires n <= |ledger| && RowsSay(ledger, n, o, r) && r.deletion.Some? && !r.deletion.value.0.Requested?
    ensures t < n && Tombstones(ledger, t, o.blob)
    ensures (exists j :: t < j < n && ledger[j] == Removed(o.blob)) <==> r.deletion.value.0.PhysicallyRemoved?
  {
    if r.deletion.value.0.Tombstoned? {
      t := r.blobInactive.value - 1;
    } else {
      var q := r.deletion.value.1;
      t :| t < q - 1 && Tombstones(ledger, t, o.blob) && forall j :: t < j < q - 1 ==> ledger[j] != Removed(o.blob);
      assert ledger[q - 1] == Removed(o.blob);
    }
  }

  lemma NoTombstoneYet(ledger: seq<Event>, n: nat, o: Object, r: Rows, d: nat)
    requires n <= |ledger| && RowsSay(ledger, n, o, r) && (r.deletion.None? || r.deletion.value.0.Requested?) && d < n
    ensures !Tombstones(ledger, d, o.blob)
  {
  }

  /** A removal is accepted exactly from the tombstone to the first success. */
  lemma RemovalAccepted(ledger: seq<Event>, n: nat, o: Object, r: Rows)
    requires n < |ledger| && RowsSay(ledger, n, o, r) && ledger[n] in {RemovalFailed(o.blob), Removed(o.blob)}
    ensures Removes(ledger, n, o.blob) <==> r.deletion.Some? && r.deletion.value.0.Tombstoned?
  {
    if r.deletion.Some? && !r.deletion.value.0.Requested? {
      var t := EarlierTombstone(ledger, n, o, r);
      forall d: nat | d < n && Tombstones(ledger, d, o.blob) ensures d == t { TombstonesOnce(ledger, d, t, o.blob); }
    } else {
      forall d: nat | d < n ensures !Tombstones(ledger, d, o.blob) { NoTombstoneYet(ledger, n, o, r, d); }
    }
  }

  /** A lifecycle event is accepted exactly when it invalidates the object by what came before it. */
  lemma AcceptedInvalidates(ledger: seq<Event>, n: nat, o: Object, r: Rows)
    requires n < |ledger| && RowsSay(ledger, n, o, r)
    ensures Update(r, o, ledger[n], n + 1) != r <==> Invalidates(ledger, n, o)
  {
    if ledger[n] == Tombstone(o.blob) {
      TombstoneAccepted(ledger, n, o, r);
    } else if ledger[n] in {RemovalFailed(o.blob), Removed(o.blob)} {
      RemovalAccepted(ledger, n, o, r);
    }
    hide Tombstones, Removes;
    NotTombstone(ledger, n, o.blob);
  }

  lemma NotTombstone(ledger: seq<Event>, n: nat, blob: nat)
    requires n < |ledger|
    ensures Tombstones(ledger, n, blob) ==> ledger[n] == Tombstone(blob)
    ensures Removes(ledger, n, blob) ==> ledger[n] in {RemovalFailed(blob), Removed(blob)}
  {
  }

  lemma RowsSayNext(ledger: seq<Event>, n: nat, o: Object, r: Rows)
    requires n < |ledger| && RowsSay(ledger, n, o, r)
    ensures RowsSay(ledger, n + 1, o, Update(r, o, ledger[n], n + 1))
  {
    hide Tombstones, Removes;
    if ledger[n] == Tombstone(o.blob) {
      TombstoneAccepted(ledger, n, o, r);
    } else if ledger[n] in {RemovalFailed(o.blob), Removed(o.blob)} {
      RemovalAccepted(ledger, n, o, r);
    }
  }

  lemma {:induction false} RowsMean(ledger: seq<Event>, n: nat, o: Object)
    requires n <= |ledger|
    ensures RowsSay(ledger, n, o, RowsAt(ledger, n, o))
    decreases n
  {
    hide RowsSay, Update;
    if n == 0 {
      NoRows(ledger, o);
    } else {
      RowsMean(ledger, n - 1, o);
      RowsSayNext(ledger, n - 1, o, RowsAt(ledger, n - 1, o));
    }
  }

  lemma NoRows(ledger: seq<Event>, o: Object)
    ensures RowsSay(ledger, 0, o, Rows(None, None, None))
  {
  }

  /** What changes the rows becomes their latest event. */
  lemma UpdateNames(r: Rows, o: Object, e: Event, sequence: nat)
    requires InvalidEvent(r).Some? ==> InvalidEvent(r).value < sequence
    ensures InvalidEvent(Update(r, o, e, sequence)) ==
            if Update(r, o, e, sequence) != r then Some(sequence) else InvalidEvent(r)
  {
  }

  /** The event an object's invalidity is attributed to is the latest of those that invalidate it. */
  lemma {:induction false} InvalidIsLatest(ledger: seq<Event>, n: nat, o: Object)
    requires n <= |ledger|
    ensures match InvalidAt(ledger, n, o)
            case None => forall i: nat :: i < n ==> !Invalidates(ledger, i, o)
            case Some(q) => 1 <= q <= n && Invalidates(ledger, q - 1, o)
                            && forall i: nat :: q <= i < n ==> !Invalidates(ledger, i, o)
    decreases n
  {
    hide Update, InvalidEvent, Invalidates;
    if n > 0 {
      InvalidIsLatest(ledger, n - 1, o);
      RowsMean(ledger, n - 1, o);
      AcceptedInvalidates(ledger, n - 1, o, RowsAt(ledger, n - 1, o));
      InvalidBounded(ledger, n - 1, o);
      UpdateNames(RowsAt(ledger, n - 1, o), o, ledger[n - 1], n);
    } else {
      assert InvalidAt(ledger, 0, o) == None by { NothingInvalid(ledger, o); }
    }
  }

  lemma NothingInvalid(ledger: seq<Event>, o: Object)
    ensures InvalidAt(ledger, 0, o) == None
  {
  }

  /** An object is invalid exactly when its admission was revoked, or its blob's deletion requested or reclaimed. */
  lemma InvalidMeans(ledger: seq<Event>, n: nat, o: Object)
    requires n <= |ledger|
    ensures InvalidAt(ledger, n, o).Some? <==>
            exists i :: 0 <= i < n && ledger[i] in {Revoke(o.admission), RequestDeletion(o.blob), Reclaimed(o.blob)}
  {
    RowsMean(ledger, n, o);
  }

  // ----- the binding and the relations

  /** The binding event: a fixture is bound at most once, so a later one is not accepted. */
  function BoundAt(ledger: seq<Event>, n: nat): Option<nat>
    requires n <= |ledger|
  {
    if n == 0 then None
    else if BoundAt(ledger, n - 1).Some? then BoundAt(ledger, n - 1)
    else if ledger[n - 1].Bind? then Some(n)
    else None
  }

  /** Where a relation stands: invalidated, revoked and superseded are one final withdrawal. */
  datatype Status = Unknown | Admitted(since: nat) | Withdrawn(since: nat, until: nat)

  function StatusAt(ledger: seq<Event>, n: nat, r: nat): Status
    requires n <= |ledger|
  {
    if n == 0 then Unknown
    else
      var before := StatusAt(ledger, n - 1, r);
      if before.Unknown? && ledger[n - 1] == Admit(r) then Admitted(n)
      else if before.Admitted? && ledger[n - 1] == Withdraw(r) then Withdrawn(before.since, n)
      else before
  }

  /** The binding event is the first one. */
  lemma {:induction false} BoundMeans(ledger: seq<Event>, n: nat)
    requires n <= |ledger|
    ensures match BoundAt(ledger, n)
            case None => forall i :: 0 <= i < n ==> ledger[i] != Bind
            case Some(q) => 1 <= q <= n && ledger[q - 1] == Bind && forall i :: 0 <= i < q - 1 ==> ledger[i] != Bind
    decreases n
  {
    if n > 0 { BoundMeans(ledger, n - 1); }
  }

  /** A relation is admitted by its first admission, and withdrawn by the first withdrawal after that. */
  lemma {:induction false} StatusMeans(ledger: seq<Event>, n: nat, r: nat)
    requires n <= |ledger|
    ensures match StatusAt(ledger, n, r)
            case Unknown => forall i :: 0 <= i < n ==> ledger[i] != Admit(r)
            case Admitted(since) =>
              && FirstAdmission(ledger, n, r, since)
              && forall i :: since <= i < n ==> ledger[i] != Withdraw(r)
            case Withdrawn(since, until) =>
              && FirstAdmission(ledger, n, r, since) && since < until <= n && ledger[until - 1] == Withdraw(r)
              && forall i :: since <= i < until - 1 ==> ledger[i] != Withdraw(r)
    decreases n
  {
    if n > 0 { StatusMeans(ledger, n - 1, r); }
  }

  predicate FirstAdmission(ledger: seq<Event>, n: nat, r: nat, since: nat)
    requires n <= |ledger|
  {
    1 <= since <= n && ledger[since - 1] == Admit(r) && forall i :: 0 <= i < since - 1 ==> ledger[i] != Admit(r)
  }

  lemma {:induction false} BoundStays(ledger: seq<Event>, n: nat, m: nat)
    requires n <= m <= |ledger|
    ensures BoundAt(ledger, m).Some? ==> 1 <= BoundAt(ledger, m).value <= m && ledger[BoundAt(ledger, m).value - 1].Bind?
    ensures BoundAt(ledger, n) ==
            if BoundAt(ledger, m).Some? && BoundAt(ledger, m).value <= n then BoundAt(ledger, m) else None
    decreases m
  {
    if m > 0 {
      BoundStays(ledger, if n == m then m - 1 else n, m - 1);
    }
  }

  /** A relation's history is one line: what a later moment says determines every earlier one. */
  lemma {:induction false} StatusStays(ledger: seq<Event>, n: nat, m: nat, r: nat)
    requires n <= m <= |ledger|
    ensures var later := StatusAt(ledger, m, r);
            && (!later.Unknown? ==> 1 <= later.since <= m && ledger[later.since - 1].Admit?)
            && (later.Withdrawn? ==> later.since < later.until <= m && ledger[later.until - 1].Withdraw?)
            && StatusAt(ledger, n, r) ==
                 if later.Unknown? || n < later.since then Unknown
                 else if later.Withdrawn? && later.until <= n then later
                 else Admitted(later.since)
    decreases m
  {
    if m > 0 {
      StatusStays(ledger, if n == m then m - 1 else n, m - 1, r);
    }
  }

  // ----- appends

  lemma {:induction false} RowsStable(ledger: seq<Event>, more: seq<Event>, n: nat, o: Object)
    requires ledger <= more && n <= |ledger|
    ensures RowsAt(more, n, o) == RowsAt(ledger, n, o)
    decreases n
  {
    if n > 0 { RowsStable(ledger, more, n - 1, o); }
  }

  lemma {:induction false} BoundStable(ledger: seq<Event>, more: seq<Event>, n: nat)
    requires ledger <= more && n <= |ledger|
    ensures BoundAt(more, n) == BoundAt(ledger, n)
    decreases n
  {
    if n > 0 { BoundStable(ledger, more, n - 1); }
  }

  lemma {:induction false} StatusStable(ledger: seq<Event>, more: seq<Event>, n: nat, r: nat)
    requires ledger <= more && n <= |ledger|
    ensures StatusAt(more, n, r) == StatusAt(ledger, n, r)
    decreases n
  {
    if n > 0 { StatusStable(ledger, more, n - 1, r); }
  }
}
