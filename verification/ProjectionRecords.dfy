/**
 * The records of the complete projection, the documents of fixture passages and the admitted relations:
 * what each ledger event contributes when its batch is built at some moment, and why contributions
 * made in any order at any moments end in the same records as a rebuild.
 */
module ProjectionRecords {
  import opened Common
  import opened ProjectionLifecycle

  datatype Document = Document(governed: Object, content: nat)

  datatype Assertion = Assertion(evidence: set<Object>, content: nat)

  /** The fixture authority: its manifest object, its active passages, and the relations asserted over it. */
  datatype Fixture = Fixture(manifest: Object, passages: map<nat, Document>, relations: map<nat, Assertion>)

  datatype Key = Passage(passage: nat) | Relation(relation: nat)

  function Keys(f: Fixture): set<Key> {
    (set p | p in f.passages :: Passage(p)) + (set r | r in f.relations :: Relation(r))
  }

  /** The governed objects a record depends on. */
  function References(f: Fixture, k: Key): set<Object>
    requires k in Keys(f)
  {
    match k
    case Passage(p) => {f.manifest, f.passages[p].governed}
    case Relation(r) => {f.manifest} + f.relations[r].evidence
  }

  function ContentOf(f: Fixture, k: Key): nat
    requires k in Keys(f)
  {
    match k
    case Passage(p) => f.passages[p].content
    case Relation(r) => f.relations[r].content
  }

  function RecordsOf(f: Fixture, ks: set<Key>): map<Key, nat>
    requires ks <= Keys(f)
  {
    map k | k in ks :: ContentOf(f, k)
  }

  // ----- what begins and what ends a record

  /** The event whose batch puts the record: the binding for a passage, its admission for a relation. */
  function EntryAt(ledger: seq<Event>, n: nat, k: Key): Option<nat>
    requires n <= |ledger|
  {
    match k
    case Passage(_) => BoundAt(ledger, n)
    case Relation(r) => var s := StatusAt(ledger, n, r); if s.Unknown? then None else Some(s.since)
  }

  /** The object among some whose invalidity is the latest. */
  predicate LatestInvalid(ledger: seq<Event>, n: nat, objects: set<Object>, o: Object)
    requires n <= |ledger|
  {
    && o in objects && InvalidAt(ledger, n, o).Some?
    && forall x :: x in objects && InvalidAt(ledger, n, x).Some? ==>
         InvalidAt(ledger, n, x).value <= InvalidAt(ledger, n, o).value
  }

  /**
   * The events a record's removal is attributed to at a moment: for a passage the event of each invalid
   * object, for a relation its withdrawal or else the latest event among its invalid objects.
   */
  function EndsAt(ledger: seq<Event>, f: Fixture, n: nat, k: Key): set<nat>
    requires n <= |ledger| && k in Keys(f)
  {
    var objects := References(f, k);
    match k
    case Passage(_) => set o | o in objects && InvalidAt(ledger, n, o).Some? :: InvalidAt(ledger, n, o).value
    case Relation(r) =>
      var s := StatusAt(ledger, n, r);
      if s.Withdrawn? then {s.until}
      else set o | o in objects && LatestInvalid(ledger, n, objects, o) :: InvalidAt(ledger, n, o).value
  }

  predicate Current(ledger: seq<Event>, f: Fixture, n: nat, k: Key)
    requires n <= |ledger|
  {
    k in Keys(f) && EntryAt(ledger, n, k).Some? && EndsAt(ledger, f, n, k) == {}
  }

  function CurrentKeys(ledger: seq<Event>, f: Fixture, n: nat): set<Key>
    requires n <= |ledger|
  {
    set k | k in Keys(f) && Current(ledger, f, n, k)
  }

  /** Among finitely many objects, if one is invalid then one's invalidity is the latest. */
  lemma {:induction false} SomeLatest(ledger: seq<Event>, n: nat, objects: set<Object>, o: Object) returns (latest: Object)
    requires n <= |ledger| && o in objects && InvalidAt(ledger, n, o).Some?
    ensures LatestInvalid(ledger, n, objects, latest)
    decreases objects
  {
    hide InvalidAt;
    if x :| x in objects && InvalidAt(ledger, n, x).Some? && InvalidAt(ledger, n, x).value > InvalidAt(ledger, n, o).value {
      var rest := objects - {o};
      latest := SomeLatest(ledger, n, rest, x);
      assert forall y :: y in objects ==> y in rest || y == o;
    } else {
      latest := o;
    }
  }

  /** A record is current exactly when it has been put, is not withdrawn, and all its objects are current. */
  lemma CurrentMeans(ledger: seq<Event>, f: Fixture, n: nat, k: Key)
    requires n <= |ledger| && k in Keys(f)
    ensures Current(ledger, f, n, k) <==>
            && (k.Passage? ==> BoundAt(ledger, n).Some?)
            && (k.Relation? ==> StatusAt(ledger, n, k.relation).Admitted?)
            && forall o :: o in References(f, k) ==> InvalidAt(ledger, n, o).None?
  {
    hide InvalidAt, BoundAt, StatusAt, References;
    forall o | && o in References(f, k) && InvalidAt(ledger, n, o).Some?
               && !(k.Relation? && StatusAt(ledger, n, k.relation).Withdrawn?)
      ensures EndsAt(ledger, f, n, k) != {}
    {
      var latest := SomeLatest(ledger, n, References(f, k), o);
      assert InvalidAt(ledger, n, latest).value in EndsAt(ledger, f, n, k);
    }
  }

  // ----- how beginnings and endings move with the ledger

  lemma EntryStays(ledger: seq<Event>, n: nat, m: nat, k: Key)
    requires n <= m <= |ledger|
    ensures var e := EntryAt(ledger, m, k);
            && (e.Some? ==> 1 <= e.value <= m && !ledger[e.value - 1].Other?)
            && EntryAt(ledger, n, k) == if e.Some? && e.value <= n then e else None
  {
    if k.Passage? { BoundStays(ledger, n, m); } else { StatusStays(ledger, n, m, k.relation); }
  }

  /** An invalid object ends every record that depends on it. */
  lemma InvalidEnds(ledger: seq<Event>, f: Fixture, n: nat, k: Key, o: Object)
    requires n <= |ledger| && k in Keys(f) && o in References(f, k) && InvalidAt(ledger, n, o).Some?
    ensures EndsAt(ledger, f, n, k) != {}
  {
    hide InvalidAt, StatusAt, References;
    var latest := SomeLatest(ledger, n, References(f, k), o);
    assert k.Passage? || !StatusAt(ledger, n, k.relation).Withdrawn? ==>
             InvalidAt(ledger, n, latest).value in EndsAt(ledger, f, n, k);
  }

  lemma EndsBounded(ledger: seq<Event>, f: Fixture, n: nat, k: Key, e: nat)
    requires n <= |ledger| && k in Keys(f) && e in EndsAt(ledger, f, n, k)
    ensures 1 <= e <= n && !ledger[e - 1].Other?
  {
    hide InvalidAt, References;
    forall o
      ensures InvalidAt(ledger, n, o).Some? ==>
                1 <= InvalidAt(ledger, n, o).value <= n && !ledger[InvalidAt(ledger, n, o).value - 1].Other?
    {
      InvalidBounded(ledger, n, o);
    }
    if k.Relation? { StatusStays(ledger, n, n, k.relation); }
  }

  /** What has ended stays ended. */
  lemma EndsStay(ledger: seq<Event>, f: Fixture, n: nat, m: nat, k: Key)
    requires n <= m <= |ledger| && k in Keys(f) && EndsAt(ledger, f, n, k) != {}
    ensures EndsAt(ledger, f, m, k) != {}
  {
    hide InvalidAt, References;
    if k.Relation? { StatusStays(ledger, n, m, k.relation); }
    if k.Passage? || !StatusAt(ledger, n, k.relation).Withdrawn? {
      var o :| o in References(f, k) && InvalidAt(ledger, n, o).Some?;
      InvalidGrows(ledger, n, m, o);
      InvalidEnds(ledger, f, m, k, o);
    }
  }

  /** The latest invalid object at the end was the latest ever since its event. */
  lemma LatestSince(ledger: seq<Event>, n: nat, m: nat, objects: set<Object>, o: Object)
    requires n <= m <= |ledger| && LatestInvalid(ledger, m, objects, o) && InvalidAt(ledger, m, o).value <= n
    ensures LatestInvalid(ledger, n, objects, o) && InvalidAt(ledger, n, o) == InvalidAt(ledger, m, o)
  {
    hide InvalidAt;
    InvalidSince(ledger, n, m, o);
    forall x | x in objects && InvalidAt(ledger, n, x).Some?
      ensures InvalidAt(ledger, n, x).value <= InvalidAt(ledger, n, o).value
    {
      InvalidGrows(ledger, n, m, x);
    }
  }

  ghost predicate EndsSince(ledger: seq<Event>, f: Fixture, k: Key, e: nat, m: nat)
    requires m <= |ledger| && k in Keys(f)
  {
    forall t {:trigger EndsAt(ledger, f, t, k)} :: e <= t <= m ==> e in EndsAt(ledger, f, t, k)
  }

  /** A record that ended after some moment was ended by a later event, and is attributed to it ever since. */
  lemma EndingEvent(ledger: seq<Event>, f: Fixture, n: nat, m: nat, k: Key) returns (e: nat)
    requires n <= m <= |ledger| && k in Keys(f) && EndsAt(ledger, f, n, k) == {} && EndsAt(ledger, f, m, k) != {}
    ensures n < e <= m && EndsSince(ledger, f, k, e, m)
  {
    hide InvalidAt, StatusAt, References, LatestInvalid;
    if k.Relation? && StatusAt(ledger, m, k.relation).Withdrawn? {
      e := StatusAt(ledger, m, k.relation).until;
      forall t: nat | t <= m
        ensures StatusAt(ledger, t, k.relation).Withdrawn? <==> e <= t
        ensures e <= t ==> StatusAt(ledger, t, k.relation) == StatusAt(ledger, m, k.relation)
      {
        StatusStays(ledger, t, m, k.relation);
      }
      assert e in EndsAt(ledger, f, m, k);
      EndsBounded(ledger, f, m, k, e);
    } else {
      e := EndingObject(ledger, f, n, m, k);
    }
  }

  lemma EndingObject(ledger: seq<Event>, f: Fixture, n: nat, m: nat, k: Key) returns (e: nat)
    requires n <= m <= |ledger| && k in Keys(f) && EndsAt(ledger, f, n, k) == {} && EndsAt(ledger, f, m, k) != {}
    requires k.Relation? ==> !StatusAt(ledger, m, k.relation).Withdrawn?
    ensures n < e <= m && EndsSince(ledger, f, k, e, m)
  {
    hide InvalidAt, StatusAt, References;
    var objects := References(f, k);
    var some :| some in objects && InvalidAt(ledger, m, some).Some?;
    var o := SomeLatest(ledger, m, objects, some);
    if InvalidAt(ledger, n, o).Some? { InvalidEnds(ledger, f, n, k, o); }
    InvalidLater(ledger, n, m, o);
    e := InvalidAt(ledger, m, o).value;
    forall t {:trigger EndsAt(ledger, f, t, k)} | e <= t <= m ensures e in EndsAt(ledger, f, t, k) {
      LatestSince(ledger, t, m, objects, o);
      if k.Relation? { StatusStays(ledger, t, m, k.relation); }
    }
  }

  // ----- batches

  /** What one event's batch puts when the ledger has `n` events. */
  function PutsAt(ledger: seq<Event>, f: Fixture, n: nat, event: nat): set<Key>
    requires n <= |ledger|
  {
    set k | k in Keys(f) && Current(ledger, f, n, k) && EntryAt(ledger, n, k) == Some(event)
  }

  /** What it removes: the records whose ending is, at that moment, this very event. */
  function RemovalsAt(ledger: seq<Event>, f: Fixture, n: nat, event: nat): set<Key>
    requires n <= |ledger|
  {
    set k | k in Keys(f) && EntryAt(ledger, n, k).Some? && event in EndsAt(ledger, f, n, k)
  }

  // ----- contributions

  /** One applied batch: of which event, and how long the ledger was when it was built. */
  datatype Contribution = Contribution(event: nat, now: nat)

  /** Each event at most once, at non-decreasing moments, each after its event. */
  ghost predicate Orderly(cs: seq<Contribution>, n: nat) {
    && (forall i :: 0 <= i < |cs| ==> 1 <= cs[i].event <= cs[i].now <= n)
    && (forall i, j :: 0 <= i < j < |cs| ==> cs[i].event != cs[j].event && cs[i].now <= cs[j].now)
  }

  predicate Contributes(cs: seq<Contribution>, e: nat) { exists i :: 0 <= i < |cs| && cs[i].event == e }

  /** Every event that can begin or end a record is contributed, in any order, perhaps among others. */
  ghost predicate Covers(ledger: seq<Event>, cs: seq<Contribution>) {
    forall e :: 1 <= e <= |ledger| && !ledger[e - 1].Other? ==> Contributes(cs, e)
  }

  function Contributed(ledger: seq<Event>, f: Fixture, cs: seq<Contribution>): set<Key>
    requires forall i :: 0 <= i < |cs| ==> cs[i].now <= |ledger|
  {
    if cs == [] then {}
    else
      var c := cs[|cs| - 1];
      (Contributed(ledger, f, cs[..|cs| - 1]) - RemovalsAt(ledger, f, c.now, c.event)) + PutsAt(ledger, f, c.now, c.event)
  }

  lemma {:induction false} ContributedKeys(ledger: seq<Event>, f: Fixture, cs: seq<Contribution>)
    requires forall i :: 0 <= i < |cs| ==> cs[i].now <= |ledger|
    ensures Contributed(ledger, f, cs) <= Keys(f)
  {
    if cs != [] { ContributedKeys(ledger, f, cs[..|cs| - 1]); }
  }

  /** A record that is current at the end was put by its event and never removed. */
  lemma {:induction false} CurrentIsContributed(ledger: seq<Event>, f: Fixture, cs: seq<Contribution>, k: Key)
    requires Orderly(cs, |ledger|) && Current(ledger, f, |ledger|, k)
    ensures k in Contributed(ledger, f, cs) <==> Contributes(cs, EntryAt(ledger, |ledger|, k).value)
  {
    if cs != [] {
      var c, front := cs[|cs| - 1], cs[..|cs| - 1];
      CurrentIsContributed(ledger, f, front, k);
      hide EntryAt, EndsAt;
      EntryStays(ledger, c.now, |ledger|, k);
      if EndsAt(ledger, f, c.now, k) != {} { EndsStay(ledger, f, c.now, |ledger|, k); }
      var e := EntryAt(ledger, |ledger|, k).value;
      assert Contributes(cs, e) <==> Contributes(front, e) || c.event == e by {
        assert forall i :: 0 <= i < |front| ==> front[i] == cs[i];
      }
    }
  }

  /** Only its own event's batch, built while the record is current, puts it. */
  lemma {:induction false} StaysOut(ledger: seq<Event>, f: Fixture, cs: seq<Contribution>, from: nat, k: Key)
    requires Orderly(cs, |ledger|) && from <= |cs|
    requires k !in Contributed(ledger, f, cs[..from])
    requires forall i :: from <= i < |cs| ==> k !in PutsAt(ledger, f, cs[i].now, cs[i].event)
    ensures k !in Contributed(ledger, f, cs)
    decreases |cs|
  {
    hide PutsAt, RemovalsAt;
    if from == |cs| {
      assert cs[..from] == cs;
    } else {
      var front := cs[..|cs| - 1];
      assert front[..from] == cs[..from];
      StaysOut(ledger, f, front, from, k);
    }
  }

  /** A record that is not current at the end was never put, or was removed at the event that ended it. */
  lemma NotCurrentIsAbsent(ledger: seq<Event>, f: Fixture, cs: seq<Contribution>, k: Key)
    requires Orderly(cs, |ledger|) && Covers(ledger, cs)
    requires k in Keys(f) && !Current(ledger, f, |ledger|, k)
    ensures k !in Contributed(ledger, f, cs)
  {
    hide EntryAt, EndsAt, References, Contributed;
    assert cs[..0] == [];
    NothingContributed(ledger, f);
    if i :| 0 <= i < |cs| && k in PutsAt(ledger, f, cs[i].now, cs[i].event) {
      EntryStays(ledger, cs[i].now, |ledger|, k);
      var e := EndingEvent(ledger, f, cs[i].now, |ledger|, k);
      assert e in EndsAt(ledger, f, |ledger|, k);
      EndsBounded(ledger, f, |ledger|, k, e);
      RemovedAtItsEnd(ledger, f, cs, i, e, k);
    } else {
      StaysOut(ledger, f, cs, 0, k);
    }
  }

  lemma NothingContributed(ledger: seq<Event>, f: Fixture)
    ensures Contributed(ledger, f, []) == {}
  {
  }

  lemma RemovedAtItsEnd(ledger: seq<Event>, f: Fixture, cs: seq<Contribution>, put: nat, e: nat, k: Key)
    requires Orderly(cs, |ledger|) && put < |cs| && k in Keys(f)
    requires k in PutsAt(ledger, f, cs[put].now, cs[put].event)
    requires cs[put].now < e <= |ledger| && EndsSince(ledger, f, k, e, |ledger|) && Contributes(cs, e)
    ensures k !in Contributed(ledger, f, cs)
  {
    hide EntryAt, EndsAt, References;
    var end :| 0 <= end < |cs| && cs[end].event == e;
    assert put < end;
    EntryStays(ledger, cs[put].now, |ledger|, k);
    EntryStays(ledger, cs[end].now, |ledger|, k);
    var upto := cs[..end + 1];
    assert upto[..|upto| - 1] == cs[..end] && upto[|upto| - 1] == cs[end];
    forall i | end + 1 <= i < |cs| ensures k !in PutsAt(ledger, f, cs[i].now, cs[i].event) {
      EntryStays(ledger, cs[i].now, |ledger|, k);
    }
    StaysOut(ledger, f, cs, end + 1, k);
  }

  /**
   * Batches applied once each, in any order, at any non-decreasing moments, end as exactly the current
   * records, once every event that can begin or end one has been contributed.
   */
  lemma ContributionsEndCurrent(ledger: seq<Event>, f: Fixture, cs: seq<Contribution>)
    requires Orderly(cs, |ledger|) && Covers(ledger, cs)
    ensures Contributed(ledger, f, cs) == CurrentKeys(ledger, f, |ledger|)
  {
    ContributedKeys(ledger, f, cs);
    forall k | k in Keys(f) ensures k in Contributed(ledger, f, cs) <==> k in CurrentKeys(ledger, f, |ledger|) {
      hide EndsAt, EntryAt, Contributed;
      if Current(ledger, f, |ledger|, k) {
        CurrentIsContributed(ledger, f, cs, k);
        EntryStays(ledger, |ledger|, |ledger|, k);
      } else {
        NotCurrentIsAbsent(ledger, f, cs, k);
      }
    }
  }

  // ----- rebuild

  /** A rebuild up to some event: every batch freshly built, in ledger order. */
  function Fresh(through: nat, n: nat): seq<Contribution> {
    seq(through, i requires 0 <= i < through => Contribution(i + 1, n))
  }

  /** It need not go past the last event that can begin or end a record. */
  lemma FreshCovers(ledger: seq<Event>, through: nat)
    requires through <= |ledger| && forall i :: through <= i < |ledger| ==> ledger[i].Other?
    ensures Orderly(Fresh(through, |ledger|), |ledger|) && Covers(ledger, Fresh(through, |ledger|))
  {
    forall e | 1 <= e <= |ledger| && !ledger[e - 1].Other? ensures Contributes(Fresh(through, |ledger|), e) {
      assert Fresh(through, |ledger|)[e - 1].event == e;
    }
  }

  /** Incremental delivery equals rebuild. */
  lemma IncrementalIsRebuild(ledger: seq<Event>, f: Fixture, cs: seq<Contribution>)
    requires Orderly(cs, |ledger|) && Covers(ledger, cs)
    ensures Contributed(ledger, f, cs) == Contributed(ledger, f, Fresh(|ledger|, |ledger|))
  {
    FreshCovers(ledger, |ledger|);
    ContributionsEndCurrent(ledger, f, cs);
    ContributionsEndCurrent(ledger, f, Fresh(|ledger|, |ledger|));
  }

  // ----- appends

  lemma EndsStable(ledger: seq<Event>, more: seq<Event>, f: Fixture, n: nat, k: Key)
    requires ledger <= more && n <= |ledger| && k in Keys(f)
    ensures EntryAt(more, n, k) == EntryAt(ledger, n, k) && EndsAt(more, f, n, k) == EndsAt(ledger, f, n, k)
  {
    forall o ensures InvalidAt(more, n, o) == InvalidAt(ledger, n, o) { RowsStable(ledger, more, n, o); }
    if k.Passage? { BoundStable(ledger, more, n); } else { StatusStable(ledger, more, n, k.relation); }
  }

  /** What a batch holds depends only on the ledger up to the moment it is built. */
  lemma BatchStable(ledger: seq<Event>, more: seq<Event>, f: Fixture, n: nat, event: nat)
    requires ledger <= more && n <= |ledger|
    ensures CurrentKeys(more, f, n) == CurrentKeys(ledger, f, n)
    ensures PutsAt(more, f, n, event) == PutsAt(ledger, f, n, event)
    ensures RemovalsAt(more, f, n, event) == RemovalsAt(ledger, f, n, event)
  {
    hide EntryAt, EndsAt;
    forall k | k in Keys(f)
      ensures EntryAt(more, n, k) == EntryAt(ledger, n, k) && EndsAt(more, f, n, k) == EndsAt(ledger, f, n, k)
    {
      EndsStable(ledger, more, f, n, k);
    }
  }

  /** An event that begins and ends nothing changes no batch. */
  lemma OtherChangesNothing(ledger: seq<Event>, f: Fixture, n: nat, event: nat)
    requires n < |ledger| && ledger[n].Other?
    ensures CurrentKeys(ledger, f, n + 1) == CurrentKeys(ledger, f, n)
    ensures PutsAt(ledger, f, n + 1, event) == PutsAt(ledger, f, n, event)
    ensures RemovalsAt(ledger, f, n + 1, event) == RemovalsAt(ledger, f, n, event)
  {
    forall k | k in Keys(f)
      ensures EntryAt(ledger, n + 1, k) == EntryAt(ledger, n, k) && EndsAt(ledger, f, n + 1, k) == EndsAt(ledger, f, n, k)
    {
      EndsSame(ledger, f, n, k);
    }
    hide EntryAt, EndsAt;
  }

  lemma EndsSame(ledger: seq<Event>, f: Fixture, n: nat, k: Key)
    requires n < |ledger| && ledger[n].Other? && k in Keys(f)
    ensures EntryAt(ledger, n + 1, k) == EntryAt(ledger, n, k) && EndsAt(ledger, f, n + 1, k) == EndsAt(ledger, f, n, k)
  {
    assert forall o :: InvalidAt(ledger, n + 1, o) == InvalidAt(ledger, n, o);
  }
}
