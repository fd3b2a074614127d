/**
 * The complete projection's records and batches, said by the ledger's events alone: which records are
 * current, which an event's batch puts, and which it removes.
 */
module ProjectionMeaning {
  import opened Common
  import opened ProjectionLifecycle
  import opened ProjectionRecords
  import C = ProjectionContent
  import M = ProjectionModel

  /** The record is the fixture's, and it rests on this object: the manifest, its passage or its evidence. */
  predicate RestsOn(f: Fixture, k: Key, o: Object) {
    match k
    case Passage(p) => p in f.passages && (o == f.manifest || o == f.passages[p].governed)
    case Relation(r) => r in f.relations && (o == f.manifest || o in f.relations[r].evidence)
  }

  /** The first binding, or the first admission of the relation. */
  predicate Enters(ledger: seq<Event>, k: Key, e: nat) {
    && 1 <= e <= |ledger|
    && match k
       case Passage(_) => ledger[e - 1] == Bind && forall i :: 0 <= i < e - 1 ==> ledger[i] != Bind
       case Relation(r) => FirstAdmission(ledger, |ledger|, r, e)
  }

  /** The relation's first withdrawal after its first admission. */
  predicate Leaves(ledger: seq<Event>, r: nat, since: nat, until: nat) {
    && FirstAdmission(ledger, |ledger|, r, since) && since < until <= |ledger| && ledger[until - 1] == Withdraw(r)
    && forall i :: since <= i < until - 1 ==> ledger[i] != Withdraw(r)
  }

  /** Some event so far has taken the object out of order. */
  predicate Spoilt(ledger: seq<Event>, n: nat, o: Object)
    requires n <= |ledger|
  {
    exists i :: 0 <= i < n && ledger[i] in {Revoke(o.admission), RequestDeletion(o.blob), Reclaimed(o.blob)}
  }

  ghost predicate LeavesAt(ledger: seq<Event>, r: nat, until: nat) {
    exists since: nat :: Leaves(ledger, r, since, until)
  }

  ghost predicate EverLeft(ledger: seq<Event>, r: nat, n: nat) {
    exists until: nat :: LeavesAt(ledger, r, until) && until <= n
  }

  ghost predicate EverEntered(ledger: seq<Event>, k: Key, n: nat) { exists e: nat :: Enters(ledger, k, e) && e <= n }

  /** The record is put and nothing it rests on is spoilt; a relation has not been withdrawn. */
  ghost predicate Stands(ledger: seq<Event>, f: Fixture, n: nat, k: Key)
    requires n <= |ledger|
  {
    && EverEntered(ledger, k, n)
    && (k.Relation? ==> !EverLeft(ledger, k.relation, n))
    && forall o :: RestsOn(f, k, o) ==> !Spoilt(ledger, n, o)
  }

  /** The event is the last of those that invalidate the object. */
  ghost predicate LastInvalidates(ledger: seq<Event>, n: nat, o: Object, e: nat)
    requires n <= |ledger|
  {
    1 <= e <= n && Invalidates(ledger, e - 1, o) && forall i: nat :: e <= i < n ==> !Invalidates(ledger, i, o)
  }

  /** The event that ends a record. */
  ghost predicate Ends(ledger: seq<Event>, f: Fixture, n: nat, k: Key, e: nat)
    requires n <= |ledger|
  {
    match k
    case Passage(_) => exists o :: RestsOn(f, k, o) && LastInvalidates(ledger, n, o, e)
    case Relation(r) =>
      if EverLeft(ledger, r, n) then LeavesAt(ledger, r, e)
      else exists o :: RestsOn(f, k, o) && LastInvalidates(ledger, n, o, e) && Quiet(ledger, f, n, k, e)
  }

  /** Nothing the record rests on is invalidated again after some event. */
  ghost predicate Quiet(ledger: seq<Event>, f: Fixture, n: nat, k: Key, e: nat)
    requires n <= |ledger|
  {
    forall o, i: nat :: RestsOn(f, k, o) && e <= i < n ==> !Invalidates(ledger, i, o)
  }

  // ----- the correspondence

  lemma EntrySays(ledger: seq<Event>, n: nat, k: Key)
    requires n <= |ledger|
    ensures forall e: nat :: EntryAt(ledger, n, k) == Some(e) <==> Enters(ledger, k, e) && e <= n
  {
    if k.Passage? { BoundMeans(ledger, n); } else { StatusMeans(ledger, n, k.relation); }
  }

  lemma EntersOnce(ledger: seq<Event>, k: Key, d: nat, e: nat)
    requires Enters(ledger, k, d) && Enters(ledger, k, e)
    ensures d == e
  {
  }

  lemma LeftSays(ledger: seq<Event>, n: nat, r: nat)
    requires n <= |ledger|
    ensures StatusAt(ledger, n, r).Withdrawn? <==> EverLeft(ledger, r, n)
    ensures StatusAt(ledger, n, r).Withdrawn? ==>
              forall e: nat :: LeavesAt(ledger, r, e) <==> e == StatusAt(ledger, n, r).until
  {
    StatusMeans(ledger, n, r);
    var s := StatusAt(ledger, n, r);
    if s.Withdrawn? { assert Leaves(ledger, r, s.since, s.until) && LeavesAt(ledger, r, s.until); }
    forall until: nat | LeavesAt(ledger, r, until)
      ensures until <= n ==> s.Withdrawn?
      ensures s.Withdrawn? ==> s.until == until
    {
      var since: nat :| Leaves(ledger, r, since, until);
      EntersOnce(ledger, Relation(r), since, if s.Unknown? then since else s.since);
    }
  }

  lemma InvalidSays(ledger: seq<Event>, n: nat, o: Object)
    requires n <= |ledger|
    ensures InvalidAt(ledger, n, o).Some? <==> Spoilt(ledger, n, o)
    ensures forall e: nat :: InvalidAt(ledger, n, o) == Some(e) <==> LastInvalidates(ledger, n, o, e)
  {
    InvalidMeans(ledger, n, o);
    InvalidIsLatest(ledger, n, o);
    hide Invalidates, InvalidAt;
  }

  lemma ReferencesSay(f: Fixture, k: Key, o: Object)
    requires k in Keys(f)
    ensures o in References(f, k) <==> RestsOn(f, k, o)
  {
  }

  /** Which records are current. */
  lemma CurrentSays(ledger: seq<Event>, f: Fixture, n: nat, k: Key)
    requires n <= |ledger| && k in Keys(f)
    ensures Current(ledger, f, n, k) <==> Stands(ledger, f, n, k)
  {
    CurrentMeans(ledger, f, n, k);
    EntrySays(ledger, n, k);
    if k.Relation? { LeftSays(ledger, n, k.relation); }
    forall o ensures InvalidAt(ledger, n, o).Some? <==> Spoilt(ledger, n, o) { InvalidSays(ledger, n, o); }
    forall o ensures o in References(f, k) <==> RestsOn(f, k, o) { ReferencesSay(f, k, o); }
    hide Current, InvalidAt, References, RestsOn, Spoilt, Enters, EverLeft;
  }

  /** Which records an event's batch puts, if it is built now: the current ones that entered with it. */
  lemma PutsSay(ledger: seq<Event>, f: Fixture, n: nat, e: nat, k: Key)
    requires n <= |ledger|
    ensures k in PutsAt(ledger, f, n, e) <==>
            k in Keys(f) && e <= n && Enters(ledger, k, e) && Stands(ledger, f, n, k)
  {
    EntrySays(ledger, n, k);
    if k in Keys(f) { CurrentSays(ledger, f, n, k); }
    hide EntryAt, Stands, Enters, Current;
  }

  /** Which records it removes: those that had entered and that this event ends. */
  lemma RemovalsSay(ledger: seq<Event>, f: Fixture, n: nat, e: nat, k: Key)
    requires n <= |ledger|
    ensures k in RemovalsAt(ledger, f, n, e) <==>
            k in Keys(f) && EverEntered(ledger, k, n) && Ends(ledger, f, n, k, e)
  {
    EntrySays(ledger, n, k);
    if k in Keys(f) { EndsSay(ledger, f, n, k, e); }
    hide EntryAt, EndsAt, Ends, Enters;
  }

  lemma EndsSay(ledger: seq<Event>, f: Fixture, n: nat, k: Key, e: nat)
    requires n <= |ledger| && k in Keys(f)
    ensures e in EndsAt(ledger, f, n, k) <==> Ends(ledger, f, n, k, e)
  {
    forall o
      ensures InvalidAt(ledger, n, o) == Some(e) <==> LastInvalidates(ledger, n, o, e)
      ensures o in References(f, k) <==> RestsOn(f, k, o)
    {
      InvalidSays(ledger, n, o);
      ReferencesSay(f, k, o);
    }
    if k.Relation? {
      LeftSays(ledger, n, k.relation);
      forall o | o in References(f, k) && InvalidAt(ledger, n, o) == Some(e)
        ensures LatestInvalid(ledger, n, References(f, k), o) <==> Quiet(ledger, f, n, k, e)
      {
        LatestSays(ledger, f, n, k, o, e);
      }
    }
    hide InvalidAt, References, RestsOn, LastInvalidates, EverLeft, LeavesAt, LatestInvalid, Quiet;
  }

  lemma LatestSays(ledger: seq<Event>, f: Fixture, n: nat, k: Key, o: Object, e: nat)
    requires n <= |ledger| && k in Keys(f) && o in References(f, k) && InvalidAt(ledger, n, o) == Some(e)
    ensures LatestInvalid(ledger, n, References(f, k), o) <==> Quiet(ledger, f, n, k, e)
  {
    forall x
      ensures x in References(f, k) <==> RestsOn(f, k, x)
      ensures InvalidAt(ledger, n, x).Some? && InvalidAt(ledger, n, x).value > e <==>
              exists i: nat :: e <= i < n && Invalidates(ledger, i, x)
    {
      InvalidIsLatest(ledger, n, x);
      ReferencesSay(f, k, x);
      hide Invalidates, InvalidAt;
    }
    hide InvalidAt, References, RestsOn, Invalidates;
  }

  // ----- the records of a store

  /** A source event of the store's ledger says this. */
  predicate Happened(s: M.State, i: nat, e: Event) {
    i < |s.ledger| && s.ledger[i].Source? && s.ledger[i].authority == e
  }

  /** Nothing in the ledger has taken the object out of order. */
  ghost predicate InOrder(s: M.State, o: Object) {
    forall i: nat, e :: Happened(s, i, e) ==> e !in {Revoke(o.admission), RequestDeletion(o.blob), Reclaimed(o.blob)}
  }

  lemma AuthoritySays(s: M.State, i: nat, e: Event)
    requires !e.Other?
    ensures Happened(s, i, e) <==> i < |s.ledger| && M.Authority(s.ledger)[i] == e
  {
  }

  lemma InOrderSays(s: M.State, o: Object)
    ensures InOrder(s, o) <==> !Spoilt(M.Authority(s.ledger), |s.ledger|, o)
  {
    var authority := M.Authority(s.ledger);
    if Spoilt(authority, |s.ledger|, o) {
      var i: nat :| i < |authority| && authority[i] in {Revoke(o.admission), RequestDeletion(o.blob), Reclaimed(o.blob)};
      AuthoritySays(s, i, authority[i]);
    }
    forall i: nat, e | Happened(s, i, e) && e in {Revoke(o.admission), RequestDeletion(o.blob), Reclaimed(o.blob)}
      ensures Spoilt(authority, |s.ledger|, o)
    {
      AuthoritySays(s, i, e);
    }
  }

  /** A passage's document is current exactly when the fixture has it, is bound, and its two objects are in order. */
  lemma PassageSays(s: M.State, p: nat)
    ensures Passage(p) in C.CurrentRecords(s) <==>
            && p in s.fixture.passages && (exists i: nat :: Happened(s, i, Bind))
            && InOrder(s, s.fixture.manifest) && InOrder(s, s.fixture.passages[p].governed)
    ensures Passage(p) in C.CurrentRecords(s) ==> C.CurrentRecords(s)[Passage(p)] == s.fixture.passages[p].content
  {
    var authority, n := M.Authority(s.ledger), |s.ledger|;
    if p in s.fixture.passages {
      assert Passage(p) in Keys(s.fixture);
      CurrentMeans(authority, s.fixture, n, Passage(p));
      BoundMeans(authority, n);
      forall i: nat ensures Happened(s, i, Bind) <==> i < n && authority[i] == Bind { AuthoritySays(s, i, Bind); }
      forall o ensures InOrder(s, o) <==> InvalidAt(authority, n, o).None? {
        InOrderSays(s, o);
        InvalidSays(authority, n, o);
      }
    }
    hide InvalidAt, InOrder, BoundAt, Happened, Current;
  }

  /** The first admission of a relation, never followed by its withdrawal. */
  ghost predicate AdmittedAt(s: M.State, r: nat, i: nat) {
    && Happened(s, i, Admit(r)) && (forall j: nat :: j < i ==> !Happened(s, j, Admit(r)))
    && forall j: nat :: i < j ==> !Happened(s, j, Withdraw(r))
  }

  /** A relation is current exactly when it stands admitted and the manifest and all its evidence are in order. */
  lemma RelationSays(s: M.State, r: nat)
    ensures Relation(r) in C.CurrentRecords(s) <==>
            && r in s.fixture.relations && (exists i: nat :: AdmittedAt(s, r, i))
            && InOrder(s, s.fixture.manifest)
            && forall o :: o in s.fixture.relations[r].evidence ==> InOrder(s, o)
    ensures Relation(r) in C.CurrentRecords(s) ==> C.CurrentRecords(s)[Relation(r)] == s.fixture.relations[r].content
  {
    var authority, n := M.Authority(s.ledger), |s.ledger|;
    if r in s.fixture.relations {
      assert Relation(r) in Keys(s.fixture);
      CurrentMeans(authority, s.fixture, n, Relation(r));
      AdmittedSays(s, r);
      forall o ensures InOrder(s, o) <==> InvalidAt(authority, n, o).None? {
        InOrderSays(s, o);
        InvalidSays(authority, n, o);
      }
    }
    hide InvalidAt, InOrder, StatusAt, AdmittedAt, Current;
  }

  lemma AdmittedSays(s: M.State, r: nat)
    ensures (exists i: nat :: AdmittedAt(s, r, i)) <==> StatusAt(M.Authority(s.ledger), |s.ledger|, r).Admitted?
  {
    var authority, n := M.Authority(s.ledger), |s.ledger|;
    StatusMeans(authority, n, r);
    forall i: nat
      ensures Happened(s, i, Admit(r)) <==> i < n && authority[i] == Admit(r)
      ensures Happened(s, i, Withdraw(r)) <==> i < n && authority[i] == Withdraw(r)
    {
      AuthoritySays(s, i, Admit(r));
      AuthoritySays(s, i, Withdraw(r));
    }
    hide Happened, StatusAt;
    var status := StatusAt(authority, n, r);
    if status.Admitted? { assert AdmittedAt(s, r, status.since - 1); }
    if i: nat :| AdmittedAt(s, r, i) {
      assert status.Unknown? || status.since - 1 == i;
    }
  }
}
