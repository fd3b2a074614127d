/**
 * What a Candidate store that opens looks like: the three row validators, read as one statement about
 * its rows.
 */
module CandidateOpening {
  import opened Common
  import opened Candidate

  function DecisionKey(d: DecisionRow): nat { d.id }

  predicate DistinctKeys<T, K(==)>(rows: seq<T>, key: T -> K) {
    forall i, j :: 0 <= i < j < |rows| ==> key(rows[i]) != key(rows[j])
  }

  /** The keys that the tables declare unique. */
  ghost predicate Keyed(s: Store) {
    && DistinctKeys(s.ledger, EventKey) && DistinctKeys(s.candidates, CandidateKey)
    && DistinctKeys(s.versions, VersionKey)
    && DistinctKeys(s.decisions, DecisionKey) && DistinctKeys(s.decisions, DecisionEvent)
  }

  /** The decision and the version a Candidate began with; every other decision of it is a later duplicate. */
  ghost predicate BeginsWith(s: Store, c: CandidateRow, d: DecisionRow, v: VersionRow) {
    && d in s.decisions && d.id == c.id && d.event == c.id && d.candidate == c.id && d.version == c.id
    && d.verdict.Admitted? && d.recordedAt == c.createdAt
    && v in s.versions && v.id == c.id && v.candidate == c.id && v.recordedAt == c.createdAt
    && (forall x :: x in s.versions && x.candidate == c.id ==> x == v)
    && forall x :: x in s.decisions && x.candidate == c.id && x != d ==>
         x.verdict.Deduplicated? && Sequence(s.ledger, d.event) < Sequence(s.ledger, x.event)
  }

  ghost predicate Begins(s: Store, c: CandidateRow) { exists d, v :: BeginsWith(s, c, d, v) }

  /** A context that was retained no later than a time. */
  predicate RetainedBy(s: Store, context: nat, at: nat) { context in s.contexts && s.contexts[context] <= at }

  /** A version belongs to a Candidate created at the same time. */
  ghost predicate VersionStands(s: Store, m: Manifest, v: VersionRow) {
    && v.number == 1 && v.manifest == m && RetainedBy(s, v.context, v.recordedAt)
    && exists c :: c in s.candidates && c.id == v.candidate && c.createdAt == v.recordedAt
  }

  /** A decision is its event's, about an earlier Candidate and a version of it. */
  ghost predicate DecisionStands(s: Store, m: Manifest, d: DecisionRow) {
    && d.manifest == m && RetainedBy(s, d.context, d.recordedAt)
    && Event(d.event, d.recordedAt) in s.ledger
    && (exists c :: c in s.candidates && c.id == d.candidate && c.createdAt <= d.recordedAt)
    && exists v :: v in s.versions && v.id == d.version && v.candidate == d.candidate && v.recordedAt <= d.recordedAt
  }

  /** The store in one statement. */
  ghost predicate Stands(s: Store, m: Manifest) {
    && (forall c :: c in s.candidates ==> c.manifest == m && Begins(s, c))
    && (forall v :: v in s.versions ==> VersionStands(s, m, v))
    && (forall d :: d in s.decisions ==> DecisionStands(s, m, d))
  }

  // ----- the lookups

  lemma {:induction false} FirstDecisionIs(ledger: seq<Event>, ds: seq<DecisionRow>, candidate: nat)
    ensures var first := FirstDecision(ledger, ds, candidate);
            && (first.None? <==> forall d :: d in ds ==> d.candidate != candidate)
            && (first.Some? ==> first.value in ds && first.value.candidate == candidate)
            && (first.Some? ==> forall d :: d in ds && d.candidate == candidate ==>
                  Sequence(ledger, first.value.event) <= Sequence(ledger, d.event))
  {
    if ds != [] {
      FirstDecisionIs(ledger, ds[..|ds| - 1], candidate);
      assert ds == ds[..|ds| - 1] + [ds[|ds| - 1]];
    }
  }

  lemma {:induction false} VersionsOfHolds(vs: seq<VersionRow>, candidate: nat, v: VersionRow)
    ensures v in VersionsOf(vs, candidate) <==> v in vs && v.candidate == candidate
  {
    if vs != [] {
      VersionsOfHolds(vs[..|vs| - 1], candidate, v);
      assert vs == vs[..|vs| - 1] + [vs[|vs| - 1]];
    }
  }

  /** Filtering rows with distinct identities leaves one row exactly when it is the only one of its Candidate. */
  lemma {:induction false} OneVersion(vs: seq<VersionRow>, candidate: nat, v: VersionRow)
    requires DistinctKeys(vs, VersionKey)
    ensures VersionsOf(vs, candidate) == [v] <==>
            v in vs && v.candidate == candidate && forall x :: x in vs && x.candidate == candidate ==> x == v
  {
    if vs != [] {
      var front, last := vs[..|vs| - 1], vs[|vs| - 1];
      assert vs == front + [last];
      assert DistinctKeys(front, VersionKey);
      forall i | 0 <= i < |front| ensures front[i] != last { assert VersionKey(vs[i]) != VersionKey(vs[|vs| - 1]); }
      OneVersion(front, candidate, v);
      VersionsOfHolds(front, candidate, v);
      if last.candidate == candidate {
        assert VersionsOf(vs, candidate) == VersionsOf(front, candidate) + [last];
        if VersionsOf(front, candidate) == [] {
          forall x | x in front ensures x.candidate != candidate { VersionsOfHolds(front, candidate, x); }
          assert VersionsOf(vs, candidate) == [last];
        } else {
          var x := VersionsOf(front, candidate)[0];
          VersionsOfHolds(front, candidate, x);
          assert |VersionsOf(vs, candidate)| >= 2;
          assert x in vs && last in vs && x != last;
        }
      }
    }
  }

  lemma {:induction false} SequenceDistinct(ledger: seq<Event>, a: Event, b: Event)
    requires DistinctKeys(ledger, EventKey) && a in ledger && b in ledger && a.id != b.id
    ensures Sequence(ledger, a.id) != Sequence(ledger, b.id)
    ensures 0 < Sequence(ledger, a.id) <= |ledger|
  {
    var front, last := ledger[..|ledger| - 1], ledger[|ledger| - 1];
    assert ledger == front + [last];
    assert DistinctKeys(front, EventKey);
    if a in front && b in front {
      assert EventKey(a) != EventKey(last) && EventKey(b) != EventKey(last) by { Before(ledger, a); Before(ledger, b); }
      SequenceDistinct(front, a, b);
    } else {
      SequenceWithin(ledger, a);
      SequenceWithin(ledger, b);
      if a in front { SequenceWithin(front, a); Before(ledger, a); }
      if b in front { SequenceWithin(front, b); Before(ledger, b); }
    }
  }

  lemma Before(ledger: seq<Event>, a: Event)
    requires DistinctKeys(ledger, EventKey) && ledger != [] && a in ledger[..|ledger| - 1]
    ensures a.id != ledger[|ledger| - 1].id
  {
    var i :| 0 <= i < |ledger| - 1 && ledger[i] == a;
    assert EventKey(ledger[i]) != EventKey(ledger[|ledger| - 1]);
  }

  lemma {:induction false} SequenceWithin(ledger: seq<Event>, a: Event)
    requires a in ledger
    ensures 0 < Sequence(ledger, a.id) <= |ledger|
  {
    var front, last := ledger[..|ledger| - 1], ledger[|ledger| - 1];
    assert ledger == front + [last];
    if last.id != a.id { SequenceWithin(front, a); }
  }

  // ----- each kind of row

  lemma VersionMeans(s: Store, m: Manifest, v: VersionRow)
    requires Keyed(s)
    ensures VersionValid(s, m, v) <==> VersionStands(s, m, v)
  {
    if c :| c in s.candidates && c.id == v.candidate && c.createdAt == v.recordedAt {
      FindUnique(s.candidates, CandidateKey, c);
    }
  }

  /** The decision validator, apart from the verdict. */
  lemma DecisionMeans(s: Store, m: Manifest, d: DecisionRow)
    requires Keyed(s) && d in s.decisions
    requires forall c :: c in s.candidates ==> c.manifest == m
    requires forall v :: v in s.versions ==> v.number == 1
    ensures var first := FirstDecision(s.ledger, s.decisions, d.candidate);
            DecisionValid(s, m, d) <==>
            && DecisionStands(s, m, d) && first.Some?
            && d.verdict == (if first.value.id == d.id then Admitted else Deduplicated)
  {
    if DecisionValid(s, m, d) {
      assert Event(d.event, d.recordedAt) == Find(s.ledger, EventKey, d.event).value;
    }
    if DecisionStands(s, m, d) {
      FindUnique(s.ledger, EventKey, Event(d.event, d.recordedAt));
      var c :| c in s.candidates && c.id == d.candidate && c.createdAt <= d.recordedAt;
      FindUnique(s.candidates, CandidateKey, c);
      var v :| v in s.versions && v.id == d.version && v.candidate == d.candidate && v.recordedAt <= d.recordedAt;
      FindUnique(s.versions, VersionKey, v);
    }
  }

  lemma SameDecision(s: Store, a: DecisionRow, b: DecisionRow)
    requires Keyed(s) && a in s.decisions && b in s.decisions && (a.id == b.id || a.event == b.event)
    ensures a == b
  {
    if a.id == b.id {
      FindUnique(s.decisions, DecisionKey, a);
      FindUnique(s.decisions, DecisionKey, b);
    } else {
      FindUnique(s.decisions, DecisionEvent, a);
      FindUnique(s.decisions, DecisionEvent, b);
    }
  }

  lemma CandidateMeans(s: Store, m: Manifest, c: CandidateRow)
    requires Keyed(s) && forall d :: d in s.decisions ==> DecisionStands(s, m, d)
    ensures CandidateValid(s, m, c) <==> c.manifest == m && Begins(s, c)
  {
    var first := FirstDecision(s.ledger, s.decisions, c.id);
    FirstDecisionIs(s.ledger, s.decisions, c.id);
    forall x, y | x in s.decisions && y in s.decisions && x != y
      ensures Sequence(s.ledger, x.event) != Sequence(s.ledger, y.event)
    {
      if x.event == y.event { SameDecision(s, x, y); }
      SequenceDistinct(s.ledger, Event(x.event, x.recordedAt), Event(y.event, y.recordedAt));
    }
    hide Keyed, Sequence, FirstDecision, DecisionStands;
    if CandidateValid(s, m, c) { ValidBegins(s, m, c, first); }
    if c.manifest == m && Begins(s, c) {
      var d, v :| BeginsWith(s, c, d, v);
      assert first == Some(d);
      BeginsValid(s, m, c, d, v);
    }
  }

  lemma ValidBegins(s: Store, m: Manifest, c: CandidateRow, first: Option<DecisionRow>)
    requires DistinctKeys(s.versions, VersionKey) && CandidateValid(s, m, c)
    requires first == FirstDecision(s.ledger, s.decisions, c.id)
    requires first.Some? ==> first.value in s.decisions && first.value.candidate == c.id
    requires first.Some? ==> forall d :: d in s.decisions && d.candidate == c.id && d != first.value ==>
               Sequence(s.ledger, first.value.event) < Sequence(s.ledger, d.event)
    ensures Begins(s, c)
  {
    hide FirstDecision, Sequence, VersionsOf;
    var v := VersionsOf(s.versions, c.id)[0];
    OneVersion(s.versions, c.id, v);
    assert BeginsWith(s, c, first.value, v);
  }

  lemma BeginsValid(s: Store, m: Manifest, c: CandidateRow, d: DecisionRow, v: VersionRow)
    requires DistinctKeys(s.versions, VersionKey) && BeginsWith(s, c, d, v) && c.manifest == m
    requires FirstDecision(s.ledger, s.decisions, c.id) == Some(d)
    ensures CandidateValid(s, m, c)
  {
    hide FirstDecision, Sequence, VersionsOf;
    OneVersion(s.versions, c.id, v);
  }

  /** In a store that stands, the verdict is what the Candidate's beginning says it is. */
  lemma VerdictStands(s: Store, m: Manifest, d: DecisionRow)
    requires Keyed(s) && Stands(s, m) && d in s.decisions
    ensures var first := FirstDecision(s.ledger, s.decisions, d.candidate);
            first.Some? && d.verdict == (if first.value.id == d.id then Admitted else Deduplicated)
  {
    FirstDecisionIs(s.ledger, s.decisions, d.candidate);
    assert DecisionStands(s, m, d);
    var c :| c in s.candidates && c.id == d.candidate && c.createdAt <= d.recordedAt;
    var b, v :| BeginsWith(s, c, b, v);
    var first := FirstDecision(s.ledger, s.decisions, d.candidate).value;
    assert first == b;
    if first.id == d.id { SameDecision(s, first, d); }
  }

  /** A store with distinct keys opens exactly when it stands. */
  lemma OpensMeans(s: Store, m: Manifest)
    requires Keyed(s)
    ensures Valid(s, m) <==> Stands(s, m)
  {
    forall v | v in s.versions ensures VersionValid(s, m, v) <==> VersionStands(s, m, v) { VersionMeans(s, m, v); }
    hide Keyed, VersionValid, DecisionValid, CandidateValid, DecisionStands, Begins;
    if Valid(s, m) {
      Manifests(s, m);
      forall d | d in s.decisions ensures DecisionStands(s, m, d) { DecisionMeans(s, m, d); }
      forall c | c in s.candidates ensures c.manifest == m && Begins(s, c) { CandidateMeans(s, m, c); }
    }
    if Stands(s, m) {
      forall c | c in s.candidates ensures CandidateValid(s, m, c) { CandidateMeans(s, m, c); }
      forall d | d in s.decisions ensures DecisionValid(s, m, d) {
        VerdictStands(s, m, d);
        DecisionMeans(s, m, d);
      }
    }
  }

  lemma Manifests(s: Store, m: Manifest)
    requires Valid(s, m)
    ensures forall c :: c in s.candidates ==> c.manifest == m
    ensures forall v :: v in s.versions ==> v.number == 1
  {
    hide FirstDecision, VersionsOf;
  }
}
