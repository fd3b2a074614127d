/**
 * What a graph contains: applying batches in any order at any moments never conflicts and ends in the
 * current records, and when such a graph is also the one a rebuild would make.
 */
module ProjectionContent {
  import opened Common
  import L = ProjectionLifecycle
  import R = ProjectionRecords
  import opened ProjectionModel

  /** Applies the batches of some contributions in turn to an empty graph. */
  function Replay(authority: seq<L.Event>, f: R.Fixture, cs: seq<R.Contribution>): Option<Graph>
    requires forall i :: 0 <= i < |cs| ==> cs[i].now <= |authority|
  {
    if cs == [] then Some(EMPTY_GRAPH)
    else
      var front, c := Replay(authority, f, cs[..|cs| - 1]), cs[|cs| - 1];
      if front.None? then None else Apply(front.value, c.event, BatchOf(authority, f, c.now, c.event))
  }

  /** Applying one batch to the records of some keys never conflicts and leaves the records of others. */
  lemma ApplyRecords(f: R.Fixture, have: set<R.Key>, removals: set<R.Key>, puts: set<R.Key>, g: Graph, sequence: nat)
    requires have <= R.Keys(f) && puts <= R.Keys(f) && sequence !in g.markers && g.records == R.RecordsOf(f, have)
    ensures var r := Apply(g, sequence, Batch(removals, R.RecordsOf(f, puts)));
            r.Some? && r.value.records == R.RecordsOf(f, (have - removals) + puts)
                    && r.value.markers == g.markers[sequence := Batch(removals, R.RecordsOf(f, puts))]
  {
    hide R.Keys, R.ContentOf;
  }

  /** The markers of a graph are the batches of the contributions, as they were built. */
  ghost predicate Marked(authority: seq<L.Event>, f: R.Fixture, cs: seq<R.Contribution>, g: Graph)
    requires R.Orderly(cs, |authority|)
  {
    && (forall q :: q in g.markers <==> R.Contributes(cs, q))
    && (forall i :: 0 <= i < |cs| ==> cs[i].event in g.markers
                                      && g.markers[cs[i].event] == BatchOf(authority, f, cs[i].now, cs[i].event))
  }

  lemma NextUnmarked(authority: seq<L.Event>, f: R.Fixture, cs: seq<R.Contribution>, g: Graph)
    requires cs != [] && R.Orderly(cs, |authority|) && Marked(authority, f, cs[..|cs| - 1], g)
    ensures cs[|cs| - 1].event !in g.markers
    ensures forall q :: R.Contributes(cs, q) <==> R.Contributes(cs[..|cs| - 1], q) || q == cs[|cs| - 1].event
  {
    hide BatchOf;
    assert forall i :: 0 <= i < |cs| - 1 ==> cs[..|cs| - 1][i] == cs[i];
  }

  lemma MarkedNext(authority: seq<L.Event>, f: R.Fixture, cs: seq<R.Contribution>, g: Graph, g': Graph)
    requires cs != [] && R.Orderly(cs, |authority|) && Marked(authority, f, cs[..|cs| - 1], g)
    requires var c := cs[|cs| - 1]; g'.markers == g.markers[c.event := BatchOf(authority, f, c.now, c.event)]
    ensures Marked(authority, f, cs, g')
  {
    NextUnmarked(authority, f, cs, g);
    hide BatchOf, R.Contributes;
    var front := cs[..|cs| - 1];
    forall i | 0 <= i < |front|
      ensures cs[i].event in g'.markers && g'.markers[cs[i].event] == BatchOf(authority, f, cs[i].now, cs[i].event)
    {
      assert front[i] == cs[i];
    }
  }

  /** The next contribution meets no marker of its own, so it never conflicts. */
  lemma NextApplies(authority: seq<L.Event>, f: R.Fixture, have: set<R.Key>, g: Graph, c: R.Contribution)
    requires c.now <= |authority| && have <= R.Keys(f) && g.records == R.RecordsOf(f, have) && c.event !in g.markers
    ensures var r := Apply(g, c.event, BatchOf(authority, f, c.now, c.event));
            && R.PutsAt(authority, f, c.now, c.event) <= R.Keys(f)
            && r.Some? && r.value.markers == g.markers[c.event := BatchOf(authority, f, c.now, c.event)]
            && r.value.records == R.RecordsOf(f, (have - R.RemovalsAt(authority, f, c.now, c.event))
                                                + R.PutsAt(authority, f, c.now, c.event))
  {
    PutsAreKeys(authority, f, c.now, c.event);
    hide R.PutsAt, R.RemovalsAt, Apply, R.RecordsOf, R.Keys;
    ApplyRecords(f, have, R.RemovalsAt(authority, f, c.now, c.event), R.PutsAt(authority, f, c.now, c.event), g, c.event);
  }

  /** No contribution ever conflicts, and the graph's records are the contributed ones. */
  lemma {:induction false} ReplayHolds(authority: seq<L.Event>, f: R.Fixture, cs: seq<R.Contribution>)
    requires R.Orderly(cs, |authority|)
    ensures R.Contributed(authority, f, cs) <= R.Keys(f)
    ensures Replay(authority, f, cs).Some?
    ensures Replay(authority, f, cs).value.records == R.RecordsOf(f, R.Contributed(authority, f, cs))
    ensures Marked(authority, f, cs, Replay(authority, f, cs).value)
    decreases |cs|
  {
    R.ContributedKeys(authority, f, cs);
    if cs != [] {
      hide R.PutsAt, R.RemovalsAt, Apply, R.RecordsOf, R.Keys, BatchOf, Marked, R.Contributes;
      var front, c := cs[..|cs| - 1], cs[|cs| - 1];
      ReplayHolds(authority, f, front);
      var g := Replay(authority, f, front).value;
      NextUnmarked(authority, f, cs, g);
      NextApplies(authority, f, R.Contributed(authority, f, front), g, c);
      MarkedNext(authority, f, cs, g, Replay(authority, f, cs).value);
    }
  }

  lemma PutsAreKeys(authority: seq<L.Event>, f: R.Fixture, n: nat, event: nat)
    requires n <= |authority|
    ensures R.PutsAt(authority, f, n, event) <= R.Keys(f)
  {
  }

  lemma {:induction false} ReplayStable(
      authority: seq<L.Event>, more: seq<L.Event>, f: R.Fixture, cs: seq<R.Contribution>)
    requires authority <= more && R.Orderly(cs, |authority|)
    ensures Replay(more, f, cs) == Replay(authority, f, cs)
  {
    if cs != [] {
      var c := cs[|cs| - 1];
      ReplayStable(authority, more, f, cs[..|cs| - 1]);
      R.BatchStable(authority, more, f, c.now, c.event);
    }
  }

  // ----- the records the ledger calls for

  function CurrentRecords(s: State): map<R.Key, nat> {
    R.RecordsOf(s.fixture, R.CurrentKeys(Authority(s.ledger), s.fixture, |s.ledger|))
  }

  /** Once everything has been contributed, in any order and at any moments, the graph holds the current records. */
  lemma ReplayIsCurrent(s: State, cs: seq<R.Contribution>)
    requires R.Orderly(cs, |s.ledger|) && R.Covers(Authority(s.ledger), cs)
    ensures Replay(Authority(s.ledger), s.fixture, cs).Some?
    ensures Replay(Authority(s.ledger), s.fixture, cs).value.records == CurrentRecords(s)
  {
    ReplayHolds(Authority(s.ledger), s.fixture, cs);
    R.ContributionsEndCurrent(Authority(s.ledger), s.fixture, cs);
  }

  lemma {:induction false} FoldIsReplay(s: State, n: nat)
    requires n <= |s.ledger|
    ensures R.Orderly(R.Fresh(n, |s.ledger|), |s.ledger|)
    ensures Fold(Expected(s, n)) == Replay(Authority(s.ledger), s.fixture, R.Fresh(n, |s.ledger|))
    decreases n
  {
    hide BatchOf, Apply;
    if n > 0 {
      FoldIsReplay(s, n - 1);
      assert Expected(s, n)[..n - 1] == Expected(s, n - 1);
      assert R.Fresh(n, |s.ledger|)[..n - 1] == R.Fresh(n - 1, |s.ledger|);
    }
  }

  /** Nothing after the source watermark begins or ends a record. */
  lemma {:induction false} QuietAfter(ledger: seq<Event>, i: nat)
    requires SourceWatermark(ledger) <= i < |ledger|
    ensures Authority(ledger)[i].Other?
  {
    if ledger[|ledger| - 1].Source? {
      assert false;
    } else if i < |ledger| - 1 {
      QuietAfter(ledger[..|ledger| - 1], i);
    }
  }

  lemma FreshCoversSources(s: State)
    ensures var c := SourceWatermark(s.ledger);
            R.Orderly(R.Fresh(c, |s.ledger|), |s.ledger|) && R.Covers(Authority(s.ledger), R.Fresh(c, |s.ledger|))
  {
    forall i | SourceWatermark(s.ledger) <= i < |s.ledger| ensures Authority(s.ledger)[i].Other? { QuietAfter(s.ledger, i); }
    R.FreshCovers(Authority(s.ledger), SourceWatermark(s.ledger));
  }

  /** A rebuild up to the source watermark never conflicts and leaves exactly the current records. */
  lemma RebuildIsCurrent(s: State)
    ensures var r := Fold(Expected(s, SourceWatermark(s.ledger))); r.Some? && r.value.records == CurrentRecords(s)
  {
    FoldIsReplay(s, SourceWatermark(s.ledger));
    FreshCoversSources(s);
    ReplayIsCurrent(s, R.Fresh(SourceWatermark(s.ledger), |s.ledger|));
  }

  // ----- graphs that grow delivery by delivery

  /** The graph came from an empty one by batches built and applied at moments of this ledger. */
  ghost predicate Grown(s: State, g: Graph) {
    exists cs :: R.Orderly(cs, |s.ledger|) && Replay(Authority(s.ledger), s.fixture, cs) == Some(g)
  }

  lemma EmptyGrown(s: State)
    ensures Grown(s, EMPTY_GRAPH)
  {
    assert R.Orderly([], |s.ledger|);
    assert Replay(Authority(s.ledger), s.fixture, []) == Some(EMPTY_GRAPH);
  }

  lemma GrownStays(s: State, s': State, g: Graph)
    requires Grown(s, g) && s.ledger <= s'.ledger && s'.fixture == s.fixture
    ensures Grown(s', g)
  {
    var cs :| R.Orderly(cs, |s.ledger|) && Replay(Authority(s.ledger), s.fixture, cs) == Some(g);
    ReplayStable(Authority(s.ledger), Authority(s'.ledger), s.fixture, cs);
  }

  /** A batch of a sequence without a marker is applied without conflict, and the graph has grown by it. */
  lemma GrownApplies(s: State, g: Graph, q: nat)
    requires Grown(s, g) && 1 <= q <= |s.ledger|
    ensures q !in g.markers ==> Apply(g, q, BatchNow(s, q)).Some?
    ensures Apply(g, q, BatchNow(s, q)).Some? ==> Grown(s, Apply(g, q, BatchNow(s, q)).value)
  {
    var authority := Authority(s.ledger);
    var cs :| R.Orderly(cs, |s.ledger|) && Replay(authority, s.fixture, cs) == Some(g);
    ReplayHolds(authority, s.fixture, cs);
    if q !in g.markers {
      hide Apply, BatchOf, Replay;
      var more := cs + [R.Contribution(q, |s.ledger|)];
      assert !R.Contributes(cs, q);
      assert R.Orderly(more, |s.ledger|);
      ReplayNext(authority, s.fixture, cs, R.Contribution(q, |s.ledger|));
      ReplayHolds(authority, s.fixture, more);
    }
  }

  lemma ReplayNext(authority: seq<L.Event>, f: R.Fixture, cs: seq<R.Contribution>, c: R.Contribution)
    requires c.now <= |authority| && R.Orderly(cs + [c], |authority|) && R.Orderly(cs, |authority|)
    requires Replay(authority, f, cs).Some?
    ensures Replay(authority, f, cs + [c]) ==
            Apply(Replay(authority, f, cs).value, c.event, BatchOf(authority, f, c.now, c.event))
  {
    assert (cs + [c])[..|cs|] == cs;
  }

  /** Every event that can begin or end a record has been applied. */
  ghost predicate UpToDate(s: State, g: Graph) {
    forall q :: 1 <= q <= |s.ledger| && s.ledger[q - 1].Source? ==> q in g.markers
  }

  /** Whenever a grown graph has taken in every source event, it holds exactly the current records. */
  lemma GrownIsCurrent(s: State, g: Graph)
    requires Grown(s, g) && UpToDate(s, g)
    ensures g.records == CurrentRecords(s)
  {
    hide Replay, CurrentRecords, R.Contributes;
    var cs :| R.Orderly(cs, |s.ledger|) && Replay(Authority(s.ledger), s.fixture, cs) == Some(g);
    ReplayHolds(Authority(s.ledger), s.fixture, cs);
    ReplayIsCurrent(s, cs);
  }

  lemma ExpectedMarkers(s: State, n: nat)
    requires n <= |s.ledger|
    ensures var r := Fold(Expected(s, n));
            && r.Some? && (forall q :: q in r.value.markers <==> 1 <= q <= n)
            && forall q :: 1 <= q <= n ==> r.value.markers[q] == BatchNow(s, q)
  {
    FoldIsReplay(s, n);
    var cs := R.Fresh(n, |s.ledger|);
    ReplayHolds(Authority(s.ledger), s.fixture, cs);
    var g := Fold(Expected(s, n)).value;
    forall q ensures q in g.markers <==> 1 <= q <= n {
      if 1 <= q <= n { assert cs[q - 1].event == q; }
    }
    forall q | 1 <= q <= n ensures g.markers[q] == BatchNow(s, q) {
      assert cs[q - 1] == R.Contribution(q, |s.ledger|);
    }
  }

  /** The graph carries exactly the batches that would be built now. */
  ghost predicate MarkersFresh(s: State, g: Graph, n: nat) {
    && (forall q :: q in g.markers <==> 1 <= q <= n)
    && forall q :: 1 <= q <= n ==> g.markers[q] == BatchNow(s, q)
  }

  /**
   * When an incrementally delivered generation can be validated at all: it reconciles at the source
   * watermark exactly when each delivered batch is the one that would be built now.
   */
  lemma ReconcilesIffFresh(s: State, g: Generation)
    requires Grown(s, g.graph)
    ensures Reconciles(s, g, SourceWatermark(s.ledger)) <==> MarkersFresh(s, g.graph, SourceWatermark(s.ledger))
  {
    var c := SourceWatermark(s.ledger);
    ExpectedMarkers(s, c);
    if MarkersFresh(s, g.graph, c) {
      forall i: nat | i < |s.ledger| && s.ledger[i].Source? ensures i < c { SourceBelow(s.ledger, i); }
      assert UpToDate(s, g.graph);
      GrownIsCurrent(s, g.graph);
      RebuildIsCurrent(s);
      var rebuilt := Fold(Expected(s, c)).value;
      assert rebuilt.markers == g.graph.markers;
    }
  }

  lemma {:induction false} SourceBelow(ledger: seq<Event>, i: nat)
    requires i < |ledger| && ledger[i].Source?
    ensures i < SourceWatermark(ledger)
  {
    if ledger[|ledger| - 1].Derived? { SourceBelow(ledger[..|ledger| - 1], i); }
  }

  /** A graph that reconciles at the source watermark holds exactly the current records. */
  lemma ReconciledIsCurrent(s: State, g: Generation)
    requires Reconciles(s, g, SourceWatermark(s.ledger))
    ensures g.graph.records == CurrentRecords(s)
  {
    RebuildIsCurrent(s);
  }

  // ----- a graph that holds the current records and still does not reconcile

  const MANIFEST := L.Object(1, 1)
  const FIXTURE := R.Fixture(MANIFEST, map[1 := R.Document(L.Object(2, 2), 7)], map[])
  /** The binding, and a revocation of the manifest. */
  const LEDGER := [Source(false, L.Bind), Source(false, L.Revoke(1))]
  /** Each delivered as it arrived. */
  const ARRIVALS := [R.Contribution(1, 1), R.Contribution(2, 2)]

  lemma AfterRevocation(policy: Policy)
    ensures var s := State(policy, FIXTURE, LEDGER, map[]);
            && BatchOf(Authority(LEDGER), FIXTURE, 1, 1).puts == map[R.Passage(1) := 7]
            && BatchNow(s, 1).puts == map[]
  {
    var authority := Authority(LEDGER);
    assert authority == [L.Bind, L.Revoke(1)];
    assert R.Keys(FIXTURE) == {R.Passage(1)};
    var own := FIXTURE.passages[1].governed;
    assert R.References(FIXTURE, R.Passage(1)) == {MANIFEST, own};
    assert authority[0] == L.Bind && authority[1] == L.Revoke(1);
    assert L.RowsAt(authority, 0, MANIFEST) == L.Rows(None, None, None);
    assert L.RowsAt(authority, 0, own) == L.Rows(None, None, None);
    assert L.RowsAt(authority, 1, MANIFEST) == L.Rows(None, None, None);
    assert L.RowsAt(authority, 1, own) == L.Rows(None, None, None);
    assert L.RowsAt(authority, 2, MANIFEST) == L.Rows(Some(2), None, None);
    assert L.InvalidAt(authority, 2, MANIFEST) == Some(2);
    assert L.BoundAt(authority, 1) == Some(1);
    R.CurrentMeans(authority, FIXTURE, 1, R.Passage(1));
    R.CurrentMeans(authority, FIXTURE, 2, R.Passage(1));
    assert R.PutsAt(authority, FIXTURE, 1, 1) == {R.Passage(1)};
    assert R.PutsAt(authority, FIXTURE, 2, 1) == {};
  }

  /**
   * Delivered as it arrives, a revocation empties the graph as it should, but the marker of the binding
   * still holds the revoked document: validation refuses this generation until it is rebuilt.
   */
  lemma RevocationNeedsRebuild(policy: Policy, g: Generation)
    requires Replay(Authority(LEDGER), FIXTURE, ARRIVALS) == Some(g.graph)
    ensures var s := State(policy, FIXTURE, LEDGER, map[]);
            && g.graph.records == CurrentRecords(s) && !Reconciles(s, g, SourceWatermark(s.ledger))
  {
    var s := State(policy, FIXTURE, LEDGER, map[]);
    ArrivalsCover();
    AfterRevocation(policy);
    hide BatchOf, R.Contributes, Replay, Reconciles, R.Covers;
    ReplayIsCurrent(s, ARRIVALS);
    ReplayHolds(Authority(LEDGER), FIXTURE, ARRIVALS);
    assert ARRIVALS[0].event == 1 && ARRIVALS[0].now == 1;
    assert g.graph.markers[1] == BatchOf(Authority(LEDGER), FIXTURE, 1, 1);
    assert R.Passage(1) in g.graph.markers[1].puts && R.Passage(1) !in BatchNow(s, 1).puts;
    assert SourceWatermark(s.ledger) == 2;
    assert Grown(s, g.graph);
    ReconcilesIffFresh(s, g);
  }

  lemma ArrivalsCover()
    ensures R.Orderly(ARRIVALS, 2) && R.Covers(Authority(LEDGER), ARRIVALS)
  {
    var authority := Authority(LEDGER);
    assert |authority| == |LEDGER| == 2;
    forall e | 1 <= e <= |authority| && !authority[e - 1].Other? ensures R.Contributes(ARRIVALS, e) {
      assert ARRIVALS[e - 1].event == e;
    }
    assert R.Covers(authority, ARRIVALS);
  }
}
