/**
 * The dispatch protocol of the programme executor: any number of concurrent invocations share an
 * evidence directory, an advisory lock and one marker file for each packet digest, and any of them
 * may die at any step.
 */
module Executor {
  import opened Common

  type Digest = nat

  const CLASSIFIED_PRIOR_STARTS := 9
  const CLASSIFIED_PRIOR_RESERVED := 4_000_000

  /** What a marker file decodes to; a torn or malformed file is Unreadable or lacks a field. */
  datatype Marker = Unreadable | Fields(events: Option<int>, spend: Option<int>)

  datatype Packet = Packet(digest: Digest, events: nat, spend: nat)

  datatype Phase =
    | Binding | WantLock | Locked | MarkerChecked | OutputChecked | OutputMade | PacketCopied
    | MarkerCreated | MarkerWritten | Dispatching | Ended

  datatype Process = Process(packet: Packet, phase: Phase)

  /** `outputs` maps an output directory to whether it holds terminal evidence. */
  datatype State = State(
    spent: set<Digest>, markers: map<Digest, Marker>, outputs: map<Digest, bool>, lock: Option<nat>,
    processes: map<nat, Process>, dispatched: seq<Packet>)

  predicate HoldsLock(f: Phase) {
    f.Locked? || f.MarkerChecked? || f.OutputChecked? || f.OutputMade? || f.PacketCopied? || f.MarkerCreated?
    || f.MarkerWritten? || f.Dispatching?
  }

  // ----- the consumption reader

  predicate Readable(m: Marker) {
    m.Fields? && m.events.Some? && m.spend.Some? && m.events.value >= 0 && m.spend.value >= 0
  }

  /** Whether the reader can sum every marker it does not skip. */
  predicate Inspectable(markers: map<Digest, Marker>, spent: set<Digest>) {
    forall d :: d in markers && d !in spent ==> Readable(markers[d])
  }

  // ----- one step of one invocation

  function Move(s: State, p: nat, f: Phase): State
    requires p in s.processes
  {
    s.(processes := s.processes[p := s.processes[p].(phase := f)])
  }

  /** The invocation stops, by refusal or by crash; the kernel drops its lock. */
  function Stop(s: State, p: nat): State
    requires p in s.processes
  {
    var s' := Move(s, p, Ended);
    if s.lock == Some(p) then s'.(lock := None) else s'
  }

  predicate AmbiguousOutput(s: State, d: Digest) { d in s.outputs && !s.outputs[d] }

  function Advance(s: State, p: nat): State
    requires p in s.processes
  {
    var packet := s.processes[p].packet;
    var d := packet.digest;
    match s.processes[p].phase
    case Binding =>
      if d in s.spent || !Inspectable(s.markers, s.spent) || d in s.markers || AmbiguousOutput(s, d) then Stop(s, p)
      else Move(s, p, WantLock)
    case WantLock => if s.lock.Some? then Stop(s, p) else Move(s, p, Locked).(lock := Some(p))
    case Locked => if d in s.markers then Stop(s, p) else Move(s, p, MarkerChecked)
    case MarkerChecked => if AmbiguousOutput(s, d) then Stop(s, p) else Move(s, p, OutputChecked)
    case OutputChecked =>
      if d in s.outputs then Stop(s, p) else Move(s, p, OutputMade).(outputs := s.outputs[d := false])
    case OutputMade => Move(s, p, PacketCopied)
    case PacketCopied =>
      if d in s.markers then Stop(s, p) else Move(s, p, MarkerCreated).(markers := s.markers[d := Unreadable])
    case MarkerCreated =>
      Move(s, p, MarkerWritten).(markers := s.markers[d := Fields(Some(packet.events), Some(packet.spend))])
    case MarkerWritten => Move(s, p, Dispatching).(dispatched := s.dispatched + [packet])
    case Dispatching => Stop(s, p)
    case Ended => s
  }

  // ----- interleavings

  datatype Step =
    | Invoke(process: nat, packet: Packet)   // a new invocation starts
    | Continue(process: nat)                 // an invocation performs its next file operation
    | Crash(process: nat)                    // an invocation dies where it stands
    | Evidence(process: nat)                 // the worker of a dispatch writes its terminal evidence

  function Apply(s: State, step: Step): State {
    match step
    case Invoke(p, packet) => if p in s.processes then s else s.(processes := s.processes[p := Process(packet, Binding)])
    case Continue(p) => if p in s.processes then Advance(s, p) else s
    case Crash(p) => if p in s.processes then Stop(s, p) else s
    case Evidence(p) =>
      if p in s.processes && s.processes[p].phase.Dispatching?
      then s.(outputs := s.outputs[s.processes[p].packet.digest := true]) else s
  }

  function Run(s: State, steps: seq<Step>): State
    decreases steps
  {
    if steps == [] then s else Run(Apply(s, steps[0]), steps[1..])
  }

  /** Any evidence directory left by earlier invocations, with nothing running. */
  predicate Initial(s: State) { s.lock.None? && s.processes == map[] && s.dispatched == [] }

  // ----- the invariant

  /** The lock is held exactly by the one invocation inside the protected section. */
  ghost predicate LockOk(s: State) {
    forall p :: p in s.processes ==> (HoldsLock(s.processes[p].phase) <==> s.lock == Some(p))
  }

  predicate Dispatched(s: State, d: Digest) { exists i :: 0 <= i < |s.dispatched| && s.dispatched[i].digest == d }

  /** What an invocation knows of its own digest in each phase. */
  ghost predicate PhaseOk(s: State, p: nat)
    requires p in s.processes
  {
    var packet := s.processes[p].packet;
    var f := s.processes[p].phase;
    && (!f.Binding? && !f.Ended? ==> packet.digest !in s.spent)
    && (f.MarkerChecked? || f.OutputChecked? || f.OutputMade? || f.PacketCopied? ==> packet.digest !in s.markers)
    && (f.MarkerCreated? || f.MarkerWritten? ==> packet.digest in s.markers && !Dispatched(s, packet.digest))
    && (f.MarkerWritten? ==> s.markers[packet.digest] == Fields(Some(packet.events), Some(packet.spend)))
  }

  /** Every dispatch has its durable marker, with its own numbers, under a digest that is not spent. */
  ghost predicate DispatchesMarked(s: State) {
    forall i :: 0 <= i < |s.dispatched| ==>
      && s.dispatched[i].digest in s.markers && s.dispatched[i].digest !in s.spent
      && s.markers[s.dispatched[i].digest] == Fields(Some(s.dispatched[i].events), Some(s.dispatched[i].spend))
  }

  ghost predicate DispatchedOnce(s: State) {
    forall i, j :: 0 <= i < j < |s.dispatched| ==> s.dispatched[i].digest != s.dispatched[j].digest
  }

  ghost predicate Inv(s: State) {
    && LockOk(s) && DispatchesMarked(s) && DispatchedOnce(s)
    && (s.lock.Some? ==> s.lock.value in s.processes)
    && forall p :: p in s.processes ==> PhaseOk(s, p)
  }

  lemma InitialInv(s: State)
    requires Initial(s)
    ensures Inv(s)
  {
  }

  /** A step that leaves files and dispatches alone and moves one process without giving it new knowledge. */
  lemma StopKeeps(s: State, p: nat)
    requires Inv(s) && p in s.processes
    ensures Inv(Stop(s, p))
  {
    var s' := Stop(s, p);
    forall q | q in s'.processes ensures PhaseOk(s', q) { assert PhaseOk(s, q); }
  }

  /** Only the lock holder is in a phase that has looked at the marker. */
  lemma Alone(s: State, p: nat, q: nat)
    requires Inv(s) && p in s.processes && q in s.processes && p != q && HoldsLock(s.processes[p].phase)
    ensures !HoldsLock(s.processes[q].phase)
  {
  }

  /** Moving one process to a phase whose knowledge it has keeps the invariant. */
  lemma RelabelKeeps(s: State, p: nat, f: Phase, s': State)
    requires Inv(s) && p in s.processes
    requires s' == Move(s, p, f).(lock := s'.lock, outputs := s'.outputs)
    requires if HoldsLock(f) then s'.lock == Some(p) && (s.lock == None || s.lock == Some(p))
             else s'.lock == s.lock && s.lock != Some(p)
    requires PhaseOk(s', p)
    ensures Inv(s')
  {
    forall q | q in s'.processes ensures PhaseOk(s', q) { if q != p { assert PhaseOk(s, q); } }
  }

  lemma MoveKeeps(s: State, p: nat, s': State)
    requires Inv(s) && p in s.processes && s' == Advance(s, p)
    requires var f := s.processes[p].phase;
             f.Binding? || f.WantLock? || f.Locked? || f.MarkerChecked? || f.OutputChecked? || f.OutputMade?
    ensures Inv(s')
  {
    assert PhaseOk(s, p);
    assert HoldsLock(s.processes[p].phase) <==> s.lock == Some(p);
    if s'.processes[p].phase.Ended? {
      StopKeeps(s, p);
    } else {
      assert PhaseOk(s', p);
      hide Inv, PhaseOk;
      RelabelKeeps(s, p, s'.processes[p].phase, s');
    }
  }

  lemma CreateKeeps(s: State, p: nat)
    requires Inv(s) && p in s.processes && s.processes[p].phase.PacketCopied?
    ensures Inv(Advance(s, p))
  {
    assert PhaseOk(s, p);
    var s' := Advance(s, p);
    var d := s.processes[p].packet.digest;
    assert s'.dispatched == s.dispatched && !Dispatched(s, d);
    forall q | q in s'.processes ensures PhaseOk(s', q) {
      assert PhaseOk(s, q);
      if q != p { Alone(s, p, q); }
    }
  }

  lemma WriteKeeps(s: State, p: nat)
    requires Inv(s) && p in s.processes && s.processes[p].phase.MarkerCreated?
    ensures Inv(Advance(s, p))
  {
    assert PhaseOk(s, p);
    var s' := Advance(s, p);
    var d := s.processes[p].packet.digest;
    forall i | 0 <= i < |s.dispatched| ensures s.dispatched[i].digest != d {}
    forall q | q in s'.processes ensures PhaseOk(s', q) {
      assert PhaseOk(s, q);
      if q != p { Alone(s, p, q); }
    }
  }

  lemma DispatchKeeps(s: State, p: nat)
    requires Inv(s) && p in s.processes && s.processes[p].phase.MarkerWritten?
    ensures Inv(Advance(s, p))
  {
    assert PhaseOk(s, p);
    var s' := Advance(s, p);
    var d := s.processes[p].packet.digest;
    forall i | 0 <= i < |s.dispatched| ensures s.dispatched[i].digest != d {}
    forall q | q in s'.processes ensures PhaseOk(s', q) {
      assert PhaseOk(s, q);
      if q != p { Alone(s, p, q); }
    }
  }

  lemma ApplyKeeps(s: State, step: Step)
    requires Inv(s)
    ensures Inv(Apply(s, step))
  {
    var s' := Apply(s, step);
    match step
    case Invoke(p, packet) =>
      if p !in s.processes {
        forall q | q in s'.processes ensures PhaseOk(s', q) { if q != p { assert PhaseOk(s, q); } }
      }
    case Continue(p) =>
      if p in s.processes {
        match s.processes[p].phase
        case PacketCopied => CreateKeeps(s, p);
        case MarkerCreated => WriteKeeps(s, p);
        case MarkerWritten => DispatchKeeps(s, p);
        case Dispatching => StopKeeps(s, p);
        case Ended =>
        case _ => MoveKeeps(s, p, s');
      }
    case Crash(p) => if p in s.processes { StopKeeps(s, p); }
    case Evidence(p) =>
      forall q | q in s'.processes ensures PhaseOk(s', q) { assert PhaseOk(s, q); }
  }

  lemma {:induction false} RunKeeps(s: State, steps: seq<Step>)
    requires Inv(s)
    ensures Inv(Run(s, steps))
    decreases steps
  {
    if steps != [] {
      ApplyKeeps(s, steps[0]);
      RunKeeps(Apply(s, steps[0]), steps[1..]);
    }
  }

  predicate InFlight(s: State, p: nat) { p in s.processes && s.processes[p].phase.Dispatching? }

  /**
   * For any interleaving of any number of invocations, with a crash at any step: each packet digest is
   * dispatched at most once, at most one dispatch is in flight, and every dispatch has its marker.
   */
  lemma AtMostOnce(s: State, steps: seq<Step>, p: nat, q: nat)
    requires Initial(s)
    ensures var t := Run(s, steps);
            && DispatchedOnce(t) && DispatchesMarked(t)
            && (InFlight(t, p) && InFlight(t, q) ==> p == q)
  {
    InitialInv(s);
    RunKeeps(s, steps);
  }

  // ----- what one step may do to a digest

  /** A dispatch happens only in the step after its own marker was written, never to a marked-by-others digest. */
  lemma DispatchNeedsOwnMarker(s: State, step: Step)
    requires Inv(s) && |Apply(s, step).dispatched| > |s.dispatched|
    ensures step.Continue? && step.process in s.processes
    ensures var packet := s.processes[step.process].packet;
            && s.lock == Some(step.process)
            && s.markers[packet.digest] == Fields(Some(packet.events), Some(packet.spend))
            && !Dispatched(s, packet.digest)
            && Apply(s, step).dispatched == s.dispatched + [packet]
  {
    assert PhaseOk(s, step.process);
  }

  /** The digest has a marker whose writer is gone without dispatching it. */
  ghost predicate Abandoned(s: State, d: Digest) {
    && d in s.markers && !Dispatched(s, d)
    && forall p :: p in s.processes && s.processes[p].packet.digest == d ==>
         !s.processes[p].phase.MarkerCreated? && !s.processes[p].phase.MarkerWritten?
  }

  lemma StopAbandons(s: State, p: nat, d: Digest)
    requires Abandoned(s, d) && p in s.processes
    ensures Abandoned(Stop(s, p), d)
  {
  }

  lemma AdvanceAbandons(s: State, p: nat, d: Digest)
    requires Abandoned(s, d) && p in s.processes && PhaseOk(s, p)
    ensures Abandoned(Advance(s, p), d)
  {
    var s' := Advance(s, p);
    if s'.processes[p].phase.Ended? {
      if !s.processes[p].phase.Ended? { StopAbandons(s, p, d); }
    } else {
      assert forall i :: 0 <= i < |s.dispatched| ==> s.dispatched[i].digest != d;
      assert s'.dispatched == s.dispatched || s'.dispatched == s.dispatched + [s.processes[p].packet];
    }
  }

  /** A marker left by a crash keeps its digest from ever being dispatched. */
  lemma {:induction false} AbandonedNeverDispatched(s: State, steps: seq<Step>, d: Digest)
    requires Inv(s) && Abandoned(s, d)
    ensures Abandoned(Run(s, steps), d)
    decreases steps
  {
    if steps != [] {
      ApplyKeeps(s, steps[0]);
      match steps[0] {
        case Invoke(p, packet) =>
        case Continue(p) => if p in s.processes { AdvanceAbandons(s, p, d); }
        case Crash(p) => if p in s.processes { StopAbandons(s, p, d); }
        case Evidence(p) =>
      }
      hide Inv;
      AbandonedNeverDispatched(Apply(s, steps[0]), steps[1..], d);
    }
  }

  // ----- an undisturbed invocation

  function Continued(s: State, p: nat, n: nat): State
    decreases n
  {
    if n == 0 then s else Continued(Apply(s, Continue(p)), p, n - 1)
  }

  /** What an invocation needs to find to be dispatched. */
  predicate Dispatchable(s: State, packet: Packet) {
    && packet.digest !in s.spent && Inspectable(s.markers, s.spent)
    && packet.digest !in s.markers && packet.digest !in s.outputs
  }

  /** What the checks before the lock demand. */
  predicate Binds(s: State, d: Digest) {
    d !in s.spent && Inspectable(s.markers, s.spent) && d !in s.markers && !AmbiguousOutput(s, d)
  }

  lemma FirstTwo(s: State, p: nat, packet: Packet)
    requires s.lock.None? && p in s.processes && s.processes[p] == Process(packet, Binding)
    ensures var t := Continued(s, p, 2);
            && p in t.processes && t.processes[p] == Process(packet, if Binds(s, packet.digest) then Locked else Ended)
            && t.dispatched == s.dispatched && t.markers == s.markers && t.outputs == s.outputs
  {
    hide Inspectable, AmbiguousOutput;
    var s1 := Apply(s, Continue(p));
    Unfold(s, p, 1);
    Unfold(s1, p, 0);
  }

  lemma NextThree(s: State, p: nat, packet: Packet)
    requires p in s.processes && s.processes[p] == Process(packet, Locked)
    requires packet.digest !in s.markers && !AmbiguousOutput(s, packet.digest)
    ensures var t := Continued(s, p, 3);
            && p in t.processes
            && t.processes[p] == Process(packet, if packet.digest in s.outputs then Ended else OutputMade)
            && t.dispatched == s.dispatched && t.markers == s.markers
  {
    var s1 := Apply(s, Continue(p));
    assert s1.processes[p].phase.MarkerChecked? && s1.outputs == s.outputs;
    var s2 := Apply(s1, Continue(p));
    assert s2.processes[p].phase.OutputChecked? && s2.outputs == s.outputs;
    hide Continued;
    Unfold(s, p, 2);
    Unfold(s1, p, 1);
    Unfold(s2, p, 0);
  }

  /** The first five steps: through the checks, the lock and the output directory. */
  lemma FirstFive(s: State, p: nat, packet: Packet)
    requires s.lock.None? && p in s.processes && s.processes[p] == Process(packet, Binding)
    ensures var t := Continued(s, p, 5);
            && p in t.processes && t.dispatched == s.dispatched && t.markers == s.markers
            && t.processes[p] == Process(packet, if Dispatchable(s, packet) then OutputMade else Ended)
  {
    hide Inspectable, Continued;
    FirstTwo(s, p, packet);
    var t := Continued(s, p, 2);
    ContinuedSum(s, p, 2, 3);
    if Binds(s, packet.digest) { NextThree(t, p, packet); } else { EndedStays(t, p, 3); }
  }

  /** The last four steps: the packet copy, the marker, its content and the dispatch. */
  lemma LastFour(s: State, p: nat, packet: Packet)
    requires p in s.processes && s.processes[p] == Process(packet, OutputMade) && packet.digest !in s.markers
    ensures Continued(s, p, 4).dispatched == s.dispatched + [packet]
  {
    var s1 := Apply(s, Continue(p));
    var s2 := Apply(s1, Continue(p));
    var s3 := Apply(s2, Continue(p));
    hide Continued;
    Unfold(s, p, 3);
    Unfold(s1, p, 2);
    Unfold(s2, p, 1);
    Unfold(s3, p, 0);
  }

  lemma Unfold(s: State, p: nat, n: nat)
    ensures Continued(s, p, n + 1) == Continued(Apply(s, Continue(p)), p, n) && Continued(s, p, 0) == s
    ensures n == 0 ==> Continued(s, p, 1) == Apply(s, Continue(p))
  {
  }

  lemma {:induction false} ContinuedSum(s: State, p: nat, a: nat, b: nat)
    ensures Continued(s, p, a + b) == Continued(Continued(s, p, a), p, b)
    decreases a
  {
    if a > 0 { ContinuedSum(Apply(s, Continue(p)), p, a - 1, b); }
  }

  /** Left alone, an invocation dispatches its packet within nine steps exactly when nothing speaks against it. */
  lemma AloneDispatches(s: State, p: nat, packet: Packet)
    requires Initial(s)
    ensures Continued(Apply(s, Invoke(p, packet)), p, 9).dispatched ==
            if Dispatchable(s, packet) then [packet] else []
  {
    var s0 := Apply(s, Invoke(p, packet));
    hide Continued, Advance;
    FirstFive(s0, p, packet);
    ContinuedSum(s0, p, 5, 4);
    if Dispatchable(s, packet) { LastFour(Continued(s0, p, 5), p, packet); } else { EndedStays(Continued(s0, p, 5), p, 4); }
  }

  lemma {:induction false} EndedStays(s: State, p: nat, n: nat)
    requires p in s.processes && s.processes[p].phase.Ended?
    ensures Continued(s, p, n) == s
    decreases n
  {
    if n > 0 { EndedStays(s, p, n - 1); }
  }

  // ----- accounting

  /** What the reader adds for one marker: nothing for a spent digest. */
  function Counted(s: State, d: Digest): (nat, nat) {
    if d in s.markers && d !in s.spent && Readable(s.markers[d])
    then (s.markers[d].events.value, s.markers[d].spend.value) else (0, 0)
  }

  function Total(s: State, names: seq<Digest>): (nat, nat) {
    if names == [] then (0, 0)
    else
      var front, last := Total(s, names[..|names| - 1]), Counted(s, names[|names| - 1]);
      (front.0 + last.0, front.1 + last.1)
  }

  ghost predicate Distinct(names: seq<Digest>) { forall i, j :: 0 <= i < j < |names| ==> names[i] != names[j] }

  /** The scan over the marker files, in any order of their names. */
  method PriorConsumption(s: State, names: seq<Digest>) returns (r: Option<(nat, nat)>)
    requires forall d :: d in names <==> d in s.markers
    ensures r.Some? <==> Inspectable(s.markers, s.spent)
    ensures r.Some? ==>
              r.value == (CLASSIFIED_PRIOR_STARTS + Total(s, names).0, CLASSIFIED_PRIOR_RESERVED + Total(s, names).1)
  {
    var starts, reserved := CLASSIFIED_PRIOR_STARTS, CLASSIFIED_PRIOR_RESERVED;
    for i := 0 to |names|
      invariant starts == CLASSIFIED_PRIOR_STARTS + Total(s, names[..i]).0
      invariant reserved == CLASSIFIED_PRIOR_RESERVED + Total(s, names[..i]).1
      invariant forall j :: 0 <= j < i && names[j] !in s.spent ==> Readable(s.markers[names[j]])
    {
      assert names[i] in names;
      assert names[..i + 1][..i] == names[..i];
      if names[i] in s.spent { continue; }
      var marker := s.markers[names[i]];
      if !marker.Fields? || marker.events.None? || marker.spend.None? { return None; }
      if marker.events.value < 0 || marker.spend.value < 0 { return None; }
      starts := starts + marker.events.value;
      reserved := reserved + marker.spend.value;
    }
    assert names[..|names|] == names;
    forall d | d in s.markers && d !in s.spent ensures Readable(s.markers[d]) {
      assert d in names;
      var j :| 0 <= j < |names| && names[j] == d;
    }
    r := Some((starts, reserved));
  }

  function Add(a: (nat, nat), b: (nat, nat)): (nat, nat) { (a.0 + b.0, a.1 + b.1) }

  lemma NonEmptyHolds(b: seq<Digest>)
    ensures b != [] ==> exists d :: d in b
  {
    if b != [] { assert b[0] in b; }
  }

  lemma TotalSingle(s: State, d: Digest)
    ensures Total(s, [d]) == Counted(s, d)
  {
    assert [d][..0] == [];
  }

  lemma TotalRemove(s: State, names: seq<Digest>, k: nat)
    requires k < |names|
    ensures Total(s, names) == Add(Total(s, names[..k] + names[k + 1..]), Counted(s, names[k]))
  {
    hide Total, Counted;
    assert names == names[..k] + ([names[k]] + names[k + 1..]);
    TotalConcat(s, names[..k], [names[k]] + names[k + 1..]);
    TotalConcat(s, [names[k]], names[k + 1..]);
    TotalConcat(s, names[..k], names[k + 1..]);
    TotalSingle(s, names[k]);
  }

  /** The sum does not depend on the order in which the names are listed. */
  lemma {:induction false} TotalOfSet(s: State, a: seq<Digest>, b: seq<Digest>)
    requires Distinct(a) && Distinct(b) && forall d :: d in a <==> d in b
    ensures Total(s, a) == Total(s, b)
  {
    hide Counted, Distinct;
    if a == [] {
      NonEmptyHolds(b);
    } else {
      var n := |a| - 1;
      assert a[n] in b;
      var k :| 0 <= k < |b| && b[k] == a[n];
      var rest := b[..k] + b[k + 1..];
      TotalRemove(s, b, k);
      assert a[..n] == a[..n] + a[n + 1..];
      forall d ensures d in a[..n] <==> d in rest {
        RestHolds(a, n, d);
        RestHolds(b, k, d);
      }
      RestHolds(a, n, 0);
      RestHolds(b, k, 0);
      TotalOfSet(s, a[..n], rest);
    }
  }

  lemma RestHolds(b: seq<Digest>, k: nat, d: Digest)
    requires k < |b| && Distinct(b)
    ensures d in b[..k] + b[k + 1..] <==> d in b && d != b[k]
    ensures Distinct(b[..k] + b[k + 1..])
  {
    var rest := b[..k] + b[k + 1..];
    assert forall i :: 0 <= i < |rest| ==> rest[i] == if i < k then b[i] else b[i + 1];
    if d in b && d != b[k] {
      var i :| 0 <= i < |b| && b[i] == d;
      assert if i < k then rest[i] == d else rest[i - 1] == d;
    }
  }

  function Digests(ps: seq<Packet>): seq<Digest> { seq(|ps|, i requires 0 <= i < |ps| => ps[i].digest) }

  /** The amounts of the dispatched packets themselves. */
  function DispatchTotal(ps: seq<Packet>): (nat, nat) {
    if ps == [] then (0, 0)
    else Add(DispatchTotal(ps[..|ps| - 1]), (ps[|ps| - 1].events, ps[|ps| - 1].spend))
  }

  lemma {:induction false} DispatchesCounted(s: State, ps: seq<Packet>)
    requires DispatchesMarked(s) && forall p :: p in ps ==> p in s.dispatched
    ensures Total(s, Digests(ps)) == DispatchTotal(ps)
  {
    if ps != [] {
      var last := ps[|ps| - 1];
      assert last in ps;
      assert Digests(ps)[..|ps| - 1] == Digests(ps[..|ps| - 1]);
      DispatchesCounted(s, ps[..|ps| - 1]);
    }
  }

  function Others(s: State, names: seq<Digest>): seq<Digest> {
    if names == [] then []
    else Others(s, names[..|names| - 1]) + (if Dispatched(s, names[|names| - 1]) then [] else [names[|names| - 1]])
  }

  lemma {:induction false} OthersAre(s: State, names: seq<Digest>)
    requires Distinct(names)
    ensures Distinct(Others(s, names)) && forall d :: d in Others(s, names) <==> d in names && !Dispatched(s, d)
  {
    if names != [] {
      OthersAre(s, names[..|names| - 1]);
      assert forall d :: d in names <==> d in names[..|names| - 1] || d == names[|names| - 1];
    }
  }

  lemma {:induction false} TotalConcat(s: State, a: seq<Digest>, b: seq<Digest>)
    ensures Total(s, a + b) == Add(Total(s, a), Total(s, b))
  {
    if b == [] {
      assert a + b == a;
    } else {
      assert (a + b)[..|a + b| - 1] == a + b[..|b| - 1];
      TotalConcat(s, a, b[..|b| - 1]);
    }
  }

  /**
   * The reader's sum over the marker files is the sum of the dispatched packets, each counted once
   * with its own numbers, plus what other markers that are not spent record.
   */
  lemma DispatchesCountedOnce(s: State, names: seq<Digest>)
    requires Inv(s) && Distinct(names) && forall d :: d in names <==> d in s.markers
    ensures Total(s, names) == Add(DispatchTotal(s.dispatched), Total(s, Others(s, names)))
    ensures forall d :: d in Others(s, names) ==> !Dispatched(s, d)
  {
    var mine, others := Digests(s.dispatched), Others(s, names);
    OthersAre(s, names);
    forall d ensures d in mine <==> Dispatched(s, d) {
      if Dispatched(s, d) {
        var i :| 0 <= i < |s.dispatched| && s.dispatched[i].digest == d;
        assert mine[i] == d;
      }
    }
    assert Distinct(mine + others);
    forall d ensures d in mine + others <==> d in names {
      assert d in mine ==> d in s.markers;
    }
    TotalOfSet(s, names, mine + others);
    TotalConcat(s, mine, others);
    DispatchesCounted(s, s.dispatched);
  }
}
