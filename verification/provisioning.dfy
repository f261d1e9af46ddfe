// The provisioning operations: step lists changed in place and persisted at every
// change, around calls that may fail and a machine agent that must save first.
module Provisioning {
  import opened Common
  import P = CommandProtocol
  import B = BackupCatalog
  import L = BackupCatalogLaws
  import R = BackupRetention
  import S = ServerConfigs

  datatype StepName =
    | UpsertStack | DeployInfrastructure | RefreshStack | UpdateInfrastructure | DestroyStack
    | StopInstance | StartInstance | SaveWorld | RestoreWorld | HealthCheck | Initializing

  datatype State = Pending | InProgress | Completed | Failed

  datatype Step = Step(name: StepName, status: State)

  // What one write of the status stores.
  datatype Snapshot = Snapshot(steps: seq<Step>, state: State, currentStep: StepName)

  // ---- Step lists ----

  // The first k steps completed, the k-th in state mid, the rest pending.
  function Layout(names: seq<StepName>, k: nat, mid: State): seq<Step> {
    seq(|names|, i requires 0 <= i < |names| => Step(names[i], if i < k then Completed else if i == k
      then mid else Pending))
  }

  function SetFirst(steps: seq<Step>, name: StepName, status: State): seq<Step> {
    if steps == [] then []
    else if steps[0].name == name then [Step(name, status)] + steps[1..]
    else [steps[0]] + SetFirst(steps[1..], name, status)
  }

  // Completed*, at most one step in any other state, Pending*; names untouched.
  ghost predicate Shaped(steps: seq<Step>, names: seq<StepName>) {
    && |steps| == |names|
    && (forall i | 0 <= i < |steps| :: steps[i].name == names[i])
    && exists k: nat :: FrontAt(steps, k)
  }

  ghost predicate FrontAt(steps: seq<Step>, k: nat) {
    forall i | 0 <= i < |steps| :: if i < k then steps[i].status == Completed else i == k || steps[i].status == Pending
  }

  lemma LayoutShaped(names: seq<StepName>, k: nat, mid: State)
    ensures Shaped(Layout(names, k, mid), names)
  {
    assert FrontAt(Layout(names, k, mid), k);
  }

  lemma LayoutNext(names: seq<StepName>, k: nat)
    ensures Layout(names, k, Completed) == Layout(names, k + 1, Pending)
  {}

  lemma {:induction false} SetFirstAt(steps: seq<Step>, i: nat, name: StepName, status: State)
    requires i <= |steps| && (forall j | 0 <= j < i :: steps[j].name != name)
    requires i < |steps| ==> steps[i].name == name
    ensures SetFirst(steps, name, status) == if i < |steps| then steps[i := Step(name, status)] else steps
  {
    if steps != [] && i > 0 {
      SetFirstAt(steps[1..], i - 1, name, status);
      if i < |steps| { assert [steps[0]] + steps[1..][i - 1 := Step(name, status)] == steps[i := Step(name, status)]; }
    }
  }

  // Where the named step may stand for the list to stay in shape: nowhere, at the
  // front line, or just behind it.
  ghost predicate InReach(names: seq<StepName>, k: nat, mid: State, name: StepName) {
    || name !in names
    || (k < |names| && names[k] == name)
    || (0 < k <= |names| && names[k - 1] == name && mid == Pending)
  }

  lemma {:induction false} SetInReach(names: seq<StepName>, k: nat, mid: State, name: StepName, status: State)
    requires NoDup(names) && InReach(names, k, mid, name)
    ensures SetFirst(Layout(names, k, mid), name, status) == Reached(names, k, mid, name, status)
  {
    var steps := Layout(names, k, mid);
    if name !in names {
      SetFirstAt(steps, |steps|, name, status);
    } else if k < |names| && names[k] == name {
      SetFirstAt(steps, k, name, status);
      LayoutUpdated(names, k, mid, k, status);
    } else {
      SetFirstAt(steps, k - 1, name, status);
      LayoutUpdated(names, k, mid, k - 1, status);
    }
  }

  function Reached(names: seq<StepName>, k: nat, mid: State, name: StepName, status: State): seq<Step> {
    if name !in names then Layout(names, k, mid)
    else if k < |names| && names[k] == name then Layout(names, k, status)
    else if k > 0 then Layout(names, k - 1, status)
    else []
  }

  lemma {:induction false} LayoutUpdated(names: seq<StepName>, k: nat, mid: State, i: nat, status: State)
    requires i < |names| && (i == k || (i == k - 1 && mid == Pending))
    ensures Layout(names, k, mid)[i := Step(names[i], status)] == Layout(names, i, status)
  {}

  // ---- Progress ----

  function CompletedCount(steps: seq<Step>): nat {
    if steps == [] then 0
    else CompletedCount(steps[..|steps| - 1]) + (if steps[|steps| - 1].status == Completed then 1 else 0)
  }

  function Progress(s: Snapshot): int {
    if |s.steps| == 0 then 0
    else if s.state == Completed then 100
    else CompletedCount(s.steps) * 100 / |s.steps|
  }

  method CalculateProgress(s: Snapshot) returns (percent: int)
    ensures percent == Progress(s)
  {
    if |s.steps| == 0 { return 0; }
    if s.state == Completed { return 100; }
    var completed := 0;
    for i := 0 to |s.steps|
      invariant completed == CompletedCount(s.steps[..i])
    {
      assert s.steps[..i + 1][..i] == s.steps[..i];
      if s.steps[i].status == Completed { completed := completed + 1; }
    }
    assert s.steps[..|s.steps|] == s.steps;
    return completed * 100 / |s.steps|;
  }

  lemma {:induction false} CountBounds(steps: seq<Step>)
    ensures CompletedCount(steps) <= |steps|
    ensures CompletedCount(steps) == |steps| <==> forall i | 0 <= i < |steps| :: steps[i].status == Completed
  {
    if steps == [] {
    } else {
      CountBounds(steps[..|steps| - 1]);
      assert forall i | 0 <= i < |steps| - 1 :: steps[i] == steps[..|steps| - 1][i];
    }
  }

  lemma {:induction false} CountLayout(names: seq<StepName>, k: nat, mid: State)
    requires mid != Completed
    ensures CompletedCount(Layout(names, k, mid)) == if k < |names| then k else |names|
  {
    if names == [] {
    } else {
      var n := |names| - 1;
      assert Layout(names, k, mid)[..n] == Layout(names[..n], k, mid);
      CountLayout(names[..n], k, mid);
    }
  }

  lemma ProgressBounds(s: Snapshot)
    ensures 0 <= Progress(s) <= 100
  {
    CountBounds(s.steps);
    if s.steps != [] { DivMono(CompletedCount(s.steps), |s.steps|, |s.steps|); }
  }

  lemma {:induction false} DivMono(a: nat, b: nat, n: nat)
    requires a <= b && n > 0
    ensures a * 100 / n <= b * 100 / n && n * 100 / n == 100
  {
    QuotientLe(a * 100, b * 100, n);
    QuotientLe(n * 100, 100 * n, n);
    MultipleQuotient(100, n);
  }

  lemma Scale(d: int, n: nat)
    ensures (d >= 1 ==> d * n >= n) && (d <= -1 ==> d * n <= -1 * n)
  {}

  lemma {:induction false} MultipleQuotient(q: nat, n: nat)
    requires n > 0
    ensures q * n / n == q
  {
    var r := q * n / n;
    assert q * n == r * n + (q * n) % n;
    assert (q - r) * n == (q * n) % n;
    Scale(q - r, n);
  }

  lemma {:induction false} QuotientLe(x: nat, y: nat, n: nat)
    requires x <= y && n > 0
    ensures x / n <= y / n
  {
    var p, q := x / n, y / n;
    assert p * n <= x && y < q * n + n;
    assert (p - q) * n < n;
    Scale(p - q, n);
  }

  // ---- The status of a running operation ----

  class ProvisioningStatus {
    var steps: seq<Step>
    var state: State
    var currentStep: StepName
    var failed: bool                      // an error message is set
    var outputs: map<string, string>
    ghost var persisted: seq<Snapshot>    // the successful writes of this run
    ghost var stored: bool                // the last write succeeded
    ghost var lost: nat                   // how many writes failed
    ghost var planned: bool               // the steps were set up by this run
    ghost var prior: Snapshot             // what the status was when the error struck

    ghost function Snap(): Snapshot
      reads this
    {
      Snapshot(steps, state, currentStep)
    }

    // While all goes well: the list is at front line k, and everything written has
    // its shape and no more progress than the status has now.
    ghost predicate At(names: seq<StepName>, k: nat, mid: State)
      reads this
    {
      planned ==> OnTrack(Snap(), persisted, names, k, mid)
    }

    // What was written before the last write.
    ghost function Earlier(): seq<Snapshot>
      reads this
    {
      if stored && persisted != [] then persisted[..|persisted| - 1] else persisted
    }

    // After an error: failed, still in shape everywhere, and never falling before the
    // status that the error found.
    ghost predicate Ended(names: seq<StepName>)
      reads this
    {
      && state == Failed && failed
      && (stored ==> persisted != [] && persisted[|persisted| - 1] == Snap())
      && (planned ==> FailedAfter(Snap(), persisted, Earlier(), prior, names))
    }

    // The error lowered the progress.
    ghost predicate Fell()
      reads this
    {
      Progress(Snap()) < Progress(prior)
    }

    // After a success: every step completed, and full progress if there are any.
    ghost predicate Succeeded(names: seq<StepName>)
      reads this
    {
      && At(names, |names|, Pending)
      && (planned ==> forall i | 0 <= i < |steps| :: steps[i].status == Completed)
      && (planned ==> Progress(Snap()) == (if names == [] then 0 else 100))
      && state == Completed
      && (stored ==> persisted != [] && persisted[|persisted| - 1] == Snap())
    }

    // The context constructor of an executor.
    constructor (outputs: map<string, string>)
      ensures state == InProgress && !failed && steps == [] && persisted == [] && this.outputs == outputs && !planned
    {
      steps, state, currentStep, failed, this.outputs := [], InProgress, Initializing, false, outputs;
      persisted, stored, planned, prior := [], false, false, Snapshot([], InProgress, Initializing);
    }

    // A write that fails is only logged.
    method UpdateStatus()
      modifies this`persisted, this`stored, this`lost
      ensures persisted == old(persisted) + (if stored then [Snap()] else [])
      ensures lost == old(lost) + (if stored then 0 else 1)
    {
      var ok: bool := *;
      stored := ok;
      if ok { persisted := persisted + [Snap()]; } else { lost := lost + 1; }
    }

    // There have been writes since, and unless one of them failed the last is stored.
    ghost predicate Wrote(lost0: nat)
      reads this
    {
      lost >= lost0 && (lost == lost0 ==> stored)
    }

    method SetStep(name: StepName, status: State)
      modifies this`steps
      ensures steps == SetFirst(old(steps), name, status)
    {
      var i := 0;
      while i < |steps|
        invariant i <= |steps| && steps == old(steps)
        invariant forall j | 0 <= j < i :: steps[j].name != name
      {
        if steps[i].name == name {
          SetFirstAt(steps, i, name, status);
          steps := steps[i := steps[i].(status := status)];
          return;
        }
        i := i + 1;
      }
      SetFirstAt(steps, i, name, status);
    }

    method Begin(names: seq<StepName>)
      modifies this
      ensures At(names, 0, Pending) && planned
      ensures state == old(state) && outputs == old(outputs) && failed == old(failed)
      ensures Wrote(old(lost))
    {
      steps, persisted, planned := Layout(names, 0, Pending), [], true;
      OnTrackKept(Snap(), [], names, 0, Pending, Snap(), 0, Pending);
      UpdateStatus();
    }

    method UpdateStep(name: StepName, ghost names: seq<StepName>, ghost k: nat, ghost mid: State)
      requires At(names, k, mid) && NoDup(names) && mid in {Pending, InProgress}
      requires name in names ==> k < |names| && names[k] == name
      modifies this
      ensures At(names, k, if name in names then InProgress else mid) && planned == old(planned)
      ensures state == old(state) && failed == old(failed) && outputs == old(outputs) && currentStep == name
      ensures Wrote(old(lost))
    {
      ghost var mid' := if name in names then InProgress else mid;
      SetInReach(names, k, mid, name, InProgress);
      SetStep(name, InProgress);
      currentStep := name;
      if planned { OnTrackKept(old(Snap()), persisted, names, k, mid, Snap(), k, mid'); }
      UpdateStatus();
    }

    method CompleteStep(name: StepName, ghost names: seq<StepName>, ghost k: nat, ghost mid: State)
      requires At(names, k, mid) && NoDup(names) && mid in {Pending, InProgress}
      requires name in names ==> k < |names| && names[k] == name
      modifies this
      ensures At(names, if name in names then k + 1 else k, if name in names then Pending else mid)
              && planned == old(planned)
      ensures state == old(state) && failed == old(failed) && outputs == old(outputs) && currentStep == name
      ensures stored ==> persisted != [] && persisted[|persisted| - 1] == Snap()
      ensures Wrote(old(lost))
    {
      ghost var k', mid' := if name in names then k + 1 else k, if name in names then Pending else mid;
      SetInReach(names, k, mid, name, Completed);
      SetStep(name, Completed);
      LayoutNext(names, k);
      currentStep := name;
      if planned { OnTrackKept(old(Snap()), persisted, names, k, mid, Snap(), k', mid'); }
      UpdateStatus();
    }

    // The progress falls exactly if the step named had been completed, or COMPLETED
    // had been reported with steps to go.
    method HandleError(name: StepName, ghost names: seq<StepName>, ghost k: nat, ghost mid: State)
      requires At(names, k, mid) && NoDup(names) && InReach(names, k, mid, name) && mid in {Pending, InProgress}
      modifies this
      ensures Ended(names) && outputs == old(outputs) && planned == old(planned) && prior == old(Snap())
      ensures planned ==> Progress(prior) == FrontProgress(names, k, old(state))
      ensures planned ==> Progress(Snap()) == FailedProgress(names, k, name)
      ensures planned && |names| <= 100 ==> (Fell() <==>
              Behind(names, k, name) || (old(state) == Completed
              && k < |names|))
      ensures Wrote(old(lost))
    {
      ghost var found, earlier := Snap(), persisted;
      SetStep(name, Failed);
      failed, state, currentStep, prior := true, Failed, name, found;
      ghost var left := Snap();
      if planned { ErrorOutcome(found, earlier, names, k, mid, name, left); }
      UpdateStatus();
      assert Snap() == left && Earlier() == earlier;
      assert planned ==> FailedAfter(left, persisted, earlier, found, names);
    }

    // The end of a run: outputs, COMPLETED, one more write.
    method Complete(outputs: map<string, string>, ghost names: seq<StepName>, ghost k: nat)
      requires At(names, k, Pending)
      modifies this
      ensures At(names, k, Pending) && state == Completed && this.outputs == outputs && failed == old(failed)
      ensures planned == old(planned)
      ensures stored ==> persisted != [] && persisted[|persisted| - 1] == Snap()
      ensures k == |names| ==> Succeeded(names)
      ensures Wrote(old(lost))
    {
      this.outputs, state := outputs, Completed;
      if planned { OnTrackCompleted(old(Snap()), persisted, names, k, Snap()); }
      UpdateStatus();
      if planned && k == |names| { AllCompleted(Snap(), names); }
    }
  }

  ghost predicate AllShaped(p: seq<Snapshot>, names: seq<StepName>) {
    forall i | 0 <= i < |p| :: Shaped(p[i].steps, names)
  }

  // In shape, within 0..100, and never falling.
  ghost predicate Rising(p: seq<Snapshot>, names: seq<StepName>) {
    && AllShaped(p, names)
    && (forall i | 0 <= i < |p| :: 0 <= Progress(p[i]) <= 100)
    && (forall i, j | 0 <= i < j < |p| :: Progress(p[i]) <= Progress(p[j]))
  }

  ghost predicate OnTrack(s: Snapshot, p: seq<Snapshot>, names: seq<StepName>, k: nat, mid: State) {
    && s.steps == Layout(names, k, mid)
    && Rising(p, names)
    && (forall i | 0 <= i < |p| :: Progress(p[i]) <= Progress(s))
  }

  // Writing a status that is no further back than the last keeps the record.
  lemma {:induction false} RisingAppend(s: Snapshot, p: seq<Snapshot>, names: seq<StepName>, k: nat, mid: State)
    requires OnTrack(s, p, names, k, mid) && 0 <= Progress(s) <= 100
    ensures OnTrack(s, p + [s], names, k, mid)
  {
    LayoutShaped(names, k, mid);
    var q := p + [s];
    assert forall i | 0 <= i < |q| :: if i < |p| then q[i] == p[i] else q[i] == s;
  }

  lemma {:induction false} OnTrackKept(s: Snapshot, p: seq<Snapshot>, names: seq<StepName>, k: nat, mid: State,
                                       s': Snapshot, k': nat, mid': State)
    requires OnTrack(s, p, names, k, mid) && mid in {Pending, InProgress}
    requires s'.steps == Layout(names, k', mid') && s'.state == s.state && k <= k' && mid' in {Pending, InProgress}
    ensures OnTrack(s', p, names, k', mid') && OnTrack(s', p + [s'], names, k', mid') && p + [] == p
  {
    LayoutProgress(names, k, mid, s, k', mid', s');
    RisingAppend(s', p, names, k', mid');
  }

  // A failed status s' after what was written before it, and the status s that the
  // error found.
  ghost predicate FailedAfter(s': Snapshot, p: seq<Snapshot>, earlier: seq<Snapshot>, s: Snapshot,
                              names: seq<StepName>) {
    && Shaped(s'.steps, names) && AllShaped(p, names) && Rising(earlier, names)
    && (forall i | 0 <= i < |earlier| :: Progress(earlier[i]) <= Progress(s))
    && 0 <= Progress(s') <= 100
  }

  lemma {:induction false} ErrorOnTrack(s: Snapshot, p: seq<Snapshot>, names: seq<StepName>, k: nat, mid: State,
                                        name: StepName, s': Snapshot)
    requires OnTrack(s, p, names, k, mid) && NoDup(names) && InReach(names, k, mid, name)
    requires s'.steps == SetFirst(s.steps, name, Failed)
    ensures FailedAfter(s', p, p, s, names) && FailedAfter(s', p + [s'], p, s, names) && p + [] == p
  {
    SetInReach(names, k, mid, name, Failed);
    LayoutShaped(names, k, mid);
    LayoutShaped(names, k, Failed);
    if k > 0 { LayoutShaped(names, k - 1, Failed); }
    ProgressBounds(s');
    assert forall i | 0 <= i < |p + [s']| :: if i < |p| then (p + [s'])[i] == p[i] else (p + [s'])[i] == s';
  }

  lemma {:induction false} ErrorOutcome(s: Snapshot, p: seq<Snapshot>, names: seq<StepName>, k: nat, mid: State,
                                        name: StepName, s': Snapshot)
    requires OnTrack(s, p, names, k, mid) && NoDup(names) && InReach(names, k, mid, name)
             && mid in {Pending, InProgress}
    requires s'.steps == SetFirst(s.steps, name, Failed) && s'.state == Failed
    ensures FailedAfter(s', p, p, s, names) && FailedAfter(s', p + [s'], p, s, names) && p + [] == p
    ensures Progress(s) == FrontProgress(names, k, s.state) && Progress(s') == FailedProgress(names, k, name)
    ensures |names| <= 100 ==>
              (Progress(s') < Progress(s) <==> Behind(names, k, name) || (s.state == Completed && k < |names|))
  {
    ErrorOnTrack(s, p, names, k, mid, name, s');
    ProgressFallsIff(s, names, k, mid, name, s');
  }

  // The step named has been completed already.
  predicate Behind(names: seq<StepName>, k: nat, name: StepName) { 0 < k <= |names| && names[k - 1] == name }

  function FrontProgress(names: seq<StepName>, k: nat, state: State): int {
    if names == [] then 0
    else if state == Completed then 100
    else (if k < |names| then k else |names|) * 100 / |names|
  }

  function FailedProgress(names: seq<StepName>, k: nat, name: StepName): int {
    if Behind(names, k, name) then (k - 1) * 100 / |names| else FrontProgress(names, k, Failed)
  }

  // What an error does to the progress, and when it lowers it.
  lemma {:induction false} ProgressFallsIff(s: Snapshot, names: seq<StepName>, k: nat, mid: State, name: StepName,
                                            s': Snapshot)
    requires NoDup(names) && InReach(names, k, mid, name) && mid in {Pending, InProgress}
    requires s.steps == Layout(names, k, mid) && s'.steps == SetFirst(s.steps, name, Failed) && s'.state == Failed
    ensures Progress(s) == FrontProgress(names, k, s.state) && Progress(s') == FailedProgress(names, k, name)
    ensures |names| <= 100 ==>
              (Progress(s') < Progress(s) <==> Behind(names, k, name) || (s.state == Completed && k < |names|))
  {
    CountLayout(names, k, mid);
    assert Progress(s) == FrontProgress(names, k, s.state);
    FailedCount(names, k, mid, name);
    assert Progress(s') == FailedProgress(names, k, name);
    if |names| <= 100 { FallsIff(names, k, name, s.state); }
  }

  lemma {:induction false} FailedCount(names: seq<StepName>, k: nat, mid: State, name: StepName)
    requires NoDup(names) && InReach(names, k, mid, name) && mid in {Pending, InProgress}
    ensures CompletedCount(SetFirst(Layout(names, k, mid), name, Failed))
            == if Behind(names, k, name) then k - 1 else if k < |names| then k else |names|
    ensures |SetFirst(Layout(names, k, mid), name, Failed)| == |names|
  {
    SetInReach(names, k, mid, name, Failed);
    CountLayout(names, k, mid);
    CountLayout(names, k, Failed);
    if k > 0 { CountLayout(names, k - 1, Failed); }
  }

  lemma {:induction false} FallsIff(names: seq<StepName>, k: nat, name: StepName, state: State)
    requires |names| <= 100
    ensures FailedProgress(names, k, name) < FrontProgress(names, k, state)
            <==> Behind(names, k, name) || (state == Completed && k < |names|)
  {
    var n := |names|;
    if n > 0 {
      MultipleQuotient(100, n);
      if k < n { BelowFull(k, n); }
      if Behind(names, k, name) {
        BelowFull(k - 1, n);
        QuotientLt(k - 1, n);
      }
    }
  }

  // One step of at most a hundred is at least one per cent.
  lemma {:induction false} QuotientLt(a: nat, n: nat)
    requires 0 < n <= 100
    ensures a * 100 / n < (a + 1) * 100 / n
  {
    var q := a * 100 / n;
    assert (q + 1) * n <= a * 100 + n <= (a + 1) * 100;
    QuotientLe((q + 1) * n, (a + 1) * 100, n);
    MultipleQuotient(q + 1, n);
  }

  lemma {:induction false} BelowFull(a: nat, n: nat)
    requires a < n
    ensures a * 100 / n < 100
  {
    var q := a * 100 / n;
    assert (q - 100) * n < 0;
    Scale(q - 100, n);
  }

  lemma {:induction false} OnTrackCompleted(s: Snapshot, p: seq<Snapshot>, names: seq<StepName>, k: nat, s': Snapshot)
    requires OnTrack(s, p, names, k, Pending) && s'.steps == s.steps && s'.state == Completed
    ensures OnTrack(s', p, names, k, Pending) && OnTrack(s', p + [s'], names, k, Pending) && p + [] == p
  {
    ProgressBounds(s);
    RisingAppend(s', p, names, k, Pending);
  }

  // Moving the front line on never lowers the progress.
  lemma {:induction false} LayoutProgress(names: seq<StepName>, k: nat, mid: State, s: Snapshot, k': nat, mid': State,
                                          s': Snapshot)
    requires k <= k' && mid in {Pending, InProgress} && mid' in {Pending, InProgress}
    requires s.steps == Layout(names, k, mid) && s'.steps == Layout(names, k', mid') && s.state == s'.state
    ensures 0 <= Progress(s) <= Progress(s') <= 100
  {
    ProgressBounds(s);
    ProgressBounds(s');
    if names != [] {
      CountLayout(names, k, mid);
      CountLayout(names, k', mid');
      DivMono(CompletedCount(s.steps), CompletedCount(s'.steps), |names|);
    }
  }

  // ---- No deployment and no restore before a save ----

  // Wherever the stack was brought up or a restore was triggered, a save had been
  // acknowledged, or there had been no document, since the latest request for one.
  ghost predicate Guarded(log: seq<P.Entry>) {
    forall i | 0 <= i < |log| :: NeedsSave(log[i]) ==> P.Saved(log[..i])
  }

  predicate NeedsSave(e: P.Entry) { e.UpStack? || (e.Triggered? && e.command.Restore?) }

  // A deployment or restore may follow.
  ghost predicate Clear(log: seq<P.Entry>) { Guarded(log) && P.Saved(log) }

  lemma GuardedAppend(log: seq<P.Entry>, e: P.Entry)
    requires Guarded(log) && (NeedsSave(e) ==> P.Saved(log))
    ensures Guarded(log + [e])
  {
    var after := log + [e];
    forall i | 0 <= i < |after| ensures NeedsSave(after[i]) ==> P.Saved(after[..i]) {
      assert after[..i] == log[..i];
      if i == |log| { assert log[..i] == log; }
    }
  }

  lemma {:induction false} GuardedLater(before: seq<P.Entry>, after: seq<P.Entry>)
    requires Guarded(before) && P.NoTriggerSince(before, after)
    ensures Guarded(after)
    decreases |after|
  {
    if |before| == |after| {
      assert before == after;
    } else {
      var n := |after| - 1;
      GuardedLater(before, after[..n]);
      GuardedAppend(after[..n], after[n]);
      assert after == after[..n] + [after[n]];
    }
  }

  lemma {:induction false} DeployKeepsClear(log: seq<P.Entry>)
    requires Clear(log)
    ensures Clear(log + [P.UpStack])
  {
    GuardedAppend(log, P.UpStack);
    P.QuietEntry(log, P.UpStack);
  }

  // What the two requests leave in a history.
  lemma SaveRequested()
    ensures Guarded([]) && Guarded([P.Triggered(P.Save)])
    ensures Guarded([P.Skipped]) && P.Saved([P.Skipped])
    ensures P.Latest([P.Triggered(P.Save)]) == Some(P.Save)
  {
    GuardedAppend([], P.Skipped);
    GuardedAppend([], P.Triggered(P.Save));
    P.QuietEntry([], P.Skipped);
    P.LatestOfTrigger([], P.Save);
    assert [] + [P.Skipped] == [P.Skipped] && [] + [P.Triggered(P.Save)] == [P.Triggered(P.Save)];
  }

  lemma RestoreRequested(before: seq<P.Entry>, args: map<string, string>)
    requires Clear(before)
    ensures Guarded(before + [P.Triggered(P.Restore(args))])
    ensures P.Latest(before + [P.Triggered(P.Restore(args))]) == Some(P.Restore(args))
  {
    GuardedAppend(before, P.Triggered(P.Restore(args)));
    P.LatestOfTrigger(before, P.Restore(args));
  }

  // The save asked for at position i was acknowledged some time later, or there was no
  // document when it was asked for.
  ghost predicate SaveAnswered(log: seq<P.Entry>, i: nat)
    requires i < |log|
  {
    log[i].Skipped? || (log[i] == P.Triggered(P.Save) && exists m | i < m <= |log| :: P.RanOk(log[..m]))
  }

  // A save that this controller asked for was answered, whatever others trigger.
  ghost predicate SavedFirst(log: seq<P.Entry>, own: set<nat>) {
    exists i :: i in own && i < |log| && SaveAnswered(log, i)
  }

  // Wherever the stack was brought up, or this controller triggered a restore, it had
  // been so before.
  ghost predicate Protected(log: seq<P.Entry>, own: set<nat>) {
    && (forall i | i in own :: i < |log|)
    && forall i: nat | i < |log| && NeedsSave(log[i]) && (log[i].UpStack? || i in own) :: SavedFirst(log[..i], own)
  }

  lemma {:induction false} SavedFirstStays(before: seq<P.Entry>, own: set<nat>, after: seq<P.Entry>, own': set<nat>)
    requires before <= after && own <= own' && SavedFirst(before, own)
    ensures SavedFirst(after, own')
  {
    var i :| i in own && i < |before| && SaveAnswered(before, i);
    if !before[i].Skipped? {
      var m :| i < m <= |before| && P.RanOk(before[..m]);
      assert after[..m] == before[..m];
    }
    assert SaveAnswered(after, i);
  }

  // What others add needs no save of this controller.
  lemma {:induction false} ProtectedLater(before: seq<P.Entry>, own: set<nat>, after: seq<P.Entry>)
    requires Protected(before, own) && P.NoDeploymentSince(before, after)
    ensures Protected(after, own) && (SavedFirst(before, own) ==> SavedFirst(after, own))
  {
    if SavedFirst(before, own) { SavedFirstStays(before, own, after, own); }
    forall i: nat | i < |after| && NeedsSave(after[i]) && (after[i].UpStack? || i in own)
      ensures SavedFirst(after[..i], own)
    {
      assert i < |before| && after[i] == before[i] && after[..i] == before[..i];
    }
  }

  // An entry of this controller's own, with `more` its position if it is a trigger.
  lemma {:induction false} ProtectedAppend(log: seq<P.Entry>, own: set<nat>, e: P.Entry, more: set<nat>)
    requires Protected(log, own) && (NeedsSave(e) ==> SavedFirst(log, own)) && more <= {|log|}
    ensures Protected(log + [e], own + more) && (SavedFirst(log, own) ==> SavedFirst(log + [e], own + more))
  {
    var after := log + [e];
    if SavedFirst(log, own) { SavedFirstStays(log, own, after, own + more); }
    forall i: nat | i < |after| && NeedsSave(after[i]) && (after[i].UpStack? || i in own + more)
      ensures SavedFirst(after[..i], own + more)
    {
      if i < |log| { assert after[..i] == log[..i]; } else { assert after[..i] == log; }
      SavedFirstStays(after[..i], own, after[..i], own + more);
    }
  }

  lemma {:induction false} DeployKeepsPrepared(log: seq<P.Entry>, own: set<nat>)
    ensures Protected(log, own) && SavedFirst(log, own) ==>
              Protected(log + [P.UpStack], own) && SavedFirst(log + [P.UpStack], own)
  {
    if Protected(log, own) && SavedFirst(log, own) {
      ProtectedAppend(log, own, P.UpStack, {});
      assert own + {} == own;
    }
  }

  // What SaveAndWait learns.
  lemma {:induction false} SaveIsFirst(log: seq<P.Entry>, own: set<nat>, skipped: bool)
    requires 0 in own && [if skipped then P.Skipped else P.Triggered(P.Save)] <= log && (skipped || P.RanOk(log))
    ensures SavedFirst(log, own)
  {
    assert log[..|log|] == log && log[0] == if skipped then P.Skipped else P.Triggered(P.Save);
    assert SaveAnswered(log, 0);
  }

  // ---- The operations ----

  datatype Operation = Create | Update | Destroy | Restore | Unknown

  datatype Call = Done | Retryable | Fatal

  const CREATE_STEPS := [UpsertStack, DeployInfrastructure]
  const RESIZE_STEPS := [StopInstance, UpsertStack, StartInstance]
  const RECREATE_STEPS := [SaveWorld, UpsertStack]
  const DESTROY_STEPS := [DestroyStack]
  const RESTORE_STEPS := [SaveWorld, RestoreWorld, HealthCheck]
  const IN_PLACE_STEPS: seq<StepName> := []

  // What brings a stack up, and what the kinds of update do around it.
  const PREPARE_DEEDS := [P.UpsertStack, P.SetConfig]
  const DEPLOY_DEEDS := [P.BringUp, P.StampConfig]
  const PULUMI_DEEDS := PREPARE_DEEDS + DEPLOY_DEEDS

  function DeedsOf(kind: Kind): seq<P.Deed> {
    match kind
    case InPlace => PULUMI_DEEDS
    case Resize => [P.StopInstance] + PULUMI_DEEDS + [P.StartInstance]
    case Recreate => PULUMI_DEEDS
  }

  datatype Kind = InPlace | Resize | Recreate

  function KindOf(updateType: int): Kind {
    if updateType == 1 then Resize else if updateType == 2 then Recreate else InPlace
  }

  function StepsOf(kind: Kind): seq<StepName> {
    match kind
    case InPlace => IN_PLACE_STEPS
    case Resize => RESIZE_STEPS
    case Recreate => RECREATE_STEPS
  }

  function StepList(operation: Operation, updateType: int): seq<StepName> {
    match operation
    case Create => CREATE_STEPS
    case Update => StepsOf(KindOf(updateType))
    case Destroy => DESTROY_STEPS
    case Restore => RESTORE_STEPS
    case Unknown => []
  }

  // The steps are those of an update of this kind.
  ghost predicate Performed(steps: seq<Step>, kind: Kind) {
    |steps| == |StepsOf(kind)| && forall i | 0 <= i < |steps| :: steps[i].name == StepsOf(kind)[i]
  }

  function TrimSlash(s: string): string { if s != "" && s[|s| - 1] == '/' then s[..|s| - 1] else s }

  ghost predicate Trimmed(prefix: string, rest: string) {
    prefix == rest + "/" || (prefix == rest && !(exists head :: prefix == head + "/"))
  }

  lemma TrimSlashOnce(s: string)
    ensures Trimmed(s, TrimSlash(s))
  {
    if s != "" && s[|s| - 1] == '/' {
      assert s == s[..|s| - 1] + "/";
    } else {
      forall head: string ensures s != head + "/" { assert (head + "/")[|head + "/"| - 1] == '/'; }
    }
  }

  // What a destroy does to the configuration and the backups once the stack is gone:
  // the backups are touched only if the deletion of the configuration succeeded.
  ghost predicate DestroyEnd(configs: map<string, B.SourceConfig>, cat: B.Catalog, server: string, deletedAt: int,
                             until: int, deleted: bool,
                             configs': map<string, B.SourceConfig>, cat': B.Catalog)
  {
    if deleted then
      configs' == configs - {server} && exists source, errs, ok ::
        (source == None || (server in configs && source == Some(configs[server])))
          && B.MarkOutcome(cat, server, B.Stamp(deletedAt, until, source), errs, cat', ok)
    else
      (configs' == configs || configs' == configs - {server}) && cat' == cat
  }

  // Where everything had been in order, a destroy that failed between the record and
  // the index entry of the configuration leaves the server orphaned.
  lemma HalfDestroyedIsOrphan(w: R.World, configs: map<string, B.SourceConfig>, server: string, deletedAt: int,
                              until: int, configs': map<string, B.SourceConfig>, cat': B.Catalog)
    requires R.Inv(w) && w.configs == configs.Keys && server in configs && server !in configs'
    requires DestroyEnd(configs, w.cat, server, deletedAt, until, false, configs', cat')
    ensures R.Orphaned(w.(configs := configs'.Keys, cat := cat'), server)
  {
    assert configs'.Keys == configs.Keys - {server};
  }

  // The stamp remembers the configuration.
  function FullStamp(configs: map<string, B.SourceConfig>, server: string, deletedAt: int, until: int): B.Stamp {
    B.Stamp(deletedAt, until, if server in configs then Some(configs[server]) else None)
  }

  // The same with nothing going wrong.
  ghost predicate CleanDestroyEnd(configs: map<string, B.SourceConfig>, cat: B.Catalog, server: string,
                                  deletedAt: int, until: int,
                                  configs': map<string, B.SourceConfig>, cat': B.Catalog)
  {
    && configs' == configs - {server}
    && B.MarkOutcome(cat, server, FullStamp(configs, server, deletedAt, until), NoErrors(|B.SnapshotsOf(cat, server)|),
      cat', true)
  }

  // Every backup that the server's index names is stamped with the times of the
  // destroy and remembers the configuration.
  ghost predicate StampedByDestroy(configs: map<string, B.SourceConfig>, cat: B.Catalog, server: string,
                                   deletedAt: int, until: int, cat': B.Catalog)
    requires server in configs
  {
    forall k | k in cat.records && k.server == server && k.snapshot in B.SnapshotsOf(cat, server) ::
      k in cat'.records
        && L.StampedWith(cat.records[k], cat'.records[k], B.Stamp(deletedAt, until, Some(configs[server])))
  }

  lemma {:induction false} CleanDestroyStamps(configs: map<string, B.SourceConfig>, cat: B.Catalog, server: string,
                                              deletedAt: int, until: int,
                                              configs': map<string, B.SourceConfig>, cat': B.Catalog)
    requires L.Keyed(cat) && server in configs
    requires CleanDestroyEnd(configs, cat, server, deletedAt, until, configs', cat')
    ensures StampedByDestroy(configs, cat, server, deletedAt, until, cat')
  {
    L.MarkEffect(cat, server, FullStamp(configs, server, deletedAt, until),
                 NoErrors(|B.SnapshotsOf(cat, server)|), cat', true);
    forall k | k in cat.records && k.server == server && k.snapshot in B.SnapshotsOf(cat, server)
      ensures k in B.RecordKeys(server, B.BackupsOf(cat, server))
    {
      L.RecordIsListed(cat, server, k.snapshot);
      assert k == B.RecordKey.RecordKey(server, k.snapshot);
    }
  }

  // It is the step Destroy of the runs in which sweeps are safe.
  lemma {:induction false} CleanDestroyIsStep(configs: map<string, B.SourceConfig>, cat: B.Catalog, server: string,
                                              deletedAt: int,
                                              until: int, configs': map<string, B.SourceConfig>, cat': B.Catalog,
                                              born: set<string>, objects: set<string>)
    requires CleanDestroyEnd(configs, cat, server, deletedAt, until, configs', cat') && server in born
    ensures R.Step(R.World(cat, configs.Keys, born, objects),
                   R.Move(R.Destroy(server, FullStamp(configs, server, deletedAt, until)), R.World(cat', configs'.Keys,
                     born, objects)))
  {
    assert configs'.Keys == configs.Keys - {server};
  }

  class ProvisioningService {
    const coord: P.BackupCoordinator
    const store: S.ConfigStore
    const catalog: B.DaprDB
    const retryAttempts: nat
    const saveAckTimeout: int
    const restoreAckTimeout: int
    const backupBucket: string
    const resticPassword: string

    constructor (coord: P.BackupCoordinator, store: S.ConfigStore, catalog: B.DaprDB, retryAttempts: nat,
                 saveAckTimeout: int, restoreAckTimeout: int, backupBucket: string, resticPassword: string)
    {
      this.coord, this.store, this.catalog, this.retryAttempts := coord, store, catalog, retryAttempts;
      this.saveAckTimeout, this.restoreAckTimeout := saveAckTimeout, restoreAckTimeout;
      this.backupBucket, this.resticPassword := backupBucket, resticPassword;
    }

    // Time passes; others act on the status document.
    method Elapse()
      requires P.Inv(coord.db.View())
      modifies coord.db`doc, coord.db`log
      ensures coord.db.Later(old(coord.db.View()))
      ensures coord.db.Exclusive() && Guarded(old(coord.db.log)) ==> Guarded(coord.db.log)
      ensures old(SavesFirst()) ==> SavesFirst()
      ensures old(Prepared()) ==> Prepared()
    {
      ghost var before := coord.db.log;
      coord.db.Environment();
      if Protected(before, coord.db.own) { ProtectedLater(before, coord.db.own, coord.db.log); }
      if coord.db.Exclusive() && Guarded(old(coord.db.log)) { GuardedLater(old(coord.db.log), coord.db.log); }
    }

    // What is read or checked elsewhere: it succeeds or fails.
    method Foreign() returns (ok: bool)
      modifies coord.db`faults
      ensures Faults() == old(Faults()) + (if ok then 0 else 1)
    {
      ok := coord.db.Call();
    }

    // Pulumi, GCP and state store calls that do something.
    method Attempt(deed: P.Deed) returns (ok: bool)
      modifies coord.db`faults, coord.db`tried, coord.db`deeds
      ensures Faults() == old(Faults()) + (if ok then 0 else 1)
      ensures coord.db.tried == old(coord.db.tried) + [deed]
      ensures coord.db.deeds == old(coord.db.deeds) + (if ok then [deed] else [])
    {
      ok := coord.db.Call();
      coord.db.tried := coord.db.tried + [deed];
      coord.db.deeds := coord.db.deeds + (if ok then [deed] else []);
    }

    // What went wrong so far.
    ghost function Faults(): nat
      reads coord.db
    {
      coord.db.faults
    }

    // Nobody else triggers commands, and a deployment or restore may follow.
    ghost predicate Ready()
      reads coord.db
    {
      coord.db.Exclusive() && Clear(coord.db.log)
    }

    // No deployment, and no restore of this controller, has come before a save.
    ghost predicate SavesFirst()
      reads coord.db
    {
      Protected(coord.db.log, coord.db.own)
    }

    // And with whatever others trigger, one may follow now.
    ghost predicate Prepared()
      reads coord.db
    {
      SavesFirst() && SavedFirst(coord.db.log, coord.db.own)
    }

    // An operation begins.
    ghost method StartHistory()
      modifies coord.db`log, coord.db`own, coord.db`tried, coord.db`deeds
      ensures coord.db.log == [] && coord.db.own == {} && SavesFirst() && Guarded(coord.db.log)
      ensures coord.db.tried == coord.db.deeds == []
    {
      coord.db.log, coord.db.own, coord.db.tried, coord.db.deeds := [], {}, [], [];
    }

    // UpsertStack and SetConfig.
    method PrepareStack() returns (ok: bool)
      modifies coord.db`faults, coord.db`tried, coord.db`deeds
      ensures Faults() == old(Faults()) + (if ok then 0 else 1) && old(coord.db.tried) <= coord.db.tried
      ensures if ok then coord.db.deeds == old(coord.db.deeds) + PREPARE_DEEDS
              else old(coord.db.deeds) <= coord.db.deeds < old(coord.db.deeds) + PREPARE_DEEDS
    {
      ok := Attempt(P.UpsertStack);
      if ok { ok := Attempt(P.SetConfig); }
    }

    // What UpStack leaves in the history.
    ghost method NoteUpStack()
      requires P.Inv(coord.db.View())
      modifies coord.db`log
      ensures coord.db.log == old(coord.db.log) + [P.UpStack] && P.Inv(coord.db.View())
      ensures old(Ready()) ==> Ready()
      ensures old(Prepared()) ==> Prepared()
      ensures P.UpStack in coord.db.log && old(coord.db.log) <= coord.db.log
    {
      P.StepKeepsInv(coord.db.View(), P.Deploy);
      DeployKeepsPrepared(coord.db.log, coord.db.own);
      if Clear(coord.db.log) { DeployKeepsClear(coord.db.log); }
      coord.db.log := coord.db.log + [P.UpStack];
      assert coord.db.log[|old(coord.db.log)|] == P.UpStack;
    }

    method UpStack() returns (call: Call, outputs: map<string, string>)
      requires P.Inv(coord.db.View())
      modifies coord.db
      ensures P.Inv(coord.db.View())
      ensures old(Ready()) ==> Ready()
      ensures old(Prepared()) ==> Prepared()
      ensures old(coord.db.log) <= coord.db.log
      ensures Faults() == old(Faults()) + (if call == Done then 0 else 1)
      ensures P.UpStack in coord.db.log
      ensures coord.db.tried == old(coord.db.tried) + [P.BringUp]
      ensures coord.db.deeds == old(coord.db.deeds) + (if call == Done then [P.BringUp] else [])
      ensures call == Done ==> coord.db.brought == outputs
    {
      EnterUpStack();
      var up := Attempt(P.BringUp);
      var retryable: bool := *;
      outputs := *;
      call := if up then Done else if retryable then Retryable else Fatal;
      if up { coord.db.brought := outputs; }
    }

    // Pulumi works on the stack while time passes.
    method EnterUpStack()
      requires P.Inv(coord.db.View())
      modifies coord.db`doc, coord.db`log
      ensures P.Inv(coord.db.View())
      ensures old(Ready()) ==> Ready()
      ensures old(Prepared()) ==> Prepared()
      ensures old(coord.db.log) <= coord.db.log && P.UpStack in coord.db.log
    {
      NoteUpStack();
      ghost var noted := coord.db.log;
      Elapse();
      StillIn(noted, coord.db.log, P.UpStack);
    }

    // Retryable failures are tried again, up to the configured number of attempts.
    method ExecuteUpWithRetry() returns (ok: bool, outputs: map<string, string>, ghost calls: seq<Call>)
      requires P.Inv(coord.db.View())
      modifies coord.db
      ensures P.Inv(coord.db.View())
      ensures old(Ready()) ==> Ready()
      ensures old(Prepared()) ==> Prepared()
      ensures old(coord.db.log) <= coord.db.log
      ensures |calls| <= retryAttempts && forall i | 0 <= i < |calls| - 1 :: calls[i] == Retryable
      ensures ok <==> calls != [] && calls[|calls| - 1] == Done
      ensures Faults() >= old(Faults()) && (!ok ==> Faults() > old(Faults()) || retryAttempts == 0)
      ensures coord.db.deeds == old(coord.db.deeds) + (if ok then [P.BringUp] else [])
      ensures old(coord.db.tried) <= coord.db.tried
      ensures ok ==> P.UpStack in coord.db.log && coord.db.brought == outputs
      ensures !ok && Faults() == old(Faults()) + |calls| ==>
                |calls| == retryAttempts || (calls != [] && calls[|calls| - 1] == Fatal)
    {
      calls, outputs := [], map[];
      for attempt := 0 to retryAttempts
        invariant P.Inv(coord.db.View()) && (old(Ready()) ==> Ready()) && (old(Prepared()) ==> Prepared())
        invariant old(coord.db.log) <= coord.db.log && old(coord.db.tried) <= coord.db.tried
        invariant coord.db.deeds == old(coord.db.deeds)
        invariant |calls| == attempt && forall i | 0 <= i < |calls| :: calls[i] == Retryable
        invariant Faults() >= old(Faults()) + attempt
      {
        var live := Foreign();
        if !live { return false, map[], calls; }
        var call;
        call, outputs := UpStack();
        calls := calls + [call];
        if call == Done { return true, outputs, calls; }
        if call == Fatal { return false, map[], calls; }
        live := Foreign();
        if !live { return false, map[], calls; }
      }
      return false, map[], calls;
    }

    // The same loop around DestroyStack.
    method ExecuteWithRetry() returns (ok: bool, ghost calls: seq<Call>)
      modifies coord.db`faults, coord.db`tried, coord.db`deeds
      ensures |calls| <= retryAttempts && forall i | 0 <= i < |calls| - 1 :: calls[i] == Retryable
      ensures ok <==> calls != [] && calls[|calls| - 1] == Done
      ensures Faults() >= old(Faults()) && (!ok ==> Faults() > old(Faults()) || retryAttempts == 0)
      ensures coord.db.deeds == old(coord.db.deeds) + (if ok then [P.DestroyStack] else [])
      ensures !ok && Faults() == old(Faults()) + |calls| ==>
                |calls| == retryAttempts || (calls != [] && calls[|calls| - 1] == Fatal)
    {
      calls := [];
      for attempt := 0 to retryAttempts
        invariant |calls| == attempt && forall i | 0 <= i < |calls| :: calls[i] == Retryable
        invariant Faults() >= old(Faults()) + attempt && coord.db.deeds == old(coord.db.deeds)
      {
        var live := Foreign();
        if !live { return false, calls; }
        var destroyed := Attempt(P.DestroyStack);
        var retryable: bool := *;
        calls := calls + [if destroyed then Done else if retryable then Retryable else Fatal];
        if destroyed { return true, calls; }
        if !retryable { return false, calls; }
        live := Foreign();
        if !live { return false, calls; }
      }
      return false, calls;
    }

    // The repository is the bucket followed by the prefix without its last slash.
    ghost predicate RepositoryOf(repository: string, prefix: string) {
      var head := "gs:" + backupBucket + ":/";
      head <= repository && Trimmed(prefix, repository[|head|..])
    }

    method RestoreRepository(prefix: string) returns (repository: Option<string>)
      ensures repository.Some? <==> prefix != "" && backupBucket != ""
      ensures repository.Some? ==> repository.value == "gs:" + backupBucket + ":/" + TrimSlash(prefix)
      ensures repository.Some? ==> RepositoryOf(repository.value, prefix)
    {
      TrimSlashOnce(prefix);
      if prefix == "" || backupBucket == "" { return None; }
      return Some("gs:" + backupBucket + ":/" + TrimSlash(prefix));
    }

    // The command was acknowledged, and it is the one that ran unless others trigger
    // commands that can pass for it.
    ghost predicate Answered(c: P.Command)
      reads coord.db
    {
      P.Acknowledged(coord.db.log, c) && (coord.db.Answers(c) ==> P.Executed(coord.db.log, c))
    }

    // Waits for the answer; others act on the status document meanwhile.
    method AwaitAnswer(timeout: int) returns (ok: bool)
      requires P.Inv(coord.db.View())
      modifies coord.db`doc, coord.db`log, coord.db`faults, coord
      ensures coord.db.Later(old(coord.db.View()))
      ensures coord.db.Exclusive() && Guarded(old(coord.db.log)) ==> Guarded(coord.db.log)
      ensures old(SavesFirst()) ==> SavesFirst()
      ensures ok && old(coord.db.doc).Some? && P.Latest(old(coord.db.log)).Some? ==>
                P.RanOk(coord.db.log) && coord.db.doc.Some? && coord.db.doc.value.result == "completed"
      ensures Faults() == old(Faults()) + (if ok then 0 else 1)
    {
      ghost var before := coord.db.log;
      var result;
      ok, result := coord.WaitForCommandAck(timeout);
      if Protected(before, coord.db.own) { ProtectedLater(before, coord.db.own, coord.db.log); }
      if coord.db.Exclusive() && Guarded(before) { GuardedLater(before, coord.db.log); }
    }

    // What to await after a save was asked for first of all.
    ghost predicate SaveAsked(written: bool)
      reads coord.db
    {
      && coord.db.log == [if written then P.Triggered(P.Save) else P.Skipped] && coord.db.own == {0}
      && (written ==> coord.db.doc.Some? && P.Mine(coord.db.View(), 0, P.Save))
    }

    method AskForSave() returns (ok: bool, ghost written: bool)
      requires coord.db.log == [] && coord.db.own == {}
      modifies coord.db`doc, coord.db`log, coord.db`own, coord.db`faults
      ensures P.Inv(coord.db.View()) && Guarded(coord.db.log) && SavesFirst()
      ensures ok ==> written == old(coord.db.doc).Some? && SaveAsked(written)
      ensures Faults() == old(Faults()) + (if ok then 0 else 1)
    {
      if coord.db.doc.Some? { P.MineFromTrigger(coord.db.View(), P.Save); }
      ok, written := coord.TriggerWorldSave();
      SaveRequested();
      ProtectedAppend([], {}, if written then P.Triggered(P.Save) else P.Skipped, {0});
      assert ok ==> [] + coord.db.log == coord.db.log;
    }

    // Asks for a save and waits for the answer.
    method SaveAndWait() returns (ok: bool)
      requires coord.db.log == [] && coord.db.own == {}
      modifies coord.db`doc, coord.db`log, coord.db`own, coord.db`faults, coord
      ensures P.Inv(coord.db.View()) && (coord.db.Exclusive() ==> Guarded(coord.db.log))
      ensures SavesFirst() && (ok ==> Prepared())
      ensures ok && coord.db.Exclusive() ==> Ready()
      ensures ok && old(coord.db.doc).Some? ==> Answered(P.Save)
      ensures Faults() == old(Faults()) + (if ok then 0 else 1)
    {
      ghost var written;
      ok, written := AskForSave();
      if ok {
        SaveRequested();
        ok := AwaitAnswer(saveAckTimeout);
        if ok { SaveIsFirst(coord.db.log, coord.db.own, !written); }
        if ok && written { P.AcknowledgedSince([], coord.db.View(), P.Save); }
      }
    }

    // The save that opens a restore and a recreation.
    method SaveWorldFirst(status: ProvisioningStatus, ghost names: seq<StepName>) returns (ok: bool)
      requires status.At(names, 0, Pending) && NoDup(names) && names != [] && names[0] == SaveWorld
      requires coord.db.log == [] && coord.db.own == {}
      modifies status, coord.db`doc, coord.db`log, coord.db`own, coord.db`faults, coord
      ensures P.Inv(coord.db.View()) && (coord.db.Exclusive() ==> Guarded(coord.db.log))
      ensures SavesFirst() && (ok ==> Prepared())
      ensures ok && old(coord.db.doc).Some? ==> Answered(P.Save)
      ensures if ok then status.At(names, 1, Pending) && status.state == old(status.state) else status.Ended(names)
      ensures ok && coord.db.Exclusive() ==> Ready()
      ensures status.outputs == old(status.outputs) && status.planned == old(status.planned)
      ensures !ok && status.planned && |names| <= 100 && old(status.state) != Completed ==> !status.Fell()
      ensures Faults() == old(Faults()) + (if ok then 0 else 1)
      ensures status.Wrote(old(status.lost))
    {
      status.UpdateStep(SaveWorld, names, 0, Pending);
      ok := SaveAndWait();
      if !ok {
        status.HandleError(SaveWorld, names, 0, InProgress);
        return;
      }
      status.CompleteStep(SaveWorld, names, 0, InProgress);
    }

    // WaitForServerHealthy; its verdict is only logged.
    method AwaitHealth(status: ProvisioningStatus, ghost names: seq<StepName>, ghost k: nat)
      requires status.At(names, k, Pending) && NoDup(names) && P.Inv(coord.db.View())
      requires HealthCheck in names ==> k < |names| && names[k] == HealthCheck
      modifies status, coord.db`doc, coord.db`log
      ensures status.At(names, if HealthCheck in names then k + 1 else k, Pending)
      ensures status.state == old(status.state) && status.outputs == old(status.outputs)
              && status.planned == old(status.planned)
      ensures status.stored ==> status.persisted != [] && status.persisted[|status.persisted| - 1] == status.Snap()
      ensures coord.db.Later(old(coord.db.View()))
      ensures coord.db.Exclusive() && Guarded(old(coord.db.log)) ==> Guarded(coord.db.log)
      ensures old(SavesFirst()) ==> SavesFirst()
      ensures status.Wrote(old(status.lost))
    {
      status.UpdateStep(HealthCheck, names, k, Pending);
      Elapse();
      status.CompleteStep(HealthCheck, names, k, if HealthCheck in names then InProgress else Pending);
    }

    // What to restore: the configuration must load, and the outputs name a snapshot
    // and the prefix of its repository.
    method ReadRequest(status: ProvisioningStatus) returns (snapshotId: string, repository: Option<string>)
      modifies coord.db`faults
      ensures Faults() >= old(Faults())
      ensures repository.None? ==> Faults() > old(Faults()) || !Requestable(status.outputs)
      ensures repository.Some? ==> Requested(status.outputs, snapshotId, repository.value)
    {
      snapshotId := P.Arg(status.outputs, "snapshotId");
      var found := Foreign();
      if !found || snapshotId == "" { return snapshotId, None; }
      repository := RestoreRepository(P.Arg(status.outputs, "repositoryPrefix"));
    }

    // The outputs name what to restore, and there is a bucket to restore it from.
    ghost predicate Requestable(outputs: map<string, string>) {
      P.Arg(outputs, "snapshotId") != "" && P.Arg(outputs, "repositoryPrefix") != "" && backupBucket != ""
    }

    // This restore was answered, and with nobody else triggering it is the latest
    // command and has run.
    ghost predicate Restored(snapshotId: string, repository: string)
      reads coord.db
    {
      var c := P.Restore(P.RestoreArgs(snapshotId, repository, resticPassword));
      && Answered(c)
      && (coord.db.Exclusive() ==> P.RanOk(coord.db.log) && P.Latest(coord.db.log) == Some(c))
    }

    // What to await after the restore c was asked for after the history `before`.
    ghost predicate RestoreAsked(before: seq<P.Entry>, c: P.Command)
      reads coord.db
    {
      && coord.db.log == before + [P.Triggered(c)] && P.Latest(coord.db.log) == Some(c)
      && coord.db.doc.Some? && P.Mine(coord.db.View(), |before|, c)
    }

    method AskForRestore(snapshotId: string, repository: string, ghost c: P.Command) returns (ok: bool)
      requires P.Inv(coord.db.View()) && Prepared() && (coord.db.Exclusive() ==> Ready())
      requires c == P.Restore(P.RestoreArgs(snapshotId, repository, resticPassword))
      modifies coord.db`doc, coord.db`log, coord.db`own, coord.db`faults
      ensures P.Inv(coord.db.View()) && SavesFirst() && (coord.db.Exclusive() ==> Guarded(coord.db.log))
      ensures if ok then RestoreAsked(old(coord.db.log), c) else coord.db.log == old(coord.db.log)
      ensures Faults() == old(Faults()) + (if ok then 0 else 1)
    {
      ghost var before := coord.db.View();
      if before.doc.Some? { P.MineFromTrigger(before, c); }
      P.LatestOfTrigger(before.log, c);
      ProtectedAppend(before.log, coord.db.own, P.Triggered(c), {|before.log|});
      if coord.db.Exclusive() { RestoreRequested(before.log, c.args); }
      ok := coord.TriggerRestore(snapshotId, repository, resticPassword);
    }

    // Asks for the restore and waits for the answer.
    method RestoreAndWait(snapshotId: string, repository: string) returns (ok: bool)
      requires P.Inv(coord.db.View()) && Prepared() && (coord.db.Exclusive() ==> Ready())
      modifies coord.db`doc, coord.db`log, coord.db`own, coord.db`faults, coord
      ensures P.Inv(coord.db.View()) && SavesFirst() && (coord.db.Exclusive() ==> Guarded(coord.db.log))
      ensures old(coord.db.log) <= coord.db.log
      ensures ok ==> Restored(snapshotId, repository)
      ensures Faults() == old(Faults()) + (if ok then 0 else 1)
    {
      ghost var before, c := coord.db.log, P.Restore(P.RestoreArgs(snapshotId, repository, resticPassword));
      ok := AskForRestore(snapshotId, repository, c);
      if ok {
        ok := AwaitAnswer(restoreAckTimeout);
        if ok { P.AcknowledgedSince(before, coord.db.View(), c); }
      }
    }

    // The restore proper: triggered only now that the world is saved.
    method RestoreWorldNext(status: ProvisioningStatus, ghost names: seq<StepName>, snapshotId: string,
                            repository: string)
      returns (ok: bool)
      requires status.At(names, 1, Pending) && NoDup(names) && |names| > 1 && names[1] == RestoreWorld
      requires P.Inv(coord.db.View()) && Prepared() && (coord.db.Exclusive() ==> Ready())
      modifies status, coord.db`doc, coord.db`log, coord.db`own, coord.db`faults, coord
      ensures P.Inv(coord.db.View()) && SavesFirst() && (coord.db.Exclusive() ==> Guarded(coord.db.log))
      ensures old(coord.db.log) <= coord.db.log
      ensures if ok then status.At(names, 2, Pending) && status.state == old(status.state) else status.Ended(names)
      ensures status.outputs == old(status.outputs) && status.planned == old(status.planned)
      ensures !ok && status.planned && |names| <= 100 && old(status.state) != Completed ==> !status.Fell()
      ensures ok ==> Restored(snapshotId, repository)
      ensures Faults() == old(Faults()) + (if ok then 0 else 1)
      ensures status.Wrote(old(status.lost))
    {
      Elapse();
      status.UpdateStep(RestoreWorld, names, 1, Pending);
      ok := RestoreAndWait(snapshotId, repository);
      if !ok {
        status.HandleError(RestoreWorld, names, 1, InProgress);
        return;
      }
      status.CompleteStep(RestoreWorld, names, 1, InProgress);
    }

    // Nil means that the restore was acknowledged, and that the snapshot its outputs
    // name was restored unless others trigger commands that can pass for it. However
    // it ends, it has triggered no restore before its save was answered.
    method RunRestore(status: ProvisioningStatus) returns (ok: bool)
      modifies status, coord.db, coord
      ensures status.planned && if ok then status.Succeeded(RESTORE_STEPS) else status.Ended(RESTORE_STEPS)
      ensures !ok && old(status.state) != Completed ==> !status.Fell()
      ensures SavesFirst() && (coord.db.Exclusive() ==> Guarded(coord.db.log))
      ensures ok ==> Requestable(old(status.outputs))
      ensures ok ==> RestoredAsAsked(old(status.outputs))
      ensures ok && coord.db.Exclusive() ==> RestoreRan(old(status.outputs))
      ensures ok && old(coord.db.doc).Some? ==> Answered(P.Save)
      ensures !ok ==> Faults() > old(Faults()) || !Requestable(old(status.outputs))
      ensures coord.db.deeds == [] && status.outputs == old(status.outputs)
      ensures status.Wrote(old(status.lost))
    {
      var snapshotId, repository := BeginRestore(status);
      if repository.None? { return false; }
      ok := SaveThenRestore(status, RESTORE_STEPS, snapshotId, repository.value);
    }

    method BeginRestore(status: ProvisioningStatus) returns (snapshotId: string, repository: Option<string>)
      modifies status, coord.db`log, coord.db`own, coord.db`tried, coord.db`deeds, coord.db`faults
      ensures coord.db.log == [] && coord.db.own == {} && SavesFirst() && Guarded(coord.db.log)
      ensures coord.db.tried == coord.db.deeds == []
      ensures status.planned && status.outputs == old(status.outputs) && status.Wrote(old(status.lost))
      ensures Faults() >= old(Faults())
      ensures repository.None? ==> status.Ended(RESTORE_STEPS) && (old(status.state) != Completed ==> !status.Fell())
      ensures repository.None? ==> Faults() > old(Faults()) || !Requestable(old(status.outputs))
      ensures repository.Some? ==> status.At(RESTORE_STEPS, 0, Pending) && status.state == old(status.state)
      ensures repository.Some? ==> Requested(status.outputs, snapshotId, repository.value)
    {
      StartHistory();
      status.Begin(RESTORE_STEPS);
      snapshotId, repository := ReadRequest(status);
      if repository.None? { status.HandleError(SaveWorld, RESTORE_STEPS, 0, Pending); }
    }

    // What a restore with these outputs is of.
    ghost predicate Requested(outputs: map<string, string>, snapshotId: string, repository: string) {
      && Requestable(outputs) && snapshotId == P.Arg(outputs, "snapshotId")
      && repository == "gs:" + backupBucket + ":/" + TrimSlash(P.Arg(outputs, "repositoryPrefix"))
      && RepositoryOf(repository, P.Arg(outputs, "repositoryPrefix"))
    }

    // The agent has restored the snapshot that the outputs name, from the repository
    // that they name, with this password.
    ghost predicate RanAsAsked(e: P.Entry, outputs: map<string, string>) {
      && e.Ran? && e.ok && e.command.Restore?
      && P.Arg(e.command.args, "snapshotId") == P.Arg(outputs, "snapshotId")
      && RepositoryOf(P.Arg(e.command.args, "repository"), P.Arg(outputs, "repositoryPrefix"))
      && P.Arg(e.command.args, "password") == resticPassword
    }

    ghost predicate RestoreRan(outputs: map<string, string>)
      reads coord.db
    {
      exists i | 0 <= i < |coord.db.log| :: RanAsAsked(coord.db.log[i], outputs)
    }

    lemma RestoredRan(repository: string, outputs: map<string, string>)
      requires Restored(P.Arg(outputs, "snapshotId"), repository) && coord.db.Exclusive()
      requires RepositoryOf(repository, P.Arg(outputs, "repositoryPrefix"))
      ensures RestoreRan(outputs)
    {
      var log, c := coord.db.log, P.Restore(P.RestoreArgs(P.Arg(outputs, "snapshotId"), repository, resticPassword));
      P.RestoreArgsName(P.Arg(outputs, "snapshotId"), repository, resticPassword);
      var i, j :| 0 <= i < j < |log| && log[i] == P.Triggered(c) && log[j] == P.Ran(c, true);
      assert RanAsAsked(log[j], outputs);
    }

    method SaveThenRestore(status: ProvisioningStatus, ghost names: seq<StepName>, snapshotId: string,
                           repository: string)
      returns (ok: bool)
      requires names == RESTORE_STEPS && status.At(names, 0, Pending) && coord.db.log == [] && coord.db.own == {}
      requires Requested(status.outputs, snapshotId, repository)
      modifies status, coord.db`doc, coord.db`log, coord.db`own, coord.db`faults, coord
      ensures status.planned == old(status.planned) && if ok then status.Succeeded(names) else status.Ended(names)
      ensures !ok && status.planned && old(status.state) != Completed ==> !status.Fell()
      ensures SavesFirst() && (coord.db.Exclusive() ==> Guarded(coord.db.log))
      ensures ok ==> Restored(snapshotId, repository)
      ensures ok && old(coord.db.doc).Some? ==> Answered(P.Save)
      ensures Faults() == old(Faults()) + (if ok then 0 else 1)
      ensures status.outputs == old(status.outputs)
      ensures status.Wrote(old(status.lost))
      ensures ok && coord.db.Exclusive() ==> RestoreRan(old(status.outputs))
    {
      ok := SaveWorldFirst(status, names);
      if !ok { return; }
      ghost var saved := coord.db.log;
      ok := RestoreWorldNext(status, names, snapshotId, repository);
      if !ok { return; }
      FinishRestore(status, names, snapshotId, repository);
      P.AcknowledgedStays(saved, coord.db.log, P.Save);
      if coord.db.Exclusive() { RestoredRan(repository, status.outputs); }
    }

    method FinishRestore(status: ProvisioningStatus, ghost names: seq<StepName>, ghost snapshotId: string,
                         ghost repository: string)
      requires names == RESTORE_STEPS && status.At(names, 2, Pending) && P.Inv(coord.db.View())
      requires Restored(snapshotId, repository) && SavesFirst() && (coord.db.Exclusive() ==> Guarded(coord.db.log))
      modifies status, coord.db`doc, coord.db`log
      ensures status.planned == old(status.planned) && status.Succeeded(names)
      ensures SavesFirst() && (coord.db.Exclusive() ==> Guarded(coord.db.log))
      ensures old(coord.db.log) <= coord.db.log
      ensures Restored(snapshotId, repository)
      ensures status.outputs == old(status.outputs)
      ensures status.Wrote(old(status.lost))
    {
      ghost var before := coord.db.log;
      AwaitHealth(status, names, 2);
      P.AcknowledgedStays(before, coord.db.log, P.Restore(P.RestoreArgs(snapshotId, repository, resticPassword)));
      status.Complete(status.outputs, names, 3);
    }

    ghost predicate RestoredAsAsked(outputs: map<string, string>)
      reads coord.db
    {
      Restored(P.Arg(outputs, "snapshotId"), "gs:" + backupBucket + ":/" + TrimSlash(P.Arg(outputs,
        "repositoryPrefix")))
    }

    // It falls back only if the last step was completed and the configuration could
    // not be stamped then: from 100 to 50.
    method RunCreate(status: ProvisioningStatus) returns (ok: bool)
      modifies status, coord.db
      ensures status.planned && if ok then status.Succeeded(CREATE_STEPS) else status.Ended(CREATE_STEPS)
      ensures !ok && old(status.state) != Completed ==> FallsFrom100To(status, 50)
      ensures !ok ==> Faults() > old(Faults()) || retryAttempts == 0
      ensures if ok then Deployed(status, PULUMI_DEEDS) else coord.db.deeds < PULUMI_DEEDS
      ensures status.Wrote(old(status.lost))
    {
      ghost var names := CREATE_STEPS;
      StartHistory();
      status.Begin(CREATE_STEPS);
      ok := PrepareStack();
      if !ok {
        status.HandleError(UpsertStack, names, 0, Pending);
        return;
      }
      status.CompleteStep(UpsertStack, names, 0, Pending);
      ok := DeployCreated(status, names);
    }

    // All this succeeded, in this order, and the status has the outputs of the stack.
    ghost predicate Deployed(status: ProvisioningStatus, deeds: seq<P.Deed>)
      reads status, coord.db
    {
      coord.db.deeds == deeds && P.UpStack in coord.db.log && status.outputs == coord.db.brought
    }

    // The progress fell exactly if it had been 100, and then to the given value.
    ghost predicate FallsFrom100To(status: ProvisioningStatus, to: int)
      reads status
    {
      && (status.Fell() <==> Progress(status.prior) == 100)
      && (status.Fell() ==> Progress(status.Snap()) == to)
    }

    // Brings the new stack up, and records with the configuration what deployed it.
    method DeployCreated(status: ProvisioningStatus, ghost names: seq<StepName>) returns (ok: bool)
      requires names == CREATE_STEPS && status.At(names, 1, Pending) && P.Inv(coord.db.View())
      modifies status, coord.db
      ensures status.planned == old(status.planned) && if ok then status.Succeeded(names) else status.Ended(names)
      ensures !ok && status.planned && old(status.state) != Completed ==> FallsFrom100To(status, 50)
      ensures Faults() >= old(Faults()) && (!ok ==> Faults() > old(Faults()) || retryAttempts == 0)
      ensures old(coord.db.deeds) == PREPARE_DEEDS ==>
                if ok then Deployed(status, PULUMI_DEEDS) else coord.db.deeds < PULUMI_DEEDS
      ensures status.Wrote(old(status.lost))
    {
      status.UpdateStep(DeployInfrastructure, names, 1, Pending);
      var outputs;
      ghost var calls;
      ok, outputs, calls := ExecuteUpWithRetry();
      if !ok {
        status.HandleError(DeployInfrastructure, names, 1, InProgress);
        return;
      }
      status.CompleteStep(DeployInfrastructure, names, 1, InProgress);
      ok := Attempt(P.StampConfig);
      if !ok {
        status.HandleError(DeployInfrastructure, names, 2, Pending);
        return;
      }
      status.Complete(outputs, names, 2);
    }

    // Shared by the updates. It ends COMPLETED whatever steps its caller has left.
    method RunPulumiUpdate(status: ProvisioningStatus, ghost names: seq<StepName>, ghost k: nat) returns (ok: bool)
      requires status.At(names, k, Pending) && NoDup(names) && P.Inv(coord.db.View())
      requires UpsertStack in names ==> k < |names| && names[k] == UpsertStack
      requires RefreshStack !in names && UpdateInfrastructure !in names
      modifies status, coord.db
      ensures P.Inv(coord.db.View()) && (old(Ready()) ==> Ready()) && (old(Prepared()) ==> Prepared())
      ensures old(coord.db.log) <= coord.db.log
      ensures if ok then status.At(names, if UpsertStack in names then k + 1 else k, Pending)
              && status.state == Completed
              else status.Ended(names)
      ensures status.planned == old(status.planned)
      ensures !ok && status.planned && |names| <= 100 ==>
                status.Fell() ==> old(status.state) == Completed && names != []
      ensures !ok && status.planned ==>
                || Progress(status.prior) == FrontProgress(names, k, old(status.state))
                || Progress(status.prior) == FrontProgress(names, if UpsertStack in names
                  then k + 1 else k, old(status.state))
      ensures ok && status.stored ==>
              status.persisted != []
              && status.persisted[|status.persisted| - 1] == status.Snap()
      ensures Faults() >= old(Faults()) && (!ok ==> Faults() > old(Faults()) || retryAttempts == 0)
      ensures if ok then Deployed(status, old(coord.db.deeds) + PULUMI_DEEDS)
              else old(coord.db.deeds) <= coord.db.deeds < old(coord.db.deeds) + PULUMI_DEEDS
      ensures status.Wrote(old(status.lost))
    {
      ok := PrepareStack();
      if !ok {
        status.HandleError(UpsertStack, names, k, Pending);
        return;
      }
      status.CompleteStep(UpsertStack, names, k, Pending);
      ghost var next := if UpsertStack in names then k + 1 else k;
      status.UpdateStep(RefreshStack, names, next, Pending);
      status.CompleteStep(RefreshStack, names, next, Pending);
      ok := DeployUpdate(status, names, next);
    }

    method DeployUpdate(status: ProvisioningStatus, ghost names: seq<StepName>, ghost k: nat) returns (ok: bool)
      requires status.At(names, k, Pending) && NoDup(names) && P.Inv(coord.db.View())
      requires UpdateInfrastructure !in names
      modifies status, coord.db
      ensures P.Inv(coord.db.View()) && (old(Ready()) ==> Ready()) && (old(Prepared()) ==> Prepared())
      ensures old(coord.db.log) <= coord.db.log
      ensures if ok then status.At(names, k, Pending) && status.state == Completed else status.Ended(names)
      ensures status.planned == old(status.planned)
      ensures !ok && status.planned && |names| <= 100 ==>
                status.Fell() ==> old(status.state) == Completed && names != []
      ensures !ok && status.planned ==> Progress(status.prior) == FrontProgress(names, k, old(status.state))
      ensures ok && status.stored ==>
              status.persisted != []
              && status.persisted[|status.persisted| - 1] == status.Snap()
      ensures Faults() >= old(Faults()) && (!ok ==> Faults() > old(Faults()) || retryAttempts == 0)
      ensures if ok then Deployed(status, old(coord.db.deeds) + DEPLOY_DEEDS)
              else old(coord.db.deeds) <= coord.db.deeds < old(coord.db.deeds) + DEPLOY_DEEDS
      ensures status.Wrote(old(status.lost))
    {
      status.UpdateStep(UpdateInfrastructure, names, k, Pending);
      var outputs;
      ghost var calls;
      ok, outputs, calls := ExecuteUpWithRetry();
      if !ok {
        status.HandleError(UpdateInfrastructure, names, k, Pending);
        return;
      }
      status.CompleteStep(UpdateInfrastructure, names, k, Pending);
      ok := Attempt(P.StampConfig);
      if !ok {
        status.HandleError(UpdateInfrastructure, names, k, Pending);
        return;
      }
      status.Complete(outputs, names, k);
    }

    // It sets no steps of its own: the progress of a successful in-place update stays
    // 0. Steps that are there from before are not promised any shape.
    method RunInPlaceUpdate(status: ProvisioningStatus) returns (ok: bool)
      modifies status, coord.db
      ensures if ok then status.Succeeded(IN_PLACE_STEPS) else status.Ended(IN_PLACE_STEPS)
      ensures status.planned <==> old(status.steps) == []
      ensures !ok && status.planned ==> !status.Fell()
      ensures !ok ==> Faults() > old(Faults()) || retryAttempts == 0
      ensures if ok then Deployed(status, DeedsOf(InPlace)) else coord.db.deeds < DeedsOf(InPlace)
      ensures status.Wrote(old(status.lost))
    {
      StartHistory();
      status.persisted, status.planned := [], status.steps == [];
      ok := RunPulumiUpdate(status, IN_PLACE_STEPS, 0);
      if ok && status.planned { AllCompleted(status.Snap(), IN_PLACE_STEPS); }
    }

    // It falls back only if the update was reported COMPLETED and the instance did
    // not start then: from 100 to 66.
    method RunResizeUpdate(status: ProvisioningStatus) returns (ok: bool)
      modifies status, coord.db
      ensures status.planned && if ok then status.Succeeded(RESIZE_STEPS) else status.Ended(RESIZE_STEPS)
      ensures !ok && old(status.state) != Completed ==> FallsFrom100To(status, 66)
      ensures !ok ==> Faults() > old(Faults()) || retryAttempts == 0
      ensures ok ==> Deployed(status, DeedsOf(Resize))
      ensures coord.db.deeds == [] || (coord.db.deeds[0] == P.StopInstance && StartTried())
      ensures status.Wrote(old(status.lost))
    {
      ghost var names := RESIZE_STEPS;
      StartHistory();
      status.Begin(RESIZE_STEPS);
      ok := StopFirst(status, names);
      if !ok { return; }
      ok := ResizeStopped(status, names);
    }

    method StopFirst(status: ProvisioningStatus, ghost names: seq<StepName>) returns (ok: bool)
      requires names == RESIZE_STEPS && status.At(names, 0, Pending) && status.planned
      modifies status, coord.db`faults, coord.db`tried, coord.db`deeds
      ensures status.planned && if ok then status.At(names, 1, Pending) && status.state == old(status.state)
              else status.Ended(names)
      ensures !ok && old(status.state) != Completed ==> FallsFrom100To(status, 66)
      ensures coord.db.deeds == old(coord.db.deeds) + (if ok then [P.StopInstance] else [])
      ensures Faults() == old(Faults()) + (if ok then 0 else 1)
      ensures status.Wrote(old(status.lost))
    {
      status.UpdateStep(StopInstance, names, 0, Pending);
      ok := Attempt(P.StopInstance);
      if !ok {
        status.HandleError(StopInstance, names, 0, InProgress);
        return;
      }
      status.CompleteStep(StopInstance, names, 0, InProgress);
    }

    // The last thing tried was to start the instance.
    ghost predicate StartTried()
      reads coord.db
    {
      coord.db.tried != [] && coord.db.tried[|coord.db.tried| - 1] == P.StartInstance
    }

    // With the instance stopped: whatever becomes of the update, it is started again.
    method ResizeStopped(status: ProvisioningStatus, ghost names: seq<StepName>) returns (ok: bool)
      requires names == RESIZE_STEPS && status.At(names, 1, Pending) && P.Inv(coord.db.View())
      modifies status, coord.db
      ensures status.planned == old(status.planned) && if ok then status.Succeeded(names) else status.Ended(names)
      ensures !ok && status.planned && old(status.state) != Completed ==> FallsFrom100To(status, 66)
      ensures Faults() >= old(Faults()) && (!ok ==> Faults() > old(Faults()) || retryAttempts == 0)
      ensures ok ==> Deployed(status, old(coord.db.deeds) + PULUMI_DEEDS + [P.StartInstance])
      ensures StartTried()
      ensures old(coord.db.deeds) <= coord.db.deeds
      ensures status.Wrote(old(status.lost))
    {
      ok := RunPulumiUpdate(status, names, 1);
      if !ok {
        var restarted := Attempt(P.StartInstance);
        return false;
      }
      ok := StartAgain(status, names);
    }

    // The status already says COMPLETED while the instance is started.
    method StartAgain(status: ProvisioningStatus, ghost names: seq<StepName>) returns (ok: bool)
      requires names == RESIZE_STEPS && status.At(names, 2, Pending) && status.state == Completed
      requires P.Inv(coord.db.View())
      modifies status, coord.db
      ensures status.planned == old(status.planned) && if ok then status.Succeeded(names) else status.Ended(names)
      ensures !ok && status.planned ==>
                status.Fell() && Progress(status.prior) == 100 && Progress(status.Snap()) == 66
      ensures Faults() == old(Faults()) + (if ok then 0 else 1)
      ensures coord.db.deeds == old(coord.db.deeds) + (if ok then [P.StartInstance] else [])
      ensures old(coord.db.log) <= coord.db.log && StartTried()
      ensures status.outputs == old(status.outputs) && coord.db.brought == old(coord.db.brought)
      ensures status.Wrote(old(status.lost))
    {
      status.UpdateStep(StartInstance, names, 2, Pending);
      ok := Attempt(P.StartInstance);
      if !ok {
        status.HandleError(StartInstance, names, 2, InProgress);
        return;
      }
      status.CompleteStep(StartInstance, names, 2, InProgress);
      AwaitHealth(status, names, 3);
      if status.planned { AllCompleted(status.Snap(), names); }
    }

    // The stack is brought up only after the save was answered, whatever others trigger.
    method RunRecreateUpdate(status: ProvisioningStatus) returns (ok: bool)
      modifies status, coord.db, coord
      ensures status.planned && if ok then status.Succeeded(RECREATE_STEPS) else status.Ended(RECREATE_STEPS)
      ensures !ok && old(status.state) != Completed ==> !status.Fell()
      ensures SavesFirst() && (coord.db.Exclusive() ==> Guarded(coord.db.log))
      ensures ok && old(coord.db.doc).Some? ==> Answered(P.Save)
      ensures !ok ==> Faults() > old(Faults()) || retryAttempts == 0
      ensures if ok then Deployed(status, DeedsOf(Recreate)) else coord.db.deeds < DeedsOf(Recreate)
      ensures status.Wrote(old(status.lost))
    {
      ghost var names := RECREATE_STEPS;
      StartHistory();
      status.Begin(RECREATE_STEPS);
      ok := SaveWorldFirst(status, names);
      if !ok { return; }
      ghost var saved := coord.db.log;
      ok := RecreateSaved(status, names);
      assert [] + PULUMI_DEEDS == PULUMI_DEEDS;
      P.AcknowledgedStays(saved, coord.db.log, P.Save);
    }

    // With the world saved.
    method RecreateSaved(status: ProvisioningStatus, ghost names: seq<StepName>) returns (ok: bool)
      requires names == RECREATE_STEPS && status.At(names, 1, Pending) && P.Inv(coord.db.View())
      requires Prepared() && (coord.db.Exclusive() ==> Ready())
      modifies status, coord.db
      ensures status.planned == old(status.planned) && if ok then status.Succeeded(names) else status.Ended(names)
      ensures !ok && status.planned && old(status.state) != Completed ==> !status.Fell()
      ensures SavesFirst() && (coord.db.Exclusive() ==> Guarded(coord.db.log))
      ensures old(coord.db.log) <= coord.db.log
      ensures Faults() >= old(Faults()) && (!ok ==> Faults() > old(Faults()) || retryAttempts == 0)
      ensures if ok then Deployed(status, old(coord.db.deeds) + PULUMI_DEEDS)
              else old(coord.db.deeds) <= coord.db.deeds < old(coord.db.deeds) + PULUMI_DEEDS
      ensures status.Wrote(old(status.lost))
    {
      ok := RunPulumiUpdate(status, names, 1);
      if ok { FinishRecreate(status, names); }
    }

    method FinishRecreate(status: ProvisioningStatus, ghost names: seq<StepName>)
      requires names == RECREATE_STEPS && status.At(names, 2, Pending) && status.state == Completed
      requires P.Inv(coord.db.View()) && P.UpStack in coord.db.log
      modifies status, coord.db`doc, coord.db`log
      ensures status.planned == old(status.planned) && status.Succeeded(names)
      ensures status.outputs == old(status.outputs) && P.UpStack in coord.db.log
      ensures old(coord.db.log) <= coord.db.log
      ensures old(SavesFirst()) ==> SavesFirst()
      ensures coord.db.Exclusive() && Guarded(old(coord.db.log)) ==> Guarded(coord.db.log)
      ensures status.Wrote(old(status.lost))
    {
      AwaitHealth(status, names, 2);
      StillIn(old(coord.db.log), coord.db.log, P.UpStack);
      if status.planned { AllCompleted(status.Snap(), names); }
    }

    // The kinds differ in what they do, and in the steps by which one can tell.
    method RunUpdate(status: ProvisioningStatus, updateType: int) returns (ok: bool)
      modifies status, coord.db, coord
      ensures var names := StepsOf(KindOf(updateType));
              if ok then status.Succeeded(names) else status.Ended(names)
      ensures status.planned <==> KindOf(updateType) != InPlace || old(status.steps) == []
      ensures KindOf(updateType) == Recreate ==> SavesFirst()
      ensures status.planned ==> forall kind :: Performed(status.steps, kind) <==> kind == KindOf(updateType)
      ensures !ok && status.planned && old(status.state) != Completed ==>
                (status.Fell() <==> Progress(status.prior) == 100 && KindOf(updateType) == Resize)
      ensures !ok ==> Faults() > old(Faults()) || retryAttempts == 0
      ensures ok ==> Deployed(status, DeedsOf(KindOf(updateType)))
      ensures status.Wrote(old(status.lost))
      ensures ok ==> (P.StopInstance in coord.db.deeds <==> updateType == 1)
      ensures updateType == 2 ==> SavesFirst() && (ok && old(coord.db.doc).Some? ==> Answered(P.Save))
    {
      if updateType == 1 {
        ok := RunResizeUpdate(status);
      } else if updateType == 2 {
        ok := RunRecreateUpdate(status);
      } else {
        ok := RunInPlaceUpdate(status);
      }
    }

    // What a delivery runs. Whatever happens, a known operation ends with a terminal
    // status, and that is also what its last successful write at the end stored.
    method ExecuteOperation(status: ProvisioningStatus, server: string, operation: Operation, updateType: int,
                            deletedAt: int, until: int)
      returns (ok: bool)
      modifies status, coord.db, store, catalog, coord
      ensures operation != Unknown ==> status.state == (if ok then Completed else Failed)
      ensures operation != Unknown && status.stored ==>
                status.persisted != [] && status.persisted[|status.persisted| - 1].state == status.state
      ensures operation == Unknown ==> !ok && unchanged(status)
      ensures operation != Unknown && !ok ==>
                Faults() > old(Faults()) || retryAttempts == 0 || (operation == Restore
                  && !Requestable(old(status.outputs)))
      ensures operation != Unknown && !ok && status.planned && old(status.state) != Completed ==>
                (status.Fell() <==>
                  Progress(status.prior) == 100
                    && (operation == Create || (operation == Update && KindOf(updateType) == Resize)))
      ensures operation == Restore || (operation == Update && KindOf(updateType) == Recreate) ==> SavesFirst()
      ensures operation == Update && (KindOf(updateType) != InPlace || old(status.steps) == []) ==>
                forall kind :: Performed(status.steps, kind) <==> kind == KindOf(updateType)
      ensures operation != Destroy || !ok ==> store.configs == old(store.configs) && catalog.cat == old(catalog.cat)
      ensures ok && operation == Create ==> Deployed(status, PULUMI_DEEDS)
      ensures ok && operation == Update ==> Deployed(status, DeedsOf(KindOf(updateType)))
      ensures ok && operation == Destroy ==> coord.db.deeds == [P.DestroyStack]
      ensures operation != Unknown && status.lost == old(status.lost) ==>
                status.persisted != [] && status.persisted[|status.persisted| - 1].state == status.state
      ensures operation != Unknown ==>
                if ok then status.Succeeded(StepList(operation, updateType))
                else status.Ended(StepList(operation, updateType))
      ensures operation in {Create, Destroy, Restore} ==> status.planned
      ensures ok && operation == Restore ==>
                RestoredAsAsked(old(status.outputs)) && (coord.db.Exclusive() ==> RestoreRan(old(status.outputs)))
      ensures ok && operation == Destroy && server in old(store.configs)
              && CleanSince(old(store.faults), old(catalog.faults), old(catalog.itemFaults)) ==>
                CleanDestroyEnd(old(store.configs), old(catalog.cat), server, deletedAt, until, store.configs,
                  catalog.cat)
    {
      match operation
      case Create => ok := RunCreate(status);
      case Update => ok := RunUpdate(status, updateType);
      case Destroy =>
        ghost var deleted;
        ok, deleted := RunDestroy(status, server, deletedAt, until);
      case Restore => ok := RunRestore(status);
      case Unknown => ok := false;
    }

    method RunDestroy(status: ProvisioningStatus, server: string, deletedAt: int, until: int)
      returns (ok: bool, ghost deleted: bool)
      modifies status, coord.db, store, catalog
      ensures status.planned && if ok then status.Succeeded(DESTROY_STEPS) else status.Ended(DESTROY_STEPS)
      ensures !ok && old(status.state) != Completed ==> !status.Fell()
      ensures !ok ==> Faults() > old(Faults()) || retryAttempts == 0
      ensures !ok ==> store.configs == old(store.configs) && catalog.cat == old(catalog.cat)
      ensures ok ==> DestroyEnd(old(store.configs), old(catalog.cat), server, deletedAt, until, deleted,
              store.configs, catalog.cat)
      ensures ok ==> Unlisted(old(store.index), old(store.faults), server, deleted)
      ensures ok && server in old(store.configs)
              && CleanSince(old(store.faults), old(catalog.faults), old(catalog.itemFaults)) ==>
                CleanDestroyEnd(old(store.configs), old(catalog.cat), server, deletedAt, until, store.configs,
                  catalog.cat)
      ensures coord.db.deeds == if ok then [P.DestroyStack] else []
      ensures ok && server in old(store.configs) && L.Keyed(old(catalog.cat))
              && CleanSince(old(store.faults), old(catalog.faults), old(catalog.itemFaults)) ==>
                StampedByDestroy(old(store.configs), old(catalog.cat), server, deletedAt, until, catalog.cat)
      ensures status.Wrote(old(status.lost))
    {
      ghost var names := DESTROY_STEPS;
      deleted := false;
      StartHistory();
      status.Begin(DESTROY_STEPS);
      status.UpdateStep(DestroyStack, names, 0, Pending);
      ghost var calls;
      ok, calls := ExecuteWithRetry();
      if !ok {
        status.HandleError(DestroyStack, names, 0, InProgress);
        return;
      }
      status.CompleteStep(DestroyStack, names, 0, InProgress);
      status.Complete(status.outputs, names, 1);
      deleted := EndDestroy(server, deletedAt, until);
    }

    // The server leaves the index of configurations exactly if the deletion succeeds.
    ghost predicate Unlisted(index: seq<string>, faults: nat, server: string, deleted: bool)
      reads store
    {
      if deleted then store.index == Minus(index, server) else store.index == index && store.faults > faults
    }

    ghost predicate CleanSince(storeFaults: nat, catalogFaults: nat, itemFaults: nat)
      reads store, catalog
    {
      store.faults == storeFaults && catalog.faults == catalogFaults && catalog.itemFaults == itemFaults
    }

    // Only logged when it fails: the configuration goes, and then the backups are
    // stamped with what was known of it.
    method EndDestroy(server: string, deletedAt: int, until: int) returns (ghost deleted: bool)
      modifies store, catalog
      ensures DestroyEnd(old(store.configs), old(catalog.cat), server, deletedAt, until, deleted, store.configs,
                         catalog.cat)
      ensures Unlisted(old(store.index), old(store.faults), server, deleted)
      ensures server in old(store.configs)
              && CleanSince(old(store.faults), old(catalog.faults), old(catalog.itemFaults)) ==>
                CleanDestroyEnd(old(store.configs), old(catalog.cat), server, deletedAt, until, store.configs,
                  catalog.cat)
      ensures server in old(store.configs) && L.Keyed(old(catalog.cat))
              && CleanSince(old(store.faults), old(catalog.faults), old(catalog.itemFaults)) ==>
                StampedByDestroy(old(store.configs), old(catalog.cat), server, deletedAt, until, catalog.cat)
    {
      ghost var configs, cat := store.configs, catalog.cat;
      var source := store.GetServerConfig(server);
      var gone := store.DeleteServerConfig(server);
      deleted := gone;
      if gone {
        var marked;
        ghost var errs;
        marked, errs := catalog.MarkServerBackupsDeleted(server, B.Stamp(deletedAt, until, source));
      }
      if server in configs && L.Keyed(cat)
        && CleanDestroyEnd(configs, cat, server, deletedAt, until, store.configs, catalog.cat)
      {
        CleanDestroyStamps(configs, cat, server, deletedAt, until, store.configs, catalog.cat);
      }
    }
  }

  lemma StillIn<T>(before: seq<T>, after: seq<T>, x: T)
    requires before <= after && x in before
    ensures x in after
  {
    var i :| 0 <= i < |before| && before[i] == x;
    assert after[i] == x;
  }

  lemma AllCompleted(s: Snapshot, names: seq<StepName>)
    requires s.steps == Layout(names, |names|, Pending) && s.state == Completed
    ensures forall i | 0 <= i < |s.steps| :: s.steps[i].status == Completed
    ensures Progress(s) == if names == [] then 0 else 100
  {}
}
