// The Cloud Tasks executor and its task handler: tasks are delivered at least
// once, and a gate on the stored status lets each operation's body run once.
module CloudTasks {
  import opened Common

  datatype State = Pending | InProgress | Completed | Failed

  datatype Status = Status(id: string, state: State)

  datatype Outcome = Rejected | Skipped | Unavailable | Executed

  // The stored status lets a delivery of operation id on this server through.
  predicate GateOpen(statuses: map<string, Status>, server: string, id: string) {
    server in statuses && statuses[server] == Status(id, InProgress)
  }

  // Every delivered update is executed with this type, whichever was asked for.
  const DELIVERED_UPDATE_TYPE := 0

  // ---- The code ----

  class CloudTasksExecutor {
    var statuses: map<string, Status>    // provisioning:<server>
    var configs: set<string>             // serverconfig:<server>
    var queue: multiset<(string, string)>
    ghost var faults: nat                // calls that failed
    ghost var issued: map<string, string>  // the operations started, with their servers
    ghost var executing: set<string>       // those whose body runs now
    ghost var bodies: multiset<string>     // how often each body was started
    ghost var deaths: multiset<string>     // and how often it died

    // The state of the runs below.
    ghost function View(): World
      reads this
    {
      World(statuses, issued, executing, bodies, deaths)
    }

    // Whether a call succeeds.
    method Call() returns (ok: bool)
      modifies this`faults
      ensures faults == old(faults) + (if ok then 0 else 1)
    {
      ok := *;
      if !ok { faults := faults + 1; }
    }

    // A missing document is an error to the caller too.
    method GetProvisioningStatus(server: string) returns (status: Option<Status>)
      modifies this`faults
      ensures faults == old(faults) || (faults == old(faults) + 1 && status == None)
      ensures faults == old(faults) ==> status == if server in statuses then Some(statuses[server]) else None
    {
      var ok := Call();
      status := if ok && server in statuses then Some(statuses[server]) else None;
    }

    method UpdateProvisioningStatus(server: string, status: Status) returns (ok: bool)
      modifies this`statuses, this`faults
      ensures statuses == if ok then old(statuses)[server := status] else old(statuses)
      ensures faults == old(faults) + (if ok then 0 else 1)
    {
      ok := Call();
      if ok { statuses := statuses[server := status]; }
    }

    // A status that cannot be read does not stop a start; a delivery that cannot be
    // enqueued leaves the status behind. `written` tells that it was stored.
    method StartOperation(server: string, id: string) returns (ok: bool, ghost written: bool)
      modifies this`statuses, this`queue, this`issued, this`faults
      ensures View() == if written then Apply(old(View()), Start(server, id)) else old(View())
      ensures statuses == if written then old(statuses)[server := Status(id, InProgress)] else old(statuses)
      ensures ok ==> written && queue == old(queue) + multiset{(server, id)}
      ensures !ok ==> queue == old(queue) && (written ==> faults > old(faults))
      ensures faults == old(faults) ==> (ok <==>
              !(server in old(statuses) && old(statuses)[server].state == InProgress))
      ensures faults >= old(faults)
      ensures old(Inv(View())) && id !in old(issued) ==> Inv(View())
    {
      if Inv(View()) && id !in issued { StartKeepsInv(View(), server, id); }
      written := false;
      var existing := GetProvisioningStatus(server);
      if existing.Some? && existing.value.state == InProgress { return false, false; }
      ok := UpdateProvisioningStatus(server, Status(id, InProgress));
      if !ok { return; }
      written, issued := true, issued[id := server];
      ok := Call();
      if ok { queue := queue + multiset{(server, id)}; }
    }

    method CancelOperation(server: string) returns (ok: bool)
      modifies this`statuses, this`faults
      ensures ok ==> server in old(statuses) && old(statuses)[server].state == InProgress
      ensures View() == if ok then Apply(old(View()), Cancel(server)) else old(View())
      ensures ok ==> statuses == old(statuses)[server := Status(old(statuses)[server].id, Failed)]
      ensures faults == old(faults) ==> (ok <==> server in old(statuses) && old(statuses)[server].state == InProgress)
      ensures old(Inv(View())) ==> Inv(View())
    {
      if Inv(View()) { CancelKeepsInv(View(), server); }
      var existing := GetProvisioningStatus(server);
      if existing.None? || existing.value.state != InProgress { return false; }
      ok := UpdateProvisioningStatus(server, existing.value.(state := Failed));
    }

    // Up to the point where the body starts, with the update type it is handed;
    // nothing is stored on the way. A request without an operation id is not gated.
    method HandleProvisioningTask(server: string, id: string) returns (outcome: Outcome, updateType: int)
      modifies this`executing, this`bodies, this`faults
      ensures server == "" <==> outcome == Rejected
      ensures outcome == Executed ==> server in configs && (id == "" || GateOpen(statuses, server, id))
      ensures outcome == Skipped ==> id != "" && server in statuses && !GateOpen(statuses, server, id)
      ensures faults > old(faults) ==> outcome == Unavailable
      ensures faults == old(faults) && server != "" ==>
                && (outcome == Executed <==> server in configs && (id == "" || GateOpen(statuses, server, id)))
                && (outcome == Skipped <==> id != "" && server in statuses && !GateOpen(statuses, server, id))
      ensures outcome == Executed ==> updateType == DELIVERED_UPDATE_TYPE
      ensures View() == if outcome == Executed && id != "" then Apply(old(View()), Deliver(server, id)) else old(View())
      ensures outcome == Skipped ==> View() == Apply(old(View()), Deliver(server, id))
      ensures old(Inv(View()) && Enabled(View(), Deliver(server, id))) ==> Inv(View())
    {
      if Inv(View()) && Enabled(View(), Deliver(server, id)) { DeliverKeepsInv(View(), server, id); }
      updateType := DELIVERED_UPDATE_TYPE;
      if server == "" { return Rejected, updateType; }
      var ok := Call();
      if !ok { return Unavailable, updateType; }
      if id != "" {
        var current := GetProvisioningStatus(server);
        if current.None? { return Unavailable, updateType; }
        if current.value.id != id { return Skipped, updateType; }
        if current.value.state != InProgress { return Skipped, updateType; }
      }
      ok := Call();
      if !ok || server !in configs { return Unavailable, updateType; }
      ok := Call();
      if !ok { return Unavailable, updateType; }
      outcome := Executed;
      if id != "" { executing, bodies := executing + {id}, bodies + multiset{id}; }
    }
  }

  // ---- Runs: starts, cancels, deliveries, and what running bodies do ----

  // `executing` holds the operations whose body runs now; `bodies` counts how
  // often each body was started, `deaths` how often one ended without a last write.
  datatype World = World(statuses: map<string, Status>, issued: map<string, string>,
                         executing: set<string>, bodies: multiset<string>, deaths: multiset<string>)

  datatype Step =
    | Start(server: string, id: string)             // fresh id, whatever is stored
    | Cancel(server: string)
    | Deliver(server: string, id: string)           // any number of times
    | BodyWrite(id: string, state: State)
    | Finish(id: string, state: State)              // the body's last write
    | Die(id: string)                               // the body's end without one

  const START := World(map[], map[], {}, multiset{}, multiset{})

  // Operation ids are unique, deliveries of one operation do not overlap, status
  // writes succeed, and a body that does not die ends with a terminal status.
  ghost predicate Enabled(w: World, s: Step) {
    match s
    case Start(_, id) => id !in w.issued
    case Cancel(_) => true
    case Deliver(server, id) => id in w.issued && w.issued[id] == server && id !in w.executing
    case BodyWrite(id, _) => id in w.executing
    case Finish(id, state) => id in w.executing && state in {Completed, Failed}
    case Die(id) => id in w.executing
  }

  function Apply(w: World, s: Step): World {
    match s
    case Start(server, id) =>
      w.(statuses := w.statuses[server := Status(id, InProgress)], issued := w.issued[id := server])
    case Cancel(server) =>
      if server in w.statuses && w.statuses[server].state == InProgress
      then w.(statuses := w.statuses[server := w.statuses[server].(state := Failed)]) else w
    case Deliver(server, id) =>
      if GateOpen(w.statuses, server, id)
      then w.(executing := w.executing + {id}, bodies := w.bodies + multiset{id}) else w
    case BodyWrite(id, state) =>
      if id in w.issued then w.(statuses := w.statuses[w.issued[id] := Status(id, state)]) else w
    case Finish(id, state) =>
      if id in w.issued
      then w.(statuses := w.statuses[w.issued[id] := Status(id, state)], executing := w.executing - {id}) else w
    case Die(id) => w.(executing := w.executing - {id}, deaths := w.deaths + multiset{id})
  }

  // An operation is stored as in progress only while its body runs, or as long as
  // every body of it that was started has died.
  ghost predicate Inv(w: World) {
    && w.executing <= w.issued.Keys
    && (forall id :: w.bodies[id] <= 1 + w.deaths[id])
    && (forall id | id in w.executing :: w.bodies[id] >= 1)
    && (forall id | w.bodies[id] >= 1 :: id in w.issued)
    && (forall server | server in w.statuses ::
         w.statuses[server].id in w.issued && w.issued[w.statuses[server].id] == server)
    && (forall server | server in w.statuses && w.statuses[server].state == InProgress ::
         var id := w.statuses[server].id; w.bodies[id] <= w.deaths[id] || id in w.executing)
  }

  lemma {:induction false} StepKeepsInv(w: World, s: Step)
    requires Inv(w) && Enabled(w, s)
    ensures Inv(Apply(w, s))
  {
    match s
    case Start(server, id) => StartKeepsInv(w, server, id);
    case Cancel(server) => CancelKeepsInv(w, server);
    case Deliver(server, id) => DeliverKeepsInv(w, server, id);
    case BodyWrite(id, state) => WriteKeepsInv(w, id, state);
    case Finish(id, state) => FinishKeepsInv(w, id, state);
    case Die(id) => DieKeepsInv(w, id);
  }

  lemma {:induction false} StartKeepsInv(w: World, server: string, id: string)
    requires Inv(w) && id !in w.issued
    ensures Inv(Apply(w, Start(server, id)))
  {
    assert w.bodies[id] == 0;
  }

  lemma {:induction false} DeliverKeepsInv(w: World, server: string, id: string)
    requires Inv(w) && Enabled(w, Deliver(server, id))
    ensures Inv(Apply(w, Deliver(server, id)))
  {}

  lemma {:induction false} DieKeepsInv(w: World, id: string)
    requires Inv(w) && id in w.executing
    ensures Inv(Apply(w, Die(id)))
  {}

  lemma {:induction false} CancelKeepsInv(w: World, server: string)
    requires Inv(w)
    ensures Inv(Apply(w, Cancel(server)))
  {}

  lemma {:induction false} WriteKeepsInv(w: World, id: string, state: State)
    requires Inv(w) && id in w.executing
    ensures Inv(Apply(w, BodyWrite(id, state)))
  {}

  lemma {:induction false} FinishKeepsInv(w: World, id: string, state: State)
    requires Inv(w) && id in w.executing && state in {Completed, Failed}
    ensures Inv(Apply(w, Finish(id, state)))
  {}

  function Run(w: World, steps: seq<Step>): World
    decreases |steps|
  {
    if steps == [] then w else Run(Apply(w, steps[0]), steps[1..])
  }

  ghost predicate AllEnabled(w: World, steps: seq<Step>)
    decreases |steps|
  {
    steps == [] || (Enabled(w, steps[0]) && AllEnabled(Apply(w, steps[0]), steps[1..]))
  }

  lemma {:induction false} RunKeepsInv(w: World, steps: seq<Step>)
    requires Inv(w) && AllEnabled(w, steps)
    ensures Inv(Run(w, steps))
    decreases |steps|
  {
    if steps == [] {
    } else {
      StepKeepsInv(w, steps[0]);
      RunKeepsInv(Apply(w, steps[0]), steps[1..]);
    }
  }

  lemma {:induction false} StepDeaths(w: World, s: Step, id: string)
    ensures Apply(w, s).deaths[id] == w.deaths[id] + (if s == Die(id) then 1 else 0)
  {}

  lemma {:induction false} CountHead(steps: seq<Step>, s: Step)
    requires steps != []
    ensures multiset(steps)[s] == multiset(steps[1..])[s] + (if steps[0] == s then 1 else 0)
  {
    assert steps == [steps[0]] + steps[1..];
  }

  lemma {:induction false} DeathsAreSteps(w: World, steps: seq<Step>, id: string)
    ensures Run(w, steps).deaths[id] == w.deaths[id] + multiset(steps)[Die(id)]
    decreases |steps|
  {
    if steps == [] {
    } else {
      StepDeaths(w, steps[0], id);
      CountHead(steps, Die(id));
      DeathsAreSteps(Apply(w, steps[0]), steps[1..], id);
    }
  }

  // However starts, cancels, redeliveries and body writes interleave, a body is
  // started at most once more often than it has died.
  lemma {:induction false} OnceMoreThanDeaths(steps: seq<Step>, id: string)
    requires AllEnabled(START, steps)
    ensures Run(START, steps).bodies[id] <= 1 + multiset(steps)[Die(id)]
  {
    RunKeepsInv(START, steps);
    DeathsAreSteps(START, steps, id);
  }

  // Without deaths, at least once becomes at most once.
  lemma {:induction false} AtMostOnce(steps: seq<Step>, id: string)
    requires AllEnabled(START, steps) && Die(id) !in steps
    ensures Run(START, steps).bodies[id] <= 1
  {
    OnceMoreThanDeaths(steps, id);
  }

  // A delivery starts the body exactly when the operation is current and in
  // progress; after a body that did not die it changes nothing.
  lemma {:induction false} RedeliveryChangesNothing(w: World, server: string, id: string)
    requires Inv(w) && Enabled(w, Deliver(server, id))
    ensures w.bodies[id] > w.deaths[id] ==> Apply(w, Deliver(server, id)) == w
    ensures !GateOpen(w.statuses, server, id) <==> Apply(w, Deliver(server, id)) == w
    ensures GateOpen(w.statuses, server, id) ==> Apply(w, Deliver(server, id)).bodies[id] == w.bodies[id] + 1
  {}

  // ---- When a body can still be started ----

  // No body of the operation runs, and its gate is shut.
  ghost predicate Shut(w: World, id: string) {
    id in w.issued && id !in w.executing && !GateOpen(w.statuses, w.issued[id], id)
  }

  // A shut gate stays shut: only the operation's own body could open it again.
  lemma {:induction false} ShutForever(w: World, steps: seq<Step>, id: string)
    requires Shut(w, id) && AllEnabled(w, steps)
    ensures Shut(Run(w, steps), id) && Run(w, steps).bodies[id] == w.bodies[id]
    decreases |steps|
  {
    if steps == [] {
    } else {
      var w1 := Apply(w, steps[0]);
      assert Shut(w1, id) && w1.bodies[id] == w.bodies[id];
      ShutForever(w1, steps[1..], id);
    }
  }

  ghost predicate CanStart(w: World, id: string) {
    exists steps :: AllEnabled(w, steps) && Run(w, steps).bodies[id] > w.bodies[id]
  }

  lemma {:induction false} RunningStartsAgain(w: World, id: string)
    requires id in w.issued && id in w.executing
    ensures CanStart(w, id)
  {
    var steps := [BodyWrite(id, InProgress), Die(id), Deliver(w.issued[id], id)];
    var w1 := w.(statuses := w.statuses[w.issued[id] := Status(id, InProgress)]);
    var w2 := w1.(executing := w.executing - {id}, deaths := w.deaths + multiset{id});
    Unfold(w2, steps, 2, Apply(w2, steps[2]));
    Unfold(w1, steps, 1, w2);
    Unfold(w, steps, 0, w1);
    assert AllEnabled(w, steps[0..]) && Run(w, steps[0..]).bodies[id] > w.bodies[id];
  }

  // Some continuation starts the body once more exactly when its gate is open or
  // it is running, since it can then open the gate itself and die.
  lemma {:induction false} CanStartIff(w: World, id: string)
    requires Inv(w) && id in w.issued
    ensures CanStart(w, id) <==> GateOpen(w.statuses, w.issued[id], id) || id in w.executing
  {
    if Shut(w, id) {
      forall steps | AllEnabled(w, steps) ensures Run(w, steps).bodies[id] == w.bodies[id] {
        ShutForever(w, steps, id);
      }
    } else {
      var deliver := Deliver(w.issued[id], id);
      if id !in w.executing {
        Unfold(w, [deliver], 0, Apply(w, deliver));
        assert AllEnabled(w, [deliver][0..]) && Run(w, [deliver][0..]).bodies[id] > w.bodies[id];
      } else {
        RunningStartsAgain(w, id);
      }
    }
  }

  // In particular, an operation whose body has not been started yet will be
  // started by some continuation exactly if its gate is open now.
  lemma {:induction false} FirstStartIffGateOpen(w: World, id: string)
    requires Inv(w) && id in w.issued && w.bodies[id] == 0
    ensures (exists steps :: AllEnabled(w, steps) && Run(w, steps).bodies[id] == 1)
            <==> GateOpen(w.statuses, w.issued[id], id)
  {
    if GateOpen(w.statuses, w.issued[id], id) {
      var steps := [Deliver(w.issued[id], id)];
      Unfold(w, steps, 0, Apply(w, steps[0]));
      assert AllEnabled(w, steps[0..]) && Run(w, steps[0..]).bodies[id] == 1;
    } else {
      forall steps | AllEnabled(w, steps) ensures Run(w, steps).bodies[id] == 0 {
        ShutForever(w, steps, id);
      }
    }
  }

  // The bound is met: for any number of deaths there is a run in which every death
  // is followed by another start of the body.
  lemma {:induction false} DeadBodyRunsAgain(server: string, id: string, n: nat) returns (steps: seq<Step>)
    ensures AllEnabled(START, steps)
    ensures multiset(steps)[Die(id)] == n && Run(START, steps).bodies[id] == 1 + n
    ensures Dying(Run(START, steps), server, id)
  {
    if n == 0 {
      steps := [Start(server, id), Deliver(server, id)];
      var w1 := Apply(START, steps[0]);
      Unfold(w1, steps, 1, Apply(w1, steps[1]));
      Unfold(START, steps, 0, w1);
      assert steps[0..] == steps && steps[2..] == [];
    } else {
      var before := DeadBodyRunsAgain(server, id, n - 1);
      var more := [Die(id), Deliver(server, id)];
      var w := Run(START, before);
      var w1 := Apply(w, more[0]);
      Unfold(w1, more, 1, Apply(w1, more[1]));
      Unfold(w, more, 0, w1);
      assert more[0..] == more && more[2..] == [];
      RunConcat(START, before, more);
      steps := before + more;
    }
  }

  // A running body whose operation is stored as in progress.
  ghost predicate Dying(w: World, server: string, id: string) {
    id in w.executing && id in w.issued && w.issued[id] == server && GateOpen(w.statuses, server, id)
  }

  lemma {:induction false} RunConcat(w: World, a: seq<Step>, b: seq<Step>)
    ensures Run(w, a + b) == Run(Run(w, a), b)
    ensures AllEnabled(w, a + b) <==> AllEnabled(w, a) && AllEnabled(Run(w, a), b)
    decreases |a|
  {
    if a == [] {
      assert a + b == b;
    } else {
      assert (a + b)[1..] == a[1..] + b;
      RunConcat(Apply(w, a[0]), a[1..], b);
    }
  }

  // After a cancel, the late write of the cancelled body shuts the gate of the
  // operation started since: whatever follows, that operation's body never runs.
  lemma {:induction false} LateWriteStarvesSuccessor(server: string, a: string, b: string, more: seq<Step>)
    requires a != b
    ensures var steps := [Start(server, a), Deliver(server, a), Cancel(server), Start(server, b), Finish(a, Completed)];
            && AllEnabled(START, steps)
            && (AllEnabled(START, steps + more) ==> Run(START, steps + more).bodies[b] == 0)
  {
    var steps := [Start(server, a), Deliver(server, a), Cancel(server), Start(server, b), Finish(a, Completed)];
    var both := map[a := server, b := server];
    var w1 := World(map[server := Status(a, InProgress)], map[a := server], {}, multiset{}, multiset{});
    var w2 := w1.(executing := {a}, bodies := multiset{a});
    var w3 := w2.(statuses := map[server := Status(a, Failed)]);
    var w4 := w3.(statuses := map[server := Status(b, InProgress)], issued := both);
    var w5 := w4.(statuses := map[server := Status(a, Completed)], executing := {});
    Unfold(w4, steps, 4, w5);
    Unfold(w3, steps, 3, w4);
    Unfold(w2, steps, 2, w3);
    Unfold(w1, steps, 1, w2);
    Unfold(START, steps, 0, w1);
    assert steps[0..] == steps && steps[5..] == [];
    RunConcat(START, steps, more);
    if AllEnabled(w5, more) { ShutForever(w5, more, b); }
  }

  lemma {:induction false} Unfold(w: World, steps: seq<Step>, i: nat, w': World)
    requires i < |steps| && Enabled(w, steps[i]) && Apply(w, steps[i]) == w'
    ensures Run(w, steps[i..]) == Run(w', steps[i + 1..])
    ensures AllEnabled(w, steps[i..]) <==> AllEnabled(w', steps[i + 1..])
  {}
}
