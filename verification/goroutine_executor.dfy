// The in-process executor: a mutex-protected map of running operations, and the
// goroutines that outlive their entries.
module GoroutineExecutor {
  // operations maps a server to the operation whose cancel function it holds;
  // live maps each running goroutine to its server; cancels has one element per
  // successful CancelOperation.
  datatype State = State(operations: map<string, nat>, live: map<nat, string>, cancels: multiset<string>, next: nat)

  const START := State(map[], map[], multiset{}, 0)

  datatype Step = Start(server: string) | Exit(op: nat) | Cancel(server: string)

  function Apply(s: State, step: Step): State {
    match step
    case Start(server) =>
      if server in s.operations then s
      else State(s.operations[server := s.next], s.live[s.next := server], s.cancels, s.next + 1)
    case Exit(op) =>
      // The deferred delete goes by server: it takes whatever entry is there.
      if op !in s.live then s
      else s.(operations := s.operations - {s.live[op]}, live := s.live - {op})
    case Cancel(server) =>
      if server !in s.operations then s
      else s.(operations := s.operations - {server}, cancels := s.cancels + multiset{server})
  }

  function LiveOn(s: State, server: string): set<nat> { set op | op in s.live && s.live[op] == server }

  function Entries(s: State, server: string): nat { if server in s.operations then 1 else 0 }

  // E <= L <= C + E on every server, and without cancels the entry is exactly the
  // running operation.
  ghost predicate ServerInv(s: State, server: string) {
    && Entries(s, server) <= |LiveOn(s, server)| <= s.cancels[server] + Entries(s, server)
    && (s.cancels[server] == 0 ==>
         LiveOn(s, server) == if server in s.operations then {s.operations[server]} else {})
  }

  ghost predicate Inv(s: State) {
    && (forall op | op in s.live :: op < s.next)
    && forall server :: ServerInv(s, server)
  }

  class Executor {
    var operations: map<string, nat>
    ghost var live: map<nat, string>
    ghost var cancels: multiset<string>
    var next: nat

    ghost function View(): State
      reads this
    {
      State(operations, live, cancels, next)
    }

    constructor ()
      ensures View() == START && Inv(View())
    {
      operations, live, cancels, next := map[], map[], multiset{}, 0;
    }

    method StartOperation(server: string, ctxDone: bool) returns (ok: bool)
      requires Inv(View())
      modifies this
      ensures Inv(View())
      ensures View() == if ctxDone then old(View()) else Apply(old(View()), Start(server))
      ensures ok <==> !ctxDone && server !in old(operations)
    {
      if ctxDone { return false; }
      if server in operations { return false; }
      StepKeepsInv(View(), Start(server));
      operations, live, next := operations[server := next], live[next := server], next + 1;
      ok := true;
    }

    // The end of an operation's goroutine.
    method Deferred(op: nat, server: string)
      requires Inv(View()) && op in live && live[op] == server
      modifies this
      ensures Inv(View()) && View() == Apply(old(View()), Exit(op))
    {
      StepKeepsInv(View(), Exit(op));
      operations, live := operations - {server}, live - {op};
    }

    method CancelOperation(server: string) returns (ok: bool)
      requires Inv(View())
      modifies this
      ensures Inv(View()) && View() == Apply(old(View()), Cancel(server))
      ensures ok <==> server in old(operations)
    {
      if server !in operations { return false; }
      StepKeepsInv(View(), Cancel(server));
      operations, cancels := operations - {server}, cancels + multiset{server};
      ok := true;
    }
  }

  // Which goroutines are live on a server after a step.
  lemma {:induction false} LiveAfter(s: State, step: Step, server: string)
    requires Inv(s)
    ensures var live, live' := LiveOn(s, server), LiveOn(Apply(s, step), server);
            if step == Start(server) && server !in s.operations then live' == live + {s.next} && s.next !in live
            else if step.Exit? && step.op in s.live && s.live[step.op] == server then live' == live - {step.op}
              && step.op in live
            else live' == live
  {}

  lemma {:induction false} StepKeepsServer(s: State, step: Step, server: string)
    requires Inv(s)
    ensures ServerInv(Apply(s, step), server)
  {
    assert ServerInv(s, server);
    LiveAfter(s, step, server);
  }

  lemma {:induction false} StepKeepsInv(s: State, step: Step)
    requires Inv(s)
    ensures Inv(Apply(s, step))
  {
    forall server ensures ServerInv(Apply(s, step), server) {
      StepKeepsServer(s, step, server);
    }
  }

  function Run(s: State, steps: seq<Step>): State
    decreases |steps|
  {
    if steps == [] then s else Run(Apply(s, steps[0]), steps[1..])
  }

  lemma {:induction false} RunKeepsInv(s: State, steps: seq<Step>)
    requires Inv(s)
    ensures Inv(Run(s, steps))
    decreases |steps|
  {
    if steps == [] {
    } else {
      StepKeepsInv(s, steps[0]);
      RunKeepsInv(Apply(s, steps[0]), steps[1..]);
    }
  }

  lemma {:induction false} NoCancelNoCount(s: State, steps: seq<Step>, server: string)
    requires s.cancels[server] == 0 && Cancel(server) !in steps
    ensures Run(s, steps).cancels[server] == 0
    decreases |steps|
  {
    if steps == [] {
    } else {
      assert steps[0] != Cancel(server);
      NoCancelNoCount(Apply(s, steps[0]), steps[1..], server);
    }
  }

  // Every interleaving: E <= L <= C + E. Without cancels on a server at most one
  // operation is live there, and the entry exists exactly while it runs.
  lemma EveryInterleaving(steps: seq<Step>, server: string)
    ensures var s := Run(START, steps);
            && Entries(s, server) <= |LiveOn(s, server)| <= s.cancels[server] + Entries(s, server)
            && (Cancel(server) !in steps ==>
                 LiveOn(s, server) == (if server in s.operations then {s.operations[server]} else {}))
  {
    RunKeepsInv(START, steps);
    assert ServerInv(Run(START, steps), server);
    if Cancel(server) !in steps { NoCancelNoCount(START, steps, server); }
  }

  // ---- When a server is safe without further cancels ----

  ghost predicate Exclusive(s: State, server: string) {
    forall steps | Cancel(server) !in steps :: |LiveOn(Run(s, steps), server)| <= 1
  }

  lemma {:induction false} StepKeepsBalance(s: State, step: Step, server: string)
    requires Inv(s) && step != Cancel(server) && |LiveOn(s, server)| == Entries(s, server)
    ensures |LiveOn(Apply(s, step), server)| == Entries(Apply(s, step), server)
  {
    LiveAfter(s, step, server);
  }

  lemma {:induction false} RunKeepsBalance(s: State, steps: seq<Step>, server: string)
    requires Inv(s) && |LiveOn(s, server)| == Entries(s, server) && Cancel(server) !in steps
    ensures |LiveOn(Run(s, steps), server)| <= 1
    decreases |steps|
  {
    if steps == [] {
    } else {
      assert steps[0] != Cancel(server);
      StepKeepsInv(s, steps[0]);
      StepKeepsBalance(s, steps[0], server);
      RunKeepsBalance(Apply(s, steps[0]), steps[1..], server);
    }
  }

  // From any reachable state, whatever was cancelled before: as long as nothing is
  // cancelled on the server again, at most one operation is live there exactly if
  // no goroutine has outlived its entry now.
  lemma {:induction false} ExclusiveIffBalanced(s: State, server: string)
    requires Inv(s)
    ensures Exclusive(s, server) <==> |LiveOn(s, server)| == Entries(s, server)
  {
    if |LiveOn(s, server)| == Entries(s, server) {
      forall steps | Cancel(server) !in steps ensures |LiveOn(Run(s, steps), server)| <= 1 {
        RunKeepsBalance(s, steps, server);
      }
    } else {
      assert ServerInv(s, server);
      var started := Apply(s, Start(server));
      if server in s.operations {
        assert Run(s, []) == s;
      } else {
        assert s.next !in LiveOn(s, server);
        assert LiveOn(started, server) == LiveOn(s, server) + {s.next};
        assert [Start(server)][1..] == [] && Run(s, [Start(server)]) == started;
      }
    }
  }

  // After a cancel, the cancelled goroutine's exit takes its successor's entry, so
  // that a third operation is admitted while the second still runs.
  lemma CancelLosesExclusion(server: string)
    ensures var s := Run(START, [Start(server), Cancel(server), Start(server), Exit(0), Start(server)]);
            LiveOn(s, server) == {1, 2} && s.operations == map[server := 2]
    ensures !Exclusive(Run(START, [Start(server), Cancel(server)]), server)
  {
    var s1 := Apply(START, Start(server));
    var s2 := Apply(s1, Cancel(server));
    var s3 := Apply(s2, Start(server));
    var s4 := Apply(s3, Exit(0));
    var s5 := Apply(s4, Start(server));
    assert s3.live == map[0 := server, 1 := server] && s4.live == map[1 := server];
    assert s4.operations == map[] && s5.live == map[1 := server, 2 := server];
    var steps := [Start(server), Cancel(server), Start(server), Exit(0), Start(server)];
    RunFive(steps);
    var two := [Start(server), Cancel(server)];
    assert two[1..] == [Cancel(server)] && two[1..][1..] == [];
    assert Run(s2, two[1..][1..]) == s2 && Run(s1, two[1..]) == s2;
    RunKeepsInv(START, two);
    assert LiveOn(s2, server) == {0};
    ExclusiveIffBalanced(s2, server);
  }

  lemma RunFive(steps: seq<Step>)
    requires |steps| == 5
    ensures Run(START, steps)
            == Apply(Apply(Apply(Apply(Apply(START, steps[0]), steps[1]), steps[2]), steps[3]), steps[4])
  {
    var s1 := Apply(START, steps[0]);
    var s2 := Apply(s1, steps[1]);
    var s3 := Apply(s2, steps[2]);
    var s4 := Apply(s3, steps[3]);
    assert Run(s4, steps[4..]) == Apply(s4, steps[4]);
    assert Run(s3, steps[3..]) == Run(s4, steps[3..][1..]) && steps[3..][1..] == steps[4..];
    assert Run(s2, steps[2..]) == Run(s3, steps[2..][1..]) && steps[2..][1..] == steps[3..];
    assert Run(s1, steps[1..]) == Run(s2, steps[1..][1..]) && steps[1..][1..] == steps[2..];
  }
}
