// The command-and-acknowledge protocol between controller and machine agent, over
// the one status document of an instance. Every read-then-write of the document is
// one atomic step.
module CommandProtocol {
  import opened Common

  // The fields of the status document the protocol uses, and whether the server runs.
  datatype Doc = Doc(command: string, args: map<string, string>, result: string, running: bool)

  const BLANK := Doc("", map[], "", false)

  datatype Command = Save | Restore(args: map<string, string>)

  // What happened since the history began.
  datatype Entry =
    | Triggered(command: Command)         // written into the document
    | Skipped                             // a save was asked for, but there was no document
    | Ran(command: Command, ok: bool)     // executed by the agent
    | UpStack                             // Pulumi was asked to bring the stack up

  datatype World = World(doc: Option<Doc>, log: seq<Entry>)

  datatype Step =
    | TriggerSave
    | TriggerRestore(args: map<string, string>)
    | AgentTick(ok: bool, error: string, written: bool)   // handlePendingCommand
    | StatusUpdate(readable: bool, running: bool)         // runStatusUpdate
    | Overwrite(running: bool)                            // start, stop and VM event handlers
    | Deploy

  function Arg(args: map<string, string>, k: string): string { if k in args then args[k] else "" }

  predicate RestoreComplete(args: map<string, string>) {
    Arg(args, "snapshotId") != "" && Arg(args, "repository") != "" && Arg(args, "password") != ""
  }

  // The command in the document, if the agent would execute it.
  function Executable(d: Doc): Option<Command> {
    if d.command == "save" then Some(Save)
    else if d.command == "restore" && RestoreComplete(d.args) then Some(Restore(d.args))
    else None
  }

  function Answer(d: Doc, ok: bool, error: string): string {
    if d.command == "restore" && Arg(d.args, "snapshotId") == "" then "failed: restore command is missing snapshotId"
    else if d.command == "restore" && !RestoreComplete(d.args) then
      "failed: restore command is missing repository or password"
    else if d.command != "save" && d.command != "restore" then "failed: unknown command: " + d.command
    else if ok then "completed"
    else "failed: " + error
  }

  function HandlePendingCommand(w: World, ok: bool, error: string, written: bool): World {
    if w.doc.None? || w.doc.value.command == "" then w
    else
      var d := w.doc.value;
      var ran := if Executable(d).Some? then [Ran(Executable(d).value, ok)] else [];
      var d' := d.(result := Answer(d, ok, error), command := "", args := map[]);
      World(if written then Some(d') else w.doc, w.log + ran)
  }

  function Apply(w: World, s: Step): World {
    match s
    case TriggerSave =>
      if w.doc.None? then w.(log := w.log + [Skipped])
      else World(Some(w.doc.value.(command := "save", result := "")), w.log + [Triggered(Save)])
    case TriggerRestore(args) =>
      if w.doc.None? then w
      else World(Some(w.doc.value.(command := "restore", args := args, result := "")),
        w.log + [Triggered(Restore(args))])
    case AgentTick(ok, error, written) => HandlePendingCommand(w, ok, error, written)
    case StatusUpdate(readable, running) =>
      // An unreadable document is replaced by a blank one.
      w.(doc := Some((if readable && w.doc.Some? then w.doc.value else BLANK).(running := running)))
    case Overwrite(running) => w.(doc := Some(BLANK.(running := running)))
    case Deploy => w.(log := w.log + [UpStack])
  }

  predicate IsTrigger(s: Step) { s.TriggerSave? || s.TriggerRestore? }

  // ---- Reading the history ----

  function Latest(log: seq<Entry>): Option<Command> {
    if log == [] then None
    else match log[|log| - 1]
      case Triggered(c) => Some(c)
      case _ => Latest(log[..|log| - 1])
  }

  // Since the latest trigger the agent ran exactly that command, successfully.
  ghost predicate RanOk(log: seq<Entry>) {
    exists i, j | 0 <= i < j < |log| :: RanAt(log, i, j)
  }

  ghost predicate RanAt(log: seq<Entry>, i: int, j: int)
    requires 0 <= i < j < |log|
  {
    && log[i].Triggered? && log[j] == Ran(log[i].command, true)
    && forall k | i < k < |log| :: !log[k].Triggered?
  }

  ghost predicate SkippedAt(log: seq<Entry>, i: int)
    requires 0 <= i < |log|
  {
    log[i].Skipped? && forall k | i < k < |log| :: !log[k].Triggered?
  }

  // Since the latest request for a save, it was acknowledged by a successful run,
  // or there was no document to write it to.
  ghost predicate Saved(log: seq<Entry>) {
    || (RanOk(log) && Latest(log) == Some(Save))
    || (exists i | 0 <= i < |log| :: SkippedAt(log, i))
  }

  lemma {:induction false} LatestIsLast(log: seq<Entry>)
    ensures Latest(log).Some? ==> exists i | 0 <= i < |log| ::
              log[i] == Triggered(Latest(log).value) && forall k | i < k < |log| :: !log[k].Triggered?
    ensures Latest(log).None? ==> forall i | 0 <= i < |log| :: !log[i].Triggered?
  {
    if log == [] {
    } else {
      var n := |log| - 1;
      LatestIsLast(log[..n]);
      assert forall i | 0 <= i < n :: log[i] == log[..n][i];
      if !log[n].Triggered? && Latest(log).Some? {
        var i :| 0 <= i < n && log[..n][i] == Triggered(Latest(log).value)
          && forall k | i < k < n :: !log[..n][k].Triggered?;
        assert log[i] == Triggered(Latest(log).value);
      }
    }
  }

  lemma {:induction false} RanOkGrows(log: seq<Entry>, e: Entry)
    requires !e.Triggered? && RanOk(log)
    ensures RanOk(log + [e])
  {
    var i, j :| 0 <= i < j < |log| && RanAt(log, i, j);
    assert RanAt(log + [e], i, j);
  }

  lemma {:induction false} RanOkStarts(log: seq<Entry>, c: Command)
    requires Latest(log) == Some(c)
    ensures RanOk(log + [Ran(c, true)])
  {
    LatestIsLast(log);
    var i :| 0 <= i < |log| && log[i] == Triggered(c) && forall k | i < k < |log| :: !log[k].Triggered?;
    assert RanAt(log + [Ran(c, true)], i, |log|);
  }

  lemma {:induction false} SavedGrows(log: seq<Entry>, e: Entry)
    requires !e.Triggered? && (Saved(log) || e == Skipped)
    ensures Saved(log + [e])
  {
    var after := log + [e];
    assert after[..|log|] == log;
    if e == Skipped {
      assert SkippedAt(after, |log|);
    } else if RanOk(log) && Latest(log) == Some(Save) {
      RanOkGrows(log, e);
    } else {
      var i :| 0 <= i < |log| && SkippedAt(log, i);
      assert SkippedAt(after, i);
    }
  }

  // An entry that is no trigger keeps what the history says.
  lemma {:induction false} QuietEntry(log: seq<Entry>, e: Entry)
    requires !e.Triggered?
    ensures Latest(log + [e]) == Latest(log)
    ensures RanOk(log) ==> RanOk(log + [e])
    ensures Saved(log) ==> Saved(log + [e])
    ensures e == Skipped ==> Saved(log + [e])
    ensures Latest(log).Some? && e == Ran(Latest(log).value, true) ==> RanOk(log + [e])
  {
    assert (log + [e])[..|log|] == log;
    if RanOk(log) { RanOkGrows(log, e); }
    if Saved(log) || e == Skipped { SavedGrows(log, e); }
    if Latest(log).Some? && e == Ran(Latest(log).value, true) { RanOkStarts(log, Latest(log).value); }
  }

  lemma LatestOfTrigger(log: seq<Entry>, c: Command)
    ensures Latest(log + [Triggered(c)]) == Some(c)
  {}

  // ---- The invariant ----

  // Once something was triggered, a command in the document is the latest one, and
  // "completed" means that the latest one ran.
  ghost predicate Inv(w: World) {
    w.doc.Some? && Latest(w.log).Some? ==>
      && (w.doc.value.command != "" ==> Pending(w.doc.value) == Latest(w.log))
      && (w.doc.value.result == "completed" ==> RanOk(w.log))
  }

  // The command in the document, complete or not.
  function Pending(d: Doc): Option<Command> {
    if d.command == "save" then Some(Save)
    else if d.command == "restore" then Some(Restore(d.args))
    else None
  }

  lemma {:induction false} TickKeepsInv(w: World, ok: bool, error: string, written: bool)
    requires Inv(w)
    ensures var w' := HandlePendingCommand(w, ok, error, written);
            && Inv(w') && Latest(w'.log) == Latest(w.log)
            && (RanOk(w.log) ==> RanOk(w'.log)) && (Saved(w.log) ==> Saved(w'.log))
  {
    if w.doc.Some? && w.doc.value.command != "" {
      var d := w.doc.value;
      NotCompleted(d, ok, error);
      if Executable(d).Some? {
        QuietEntry(w.log, Ran(Executable(d).value, ok));
      } else {
        assert w.log + [] == w.log;
      }
    }
  }

  lemma {:induction false} StepKeepsInv(w: World, s: Step)
    requires Inv(w)
    ensures Inv(Apply(w, s))
    ensures !IsTrigger(s) ==> Latest(Apply(w, s).log) == Latest(w.log)
    ensures !IsTrigger(s) ==> (RanOk(w.log) ==> RanOk(Apply(w, s).log)) && (Saved(w.log) ==> Saved(Apply(w, s).log))
    ensures w.doc.Some? ==> Apply(w, s).doc.Some?
  {
    match s
    case TriggerSave => QuietEntry(w.log, Skipped); LatestOfTrigger(w.log, Save);
    case TriggerRestore(args) => LatestOfTrigger(w.log, Restore(args));
    case AgentTick(ok, error, written) => TickKeepsInv(w, ok, error, written);
    case StatusUpdate(_, _) =>
    case Overwrite(_) =>
    case Deploy => QuietEntry(w.log, UpStack);
  }

  // A command that was handled is gone with its arguments: it is not handled again.
  lemma HandledOnce(w: World, ok: bool, error: string, again: Step)
    requires again.AgentTick?
    ensures var w' := Apply(w, AgentTick(ok, error, true));
            && (w'.doc.Some? ==>
                 w'.doc.value.command == "" && (w.doc.value.command != "" ==> w'.doc.value.args == map[]))
            && Apply(w', again) == w'
  {}

  predicate Update(s: Step) { s.StatusUpdate? && s.readable }

  // A triggered command is executed, as it was asked for, by the first tick after any
  // number of status updates that could read the document; the answer tells how.
  lemma {:induction false} TriggeredIsExecuted(w: World, c: Command, updates: seq<Step>, ok: bool, error: string)
    requires w.doc.Some? && (c.Restore? ==> RestoreComplete(c.args))
    requires forall i | 0 <= i < |updates| :: Update(updates[i])
    ensures var w' := Apply(Run(Apply(w, TriggerOf(c)), updates), AgentTick(ok, error, true));
            && w'.log == w.log + [Triggered(c), Ran(c, ok)] && w'.doc.Some?
            && w'.doc.value.result == if ok then "completed" else "failed: " + error
  {
    var w1 := Apply(w, TriggerOf(c));
    UpdatesKeepCommand(w1, updates);
    assert w.log + [Triggered(c)] + [Ran(c, ok)] == w.log + [Triggered(c), Ran(c, ok)];
  }

  lemma {:induction false} UpdatesKeepCommand(w: World, updates: seq<Step>)
    requires w.doc.Some? && forall i | 0 <= i < |updates| :: Update(updates[i])
    ensures var w' := Run(w, updates);
            && w'.log == w.log && w'.doc.Some? && w'.doc.value == w.doc.value.(running := w'.doc.value.running)
    decreases |updates|
  {
    if updates == [] {
    } else {
      assert Update(updates[0]);
      UpdatesKeepCommand(Apply(w, updates[0]), updates[1..]);
    }
  }

  lemma NotCompleted(d: Doc, ok: bool, error: string)
    ensures Answer(d, ok, error) != ""
    ensures Answer(d, ok, error) == "completed" ==> Executable(d).Some? && ok
  {
    assert forall x: string :: ("failed: " + x)[0] == 'f';
    assert "failed: restore command is missing snapshotId"[0] == 'f';
    assert "failed: restore command is missing repository or password"[0] == 'f';
    assert ("failed: unknown command: " + d.command)[0] == 'f';
    assert ("failed: " + error)[0] == 'f';
    assert "completed"[0] == 'c';
  }

  function Run(w: World, steps: seq<Step>): World
    decreases |steps|
  {
    if steps == [] then w else Run(Apply(w, steps[0]), steps[1..])
  }

  lemma {:induction false} RunKeepsInv(w: World, steps: seq<Step>)
    requires Inv(w)
    ensures Inv(Run(w, steps))
    decreases |steps|
  {
    if steps == [] {
    } else {
      StepKeepsInv(w, steps[0]);
      RunKeepsInv(Apply(w, steps[0]), steps[1..]);
    }
  }

  // Acknowledgement soundness: whatever document a history starts from, and
  // however triggers, ticks, updates and overwrites follow, a reader that finds
  // "completed" after something was triggered can rely on the latest trigger.
  lemma CompletedIsSound(doc: Option<Doc>, steps: seq<Step>)
    requires var w := Run(World(doc, []), steps);
             w.doc.Some? && w.doc.value.result == "completed" && Latest(w.log).Some?
    ensures RanOk(Run(World(doc, []), steps).log)
  {
    RunKeepsInv(World(doc, []), steps);
  }

  // Without atomic steps it fails: an agent update that was read before the
  // trigger and written after it brings back the old "completed".
  lemma StaleWriteRevivesCompleted(read: Doc)
    requires read.result == "completed" && read.command == ""
    ensures var triggered := Apply(World(Some(read), []), TriggerSave);
            var w := triggered.(doc := Some(read.(running := true)));
            w.doc.value.result == "completed" && Latest(w.log) == Some(Save) && !RanOk(w.log)
  {
    LatestOfTrigger([], Save);
    assert [] + [Triggered(Save)] == [Triggered(Save)];
  }

  lemma {:induction false} RanBefore(log: seq<Entry>, e: Entry)
    ensures RanOk(log + [e]) ==> !e.Triggered? && (RanOk(log) || (e.Ran? && e.ok))
  {
    var after := log + [e];
    if RanOk(after) {
      var i, j :| 0 <= i < j < |after| && RanAt(after, i, j);
      assert after[|log|] == e && !after[|log|].Triggered?;
      if j < |log| {
        assert forall k | 0 <= k < |log| :: log[k] == after[k];
        assert RanAt(log, i, j);
      }
    }
  }

  // No agent succeeds in running anything.
  predicate Unsuccessful(steps: seq<Step>) { forall i | 0 <= i < |steps| :: !(steps[i].AgentTick? && steps[i].ok) }

  predicate Triggerless(steps: seq<Step>) { forall i | 0 <= i < |steps| :: !IsTrigger(steps[i]) }

  lemma {:induction false} NothingRuns(w: World, steps: seq<Step>)
    requires Inv(w) && w.doc.Some? && Unsuccessful(steps)
    ensures RanOk(Run(w, steps).log) <==> RanOk(w.log) && Triggerless(steps)
    decreases |steps|
  {
    if steps == [] {
    } else {
      var w1 := Apply(w, steps[0]);
      StepKeepsInv(w, steps[0]);
      NothingRuns(w1, steps[1..]);
      assert RanOk(w1.log) <==> RanOk(w.log) && !IsTrigger(steps[0]) by { NothingRan(w, steps[0]); }
      assert forall i | 0 < i < |steps| :: steps[i] == steps[1..][i - 1];
    }
  }

  lemma {:induction false} NothingRan(w: World, s: Step)
    requires Inv(w) && w.doc.Some? && !(s.AgentTick? && s.ok)
    ensures RanOk(Apply(w, s).log) <==> RanOk(w.log) && !IsTrigger(s)
  {
    StepKeepsInv(w, s);
    match s
    case TriggerSave => RanBefore(w.log, Triggered(Save));
    case TriggerRestore(args) => RanBefore(w.log, Triggered(Restore(args)));
    case AgentTick(ok, _, _) =>
      var d := w.doc.value;
      if d.command != "" && Executable(d).Some? {
        if !RanOk(w.log) { RanBefore(w.log, Ran(Executable(d).value, ok)); }
      } else {
        assert w.log + [] == w.log;
      }
    case StatusUpdate(_, _) =>
    case Overwrite(_) =>
    case Deploy => if !RanOk(w.log) { RanBefore(w.log, UpStack); }
  }

  // An agent reads "completed" and writes it back after `steps`, in which nothing is
  // run successfully: what it writes is still true exactly if nothing was triggered.
  lemma {:induction false} StaleCompletedSoundIff(w: World, steps: seq<Step>, running: bool)
    requires Inv(w) && w.doc.Some? && Latest(w.log).Some? && Unsuccessful(steps)
    requires w.doc.value.result == "completed" && w.doc.value.command == ""
    ensures Inv(Run(w, steps).(doc := Some(w.doc.value.(running := running)))) <==> Triggerless(steps)
  {
    NothingRuns(w, steps);
    LatestStays(w, steps);
  }

  lemma {:induction false} LatestStays(w: World, steps: seq<Step>)
    requires Inv(w) && Latest(w.log).Some?
    ensures Latest(Run(w, steps).log).Some?
    decreases |steps|
  {
    if steps == [] {
    } else {
      StepKeepsInv(w, steps[0]);
      assert Latest(Apply(w, steps[0]).log).Some? by {
        match steps[0]
        case TriggerSave => QuietEntry(w.log, Skipped); LatestOfTrigger(w.log, Save);
        case TriggerRestore(args) => LatestOfTrigger(w.log, Restore(args));
        case _ =>
      }
      LatestStays(Apply(w, steps[0]), steps[1..]);
    }
  }

  // ---- Split reads and writes ----

  // A status update that read the document before `steps` and writes it after them.
  function SplitUpdate(w: World, steps: seq<Step>, readable: bool, running: bool): World {
    var read := if readable && w.doc.Some? then w.doc.value else BLANK;
    Run(w, steps).(doc := Some(read.(running := running)))
  }

  // An agent's tick that read a command before the steps `early`, has run it before
  // the steps `late`, and writes its answer after them.
  function SplitTick(w: World, early: seq<Step>, ok: bool, error: string, late: seq<Step>): World
    requires w.doc.Some?
  {
    var read := w.doc.value;
    var w1 := Run(w, early);
    var ran := if Executable(read).Some? then [Ran(Executable(read).value, ok)] else [];
    Run(w1.(log := w1.log + ran), late).(
      doc := Some(read.(result := Answer(read, ok, error), command := "", args := map[])))
  }

  ghost predicate DrawnFrom(steps: seq<Step>, allowed: Step -> bool) {
    forall i | 0 <= i < |steps| :: allowed(steps[i])
  }

  // Whatever allowed steps come between its read and its write, the writer leaves a
  // document that speaks the truth about the history.
  ghost predicate UpdatesAreSound(allowed: Step -> bool) {
    forall w, steps, readable, running | Inv(w) && DrawnFrom(steps, allowed) ::
      Inv(SplitUpdate(w, steps, readable, running))
  }

  ghost predicate TicksAreSound(allowed: Step -> bool) {
    forall w, early, ok, error, late |
      Inv(w) && w.doc.Some? && w.doc.value.command != "" && DrawnFrom(early, allowed) && DrawnFrom(late, allowed) ::
      Inv(SplitTick(w, early, ok, error, late))
  }

  ghost predicate NoTrigger(allowed: Step -> bool) { forall s | allowed(s) :: !IsTrigger(s) }

  lemma {:induction false} TriggerlessRun(w: World, steps: seq<Step>, allowed: Step -> bool)
    requires Inv(w) && DrawnFrom(steps, allowed) && NoTrigger(allowed)
    ensures var w' := Run(w, steps);
            Inv(w') && Latest(w'.log) == Latest(w.log) && (RanOk(w.log) ==> RanOk(w'.log))
    decreases |steps|
  {
    if steps == [] {
    } else {
      assert allowed(steps[0]);
      StepKeepsInv(w, steps[0]);
      assert forall i | 0 <= i < |steps[1..]| :: steps[1..][i] == steps[i + 1];
      TriggerlessRun(Apply(w, steps[0]), steps[1..], allowed);
    }
  }

  lemma {:induction false} SplitTickIsSound(w: World, early: seq<Step>, ok: bool, error: string, late: seq<Step>,
                                            allowed: Step -> bool)
    requires Inv(w) && w.doc.Some? && w.doc.value.command != ""
    requires DrawnFrom(early, allowed) && DrawnFrom(late, allowed) && NoTrigger(allowed)
    ensures Inv(SplitTick(w, early, ok, error, late))
  {
    var read := w.doc.value;
    var w1 := Run(w, early);
    var ran := if Executable(read).Some? then [Ran(Executable(read).value, ok)] else [];
    var w2 := World(None, w1.log + ran);
    TriggerlessRun(w, early, allowed);
    NotCompleted(read, ok, error);
    if Executable(read).Some? {
      QuietEntry(w1.log, Ran(Executable(read).value, ok));
    } else {
      assert w1.log + [] == w1.log;
    }
    // A run that is logged keeps what the document promises.
    assert Inv(w1.(log := w2.log));
    TriggerlessRun(w1.(log := w2.log), late, allowed);
  }

  // Both writers may be split exactly if no allowed step is a trigger.
  lemma {:induction false} StaleWriteSoundIff(allowed: Step -> bool)
    ensures UpdatesAreSound(allowed) <==> NoTrigger(allowed)
    ensures TicksAreSound(allowed) <==> NoTrigger(allowed)
  {
    if NoTrigger(allowed) {
      forall w, steps, readable, running | Inv(w) && DrawnFrom(steps, allowed)
        ensures Inv(SplitUpdate(w, steps, readable, running))
      {
        TriggerlessRun(w, steps, allowed);
      }
      forall w, early, ok, error, late |
        Inv(w) && w.doc.Some? && w.doc.value.command != "" && DrawnFrom(early, allowed) && DrawnFrom(late, allowed)
        ensures Inv(SplitTick(w, early, ok, error, late))
      {
        SplitTickIsSound(w, early, ok, error, late, allowed);
      }
    } else {
      var s :| allowed(s) && IsTrigger(s);
      assert DrawnFrom([s], allowed) && DrawnFrom([], allowed);
      TriggerBreaksUpdate(s);
      TriggerBreaksTick(s);
    }
  }

  // A trigger that read any document before, and writes it with its command and an
  // empty answer.
  function SplitTrigger(w: World, read: Doc, c: Command): World {
    var asked := match c
      case Save => read.(command := "save", result := "")
      case Restore(args) => read.(command := "restore", args := args, result := "");
    World(Some(asked), w.log + [Triggered(c)])
  }

  // Triggers may be split as they are: they take the answer away.
  lemma {:induction false} SplitTriggerIsSound(w: World, read: Doc, c: Command)
    ensures Inv(SplitTrigger(w, read, c))
    ensures w.doc == Some(read) ==> SplitTrigger(w, read, c) == Apply(w, TriggerOf(c))
  {
    LatestOfTrigger(w.log, c);
  }

  const ASKED := World(Some(Doc("save", map[], "", true)), [Triggered(Save)])
  const ANSWERED := World(Some(Doc("", map[], "completed", true)), [Triggered(Save), Ran(Save, true)])

  lemma {:induction false} TriggerLast(w: World, s: Step)
    requires IsTrigger(s) && w.doc.Some?
    ensures var log := Run(w, [s]).log; Latest(log).Some? && !RanOk(log)
  {
    var c := if s.TriggerSave? then Save else Restore(s.args);
    assert [s][1..] == [] && Run(w, [s]) == Apply(w, s);
    LatestOfTrigger(w.log, c);
    RanBefore(w.log, Triggered(c));
  }

  lemma {:induction false} TriggerBreaksUpdate(s: Step)
    requires IsTrigger(s)
    ensures Inv(ANSWERED) && !Inv(SplitUpdate(ANSWERED, [s], true, true))
  {
    assert RanAt(ANSWERED.log, 0, 1);
    TriggerLast(ANSWERED, s);
  }

  // It read a save, ran it, and answers a command that came in the meantime.
  lemma {:induction false} TriggerBreaksTick(s: Step)
    requires IsTrigger(s)
    ensures Inv(ASKED) && !Inv(SplitTick(ASKED, [], true, "", [s]))
  {
    assert ASKED.log[..0] == [];
    LatestOfTrigger([], Save);
    assert [] + [Triggered(Save)] == ASKED.log;
    TriggerLast(ASKED.(log := ASKED.log + [Ran(Save, true)]), s);
  }

  // ---- Whose command an answer speaks of ----

  function TriggerOf(c: Command): Step {
    match c
    case Save => TriggerSave
    case Restore(args) => TriggerRestore(args)
  }

  function CommandOf(s: Step): Command
    requires IsTrigger(s)
  {
    if s.TriggerSave? then Save else Restore(s.args)
  }

  // The triggers among the steps are of commands that others may trigger.
  ghost predicate TriggersFrom(steps: seq<Step>, others: Command -> bool) {
    forall i | 0 <= i < |steps| && IsTrigger(steps[i]) :: others(CommandOf(steps[i]))
  }

  // Since position n the agent has run c successfully.
  ghost predicate RanSince(log: seq<Entry>, n: nat, c: Command) {
    exists j | n <= j < |log| :: log[j] == Ran(c, true)
  }

  // A trigger of d cannot pass for an answer to c: it is c again, or the agent refuses it.
  predicate Harmless(c: Command, d: Command) { d == c || (d.Restore? && !RestoreComplete(d.args)) }

  // A document whose answer, and whose command, speak of c, triggered at position n.
  ghost predicate Mine(w: World, n: nat, c: Command) {
    && n <= |w.log|
    && (w.doc.Some? ==>
         && (w.doc.value.result == "completed" ==> RanSince(w.log, n, c))
         && (Executable(w.doc.value).Some? ==> Executable(w.doc.value).value == c))
  }

  lemma {:induction false} MineKept(w: World, s: Step, n: nat, c: Command)
    requires Mine(w, n, c) && (IsTrigger(s) ==> Harmless(c, CommandOf(s)))
    ensures Mine(Apply(w, s), n, c)
  {
    var w' := Apply(w, s);
    assert w.log <= w'.log;
    if RanSince(w.log, n, c) {
      var j :| n <= j < |w.log| && w.log[j] == Ran(c, true);
      assert w'.log[j] == Ran(c, true);
    }
    if s.AgentTick? && w.doc.Some? && w.doc.value.command != "" {
      var d := w.doc.value;
      NotCompleted(d, s.ok, s.error);
      if Executable(d).Some? { assert w'.log[|w.log|] == Ran(c, s.ok); }
    }
  }

  lemma {:induction false} MineThroughout(w: World, steps: seq<Step>, n: nat, c: Command, others: Command -> bool)
    requires Mine(w, n, c) && TriggersFrom(steps, others) && forall d | others(d) :: Harmless(c, d)
    ensures Mine(Run(w, steps), n, c)
    decreases |steps|
  {
    if steps == [] {
    } else {
      MineKept(w, steps[0], n, c);
      assert forall i | 0 <= i < |steps[1..]| :: steps[1..][i] == steps[i + 1];
      MineThroughout(Apply(w, steps[0]), steps[1..], n, c, others);
    }
  }

  lemma {:induction false} MineFromTrigger(w: World, c: Command)
    requires w.doc.Some?
    ensures Mine(Apply(w, TriggerOf(c)), |w.log|, c)
    ensures Apply(w, TriggerOf(c)).log == w.log + [Triggered(c)]
  {}

  // After c was triggered, "completed" means that c ran, whatever else happens.
  ghost predicate AnswersAreMine(w: World, c: Command, others: Command -> bool) {
    forall steps | TriggersFrom(steps, others) ::
      var w' := Run(Apply(w, TriggerOf(c)), steps);
      w'.doc.Some? && w'.doc.value.result == "completed" ==> RanSince(w'.log, |w.log|, c)
  }

  // An answer is the waiter's own exactly if others trigger at most the same command,
  // or commands that the agent refuses.
  lemma {:induction false} AnswersAreMineIff(w: World, c: Command, others: Command -> bool)
    requires w.doc.Some?
    ensures AnswersAreMine(w, c, others) <==> forall d | others(d) :: Harmless(c, d)
  {
    MineFromTrigger(w, c);
    if forall d | others(d) :: Harmless(c, d) {
      forall steps | TriggersFrom(steps, others)
        ensures Mine(Run(Apply(w, TriggerOf(c)), steps), |w.log|, c)
      {
        MineThroughout(Apply(w, TriggerOf(c)), steps, |w.log|, c, others);
      }
    } else {
      var d :| others(d) && !Harmless(c, d);
      OtherAnswers(w, c, d);
      assert TriggersFrom([TriggerOf(d), AgentTick(true, "", true)], others);
    }
  }

  lemma {:induction false} OtherAnswers(w: World, c: Command, d: Command)
    requires w.doc.Some? && !Harmless(c, d)
    ensures var w' := Run(Apply(w, TriggerOf(c)), [TriggerOf(d), AgentTick(true, "", true)]);
            && w'.doc.Some? && w'.doc.value.result == "completed"
            && w'.log == w.log + [Triggered(c), Triggered(d), Ran(d, true)] && !RanSince(w'.log, |w.log|, c)
  {
    var steps := [TriggerOf(d), AgentTick(true, "", true)];
    var w1 := Apply(w, TriggerOf(c));
    var w2 := Apply(w1, steps[0]);
    var w3 := Apply(w2, steps[1]);
    assert steps[1..] == [AgentTick(true, "", true)] && steps[1..][1..] == [];
    assert Run(w2, steps[1..]) == w3 && Run(w1, steps) == w3;
    assert w3.log == w.log + [Triggered(c), Triggered(d), Ran(d, true)];
  }

  // For instance, a save triggered after a restore is acknowledged to whoever waits
  // for the restore.
  lemma {:induction false} SecondTriggerMisleads(args: map<string, string>)
    ensures var w := Run(World(Some(BLANK), []), [TriggerRestore(args), TriggerSave, AgentTick(true, "", true)]);
            w.doc.Some? && w.doc.value.result == "completed"
              && w.log == [Triggered(Restore(args)), Triggered(Save), Ran(Save, true)]
    ensures !AnswersAreMine(World(Some(BLANK), []), Restore(args), d => d == Save)
  {
    var w, steps := World(Some(BLANK), []), [TriggerRestore(args), TriggerSave, AgentTick(true, "", true)];
    assert steps[1..] == [TriggerSave, AgentTick(true, "", true)];
    OtherAnswers(w, Restore(args), Save);
    assert Run(w, steps) == Run(Apply(w, steps[0]), steps[1..]);
    assert [] + [Triggered(Restore(args)), Triggered(Save), Ran(Save, true)]
        == [Triggered(Restore(args)), Triggered(Save), Ran(Save, true)];
    AnswersAreMineIff(w, Restore(args), d => d == Save);
    assert (d => d == Save)(Save) && !Harmless(Restore(args), Save);
  }

  // Some time after c was triggered, the latest command then had run.
  ghost predicate Acknowledged(log: seq<Entry>, c: Command) {
    exists i, m | 0 <= i < m <= |log| :: log[i] == Triggered(c) && RanOk(log[..m])
  }

  // Some time after c was triggered, it ran.
  ghost predicate Executed(log: seq<Entry>, c: Command) {
    exists i, j | 0 <= i < j < |log| :: log[i] == Triggered(c) && log[j] == Ran(c, true)
  }

  lemma AcknowledgedStays(before: seq<Entry>, after: seq<Entry>, c: Command)
    requires before <= after
    ensures Acknowledged(before, c) ==> Acknowledged(after, c)
    ensures Executed(before, c) ==> Executed(after, c)
  {
    if Acknowledged(before, c) {
      var i, m :| 0 <= i < m <= |before| && before[i] == Triggered(c) && RanOk(before[..m]);
      assert after[i] == Triggered(c) && after[..m] == before[..m];
    }
    if Executed(before, c) {
      var i, j :| 0 <= i < j < |before| && before[i] == Triggered(c) && before[j] == Ran(c, true);
      assert after[i] == Triggered(c) && after[j] == Ran(c, true);
    }
  }

  // What a waiter learns that triggered c after the history `before`.
  lemma {:induction false} AcknowledgedSince(before: seq<Entry>, w: World, c: Command)
    requires before + [Triggered(c)] <= w.log && RanOk(w.log)
    ensures Acknowledged(w.log, c)
    ensures Mine(w, |before|, c) && w.doc.Some? && w.doc.value.result == "completed" ==> Executed(w.log, c)
  {
    assert w.log[|before|] == Triggered(c) && w.log[..|w.log|] == w.log;
    if RanSince(w.log, |before|, c) {
      var j :| |before| <= j < |w.log| && w.log[j] == Ran(c, true);
      assert j != |before|;
    }
  }

  // ---- The controller's side ----

  // What an operation asks of Pulumi, of GCP and of the configuration store.
  datatype Deed = UpsertStack | SetConfig | BringUp | StampConfig | DestroyStack | StopInstance | StartInstance

  // One instance's document as the controller sees it, with everyone else's steps
  // in between its own calls.
  class Instance {
    var doc: Option<Doc>
    ghost var log: seq<Entry>
    ghost var own: set<nat>             // which triggers in it are this controller's
    const mayTrigger: Command -> bool   // the commands others may trigger
    // What this controller's operation has tried outside, what of it succeeded, each in
    // order, and the outputs of the latest stack brought up.
    ghost var tried: seq<Deed>
    ghost var deeds: seq<Deed>
    ghost var brought: map<string, string>
    // What went wrong for the controller: calls that failed, cancelled contexts,
    // commands answered with a failure or not at all.
    ghost var faults: nat

    // Whether a call succeeds.
    method Call() returns (ok: bool)
      modifies this`faults
      ensures faults == old(faults) + (if ok then 0 else 1)
    {
      ok := *;
      if !ok { faults := faults + 1; }
    }

    ghost function View(): World
      reads this
    {
      World(doc, log)
    }

    // Nobody but this controller's operation triggers commands.
    ghost predicate Exclusive() { forall c :: !mayTrigger(c) }

    // What others may trigger cannot pass for an answer to c.
    ghost predicate Answers(c: Command) { forall d | mayTrigger(d) :: Harmless(c, d) }

    // What the document and its history may have become in the meantime: what spoke
    // of c still does if others trigger nothing that could pass for an answer to it,
    // and if they trigger nothing at all the history is undisturbed.
    ghost predicate Later(before: World)
      reads this
    {
      && Inv(View()) && before.log <= log && NoDeploymentSince(before.log, log)
      && (before.doc.Some? ==> doc.Some?) && (Latest(before.log).Some? ==> Latest(log).Some?)
      && (Exclusive() ==> Undisturbed(before.log, log))
      && (forall n, c | Answers(c) && Mine(before, n, c) :: Mine(View(), n, c))
    }

    predicate Foreseen(s: Step) { !s.Deploy? && (IsTrigger(s) ==> mayTrigger(CommandOf(s))) }

    method OneStep(s: Step)
      requires Inv(View()) && Foreseen(s)
      modifies this`doc, this`log
      ensures Later(old(View()))
    {
      forall n, c | Answers(c) && Mine(View(), n, c) ensures Mine(Apply(View(), s), n, c) {
        MineKept(View(), s, n, c);
      }
      StepKeepsInv(View(), s);
      StepExtends(View(), s);
      var w := Apply(World(doc, []), s);
      doc := w.doc;
      log := Apply(World(old(doc), log), s).log;
    }

    // Others act on the document: agent, event handlers, and whoever else triggers
    // commands.
    method Environment()
      requires Inv(View())
      modifies this`doc, this`log
      ensures Later(old(View()))
    {
      var n: nat := *;
      while n > 0
        invariant Later(old(View()))
      {
        var s: Step := *;
        if Foreseen(s) { OneStep(s); }
        n := n - 1;
      }
    }

    // A document that cannot be read, or does not exist.
    method GetStatus() returns (ok: bool, status: Option<Doc>)
      modifies this`faults
      ensures ok ==> status == doc
      ensures faults == old(faults) + (if ok then 0 else 1)
    {
      ok := Call();
      status := if ok then doc else None;
    }
  }

  // The later history extends the earlier one by runs of the agent.
  ghost predicate NoTriggerSince(before: seq<Entry>, after: seq<Entry>) {
    before <= after && forall i | |before| <= i < |after| :: after[i].Ran?
  }

  // The later history extends the earlier one by what does not deploy.
  ghost predicate NoDeploymentSince(before: seq<Entry>, after: seq<Entry>) {
    before <= after && forall i | |before| <= i < |after| :: !after[i].UpStack?
  }

  ghost predicate Undisturbed(before: seq<Entry>, after: seq<Entry>) {
    && Latest(after) == Latest(before) && (RanOk(before) ==> RanOk(after)) && (Saved(before) ==> Saved(after))
    && NoTriggerSince(before, after)
  }

  lemma {:induction false} StepExtends(w: World, s: Step)
    requires Inv(w) && !s.Deploy?
    ensures var w' := Apply(w, s);
            && NoDeploymentSince(w.log, w'.log) && (Latest(w.log).Some? ==> Latest(w'.log).Some?)
            && (!IsTrigger(s) ==> Undisturbed(w.log, w'.log))
            && w'.doc == Apply(World(w.doc, []), s).doc
  {
    StepKeepsInv(w, s);
    match s
    case TriggerSave => QuietEntry(w.log, Skipped); LatestOfTrigger(w.log, Save);
    case TriggerRestore(args) => LatestOfTrigger(w.log, Restore(args));
    case AgentTick(_, _, _) =>
    case StatusUpdate(_, _) =>
    case Overwrite(_) =>
  }

  // ---- The agent's side ----

  class MachineAgent {
    const db: Instance
    ghost var faults: nat   // reads and writes of the status document that failed

    constructor (db: Instance)
      ensures this.db == db && faults == 0
    {
      this.db, faults := db, 0;
    }

    // Whether a call to the controller succeeds.
    method Call() returns (ok: bool)
      modifies this`faults
      ensures faults == old(faults) + (if ok then 0 else 1)
    {
      ok := *;
      if !ok { faults := faults + 1; }
    }

    // save-all over RCON, or the restore of a snapshot.
    method Execute(command: Command) returns (ok: bool, error: string)
      modifies db`log
      ensures db.log == old(db.log) + [Ran(command, ok)]
    {
      ok, error := *, *;
      db.log := db.log + [Ran(command, ok)];
    }

    method RunRestore(args: map<string, string>) returns (result: string, ghost ok: bool, ghost error: string)
      modifies db`log
      ensures result == Answer(BLANK.(command := "restore", args := args), ok, error)
      ensures db.log == old(db.log) + (if RestoreComplete(args) then [Ran(Restore(args), ok)] else [])
      ensures RestoreComplete(args) <==>
                forall k | k in {"snapshotId", "repository", "password"} :: k in args && args[k] != ""
    {
      ok, error := true, "";
      if Arg(args, "snapshotId") == "" {
        result := "failed: restore command is missing snapshotId";
      } else if Arg(args, "repository") == "" || Arg(args, "password") == "" {
        result := "failed: restore command is missing repository or password";
      } else {
        var succeeded, message := Execute(Restore(args));
        result := if succeeded then "completed" else "failed: " + message;
        ok, error := succeeded, message;
      }
    }

    // `tick` is the step of the protocol this was, if the status could be read.
    method HandlePendingCommand() returns (done: bool, ghost tick: Option<Step>)
      modifies db`doc, db`log, this`faults
      ensures faults >= old(faults)
      ensures faults == old(faults) ==> done == old(db.doc).Some? && tick.Some? == old(db.doc).Some?
      ensures tick.None? ==> !done && db.View() == old(db.View())
      ensures tick.Some? ==> tick.value.AgentTick? && db.View() == Apply(old(db.View()), tick.value)
      ensures tick.Some? && old(db.doc).Some? && old(db.doc).value.command != "" ==> done == tick.value.written
    {
      var readable := Call();
      if !readable || db.doc.None? { return false, None; }
      var status := db.doc.value;
      if status.command == "" { return true, Some(AgentTick(true, "", true)); }
      var result;
      ghost var ok, error := true, "";
      if status.command == "save" {
        var saved, message := Execute(Save);
        result := if saved then "completed" else "failed: " + message;
        ok, error := saved, message;
      } else if status.command == "restore" {
        result, ok, error := RunRestore(status.args);
      } else {
        result := "failed: unknown command: " + status.command;
      }
      done := Call();
      if done { db.doc := Some(status.(result := result, command := "", args := map[])); }
      tick := Some(AgentTick(ok, error, done));
      assert old(db.log) + [] == old(db.log);
    }

    // The end of a status update: what was read, or a blank document, with the
    // agent's own fields set.
    method RunStatusUpdate(running: bool) returns (done: bool, ghost readable: bool)
      modifies db`doc, this`faults
      ensures faults >= old(faults)
      ensures faults == old(faults) ==> done && readable
      ensures db.View() == if done then Apply(old(db.View()), StatusUpdate(readable, running)) else old(db.View())
    {
      var read := Call();
      readable := read;
      var status := if read && db.doc.Some? then db.doc.value else BLANK;
      done := Call();
      if done { db.doc := Some(status.(running := running)); }
    }
  }

  const POLL_INTERVAL: int := 2_000_000_000  // nanoseconds

  class BackupCoordinator {
    const db: Instance
    var now: int            // the clock
    ghost var polls: nat    // how often an answer was looked for
    ghost var lost: nat     // and how often the look failed or came too late for its context

    constructor (db: Instance)
      ensures this.db == db
    {
      this.db := db;
    }

    method Sleep()
      modifies this`now
      ensures now >= old(now) + POLL_INTERVAL
    {
      var longer: int := *;
      now := now + POLL_INTERVAL + (if longer > 0 then longer else 0);
    }

    // One look at the document, unless the context is done.
    method Poll() returns (ok: bool, status: Option<Doc>)
      modifies this`polls, this`lost, db`faults
      ensures polls == old(polls) + 1 && lost == old(lost) + (if ok then 0 else 1)
      ensures ok ==> status == db.doc
      ensures db.faults == old(db.faults) + (if ok then 0 else 1)
    {
      polls := polls + 1;
      ok := db.Call();
      status := None;
      if ok { ok, status := db.GetStatus(); }
      if !ok { lost := lost + 1; }
    }

    // `written` tells whether there was a document to write the command to.
    method TriggerWorldSave() returns (ok: bool, ghost written: bool)
      requires Inv(db.View())
      modifies db`doc, db`log, db`own, db`faults
      ensures ok ==> db.View() == Apply(old(db.View()), TriggerSave) && written == old(db.doc).Some?
      ensures !ok ==> db.View() == old(db.View())
      ensures db.own == old(db.own) + (if ok then {|old(db.log)|} else {})
      ensures Inv(db.View())
      ensures db.faults == old(db.faults) + (if ok then 0 else 1)
    {
      StepKeepsInv(db.View(), TriggerSave);
      written := db.doc.Some?;
      var readable, status := db.GetStatus();
      if !readable { return false, written; }
      if status.None? {
        db.log, db.own := db.log + [Skipped], db.own + {|db.log|};
        return true, written;
      }
      ok := db.Call();
      if ok {
        db.doc := Some(status.value.(command := "save", result := ""));
        db.log, db.own := db.log + [Triggered(Save)], db.own + {|db.log|};
      }
    }

    method TriggerRestore(snapshotId: string, repository: string, password: string) returns (ok: bool)
      requires Inv(db.View())
      modifies db`doc, db`log, db`own, db`faults
      ensures Inv(db.View())
      ensures ok ==> db.doc.Some? && old(db.doc).Some?
      ensures ok ==>
              db.View()
              == Apply(old(db.View()), Step.TriggerRestore(RestoreArgs(snapshotId, repository, password)))
      ensures ok ==> db.log == old(db.log) + [Triggered(Restore(RestoreArgs(snapshotId, repository, password)))]
      ensures ok ==> db.doc.value.command == "restore" && db.doc.value.result == ""
                     && Names(db.doc.value.args, snapshotId, repository, password)
      ensures !ok ==> db.View() == old(db.View())
      ensures db.own == old(db.own) + (if ok then {|old(db.log)|} else {})
      ensures db.faults == old(db.faults) + (if ok then 0 else 1)
    {
      var args := RestoreArgs(snapshotId, repository, password);
      RestoreArgsName(snapshotId, repository, password);
      StepKeepsInv(db.View(), Step.TriggerRestore(args));
      var readable, status := db.GetStatus();
      if !readable { return false; }
      if status.None? {
        db.faults := db.faults + 1;
        return false;
      }
      ok := db.Call();
      if ok {
        db.doc := Some(status.value.(command := "restore", args := args, result := ""));
        db.log, db.own := db.log + [Triggered(Restore(args))], db.own + {|db.log|};
      }
    }

    // Polls until the agent answers, the document is gone, or time is up. While it
    // waits others act on the document.
    method WaitForCommandAck(timeout: int) returns (ok: bool, result: string)
      requires Inv(db.View())
      modifies db`doc, db`log, db`faults, this
      ensures db.Later(old(db.View()))
      ensures ok ==> result == "completed" || (result == "" && old(db.doc).None?)
      ensures result != "" ==> db.doc.Some? && db.doc.value.result == result && (ok <==> result == "completed")
      ensures ok && result == "completed" && Latest(db.log).Some? ==> RanOk(db.log)
      ensures !ok && result == "" && lost == old(lost) ==> now >= old(now) + timeout
      ensures lost >= old(lost) && (timeout > 0 ==> polls > old(polls))
      ensures db.faults == old(db.faults) + (if ok then 0 else 1)
    {
      var deadline := now + timeout;
      while now < deadline
        invariant db.Later(old(db.View())) && db.faults == old(db.faults)
        invariant lost == old(lost) && (polls > old(polls) || (polls == old(polls) && now == old(now)))
        decreases deadline - now
      {
        db.Environment();
        var status;
        ok, status := Poll();
        if !ok { return false, ""; }
        if status.None? { return true, ""; }
        if status.value.result == "completed" { return true, "completed"; }
        if status.value.result != "" {
          db.faults := db.faults + 1;
          return false, status.value.result;
        }
        Sleep();
      }
      db.faults := db.faults + 1;
      return false, "";
    }
  }

  // The arguments name this snapshot, repository and password to whoever reads them.
  predicate Names(args: map<string, string>, snapshotId: string, repository: string, password: string) {
    Arg(args, "snapshotId") == snapshotId && Arg(args, "repository") == repository && Arg(args, "password") == password
  }

  lemma RestoreArgsName(snapshotId: string, repository: string, password: string)
    ensures Names(RestoreArgs(snapshotId, repository, password), snapshotId, repository, password)
  {}

  function RestoreArgs(snapshotId: string, repository: string, password: string): map<string, string> {
    map["snapshotId" := snapshotId, "repository" := repository, "password" := password]
  }
}
