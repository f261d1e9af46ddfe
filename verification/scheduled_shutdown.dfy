// The machine agent's shutdown warnings: two variables carried from tick to tick,
// and what they promise about the warnings of one shutdown time.
module ScheduledShutdown {
  import opened Common

  const MINUTE: int := 60_000_000_000  // nanoseconds

  datatype Warning = NoneYet | FiveMin | OneMin

  // shutdownWarningState and lastScheduledShutdownTime.
  datatype State = State(warning: Warning, last: Option<int>)

  const START := State(NoneYet, None)

  // What a tick read from the status document.
  datatype Observed = Unavailable | NoShutdown | At(time: int)

  datatype Tick = Tick(now: int, observed: Observed)

  datatype Action = Silent | WarnFive | WarnOne | Shutdown

  function Next(s: State, t: Tick): (State, Action) {
    match t.observed
    case Unavailable => (s, Silent)
    case NoShutdown => (if s.last.Some? then START else s, Silent)
    case At(time) =>
      var s1 := if s.last == Some(time) then s else State(NoneYet, Some(time));
      var remaining := time - t.now;
      if remaining <= 0 then (START, Shutdown)
      else if remaining <= MINUTE && s1.warning != OneMin then (s1.(warning := OneMin), WarnOne)
      else if remaining <= 5 * MINUTE && s1.warning == NoneYet then (s1.(warning := FiveMin), WarnFive)
      else (s1, Silent)
  }

  // What the agent attempts: messages to the players, and the calls of a shutdown.
  datatype Attempt =
    | SayOneMinute | SayFiveMinutes | SayGoodbye | SaveWorld
    | ReadSchedule | ClearSchedule | FindProject | FindZone | StopInstance

  // The schedule is cleared unless it could not be read ...
  function Farewell(readable: bool): seq<Attempt> {
    [SayGoodbye, SaveWorld, ReadSchedule] + (if readable then [ClearSchedule] else [])
  }

  // ... and the instance is stopped unless it could not be found.
  function Stopping(project: bool, zone: bool): seq<Attempt> {
    [FindProject] + (if project then [FindZone] + (if zone then [StopInstance] else []) else [])
  }

  class MachineAgent {
    var shutdownWarningState: Warning
    var lastScheduledShutdownTime: Option<int>
    ghost var tried: seq<Attempt>        // in order
    ghost var failed: multiset<Attempt>  // how often each of them failed

    constructor ()
      ensures State(shutdownWarningState, lastScheduledShutdownTime) == START && tried == [] && failed == multiset{}
    {
      shutdownWarningState, lastScheduledShutdownTime, tried, failed := NoneYet, None, [], multiset{};
    }

    method Try(attempt: Attempt) returns (ok: bool)
      modifies this`tried, this`failed
      ensures tried == old(tried) + [attempt]
      ensures failed == old(failed) + (if ok then multiset{} else multiset{attempt})
    {
      ok := *;
      tried := tried + [attempt];
      if !ok { failed := failed + multiset{attempt}; }
    }

    // Whether no attempt of this kind has failed since.
    ghost predicate Fine(before: multiset<Attempt>, attempt: Attempt)
      reads this
    {
      failed[attempt] == before[attempt]
    }

    // A shutdown has been gone through since: no failure of the message, the save or
    // the schedule stops it.
    ghost predicate Concluded(tried0: seq<Attempt>, failed0: multiset<Attempt>)
      reads this
    {
      tried == tried0 + Farewell(Fine(failed0, ReadSchedule))
                 + Stopping(Fine(failed0, FindProject), Fine(failed0, FindZone))
    }

    // The action is what the agent attempts; a failed message changes nothing.
    method CheckScheduledShutdown(t: Tick) returns (action: Action)
      modifies this
      ensures (State(shutdownWarningState, lastScheduledShutdownTime), action)
              == Next(old(State(shutdownWarningState, lastScheduledShutdownTime)), t)
      ensures action == Shutdown ==> Concluded(old(tried), old(failed))
      ensures action != Shutdown ==>
                tried == old(tried) + (match action
                  case WarnOne => [SayOneMinute]
                  case WarnFive => [SayFiveMinutes]
                  case _ => [])
      ensures action == Shutdown && failed == old(failed) ==>
                tried == old(tried)
                  + [SayGoodbye, SaveWorld, ReadSchedule, ClearSchedule, FindProject, FindZone, StopInstance]
    {
      action := Silent;
      if t.observed.Unavailable? { return; }
      if t.observed.NoShutdown? {
        if lastScheduledShutdownTime.Some? {
          shutdownWarningState, lastScheduledShutdownTime := NoneYet, None;
        }
        return;
      }
      var time := t.observed.time;
      if lastScheduledShutdownTime.None? || lastScheduledShutdownTime.value != time {
        shutdownWarningState, lastScheduledShutdownTime := NoneYet, Some(time);
      }
      var remaining := time - t.now;
      if remaining <= 0 {
        var stopped;
        action, stopped := InitiateScheduledShutdown();
        return;
      }
      if remaining <= MINUTE && shutdownWarningState != OneMin {
        action := WarnOne;
        var said := Try(SayOneMinute);
        shutdownWarningState := OneMin;
      } else if remaining <= 5 * MINUTE && shutdownWarningState == NoneYet {
        action := WarnFive;
        var said := Try(SayFiveMinutes);
        shutdownWarningState := FiveMin;
      }
    }

    // It succeeds exactly if the instance was found and the call to stop it succeeded.
    method InitiateScheduledShutdown() returns (action: Action, stopped: bool)
      modifies this
      ensures State(shutdownWarningState, lastScheduledShutdownTime) == START && action == Shutdown
      ensures Concluded(old(tried), old(failed)) && failed >= old(failed)
      ensures stopped <==>
                Fine(old(failed), FindProject) && Fine(old(failed), FindZone) && Fine(old(failed), StopInstance)
      ensures failed == old(failed) ==>
                stopped && tried == old(tried)
                  + [SayGoodbye, SaveWorld, ReadSchedule, ClearSchedule, FindProject, FindZone, StopInstance]
    {
      action := Shutdown;
      SayFarewell();
      shutdownWarningState, lastScheduledShutdownTime := NoneYet, None;
      stopped := StopLocated();
    }

    method SayFarewell()
      modifies this`tried, this`failed
      ensures tried == old(tried) + Farewell(Fine(old(failed), ReadSchedule)) && failed >= old(failed)
      ensures Fine(old(failed), FindProject) && Fine(old(failed), FindZone) && Fine(old(failed), StopInstance)
    {
      var said := Try(SayGoodbye);
      var saved := Try(SaveWorld);
      var readable := Try(ReadSchedule);
      assert tried == old(tried) + Farewell(false);
      if readable {
        var cleared := Try(ClearSchedule);
        assert tried == old(tried) + Farewell(true);
      }
    }

    method StopLocated() returns (stopped: bool)
      modifies this`tried, this`failed
      ensures tried == old(tried) + Stopping(Fine(old(failed), FindProject), Fine(old(failed), FindZone))
      ensures failed >= old(failed) && Fine(old(failed), ReadSchedule)
      ensures stopped <==>
                Fine(old(failed), FindProject) && Fine(old(failed), FindZone) && Fine(old(failed), StopInstance)
    {
      stopped := Try(FindProject);
      if !stopped { return; }
      stopped := Try(FindZone);
      if !stopped { return; }
      stopped := Try(StopInstance);
    }
  }

  // ---- Runs ----

  function Actions(s: State, ts: seq<Tick>): (acts: seq<Action>)
    ensures |acts| == |ts|
    decreases |ts|
  {
    if ts == [] then [] else [Next(s, ts[0]).1] + Actions(Next(s, ts[0]).0, ts[1..])
  }

  function After(s: State, ts: seq<Tick>): State
    decreases |ts|
  {
    if ts == [] then s else After(Next(s, ts[0]).0, ts[1..])
  }

  // A stretch of ticks that saw shutdown time t, or could not read the status.
  ghost predicate Stretch(ts: seq<Tick>, t: int) {
    forall i | 0 <= i < |ts| :: ts[i].observed.Unavailable? || ts[i].observed == At(t)
  }

  ghost predicate ClockForward(ts: seq<Tick>) {
    forall i, j | 0 <= i < j < |ts| :: ts[i].now <= ts[j].now
  }

  predicate Within(tick: Tick, t: int, low: int, high: int) { tick.observed == At(t) && low < t - tick.now <= high }

  ghost predicate SeenWithin(ts: seq<Tick>, t: int, low: int, high: int) {
    exists i | 0 <= i < |ts| :: Within(ts[i], t, low, high)
  }

  function Count(acts: seq<Action>, a: Action): nat {
    if acts == [] then 0 else (if acts[0] == a then 1 else 0) + Count(acts[1..], a)
  }

  // How far the warnings of time t have got.
  function Stage(s: State, t: int): Warning { if s.last == Some(t) then s.warning else NoneYet }

  lemma {:induction false} CountZero(acts: seq<Action>, a: Action)
    ensures Count(acts, a) == 0 <==> a !in acts
  {
    if acts == [] {
    } else {
      CountZero(acts[1..], a);
    }
  }

  // Once the time has come no warning is attempted any more.
  lemma {:induction false} NothingAfterTheTime(s: State, ts: seq<Tick>, t: int)
    requires Stretch(ts, t) && forall i | 0 <= i < |ts| :: ts[i].now >= t
    ensures Count(Actions(s, ts), WarnOne) == 0 && Count(Actions(s, ts), WarnFive) == 0
    decreases |ts|
  {
    if ts == [] {
    } else {
      NothingAfterTheTime(Next(s, ts[0]).0, ts[1..], t);
    }
  }

  // With the clock running forward, from any state: a warning is attempted exactly
  // when it is still due and some tick falls in its window, and then once.
  lemma {:induction false} OneMinuteWarnings(s: State, ts: seq<Tick>, t: int)
    requires Stretch(ts, t) && ClockForward(ts)
    ensures Count(Actions(s, ts), WarnOne) == if Stage(s, t) != OneMin && SeenWithin(ts, t, 0, MINUTE) then 1 else 0
    decreases |ts|
  {
    if ts == [] {
    } else {
      var (s1, a) := Next(s, ts[0]);
      OneMinuteWarnings(s1, ts[1..], t);
      SeenHere(ts, t, 0, MINUTE);
      if a == Shutdown { NothingAfterTheTime(s1, ts[1..], t); }
    }
  }

  lemma {:induction false} FiveMinuteWarnings(s: State, ts: seq<Tick>, t: int)
    requires Stretch(ts, t) && ClockForward(ts)
    ensures Count(Actions(s, ts), WarnFive) == if Stage(s, t) == NoneYet
            && SeenWithin(ts, t, MINUTE, 5 * MINUTE) then 1 else 0
    decreases |ts|
  {
    if ts == [] {
    } else {
      var (s1, a) := Next(s, ts[0]);
      FiveMinuteWarnings(s1, ts[1..], t);
      SeenHere(ts, t, MINUTE, 5 * MINUTE);
      if a == Shutdown { NothingAfterTheTime(s1, ts[1..], t); }
      if a == WarnOne || a == Shutdown { TooLate(ts, t, MINUTE, 5 * MINUTE); }
    }
  }

  // No five-minute warning follows the one-minute warning.
  lemma {:induction false} WarningOrder(s: State, ts: seq<Tick>, t: int)
    requires Stretch(ts, t) && ClockForward(ts)
    ensures forall i, j | 0 <= i < j < |ts| :: !(Actions(s, ts)[i] == WarnOne && Actions(s, ts)[j] == WarnFive)
    decreases |ts|
  {
    if ts == [] {
    } else {
      var (s1, a) := Next(s, ts[0]);
      var acts, rest := Actions(s, ts), Actions(s1, ts[1..]);
      WarningOrder(s1, ts[1..], t);
      FiveMinuteWarnings(s1, ts[1..], t);
      CountZero(rest, WarnFive);
      assert forall i | 0 < i < |ts| :: acts[i] == rest[i - 1];
    }
  }

  // Shutdown starts exactly when a tick finds the time reached.
  lemma {:induction false} ShutdownWhenReached(s: State, ts: seq<Tick>, t: int)
    requires Stretch(ts, t)
    ensures forall i | 0 <= i < |ts| :: Actions(s, ts)[i] == Shutdown <==> ts[i].observed == At(t) && ts[i].now >= t
    decreases |ts|
  {
    if ts == [] {
    } else {
      var (s1, a) := Next(s, ts[0]);
      ShutdownWhenReached(s1, ts[1..], t);
      assert forall i | 0 < i < |ts| :: ts[i] == ts[1..][i - 1];
    }
  }

  lemma {:induction false} TooLate(ts: seq<Tick>, t: int, low: int, high: int)
    requires ts != [] && ClockForward(ts) && t - ts[0].now <= low
    ensures !SeenWithin(ts, t, low, high)
  {}

  lemma {:induction false} SeenHere(ts: seq<Tick>, t: int, low: int, high: int)
    requires ts != []
    ensures SeenWithin(ts, t, low, high) <==>
              (ts[0].observed == At(t) && low < t - ts[0].now <= high) || SeenWithin(ts[1..], t, low, high)
  {}

  // ---- Maximal stretches of a whole run ----

  lemma {:induction false} RunSplit(s: State, a: seq<Tick>, b: seq<Tick>)
    ensures Actions(s, a + b)[|a|..] == Actions(After(s, a), b)
    ensures After(s, a + b) == After(After(s, a), b)
    decreases |a|
  {
    if a == [] {
      assert a + b == b;
    } else {
      assert (a + b)[1..] == a[1..] + b;
      RunSplit(Next(s, a[0]).0, a[1..], b);
    }
  }

  // The last shutdown time a run has read, if its last reading showed one.
  function LastRead(ts: seq<Tick>): Option<int> {
    if ts == [] then None
    else match ts[|ts| - 1].observed
      case Unavailable => LastRead(ts[..|ts| - 1])
      case NoShutdown => None
      case At(t) => Some(t)
  }

  lemma {:induction false} RememberedIsLastRead(ts: seq<Tick>)
    ensures After(START, ts).last.None? || After(START, ts).last == LastRead(ts)
  {
    if ts == [] {
    } else {
      var n := |ts| - 1;
      RememberedIsLastRead(ts[..n]);
      assert ts == ts[..n] + [ts[n]];
      RunSplit(START, ts[..n], [ts[n]]);
      assert [ts[n]][1..] == [];
    }
  }

  // In a whole run, a stretch that begins where the last reading was not t gets
  // each warning exactly once if a tick falls in its window, and not at all
  // otherwise.
  lemma {:induction false} EveryMaximalStretch(before: seq<Tick>, ts: seq<Tick>, t: int)
    requires Stretch(ts, t) && ClockForward(ts) && LastRead(before) != Some(t)
    ensures var acts := Actions(START, before + ts)[|before|..];
            && Count(acts, WarnOne) == (if SeenWithin(ts, t, 0, MINUTE) then 1 else 0)
            && Count(acts, WarnFive) == (if SeenWithin(ts, t, MINUTE, 5 * MINUTE) then 1 else 0)
            && (forall i, j | 0 <= i < j < |ts| :: !(acts[i] == WarnOne && acts[j] == WarnFive))
            && (forall i | 0 <= i < |ts| :: acts[i] == Shutdown <==> ts[i].observed == At(t) && ts[i].now >= t)
  {
    RunSplit(START, before, ts);
    RememberedIsLastRead(before);
    var s := After(START, before);
    OneMinuteWarnings(s, ts, t);
    FiveMinuteWarnings(s, ts, t);
    WarningOrder(s, ts, t);
    ShutdownWhenReached(s, ts, t);
  }

  // ---- When a stretch is warned twice ----

  predicate InWindow(tick: Tick, t: int) { Within(tick, t, 0, MINUTE) }

  predicate FindsReached(tick: Tick, t: int) { tick.observed == At(t) && tick.now >= t }

  ghost predicate ReachedThenWindow(ts: seq<Tick>, t: int) {
    exists j, k | 0 <= j < k < |ts| :: FindsReached(ts[j], t) && InWindow(ts[k], t)
  }

  ghost predicate WindowReachedWindow(ts: seq<Tick>, t: int) {
    exists i | 0 <= i < |ts| :: InWindow(ts[i], t) && ReachedThenWindow(ts[i + 1..], t)
  }

  lemma {:induction false} ReachedHere(ts: seq<Tick>, t: int)
    requires ts != []
    ensures ReachedThenWindow(ts, t) <==>
              (FindsReached(ts[0], t) && SeenWithin(ts[1..], t, 0, MINUTE)) || ReachedThenWindow(ts[1..], t)
  {
    var rest := ts[1..];
    if ReachedThenWindow(ts, t) {
      var j, k :| 0 <= j < k < |ts| && FindsReached(ts[j], t) && InWindow(ts[k], t);
      assert rest[k - 1] == ts[k];
      if j > 0 { assert rest[j - 1] == ts[j]; }
    }
    if FindsReached(ts[0], t) && SeenWithin(rest, t, 0, MINUTE) {
      var k :| 0 <= k < |rest| && Within(rest[k], t, 0, MINUTE);
      assert InWindow(ts[k + 1], t);
    }
    if ReachedThenWindow(rest, t) {
      var j, k :| 0 <= j < k < |rest| && FindsReached(rest[j], t) && InWindow(rest[k], t);
      assert FindsReached(ts[j + 1], t) && InWindow(ts[k + 1], t);
    }
  }

  lemma {:induction false} WindowHere(ts: seq<Tick>, t: int)
    requires ts != []
    ensures WindowReachedWindow(ts, t) <==>
              (InWindow(ts[0], t) && ReachedThenWindow(ts[1..], t)) || WindowReachedWindow(ts[1..], t)
  {
    var rest := ts[1..];
    if WindowReachedWindow(ts, t) {
      var i :| 0 <= i < |ts| && InWindow(ts[i], t) && ReachedThenWindow(ts[i + 1..], t);
      if i > 0 { assert rest[i - 1] == ts[i] && rest[i - 1 + 1..] == ts[i + 1..]; }
    }
    if WindowReachedWindow(rest, t) {
      var i :| 0 <= i < |rest| && InWindow(rest[i], t) && ReachedThenWindow(rest[i + 1..], t);
      assert ts[i + 1] == rest[i] && ts[i + 1 + 1..] == rest[i + 1..];
    }
  }

  // Whatever the clock does: how often the one-minute warning is attempted depends on
  // ticks that find the time reached before ticks in its window.
  lemma {:induction false} OneMinuteRepeats(s: State, ts: seq<Tick>, t: int)
    requires Stretch(ts, t)
    ensures var n := Count(Actions(s, ts), WarnOne);
            if Stage(s, t) == OneMin then n >= 1 <==> ReachedThenWindow(ts, t)
            else (n >= 1 <==> SeenWithin(ts, t, 0, MINUTE)) && (n >= 2 <==> WindowReachedWindow(ts, t))
    decreases |ts|
  {
    if ts == [] {
    } else {
      OneMinuteRepeats(Next(s, ts[0]).0, ts[1..], t);
      SeenHere(ts, t, 0, MINUTE);
      ReachedHere(ts, t);
      WindowHere(ts, t);
    }
  }

  // In a whole run, a stretch is given the one-minute warning more than once exactly
  // if a tick in its window follows one that found the time reached, which again
  // follows one in the window. A clock that runs forward excludes that.
  lemma {:induction false} WarnedTwiceIff(before: seq<Tick>, ts: seq<Tick>, t: int)
    requires Stretch(ts, t) && LastRead(before) != Some(t)
    ensures Count(Actions(START, before + ts)[|before|..], WarnOne) >= 2 <==> WindowReachedWindow(ts, t)
    ensures ClockForward(ts) ==> !WindowReachedWindow(ts, t)
  {
    RunSplit(START, before, ts);
    RememberedIsLastRead(before);
    OneMinuteRepeats(After(START, before), ts, t);
    if ClockForward(ts) { ForwardIsOnce(ts, t); }
  }

  lemma {:induction false} ForwardIsOnce(ts: seq<Tick>, t: int)
    requires ClockForward(ts)
    ensures !WindowReachedWindow(ts, t)
  {}

  // ---- Which tick warns, whatever the clock does ----

  ghost predicate ReachedBetween(ts: seq<Tick>, t: int, j: int, i: nat) {
    exists k | j < k < i && 0 <= k < |ts| :: FindsReached(ts[k], t)
  }

  // Every tick before i within `high` of the time, and what went before the stretch
  // if `settled`, has been followed by one that found the time reached.
  ghost predicate DueAgain(ts: seq<Tick>, t: int, i: nat, high: int, settled: bool) {
    && (settled ==> ReachedBetween(ts, t, -1, i))
    && forall j | 0 <= j < i && j < |ts| && Within(ts[j], t, 0, high) :: ReachedBetween(ts, t, j, i)
  }

  lemma {:induction false} ReachedShift(ts: seq<Tick>, t: int, j: int, i: nat)
    requires ts != [] && 0 < i <= |ts| && -1 <= j < i
    ensures ReachedBetween(ts, t, j, i) <==>
              ReachedBetween(ts[1..], t, j - 1, i - 1) || (j == -1 && FindsReached(ts[0], t))
  {
    if ReachedBetween(ts[1..], t, j - 1, i - 1) {
      var k :| j - 1 < k < i - 1 && 0 <= k < |ts[1..]| && FindsReached(ts[1..][k], t);
      assert FindsReached(ts[k + 1], t);
    }
    if ReachedBetween(ts, t, j, i) {
      var k :| j < k < i && 0 <= k < |ts| && FindsReached(ts[k], t);
      if k > 0 { assert FindsReached(ts[1..][k - 1], t); }
    }
  }

  lemma {:induction false} DueShift(ts: seq<Tick>, t: int, i: nat, high: int, settled: bool)
    requires ts != [] && 0 < i <= |ts|
    ensures DueAgain(ts, t, i, high, settled) <==>
              DueAgain(ts[1..], t, i - 1, high,
                       !FindsReached(ts[0], t) && (settled || Within(ts[0], t, 0, high)))
  {
    var rest := ts[1..];
    var settled' := !FindsReached(ts[0], t) && (settled || Within(ts[0], t, 0, high));
    ReachedShift(ts, t, -1, i);
    ReachedShift(ts, t, 0, i);
    assert ReachedBetween(rest, t, -2, i - 1) == ReachedBetween(rest, t, -1, i - 1);
    forall j | 0 < j < i
      ensures Within(ts[j], t, 0, high) == Within(rest[j - 1], t, 0, high)
      ensures ReachedBetween(ts, t, j, i) == ReachedBetween(rest, t, j - 1, i - 1)
    {
      ReachedShift(ts, t, j, i);
    }
    if DueAgain(rest, t, i - 1, high, settled') {
      forall j | 0 <= j < i && Within(ts[j], t, 0, high) ensures ReachedBetween(ts, t, j, i) {
        if j > 0 { assert Within(rest[j - 1], t, 0, high); }
      }
    }
  }

  // A tick attempts the one-minute warning exactly if it falls in its window, and the
  // five-minute one if it falls in that one, and every earlier tick that could have
  // attempted it has been followed by one that found the time reached.
  lemma {:induction false} WarnsIffDue(s: State, ts: seq<Tick>, t: int, i: nat)
    requires Stretch(ts, t) && i < |ts|
    ensures Actions(s, ts)[i] == WarnOne <==>
              Within(ts[i], t, 0, MINUTE) && DueAgain(ts, t, i, MINUTE, Stage(s, t) == OneMin)
    ensures Actions(s, ts)[i] == WarnFive <==>
              Within(ts[i], t, MINUTE, 5 * MINUTE) && DueAgain(ts, t, i, 5 * MINUTE, Stage(s, t) != NoneYet)
    decreases |ts|
  {
    if i > 0 {
      WarnsIffDue(Next(s, ts[0]).0, ts[1..], t, i - 1);
      DueShift(ts, t, i, MINUTE, Stage(s, t) == OneMin);
      DueShift(ts, t, i, 5 * MINUTE, Stage(s, t) != NoneYet);
    }
  }

  // A tick in the five-minute window, with one that found the time reached before it
  // but no tick in the one-minute window since, after one in that window.
  ghost predicate FallsBack(ts: seq<Tick>, t: int) {
    exists i, k, j | 0 <= i < k < j < |ts| ::
      InWindow(ts[i], t) && FindsReached(ts[k], t) && Within(ts[j], t, MINUTE, 5 * MINUTE) && NoneInWindow(ts, t, k, j)
  }

  ghost predicate NoneInWindow(ts: seq<Tick>, t: int, k: int, j: int) {
    forall m | k < m < j && 0 <= m < |ts| :: !InWindow(ts[m], t)
  }

  lemma {:induction false} LastReached(ts: seq<Tick>, t: int, i: nat, j: nat) returns (k: nat)
    requires j <= |ts| && ReachedBetween(ts, t, i, j)
    ensures i < k < j && FindsReached(ts[k], t) && !ReachedBetween(ts, t, k, j)
    decreases j - i
  {
    k :| i < k < j && FindsReached(ts[k], t);
    if ReachedBetween(ts, t, k, j) { k := LastReached(ts, t, k, j); }
  }

  lemma {:induction false} FirstWithin(ts: seq<Tick>, t: int, low: int, high: int, k: int, j: nat) returns (first: nat)
    requires -1 <= k < j < |ts| && Within(ts[j], t, low, high)
    ensures k < first <= j && Within(ts[first], t, low, high)
    ensures forall m | k < m < first :: !Within(ts[m], t, low, high)
    decreases j
  {
    first := j;
    if m :| k < m < j && Within(ts[m], t, low, high) { first := FirstWithin(ts, t, low, high, k, m); }
  }

  lemma {:induction false} FiveAfterOneFallsBack(s: State, ts: seq<Tick>, t: int, i: nat, j: nat)
    requires Stretch(ts, t) && i < j < |ts| && Actions(s, ts)[i] == WarnOne && Actions(s, ts)[j] == WarnFive
    ensures FallsBack(ts, t)
  {
    WarnsIffDue(s, ts, t, i);
    WarnsIffDue(s, ts, t, j);
    var k := LastReached(ts, t, i, j);
    assert InWindow(ts[i], t) && NoneInWindow(ts, t, k, j);
  }

  // With nothing in the window since the time was found reached, a warning is due.
  lemma {:induction false} DueSince(ts: seq<Tick>, t: int, k: int, i: nat, high: int)
    requires -1 <= k < i <= |ts| && (k >= 0 ==> FindsReached(ts[k], t))
    requires forall m | k < m < i :: !Within(ts[m], t, 0, high)
    ensures DueAgain(ts, t, i, high, false)
  {
    forall m | 0 <= m < i && Within(ts[m], t, 0, high) ensures ReachedBetween(ts, t, m, i) {
      assert m < k;
    }
  }

  // The first tick in the window warns, and so does the first one in the five-minute
  // window after the time was found reached.
  lemma {:induction false} FirstWarns(s: State, ts: seq<Tick>, t: int, i: nat)
    requires Stretch(ts, t) && Stage(s, t) == NoneYet && i < |ts| && InWindow(ts[i], t) && NoneInWindow(ts, t, -1, i)
    ensures Actions(s, ts)[i] == WarnOne
  {
    assert forall m | -1 < m < i :: !InWindow(ts[m], t);
    DueSince(ts, t, -1, i, MINUTE);
    WarnsIffDue(s, ts, t, i);
  }

  lemma {:induction false} FiveWarns(s: State, ts: seq<Tick>, t: int, k: nat, j: nat)
    requires Stretch(ts, t) && Stage(s, t) == NoneYet && k < j < |ts| && FindsReached(ts[k], t)
    requires Within(ts[j], t, MINUTE, 5 * MINUTE) && NoneInWindow(ts, t, k, j)
    requires forall m | k < m < j :: !Within(ts[m], t, MINUTE, 5 * MINUTE)
    ensures Actions(s, ts)[j] == WarnFive
  {
    forall m | k < m < j ensures !Within(ts[m], t, 0, 5 * MINUTE) {
      assert !InWindow(ts[m], t) && !Within(ts[m], t, MINUTE, 5 * MINUTE);
    }
    DueSince(ts, t, k, j, 5 * MINUTE);
    WarnsIffDue(s, ts, t, j);
  }

  lemma {:induction false} FallsBackWarns(s: State, ts: seq<Tick>, t: int) returns (i: nat, j: nat)
    requires Stretch(ts, t) && Stage(s, t) == NoneYet && FallsBack(ts, t)
    ensures i < j < |ts| && Actions(s, ts)[i] == WarnOne && Actions(s, ts)[j] == WarnFive
  {
    var i', k, j' :| 0 <= i' < k < j' < |ts| && InWindow(ts[i'], t) && FindsReached(ts[k], t)
      && Within(ts[j'], t, MINUTE, 5 * MINUTE) && NoneInWindow(ts, t, k, j');
    i := FirstWithin(ts, t, 0, MINUTE, -1, i');
    j := FirstWithin(ts, t, MINUTE, 5 * MINUTE, k, j');
    FirstWarns(s, ts, t, i);
    FiveWarns(s, ts, t, k, j);
  }

  // In a whole run, a stretch is given the five-minute warning after the one-minute
  // one exactly if the clock falls back like that.
  lemma {:induction false} FiveAfterOneIff(before: seq<Tick>, ts: seq<Tick>, t: int)
    requires Stretch(ts, t) && LastRead(before) != Some(t)
    ensures var acts := Actions(START, before + ts)[|before|..];
            (exists i, j | 0 <= i < j < |ts| :: acts[i] == WarnOne && acts[j] == WarnFive) <==> FallsBack(ts, t)
  {
    RunSplit(START, before, ts);
    RememberedIsLastRead(before);
    var s := After(START, before);
    if i, j :| 0 <= i < j < |ts| && Actions(s, ts)[i] == WarnOne && Actions(s, ts)[j] == WarnFive {
      FiveAfterOneFallsBack(s, ts, t, i, j);
    }
    if FallsBack(ts, t) {
      var i, j := FallsBackWarns(s, ts, t);
    }
  }

  // The clock matters: set back after the shutdown was started, it brings the
  // one-minute warning a second time, or the five-minute one after it.
  lemma ClockSetBackWarnsTwice(t: int)
    ensures var five, early, due := Tick(t - 5 * MINUTE, At(t)), Tick(t - MINUTE, At(t)), Tick(t, At(t));
            && Actions(START, [early, due, early]) == [WarnOne, Shutdown, WarnOne]
            && Actions(START, [early, due, five]) == [WarnOne, Shutdown, WarnFive]
  {
    var five, early, due := Tick(t - 5 * MINUTE, At(t)), Tick(t - MINUTE, At(t)), Tick(t, At(t));
    var s1 := Next(START, early).0;
    forall last | last in {five, early}
      ensures Actions(START, [early, due, last]) == [WarnOne, Shutdown, Next(START, last).1]
    {
      assert [early, due, last][1..] == [due, last] && [due, last][1..] == [last] && [last][1..] == [];
      assert Actions(START, [last]) == [Next(START, last).1];
      assert Actions(s1, [due, last]) == [Shutdown] + Actions(START, [last]);
    }
  }
}
