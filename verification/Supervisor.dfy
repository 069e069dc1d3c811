/**
  The life cycle of one instance id under the supervisor
  (crates/agend-daemon/src/supervisor.rs, boot.rs and the failed-instance resolve of
  handlers.rs): first start, deaths, budgeted restarts, giving up, operator retries,
  removal, re-adding, daemon stops and boots.

  The supervisor handles one event at a time, so an event is a position `Pc` followed by
  the outcomes of its foreign calls; between them only a client's resolve and a stop of
  the daemon can happen. Holder, start-failure and timer events carry a generation and
  may arrive late, early or twice.
*/
module Supervisor {
  import opened Common
  import opened RestartBudget

  datatype Backend = Claude | Codex | Opencode
  datatype Status = New | Running | Failed

  /** The instance row; `inc` tells a re-added row from the one removed before it. */
  datatype Row = Row(
    inc: nat, backend: Backend, session: Option<string>, delivery: string,
    status: Status, started: bool, legacyNoThread: bool)

  datatype Args = Fine(args: seq<string>) | NoSession

  /** `session_args` */
  function SessionArgs(row: Row, resume: bool): Args
  {
    match (row.backend, row.session, resume)
    case (Claude, Some(id), false) => Fine(["--session-id", id])
    case (Claude, Some(id), true) => Fine(["--resume", id])
    case (Opencode, Some(_), true) => if row.delivery == "push" then Fine([]) else NoSession
    case (Codex, _, _) => Fine([])
    case (_, _, false) => Fine([])
    case (_, _, true) => NoSession
  }

  datatype WatchState = Up | Restarting(n: nat) | GaveUp

  /** `granted` is every restart granted since the watch began. */
  datatype Watch = Watch(generation: nat, state: WatchState, budget: seq<nat>, granted: seq<nat>)

  /** A needs-you item of this instance id; `retry` tells whether it offers the action. */
  datatype Item = Item(retry: bool)

  datatype Pc =
    | Idle
    | Reconnecting(resume: bool)             // a running holder was found at boot
    | Starting(resume: bool)                 // `start` was called
    | Awaiting(resume: bool)                 // `Spawn` was sent
    | Failing                                // `failed` is recorded, its item not raised yet
    | Retrying(item: Item)                   // the item is off the list, nothing written yet

  /** What happened to the session: `running` was recorded, or a `Spawn` was sent;
      `fellBack` tells a reconnect whose first launch failed. */
  datatype Entry = RecordedRunning(inc: nat) | Launched(row: Row, args: seq<string>, fellBack: bool)

  function Incarnation(e: Entry): nat { if e.Launched? then e.row.inc else e.inc }

  datatype Sup = Sup(
    up: bool, row: Option<Row>, nextInc: nat, watch: Option<Watch>, pc: Pc,
    item: Option<Item>, retries: seq<Item>,
    log: seq<Entry>, grants: nat, autoStarts: nat,
    clock: nat)                              // when a budget was last asked

  const Initial := Sup(false, None, 0, None, Idle, None, [], [], 0, 0, 0)

  datatype RetryOutcome = Held | StopFailed | ReadFailed | WriteFailed | Proceeds

  datatype Action =
    | Crash
    | Boot(holderRuns: bool, held: bool)
    | Add(backend: Backend, session: string)
    | Remove
    | ReconnectRefused                        // the managed launch cannot be proved: give up
    | ReconnectManaged(attached: nat, noted: bool)  // attach without a `Spawn`
    | NotLaunched                             // configuration refused, or no holder: a death to come
    | StartRefused                            // any `fail` before the `Spawn`
    | SendSpawn(firstFailed: bool)            // whether the first `launch` of a reconnect failed
    | SpawnAnswered(generation: nat, recorded: bool)
    | SpawnFailed
    | RaiseItem
    | Died(dead: nat, held: bool, now: nat)
    | RestartDue(due: nat, held: bool, stopped: bool)
    | LaunchRejected(rejected: nat)
    | Resolve                                 // a client takes the item: `Retry` is queued
    | RetryConfirmed                          // resolved inside the event loop
    | TakeRetry
    | RetryGoes(outcome: RetryOutcome)
    | CancelSwitch(reconnects: bool)            // a cancelled backend switch resumes the instance

  /** `failed_item`: whether a failed instance can be retried. */
  predicate CanRetry(row: Row)
  {
    match row.backend
    case Claude => true
    case Codex => !row.legacyNoThread
    case Opencode => !row.started || (row.delivery == "push" && row.session.Some?)
  }

  function Generation(s: Sup): nat { if s.watch.Some? then s.watch.value.generation else 0 }

  /** `watch`: keeps the budget of a watch that exists. */
  function Watched(s: Sup, generation: nat): Sup
  {
    s.(watch := Some(if s.watch.Some? then s.watch.value.(generation := generation, state := Up)
                     else Watch(generation, Up, [], [])))
  }

  /** `fail`: records `failed`; the item follows. Without a row there is nothing to record. */
  function Fail(s: Sup): Sup
  {
    var t := s.(watch := if s.watch.Some? then Some(s.watch.value.(state := GaveUp)) else None);
    if t.row.None? then t.(pc := Idle)
    else t.(row := Some(t.row.value.(status := Failed)), pc := Failing)
  }

  /** `Fleet::raise`: an item already listed is left as it is. */
  function Raise(s: Sup, item: Item): Sup { if s.item.Some? then s else s.(item := Some(item)) }

  /** `set_instance_status`: `running` also records that the session started. */
  function Record(s: Sup, status: Status): Sup
    requires s.row.Some?
  {
    var row := s.row.value;
    s.(row := Some(row.(status := status, started := row.started || status.Running?)),
       log := if status.Running? then s.log + [RecordedRunning(row.inc)] else s.log)
  }

  /** `RestartBudget::next` on the kept times. */
  function BudgetNext(budget: seq<nat>, now: nat): (seq<nat>, Option<nat>)
  {
    var kept := Retained(budget, now);
    if |kept| >= MAX_RESTARTS then (kept, None) else (kept + [now], Some(|kept| + 1))
  }

  predicate CanDie(s: Sup, generation: nat)
  {
    s.watch.Some? && s.watch.value.generation == generation && s.watch.value.state.Up?
  }

  predicate Enabled(s: Sup, a: Action)
  {
    match a
    case Crash => s.up
    case Boot(_, _) => !s.up
    case Resolve => s.up && s.item.Some? && s.item.value.retry
    case ReconnectRefused => s.up && s.pc.Reconnecting?
    case ReconnectManaged(_, _) => s.up && s.pc.Reconnecting?
    case NotLaunched => s.up && (s.pc.Reconnecting? || s.pc.Starting?)
    case StartRefused => s.up && (s.pc.Reconnecting? || s.pc.Starting?)
    case SendSpawn(firstFailed) => s.up && (s.pc.Reconnecting? || (s.pc.Starting? && !firstFailed))
    case SpawnAnswered(_, _) => s.up && s.pc.Awaiting?
    case SpawnFailed => s.up && s.pc.Awaiting?
    case RaiseItem => s.up && s.pc.Failing?
    case RetryGoes(_) => s.up && s.pc.Retrying?
    case Add(_, _) => s.up && s.pc.Idle? && s.row.None?
    case Remove => s.up && s.pc.Idle? && s.row.Some?
    case RetryConfirmed => s.up && s.pc.Idle? && s.item.Some? && s.item.value.retry
    case TakeRetry => s.up && s.pc.Idle? && s.retries != []
    case CancelSwitch(_) => s.up && s.pc.Idle? && s.row.Some? && s.row.value.status.Running?
    case _ => s.up && s.pc.Idle?
  }

  function Apply(s: Sup, a: Action): Sup
    requires Enabled(s, a) && Located(s)
  {
    match a
    // Everything but the database is in memory.
    case Crash => s.(up := false, watch := None, pc := Idle, item := None, retries := [])
    case Boot(holderRuns, held) =>
      var b := s.(up := true);
      if b.row.None? then b
      else if b.row.value.status.Failed? then Raise(b, Item(CanRetry(b.row.value)))
      else if holderRuns then b.(pc := Reconnecting(b.row.value.status.Running?))
      else if held then b
      else b.(pc := Starting(b.row.value.status.Running?))
    case Add(backend, session) =>
      var row := Row(s.nextInc, backend, if backend.Claude? then Some(session) else None, "push",
                     New, false, false);
      s.(row := Some(row), nextInc := s.nextInc + 1, pc := Starting(false))
    case Remove => s.(row := None, watch := None, item := None)
    case ReconnectRefused => Fail(s)
    case ReconnectManaged(generation, recorded) =>
      var t := if !s.pc.resume && recorded then Record(s, Running) else s;
      Watched(t.(pc := Idle), generation)
    case NotLaunched => Watched(s.(pc := Idle), Generation(s))
    case StartRefused => Fail(s)
    case SendSpawn(firstFailed) =>
      var row := s.row.value;
      // A reconnect falls back to a fresh launch whatever the first one failed for.
      var fellBack := s.pc.Reconnecting? && (firstFailed || SessionArgs(row, s.pc.resume).NoSession?);
      var args := SessionArgs(row, s.pc.resume && !fellBack);
      if args.NoSession? then Fail(s)
      else s.(pc := Awaiting(s.pc.resume), log := s.log + [Launched(row, args.args, fellBack)])
    case SpawnAnswered(generation, recorded) =>
      var t := if !s.pc.resume && recorded then Record(s, Running) else s;
      Watched(t.(pc := Idle), generation)
    case SpawnFailed => Watched(s.(pc := Idle), Generation(s))
    case RaiseItem => Raise(s.(pc := Idle), Item(CanRetry(s.row.value)))
    case Died(dead, held, now) =>
      if !CanDie(s, dead) || held then s
      else if s.row.None? then s.(watch := None)
      else if s.row.value.status.Running? && SessionArgs(s.row.value, true).NoSession? then Fail(s)
      else
        var (budget, n) := BudgetNext(s.watch.value.budget, now);
        var t := s.(watch := Some(s.watch.value.(budget := budget)), clock := now);
        if n.None? then Fail(t)
        else
          t.(watch := Some(t.watch.value.(state := Restarting(n.value), granted := t.watch.value.granted + [now])),
             grants := t.grants + 1)
    case RestartDue(due, held, stopped) =>
      if s.watch.None? || !s.watch.value.state.Restarting? || s.watch.value.generation != due || held then s
      else if !stopped then Fail(s)
      else if s.row.None? then s.(watch := None)
      else s.(pc := Starting(s.row.value.status.Running?), autoStarts := s.autoStarts + 1)
    case LaunchRejected(rejected) => if CanDie(s, rejected) then Fail(s) else s
    case Resolve => s.(item := None, retries := s.retries + [s.item.value])
    case RetryConfirmed => s.(item := None, pc := Retrying(s.item.value))
    case TakeRetry => s.(retries := s.retries[1..], pc := Retrying(s.retries[0]))
    case RetryGoes(outcome) =>
      var item := s.pc.item;
      if outcome.StopFailed? then Fail(s)
      else if outcome.Held? || outcome.ReadFailed? then Raise(s.(pc := Idle), item)
      else if s.row.None? then s.(pc := Idle)
      else if outcome.WriteFailed? then Raise(s.(pc := Idle), item)
      else
        var started := s.row.value.started;
        Record(s, if started then Running else New).(watch := None, pc := Starting(started))
    case CancelSwitch(reconnects) =>
      s.(pc := if reconnects then Reconnecting(true) else Starting(s.row.value.started))
  }

  /** Only an instance that has a row is being started, reconnected or failed. */
  ghost predicate Located(s: Sup)
  {
    (s.pc.Reconnecting? || s.pc.Starting? || s.pc.Awaiting? || s.pc.Failing?) ==> s.row.Some?
  }

  /** What some promises need of a run and the code does not check. */
  datatype Rule =
    | Anything          // as the code runs
    | CleanAdds         // an instance is added only while nothing of its id is pending
    | ForwardClock      // no budget is asked with an earlier time than the last

  /** Nothing of an earlier instance with this id is listed or queued. */
  predicate Clean(s: Sup) { s.item.None? && s.retries == [] }

  predicate Obeys(rule: Rule, s: Sup, a: Action)
  {
    && (rule.CleanAdds? && a.Add? ==> Clean(s))
    && (rule.ForwardClock? && a.Died? ==> s.clock <= a.now)
  }

  ghost predicate Runs(rule: Rule, s: Sup, trace: seq<Action>, t: Sup)
    decreases |trace|
  {
    if trace == [] then s == t
    else Enabled(s, trace[0]) && Located(s) && Obeys(rule, s, trace[0])
         && Runs(rule, Apply(s, trace[0]), trace[1..], t)
  }

  // ---- the invariant ------------------------------------------------------------

  /** A started session is never new again and is only resumed; an instance that is
      watched and not given up is not failed. */
  ghost predicate RowInv(s: Sup)
  {
    && (s.row.Some? && s.row.value.started ==> !s.row.value.status.New?)
    && (s.row.Some? && s.row.value.status.Running? ==> s.row.value.started)
    && (s.pc.Reconnecting? || s.pc.Starting? || s.pc.Awaiting? ==>
          s.row.Some? && !s.row.value.status.Failed? && (s.row.value.started ==> s.pc.resume))
    && (s.watch.Some? && !s.watch.value.state.GaveUp? && s.row.Some? ==> !s.row.value.status.Failed?)
  }

  /** The log speaks of rows added so far, and `running` recorded means started. */
  ghost predicate RecordInv(s: Sup)
  {
    && (s.row.Some? ==> s.row.value.inc < s.nextInc)
    && (forall e <- s.log :: Incarnation(e) < s.nextInc)
    && (s.row.Some? && RecordedRunning(s.row.value.inc) in s.log ==> s.row.value.started)
  }

  ghost predicate SessionInv(s: Sup) { RowInv(s) && RecordInv(s) }

  /** Entry `j` launches a Claude session that entry `i` recorded as running: it resumes,
      unless it is a reconnect whose first launch failed. */
  ghost predicate ResumesAfter(log: seq<Entry>, i: nat, j: nat)
    requires i < j < |log|
  {
    log[i].RecordedRunning? && log[j].Launched? && log[j].row.inc == log[i].inc
    && log[j].row.backend.Claude? && log[j].row.session.Some?
    ==> log[j].args == [if log[j].fellBack then "--session-id" else "--resume", log[j].row.session.value]
  }

  ghost predicate LogInv(log: seq<Entry>)
  {
    forall i, j :: 0 <= i < j < |log| ==> ResumesAfter(log, i, j)
  }

  /** What promises that a failed instance is attended to. */
  function Tokens(s: Sup): nat
  {
    (if s.item.Some? then 1 else 0) + |s.retries|
    + (if s.pc.Retrying? then 1 else 0) + (if s.pc.Failing? then 1 else 0)
  }

  predicate IsFailed(s: Sup) { s.row.Some? && s.row.value.status.Failed? }

  ghost predicate FailedInv(s: Sup)
  {
    && Located(s)
    && (!s.up ==> s.pc.Idle? && s.watch.None? && s.item.None? && s.retries == [])
    && (s.pc.Failing? ==> IsFailed(s))
    && (s.up && IsFailed(s) ==> Tokens(s) >= 1)
  }

  /** A restart was granted and has not begun. */
  predicate Waiting(s: Sup)
  {
    s.watch.Some? && s.watch.value.state.Restarting?
    && !s.pc.Starting? && !s.pc.Reconnecting? && !s.pc.Awaiting?
  }

  /** Every automatic start used up a grant of its own. */
  ghost predicate BudgetInv(s: Sup)
  {
    s.autoStarts + (if Waiting(s) then 1 else 0) <= s.grants
  }

  ghost predicate Inv(s: Sup) { SessionInv(s) && LogInv(s.log) && FailedInv(s) && BudgetInv(s) }

  lemma StepKeepsSessionInv(s: Sup, a: Action)
    requires SessionInv(s) && FailedInv(s) && Enabled(s, a)
    ensures SessionInv(Apply(s, a))
  {
    StepKeepsRowInv(s, a);
    StepKeepsRecordInv(s, a);
  }

  /** The steps of a start or a reconnect under way. */
  predicate Launches(a: Action)
  {
    || a.ReconnectRefused? || a.ReconnectManaged? || a.NotLaunched? || a.StartRefused?
    || a.SendSpawn? || a.SpawnAnswered? || a.SpawnFailed? || a.RaiseItem?
  }

  lemma StepKeepsRowInv(s: Sup, a: Action)
    requires RowInv(s) && FailedInv(s) && Enabled(s, a)
    ensures RowInv(Apply(s, a))
  {
    hide Apply, RowInv;
    if Launches(a) {
      LaunchKeepsRowInv(s, a);
    } else {
      EventKeepsRowInv(s, a);
    }
  }

  lemma LaunchKeepsRowInv(s: Sup, a: Action)
    requires RowInv(s) && FailedInv(s) && Enabled(s, a) && Launches(a)
    ensures RowInv(Apply(s, a))
  {
  }

  lemma EventKeepsRowInv(s: Sup, a: Action)
    requires RowInv(s) && FailedInv(s) && Enabled(s, a) && !Launches(a)
    ensures RowInv(Apply(s, a))
  {
    hide SessionArgs, BudgetNext;
  }

  lemma StepKeepsRecordInv(s: Sup, a: Action)
    requires RecordInv(s) && Located(s) && Enabled(s, a)
    ensures RecordInv(Apply(s, a))
  {
    var t := Apply(s, a);
    assert s.log <= t.log && s.nextInc <= t.nextInc;
    forall e | e in t.log
      ensures e in s.log || (s.row.Some? && t.row.Some? && Incarnation(e) == s.row.value.inc == t.row.value.inc)
    {
    }
  }

  lemma StepKeepsLogInv(s: Sup, a: Action)
    requires SessionInv(s) && LogInv(s.log) && FailedInv(s) && Enabled(s, a)
    ensures LogInv(Apply(s, a).log)
  {
    var t := Apply(s, a);
    assert s.log <= t.log && |t.log| <= |s.log| + 1;
    forall i, j | 0 <= i < j < |t.log|
      ensures ResumesAfter(t.log, i, j)
    {
      assert t.log[i] == s.log[i];
      if j < |s.log| {
        assert t.log[j] == s.log[j] && ResumesAfter(s.log, i, j);
      } else {
        assert s.log[i] in s.log;
      }
    }
  }

  lemma StepKeepsFailedInv(s: Sup, a: Action)
    requires RowInv(s) && FailedInv(s) && Enabled(s, a)
    ensures FailedInv(Apply(s, a))
  {
    hide Apply, RowInv, FailedInv;
    if Launches(a) {
      LaunchKeepsFailedInv(s, a);
    } else {
      EventKeepsFailedInv(s, a);
    }
  }

  lemma LaunchKeepsFailedInv(s: Sup, a: Action)
    requires RowInv(s) && FailedInv(s) && Enabled(s, a) && Launches(a)
    ensures FailedInv(Apply(s, a))
  {
  }

  lemma EventKeepsFailedInv(s: Sup, a: Action)
    requires RowInv(s) && FailedInv(s) && Enabled(s, a) && !Launches(a)
    ensures FailedInv(Apply(s, a))
  {
    hide SessionArgs, BudgetNext;
  }

  lemma StepKeepsBudgetInv(s: Sup, a: Action)
    requires FailedInv(s) && BudgetInv(s) && Enabled(s, a)
    ensures BudgetInv(Apply(s, a))
  {
    hide Apply, FailedInv, BudgetInv;
    if Launches(a) {
      LaunchKeepsBudgetInv(s, a);
    } else {
      EventKeepsBudgetInv(s, a);
    }
  }

  lemma LaunchKeepsBudgetInv(s: Sup, a: Action)
    requires FailedInv(s) && BudgetInv(s) && Enabled(s, a) && Launches(a)
    ensures BudgetInv(Apply(s, a))
  {
  }

  lemma EventKeepsBudgetInv(s: Sup, a: Action)
    requires FailedInv(s) && BudgetInv(s) && Enabled(s, a) && !Launches(a)
    ensures BudgetInv(Apply(s, a))
  {
    hide SessionArgs, BudgetNext;
  }

  lemma {:induction false} RunKeepsInv(rule: Rule, s: Sup, trace: seq<Action>, t: Sup)
    requires Inv(s) && Runs(rule, s, trace, t)
    ensures Inv(t)
    decreases |trace|
  {
    if trace != [] {
      StepKeepsSessionInv(s, trace[0]);
      StepKeepsLogInv(s, trace[0]);
      StepKeepsFailedInv(s, trace[0]);
      StepKeepsBudgetInv(s, trace[0]);
      RunKeepsInv(rule, Apply(s, trace[0]), trace[1..], t);
    }
  }

  // ---- what every run keeps -----------------------------------------------------

  /** Once `running` was recorded for a Claude instance, a later launch of that instance,
      across deaths, restarts, give-ups, retries, daemon stops and boots, resumes its
      session if and only if it is not a reconnect whose first launch failed; such a
      reconnect starts the session anew. */
  lemma RecordedSessionsResumeIff(trace: seq<Action>, t: Sup, i: nat, j: nat)
    requires Runs(Anything, Initial, trace, t) && i < j < |t.log|
    requires t.log[i].RecordedRunning? && t.log[j].Launched? && t.log[j].row.inc == t.log[i].inc
    requires t.log[j].row.backend.Claude? && t.log[j].row.session.Some?
    ensures t.log[j].args == ["--resume", t.log[j].row.session.value] <==> !t.log[j].fellBack
    ensures t.log[j].args == ["--session-id", t.log[j].row.session.value] <==> t.log[j].fellBack
  {
    RunKeepsInv(Anything, Initial, trace, t);
    assert ResumesAfter(t.log, i, j);
    assert "--resume" != "--session-id";
  }

  /** As coded the fallback can happen: `running` is recorded, the daemon stops, and at the
      next boot the first launch of the reconnect fails and the second does not. */
  lemma FallbackStartsARecordedSession() returns (trace: seq<Action>, t: Sup)
    ensures Runs(Anything, Initial, trace, t) && |t.log| == 3
    ensures t.log[1] == RecordedRunning(0) && t.log[2].Launched? && t.log[2].row.inc == 0
    ensures t.log[2].args == ["--session-id", "id"]
  {
    var d := Sup(true, Some(Row(0, Claude, Some("id"), "push", Running, true, false)), 1, Some(Watch(1, Up, [], [])),
                 Idle, None, [],
                 [Launched(Row(0, Claude, Some("id"), "push", New, false, false), ["--session-id", "id"], false),
                  RecordedRunning(0)], 0, 0, 0);
    var e := Apply(d, Crash);
    var f := Apply(e, Boot(true, false));
    t := Apply(f, SendSpawn(true));
    trace := Then(f, SendSpawn(true), [], t);
    trace := Then(e, Boot(true, false), trace, t);
    trace := Then(d, Crash, trace, t);
    trace := FirstSpawn(d, trace, t);
  }

  lemma FirstSpawn(d: Sup, rest: seq<Action>, t: Sup) returns (trace: seq<Action>)
    requires d == Sup(true, Some(Row(0, Claude, Some("id"), "push", Running, true, false)), 1,
                      Some(Watch(1, Up, [], [])), Idle, None, [],
                      [Launched(Row(0, Claude, Some("id"), "push", New, false, false), ["--session-id", "id"], false),
                       RecordedRunning(0)], 0, 0, 0)
    requires Runs(Anything, d, rest, t)
    ensures Runs(Anything, Initial, trace, t)
  {
    var a := Apply(Initial, Boot(false, false));
    var b := Apply(a, Add(Claude, "id"));
    var c := Apply(b, SendSpawn(false));
    assert Apply(c, SpawnAnswered(1, true)) == d;
    trace := Then(c, SpawnAnswered(1, true), rest, t);
    trace := Then(b, SendSpawn(false), trace, t);
    trace := Then(a, Add(Claude, "id"), trace, t);
    trace := Then(Initial, Boot(false, false), trace, t);
  }

  /** No failed instance is lost: while the daemon runs it is listed, or a retry of it is
      queued or in progress, or its item is just being raised. */
  lemma NoFailedInstanceIsLost(trace: seq<Action>, t: Sup)
    requires Runs(Anything, Initial, trace, t) && t.up && IsFailed(t)
    ensures t.item.Some? || t.retries != [] || t.pc.Retrying? || t.pc.Failing?
  {
    RunKeepsInv(Anything, Initial, trace, t);
  }

  /** Automatic starts never exceed the grants of the budget, whatever stale or repeated
      death, start-failure and timer events arrive. */
  lemma AutomaticStartsAreGranted(trace: seq<Action>, t: Sup)
    requires Runs(Anything, Initial, trace, t)
    ensures t.autoStarts <= t.grants
  {
    RunKeepsInv(Anything, Initial, trace, t);
  }

  // ---- what is started ------------------------------------------------------------

  /** A session that started was recorded, a Claude row has one, and a pending restart of a
      running instance has a session to resume. */
  ghost predicate StartInv(s: Sup)
  {
    && (s.row.Some? && s.row.value.started ==> RecordedRunning(s.row.value.inc) in s.log)
    && (s.row.Some? && s.row.value.backend.Claude? ==> s.row.value.session.Some?)
    && (s.row.Some? && s.watch.Some? && s.watch.value.state.Restarting? && s.row.value.status.Running? ==>
          SessionArgs(s.row.value, true).Fine?)
  }

  lemma StepKeepsStartInv(s: Sup, a: Action)
    requires StartInv(s) && Located(s) && Enabled(s, a)
    ensures StartInv(Apply(s, a))
  {
    hide Apply, StartInv;
    if Launches(a) {
      LaunchKeepsStartInv(s, a);
    } else {
      EventKeepsStartInv(s, a);
    }
  }

  lemma LaunchKeepsStartInv(s: Sup, a: Action)
    requires StartInv(s) && Located(s) && Enabled(s, a) && Launches(a)
    ensures StartInv(Apply(s, a))
  {
    var t := Apply(s, a);
    assert s.log <= t.log;
    if t.row.Some? && t.row.value.started && !s.row.value.started {
      assert t.log[|s.log|] == RecordedRunning(t.row.value.inc);
    }
  }

  lemma EventKeepsStartInv(s: Sup, a: Action)
    requires StartInv(s) && Located(s) && Enabled(s, a) && !Launches(a)
    ensures StartInv(Apply(s, a))
  {
    hide BudgetNext;
    assert s.log <= Apply(s, a).log;
  }

  lemma {:induction false} RunKeepsStartInv(s: Sup, trace: seq<Action>, t: Sup)
    requires StartInv(s) && Runs(Anything, s, trace, t)
    ensures StartInv(t)
    decreases |trace|
  {
    if trace != [] {
      StepKeepsStartInv(s, trace[0]);
      RunKeepsStartInv(Apply(s, trace[0]), trace[1..], t);
    }
  }

  /** The session argument of a Claude launch: resuming exactly what was recorded. */
  ghost predicate LaunchArgs(log: seq<Entry>, row: Row, args: seq<string>)
  {
    row.backend.Claude? && row.session.Some? ==>
      args == [if RecordedRunning(row.inc) in log then "--resume" else "--session-id", row.session.value]
  }

  /** A granted restart is carried out: from every reachable state with one pending, its
      timer and the stopped holder lead to one launch more, of exactly this row, and to one
      automatic start more. */
  lemma PendingRestartIsLaunched(before: seq<Action>, s: Sup) returns (trace: seq<Action>, t: Sup, args: seq<string>)
    requires Runs(Anything, Initial, before, s) && s.up && s.pc.Idle? && s.row.Some?
    requires s.watch.Some? && s.watch.value.state.Restarting?
    ensures trace == [RestartDue(s.watch.value.generation, false, true), SendSpawn(false)]
    ensures Runs(Anything, s, trace, t) && t.row == s.row && t.autoStarts == s.autoStarts + 1
    ensures t.log == s.log + [Launched(s.row.value, args, false)] && LaunchArgs(s.log, s.row.value, args)
  {
    RunKeepsInv(Anything, Initial, before, s);
    RunKeepsStartInv(Initial, before, s);
    var a := RestartDue(s.watch.value.generation, false, true);
    var m := Apply(s, a);
    t := Apply(m, SendSpawn(false));
    args := SessionArgs(s.row.value, s.row.value.status.Running?).args;
    trace := Then(m, SendSpawn(false), [], t);
    trace := Then(s, a, trace, t);
  }

  /** An operator's retry that goes ahead leads to a launch of the row, resuming exactly what
      was recorded, and does not count as automatic. */
  lemma RetryIsLaunched(before: seq<Action>, s: Sup) returns (trace: seq<Action>, t: Sup, row: Row, args: seq<string>)
    requires Runs(Anything, Initial, before, s) && s.up && s.pc.Retrying? && s.row.Some?
    requires SessionArgs(s.row.value, s.row.value.started).Fine?
    ensures trace == [RetryGoes(Proceeds), SendSpawn(false)]
    ensures Runs(Anything, s, trace, t) && t.row == Some(row) && t.autoStarts == s.autoStarts
    ensures row == s.row.value.(status := if s.row.value.started then Running else New)
    ensures t.log == s.log + (if row.started then [RecordedRunning(row.inc)] else []) + [Launched(row, args, false)]
    ensures LaunchArgs(s.log, row, args)
  {
    RunKeepsInv(Anything, Initial, before, s);
    RunKeepsStartInv(Initial, before, s);
    var m := Apply(s, RetryGoes(Proceeds));
    t := Apply(m, SendSpawn(false));
    row := m.row.value;
    args := SessionArgs(row, row.started).args;
    trace := Then(m, SendSpawn(false), [], t);
    trace := Then(s, RetryGoes(Proceeds), trace, t);
  }

  /** A cancelled backend switch brings a running instance back: it is launched, resuming
      what was recorded. */
  lemma CancelledSwitchLaunches(before: seq<Action>, s: Sup, reconnects: bool)
    returns (trace: seq<Action>, t: Sup, args: seq<string>)
    requires Runs(Anything, Initial, before, s) && Enabled(s, CancelSwitch(reconnects))
    requires SessionArgs(s.row.value, true).Fine?
    ensures trace == [CancelSwitch(reconnects), SendSpawn(false)] && Runs(Anything, s, trace, t) && t.row == s.row
    ensures t.log == s.log + [Launched(s.row.value, args, false)] && LaunchArgs(s.log, s.row.value, args)
  {
    RunKeepsInv(Anything, Initial, before, s);
    RunKeepsStartInv(Initial, before, s);
    var m := Apply(s, CancelSwitch(reconnects));
    t := Apply(m, SendSpawn(false));
    args := SessionArgs(s.row.value, true).args;
    trace := Then(m, SendSpawn(false), [], t);
    trace := Then(s, CancelSwitch(reconnects), trace, t);
  }

  /** The item of a failed instance offers a retry exactly when that retry can be launched
      and the row is not one of a codex thread that never had an id. */
  lemma RetryIsOfferedIff(before: seq<Action>, s: Sup)
    requires Runs(Anything, Initial, before, s) && s.row.Some?
    ensures var row := s.row.value;
            CanRetry(row) <==> SessionArgs(row, row.started).Fine? && !(row.backend.Codex? && row.legacyNoThread)
  {
    RunKeepsStartInv(Initial, before, s);
  }

  /** A new instance is launched fresh and, once its `Spawn` is answered, recorded running
      and watched. */
  lemma AddedIsLaunched(before: seq<Action>, s: Sup, backend: Backend, session: string, generation: nat)
    returns (trace: seq<Action>, t: Sup, row: Row, args: seq<string>)
    requires Runs(Anything, Initial, before, s) && Enabled(s, Add(backend, session))
    ensures trace == [Add(backend, session), SendSpawn(false), SpawnAnswered(generation, true)]
    ensures Runs(Anything, s, trace, t)
    ensures t.row == Some(row.(status := Running, started := true)) && row.backend == backend
    ensures backend.Claude? ==> row.session == Some(session) && args == ["--session-id", session]
    ensures !backend.Claude? ==> row.session == None && args == []
    ensures row.delivery == "push" && row.status == New && !row.started
    ensures t.log == s.log + [Launched(row, args, false), RecordedRunning(row.inc)]
    ensures RecordedRunning(row.inc) !in s.log
    ensures t.pc.Idle? && t.watch.Some? && t.watch.value.generation == generation && t.watch.value.state.Up?
  {
    RunKeepsInv(Anything, Initial, before, s);
    var m := Apply(s, Add(backend, session));
    var n := Apply(m, SendSpawn(false));
    t := Apply(n, SpawnAnswered(generation, true));
    row := m.row.value;
    args := SessionArgs(row, false).args;
    trace := Then(n, SpawnAnswered(generation, true), [], t);
    trace := Then(m, SendSpawn(false), trace, t);
    trace := Then(s, Add(backend, session), trace, t);
    assert forall e <- s.log :: Incarnation(e) < s.nextInc;
  }

  /** An answer that this is the first start records `running`; any other changes the row not
      at all. Either way the instance is watched at the answered generation. */
  lemma AnswersAreRecorded(s: Sup, a: Action, generation: nat, recorded: bool)
    requires (a == SpawnAnswered(generation, recorded) || a == ReconnectManaged(generation, recorded))
    requires Enabled(s, a) && Located(s)
    ensures var t := Apply(s, a);
            && (!s.pc.resume && recorded ==> t.row == Some(s.row.value.(status := Running, started := true))
                                             && t.log == s.log + [RecordedRunning(s.row.value.inc)])
            && (s.pc.resume || !recorded ==> t.row == s.row && t.log == s.log)
            && t.pc.Idle? && CanDie(t, generation)
  {
  }

  /** Only Claude takes session arguments; resuming fails exactly without a session, which
      codex does not need and OpenCode has only by push. */
  lemma SessionArgsIff(row: Row, resume: bool)
    ensures SessionArgs(row, resume).NoSession?
            <==> resume && !row.backend.Codex?
                 && (row.session.None? || (row.backend.Opencode? && row.delivery != "push"))
    ensures SessionArgs(row, resume).Fine? && !(row.backend.Claude? && row.session.Some?) ==>
              SessionArgs(row, resume).args == []
  {
  }

  /** A retry that cannot go ahead starts nothing and the instance is listed again: with the
      item that was taken, or with a new one when the old holder could not be stopped. */
  lemma UndoneRetryIsListed(before: seq<Action>, s: Sup, outcome: RetryOutcome) returns (trace: seq<Action>, t: Sup)
    requires Runs(Anything, Initial, before, s) && s.up && s.pc.Retrying? && IsFailed(s) && s.item.None?
    requires outcome != Proceeds
    ensures Runs(Anything, s, trace, t) && t.pc.Idle? && IsFailed(t) && t.log == s.log && t.autoStarts == s.autoStarts
    ensures trace == [RetryGoes(outcome)] + (if outcome == StopFailed then [RaiseItem] else [])
    ensures t.item == Some(if outcome == StopFailed then Item(CanRetry(s.row.value)) else s.pc.item)
  {
    RunKeepsInv(Anything, Initial, before, s);
    var m := Apply(s, RetryGoes(outcome));
    if outcome == StopFailed {
      t := Apply(m, RaiseItem);
      trace := Then(m, RaiseItem, [], t);
    } else {
      t := m;
      trace := [];
    }
    trace := Then(s, RetryGoes(outcome), trace, t);
  }

  /** A start that fails after the configuration was accepted is a death to come: the event
      for the current generation is not stale. */
  lemma FailedStartsDie(s: Sup, a: Action)
    requires Enabled(s, a) && Located(s) && (a.NotLaunched? || a.SpawnFailed?)
    ensures var t := Apply(s, a); CanDie(t, if s.watch.Some? then s.watch.value.generation else 0)
  {
  }

  /** Whatever makes the supervisor give up, the instance is then failed and listed. */
  lemma GivingUpIsListed(before: seq<Action>, s: Sup, a: Action) returns (t: Sup)
    requires Runs(Anything, Initial, before, s) && Enabled(s, a) && s.row.Some?
    requires || a.ReconnectRefused? || a.StartRefused?
             || (a.LaunchRejected? && CanDie(s, a.rejected))
             || (a.RestartDue? && !a.held && !a.stopped && s.watch.Some? && s.watch.value.state.Restarting?
                 && s.watch.value.generation == a.due)
    ensures Runs(Anything, s, [a, RaiseItem], t) && IsFailed(t) && t.pc.Idle? && t.log == s.log
    ensures t.item == if s.item.Some? then s.item else Some(Item(CanRetry(s.row.value)))
  {
    RunKeepsInv(Anything, Initial, before, s);
    var m := Apply(s, a);
    t := Apply(m, RaiseItem);
    var trace := Then(m, RaiseItem, [], t);
    trace := Then(s, a, trace, t);
    assert trace == [a, RaiseItem];
  }

  /** Deaths, start failures and timers of another generation, or out of turn, change
      nothing; neither do deaths and timers while a backend switch holds the recovery. */
  lemma StaleEventsChangeNothing(s: Sup, a: Action)
    requires Enabled(s, a) && Located(s)
    requires || (a.Died? && (a.held || s.watch.None? || a.dead != s.watch.value.generation || !s.watch.value.state.Up?))
             || (a.RestartDue? && (a.held || s.watch.None? || a.due != s.watch.value.generation
                                   || !s.watch.value.state.Restarting?))
             || (a.LaunchRejected? && (s.watch.None? || a.rejected != s.watch.value.generation
                                       || !s.watch.value.state.Up?))
    ensures Apply(s, a) == s
  {
  }

  /** Queued retries are carried out in the order of their resolves, one at a time. */
  lemma RetriesAreTakenInOrder(s: Sup)
    requires Enabled(s, TakeRetry) && Located(s)
    ensures var t := Apply(s, TakeRetry); t.pc.Retrying? && [t.pc.item] + t.retries == s.retries && t.log == s.log
  {
  }

  /** A death or a timer of an instance that is no longer in the database ends its watch. */
  lemma WithoutARowTheWatchEnds(s: Sup, a: Action)
    requires Enabled(s, a) && Located(s) && s.row.None?
    requires (a.Died? && !a.held && CanDie(s, a.dead))
             || (a.RestartDue? && !a.held && a.stopped && s.watch.Some? && s.watch.value.state.Restarting?
                 && s.watch.value.generation == a.due)
    ensures Apply(s, a) == s.(watch := None)
  {
  }

  /** A removed instance is gone: until one is added again nothing is launched. */
  lemma {:induction false} RemovedIsNeverLaunched(s: Sup, trace: seq<Action>, t: Sup)
    requires s.row.None? && Runs(Anything, s, trace, t)
    requires forall i :: 0 <= i < |trace| ==> !trace[i].Add?
    ensures t.row.None? && t.log == s.log && t.autoStarts == s.autoStarts
    decreases |trace|
  {
    if trace != [] {
      assert !trace[0].Add?;
      RemovedIsNeverLaunched(Apply(s, trace[0]), trace[1..], t);
    }
  }

  /** Removing takes the row, the watch and the item away. */
  lemma RemoveForgets(before: seq<Action>, s: Sup)
    requires Runs(Anything, Initial, before, s) && Enabled(s, Remove)
    ensures var t := Apply(s, Remove); t.row.None? && t.watch.None? && t.item.None? && t.retries == s.retries
  {
  }

  // ---- the restart budget over a run ----------------------------------------------

  ghost function Window(granted: seq<nat>, now: nat): nat
  {
    Count(granted, now - RESTART_WINDOW_MS + 1, now + 1)
  }

  /** The kept times of a watch are what is left of all its grants, and a pending restart
      carries the number of grants of the window it was granted in. */
  ghost predicate GrantsOk(w: Watch, clock: nat)
  {
    && RestartBudget.Sorted(w.granted) && Spaced(w.granted) && UpTo(w.granted, clock)
    && w.budget == Retained(w.granted, clock)
    && (w.state.Restarting? ==> w.granted != [] && w.state.n == Window(w.granted, w.granted[|w.granted| - 1]))
  }

  ghost predicate GrantInv(s: Sup) { s.watch.Some? ==> GrantsOk(s.watch.value, s.clock) }

  /** What a death asks of the budget: a grant keeps every window at three and returns the
      count of the window, a refusal means the window holds three. */
  lemma DeathsAskTheBudget(granted: seq<nat>, earlier: nat, now: nat)
    requires RestartBudget.Sorted(granted) && Spaced(granted) && UpTo(granted, earlier) && earlier <= now
    ensures var (kept, n) := BudgetNext(Retained(granted, earlier), now);
            if n.Some?
            then && n.value == Window(granted, now) + 1 == Window(granted + [now], now) <= MAX_RESTARTS
                 && RestartBudget.Sorted(granted + [now]) && Spaced(granted + [now]) && UpTo(granted + [now], now)
                 && kept == Retained(granted + [now], now)
            else Window(granted, now) == MAX_RESTARTS && kept == Retained(granted, now) && UpTo(granted, now)
  {
    RetainTwice(granted, earlier, now);
    RetainedCounts(granted, now);
    EveryWindowHoldsAtMostThree(granted, now - RESTART_WINDOW_MS + 1);
    GrantIsCounted(granted, now);
    if |Retained(granted, now)| < MAX_RESTARTS {
      GrantKeepsSpacing(granted, now);
    }
  }

  lemma FreshWatchIsOk(w: Watch, clock: nat)
    requires w.budget == [] && w.granted == [] && w.state.Up?
    ensures GrantsOk(w, clock)
  {
  }

  /** Besides a death, an action begins a watch, ends one or changes only its position. */
  lemma OthersGrantNothing(s: Sup, a: Action)
    requires Located(s) && Enabled(s, a) && !a.Died?
    ensures var t := Apply(s, a);
            && t.clock == s.clock
            && (t.watch.Some? ==>
                  || (t.watch.value.budget == [] && t.watch.value.granted == [] && t.watch.value.state.Up?)
                  || (s.watch.Some? && t.watch.value.budget == s.watch.value.budget
                      && t.watch.value.granted == s.watch.value.granted
                      && (t.watch.value.state.Restarting? ==> t.watch.value.state == s.watch.value.state)))
  {
  }

  lemma DeathKeepsGrantInv(s: Sup, a: Action)
    requires GrantInv(s) && Located(s) && Enabled(s, a) && a.Died? && s.clock <= a.now
    ensures GrantInv(Apply(s, a))
  {
    hide Retained, Count, RestartBudget.Sorted, Spaced, UpTo, SessionArgs;
    if s.watch.Some? {
      DeathsAskTheBudget(s.watch.value.granted, s.clock, a.now);
    }
    hide BudgetNext;
  }

  lemma StepKeepsGrantInv(s: Sup, a: Action)
    requires GrantInv(s) && Located(s) && Enabled(s, a) && Obeys(ForwardClock, s, a)
    ensures GrantInv(Apply(s, a))
  {
    if a.Died? {
      DeathKeepsGrantInv(s, a);
    } else {
      OthersGrantNothing(s, a);
      var t := Apply(s, a);
      if t.watch.Some? && t.watch.value.granted == [] && t.watch.value.budget == [] && t.watch.value.state.Up? {
        FreshWatchIsOk(t.watch.value, t.clock);
      }
      hide Apply;
    }
  }

  lemma {:induction false} RunKeepsGrantInv(s: Sup, trace: seq<Action>, t: Sup)
    requires GrantInv(s) && Runs(ForwardClock, s, trace, t)
    ensures GrantInv(t)
    decreases |trace|
  {
    if trace != [] {
      StepKeepsGrantInv(s, trace[0]);
      RunKeepsGrantInv(Apply(s, trace[0]), trace[1..], t);
    }
  }

  /** What begins a new budget: a removal, a stop of the daemon, or an operator's retry. */
  predicate BeginsAnew(a: Action) { a.Remove? || a.Crash? || a.RetryGoes? }

  /** Until then a watch keeps its grants and its budget, and every grant of the supervisor is
      one of the watch: no restart, reconnect or start forgets any. */
  lemma {:induction false} GrantsAddUp(s: Sup, trace: seq<Action>, t: Sup)
    requires Runs(Anything, s, trace, t) && s.watch.Some? && s.row.Some?
    requires forall i :: 0 <= i < |trace| ==> !BeginsAnew(trace[i])
    ensures t.watch.Some? && t.row.Some? && s.watch.value.granted <= t.watch.value.granted
    ensures |t.watch.value.granted| - |s.watch.value.granted| == t.grants - s.grants
    decreases |trace|
  {
    if trace != [] {
      GrantAddsUp(s, trace[0]);
      GrantsAddUp(Apply(s, trace[0]), trace[1..], t);
    }
  }

  lemma GrantAddsUp(s: Sup, a: Action)
    requires Enabled(s, a) && Located(s) && s.watch.Some? && s.row.Some? && !BeginsAnew(a)
    ensures var t := Apply(s, a);
            && t.watch.Some? && t.row.Some?
            && s.watch.value.granted <= t.watch.value.granted
    ensures var t := Apply(s, a);
            |t.watch.value.granted| - |s.watch.value.granted| == t.grants - s.grants
  {
    hide SessionArgs, BudgetNext;
  }

  /** Over every run whose clock does not go back, any ten minutes hold at most three
      restarts granted by one watch, and a pending restart is numbered by its window. */
  lemma EveryWindowOfAWatchHoldsAtMostThree(trace: seq<Action>, t: Sup, start: int)
    requires Runs(ForwardClock, Initial, trace, t) && t.watch.Some?
    ensures Count(t.watch.value.granted, start, start + RESTART_WINDOW_MS) <= MAX_RESTARTS
    ensures t.watch.value.state.Restarting? ==>
              var g := t.watch.value.granted;
              g != [] && t.watch.value.state.n == Window(g, g[|g| - 1]) <= MAX_RESTARTS
  {
    RunKeepsGrantInv(Initial, trace, t);
    var g := t.watch.value.granted;
    EveryWindowHoldsAtMostThree(g, start);
    if g != [] {
      EveryWindowHoldsAtMostThree(g, g[|g| - 1] - RESTART_WINDOW_MS + 1);
    }
  }

  /** The death of a watched, resumable instance is answered by a restart if and only if
      its window holds fewer than three grants of the watch; otherwise it holds exactly
      three and the instance fails. */
  lemma DeathIsGrantedIff(trace: seq<Action>, s: Sup, dead: nat, now: nat)
    requires Runs(ForwardClock, Initial, trace, s) && s.clock <= now
    requires Enabled(s, Died(dead, false, now)) && CanDie(s, dead) && s.row.Some?
    requires s.row.value.status.Running? ==> SessionArgs(s.row.value, true).Fine?
    ensures var t := Apply(s, Died(dead, false, now));
            var before := Window(s.watch.value.granted, now);
            && t.watch.Some?
            && (t.watch.value.state.Restarting? <==> before < MAX_RESTARTS)
            && (t.watch.value.state.Restarting? ==>
                  t.watch.value.state.n == before + 1 && t.watch.value.granted == s.watch.value.granted + [now])
            && (IsFailed(t) <==> before == MAX_RESTARTS)
  {
    RunKeepsGrantInv(Initial, trace, s);
    RunKeepsInv(ForwardClock, Initial, trace, s);
    DeathsAskTheBudget(s.watch.value.granted, s.clock, now);
  }

  // ---- exactly one retry --------------------------------------------------------

  /** A failed instance has exactly one promise, any other none. */
  ghost predicate ExactInv(s: Sup)
  {
    && (s.up && s.row.Some? ==> Tokens(s) == if IsFailed(s) then 1 else 0)
    && (!s.up ==> Clean(s))
  }

  lemma StepKeepsExact(s: Sup, a: Action)
    requires RowInv(s) && FailedInv(s) && ExactInv(s) && Enabled(s, a) && Obeys(CleanAdds, s, a)
    ensures ExactInv(Apply(s, a))
  {
    hide Apply, RowInv, FailedInv, ExactInv;
    if Launches(a) {
      LaunchKeepsExact(s, a);
    } else {
      EventKeepsExact(s, a);
    }
  }

  lemma LaunchKeepsExact(s: Sup, a: Action)
    requires RowInv(s) && FailedInv(s) && ExactInv(s) && Enabled(s, a) && Launches(a)
    ensures ExactInv(Apply(s, a))
  {
  }

  lemma EventKeepsExact(s: Sup, a: Action)
    requires RowInv(s) && FailedInv(s) && ExactInv(s) && Enabled(s, a) && Obeys(CleanAdds, s, a) && !Launches(a)
    ensures ExactInv(Apply(s, a))
  {
    hide SessionArgs, BudgetNext;
  }

  lemma {:induction false} RunKeepsExact(s: Sup, trace: seq<Action>, t: Sup)
    requires SessionInv(s) && FailedInv(s) && ExactInv(s) && Runs(CleanAdds, s, trace, t)
    ensures ExactInv(t) && FailedInv(t)
    decreases |trace|
  {
    if trace != [] {
      StepKeepsSessionInv(s, trace[0]);
      StepKeepsFailedInv(s, trace[0]);
      StepKeepsExact(s, trace[0]);
      RunKeepsExact(Apply(s, trace[0]), trace[1..], t);
    }
  }

  /** The promise: a failed instance whose item is not just being raised is listed, or has
      exactly one retry queued or in progress, never both and never two. */
  ghost predicate ListedOrOneRetry(t: Sup)
  {
    t.up && IsFailed(t) && !t.pc.Failing? ==>
      if t.item.Some? then t.retries == [] && !t.pc.Retrying?
      else (|t.retries| == 1 && !t.pc.Retrying?) || (t.retries == [] && t.pc.Retrying?)
  }

  lemma ListedOrExactlyOneRetry(trace: seq<Action>, t: Sup)
    requires Runs(CleanAdds, Initial, trace, t)
    ensures ListedOrOneRetry(t)
  {
    RunKeepsExact(Initial, trace, t);
  }

  /** An item listed without a row, queued or being retried offers the retry. */
  ghost predicate RetryInv(s: Sup)
  {
    && (s.row.None? && s.item.Some? ==> s.item.value.retry)
    && (forall i :: 0 <= i < |s.retries| ==> s.retries[i].retry)
    && (s.pc.Retrying? ==> s.pc.item.retry)
  }

  lemma StepKeepsRetryInv(s: Sup, a: Action)
    requires RetryInv(s) && Located(s) && Enabled(s, a)
    ensures RetryInv(Apply(s, a))
  {
    hide SessionArgs, BudgetNext;
  }

  lemma {:induction false} RunKeepsRetryInv(s: Sup, trace: seq<Action>, t: Sup)
    requires RetryInv(s) && Runs(Anything, s, trace, t)
    ensures RetryInv(t)
    decreases |trace|
  {
    if trace != [] {
      StepKeepsRetryInv(s, trace[0]);
      RunKeepsRetryInv(Apply(s, trace[0]), trace[1..], t);
    }
  }

  ghost predicate Reaches(s: Sup, t: Sup) { exists trace :: Runs(CleanAdds, s, trace, t) }

  /** An instance added while something of its id is pending fails at once and is then
      listed with a retry queued. */
  lemma FailsWithTwoPromises(s: Sup) returns (trace: seq<Action>, t: Sup)
    requires s.up && s.pc.Starting? && s.row.Some? && (s.item.Some? ==> s.item.value.retry)
    requires s.item.Some? || s.retries != []
    ensures Runs(CleanAdds, s, trace, t) && !ListedOrOneRetry(t)
  {
    var m := if s.retries == [] then Apply(s, Resolve) else s;
    var n := Apply(m, StartRefused);
    t := Apply(n, RaiseItem);
    trace := ThenBy(CleanAdds, n, RaiseItem, [], t);
    trace := ThenBy(CleanAdds, m, StartRefused, trace, t);
    if s.retries == [] {
      trace := ThenBy(CleanAdds, s, Resolve, trace, t);
    }
  }

  /** Exactly when adding an instance is safe, from every state any run can reach: the
      promise holds in every later run, later instances being added cleanly, if and only
      if nothing of its id is listed or queued. */
  lemma AddIsSafeIff(before: seq<Action>, s: Sup, backend: Backend, session: string)
    requires Runs(Anything, Initial, before, s) && Enabled(s, Add(backend, session))
    ensures (forall t :: Reaches(Apply(s, Add(backend, session)), t) ==> ListedOrOneRetry(t)) <==> Clean(s)
  {
    RunKeepsInv(Anything, Initial, before, s);
    RunKeepsRetryInv(Initial, before, s);
    var a := Add(backend, session);
    var u := Apply(s, a);
    StepKeepsSessionInv(s, a);
    StepKeepsFailedInv(s, a);
    if Clean(s) {
      forall t | Reaches(u, t) ensures ListedOrOneRetry(t) {
        var trace :| Runs(CleanAdds, u, trace, t);
        RunKeepsExact(u, trace, t);
      }
    } else {
      var trace, t := FailsWithTwoPromises(u);
      assert Reaches(u, t);
    }
  }

  /** As coded it can break: an item is resolved, the instance removed and added again
      before the queued retry runs, and it fails again: listed with a retry queued. */
  lemma StaleRetrySurvivesReAdding() returns (trace: seq<Action>, t: Sup)
    ensures Runs(Anything, Initial, trace, t) && IsFailed(t) && t.item.Some? && t.retries != []
  {
    var add := Add(Codex, "");
    var a := Apply(Initial, Boot(false, false));
    var b := Apply(Apply(Apply(a, add), StartRefused), RaiseItem);
    var c := Apply(Apply(b, Resolve), Remove);
    t := Apply(Apply(Apply(c, add), StartRefused), RaiseItem);
    trace := FailOnce(c, t, [], t);
    trace := Then(Apply(b, Resolve), Remove, trace, t);
    trace := Then(b, Resolve, trace, t);
    trace := FailOnce(a, b, trace, t);
    trace := Then(Initial, Boot(false, false), trace, t);
  }

  lemma FailOnce(s: Sup, m: Sup, rest: seq<Action>, t: Sup) returns (trace: seq<Action>)
    requires s.up && s.pc.Idle? && s.row.None? && Runs(Anything, m, rest, t)
    requires m == Apply(Apply(Apply(s, Add(Codex, "")), StartRefused), RaiseItem)
    ensures Runs(Anything, s, trace, t)
  {
    var a := Apply(s, Add(Codex, ""));
    trace := Then(Apply(a, StartRefused), RaiseItem, rest, t);
    trace := Then(a, StartRefused, trace, t);
    trace := Then(s, Add(Codex, ""), trace, t);
  }

  lemma Then(s: Sup, a: Action, rest: seq<Action>, t: Sup) returns (trace: seq<Action>)
    requires Enabled(s, a) && Located(s) && Runs(Anything, Apply(s, a), rest, t)
    ensures trace == [a] + rest && Runs(Anything, s, trace, t)
  {
    trace := ThenBy(Anything, s, a, rest, t);
  }

  lemma ThenBy(rule: Rule, s: Sup, a: Action, rest: seq<Action>, t: Sup) returns (trace: seq<Action>)
    requires Enabled(s, a) && Located(s) && Obeys(rule, s, a) && Runs(rule, Apply(s, a), rest, t)
    ensures trace == [a] + rest && Runs(rule, s, trace, t)
  {
    trace := [a] + rest;
    assert trace[1..] == rest;
  }
}
