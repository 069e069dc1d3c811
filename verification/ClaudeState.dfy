/**
  The bridge's in-memory entry of one instance (`State` of
  crates/agend-daemon/src/claude_bridge.rs), changed field by field under the mutex. Each
  method is what one handler does while it holds the lock, and is proved to take the
  entry exactly where the bridge's interleaving machine says, with the same decision.
*/
module ClaudeState {
  import opened Common
  import opened ClaudeBridge
  import opened ClaudeReserve

  datatype Outcome =
    | NothingToDo
    | Deliver(route: Route, revision: nat, initial: bool)
    | TryInterrupt(revision: nat)

  /** The handler the machine keeps after its locked piece. */
  ghost predicate Matches(t: World, h: HandlerId, session: Session, o: Outcome)
  {
    match o
    case NothingToDo => h !in t.handlers
    case Deliver(route, revision, initial) =>
      h in t.handlers && t.handlers[h] == Decided(session, route, revision, initial, |t.events|)
    case TryInterrupt(revision) =>
      h in t.handlers && t.handlers[h] == Interrupting(session, revision, |t.events|)
  }

  class Entry {
    var session: Session
    var idle: Option<Candidate>
    var lastRouteHook: nat
    var revision: nat
    var busy: bool
    var initial: bool
    var ready: bool

    ghost function View(): State
      reads this
    {
      State(session, idle, lastRouteHook, revision, busy, initial, ready)
    }

    constructor (of: Session)
      ensures View() == State(of, None, 0, 0, false, false, false)
    {
      session, idle, lastRouteHook, revision := of, None, 0, 0;
      busy, initial, ready := false, false, false;
    }

    /** The entry found under the lock, replaced when it is another session's. */
    method Locate(of: Session, ghost w: World)
      requires w.state == Some(View())
      modifies this
      ensures Located(w, of).state == Some(View())
    {
      if session != of {
        session, idle, lastRouteHook, revision := of, None, 0, 0;
        busy, initial, ready := false, false, false;
      }
    }

    method Poll(of: Session, now: nat, ghost w: World, ghost h: HandlerId) returns (o: Outcome)
      requires w.state == Some(View()) && now == w.clock && h in w.handlers && IdleInv(w)
      ensures Matches(LockPiece(w, h, session, Operation.Poll(of)), h, session, o)
      ensures LockPiece(w, h, session, Operation.Poll(of)).state == w.state
    {
      if of != session {
        return NothingToDo;
      }
      if busy {
        return TryInterrupt(revision);
      }
      if idle.None? || now - idle.value.at < DEBOUNCE_MS {
        return NothingToDo;
      }
      return Deliver(Channel, revision, initial);
    }

    method RouteHook(event: HookEvent, occurred: nat, now: nat, observation: nat, ghost w: World, ghost h: HandlerId)
      returns (o: Outcome)
      requires w.state == Some(View()) && now == w.clock && observation == w.nextObservation && h in w.handlers
      modifies this
      ensures var t := LockHook(w, h, old(session), event, occurred);
              t.state == Some(View()) && Matches(t, h, old(session), o)
    {
      o := NothingToDo;
      if !event.Tool? {
        if occurred < lastRouteHook {
          return;
        }
        lastRouteHook := occurred;
        revision := revision + 1;
      }
      match event
      case UserPromptSubmit =>
        initial := false;
        idle := None;
        busy := true;
      case Tool =>
        revision := revision + 1;
      case SessionEnd =>
        initial := false;
        idle := None;
        busy := false;
      case SessionStart =>
        busy := false;
        initial := true;
        idle := None;
        ready := false;
      case StopHook(active) =>
        initial := false;
        match active {
          case None =>
            idle := None;
            busy := true;
          case Some(again) =>
            busy := false;
            idle := Some(Candidate(now, observation));
            if !again {
              o := Deliver(Stop, revision, initial);
            }
        }
    }

    /** A newer historical routing observation only invalidates. */
    method Replayed(from: Session, occurred: nat, ghost w: World)
      requires w.state == Some(View())
      modifies this
      ensures Apply(w, ReplayedHook(from, occurred)).state == Some(View())
    {
      if session == from && occurred >= lastRouteHook {
        idle := None;
        initial := false;
        ready := false;
        busy := false;
        lastRouteHook := occurred;
        revision := revision + 1;
      }
    }

    /** The startup screen was not ready: the candidate goes, unless the entry moved on. */
    method NotReadyAt(decided: nat, ghost w: World, ghost h: HandlerId)
      requires w.state == Some(View()) && Enabled(w, NotReady(h)) && decided == w.handlers[h].revision
      modifies this
      ensures Apply(w, NotReady(h)).state == Some(View())
    {
      if revision == decided {
        idle := None;
        ready := false;
      }
    }

    /** The second look at the entry, before anything is reserved. */
    method MayCommit(of: Session, decided: nat, route: Route, now: nat, ghost w: World, ghost d: Handler)
      returns (ok: bool)
      requires w.state == Some(View()) && now == w.clock && IdleInv(w)
      requires d.Decided? && (of, decided, route) == (d.session, d.revision, d.route)
      ensures ok <==> StillCurrent(w, d)
    {
      ok := !(session != of || revision != decided || idle.None?
              || (route.Channel? && now - idle.value.at < DEBOUNCE_MS));
    }

    /** What a finished reservation leaves behind. */
    method Committed(ms: seq<Msg>, ghost w: World, ghost a: Action)
      requires w.state == Some(View()) && a.Commit? && a.ms == ms && !a.failed
      requires Enabled(w, a) && StillCurrent(w, w.handlers[a.h])
      modifies this
      ensures Apply(w, a).state == Some(View())
    {
      initial := false;
      if ms != [] {
        idle := None;
        busy := true;
        revision := revision + 1;
      }
    }

    /** The same two steps for an interrupt; the revision reserved is compared once more
        after the key. */
    method ReserveKey(of: Session, decided: nat, found: Option<Msg>, ghost w: World, ghost h: HandlerId)
      returns (reserved: Option<nat>)
      requires w.state == Some(View()) && Enabled(w, ReserveInterrupt(h, found))
      requires (of, decided) == (w.handlers[h].session, w.handlers[h].revision)
      modifies this
      ensures var t := Apply(w, ReserveInterrupt(h, found));
              && t.state == Some(View())
              && (reserved.Some? <==> h in t.handlers)
              && (reserved.Some? ==>
                    && found.Some?
                    && t.handlers[h] == KeySent(of, found.value, w.nextDelivery, reserved.value, |t.events|))
    {
      if session != of || revision != decided || !busy || found.None? {
        return None;
      }
      revision := revision + 1;
      reserved := Some(revision);
    }
  }

  lemma {:induction false} Append(w: World, trace: seq<Action>, m: World, a: Action)
    requires Runs(Anything, w, trace, m) && Enabled(m, a)
    ensures Runs(Anything, w, trace + [a], Apply(m, a))
    decreases |trace|
  {
    if trace == [] {
      assert (trace + [a])[1..] == [];
    } else {
      Append(Apply(w, trace[0]), trace[1..], m, a);
      assert (trace + [a])[1..] == trace[1..] + [a];
    }
  }

  /** What the foreign calls of one request answer: the startup screen is ready, the holder
      screen can be typed into, a historical hook is replayed while the lock is released,
      and the reply reaches the helper. */
  datatype Surroundings = Surroundings(ready: bool, typable: bool, replay: Option<nat>, replied: bool)

  /** The bridge as the machine sees it. */
  ghost predicate Shows(w: World, entry: Entry, rows: Deliveries)
    reads entry, rows
  {
    w.state == Some(entry.View()) && w.store == rows.store && w.nextDelivery == rows.nextDelivery
  }

  /** The first piece of a request: enter, lock, find the entry, decide. */
  method FirstPiece(entry: Entry, session: Session, op: Operation, now: nat, observation: nat,
                    ghost w: World, ghost h: HandlerId)
    returns (o: Outcome, ghost trace: seq<Action>, ghost t: World)
    requires w.state == Some(entry.View()) && IdleInv(w) && h !in w.handlers && w.instance == Some(session)
    requires now == w.clock && observation == w.nextObservation
    modifies entry
    ensures trace == [Enter(h, op), Lock(h)] && Runs(Anything, w, trace, t)
    ensures t == Apply(Apply(w, Enter(h, op)), Lock(h)) && t.state == Some(entry.View())
    ensures Matches(t, h, session, o) && IdleInv(t)
    ensures t.store == w.store && t.nextDelivery == w.nextDelivery && t.handed == w.handed
    ensures t.clock == w.clock && t.instance == w.instance
  {
    hide IdleInv, LockHook;
    ghost var entered := Apply(w, Enter(h, op));
    ghost var located := Located(entered, session);
    entry.Locate(session, entered);
    StepKeepsIdleInv(w, Enter(h, op));
    match op {
      case Attach => o := NothingToDo;
      case Poll(of) => o := entry.Poll(of, now, located, h);
      case Hook(from, event, occurred) =>
        if from == session {
          o := entry.RouteHook(event, occurred, now, observation, located, h);
        } else {
          o := NothingToDo;
        }
    }
    trace, t := [Enter(h, op), Lock(h)], Apply(entered, Lock(h));
    Append(w, [], w, Enter(h, op));
    Append(w, [] + [Enter(h, op)], entered, Lock(h));
    assert [] + [Enter(h, op)] + [Lock(h)] == trace;
    StepKeepsIdleInv(entered, Lock(h));
    LockTouchesNoDelivery(located, h, session, op);
    LockPieceResetsNothing(located, h, session, op);
  }

  /** What was reserved: the messages meant for this route, in their order, and with nothing
      in the way all of them; none of it is delivered when a transaction failed. */
  ghost predicate Reserved(before: Store, route: Route, pending: seq<Message>, answer: Answers, at: seq<nat>,
                           pushes: seq<Msg>, failed: bool, messages: seq<Msg>)
  {
    && Picked(before, route, pending, answer, at, pushes)
    && messages == (if failed then [] else pushes)
    && (Unhindered(pending, answer) ==> !failed && NoneLeft(before, route, pending, pushes, false))
  }

  /** The last piece of a delivery: lock again, compare, reserve and commit. Nothing is
      reserved unless the comparison of the machine holds. */
  method LastPiece(entry: Entry, rows: Deliveries, session: Session, decided: Outcome, pending: seq<Message>,
                   answer: Answers, now: nat, replied: bool, ghost w: World, ghost h: HandlerId)
    returns (messages: seq<Msg>, ghost a: Action, ghost t: World, ghost pushes: seq<Msg>, ghost at: seq<nat>)
    requires Shows(w, entry, rows) && IdleInv(w) && now == w.clock && w.instance == Some(session)
    requires decided.Deliver? && StillDecided(w, h, session, decided) && UniqueIds(pending)
    modifies entry, rows
    ensures a.Commit? && a.h == h && a.replied == replied && Enabled(w, a) && t == Apply(w, a)
    ensures Shows(t, entry, rows) && t.handed == w.handed + (if replied then messages else []) && h !in t.handlers
    ensures messages != [] ==> Commits(w, a) && a.ms == messages && !a.failed
    ensures StillCurrent(w, w.handlers[h]) ==>
              a.ms == pushes
              && Reserved(old(rows.store), decided.route, pending, answer, at, pushes, a.failed, messages)
    ensures !StillCurrent(w, w.handlers[h]) ==> rows.store == old(rows.store) && messages == []
  {
    hide IdleInv, Startable, StartAll, IsBatch, Eligibles, UniqueIds, Picked, Unhindered, NoneLeft;
    var ok := entry.MayCommit(session, decided.revision, decided.route, now, w, w.handlers[h]);
    if !ok {
      a := Commit(h, [], false, replied);
      t := Apply(w, a);
      return [], a, t, [], [];
    }
    ghost var considered;
    var started, failed;
    started, failed, considered, at := rows.Reserve(pending, decided.route, false, answer);
    pushes := started;
    a := Commit(h, started, failed, replied);
    t := Apply(w, a);
    messages := if failed then [] else started;
    if !failed {
      entry.Committed(started, w, a);
    }
  }

  /** Handler `h` still has this decision, however many events happened since. */
  ghost predicate StillDecided(w: World, h: HandlerId, session: Session, o: Outcome)
    requires o.Deliver?
  {
    h in w.handlers && w.handlers[h].Decided? && w.handlers[h].session == session
    && w.handlers[h].route == o.route && w.handlers[h].revision == o.revision && w.handlers[h].initial == o.initial
  }

  /** What ends a request without a delivery, or happens while it waits for the screen. */
  lemma StepsBetween(w: World, a: Action, h: HandlerId)
    requires Enabled(w, a) && (a == Give(h) || a == NotReady(h) || a.ReplayedHook?)
    ensures var t := Apply(w, a);
            && t.store == w.store && t.nextDelivery == w.nextDelivery && t.handed == w.handed
            && t.clock == w.clock && t.instance == w.instance
            && (a.Give? ==> t.state == w.state)
            && (if a.ReplayedHook? then t.handlers == w.handlers else h !in t.handlers)
  {
  }

  /** The request is one to answer with messages: a poll of an idle session after five
      seconds, or a Stop hook that is no continuation and not older than the last hook. */
  ghost predicate Decides(st: State, session: Session, op: Operation, now: nat)
  {
    match op
    case Attach => false
    case Poll(of) =>
      of == session && st.session == session && !st.busy && st.idle.Some? && now - st.idle.value.at >= DEBOUNCE_MS
    case Hook(from, event, occurred) =>
      && from == session && event == StopHook(Some(false))
      && (st.session == session ==> st.lastRouteHook <= occurred)
  }

  /** And nothing comes in between: the screens are right and no newer hook is replayed. */
  ghost predicate Due(st: State, session: Session, op: Operation, now: nat, around: Surroundings)
  {
    && Decides(st, session, op, now) && around.typable
    && (op.Poll? && st.initial ==> around.ready)
    && (around.replay.Some? ==> around.replay.value < if op.Hook? then op.occurred else st.lastRouteHook)
  }

  lemma DecisionIs(w: World, h: HandlerId, session: Session, op: Operation)
    requires w.state.Some? && h !in w.handlers && w.instance == Some(session)
    ensures var st, t := w.state.value, Apply(Apply(w, Enter(h, op)), Lock(h));
            && (h in t.handlers && t.handlers[h].Decided? <==> Decides(st, session, op, w.clock))
            && (Decides(st, session, op, w.clock) ==>
                  var d := t.handlers[h];
                  && StillCurrent(t, d) && d.initial == (op.Poll? && st.initial)
                  && d.route == (if op.Poll? then Channel else Stop)
                  && t.state.Some? && t.state.value.lastRouteHook == if op.Hook? then op.occurred else st.lastRouteHook)
  {
  }

  /** A newer hook replayed in between makes the decision stale, an older one does not. */
  lemma ReplayMakesStale(w: World, session: Session, occurred: nat, d: Handler)
    requires d.Decided? && StillCurrent(w, d) && d.session == session
    ensures StillCurrent(Apply(w, ReplayedHook(session, occurred)), d) <==> occurred < w.state.value.lastRouteHook
  {
  }

  /** A whole poll or hook while no other handler moves: in place it does what the pieces
      of the machine do one after the other, with a historical hook replayed in between
      if there is one, and its content leaves only in a reply that is delivered. It
      reserves exactly when it is due, and then what the route is for. */
  method Handle(entry: Entry, rows: Deliveries, session: Session, op: Operation, pending: seq<Message>,
                answer: Answers, now: nat, observation: nat, around: Surroundings,
                ghost w: World, ghost h: HandlerId)
    returns (messages: seq<Msg>, ghost trace: seq<Action>, ghost t: World,
             ghost pushes: seq<Msg>, ghost at: seq<nat>, ghost failed: bool)
    requires Shows(w, entry, rows) && IdleInv(w) && h !in w.handlers && w.instance == Some(session)
    requires now == w.clock && observation == w.nextObservation && UniqueIds(pending)
    modifies entry, rows
    ensures Runs(Anything, w, trace, t) && Shows(t, entry, rows) && h !in t.handlers
    ensures t.handed == w.handed + (if around.replied then messages else [])
    ensures old(Due(entry.View(), session, op, now, around)) ==>
              Reserved(old(rows.store), if op.Poll? then Channel else Stop, pending, answer, at, pushes, failed,
                       messages)
    ensures !old(Due(entry.View(), session, op, now, around)) ==> rows.store == old(rows.store) && messages == []
  {
    hide IdleInv, Apply, Runs, StillCurrent, CanReserve, Reserved;
    messages, pushes, at, failed := [], [], [], false;
    var o;
    DecisionIs(w, h, session, op);
    o, trace, t := FirstPiece(entry, session, op, now, observation, w, h);
    ghost var last: Action;
    if o.NothingToDo? {
      return;
    } else if o.TryInterrupt? {
      last := Give(h);
      StepsBetween(t, last, h);
    } else if o.initial && !around.ready {
      last := NotReady(h);
      entry.NotReadyAt(o.revision, t, h);
      StepsBetween(t, last, h);
    } else {
      if around.replay.Some? {
        last := ReplayedHook(session, around.replay.value);
        entry.Replayed(session, around.replay.value, t);
        StepKeepsIdleInv(t, last);
        StepsBetween(t, last, h);
        ReplayMakesStale(t, session, around.replay.value, t.handlers[h]);
        Append(w, trace, t, last);
        trace, t := trace + [last], Apply(t, last);
      }
      if around.typable {
        ghost var next;
        messages, last, next, pushes, at :=
          LastPiece(entry, rows, session, o, pending, answer, now, around.replied, t, h);
        failed := last.failed;
      } else {
        last := Give(h);
        StepsBetween(t, last, h);
      }
    }
    Append(w, trace, t, last);
    trace, t := trace + [last], Apply(t, last);
  }
}
