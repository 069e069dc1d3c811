/**
  The two-phase Claude delivery bridge (crates/agend-daemon/src/claude_bridge.rs) of one
  instance, with the delivery rows behind it (crates/agend-daemon/src/store/claude.rs).

  A handler decides under the mutex, releases it to look at the screen, locks again,
  compares session and revision, and only then commits a durable reservation. Every piece
  between two lock releases is one atomic action; the pieces of any number of handlers
  interleave freely, replies get lost, and the daemon may stop at any point.
*/
module ClaudeBridge {
  import opened Common

  type Session = nat          // session ids are never used again
  type Msg = nat
  type HandlerId = nat

  const DEBOUNCE_MS: nat := 5000

  // ---- durable delivery rows ----------------------------------------------------

  /** `attempt` is the delivery id of a started attempt, `attempted` the mark on the message. */
  datatype Delivery = Delivery(
    attempt: Option<nat>, attempted: bool, sent: bool, confirmed: bool, abandoned: bool)

  const Queued := Delivery(None, false, false, false, false)

  /** `may_start` */
  predicate MayStart(d: Delivery)
  {
    d.attempt.None? && !d.attempted && !d.sent && !d.confirmed && !d.abandoned
  }

  type Store = map<Msg, Delivery>

  predicate Distinct<T(==)>(xs: seq<T>) { forall i, j :: 0 <= i < j < |xs| ==> xs[i] != xs[j] }

  predicate Startable(store: Store, ms: seq<Msg>)
  {
    Distinct(ms) && forall m <- ms :: m in store && MayStart(store[m])
  }

  lemma StartableButTheLast(store: Store, ms: seq<Msg>)
    requires Startable(store, ms) && ms != []
    ensures var n := |ms| - 1;
            && Startable(store, ms[..n]) && ms[n] !in ms[..n] && ms[n] in store
            && forall m :: m in ms <==> m in ms[..n] || m == ms[n]
  {
    var n := |ms| - 1;
    assert ms == ms[..n] + [ms[n]];
  }

  /** `reserve_claude_delivery` for each message in turn, with new delivery ids. */
  function StartAll(store: Store, ms: seq<Msg>, first: nat): (r: Store)
    requires Startable(store, ms)
    ensures r.Keys == store.Keys
    ensures forall m <- store :: m !in ms ==> r[m] == store[m]
    ensures forall k :: 0 <= k < |ms| ==> r[ms[k]] == store[ms[k]].(attempt := Some(first + k), attempted := true)
    decreases |ms|
  {
    if ms == [] then store
    else
      var n := |ms| - 1;
      StartableButTheLast(store, ms);
      var r := StartAll(store, ms[..n], first);
      r[ms[n] := store[ms[n]].(attempt := Some(first + n), attempted := true)]
  }

  // ---- the in-memory state ------------------------------------------------------

  /** An idle candidate: when it was observed, and which observation it was. */
  datatype Candidate = Candidate(at: nat, observation: nat)

  datatype State = State(
    session: Session, idle: Option<Candidate>, lastRouteHook: nat, revision: nat,
    busy: bool, initial: bool, ready: bool)

  datatype Route = Channel | Stop

  datatype HookEvent = SessionStart | UserPromptSubmit | SessionEnd | StopHook(active: Option<bool>) | Tool

  datatype Operation = Attach | Poll(of: Session) | Hook(from: Session, event: HookEvent, occurred: nat)

  /** A handler between two pieces. `at` is how many events had happened at its decision. */
  datatype Handler =
    | Entered(session: Session, op: Operation)               // read the instance row, not locked yet
    | Decided(session: Session, route: Route, revision: nat, initial: bool, at: nat)
    | Interrupting(session: Session, revision: nat, at: nat) // a poll that found the session busy
    | KeySent(session: Session, message: Msg, delivery: nat, reserved: nat, at: nat)

  /** What can invalidate a decision; `Reset` replaces the state by one for another session. */
  datatype Event =
    | RouteHook(session: Session) | ToolHook(session: Session) | Historical(session: Session)
    | Batch(session: Session) | InterruptBatch(session: Session) | Reset(session: Session)

  /** What the state of the current session went through; a hook or a screen notes when it
      came and which observation it was. */
  datatype Mark =
    | Replaced                                               // begun anew for a session
    | Hooked(event: HookEvent, occurred: nat, at: nat, observation: nat)   // a live routing hook
    | Replayed(occurred: nat)                                // a historical one
    | Committed(nonEmpty: bool)                              // a reservation went through
    | Screen(ready: bool, at: nat, observation: nat)         // the startup observer
    | Unready                                                // the startup check of a delivery

  /** A non-empty batch that was decided idle. */
  datatype Delivered = Delivered(route: Route, candidate: Candidate, committed: nat)

  datatype World = World(
    instance: Option<Session>,       // the session of the running instance row
    nextSession: Session,
    state: Option<State>,
    clock: nat,
    handlers: map<HandlerId, Handler>,
    store: Store, nextDelivery: nat, nextObservation: nat,
    events: seq<Event>,
    batches: seq<Delivered>,
    handed: seq<Msg>,                // content that left in a reply, lost or not
    marks: seq<Mark>)

  const Initial := World(None, 0, None, 0, map[], map[], 0, 0, [], [], [], [])

  datatype Action =
    | Tick(elapsed: nat)
    | NewSession | InstanceGone | NewMessage(m: Msg)
    | Enter(h: HandlerId, op: Operation)
    | Lock(h: HandlerId)                                     // up to the first release
    | ReplayedHook(from: Session, occurred: nat)             // a historical routing observation
    | NotReady(h: HandlerId)                                 // the startup screen is not ready
    | Give(h: HandlerId)                                     // a screen, time-out or error ends it
    | Commit(h: HandlerId, ms: seq<Msg>, failed: bool, replied: bool)
    | ReserveInterrupt(h: HandlerId, found: Option<Msg>)
    | KeyRefused(h: HandlerId) | KeyUnknown(h: HandlerId) | KeyDone(h: HandlerId)
    | Written(m: Msg) | Acknowledged(m: Msg) | Abandoned(m: Msg)
    | StartupSeen(ready: bool)                               // the startup observer's candidate
    | Crash

  function End(w: World, h: HandlerId): World { w.(handlers := w.handlers - {h}) }

  function Happens(w: World, st: State, e: Event): World
  {
    w.(state := Some(st.(revision := st.revision + 1)), events := w.events + [e])
  }

  /** The state a handler finds under the lock, replaced when it is another session's. */
  function Located(w: World, session: Session): World
  {
    if w.state.Some? && w.state.value.session == session then w
    else w.(state := Some(State(session, None, 0, 0, false, false, false)),
            events := w.events + [Reset(session)], marks := w.marks + [Replaced])
  }

  function Marked(w: World, m: Mark): World { w.(marks := w.marks + [m]) }

  function Observe(w: World): World { w.(nextObservation := w.nextObservation + 1) }

  /** The locked piece of a live hook. */
  function LockHook(w: World, h: HandlerId, session: Session, event: HookEvent, occurred: nat): World
    requires w.state.Some?
  {
    var st := w.state.value;
    if event.Tool? then End(Happens(w, st, ToolHook(session)), h)
    else if occurred < st.lastRouteHook then End(w, h)
    else
      var s := st.(lastRouteHook := occurred);
      var e := RouteHook(session);
      var n := Marked(w, Hooked(event, occurred, w.clock, w.nextObservation));
      var idle := Some(Candidate(w.clock, w.nextObservation));
      match event
      case UserPromptSubmit => End(Happens(n, s.(initial := false, idle := None, busy := true), e), h)
      case SessionEnd => End(Happens(n, s.(initial := false, idle := None, busy := false), e), h)
      case SessionStart =>
        End(Happens(n, s.(busy := false, initial := true, idle := None, ready := false), e), h)
      case StopHook(None) => End(Happens(n, s.(initial := false, idle := None, busy := true), e), h)
      case StopHook(Some(true)) =>
        End(Happens(Observe(n), s.(initial := false, busy := false, idle := idle), e), h)
      case StopHook(Some(false)) =>
        var t := Happens(Observe(n), s.(initial := false, busy := false, idle := idle), e);
        t.(handlers := t.handlers[h := Decided(session, Stop, s.revision + 1, false, |t.events|)])
  }

  /** The locked piece of `execute`. */
  function LockPiece(w: World, h: HandlerId, session: Session, op: Operation): World
    requires w.state.Some?
  {
    var st := w.state.value;
    match op
    case Attach => End(w, h)
    case Poll(of) =>
      if of != session then End(w, h)
      else if st.busy then w.(handlers := w.handlers[h := Interrupting(session, st.revision, |w.events|)])
      else if st.idle.None? || w.clock - st.idle.value.at < DEBOUNCE_MS then End(w, h)
      else w.(handlers := w.handlers[h := Decided(session, Channel, st.revision, st.initial, |w.events|)])
    case Hook(from, event, occurred) =>
      if from != session then End(w, h) else LockHook(w, h, session, event, occurred)
  }

  /** The comparison before any reservation commits. */
  predicate StillCurrent(w: World, d: Handler)
    requires d.Decided?
  {
    && w.state.Some?
    && var st := w.state.value;
       st.session == d.session && st.revision == d.revision && st.idle.Some?
       && (d.route.Channel? ==> w.clock - st.idle.value.at >= DEBOUNCE_MS)
  }

  /** `reserve` runs its transactions against the instance row of this session. */
  predicate CanReserve(w: World, session: Session, ms: seq<Msg>)
  {
    Startable(w.store, ms) && (ms != [] ==> w.instance == Some(session))
  }

  predicate StillBusy(w: World, i: Handler)
    requires i.Interrupting?
  {
    w.state.Some? && w.state.value.session == i.session
    && w.state.value.revision == i.revision && w.state.value.busy
  }

  predicate Enabled(w: World, a: Action)
  {
    match a
    case Enter(h, _) => h !in w.handlers && w.instance.Some?
    case Lock(h) => h in w.handlers && w.handlers[h].Entered?
    case NotReady(h) => h in w.handlers && w.handlers[h].Decided? && w.handlers[h].initial
    case Give(h) => h in w.handlers && !w.handlers[h].KeySent?
    case Commit(h, ms, _, _) =>
      h in w.handlers && w.handlers[h].Decided?
      && (StillCurrent(w, w.handlers[h]) ==> CanReserve(w, w.handlers[h].session, ms))
    case ReserveInterrupt(h, found) =>
      h in w.handlers && w.handlers[h].Interrupting?
      && (StillBusy(w, w.handlers[h]) && found.Some? ==> CanReserve(w, w.handlers[h].session, [found.value]))
    case KeyRefused(h) => h in w.handlers && w.handlers[h].KeySent?
    case KeyUnknown(h) => h in w.handlers && w.handlers[h].KeySent?
    case KeyDone(h) => h in w.handlers && w.handlers[h].KeySent?
    case NewMessage(m) => m !in w.store
    case Written(m) => m in w.store && w.store[m].attempt.Some? && !w.store[m].abandoned
    case Acknowledged(m) => m in w.store && w.store[m].attempt.Some? && !w.store[m].abandoned
    case Abandoned(m) => m in w.store && !w.store[m].confirmed
    case StartupSeen(_) => w.state.Some? && w.state.value.initial && !w.state.value.busy
    case _ => true
  }

  /** `release_refused_claude_key` undoes only a reservation nothing was sent for. */
  predicate CanRelease(store: Store, m: Msg, delivery: nat)
  {
    m in store && store[m].attempt == Some(delivery)
    && !store[m].sent && !store[m].confirmed && !store[m].abandoned
  }

  function Apply(w: World, a: Action): World
    requires Enabled(w, a)
  {
    match a
    case Tick(ms) => w.(clock := w.clock + ms)
    case NewSession => w.(instance := Some(w.nextSession), nextSession := w.nextSession + 1)
    case InstanceGone => w.(instance := None)
    case NewMessage(m) => w.(store := w.store[m := Queued])
    case Enter(h, op) => w.(handlers := w.handlers[h := Entered(w.instance.value, op)])
    case Lock(h) => LockPiece(Located(w, w.handlers[h].session), h, w.handlers[h].session, w.handlers[h].op)
    case ReplayedHook(from, occurred) =>
      if w.state.None? || w.state.value.session != from || occurred < w.state.value.lastRouteHook then w
      else Happens(Marked(w, Replayed(occurred)),
                   w.state.value.(idle := None, initial := false, ready := false, busy := false,
                                  lastRouteHook := occurred), Historical(from))
    case NotReady(h) =>
      var t := End(w, h);
      if t.state.Some? && t.state.value.revision == w.handlers[h].revision
      then Marked(t.(state := Some(t.state.value.(idle := None, ready := false))), Unready) else t
    case Give(h) => End(w, h)
    case Commit(h, ms, failed, replied) =>
      var d := w.handlers[h];
      if !StillCurrent(w, d) then End(w, h)
      else
        var st := w.state.value;
        var t := End(w.(store := StartAll(w.store, ms, w.nextDelivery), nextDelivery := w.nextDelivery + |ms|), h);
        // An error inside `reserve` leaves its reservations and ends the request.
        if failed then t
        else if ms == [] then Marked(t.(state := Some(st.(initial := false))), Committed(false))
        else
          Happens(Marked(t, Committed(true)).(batches := t.batches + [Delivered(d.route, st.idle.value, w.clock)],
                     handed := if replied then t.handed + ms else t.handed),
                  st.(initial := false, idle := None, busy := true), Batch(d.session))
    case ReserveInterrupt(h, found) =>
      var i := w.handlers[h];
      if !StillBusy(w, i) || found.None? then End(w, h)
      else
        var st := w.state.value;
        var t := Happens(w.(store := StartAll(w.store, [found.value], w.nextDelivery),
                            nextDelivery := w.nextDelivery + 1), st, InterruptBatch(i.session));
        t.(handlers := t.handlers[h := KeySent(i.session, found.value, w.nextDelivery, st.revision + 1, |t.events|)])
    case KeyRefused(h) =>
      var k := w.handlers[h];
      var t := End(w, h);
      if CanRelease(w.store, k.message, k.delivery)
      then t.(store := t.store[k.message := t.store[k.message].(attempt := None, attempted := false)]) else t
    case KeyUnknown(h) => End(w, h)
    case KeyDone(h) =>
      var k := w.handlers[h];
      var t := End(w, h);
      if t.state.Some? && t.state.value.session == k.session && t.state.value.revision == k.reserved
      then t.(handed := t.handed + [k.message]) else t
    case Written(m) => w.(store := w.store[m := w.store[m].(sent := true)])
    case Acknowledged(m) => w.(store := w.store[m := w.store[m].(sent := true, confirmed := true)])
    case Abandoned(m) => w.(store := w.store[m := w.store[m].(abandoned := true)])
    case StartupSeen(ready) =>
      var st := w.state.value;
      var n := Marked(w, Screen(ready, w.clock, w.nextObservation));
      if ready
      then Observe(n).(state := Some(st.(idle := Some(Candidate(w.clock, w.nextObservation)), ready := true)))
      else n.(state := Some(st.(idle := None, ready := false)))
    case Crash => w.(state := None, handlers := map[])
  }

  /** Whether every handler still has the running instance's session when it locks. */
  datatype Rule = Anything | CurrentSessions

  predicate Obeys(rule: Rule, w: World, a: Action)
  {
    rule.CurrentSessions? && a.Lock? && a.h in w.handlers && w.handlers[a.h].Entered? ==>
      w.instance == Some(w.handlers[a.h].session)
  }

  ghost predicate Runs(rule: Rule, w: World, trace: seq<Action>, t: World)
    decreases |trace|
  {
    if trace == [] then w == t
    else Enabled(w, trace[0]) && Obeys(rule, w, trace[0]) && Runs(rule, Apply(w, trace[0]), trace[1..], t)
  }

  // ---- busy, idle and observations ----------------------------------------------

  /** Busy excludes idle; an idle candidate has not been used for a batch yet. */
  ghost predicate IdleInv(w: World)
  {
    && (w.state.Some? && w.state.value.busy ==> w.state.value.idle.None?)
    && (w.state.Some? && w.state.value.idle.Some? ==>
          var c := w.state.value.idle.value;
          c.at <= w.clock && c.observation < w.nextObservation && Unused(w.batches, c.observation))
    && (forall i :: 0 <= i < |w.batches| ==> w.batches[i].candidate.observation < w.nextObservation)
    && (forall i :: 0 <= i < |w.batches| ==> Debounced(w.batches[i]))
    && OnePerObservation(w.batches)
  }

  ghost predicate Unused(batches: seq<Delivered>, observation: nat)
  {
    forall i :: 0 <= i < |batches| ==> batches[i].candidate.observation != observation
  }

  predicate Debounced(b: Delivered)
  {
    b.candidate.at <= b.committed && (b.route.Channel? ==> b.committed - b.candidate.at >= DEBOUNCE_MS)
  }

  ghost predicate OnePerObservation(batches: seq<Delivered>)
  {
    forall i, j :: 0 <= i < j < |batches| ==>
      batches[i].candidate.observation != batches[j].candidate.observation
  }

  lemma StepKeepsIdleInv(w: World, a: Action)
    requires IdleInv(w) && Enabled(w, a)
    ensures IdleInv(Apply(w, a))
  {
    match a
    case Lock(h) =>
      var l := Located(w, w.handlers[h].session);
      assert IdleInv(l);
      LockKeepsIdleInv(l, h, w.handlers[h].session, w.handlers[h].op);
    case Commit(_, _, _, _) => CommitKeepsIdleInv(w, a);
    case _ =>
  }

  lemma LockKeepsIdleInv(w: World, h: HandlerId, session: Session, op: Operation)
    requires IdleInv(w) && w.state.Some?
    ensures IdleInv(LockPiece(w, h, session, op))
  {
    hide OnePerObservation, Debounced;
    if op.Hook? && op.from == session {
      HookKeepsIdleInv(w, h, session, op.event, op.occurred);
    }
    hide LockHook;
  }

  lemma HookKeepsIdleInv(w: World, h: HandlerId, session: Session, event: HookEvent, occurred: nat)
    requires IdleInv(w) && w.state.Some?
    ensures IdleInv(LockHook(w, h, session, event, occurred))
  {
    hide OnePerObservation, Debounced;
  }

  lemma CommitKeepsIdleInv(w: World, a: Action)
    requires IdleInv(w) && a.Commit? && Enabled(w, a)
    ensures IdleInv(Apply(w, a))
  {
    var t := Apply(w, a);
    assert t.batches == w.batches || (w.state.Some? && w.state.value.idle.Some?
             && t.batches == w.batches + [Delivered(w.handlers[a.h].route, w.state.value.idle.value, w.clock)]);
  }

  // ---- decisions ----------------------------------------------------------------

  ghost predicate HasReset(events: seq<Event>, at: nat)
  {
    exists k :: at <= k < |events| && events[k].Reset?
  }

  /** A decision made when `at` events had happened, at `revision` of `session`: unless the
      state was replaced since, the revision counts what happened since. */
  ghost predicate Counts(w: World, session: Session, revision: nat, at: nat)
  {
    && at <= |w.events|
    && (HasReset(w.events, at) ||
        (w.state.Some? && w.state.value.session == session
         && w.state.value.revision == revision + (|w.events| - at)))
  }

  ghost predicate DecisionOk(w: World, h: Handler)
  {
    && (h.Decided? || h.Interrupting? ==> Counts(w, h.session, h.revision, h.at))
    && (h.KeySent? ==> Counts(w, h.session, h.reserved, h.at))
  }

  ghost predicate DecisionInv(w: World) { forall h <- w.handlers :: DecisionOk(w, w.handlers[h]) }

  /** An action replaces the state, or every event it causes raises its revision by one. */
  ghost predicate Evolves(w: World, t: World)
  {
    && w.events <= t.events
    && (HasReset(t.events, |w.events|) || (w.state.Some? ==>
          t.state.Some? && t.state.value.session == w.state.value.session
          && t.state.value.revision == w.state.value.revision + (|t.events| - |w.events|)))
  }

  lemma CountingGoesOn(w: World, t: World, session: Session, revision: nat, at: nat)
    requires Evolves(w, t) && Counts(w, session, revision, at)
    ensures Counts(t, session, revision, at)
  {
    if HasReset(w.events, at) {
      var k :| at <= k < |w.events| && w.events[k].Reset?;
      assert t.events[k].Reset?;
    }
  }

  lemma LockEvolves(w: World, h: HandlerId, session: Session, op: Operation)
    requires w.state.Some?
    ensures Evolves(w, LockPiece(w, h, session, op))
  {
    if op.Hook? && op.from == session {
      HookEvolves(w, h, session, op.event, op.occurred);
    }
    hide LockHook;
  }

  lemma HookEvolves(w: World, h: HandlerId, session: Session, event: HookEvent, occurred: nat)
    requires w.state.Some?
    ensures Evolves(w, LockHook(w, h, session, event, occurred))
  {
  }

  lemma ActionEvolves(w: World, a: Action)
    requires Enabled(w, a) && !a.Crash?
    ensures Evolves(w, Apply(w, a))
  {
    match a
    case Lock(h) =>
      var session := w.handlers[h].session;
      var l := Located(w, session);
      LockEvolves(l, h, session, w.handlers[h].op);
      var t := Apply(w, a);
      if l != w {
        assert t.events[|w.events|] == Reset(session);
      }
    case _ =>
  }

  /** A handler is left alone, ends, or has just decided on the state as it is now. */
  lemma HandlersAfter(w: World, a: Action, h: HandlerId)
    requires Enabled(w, a) && h in Apply(w, a).handlers
    ensures var t := Apply(w, a);
            var k := t.handlers[h];
            (h in w.handlers && k == w.handlers[h]) || k.Entered?
            || (k.KeySent? && k.at == |t.events| && t.state.Some?
                && t.state.value.session == k.session && t.state.value.revision == k.reserved)
            || ((k.Decided? || k.Interrupting?) && k.at == |t.events| && t.state.Some?
                && t.state.value.session == k.session && t.state.value.revision == k.revision)
  {
    match a
    case Lock(g) => LockHandlers(Located(w, w.handlers[g].session), g, w.handlers[g].session, w.handlers[g].op, h);
    case _ =>
  }

  lemma LockHandlers(w: World, g: HandlerId, session: Session, op: Operation, h: HandlerId)
    requires w.state.Some? && w.state.value.session == session
    requires h in LockPiece(w, g, session, op).handlers
    ensures var t := LockPiece(w, g, session, op);
            var k := t.handlers[h];
            if h != g then h in w.handlers && k == w.handlers[h]
            else (k.Decided? || k.Interrupting?) && k.session == session && k.at == |t.events|
                 && t.state.Some? && t.state.value.session == session && t.state.value.revision == k.revision
  {
    if op.Hook? && op.from == session {
      HookHandlers(w, g, session, op.event, op.occurred, h);
    }
    hide LockHook;
  }

  lemma HookHandlers(w: World, g: HandlerId, session: Session, event: HookEvent, occurred: nat, h: HandlerId)
    requires w.state.Some? && w.state.value.session == session
    requires h in LockHook(w, g, session, event, occurred).handlers
    ensures var t := LockHook(w, g, session, event, occurred);
            var k := t.handlers[h];
            if h != g then h in w.handlers && k == w.handlers[h]
            else k.Decided? && k.session == session && k.at == |t.events|
                 && t.state.Some? && t.state.value.session == session && t.state.value.revision == k.revision
  {
  }

  lemma StepKeepsDecisionInv(w: World, a: Action)
    requires DecisionInv(w) && Enabled(w, a)
    ensures DecisionInv(Apply(w, a))
  {
    var t := Apply(w, a);
    if !a.Crash? {
      ActionEvolves(w, a);
      hide Apply;
      forall h | h in t.handlers ensures DecisionOk(t, t.handlers[h]) {
        HandlersAfter(w, a, h);
        var k := t.handlers[h];
        if h in w.handlers && k == w.handlers[h] && !k.Entered? {
          assert DecisionOk(w, k);
          CountingGoesOn(w, t, k.session, if k.KeySent? then k.reserved else k.revision, k.at);
        }
      }
    }
  }

  // ---- sessions -----------------------------------------------------------------

  /** Under current sessions: once the state a decision was made on was replaced, the
      instance runs another session and never comes back to the decision's. */
  ghost predicate SessionInv(w: World)
  {
    && (w.instance.Some? ==> w.instance.value < w.nextSession)
    && forall h <- w.handlers :: SessionOk(w, w.handlers[h])
  }

  ghost predicate SessionOk(w: World, h: Handler)
  {
    && h.session < w.nextSession
    && (!h.Entered? && HasReset(w.events, h.at) ==>
          w.instance != Some(h.session) && (w.state.Some? ==> w.state.value.session != h.session))
  }

  /** A reset found in the new events replaced another session's state by the instance's. */
  ghost predicate ResetsForTheInstance(w: World, t: World)
  {
    && w.events <= t.events
    && forall i :: |w.events| <= i < |t.events| && t.events[i].Reset? ==>
         && w.instance == Some(t.events[i].session) && t.instance == w.instance
         && (w.state.None? || w.state.value.session != t.events[i].session)
         && t.state.Some? && t.state.value.session == t.events[i].session
  }

  /** Only a replacement changes whose state it is. */
  ghost predicate SameStateUnlessReset(w: World, t: World)
  {
    t.state.Some? ==>
      || (w.state.Some? && t.state.value.session == w.state.value.session)
      || HasReset(t.events, |w.events|)
  }

  lemma LockPieceResetsNothing(w: World, h: HandlerId, session: Session, op: Operation)
    requires w.state.Some?
    ensures var t := LockPiece(w, h, session, op);
            && w.events <= t.events && t.instance == w.instance && t.nextSession == w.nextSession
            && t.state.Some? && t.state.value.session == w.state.value.session
            && forall i :: |w.events| <= i < |t.events| ==> !t.events[i].Reset?
  {
    if op.Hook? && op.from == session {
      HookResetsNothing(w, h, session, op.event, op.occurred);
    }
    hide LockHook;
  }

  lemma HookResetsNothing(w: World, h: HandlerId, session: Session, event: HookEvent, occurred: nat)
    requires w.state.Some?
    ensures var t := LockHook(w, h, session, event, occurred);
            && w.events <= t.events && t.instance == w.instance && t.nextSession == w.nextSession
            && t.state.Some? && t.state.value.session == w.state.value.session
            && forall i :: |w.events| <= i < |t.events| ==> !t.events[i].Reset?
  {
  }

  lemma OnlyLocksReset(w: World, a: Action)
    requires Enabled(w, a) && Obeys(CurrentSessions, w, a)
    ensures ResetsForTheInstance(w, Apply(w, a)) && SameStateUnlessReset(w, Apply(w, a))
  {
    if a.Lock? {
      LockResets(w, a.h);
    } else {
      OthersResetNothing(w, a);
      hide Apply;
    }
  }

  lemma LockResets(w: World, h: HandlerId)
    requires Enabled(w, Lock(h)) && Obeys(CurrentSessions, w, Lock(h))
    ensures ResetsForTheInstance(w, Apply(w, Lock(h))) && SameStateUnlessReset(w, Apply(w, Lock(h)))
  {
    var session := w.handlers[h].session;
    var l := Located(w, session);
    LockPieceResetsNothing(l, h, session, w.handlers[h].op);
    hide LockPiece;
    if l != w {
      assert Apply(w, Lock(h)).events[|w.events|] == Reset(session);
    }
  }

  lemma OthersResetNothing(w: World, a: Action)
    requires Enabled(w, a) && !a.Lock?
    ensures var t := Apply(w, a);
            && w.events <= t.events && (forall i :: |w.events| <= i < |t.events| ==> !t.events[i].Reset?)
            && (t.state.Some? ==> w.state.Some? && t.state.value.session == w.state.value.session)
  {
    hide StartAll, Startable;
  }

  lemma SessionsOnlyGrow(w: World, a: Action)
    requires Enabled(w, a)
    ensures var t := Apply(w, a);
            && w.nextSession <= t.nextSession
            && (t.instance == w.instance || t.instance.None?
                || (t.instance == Some(w.nextSession) && w.nextSession < t.nextSession))
  {
    match a
    case Lock(h) =>
      LockPieceResetsNothing(Located(w, w.handlers[h].session), h, w.handlers[h].session, w.handlers[h].op);
    case _ =>
  }

  lemma SessionStaysOk(w: World, t: World, k: Handler)
    requires SessionOk(w, k) && DecisionOk(w, k) && ResetsForTheInstance(w, t) && SameStateUnlessReset(w, t)
    requires w.nextSession <= t.nextSession
    requires t.instance == w.instance || t.instance.None? || t.instance == Some(w.nextSession)
    ensures SessionOk(t, k)
  {
    if !k.Entered? && HasReset(t.events, k.at) {
      var i :| k.at <= i < |t.events| && t.events[i].Reset?;
      assert forall j :: 0 <= j < |w.events| ==> w.events[j] == t.events[j];
      if HasReset(t.events, |w.events|) {
        var j :| |w.events| <= j < |t.events| && t.events[j].Reset?;
      }
    }
  }

  lemma NewHandlersSession(w: World, a: Action, h: HandlerId)
    requires SessionInv(w) && Enabled(w, a) && h in Apply(w, a).handlers
    ensures Apply(w, a).handlers[h].session < w.nextSession
  {
    if h in w.handlers {
      assert SessionOk(w, w.handlers[h]);
    }
    match a
    case Lock(g) =>
      LockHandlers(Located(w, w.handlers[g].session), g, w.handlers[g].session, w.handlers[g].op, h);
      assert SessionOk(w, w.handlers[g]);
    case _ =>
  }

  lemma StepKeepsSessionInv(w: World, a: Action)
    requires SessionInv(w) && DecisionInv(w) && Enabled(w, a) && Obeys(CurrentSessions, w, a)
    ensures SessionInv(Apply(w, a))
  {
    var t := Apply(w, a);
    OnlyLocksReset(w, a);
    SessionsOnlyGrow(w, a);
    hide Apply;
    forall h | h in t.handlers ensures SessionOk(t, t.handlers[h]) {
      HandlersAfter(w, a, h);
      NewHandlersSession(w, a, h);
      if h in w.handlers && t.handlers[h] == w.handlers[h] {
        assert SessionOk(w, w.handlers[h]) && DecisionOk(w, w.handlers[h]);
        SessionStaysOk(w, t, t.handlers[h]);
      }
    }
  }

  // ---- the optimistic commit ----------------------------------------------------

  ghost predicate RoutingInv(rule: Rule, w: World)
  {
    IdleInv(w) && DecisionInv(w) && (rule.CurrentSessions? ==> SessionInv(w))
  }

  lemma {:induction false} RunKeepsRoutingInv(rule: Rule, w: World, trace: seq<Action>, t: World)
    requires RoutingInv(rule, w) && Runs(rule, w, trace, t)
    ensures RoutingInv(rule, t)
    decreases |trace|
  {
    if trace != [] {
      StepKeepsIdleInv(w, trace[0]);
      StepKeepsDecisionInv(w, trace[0]);
      if rule.CurrentSessions? {
        StepKeepsSessionInv(w, trace[0]);
      }
      RunKeepsRoutingInv(rule, Apply(w, trace[0]), trace[1..], t);
    }
  }

  /** Handler `h` is about to commit a non-empty Channel or Stop reservation. */
  predicate Commits(w: World, a: Action)
  {
    a.Commit? && Enabled(w, a) && a.ms != [] && StillCurrent(w, w.handlers[a.h])
  }

  /** When every handler locks with the session the instance runs, a reservation commits
      only if nothing happened since its decision: no accepted routing hook, tool hook,
      historical invalidation or other batch, of this session or any other. */
  lemma CommitMeansUndisturbed(trace: seq<Action>, w: World, a: Action)
    requires Runs(CurrentSessions, Initial, trace, w) && Commits(w, a)
    ensures w.handlers[a.h].at == |w.events|
  {
    RunKeepsRoutingInv(CurrentSessions, Initial, trace, w);
    var d := w.handlers[a.h];
    assert DecisionOk(w, d) && SessionOk(w, d);
  }

  /** In every interleaving: what a commit overlooked can only be behind a replacement of
      the state by a handler of another session. */
  lemma CommitOverlooksOnlyBehindAReset(trace: seq<Action>, w: World, a: Action)
    requires Runs(Anything, Initial, trace, w) && Commits(w, a)
    ensures w.handlers[a.h].at == |w.events| || HasReset(w.events, w.handlers[a.h].at)
  {
    RunKeepsRoutingInv(Anything, Initial, trace, w);
    assert DecisionOk(w, w.handlers[a.h]);
  }

  // ---- when a commit overlooks a hook -----------------------------------------------

  /** A routing hook of this session was accepted after the last replacement of the state. */
  ghost predicate HasHook(events: seq<Event>, session: Session)
  {
    exists k :: 0 <= k < |events| && events[k] == RouteHook(session)
                && forall j :: k < j < |events| ==> !events[j].Reset?
  }

  /** An idle candidate or a pending first start stems from a hook since the state began. */
  ghost predicate HookInv(w: World)
  {
    w.state.Some? && (w.state.value.idle.Some? || w.state.value.initial) ==>
      HasHook(w.events, w.state.value.session)
  }

  lemma HookedStays(events: seq<Event>, session: Session, e: Event)
    requires HasHook(events, session) && !e.Reset?
    ensures HasHook(events + [e], session)
  {
    var k :| 0 <= k < |events| && events[k] == RouteHook(session)
             && forall j :: k < j < |events| ==> !events[j].Reset?;
    assert (events + [e])[k] == RouteHook(session);
  }

  lemma HookedNow(events: seq<Event>, session: Session)
    ensures HasHook(events + [RouteHook(session)], session)
  {
    assert (events + [RouteHook(session)])[|events|] == RouteHook(session);
  }

  lemma HappensKeepsHooked(w: World, e: Event)
    requires w.state.Some? && HookInv(w) && !e.Reset?
    ensures w.state.value.idle.Some? || w.state.value.initial ==> HasHook(w.events + [e], w.state.value.session)
  {
    if w.state.value.idle.Some? || w.state.value.initial {
      HookedStays(w.events, w.state.value.session, e);
    }
  }

  lemma LockHookKeepsHookInv(w: World, h: HandlerId, session: Session, event: HookEvent, occurred: nat)
    requires w.state.Some? && w.state.value.session == session && HookInv(w)
    ensures HookInv(LockHook(w, h, session, event, occurred))
  {
    HappensKeepsHooked(w, ToolHook(session));
    HookedNow(w.events, session);
    hide HasHook;
  }

  lemma LockKeepsHookInv(w: World, h: HandlerId, session: Session, op: Operation)
    requires w.state.Some? && w.state.value.session == session && HookInv(w)
    ensures HookInv(LockPiece(w, h, session, op))
  {
    if op.Hook? && op.from == session {
      LockHookKeepsHookInv(w, h, session, op.event, op.occurred);
    }
    hide LockHook, HasHook;
  }

  lemma StepKeepsHookInv(w: World, a: Action)
    requires HookInv(w) && Enabled(w, a)
    ensures HookInv(Apply(w, a))
  {
    match a
    case Lock(h) =>
      var session := w.handlers[h].session;
      assert HookInv(Located(w, session));
      LockKeepsHookInv(Located(w, session), h, session, w.handlers[h].op);
      hide LockPiece, HasHook;
    case ReserveInterrupt(h, _) =>
      if w.state.Some? {
        HappensKeepsHooked(w, InterruptBatch(w.handlers[h].session));
      }
      hide HasHook;
    case _ => hide HasHook;
  }

  lemma {:induction false} RunKeepsHookInv(w: World, trace: seq<Action>, t: World)
    requires HookInv(w) && Runs(Anything, w, trace, t)
    ensures HookInv(t)
    decreases |trace|
  {
    if trace != [] {
      StepKeepsHookInv(w, trace[0]);
      RunKeepsHookInv(Apply(w, trace[0]), trace[1..], t);
    }
  }

  /** What a decision of this session must not overlook: an accepted routing hook, tool
      hook, historical invalidation or batch of it. */
  predicate Invalidates(e: Event, session: Session) { !e.Reset? && e.session == session }

  /** Exactly when a commit overlooks something, in every interleaving: it overlooks an
      invalidating event of its session since its decision if and only if the state was
      replaced since then, and what it overlooks then includes a routing hook. */
  lemma OverlooksAHookIffReplaced(trace: seq<Action>, w: World, a: Action)
    requires Runs(Anything, Initial, trace, w) && Commits(w, a)
    ensures var d := w.handlers[a.h];
            && ((exists k :: d.at <= k < |w.events| && Invalidates(w.events[k], d.session))
                <==> HasReset(w.events, d.at))
            && ((exists k :: d.at <= k < |w.events| && w.events[k] == RouteHook(d.session))
                <==> HasReset(w.events, d.at))
  {
    var d := w.handlers[a.h];
    CommitOverlooksOnlyBehindAReset(trace, w, a);
    RunKeepsHookInv(Initial, trace, w);
    if HasReset(w.events, d.at) {
      var i :| d.at <= i < |w.events| && w.events[i].Reset?;
      var k :| 0 <= k < |w.events| && w.events[k] == RouteHook(d.session)
               && forall j :: k < j < |w.events| ==> !w.events[j].Reset?;
      assert i < k && Invalidates(w.events[k], d.session);
    }
  }

  /** Busy always excludes idle, each idle observation yields at most one non-empty batch,
      and a Channel batch waits out the debounce of its observation. */
  lemma BusyExcludesIdleAndOneBatchPerObservation(trace: seq<Action>, w: World)
    requires Runs(Anything, Initial, trace, w)
    ensures w.state.Some? && w.state.value.busy ==> w.state.value.idle.None?
    ensures OnePerObservation(w.batches)
    ensures forall i :: 0 <= i < |w.batches| && w.batches[i].route.Channel? ==>
              w.batches[i].candidate.at + DEBOUNCE_MS <= w.batches[i].committed
  {
    RunKeepsRoutingInv(Anything, Initial, trace, w);
    assert forall i :: 0 <= i < |w.batches| ==> Debounced(w.batches[i]);
  }

  // ---- as coded, a stale handler can hide a hook --------------------------------

  lemma Then(w: World, a: Action, rest: seq<Action>, t: World) returns (trace: seq<Action>)
    requires Enabled(w, a) && Runs(Anything, Apply(w, a), rest, t)
    ensures trace == [a] + rest && Runs(Anything, w, trace, t)
  {
    trace := [a] + rest;
    assert trace[1..] == rest;
  }

  /** Handler 9 read session 0 and is still waiting for the lock when session 1 runs and
      handler 2 decides at revision 1. Locking, 9 replaces the state; the next Stop hook
      replaces it again and brings revision and idle back to what 2 decided on. */
  lemma StaleHandlerHidesAHook() returns (trace: seq<Action>, w: World, a: Action)
    ensures Runs(Anything, Initial, trace, w) && Commits(w, a)
    ensures w.handlers[a.h].at == 2 && |w.events| == 5
    ensures w.events[2..] == [Reset(0), Reset(1), RouteHook(1)]
    ensures w.handlers[a.h].session == 1
  {
    var stopped := State(1, Some(Candidate(0, 0)), 10, 1, false, false, false);
    var decided := World(Some(1), 2, Some(stopped), 5000,
                         map[9 := Entered(0, Attach), 2 := Decided(1, Channel, 1, false, 2)],
                         map[7 := Queued], 0, 1, [Reset(1), RouteHook(1)], [], [], FirstMarks);
    var again := State(1, Some(Candidate(5000, 1)), 20, 1, false, false, false);
    w := World(Some(1), 2, Some(again), 10000, map[2 := Decided(1, Channel, 1, false, 2)],
               map[7 := Queued], 0, 2, [Reset(1), RouteHook(1), Reset(0), Reset(1), RouteHook(1)], [], [],
               FirstMarks + [Replaced, Replaced, Hooked(StopHook(Some(true)), 20, 5000, 1)]);
    a := Commit(2, [7], false, true);
    trace := StateIsReplacedTwice(decided, w);
    trace := DecidesAtRevisionOne(decided, trace, w);
  }

  const FirstMarks := [Replaced, Hooked(StopHook(Some(true)), 10, 0, 0)]

  lemma StateIsReplacedTwice(w: World, t: World) returns (trace: seq<Action>)
    requires w.instance == Some(1) && w.state.Some? && w.state.value.session == 1 && w.clock == 5000
    requires w.handlers == map[9 := Entered(0, Attach), 2 := Decided(1, Channel, 1, false, 2)] && w.nextObservation == 1
    requires t == w.(state := Some(State(1, Some(Candidate(5000, 1)), 20, 1, false, false, false)), clock := 10000,
                     handlers := map[2 := Decided(1, Channel, 1, false, 2)], nextObservation := 2,
                     events := w.events + [Reset(0), Reset(1), RouteHook(1)],
                     marks := w.marks + [Replaced, Replaced, Hooked(StopHook(Some(true)), 20, 5000, 1)])
    ensures Runs(Anything, w, trace, t)
  {
    var a := Apply(w, Lock(9));
    assert a == w.(state := Some(State(0, None, 0, 0, false, false, false)),
                   handlers := map[2 := Decided(1, Channel, 1, false, 2)], events := w.events + [Reset(0)],
                   marks := w.marks + [Replaced]);
    trace := ReplacedBack(a, t);
    trace := Then(w, Lock(9), trace, t);
  }

  lemma ReplacedBack(a: World, t: World) returns (trace: seq<Action>)
    requires a.instance == Some(1) && a.state.Some? && a.state.value.session == 0 && a.clock == 5000
    requires a.handlers == map[2 := Decided(1, Channel, 1, false, 2)] && a.nextObservation == 1
    requires t == a.(state := Some(State(1, Some(Candidate(5000, 1)), 20, 1, false, false, false)), clock := 10000,
                     nextObservation := 2, events := a.events + [Reset(1), RouteHook(1)],
                     marks := a.marks + [Replaced, Hooked(StopHook(Some(true)), 20, 5000, 1)])
    ensures Runs(Anything, a, trace, t)
  {
    var hook := Hook(1, StopHook(Some(true)), 20);
    var b := Apply(a, Enter(3, hook));
    var c := Apply(b, Lock(3));
    assert c.events == t.events && c.handlers == t.handlers && c.marks == t.marks;
    assert Apply(c, Tick(5000)) == t;
    trace := Then(c, Tick(5000), [], t);
    trace := Then(b, Lock(3), trace, t);
    trace := Then(a, Enter(3, hook), trace, t);
  }

  lemma DecidesAtRevisionOne(w: World, rest: seq<Action>, t: World) returns (trace: seq<Action>)
    requires w == World(Some(1), 2, Some(State(1, Some(Candidate(0, 0)), 10, 1, false, false, false)), 5000,
                        map[9 := Entered(0, Attach), 2 := Decided(1, Channel, 1, false, 2)],
                        map[7 := Queued], 0, 1, [Reset(1), RouteHook(1)], [], [], FirstMarks)
    requires Runs(Anything, w, rest, t)
    ensures Runs(Anything, Initial, trace, t)
  {
    var a := Apply(Initial, NewSession);
    var b := Apply(a, Enter(9, Attach));
    var c := Apply(b, NewSession);
    var d := Apply(c, NewMessage(7));
    assert d == World(Some(1), 2, None, 0, map[9 := Entered(0, Attach)], map[7 := Queued], 0, 0, [], [], [], []);
    trace := FirstStopThenPoll(d, rest, w, t);
    trace := Then(c, NewMessage(7), trace, t);
    trace := Then(b, NewSession, trace, t);
    trace := Then(a, Enter(9, Attach), trace, t);
    trace := Then(Initial, NewSession, trace, t);
  }

  lemma FirstStopThenPoll(d: World, rest: seq<Action>, w: World, t: World) returns (trace: seq<Action>)
    requires d == World(Some(1), 2, None, 0, map[9 := Entered(0, Attach)], map[7 := Queued], 0, 0, [], [], [], [])
    requires w == World(Some(1), 2, Some(State(1, Some(Candidate(0, 0)), 10, 1, false, false, false)), 5000,
                        map[9 := Entered(0, Attach), 2 := Decided(1, Channel, 1, false, 2)],
                        map[7 := Queued], 0, 1, [Reset(1), RouteHook(1)], [], [], FirstMarks)
    requires Runs(Anything, w, rest, t)
    ensures Runs(Anything, d, trace, t)
  {
    var hook := Hook(1, StopHook(Some(true)), 10);
    var e := Apply(d, Enter(1, hook));
    var f := World(Some(1), 2, w.state, 0, map[9 := Entered(0, Attach)], map[7 := Queued], 0, 1,
                   [Reset(1), RouteHook(1)], [], [], FirstMarks);
    assert e.handlers == map[9 := Entered(0, Attach), 1 := Entered(1, hook)];
    TheStopHook(e, f);
    trace := ThenPoll(f, rest, w, t);
    hide Apply;
    trace := Then(e, Lock(1), trace, t);
    trace := Then(d, Enter(1, hook), trace, t);
  }

  lemma TheStopHook(e: World, f: World)
    requires e.handlers == map[9 := Entered(0, Attach), 1 := Entered(1, Hook(1, StopHook(Some(true)), 10))]
    requires e.state.None? && e.clock == 0 && e.nextObservation == 0 && e.events == [] && e.marks == []
    requires f == e.(state := Some(State(1, Some(Candidate(0, 0)), 10, 1, false, false, false)),
                     handlers := map[9 := Entered(0, Attach)], nextObservation := 1, events := [Reset(1), RouteHook(1)],
                     marks := FirstMarks)
    ensures Apply(e, Lock(1)) == f
  {
    var l := Located(e, 1);
    assert l == e.(state := Some(State(1, None, 0, 0, false, false, false)), events := [Reset(1)], marks := [Replaced]);
    assert e.handlers - {1} == f.handlers;
  }

  lemma ThenPoll(f: World, rest: seq<Action>, w: World, t: World) returns (trace: seq<Action>)
    requires f == World(Some(1), 2, Some(State(1, Some(Candidate(0, 0)), 10, 1, false, false, false)), 0,
                        map[9 := Entered(0, Attach)], map[7 := Queued], 0, 1,
                        [Reset(1), RouteHook(1)], [], [], FirstMarks)
    requires w == f.(clock := 5000, handlers := map[9 := Entered(0, Attach), 2 := Decided(1, Channel, 1, false, 2)])
    requires Runs(Anything, w, rest, t)
    ensures Runs(Anything, f, trace, t)
  {
    var g := Apply(f, Tick(5000));
    var h := Apply(g, Enter(2, Poll(1)));
    assert Apply(h, Lock(2)).handlers == w.handlers;
    trace := Then(h, Lock(2), rest, t);
    trace := Then(g, Enter(2, Poll(1)), trace, t);
    trace := Then(f, Tick(5000), trace, t);
  }

  // ---- content leaves at most once ----------------------------------------------

  /** Every handed message has a started attempt no key refusal can undo any more, and a
      key in flight guards the only attempt of its message. */
  ghost predicate DeliveryInv(w: World)
  {
    && Distinct(w.handed)
    && (forall m <- w.handed :: m in w.store && w.store[m].attempt.Some?)
    && (forall m <- w.store :: w.store[m].attempt.Some? ==> w.store[m].attempt.value < w.nextDelivery)
    && (forall h <- w.handlers :: KeyOk(w, h))
    && (forall g, h :: g in w.handlers && h in w.handlers && g != h
                       && w.handlers[g].KeySent? && w.handlers[h].KeySent? ==>
                       w.handlers[g].message != w.handlers[h].message)
  }

  ghost predicate KeyOk(w: World, h: HandlerId)
    requires h in w.handlers
  {
    w.handlers[h].KeySent? ==>
      var k := w.handlers[h];
      k.message in w.store && w.store[k.message].attempt == Some(k.delivery) && k.message !in w.handed
  }

  /** What an action can do to deliveries when it neither reserves, releases nor hands over. */
  ghost predicate Untouched(w: World, t: World)
  {
    && t.handed == w.handed && t.nextDelivery == w.nextDelivery
    && (forall m <- w.store :: m in t.store && t.store[m].attempt == w.store[m].attempt)
    && (forall m <- t.store :: m !in w.store ==> t.store[m].attempt.None?)
    && (forall h <- t.handlers :: t.handlers[h].KeySent? ==> h in w.handlers && t.handlers[h] == w.handlers[h])
  }

  predicate Delivers(a: Action) { a.Commit? || a.ReserveInterrupt? || a.KeyRefused? || a.KeyDone? }

  lemma LockTouchesNoDelivery(w: World, h: HandlerId, session: Session, op: Operation)
    requires w.state.Some?
    ensures var t := LockPiece(w, h, session, op);
            t.handed == w.handed && t.nextDelivery == w.nextDelivery && t.store == w.store && t.clock == w.clock
  {
  }

  lemma OthersTouchNoDelivery(w: World, a: Action)
    requires Enabled(w, a) && !Delivers(a)
    ensures Untouched(w, Apply(w, a))
  {
    var t := Apply(w, a);
    match a
    case Lock(g) =>
      var session, op := w.handlers[g].session, w.handlers[g].op;
      LockTouchesNoDelivery(Located(w, session), g, session, op);
      forall h | h in t.handlers && t.handlers[h].KeySent?
        ensures h in w.handlers && t.handlers[h] == w.handlers[h]
      {
        LockHandlers(Located(w, session), g, session, op, h);
      }
    case _ =>
  }

  lemma UntouchedKeeps(w: World, t: World)
    requires DeliveryInv(w) && Untouched(w, t)
    ensures DeliveryInv(t)
  {
    forall h | h in t.handlers ensures KeyOk(t, h) {
      if t.handlers[h].KeySent? {
        assert KeyOk(w, h);
      }
    }
  }

  lemma StartedRows(w: World, t: World, ms: seq<Msg>, m: Msg)
    requires Startable(w.store, ms) && m in ms
    requires t.store == StartAll(w.store, ms, w.nextDelivery) && t.nextDelivery == w.nextDelivery + |ms|
    ensures m in w.store && w.store[m].attempt.None?
    ensures m in t.store && t.store[m].attempt.Some? && t.store[m].attempt.value < t.nextDelivery
  {
    hide StartAll, Distinct;
    var k :| 0 <= k < |ms| && ms[k] == m;
    assert t.store[ms[k]].attempt == Some(w.nextDelivery + k);
  }

  lemma DistinctTogether(a: seq<Msg>, b: seq<Msg>)
    requires Distinct(a) && Distinct(b) && forall m <- b :: m !in a
    ensures Distinct(a + b)
  {
    var c := a + b;
    forall i, j | 0 <= i < j < |c| ensures c[i] != c[j] {
      if i < |a| <= j {
        assert c[i] in a && b[j - |a|] in b;
      }
    }
  }

  /** Starting messages and handing all or none of them over. */
  lemma HandOver(w: World, t: World, ms: seq<Msg>)
    requires DeliveryInv(w) && Startable(w.store, ms)
    requires t.store == StartAll(w.store, ms, w.nextDelivery) && t.nextDelivery == w.nextDelivery + |ms|
    requires t.handed == w.handed || t.handed == w.handed + ms
    requires forall h <- t.handlers :: h in w.handlers && t.handlers[h] == w.handlers[h]
    ensures DeliveryInv(t)
  {
    forall m | m in ms
      ensures m in w.store && w.store[m].attempt.None? && m !in w.handed
      ensures t.store[m].attempt.Some? && t.store[m].attempt.value < t.nextDelivery
    {
      StartedRows(w, t, ms, m);
    }
    hide StartAll, DeliveryInv;
    StartedAndHandedOver(w, t, ms);
  }

  lemma StartedAndHandedOver(w: World, t: World, ms: seq<Msg>)
    requires DeliveryInv(w) && Distinct(ms) && w.nextDelivery <= t.nextDelivery
    requires t.store.Keys == w.store.Keys && forall m <- w.store :: m !in ms ==> t.store[m] == w.store[m]
    requires forall m <- ms :: m in w.store && w.store[m].attempt.None? && m !in w.handed
    requires forall m <- ms :: t.store[m].attempt.Some? && t.store[m].attempt.value < t.nextDelivery
    requires t.handed == w.handed || t.handed == w.handed + ms
    requires forall h <- t.handlers :: h in w.handlers && t.handlers[h] == w.handlers[h]
    ensures DeliveryInv(t)
  {
    DistinctTogether(w.handed, ms);
    hide Distinct;
    forall h | h in t.handlers ensures KeyOk(t, h) {
      assert KeyOk(w, h);
    }
  }

  lemma CommitKeepsDelivery(w: World, a: Action)
    requires DeliveryInv(w) && a.Commit? && Enabled(w, a)
    ensures DeliveryInv(Apply(w, a))
  {
    var t := Apply(w, a);
    HandOver(w, t, if StillCurrent(w, w.handlers[a.h]) then a.ms else []);
  }

  lemma ReserveKeepsDelivery(w: World, a: Action)
    requires DeliveryInv(w) && a.ReserveInterrupt? && Enabled(w, a)
    ensures DeliveryInv(Apply(w, a))
  {
    var t := Apply(w, a);
    if StillBusy(w, w.handlers[a.h]) && a.found.Some? {
      var m := a.found.value;
      assert [m][0] in [m] && MayStart(w.store[m]);
      assert t.store == StartAll(w.store, [m], w.nextDelivery);
      assert t.store[[m][0]].attempt == Some(w.nextDelivery);
      forall h | h in t.handlers ensures KeyOk(t, h) {
        if h != a.h {
          assert t.handlers[h] == w.handlers[h] && KeyOk(w, h);
        }
      }
      forall h | h in w.handlers && w.handlers[h].KeySent? ensures w.handlers[h].message != m {
        assert KeyOk(w, h);
      }
    } else {
      forall h | h in t.handlers ensures KeyOk(t, h) {
        assert KeyOk(w, h);
      }
    }
  }

  lemma KeyKeepsDelivery(w: World, a: Action)
    requires DeliveryInv(w) && (a.KeyRefused? || a.KeyDone?) && Enabled(w, a)
    ensures DeliveryInv(Apply(w, a))
  {
    var t := Apply(w, a);
    assert KeyOk(w, a.h);
    forall h | h in t.handlers ensures KeyOk(t, h) {
      assert t.handlers[h] == w.handlers[h] && KeyOk(w, h);
    }
  }

  lemma StepKeepsDeliveryInv(w: World, a: Action)
    requires DeliveryInv(w) && Enabled(w, a)
    ensures DeliveryInv(Apply(w, a))
  {
    hide DeliveryInv, Untouched, Apply, StartAll;
    match a
    case Commit(_, _, _, _) => CommitKeepsDelivery(w, a);
    case ReserveInterrupt(_, _) => ReserveKeepsDelivery(w, a);
    case KeyRefused(_) => KeyKeepsDelivery(w, a);
    case KeyDone(_) => KeyKeepsDelivery(w, a);
    case _ =>
      OthersTouchNoDelivery(w, a);
      UntouchedKeeps(w, Apply(w, a));
  }

  lemma {:induction false} RunKeepsDeliveryInv(w: World, trace: seq<Action>, t: World)
    requires DeliveryInv(w) && Runs(Anything, w, trace, t)
    ensures DeliveryInv(t)
    decreases |trace|
  {
    if trace != [] {
      StepKeepsDeliveryInv(w, trace[0]);
      RunKeepsDeliveryInv(Apply(w, trace[0]), trace[1..], t);
    }
  }

  /** Over every run with lost replies and stops, a message's content leaves at most once. */
  lemma ContentLeavesAtMostOnce(trace: seq<Action>, w: World, i: nat, j: nat)
    requires Runs(Anything, Initial, trace, w) && i < j < |w.handed|
    ensures w.handed[i] != w.handed[j]
  {
    RunKeepsDeliveryInv(Initial, trace, w);
  }

  /** A refused key: the content never left, and the message is back in the queue unless a
      receipt or an operator settled it meanwhile. */
  lemma RefusedKeyRequeues(trace: seq<Action>, w: World, h: HandlerId)
    requires Runs(Anything, Initial, trace, w) && Enabled(w, KeyRefused(h))
    ensures var m := w.handlers[h].message;
            var t := Apply(w, KeyRefused(h));
            && m in w.store && m in t.store && m !in t.handed
            && (if w.store[m].sent || w.store[m].confirmed || w.store[m].abandoned then t.store[m] == w.store[m]
                else MayStart(t.store[m]))
  {
    RunKeepsDeliveryInv(Initial, trace, w);
    assert KeyOk(w, h);
  }

  /** Reserved, its content not handed over, and no handler left to decide its key. */
  ghost predicate OutcomeUnknown(w: World, m: Msg)
  {
    && m in w.store && w.store[m].attempt.Some? && m !in w.handed
    && forall h <- w.handlers :: w.handlers[h].KeySent? ==> w.handlers[h].message != m
  }

  lemma StepKeepsUnknown(w: World, a: Action, m: Msg)
    requires OutcomeUnknown(w, m) && Enabled(w, a)
    ensures OutcomeUnknown(Apply(w, a), m)
  {
    var t := Apply(w, a);
    match a
    case Commit(_, ms, _, _) =>
      if StillCurrent(w, w.handlers[a.h]) {
        assert m !in ms;
      }
    case ReserveInterrupt(_, found) =>
      if StillBusy(w, w.handlers[a.h]) && found.Some? {
        assert [found.value][0] in [found.value];
        assert m !in [found.value];
      }
    case KeyRefused(_) =>
    case KeyDone(_) =>
    case _ => OthersTouchNoDelivery(w, a);
  }

  /** An unknown outcome, from a lost reply, a lost key completion, a superseded turn or a
      stop, is never sent again in any continuation. */
  lemma {:induction false} UnknownIsNeverSent(w: World, trace: seq<Action>, t: World, m: Msg)
    requires OutcomeUnknown(w, m) && Runs(Anything, w, trace, t)
    ensures OutcomeUnknown(t, m) && m !in t.handed
    decreases |trace|
  {
    if trace != [] {
      StepKeepsUnknown(w, trace[0], m);
      UnknownIsNeverSent(Apply(w, trace[0]), trace[1..], t, m);
    }
  }

  /** Which is what an interrupt without a known completion, or overtaken by a newer hook,
      and a stop of the daemon at any time leave behind. */
  lemma InterruptsLeaveUnknown(trace: seq<Action>, w: World, h: HandlerId, a: Action)
    requires Runs(Anything, Initial, trace, w) && h in w.handlers && w.handlers[h].KeySent?
    requires || a == KeyUnknown(h) || a == Crash
             || (a == KeyDone(h) && (w.state.None? || w.state.value.session != w.handlers[h].session
                                     || w.state.value.revision != w.handlers[h].reserved))
    ensures OutcomeUnknown(Apply(w, a), w.handlers[h].message)
  {
    RunKeepsDeliveryInv(Initial, trace, w);
    assert KeyOk(w, h);
  }
}
