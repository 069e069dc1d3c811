/**
  What the bridge's state means (crates/agend-daemon/src/claude_bridge.rs): busy, initial,
  ready and the idle candidate told from what the session went through, which hooks are
  accepted, what a poll or a Stop hook decides, and exactly when a decision goes through.
*/
module ClaudeRouting {
  import opened Common
  import opened ClaudeBridge

  // ---- what the marks say --------------------------------------------------------

  predicate IsHook(m: Mark, event: HookEvent) { m.Hooked? && m.event == event }

  /** A Stop hook that says whether it continues a queued message. */
  predicate IsStop(m: Mark) { m.Hooked? && m.event.StopHook? && m.event.active.Some? }

  /** A prompt, a Stop that does not say, or messages that were delivered. */
  predicate MakesBusy(m: Mark)
  {
    IsHook(m, UserPromptSubmit) || IsHook(m, StopHook(None)) || m == Committed(true)
  }

  predicate EndsBusy(m: Mark)
  {
    m.Replaced? || m.Replayed? || IsHook(m, SessionStart) || IsHook(m, SessionEnd) || IsStop(m)
  }

  predicate MakesInitial(m: Mark) { IsHook(m, SessionStart) }

  predicate EndsInitial(m: Mark)
  {
    m.Replaced? || m.Replayed? || m.Committed? || (m.Hooked? && m.event != SessionStart)
  }

  predicate MakesReady(m: Mark) { m.Screen? && m.ready }

  predicate EndsReady(m: Mark)
  {
    m.Replaced? || m.Replayed? || m.Unready? || (m.Screen? && !m.ready) || IsHook(m, SessionStart)
  }

  /** The candidate a Stop or a ready startup screen gives. */
  function Gives(m: Mark): Option<Candidate>
  {
    if IsStop(m) || (m.Screen? && m.ready) then Some(Candidate(m.at, m.observation)) else None
  }

  /** After this mark a candidate from before is gone. */
  predicate EndsIdle(m: Mark)
  {
    m.Replaced? || m.Replayed? || m.Hooked? || m.Screen? || m.Unready? || m == Committed(true)
  }

  /** Some mark made it so and none since has ended it. */
  ghost predicate Since(marks: seq<Mark>, makes: Mark -> bool, ends: Mark -> bool)
  {
    exists k :: 0 <= k < |marks| && makes(marks[k]) && forall j :: k < j < |marks| ==> !ends(marks[j])
  }

  ghost predicate IdleSince(marks: seq<Mark>, c: Candidate)
  {
    exists k :: 0 <= k < |marks| && Gives(marks[k]) == Some(c) && forall j :: k < j < |marks| ==> !EndsIdle(marks[j])
  }

  /** A hook of the current state, live or historical. */
  predicate Accepted(m: Mark) { m.Hooked? || m.Replayed? }

  function TimeOf(m: Mark): nat { if m.Hooked? || m.Replayed? then m.occurred else 0 }

  ghost predicate OfThisState(marks: seq<Mark>, k: int)
  {
    0 <= k < |marks| && forall j :: k <= j < |marks| ==> !marks[j].Replaced?
  }

  ghost predicate NotOlder(marks: seq<Mark>, occurred: nat)
  {
    forall k :: OfThisState(marks, k) && Accepted(marks[k]) ==> TimeOf(marks[k]) <= occurred
  }

  // ---- the state is what the marks say ----------------------------------------------

  ghost predicate Means(st: State, marks: seq<Mark>)
  {
    && (st.busy <==> Since(marks, MakesBusy, EndsBusy))
    && (st.initial <==> Since(marks, MakesInitial, EndsInitial))
    && (st.ready <==> Since(marks, MakesReady, EndsReady))
    && (forall c :: st.idle == Some(c) <==> IdleSince(marks, c))
    && (forall occurred: nat :: NotOlder(marks, occurred) <==> st.lastRouteHook <= occurred)
  }

  ghost predicate MarkInv(w: World) { w.state.Some? ==> Means(w.state.value, w.marks) }

  /** How one mark changes the state. */
  predicate Follows(st: State, m: Mark, t: State)
  {
    && (t.busy <==> MakesBusy(m) || (st.busy && !EndsBusy(m)))
    && (t.initial <==> MakesInitial(m) || (st.initial && !EndsInitial(m)))
    && (t.ready <==> MakesReady(m) || (st.ready && !EndsReady(m)))
    && t.idle == (if Gives(m).Some? then Gives(m) else if EndsIdle(m) then None else st.idle)
    && t.lastRouteHook == (if Accepted(m) then m.occurred else if m.Replaced? then 0 else st.lastRouteHook)
    && (Accepted(m) ==> st.lastRouteHook <= m.occurred)
  }

  lemma SinceNext(marks: seq<Mark>, m: Mark, makes: Mark -> bool, ends: Mark -> bool)
    ensures Since(marks + [m], makes, ends) <==> makes(m) || (Since(marks, makes, ends) && !ends(m))
  {
    var all := marks + [m];
    assert all[|marks|] == m;
    if Since(marks, makes, ends) && !ends(m) {
      var k :| 0 <= k < |marks| && makes(marks[k]) && forall j :: k < j < |marks| ==> !ends(marks[j]);
      assert makes(all[k]);
    }
    if Since(all, makes, ends) {
      var k :| 0 <= k < |all| && makes(all[k]) && forall j :: k < j < |all| ==> !ends(all[j]);
      if k < |marks| {
        assert makes(marks[k]) && forall j :: k < j < |marks| ==> marks[j] == all[j];
      }
    }
  }

  lemma IdleNext(marks: seq<Mark>, m: Mark, c: Candidate)
    ensures IdleSince(marks + [m], c) <==> Gives(m) == Some(c) || (IdleSince(marks, c) && !EndsIdle(m))
  {
    var all := marks + [m];
    assert all[|marks|] == m;
    if IdleSince(marks, c) && !EndsIdle(m) {
      var k :| 0 <= k < |marks| && Gives(marks[k]) == Some(c) && forall j :: k < j < |marks| ==> !EndsIdle(marks[j]);
      assert Gives(all[k]) == Some(c);
    }
    if IdleSince(all, c) {
      var k :| 0 <= k < |all| && Gives(all[k]) == Some(c) && forall j :: k < j < |all| ==> !EndsIdle(all[j]);
      if k < |marks| {
        assert Gives(marks[k]) == Some(c) && forall j :: k < j < |marks| ==> marks[j] == all[j];
      }
    }
  }

  lemma NotOlderNext(marks: seq<Mark>, m: Mark, occurred: nat)
    ensures NotOlder(marks + [m], occurred) <==>
              m.Replaced? || (NotOlder(marks, occurred) && (Accepted(m) ==> m.occurred <= occurred))
  {
    var all := marks + [m];
    assert all[|marks|] == m;
    forall k ensures OfThisState(all, k) <==> !m.Replaced? && (k == |marks| || OfThisState(marks, k)) {
      if OfThisState(marks, k) && !m.Replaced? {
        assert forall j :: k <= j < |all| ==> all[j] == if j < |marks| then marks[j] else m;
      }
      if OfThisState(all, k) {
        assert !all[|marks|].Replaced?;
        assert forall j :: k <= j < |marks| ==> marks[j] == all[j];
      }
    }
    forall k | OfThisState(marks, k) ensures all[k] == marks[k] {
    }
  }

  lemma MarkKeepsMeaning(st: State, marks: seq<Mark>, m: Mark, t: State)
    requires Means(st, marks) && Follows(st, m, t)
    ensures Means(t, marks + [m])
  {
    SinceNext(marks, m, MakesBusy, EndsBusy);
    SinceNext(marks, m, MakesInitial, EndsInitial);
    SinceNext(marks, m, MakesReady, EndsReady);
    hide Since, IdleSince, NotOlder;
    forall c ensures t.idle == Some(c) <==> IdleSince(marks + [m], c) {
      IdleNext(marks, m, c);
    }
    forall occurred: nat ensures NotOlder(marks + [m], occurred) <==> t.lastRouteHook <= occurred {
      NotOlderNext(marks, m, occurred);
    }
  }

  /** A state begun anew means nothing yet. */
  lemma NewStateMeansNothing(marks: seq<Mark>, session: Session)
    ensures Means(State(session, None, 0, 0, false, false, false), marks + [Replaced])
  {
    SinceNext(marks, Replaced, MakesBusy, EndsBusy);
    SinceNext(marks, Replaced, MakesInitial, EndsInitial);
    SinceNext(marks, Replaced, MakesReady, EndsReady);
    hide Since, IdleSince, NotOlder;
    forall c ensures !IdleSince(marks + [Replaced], c) {
      IdleNext(marks, Replaced, c);
    }
    forall occurred: nat ensures NotOlder(marks + [Replaced], occurred) {
      NotOlderNext(marks, Replaced, occurred);
    }
  }

  /** An action leaves the state and its marks alone, ends the state, or adds a mark the
      state follows. */
  ghost predicate Marks(w: World, t: World)
  {
    || t.state.None?
    || (w.state.Some? && t.marks == w.marks
        && t.state.value.(session := w.state.value.session, revision := w.state.value.revision) == w.state.value)
    || (w.state.Some? && |t.marks| == |w.marks| + 1 && t.marks == w.marks + [t.marks[|w.marks|]]
        && Follows(w.state.value, t.marks[|w.marks|], t.state.value))
  }

  lemma MarksKeepMeaning(w: World, t: World)
    requires MarkInv(w) && Marks(w, t)
    ensures MarkInv(t)
  {
    if t.state.Some? && t.marks != w.marks {
      MarkKeepsMeaning(w.state.value, w.marks, t.marks[|w.marks|], t.state.value);
    }
    hide Since, IdleSince, NotOlder;
  }

  lemma HookMarks(w: World, h: HandlerId, session: Session, event: HookEvent, occurred: nat)
    requires w.state.Some?
    ensures Marks(w, LockHook(w, h, session, event, occurred))
  {
    if event.StopHook? {
      StopMarks(w, h, session, event, occurred);
    } else {
      OtherHookMarks(w, h, session, event, occurred);
    }
    hide LockHook;
  }

  lemma StopMarks(w: World, h: HandlerId, session: Session, event: HookEvent, occurred: nat)
    requires w.state.Some? && event.StopHook?
    ensures Marks(w, LockHook(w, h, session, event, occurred))
  {
    var st, t := w.state.value, LockHook(w, h, session, event, occurred);
    if occurred >= st.lastRouteHook {
      assert t.marks[|w.marks|] == Hooked(event, occurred, w.clock, w.nextObservation);
    }
  }

  lemma OtherHookMarks(w: World, h: HandlerId, session: Session, event: HookEvent, occurred: nat)
    requires w.state.Some? && !event.StopHook?
    ensures Marks(w, LockHook(w, h, session, event, occurred))
  {
  }

  lemma LockMarks(w: World, h: HandlerId, session: Session, op: Operation)
    requires w.state.Some?
    ensures Marks(w, LockPiece(w, h, session, op))
  {
    if op.Hook? && op.from == session {
      HookMarks(w, h, session, op.event, op.occurred);
    }
    hide LockHook;
  }

  lemma OtherMarks(w: World, a: Action)
    requires Enabled(w, a) && !a.Lock?
    ensures Marks(w, Apply(w, a))
  {
    hide StartAll, Startable;
  }

  lemma StepKeepsMarkInv(w: World, a: Action)
    requires MarkInv(w) && Enabled(w, a)
    ensures MarkInv(Apply(w, a))
  {
    hide Means, Marks;
    if a.Lock? {
      var session := w.handlers[a.h].session;
      var l := Located(w, session);
      if l != w {
        NewStateMeansNothing(w.marks, session);
      }
      LockMarks(l, a.h, session, w.handlers[a.h].op);
      MarksKeepMeaning(l, Apply(w, a));
    } else {
      OtherMarks(w, a);
      MarksKeepMeaning(w, Apply(w, a));
    }
  }

  lemma {:induction false} RunKeepsMarkInv(rule: Rule, w: World, trace: seq<Action>, t: World)
    requires MarkInv(w) && Runs(rule, w, trace, t)
    ensures MarkInv(t)
    decreases |trace|
  {
    if trace != [] {
      StepKeepsMarkInv(w, trace[0]);
      RunKeepsMarkInv(rule, Apply(w, trace[0]), trace[1..], t);
    }
  }

  // ---- what the state means, over every run ------------------------------------------

  /** Over every run: a session is busy exactly since a prompt, a Stop hook that did not say
      whether it continues, or a delivered batch; it is initial exactly since its start; its
      startup screen is ready, and its idle candidate is one, exactly since the mark that
      made it so. */
  lemma StateMeansItsMarks(trace: seq<Action>, w: World)
    requires Runs(Anything, Initial, trace, w) && w.state.Some?
    ensures w.state.value.busy <==> Since(w.marks, MakesBusy, EndsBusy)
    ensures w.state.value.initial <==> Since(w.marks, MakesInitial, EndsInitial)
    ensures w.state.value.ready <==> Since(w.marks, MakesReady, EndsReady)
    ensures forall c :: w.state.value.idle == Some(c) <==> IdleSince(w.marks, c)
  {
    RunKeepsMarkInv(Anything, Initial, trace, w);
  }

  /** The state is the one of this session. */
  predicate Has(w: World, session: Session) { w.state.Some? && w.state.value.session == session }

  /** What a poll decides: to interrupt exactly while its session is busy, to deliver exactly
      after five idle seconds, and otherwise nothing. */
  lemma PollDecidesIff(trace: seq<Action>, w: World, h: HandlerId, session: Session, of: Session)
    requires Runs(Anything, Initial, trace, w) && h in w.handlers && w.handlers[h] == Entered(session, Poll(of))
    ensures var t := Apply(w, Lock(h));
            && (h in t.handlers ==> t.handlers[h].Interrupting? || t.handlers[h].Decided?)
            && (h in t.handlers && t.handlers[h].Interrupting?
                <==> of == session && Has(w, session) && Since(w.marks, MakesBusy, EndsBusy))
            && (h in t.handlers && t.handlers[h].Decided?
                <==> of == session && Has(w, session)
                     && exists c :: IdleSince(w.marks, c) && w.clock - c.at >= DEBOUNCE_MS)
            && (h in t.handlers && t.handlers[h].Decided? ==> t.handlers[h].route == Channel)
  {
    RunKeepsMarkInv(Anything, Initial, trace, w);
    RunKeepsRoutingInv(Anything, Initial, trace, w);
    if Has(w, session) && w.state.value.idle.Some? {
      assert IdleSince(w.marks, w.state.value.idle.value);
    }
    if c :| Has(w, session) && IdleSince(w.marks, c) && w.clock - c.at >= DEBOUNCE_MS {
      assert w.state.value.idle == Some(c);
    }
    hide Since, IdleSince, NotOlder;
  }

  /** The marks a handler of this session finds under the lock. */
  function Found(w: World, session: Session): seq<Mark>
  {
    if Has(w, session) then w.marks else w.marks + [Replaced]
  }

  lemma FoundMeans(w: World, session: Session)
    requires MarkInv(w)
    ensures var l := Located(w, session); l.marks == Found(w, session) && MarkInv(l) && l.state.Some?
  {
    NewStateMeansNothing(w.marks, session);
    hide Means;
  }

  /** Which live routing hooks count: exactly those no older than every hook this state has
      accepted; and a Stop that is no continuation, and only that, is to be answered. */
  lemma HookCountsIff(trace: seq<Action>, w: World, h: HandlerId, session: Session, event: HookEvent, occurred: nat)
    requires Runs(Anything, Initial, trace, w) && h in w.handlers && !event.Tool?
    requires w.handlers[h] == Entered(session, Hook(session, event, occurred))
    ensures var t := Apply(w, Lock(h));
            var mark := Hooked(event, occurred, w.clock, w.nextObservation);
            && t.marks == Found(w, session) + (if NotOlder(Found(w, session), occurred) then [mark] else [])
            && (NotOlder(Found(w, session), occurred) ==>
                  t.events != [] && t.events[|t.events| - 1] == RouteHook(session))
            && (h in t.handlers <==> NotOlder(Found(w, session), occurred) && event == StopHook(Some(false)))
            && (h in t.handlers ==> t.handlers[h].Decided? && t.handlers[h].route == Stop)
  {
    RunKeepsMarkInv(Anything, Initial, trace, w);
    FoundMeans(w, session);
    var l := Located(w, session);
    assert NotOlder(l.marks, occurred) <==> l.state.value.lastRouteHook <= occurred;
    HookOutcome(l, h, session, event, occurred);
    hide NotOlder, Means, LockHook;
  }

  lemma HookOutcome(w: World, h: HandlerId, session: Session, event: HookEvent, occurred: nat)
    requires w.state.Some? && h in w.handlers && !event.Tool?
    ensures var t := LockHook(w, h, session, event, occurred);
            var counts := w.state.value.lastRouteHook <= occurred;
            && t.marks == w.marks + (if counts then [Hooked(event, occurred, w.clock, w.nextObservation)] else [])
            && t.events == w.events + (if counts then [RouteHook(session)] else [])
            && (h in t.handlers <==> counts && event == StopHook(Some(false)))
            && (h in t.handlers ==> t.handlers[h].Decided? && t.handlers[h].route == Stop)
  {
  }

  /** A tool hook leaves the state's marks alone but invalidates every decision. */
  lemma ToolHookCounts(w: World, h: HandlerId, session: Session, occurred: nat)
    requires h in w.handlers && w.handlers[h] == Entered(session, Hook(session, Tool, occurred))
    ensures var t := Apply(w, Lock(h));
            && t.marks == Found(w, session) && h !in t.handlers
            && t.events != [] && t.events[|t.events| - 1] == ToolHook(session)
  {
  }

  /** A historical routing hook counts exactly when it is of the state's session and no
      older than every hook the state has accepted. */
  lemma ReplayedHookCountsIff(trace: seq<Action>, w: World, from: Session, occurred: nat)
    requires Runs(Anything, Initial, trace, w)
    ensures var t := Apply(w, ReplayedHook(from, occurred));
            if Has(w, from) && NotOlder(w.marks, occurred)
            then t.marks == w.marks + [Replayed(occurred)] && t.events == w.events + [Historical(from)]
            else t == w
  {
    RunKeepsMarkInv(Anything, Initial, trace, w);
    if w.state.Some? {
      assert NotOlder(w.marks, occurred) <==> w.state.value.lastRouteHook <= occurred;
    }
    hide Since, IdleSince, NotOlder, Means;
  }

  // ---- exactly when a decision goes through ------------------------------------------

  /** While handlers lock with the running session: a delivery that was decided passes the
      second look if and only if nothing happened since and the session is still idle, for
      Channel long enough. */
  lemma StillCurrentIff(trace: seq<Action>, w: World, h: HandlerId)
    requires Runs(CurrentSessions, Initial, trace, w) && h in w.handlers && w.handlers[h].Decided?
    ensures var d := w.handlers[h];
            StillCurrent(w, d)
            <==> d.at == |w.events|
                 && exists c :: IdleSince(w.marks, c) && (d.route.Channel? ==> w.clock - c.at >= DEBOUNCE_MS)
  {
    RunKeepsRoutingInv(CurrentSessions, Initial, trace, w);
    RunKeepsMarkInv(CurrentSessions, Initial, trace, w);
    var d := w.handlers[h];
    assert DecisionOk(w, d) && SessionOk(w, d);
    if w.state.Some? && w.state.value.idle.Some? {
      assert IdleSince(w.marks, w.state.value.idle.value);
    }
    if c :| w.state.Some? && IdleSince(w.marks, c) {
      assert w.state.value.idle == Some(c);
    }
    hide Since, IdleSince, NotOlder;
  }

  /** A busy poll that is undisturbed is still busy. */
  ghost predicate BusyInv(w: World)
  {
    forall h <- w.handlers :: w.handlers[h].Interrupting? && w.handlers[h].at == |w.events| ==>
      w.state.Some? && w.state.value.busy
  }

  lemma QuietKeepsBusy(w: World, a: Action)
    requires Enabled(w, a) && !a.Crash? && !a.Lock? && |Apply(w, a).events| == |w.events|
    ensures w.state.Some? ==> Apply(w, a).state.Some? && Apply(w, a).state.value.busy == w.state.value.busy
  {
    hide StartAll, Startable;
  }

  lemma LockKeepsBusyInv(w: World, g: HandlerId)
    requires BusyInv(w) && DecisionInv(w) && Enabled(w, Lock(g))
    ensures BusyInv(Apply(w, Lock(g)))
  {
    var t, session, op := Apply(w, Lock(g)), w.handlers[g].session, w.handlers[g].op;
    var l := Located(w, session);
    forall h | h in t.handlers && t.handlers[h].Interrupting? && t.handlers[h].at == |t.events|
      ensures t.state.Some? && t.state.value.busy
    {
      LockHandlers(l, g, session, op, h);
      if h != g {
        assert DecisionOk(w, w.handlers[h]);
        LockPieceResetsNothing(l, g, session, op);
      }
    }
  }

  lemma StepKeepsBusyInv(w: World, a: Action)
    requires BusyInv(w) && DecisionInv(w) && Enabled(w, a)
    ensures BusyInv(Apply(w, a))
  {
    if a.Lock? {
      LockKeepsBusyInv(w, a.h);
    } else if !a.Crash? {
      var t := Apply(w, a);
      OthersResetNothing(w, a);
      if |t.events| == |w.events| {
        QuietKeepsBusy(w, a);
      }
      forall h | h in t.handlers && t.handlers[h].Interrupting? && t.handlers[h].at == |t.events|
        ensures t.state.Some? && t.state.value.busy
      {
        assert h in w.handlers && t.handlers[h] == w.handlers[h] && DecisionOk(w, w.handlers[h]);
      }
    }
  }

  lemma {:induction false} RunKeepsBusyInv(rule: Rule, w: World, trace: seq<Action>, t: World)
    requires BusyInv(w) && RoutingInv(rule, w) && Runs(rule, w, trace, t)
    ensures BusyInv(t)
    decreases |trace|
  {
    if trace != [] {
      StepKeepsBusyInv(w, trace[0]);
      assert Runs(rule, w, [trace[0]], Apply(w, trace[0]));
      RunKeepsRoutingInv(rule, w, [trace[0]], Apply(w, trace[0]));
      RunKeepsBusyInv(rule, Apply(w, trace[0]), trace[1..], t);
    }
  }

  /** A busy poll may reserve an interrupt if and only if nothing happened since it found the
      session busy. */
  lemma StillBusyIff(trace: seq<Action>, w: World, h: HandlerId)
    requires Runs(CurrentSessions, Initial, trace, w) && h in w.handlers && w.handlers[h].Interrupting?
    ensures StillBusy(w, w.handlers[h]) <==> w.handlers[h].at == |w.events|
  {
    RunKeepsRoutingInv(CurrentSessions, Initial, trace, w);
    RunKeepsBusyInv(CurrentSessions, Initial, trace, w);
    assert DecisionOk(w, w.handlers[h]) && SessionOk(w, w.handlers[h]);
  }

  /** In every interleaving an interrupt is reserved only while its session is busy. */
  lemma InterruptsOnlyWhileBusy(trace: seq<Action>, w: World, h: HandlerId, m: Msg)
    requires Runs(Anything, Initial, trace, w) && Enabled(w, ReserveInterrupt(h, Some(m)))
    requires Apply(w, ReserveInterrupt(h, Some(m))).store != w.store
    ensures Has(w, w.handlers[h].session) && Since(w.marks, MakesBusy, EndsBusy)
  {
    RunKeepsMarkInv(Anything, Initial, trace, w);
    hide Since, IdleSince, NotOlder, StartAll;
  }

  /** A completed key is followed by the content if and only if nothing happened since the
      reservation. */
  lemma CompletedKeyHandsOverIff(trace: seq<Action>, w: World, h: HandlerId)
    requires Runs(CurrentSessions, Initial, trace, w) && h in w.handlers && w.handlers[h].KeySent?
    ensures Apply(w, KeyDone(h)).handed
         == w.handed + if w.handlers[h].at == |w.events| then [w.handlers[h].message] else []
  {
    RunKeepsRoutingInv(CurrentSessions, Initial, trace, w);
    assert DecisionOk(w, w.handlers[h]) && SessionOk(w, w.handlers[h]);
  }

  /** A startup screen that is not ready takes the candidate away exactly when nothing
      happened since the decision; only a state that has been replaced since is judged by
      its revision number alone. */
  lemma NotReadyClearsIff(trace: seq<Action>, w: World, h: HandlerId)
    requires Runs(CurrentSessions, Initial, trace, w) && Enabled(w, NotReady(h))
    ensures var d, t := w.handlers[h], Apply(w, NotReady(h));
            var clears := if HasReset(w.events, d.at) then w.state.Some? && w.state.value.revision == d.revision
                          else d.at == |w.events|;
            && t.marks == w.marks + (if clears then [Unready] else [])
            && (clears ==> t.state.Some? && t.state.value.idle.None?) && (!clears ==> t.state == w.state)
  {
    RunKeepsRoutingInv(CurrentSessions, Initial, trace, w);
    assert DecisionOk(w, w.handlers[h]);
  }

  // ---- receipts ----------------------------------------------------------------------

  /** What is settled about a row stays settled. */
  ghost predicate Settles(w: World, t: World)
  {
    forall m <- w.store :: m in t.store
      && (w.store[m].sent ==> t.store[m].sent) && (w.store[m].confirmed ==> t.store[m].confirmed)
      && (w.store[m].abandoned ==> t.store[m].abandoned)
  }

  lemma StepSettles(w: World, a: Action)
    requires Enabled(w, a)
    ensures Settles(w, Apply(w, a))
  {
    match a
    case Lock(h) =>
      LockTouchesNoDelivery(Located(w, w.handlers[h].session), h, w.handlers[h].session, w.handlers[h].op);
      hide LockPiece;
    case Commit(h, ms, _, _) =>
      if StillCurrent(w, w.handlers[h]) {
        StartingSettlesNothing(w.store, ms, w.nextDelivery);
      }
      hide StartAll;
    case ReserveInterrupt(h, found) =>
      if StillBusy(w, w.handlers[h]) && found.Some? {
        StartingSettlesNothing(w.store, [found.value], w.nextDelivery);
      }
      hide StartAll;
    case _ =>
  }

  lemma StartingSettlesNothing(store: Store, ms: seq<Msg>, first: nat)
    requires Startable(store, ms)
    ensures var r := StartAll(store, ms, first);
            forall m <- store :: m in r && r[m].sent == store[m].sent && r[m].confirmed == store[m].confirmed
                                 && r[m].abandoned == store[m].abandoned
  {
    var r := StartAll(store, ms, first);
    forall m | m in store && m in ms
      ensures r[m].sent == store[m].sent && r[m].confirmed == store[m].confirmed && r[m].abandoned == store[m].abandoned
    {
      var k :| 0 <= k < |ms| && ms[k] == m;
      assert r[ms[k]] == store[ms[k]].(attempt := Some(first + k), attempted := true);
    }
  }

  lemma {:induction false} RunSettles(w: World, trace: seq<Action>, t: World)
    requires Runs(Anything, w, trace, t)
    ensures Settles(w, t)
    decreases |trace|
  {
    if trace != [] {
      StepSettles(w, trace[0]);
      RunSettles(Apply(w, trace[0]), trace[1..], t);
    }
  }

  /** A message that was written, acknowledged or given up is so in every continuation and is
      never started again. */
  lemma SettledForGood(w: World, a: Action, m: Msg, trace: seq<Action>, t: World)
    requires (a == Written(m) || a == Acknowledged(m) || a == Abandoned(m)) && Enabled(w, a)
    requires Runs(Anything, Apply(w, a), trace, t)
    ensures m in t.store && !MayStart(t.store[m])
    ensures a.Written? ==> t.store[m].sent
    ensures a.Acknowledged? ==> t.store[m].sent && t.store[m].confirmed
    ensures a.Abandoned? ==> t.store[m].abandoned
  {
    RunSettles(Apply(w, a), trace, t);
  }

  // ---- stops and batches -------------------------------------------------------------

  /** After a stop of the daemon nothing is remembered: a poll of any session decides nothing
      until a hook has told the new daemon that the session is idle or busy. */
  lemma AStopForgets(w: World, h: HandlerId, session: Session, of: Session)
    requires w.instance == Some(session)
    ensures var stopped := Apply(w, Crash);
            var t := Apply(Apply(stopped, Enter(h, Poll(of))), Lock(h));
            && stopped.handlers == map[] && stopped.store == w.store && h !in t.handlers
            && t.state.Some? && !t.state.value.busy && t.state.value.idle.None?
  {
  }

  function Deliveries(marks: seq<Mark>): nat
  {
    if marks == [] then 0
    else Deliveries(marks[..|marks| - 1]) + if marks[|marks| - 1] == Committed(true) then 1 else 0
  }

  lemma DeliveriesNext(marks: seq<Mark>, m: Mark)
    ensures Deliveries(marks + [m]) == Deliveries(marks) + if m == Committed(true) then 1 else 0
  {
    assert (marks + [m])[..|marks|] == marks;
  }

  /** Batches and deliveries grow together. */
  ghost predicate CountsOn(w: World, t: World)
  {
    || (t.marks == w.marks && t.batches == w.batches)
    || (|t.marks| == |w.marks| + 1 && t.marks == w.marks + [t.marks[|w.marks|]]
        && |t.batches| == |w.batches| + if t.marks[|w.marks|] == Committed(true) then 1 else 0)
  }

  lemma HookCountsOn(w: World, h: HandlerId, session: Session, event: HookEvent, occurred: nat)
    requires w.state.Some?
    ensures CountsOn(w, LockHook(w, h, session, event, occurred))
  {
  }

  lemma LockCountsOn(w: World, h: HandlerId, session: Session, op: Operation)
    requires w.state.Some?
    ensures CountsOn(w, LockPiece(w, h, session, op))
  {
    if op.Hook? && op.from == session {
      HookCountsOn(w, h, session, op.event, op.occurred);
    }
    hide LockHook;
  }

  lemma OthersCountOn(w: World, a: Action)
    requires Enabled(w, a) && !a.Lock?
    ensures CountsOn(w, Apply(w, a))
  {
    hide StartAll, Startable;
  }

  lemma CountingGoesOn(w: World, t: World)
    requires |w.batches| == Deliveries(w.marks) && CountsOn(w, t)
    ensures |t.batches| == Deliveries(t.marks)
  {
    if t.marks != w.marks {
      DeliveriesNext(w.marks, t.marks[|w.marks|]);
    }
    hide Deliveries;
  }

  lemma StepCountsBatches(w: World, a: Action)
    requires |w.batches| == Deliveries(w.marks) && Enabled(w, a)
    ensures |Apply(w, a).batches| == Deliveries(Apply(w, a).marks)
  {
    if a.Lock? {
      var session := w.handlers[a.h].session;
      var l := Located(w, session);
      DeliveriesNext(w.marks, Replaced);
      LockCountsOn(l, a.h, session, w.handlers[a.h].op);
      hide Deliveries, CountsOn;
      CountingGoesOn(l, Apply(w, a));
    } else {
      OthersCountOn(w, a);
      hide Apply, Deliveries, CountsOn;
      CountingGoesOn(w, Apply(w, a));
    }
  }

  /** The batches are the deliveries that went through, no more and no fewer. */
  lemma {:induction false} BatchesAreCounted(w: World, trace: seq<Action>, t: World)
    requires |w.batches| == Deliveries(w.marks) && Runs(Anything, w, trace, t)
    ensures |t.batches| == Deliveries(t.marks)
    decreases |trace|
  {
    if trace != [] {
      StepCountsBatches(w, trace[0]);
      BatchesAreCounted(Apply(w, trace[0]), trace[1..], t);
    }
  }
}
