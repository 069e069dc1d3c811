/**
  The creation protocol of the daemon's database (crates/agend-daemon/src/store.rs).

  Any number of processes race to build `.agend.db.new`, lock it, compare inodes,
  migrate it and publish it as `agend.db`, by a hard link or by check and rename.
  Every system call of `open_connection`, `create_database`, `remove_leftover_build`,
  `publish`, `lock` and `lock_build` is one atomic action of one process; the actions
  of different processes interleave freely and a process may stop after any of them.
*/
module StoreCreation {
  import opened Common

  type Pid = nat
  type Inode = nat


  /** Where one process stands. `kept` is the leftover it still locks, `mine` the build
      file it created, `conn` the file its build connection opened by path. */
  datatype Pc =
    | Start                                                     // about to look for `agend.db`
    | Leftover                                                  // it is absent: look for a build file
    | LeftoverOpened(i: Inode)                                  // opened by path, not locked yet
    | LeftoverLocked(i: Inode)                                  // about to remove the build name
    | Creating(kept: Option<Inode>)                              // about to create the build file
    | Created(kept: Option<Inode>, mine: Inode)                  // about to open it by path
    | Opened(kept: Option<Inode>, mine: Inode, conn: Inode)      // about to lock it
    | Locked(kept: Option<Inode>, mine: Inode, conn: Inode)      // about to drop the leftover
    | Comparing(mine: Inode, conn: Inode)                       // about to compare with the path
    | Building(mine: Inode, conn: Inode)                        // compared: about to migrate
    | Publishing(mine: Inode, conn: Inode)                      // migrated: about to link
    | Linked(mine: Inode, conn: Inode)                          // about to remove the build name
    | NoLinks(mine: Inode, conn: Inode)                         // no hard links: about to check `agend.db`
    | Absent(mine: Inode, conn: Inode)                          // it was absent: about to rename
    | Published(conn: Inode)                                    // about to close the build connection
    | Opening                                                   // about to open `agend.db` by path
    | DbOpened(i: Inode)                                        // about to lock it
    | DbLocked(i: Inode)                                        // checks the schema and the build name
    | DbSecondName(i: Inode)                                    // the build name is the same file
    | Serving(i: Inode)
    | Gone                                                      // returned an error, or was killed

  /** The home directory as all processes see it. Inodes count up: an inode some process
      still holds open is not used again. */
  datatype State = State(
    db: Option<Inode>, build: Option<Inode>,
    holder: map<Inode, Pid>, migrated: set<Inode>, next: Inode,
    pcs: map<Pid, Pc>)

  const Empty: State := State(None, None, map[], {}, 0, map[])

  function PcOf(s: State, p: Pid): Pc { if p in s.pcs then s.pcs[p] else Start }

  datatype Act =
    | StatDb | OpenLeftover | LockLeftover | RemoveLeftover
    | Create | OpenBuild | LockBuild | DropLeftover | Compare | Migrate
    | Link | LinkUnsupported | RemoveLinked | CheckAbsent | Rename | Close
    | OpenDb | LockDb | CheckDb | RemoveSecondName
    | Exit                     // any error return or a kill, after any action
    | Unlock(i: Inode)         // the kernel drops the locks of a process that is gone, one by one

  datatype Action = Action(p: Pid, act: Act)

  function Goto(s: State, p: Pid, pc: Pc): State { s.(pcs := s.pcs[p := pc]) }

  function TakeLock(s: State, p: Pid, i: Inode): State { s.(holder := s.holder[i := p]) }

  /** An exclusive lock goes with the connection that took it. */
  function DropLock(s: State, p: Pid, i: Inode): State
  {
    if i in s.holder && s.holder[i] == p then s.(holder := s.holder - {i}) else s
  }

  /** Whether process `a.p` can perform `a.act` now. Only the position decides: what the
      call finds in the directory is an outcome, not a guard. */
  predicate Enabled(s: State, a: Action)
  {
    var pc := PcOf(s, a.p);
    match a.act
    case StatDb => pc.Start?
    case OpenLeftover => pc.Leftover?
    case LockLeftover => pc.LeftoverOpened?
    case RemoveLeftover => pc.LeftoverLocked?
    case Create => pc.Creating?
    case OpenBuild => pc.Created?
    case LockBuild => pc.Opened?
    case DropLeftover => pc.Locked?
    case Compare => pc.Comparing?
    case Migrate => pc.Building?
    case Link => pc.Publishing?
    case LinkUnsupported => pc.Publishing?
    case RemoveLinked => pc.Linked?
    case CheckAbsent => pc.NoLinks?
    case Rename => pc.Absent?
    case Close => pc.Published?
    case OpenDb => pc.Opening?
    case LockDb => pc.DbOpened?
    case CheckDb => pc.DbLocked?
    case RemoveSecondName => pc.DbSecondName?
    case Exit => !pc.Gone?
    case Unlock(i) => pc.Gone? && i in s.holder && s.holder[i] == a.p
  }

  function Apply(s: State, a: Action): State
    requires Enabled(s, a)
  {
    var p := a.p;
    var pc := PcOf(s, p);
    match a.act
    case StatDb => Goto(s, p, if s.db.None? then Leftover else Opening)
    // `remove_leftover_build`: look the path up, open it, lock it, remove the name.
    case OpenLeftover =>
      Goto(s, p, if s.build.None? then Creating(None) else LeftoverOpened(s.build.value))
    case LockLeftover =>
      if pc.i in s.holder then Goto(s, p, Gone)
      else Goto(TakeLock(s, p, pc.i), p, LeftoverLocked(pc.i))
    case RemoveLeftover => Goto(s.(build := None), p, Creating(Some(pc.i)))
    // `create_database`
    case Create =>
      if s.build.Some? then Goto(s, p, Gone)
      else Goto(s.(build := Some(s.next), next := s.next + 1), p, Created(pc.kept, s.next))
    case OpenBuild =>
      Goto(s, p, if s.build.None? then Gone else Opened(pc.kept, pc.mine, s.build.value))
    case LockBuild =>
      if pc.conn in s.holder then Goto(s, p, Gone)
      else Goto(TakeLock(s, p, pc.conn), p, Locked(pc.kept, pc.mine, pc.conn))
    case DropLeftover =>
      Goto(if pc.kept.Some? then DropLock(s, p, pc.kept.value) else s, p, Comparing(pc.mine, pc.conn))
    case Compare =>
      Goto(s, p, if s.build == Some(pc.mine) then Building(pc.mine, pc.conn) else Gone)
    case Migrate =>
      Goto(s.(migrated := s.migrated + {pc.conn}), p, Publishing(pc.mine, pc.conn))
    // `publish`: both names are resolved by the call, not by the inode compared before.
    case Link =>
      if s.build.None? then Goto(s, p, NoLinks(pc.mine, pc.conn))
      else if s.db.Some? then Goto(s, p, Published(pc.conn))
      else Goto(s.(db := s.build), p, Linked(pc.mine, pc.conn))
    case LinkUnsupported => Goto(s, p, NoLinks(pc.mine, pc.conn))
    case RemoveLinked =>
      if s.build.None? then Goto(s, p, Gone) else Goto(s.(build := None), p, Published(pc.conn))
    case CheckAbsent =>
      Goto(s, p, if s.db.Some? then Published(pc.conn) else Absent(pc.mine, pc.conn))
    case Rename =>
      if s.build.None? then Goto(s, p, Gone)
      else Goto(s.(db := s.build, build := None), p, Published(pc.conn))
    case Close => Goto(DropLock(s, p, pc.conn), p, Opening)
    // `open_connection`
    case OpenDb => Goto(s, p, if s.db.None? then Gone else DbOpened(s.db.value))
    case LockDb =>
      if pc.i in s.holder then Goto(s, p, Gone) else Goto(TakeLock(s, p, pc.i), p, DbLocked(pc.i))
    case CheckDb =>
      if pc.i !in s.migrated then Goto(s, p, Gone)
      else if s.build.Some? && s.build == s.db then Goto(s, p, DbSecondName(pc.i))
      else Goto(s, p, Serving(pc.i))
    case RemoveSecondName => Goto(s.(build := None), p, Serving(pc.i))
    case Exit => Goto(s, p, Gone)
    case Unlock(i) => s.(holder := s.holder - {i})
  }

  /** How far a run obeys the condition the protocol needs and the code does not check:
      a leftover is still the file at the build path at the moment it is locked. */
  datatype Rule =
    | Anything          // as the code runs
    | UntilPublished    // the condition holds while `agend.db` does not exist
    | Always

  predicate StillThere(s: State, a: Action)
  {
    a.act.LockLeftover? && PcOf(s, a.p).LeftoverOpened? ==> s.build == Some(PcOf(s, a.p).i)
  }

  predicate Obeys(rule: Rule, s: State, a: Action)
  {
    match rule
    case Anything => true
    case UntilPublished => s.db.None? ==> StillThere(s, a)
    case Always => StillThere(s, a)
  }

  /** `trace` can be performed from `s` under `rule` and ends in `t`. */
  ghost predicate Runs(rule: Rule, s: State, trace: seq<Action>, t: State)
    decreases |trace|
  {
    if trace == [] then s == t
    else Enabled(s, trace[0]) && Obeys(rule, s, trace[0])
         && Runs(rule, Apply(s, trace[0]), trace[1..], t)
  }

  // ---- the invariant ------------------------------------------------------------

  /** Between passing the inode comparison and publishing. */
  predicate Critical(pc: Pc)
  {
    pc.Building? || pc.Publishing? || pc.Linked? || pc.NoLinks? || pc.Absent?
  }

  predicate Holds(s: State, p: Pid, i: Inode) { i in s.holder && s.holder[i] == p }

  /** What a process at `pc` may rely on whatever the others do. */
  ghost predicate Stable(s: State, p: Pid, pc: Pc)
  {
    && (pc.LeftoverOpened? ==> pc.i < s.next)
    && (pc.LeftoverLocked? ==> s.build == Some(pc.i) && Holds(s, p, pc.i))
    && (pc.Created? ==> pc.mine < s.next)
    && (pc.Opened? || pc.Locked? || pc.Comparing? ==>
          pc.mine < s.next && pc.conn < s.next && (pc.conn == pc.mine || s.build != Some(pc.mine)))
    && (pc.Locked? || pc.Comparing? ==> Holds(s, p, pc.conn))
    && (Critical(pc) ==> pc.conn == pc.mine && s.build == Some(pc.mine) && Holds(s, p, pc.mine))
    && (pc.Publishing? || pc.Linked? || pc.NoLinks? || pc.Absent? ==> pc.mine in s.migrated)
    && (pc.Linked? ==> s.db == Some(pc.mine))
    && (pc.Absent? ==> s.db == None)
    && (pc.Published? || pc.Opening? ==> s.db.Some?)
    && (pc.DbOpened? || pc.DbLocked? || pc.DbSecondName? || pc.Serving? ==> s.db == Some(pc.i))
    && (pc.DbLocked? || pc.DbSecondName? || pc.Serving? ==> Holds(s, p, pc.i))
    && (pc.DbSecondName? ==> s.build == Some(pc.i))
    && (pc.Locked? && pc.kept.Some? ==> pc.kept.value != pc.conn)
    && ((pc.Creating? || pc.Created? || pc.Opened? || pc.Locked?) && pc.kept.Some? ==>
          pc.kept.value < s.next && s.build != pc.kept && Holds(s, p, pc.kept.value))
  }

  ghost predicate Sound(s: State)
  {
    && (s.db.Some? ==> s.db.value in s.migrated && s.db.value < s.next)
    && (s.build.Some? ==> s.build.value < s.next)
  }

  ghost predicate Inv(s: State)
  {
    && Sound(s)
    && Bounded(s)
    && forall p <- s.pcs :: Stable(s, p, s.pcs[p])
  }

  /** Only numbers already handed out are migrated or locked, and a process that has
      not locked its leftover yet holds no lock at all. */
  ghost predicate Bounded(s: State)
  {
    && (forall i <- s.migrated :: i < s.next)
    && (forall i <- s.holder :: i < s.next && s.holder[i] in s.pcs && Past(s.pcs[s.holder[i]]))
  }

  predicate Past(pc: Pc) { !pc.Start? && !pc.Leftover? && !pc.LeftoverOpened? }

  /** What process `p` may do to what the others see: it never takes a lock from
      another process, never rebinds `agend.db`, binds it only to the build file it
      holds, and changes the build name only by creating a new file at the free path
      or while it holds the file that is there. */
  ghost predicate Guarantee(s: State, t: State, p: Pid)
  {
    && (forall q, i :: q != p && Holds(s, q, i) ==> Holds(t, q, i))
    && s.migrated <= t.migrated
    && s.next <= t.next
    && (t.build == s.build
        || (t.build.None? && s.build.Some? && Holds(s, p, s.build.value))
        || (s.build.None? && t.build == Some(s.next) && s.next < t.next))
    && (t.db == s.db
        || (s.db.None? && s.build.Some? && t.db == s.build && Holds(s, p, s.build.value)))
  }

  /** What an acting process knows. */
  ghost predicate Ready(s: State, a: Action)
  {
    Sound(s) && Enabled(s, a) && StillThere(s, a) && Stable(s, a.p, PcOf(s, a.p))
  }

  lemma ActorGuarantees(s: State, a: Action)
    requires Ready(s, a)
    ensures Guarantee(s, Apply(s, a), a.p) && Sound(Apply(s, a))
  {
  }

  /** The guarantee of one process is what every other process relies on. */
  lemma OthersKeepStable(s: State, t: State, p: Pid, q: Pid, pc: Pc)
    requires Guarantee(s, t, p) && p != q && Stable(s, q, pc)
    ensures Stable(t, q, pc)
  {
  }

  /** The position an action leads to is backed by what the action found and did. */
  lemma ActorIsStable(s: State, a: Action)
    requires Ready(s, a)
    ensures Stable(Apply(s, a), a.p, PcOf(Apply(s, a), a.p))
  {
    match a.act
    case StatDb | OpenLeftover | LockLeftover | RemoveLeftover | Create | OpenBuild => CreatorIsStable(s, a);
    case LockBuild | DropLeftover | Compare | Migrate | Link | LinkUnsupported => BuilderIsStable(s, a);
    case RemoveLinked | CheckAbsent | Rename | Close => PublisherIsStable(s, a);
    case _ => OpenerIsStable(s, a);
  }

  lemma CreatorIsStable(s: State, a: Action)
    requires Ready(s, a)
    requires a.act.StatDb? || a.act.OpenLeftover? || a.act.LockLeftover? || a.act.RemoveLeftover?
             || a.act.Create? || a.act.OpenBuild?
    ensures Stable(Apply(s, a), a.p, PcOf(Apply(s, a), a.p))
  {
  }

  lemma OpenerIsStable(s: State, a: Action)
    requires Ready(s, a)
    requires a.act.OpenDb? || a.act.LockDb? || a.act.CheckDb? || a.act.RemoveSecondName?
             || a.act.Exit? || a.act.Unlock?
    ensures Stable(Apply(s, a), a.p, PcOf(Apply(s, a), a.p))
  {
  }

  lemma BuilderIsStable(s: State, a: Action)
    requires Ready(s, a)
    requires a.act.LockBuild? || a.act.DropLeftover? || a.act.Compare? || a.act.Migrate?
             || a.act.Link? || a.act.LinkUnsupported?
    ensures Stable(Apply(s, a), a.p, PcOf(Apply(s, a), a.p))
  {
  }

  lemma PublisherIsStable(s: State, a: Action)
    requires Ready(s, a)
    requires a.act.RemoveLinked? || a.act.CheckAbsent? || a.act.Rename? || a.act.Close?
    ensures Stable(Apply(s, a), a.p, PcOf(Apply(s, a), a.p))
  {
  }

  /** The file an action locks or migrates has a number already handed out. */
  ghost predicate Known(s: State, a: Action)
  {
    var pc := PcOf(s, a.p);
    Enabled(s, a)
    && (a.act.LockLeftover? || a.act.LockDb? ==> pc.i < s.next)
    && (a.act.LockBuild? || a.act.Migrate? ==> pc.conn < s.next)
  }

  lemma ReadyIsKnown(s: State, a: Action)
    requires Ready(s, a)
    ensures Known(s, a)
  {
  }

  /** An action changes no lock of another process and locks only a known file. */
  lemma LocksAfter(s: State, a: Action, i: Inode)
    requires Known(s, a) && i in Apply(s, a).holder
    ensures var t := Apply(s, a);
            || (i in s.holder && t.holder[i] == s.holder[i])
            || (i < s.next && t.holder[i] == a.p && a.p in t.pcs && Past(t.pcs[a.p]))
  {
  }

  lemma NumbersAfter(s: State, a: Action)
    requires Known(s, a)
    ensures var t := Apply(s, a); s.next <= t.next && forall i <- t.migrated :: i in s.migrated || i < s.next
  {
  }

  lemma PositionsAfter(s: State, a: Action)
    requires Enabled(s, a)
    ensures var t := Apply(s, a);
            && (forall q <- s.pcs :: q in t.pcs && (q != a.p ==> t.pcs[q] == s.pcs[q]))
            && (a.p in s.pcs && Past(s.pcs[a.p]) ==> Past(t.pcs[a.p]))
  {
  }

  lemma StepKeepsBounded(s: State, a: Action)
    requires Known(s, a) && Bounded(s)
    ensures Bounded(Apply(s, a))
  {
    hide Apply, Past;
    var t := Apply(s, a);
    NumbersAfter(s, a);
    PositionsAfter(s, a);
    forall i | i in t.holder
      ensures i < t.next && t.holder[i] in t.pcs && Past(t.pcs[t.holder[i]])
    {
      LocksAfter(s, a, i);
    }
  }

  lemma OnlyTheActorMoves(s: State, a: Action)
    requires Enabled(s, a)
    ensures var t := Apply(s, a); forall q <- t.pcs :: q != a.p ==> q in s.pcs && t.pcs[q] == s.pcs[q]
  {
  }

  /** Every atomic action of every process keeps the invariant. */
  lemma StepKeepsInv(s: State, a: Action)
    requires Inv(s) && Enabled(s, a) && StillThere(s, a)
    ensures Inv(Apply(s, a))
  {
    var t := Apply(s, a);
    assert Ready(s, a);
    ActorIsStable(s, a);
    ActorGuarantees(s, a);
    ReadyIsKnown(s, a);
    StepKeepsBounded(s, a);
    OnlyTheActorMoves(s, a);
    hide Apply, Stable, Guarantee, Bounded, Sound;
    forall q | q in t.pcs && q != a.p
      ensures Stable(t, q, t.pcs[q])
    {
      assert Stable(s, q, s.pcs[q]);
      OthersKeepStable(s, t, a.p, q, s.pcs[q]);
    }
  }

  lemma {:induction false} RunKeepsInv(s: State, trace: seq<Action>, t: State)
    requires Inv(s) && Runs(Always, s, trace, t)
    ensures Inv(t)
    decreases |trace|
  {
    if trace != [] {
      StepKeepsInv(s, trace[0]);
      RunKeepsInv(Apply(s, trace[0]), trace[1..], t);
    }
  }

  // ---- safety over every run ----------------------------------------------------

  /** At most one process is ever between passing the inode comparison and publishing. */
  lemma AtMostOnePublisher(trace: seq<Action>, t: State, p: Pid, q: Pid)
    requires Runs(Always, Empty, trace, t)
    requires Critical(PcOf(t, p)) && Critical(PcOf(t, q))
    ensures p == q
  {
    RunKeepsInv(Empty, trace, t);
    assert Stable(t, p, t.pcs[p]) && Stable(t, q, t.pcs[q]);
  }

  /** `agend.db` is bound to a complete database and no rename is about to replace it. */
  ghost predicate Bound(s: State)
  {
    && s.db.Some? && s.db.value in s.migrated
    && forall p <- s.pcs :: !s.pcs[p].Absent?
  }

  /** Once published the database is out of reach of every process, whatever happens
      to the build name. */
  lemma {:induction false} BoundForever(rule: Rule, s: State, trace: seq<Action>, t: State)
    requires Bound(s) && Runs(rule, s, trace, t)
    ensures Bound(t) && t.db == s.db
    decreases |trace|
  {
    if trace != [] {
      BoundForever(rule, Apply(s, trace[0]), trace[1..], t);
    }
  }

  /** What the protocol is for: later states name the same complete database. */
  ghost predicate DatabaseIsSafe(s: State, t: State)
  {
    && (t.db.Some? ==> t.db.value in t.migrated)
    && (s.db.Some? ==> t.db == s.db)
  }

  lemma {:induction false} SafeFromInv(s: State, trace: seq<Action>, t: State)
    requires Inv(s) && Runs(UntilPublished, s, trace, t)
    ensures DatabaseIsSafe(s, t)
    ensures Inv(t) || Bound(t)
    decreases |trace|
  {
    if s.db.Some? {
      assert Bound(s) by {
        forall p | p in s.pcs ensures !s.pcs[p].Absent? { assert Stable(s, p, s.pcs[p]); }
      }
      BoundForever(UntilPublished, s, trace, t);
    } else if trace != [] {
      StepKeepsInv(s, trace[0]);
      SafeFromInv(Apply(s, trace[0]), trace[1..], t);
    }
  }

  /** `agend.db` only ever names a fully migrated file and, once bound, is never rebound:
      for any number of processes, any interleaving, any stops, with and without hard links. */
  lemma DatabaseIsCompleteAndNeverRebound(before: seq<Action>, s: State, after: seq<Action>, t: State)
    requires Runs(UntilPublished, Empty, before, s) && Runs(UntilPublished, s, after, t)
    ensures s.db.Some? ==> s.db.value in s.migrated
    ensures DatabaseIsSafe(s, t)
  {
    SafeFromInv(Empty, before, s);
    if Inv(s) {
      SafeFromInv(s, after, t);
    } else {
      BoundForever(UntilPublished, s, after, t);
    }
  }

  // ---- the condition is exact ---------------------------------------------------

  lemma Prepend(rule: Rule, s: State, a: Action, trace: seq<Action>, t: State)
    requires Enabled(s, a) && Obeys(rule, s, a) && Runs(rule, Apply(s, a), trace, t)
    ensures Runs(rule, s, [a] + trace, t)
  {
    assert ([a] + trace)[1..] == trace;
  }

  lemma {:induction false} Append(rule: Rule, s: State, trace: seq<Action>, m: State, a: Action)
    requires Runs(rule, s, trace, m) && Enabled(m, a) && Obeys(rule, m, a)
    ensures Runs(rule, s, trace + [a], Apply(m, a))
    decreases |trace|
  {
    if trace == [] {
      assert (trace + [a])[1..] == [];
    } else {
      Append(rule, Apply(s, trace[0]), trace[1..], m, a);
      assert (trace + [a])[1..] == trace[1..] + [a];
    }
  }

  lemma UnusedPid(used: set<Pid>) returns (q: Pid)
    ensures q !in used
  {
    q := 0;
    var rest := used;
    while rest != {}
      invariant rest <= used && forall x :: x in used && x !in rest ==> x < q
      decreases rest
    {
      var p :| p in rest;
      rest, q := rest - {p}, if p < q then q else p + 1;
    }
  }

  /** A creator `q` has built its file; `p` removes its name and puts a new file there:
      `q` publishes the unmigrated replacement. */
  lemma PublishesTheReplacement(s: State, p: Pid, q: Pid) returns (trace: seq<Action>, t: State)
    requires PcOf(s, p).LeftoverLocked? && q != p && PcOf(s, q).Publishing?
    requires s.db.None? && s.build.Some? && s.next !in s.migrated
    ensures Runs(Always, s, trace, t) && t.db.Some? && t.db.value !in t.migrated
  {
    var s7 := Apply(s, Action(p, RemoveLeftover));
    var s8 := Apply(s7, Action(p, Create));
    t := Apply(s8, Action(q, Link));
    assert t.db == Some(s.next);
    trace := [];
    trace := Then(s8, Action(q, Link), trace, t);
    trace := Then(s7, Action(p, Create), trace, t);
    trace := Then(s, Action(p, RemoveLeftover), trace, t);
  }

  /** The build path is free and `p` is about to remove whatever will be there: a second
      creator `q` passes every check before `p` moves. */
  lemma ReplacedUnderneath(s: State, p: Pid, q: Pid) returns (trace: seq<Action>, t: State)
    requires Bounded(s) && PcOf(s, p).LeftoverLocked? && q != p && PcOf(s, q).Creating?
    requires PcOf(s, q).kept.Some? ==> PcOf(s, q).kept.value < s.next
    requires s.db.None? && s.build.None?
    ensures Runs(Always, s, trace, t) && t.db.Some? && t.db.value !in t.migrated
  {
    var s1 := Apply(s, Action(q, Create));
    var s2 := Apply(s1, Action(q, OpenBuild));
    var s3 := Apply(s2, Action(q, LockBuild));
    var s4 := Apply(s3, Action(q, DropLeftover));
    var s5 := Apply(s4, Action(q, Compare));
    var s6 := Apply(s5, Action(q, Migrate));
    assert s6.migrated == s.migrated + {s.next} && s6.next == s.next + 1;
    trace, t := PublishesTheReplacement(s6, p, q);
    trace := Then(s5, Action(q, Migrate), trace, t);
    trace := Then(s4, Action(q, Compare), trace, t);
    trace := Then(s3, Action(q, DropLeftover), trace, t);
    trace := Then(s2, Action(q, LockBuild), trace, t);
    trace := Then(s1, Action(q, OpenBuild), trace, t);
    trace := Then(s, Action(q, Create), trace, t);
  }

  lemma Then(s: State, a: Action, rest: seq<Action>, t: State) returns (trace: seq<Action>)
    requires Enabled(s, a) && StillThere(s, a) && Runs(Always, Apply(s, a), rest, t)
    ensures trace == [a] + rest && Runs(Always, s, trace, t)
  {
    Prepend(Always, s, a, rest, t);
    trace := [a] + rest;
  }

  /** A leftover locked after it left the path breaks the protocol from every state in
      which `agend.db` does not exist yet, even if every later leftover is still there. */
  lemma LockingAVanishedLeftoverBreaks(s: State, p: Pid) returns (trace: seq<Action>, t: State)
    requires Bounded(s) && Sound(s) && PcOf(s, p).LeftoverLocked?
    requires s.db.None? && s.build != Some(PcOf(s, p).i)
    requires forall i :: Holds(s, p, i) ==> i == PcOf(s, p).i
    ensures Runs(Always, s, trace, t) && t.db.Some? && t.db.value !in t.migrated
  {
    var q := UnusedPid(s.pcs.Keys);
    var a1, a2 := Action(q, StatDb), Action(q, OpenLeftover);
    if s.build.None? {
      var s1 := Apply(s, a1);
      var s2 := Apply(s1, a2);
      trace, t := ReplacedUnderneath(s2, p, q);
      trace := Then(s1, a2, trace, t);
      trace := Then(s, a1, trace, t);
    } else if s.build.value !in s.holder {
      trace, t := RebuildThenReplace(s, p, q);
    } else {
      // The process that locks the build file stops first.
      var r, j := s.holder[s.build.value], s.build.value;
      assert Holds(s, r, j) && r != p;
      var s0 := if PcOf(s, r).Gone? then s else Apply(s, Action(r, Exit));
      var s1 := Apply(s0, Action(r, Unlock(j)));
      trace, t := RebuildThenReplace(s1, p, q);
      trace := Then(s0, Action(r, Unlock(j)), trace, t);
      if !PcOf(s, r).Gone? {
        trace := Then(s, Action(r, Exit), trace, t);
      }
    }
  }

  lemma RebuildThenReplace(s: State, p: Pid, q: Pid) returns (trace: seq<Action>, t: State)
    requires Bounded(s) && Sound(s) && PcOf(s, p).LeftoverLocked? && q != p && PcOf(s, q).Start?
    requires s.db.None? && s.build.Some? && s.build.value !in s.holder
    ensures Runs(Always, s, trace, t) && t.db.Some? && t.db.value !in t.migrated
  {
    var s1 := Apply(s, Action(q, StatDb));
    var s2 := Apply(s1, Action(q, OpenLeftover));
    var s3 := Apply(s2, Action(q, LockLeftover));
    var s4 := Apply(s3, Action(q, RemoveLeftover));
    assert forall i <- s4.holder :: (i in s.holder && s4.holder[i] == s.holder[i]) || s4.holder[i] == q;
    trace, t := ReplacedUnderneath(s4, p, q);
    trace := Then(s3, Action(q, RemoveLeftover), trace, t);
    trace := Then(s2, Action(q, LockLeftover), trace, t);
    trace := Then(s1, Action(q, OpenLeftover), trace, t);
    trace := Then(s, Action(q, StatDb), trace, t);
  }

  ghost predicate Reaches(s: State, t: State) { exists trace :: Runs(Always, s, trace, t) }

  /** Exactly when locking a leftover is safe: it is still at the build path, or
      `agend.db` already exists. Nothing else the later run does matters. */
  lemma LeftoverLockIsSafeIff(s: State, p: Pid)
    requires Inv(s) && PcOf(s, p).LeftoverOpened? && PcOf(s, p).i !in s.holder
    ensures (forall t :: Reaches(Apply(s, Action(p, LockLeftover)), t) ==> DatabaseIsSafe(s, t))
            <==> (s.build == Some(PcOf(s, p).i) || s.db.Some?)
  {
    var a := Action(p, LockLeftover);
    var u := Apply(s, a);
    if s.build == Some(PcOf(s, p).i) || s.db.Some? {
      forall t | Reaches(u, t)
        ensures DatabaseIsSafe(s, t)
      {
        var trace :| Runs(Always, u, trace, t);
        Weaken(u, trace, t);
        Prepend(UntilPublished, s, a, trace, t);
        SafeFromInv(s, [a] + trace, t);
      }
    } else {
      assert forall i <- u.holder :: (i in s.holder && u.holder[i] == s.holder[i]) || i == PcOf(s, p).i;
      var trace, t := LockingAVanishedLeftoverBreaks(u, p);
      assert Reaches(u, t) && !DatabaseIsSafe(s, t);
    }
  }

  lemma {:induction false} Weaken(s: State, trace: seq<Action>, t: State)
    requires Runs(Always, s, trace, t)
    ensures Runs(UntilPublished, s, trace, t) && Runs(Anything, s, trace, t)
    decreases |trace|
  {
    if trace != [] {
      Weaken(Apply(s, trace[0]), trace[1..], t);
    }
  }

  /** The code as it is does not keep the promise: a creator stops and leaves a build file,
      process 1 opens it, process 2 locks and removes it and stops, process 1 locks the
      removed file, and a third creator then publishes an unmigrated `agend.db`. */
  lemma UnsafeAsCoded() returns (trace: seq<Action>, t: State)
    ensures Runs(Anything, Empty, trace, t) && t.db.Some? && t.db.value !in t.migrated
  {
    var s1 := State(None, Some(0), map[], {}, 1, map[0 := Gone]);
    var s2 := s1.(pcs := s1.pcs[1 := LeftoverOpened(0)]);
    var s3 := s2.(build := None, pcs := s2.pcs[2 := Gone]);
    var u := Apply(s3, Action(1, LockLeftover));
    trace, t := LockingAVanishedLeftoverBreaks(u, 1);
    Weaken(u, trace, t);
    trace := ThenAny(s3, Action(1, LockLeftover), trace, t);
    trace := ACreatorRemovesTheLeftover(s2, trace, t);
    assert Apply(Apply(s1, Action(1, StatDb)), Action(1, OpenLeftover)) == s2;
    trace := ThenAny(Apply(s1, Action(1, StatDb)), Action(1, OpenLeftover), trace, t);
    trace := ThenAny(s1, Action(1, StatDb), trace, t);
    trace := ACreatorStops(s1, trace, t);
  }

  lemma ACreatorStops(s: State, rest: seq<Action>, t: State) returns (trace: seq<Action>)
    requires s == State(None, Some(0), map[], {}, 1, map[0 := Gone]) && Runs(Anything, s, rest, t)
    ensures Runs(Anything, Empty, trace, t)
  {
    var a := Apply(Empty, Action(0, StatDb));
    var b := Apply(a, Action(0, OpenLeftover));
    var c := Apply(b, Action(0, Create));
    assert Apply(c, Action(0, Exit)) == s;
    trace := ThenAny(c, Action(0, Exit), rest, t);
    trace := ThenAny(b, Action(0, Create), trace, t);
    trace := ThenAny(a, Action(0, OpenLeftover), trace, t);
    trace := ThenAny(Empty, Action(0, StatDb), trace, t);
  }

  lemma ACreatorRemovesTheLeftover(s: State, rest: seq<Action>, t: State) returns (trace: seq<Action>)
    requires s.db.None? && s.build == Some(0) && s.holder == map[] && 2 !in s.pcs
    requires Runs(Anything, s.(build := None, pcs := s.pcs[2 := Gone]), rest, t)
    ensures Runs(Anything, s, trace, t)
  {
    var a := Apply(s, Action(2, StatDb));
    var b := Apply(a, Action(2, OpenLeftover));
    var c := Apply(b, Action(2, LockLeftover));
    assert c == s.(holder := map[0 := 2], pcs := s.pcs[2 := LeftoverLocked(0)]);
    trace := ItStops(s, c, rest, t);
    trace := ThenAny(b, Action(2, LockLeftover), trace, t);
    trace := ThenAny(a, Action(2, OpenLeftover), trace, t);
    trace := ThenAny(s, Action(2, StatDb), trace, t);
  }

  lemma ItStops(s: State, c: State, rest: seq<Action>, t: State) returns (trace: seq<Action>)
    requires s.holder == map[] && c == s.(holder := map[0 := 2], pcs := s.pcs[2 := LeftoverLocked(0)])
    requires Runs(Anything, s.(build := None, pcs := s.pcs[2 := Gone]), rest, t)
    ensures Runs(Anything, c, trace, t)
  {
    var d := Apply(c, Action(2, RemoveLeftover));
    trace := ItIsGone(s.(build := None), d, rest, t);
    trace := ThenAny(c, Action(2, RemoveLeftover), trace, t);
  }

  lemma ItIsGone(s: State, d: State, rest: seq<Action>, t: State) returns (trace: seq<Action>)
    requires s.holder == map[]
    requires d == s.(holder := map[0 := 2], pcs := s.pcs[2 := LeftoverLocked(0)][2 := Creating(Some(0))])
    requires Runs(Anything, s.(pcs := s.pcs[2 := Gone]), rest, t)
    ensures Runs(Anything, d, trace, t)
  {
    var e := Apply(d, Action(2, Exit));
    assert Apply(e, Action(2, Unlock(0))) == s.(pcs := s.pcs[2 := Gone]);
    trace := ThenAny(e, Action(2, Unlock(0)), rest, t);
    trace := ThenAny(d, Action(2, Exit), trace, t);
  }

  lemma ThenAny(s: State, a: Action, rest: seq<Action>, t: State) returns (trace: seq<Action>)
    requires Enabled(s, a) && Runs(Anything, Apply(s, a), rest, t)
    ensures trace == [a] + rest && Runs(Anything, s, trace, t)
  {
    Prepend(Anything, s, a, rest, t);
    trace := [a] + rest;
  }
}
