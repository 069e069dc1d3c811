/**
  Any process of the creation protocol (crates/agend-daemon/src/store.rs) that is left
  alone, wherever it stands and whatever the others have done so far: whether it ends up
  serving `agend.db`, and what it leaves in the home directory.
*/
module StoreAlone {
  import opened Common
  import opened StoreCreation
  import opened StoreOpen

  /** The call a process makes next. */
  function NextCall(pc: Pc, hardLinks: bool): Act
    requires !pc.Serving? && !pc.Gone?
  {
    match pc
    case Start => StatDb
    case Leftover => OpenLeftover
    case LeftoverOpened(_) => LockLeftover
    case LeftoverLocked(_) => RemoveLeftover
    case Creating(_) => Create
    case Created(_, _) => OpenBuild
    case Opened(_, _, _) => LockBuild
    case Locked(_, _, _) => DropLeftover
    case Comparing(_, _) => Compare
    case Building(_, _) => Migrate
    case Publishing(_, _) => if hardLinks then Link else LinkUnsupported
    case Linked(_, _) => RemoveLinked
    case NoLinks(_, _) => CheckAbsent
    case Absent(_, _) => Rename
    case Published(_) => Close
    case Opening => OpenDb
    case DbOpened(_) => LockDb
    case DbLocked(_) => CheckDb
    case DbSecondName(_) => RemoveSecondName
  }

  /** How far a process has come: every call of its own brings it further, so none retries. */
  function Rank(pc: Pc): nat
  {
    match pc
    case Start => 0
    case Leftover => 1
    case LeftoverOpened(_) => 2
    case LeftoverLocked(_) => 3
    case Creating(_) => 4
    case Created(_, _) => 5
    case Opened(_, _, _) => 6
    case Locked(_, _, _) => 7
    case Comparing(_, _) => 8
    case Building(_, _) => 9
    case Publishing(_, _) => 10
    case Linked(_, _) => 11
    case NoLinks(_, _) => 11
    case Absent(_, _) => 12
    case Published(_) => 13
    case Opening => 14
    case DbOpened(_) => 15
    case DbLocked(_) => 16
    case DbSecondName(_) => 17
    case Serving(_) => 18
    case Gone => 19
  }

  lemma EveryCallAdvances(s: State, a: Action)
    requires Enabled(s, a) && !a.act.Unlock?
    ensures Rank(PcOf(s, a.p)) < Rank(PcOf(Apply(s, a), a.p)) <= 19
  {
  }

  /** Nobody keeps the process from locking this file: it is free, or the only lock on it is
      one the process drops on its way. */
  ghost predicate Free(s: State, i: Inode, dropped: set<Inode>) { i !in s.holder || i in dropped }

  function Kept(kept: Option<Inode>): set<Inode> { if kept.Some? then {kept.value} else {} }

  /** `agend.db` is free for this process, or does not exist yet. */
  ghost predicate DbFree(s: State, dropped: set<Inode>) { s.db.None? || Free(s, s.db.value, dropped) }

  /** When a process that is left alone will serve. */
  ghost predicate WillServe(s: State, p: Pid)
  {
    match PcOf(s, p)
    case Gone => false
    // It looks for `agend.db` first, and for a leftover only without one.
    case Start => if s.db.Some? then s.db.value !in s.holder else s.build.None? || s.build.value !in s.holder
    case Leftover => DbFree(s, {}) && (s.build.None? || s.build.value !in s.holder)
    case LeftoverOpened(i) => DbFree(s, {}) && i !in s.holder
    case LeftoverLocked(i) => DbFree(s, {i})
    // Its own build file must be the one at the path, and not locked by another creator.
    case Creating(kept) => DbFree(s, Kept(kept)) && s.build.None?
    case Created(kept, mine) => DbFree(s, Kept(kept)) && s.build == Some(mine) && mine !in s.holder
    case Opened(kept, mine, conn) => DbFree(s, Kept(kept)) && s.build == Some(mine) && conn !in s.holder
    case Locked(kept, mine, _) => DbFree(s, Kept(kept) + {mine}) && s.build == Some(mine)
    case Comparing(mine, _) => DbFree(s, {mine}) && s.build == Some(mine)
    // Published by another creator meanwhile, `agend.db` is served all the same.
    case Building(mine, _) => DbFree(s, {mine})
    case Publishing(mine, _) => DbFree(s, {mine})
    case NoLinks(mine, _) => DbFree(s, {mine})
    case Absent(_, _) => true
    case Linked(_, _) => true
    case Published(conn) => s.db.Some? && (s.db.value !in s.holder || (s.db.value == conn && Holds(s, p, conn)))
    case Opening => s.db.Some? && s.db.value !in s.holder
    case DbOpened(i) => i !in s.holder
    case DbLocked(_) => true
    case DbSecondName(_) => true
    case Serving(_) => true
  }

  /** The file it will serve: the database that is there, or the build file of its own. */
  function WillBeDb(s: State, p: Pid): Inode
  {
    if s.db.Some? then s.db.value
    else
      match PcOf(s, p)
      case Created(_, mine) => mine
      case Opened(_, mine, _) => mine
      case Locked(_, mine, _) => mine
      case Comparing(mine, _) => mine
      case Building(mine, _) => mine
      case Publishing(mine, _) => mine
      case NoLinks(mine, _) => mine
      case Absent(mine, _) => mine
      case _ => s.next
  }

  /** What it will leave at the build path: nothing when it publishes or when the path is a
      second name of the database, otherwise the file that is there, or its own. */
  function WillBeBuild(s: State, p: Pid): Option<Inode>
  {
    var pc := PcOf(s, p);
    if s.db.None? || pc.Linked? then None
    else if pc.Leftover? || pc.LeftoverOpened? || pc.LeftoverLocked? || pc.Creating? then Some(s.next)
    else if s.build == s.db && !pc.Serving? then None
    else s.build
  }

  /** What an acting process that is alone knows. */
  ghost predicate Alone(s: State, p: Pid)
  {
    Inv(s) && (PcOf(s, p).LeftoverOpened? ==> s.build == Some(PcOf(s, p).i))
  }

  /** What a process ends with is the same before and after each of its calls. */
  ghost predicate SameEnd(s: State, t: State, p: Pid)
  {
    && (WillServe(s, p) <==> WillServe(t, p))
    && (WillServe(s, p) ==> WillBeDb(t, p) == WillBeDb(s, p) && WillBeBuild(t, p) == WillBeBuild(s, p))
    && (PcOf(t, p).LeftoverOpened? ==> t.build == Some(PcOf(t, p).i))
    && (s.db.Some? ==> t.db == s.db)
  }

  lemma CallKeepsTheEnd(s: State, p: Pid, hardLinks: bool)
    requires Alone(s, p) && !PcOf(s, p).Serving? && !PcOf(s, p).Gone?
    ensures var a := Action(p, NextCall(PcOf(s, p), hardLinks));
            Enabled(s, a) && StillThere(s, a) && SameEnd(s, Apply(s, a), p)
  {
    var pc := PcOf(s, p);
    if Rank(pc) <= 4 {
      EarlyCall(s, p, hardLinks);
    } else if Rank(pc) <= 6 {
      LockCall(s, p, hardLinks);
    } else if Rank(pc) <= 9 {
      BuildCall(s, p, hardLinks);
    } else if Rank(pc) <= 12 {
      PublishCall(s, p, hardLinks);
    } else {
      OpenCall(s, p, hardLinks);
    }
  }

  lemma EarlyCall(s: State, p: Pid, hardLinks: bool)
    requires Alone(s, p) && Rank(PcOf(s, p)) <= 4
    ensures var a := Action(p, NextCall(PcOf(s, p), hardLinks));
            Enabled(s, a) && StillThere(s, a) && SameEnd(s, Apply(s, a), p)
  {
    assert p in s.pcs ==> Stable(s, p, s.pcs[p]);
  }

  lemma LockCall(s: State, p: Pid, hardLinks: bool)
    requires Alone(s, p) && 5 <= Rank(PcOf(s, p)) <= 6
    ensures var a := Action(p, NextCall(PcOf(s, p), hardLinks));
            Enabled(s, a) && StillThere(s, a) && SameEnd(s, Apply(s, a), p)
  {
    assert Stable(s, p, s.pcs[p]);
  }

  lemma BuildCall(s: State, p: Pid, hardLinks: bool)
    requires Alone(s, p) && 7 <= Rank(PcOf(s, p)) <= 9
    ensures var a := Action(p, NextCall(PcOf(s, p), hardLinks));
            Enabled(s, a) && StillThere(s, a) && SameEnd(s, Apply(s, a), p)
  {
    assert Stable(s, p, s.pcs[p]);
  }

  lemma PublishCall(s: State, p: Pid, hardLinks: bool)
    requires Alone(s, p) && 10 <= Rank(PcOf(s, p)) <= 12
    ensures var a := Action(p, NextCall(PcOf(s, p), hardLinks));
            Enabled(s, a) && StillThere(s, a) && SameEnd(s, Apply(s, a), p)
  {
    assert Stable(s, p, s.pcs[p]);
  }

  lemma OpenCall(s: State, p: Pid, hardLinks: bool)
    requires Alone(s, p) && 13 <= Rank(PcOf(s, p)) <= 17
    ensures var a := Action(p, NextCall(PcOf(s, p), hardLinks));
            Enabled(s, a) && StillThere(s, a) && SameEnd(s, Apply(s, a), p)
  {
    assert Stable(s, p, s.pcs[p]);
  }

  lemma ServesItsDb(s: State, p: Pid)
    requires Inv(s) && PcOf(s, p).Serving?
    ensures s.db == Some(PcOf(s, p).i) && s.db.value in s.migrated && Holds(s, p, s.db.value)
  {
    assert Stable(s, p, s.pcs[p]);
  }

  /** A process left alone anywhere in the protocol comes to an end, and serves if and only
      if the files it still has to lock are free and its own build file is the one at the
      path. It then holds the lock on a migrated `agend.db`: the one that was there, which
      it never replaces, or its own. What it leaves at the build path is named. */
  method Finish(home: Home, p: Pid, hardLinks: bool) returns (serves: bool)
    requires home.Valid() && Alone(home.s, p)
    modifies home
    ensures home.Valid() && old(home.trace) <= home.trace
    ensures serves == old(WillServe(home.s, p))
    ensures if serves then PcOf(home.s, p) == Serving(old(WillBeDb(home.s, p))) else PcOf(home.s, p).Gone?
    ensures serves ==> home.s.db == Some(old(WillBeDb(home.s, p))) && home.s.db.value in home.s.migrated
    ensures serves ==> Holds(home.s, p, home.s.db.value) && home.s.build == old(WillBeBuild(home.s, p))
    ensures old(home.s).db.Some? ==> home.s.db == old(home.s).db
  {
    hide Runs, Apply, Stable;
    ghost var before := home.s;
    while !PcOf(home.s, p).Serving? && !PcOf(home.s, p).Gone?
      invariant home.Valid() && Alone(home.s, p) && old(home.trace) <= home.trace
      invariant SameEnd(before, home.s, p)
      decreases 19 - Rank(PcOf(home.s, p))
    {
      ghost var now := home.s;
      var act := NextCall(PcOf(home.s, p), hardLinks);
      CallKeepsTheEnd(home.s, p, hardLinks);
      EveryCallAdvances(home.s, Action(p, act));
      home.Call(p, act);
      RunKeepsInv(home.origin, home.trace, home.s);
    }
    serves := PcOf(home.s, p).Serving?;
    if serves {
      ServesItsDb(home.s, p);
    }
  }
}
