/**
  `open_connection` (crates/agend-daemon/src/store.rs) as one process runs it while no
  other process moves: what it returns, what it leaves in the home directory, and that its
  system calls are a run of the interleaved protocol.
*/
module StoreOpen {
  import opened Common
  import opened StoreCreation

  datatype Error = InUse
  datatype Result<+T> = Ok(value: T) | Err(error: Error)

  class Home {
    var s: State
    ghost const origin: State
    ghost var trace: seq<Action>

    /** The directory is where the protocol's invariant can put it, and what happened so
        far is a run of the protocol. */
    ghost predicate Valid()
      reads this
    {
      Inv(origin) && Runs(Always, origin, trace, s)
    }

    /** A home in any state the protocol can have left. */
    constructor (found: State)
      requires Inv(found)
      ensures Valid() && s == found && origin == found && trace == []
    {
      s, origin, trace := found, found, [];
    }

    /** One system call of process `p`. */
    method Call(p: Pid, act: Act)
      requires Valid() && Enabled(s, Action(p, act)) && StillThere(s, Action(p, act))
      modifies this
      ensures Valid() && s == Apply(old(s), Action(p, act)) && trace == old(trace) + [Action(p, act)]
    {
      Append(Always, origin, trace, s, Action(p, act));
      s, trace := Apply(s, Action(p, act)), trace + [Action(p, act)];
    }

    /** Removes a leftover build file and keeps its lock. */
    method RemoveLeftoverBuild(p: Pid) returns (r: Result<Option<Inode>>)
      requires Valid() && PcOf(s, p).Leftover?
      modifies this
      ensures Valid() && old(trace) <= trace
      ensures r.Err? <==> old(s).build.Some? && old(s).build.value in old(s).holder
      ensures r.Err? ==> s == Goto(old(s), p, Gone)
      ensures r.Ok? ==> r.value == old(s).build
      ensures r.Ok? ==> s == old(s).(build := None, pcs := old(s).pcs[p := Creating(r.value)],
                          holder := if r.value.Some? then old(s).holder[r.value.value := p] else old(s).holder)
    {
      hide Inv, Runs;
      Call(p, OpenLeftover);
      if PcOf(s, p).Creating? {
        return Ok(None);
      }
      Call(p, LockLeftover);
      if PcOf(s, p).Gone? {
        return Err(InUse);
      }
      var held := PcOf(s, p).i;
      Call(p, RemoveLeftover);
      return Ok(Some(held));
    }

    /** Publishes the build file: a hard link, or check and rename without hard links. When
        another creator published first, its database stays and so does the build file. */
    method Publish(p: Pid, hardLinks: bool)
      requires Valid() && PcOf(s, p).Publishing?
      modifies this
      ensures Valid() && old(trace) <= trace && PcOf(s, p) == Published(PcOf(old(s), p).mine)
      ensures s == if old(s).db.Some? then old(s).(pcs := s.pcs)
                   else old(s).(db := Some(PcOf(old(s), p).mine), build := None, pcs := s.pcs)
      ensures s.pcs == old(s).pcs[p := s.pcs[p]]
    {
      if hardLinks {
        PublishByLink(p);
      } else {
        PublishByRename(p);
      }
    }

    method PublishByLink(p: Pid)
      requires Valid() && PcOf(s, p).Publishing?
      modifies this
      ensures Valid() && old(trace) <= trace && PcOf(s, p) == Published(PcOf(old(s), p).mine)
      ensures s == if old(s).db.Some? then old(s).(pcs := s.pcs)
                   else old(s).(db := Some(PcOf(old(s), p).mine), build := None, pcs := s.pcs)
      ensures s.pcs == old(s).pcs[p := s.pcs[p]]
    {
      assert Stable(s, p, s.pcs[p]) by { RunKeepsInv(origin, trace, s); }
      hide Inv, Runs;
      Call(p, Link);
      if PcOf(s, p).Linked? {
        Call(p, RemoveLinked);
      }
    }

    method PublishByRename(p: Pid)
      requires Valid() && PcOf(s, p).Publishing?
      modifies this
      ensures Valid() && old(trace) <= trace && PcOf(s, p) == Published(PcOf(old(s), p).mine)
      ensures s == if old(s).db.Some? then old(s).(pcs := s.pcs)
                   else old(s).(db := Some(PcOf(old(s), p).mine), build := None, pcs := s.pcs)
      ensures s.pcs == old(s).pcs[p := s.pcs[p]]
    {
      assert Stable(s, p, s.pcs[p]) by { RunKeepsInv(origin, trace, s); }
      hide Inv, Runs;
      Call(p, LinkUnsupported);
      Call(p, CheckAbsent);
      if PcOf(s, p).Absent? {
        Call(p, Rename);
      }
    }

    /** Creates the build file at the free path, locks it, compares and migrates it. */
    method Build(p: Pid, leftover: Option<Inode>)
      requires Valid() && PcOf(s, p) == Creating(leftover) && s.build.None?
      requires s.next !in s.holder && (leftover.Some? ==> leftover.value < s.next && Holds(s, p, leftover.value))
      modifies this
      ensures Valid() && old(trace) <= trace
      ensures s == old(s).(build := Some(old(s).next), next := old(s).next + 1, pcs := s.pcs,
                           migrated := old(s).migrated + {old(s).next}, holder := s.holder)
      ensures s.pcs == old(s).pcs[p := Publishing(old(s).next, old(s).next)]
      ensures s.holder == (if leftover.Some? then old(s).holder - {leftover.value} else old(s).holder)[old(s).next := p]
    {
      hide Inv, Runs;
      Call(p, Create);
      Call(p, OpenBuild);
      Call(p, LockBuild);
      Call(p, DropLeftover);
      Call(p, Compare);
      Call(p, Migrate);
    }

    /** Builds a database from scratch and publishes it. */
    method CreateDatabase(p: Pid, hardLinks: bool) returns (r: Result<()>)
      requires Valid() && PcOf(s, p).Leftover? && s.db.None?
      modifies this
      ensures Valid() && old(trace) <= trace
      ensures r.Err? <==> old(s).build.Some? && old(s).build.value in old(s).holder
      ensures r.Err? ==> r.error.InUse? && s == Goto(old(s), p, Gone)
      ensures r.Ok? ==> PcOf(s, p).Opening? && s.pcs == old(s).pcs[p := Opening]
      ensures r.Ok? ==> s.db == Some(old(s).next) && s.build.None? && s.next == old(s).next + 1
      ensures r.Ok? ==> s.holder == old(s).holder && s.migrated == old(s).migrated + {old(s).next}
    {
      var leftover := RemoveLeftoverBuild(p);
      if leftover.Err? {
        return Err(InUse);
      }
      assert Bounded(s) && Stable(s, p, PcOf(s, p)) by { RunKeepsInv(origin, trace, s); }
      hide Inv, Runs, Bounded, Stable;
      assert s.next !in s.holder;
      Build(p, leftover.value);
      Publish(p, hardLinks);
      Call(p, Close);
      return Ok(());
    }

    /** Locks the existing `agend.db`, checks it and drops its second name. */
    method Serve(p: Pid) returns (r: Result<Inode>)
      requires Valid() && PcOf(s, p).Opening? && s.db.Some? && s.db.value in s.migrated
      modifies this
      ensures Valid() && old(trace) <= trace
      ensures r.Ok? <==> old(s).db.value !in old(s).holder
      ensures r.Err? ==> r.error.InUse? && s == Goto(old(s), p, Gone)
      ensures r.Ok? ==> r.value == old(s).db.value
      ensures r.Ok? ==> s == old(s).(holder := old(s).holder[r.value := p],
                                     build := if old(s).build == old(s).db then None else old(s).build,
                                     pcs := old(s).pcs[p := Serving(r.value)])
    {
      hide Inv, Runs;
      Call(p, OpenDb);
      Call(p, LockDb);
      if PcOf(s, p).Gone? {
        return Err(InUse);
      }
      Call(p, CheckDb);
      if PcOf(s, p).DbSecondName? {
        Call(p, RemoveSecondName);
      }
      return Ok(PcOf(s, p).i);
    }

    /** From every state the protocol can leave, a process that opens alone succeeds unless
        the file it needs is locked, and then serves a complete `agend.db` under its own
        lock. An existing database is kept; a missing one is built from scratch, never
        from a leftover. A build name that is a second name of the database is removed;
        a build file of its own is left to its creator. */
    method OpenConnection(p: Pid, hardLinks: bool) returns (r: Result<Inode>)
      requires Valid() && p !in s.pcs
      modifies this
      ensures Valid() && old(trace) <= trace
      ensures r.Ok? <==> if old(s).db.Some? then old(s).db.value !in old(s).holder
                         else old(s).build.None? || old(s).build.value !in old(s).holder
      ensures r.Ok? ==> s.db == Some(r.value) && r.value in s.migrated
      ensures r.Ok? ==> s.holder == old(s).holder[r.value := p] && PcOf(s, p) == Serving(r.value)
      ensures r.Ok? && old(s).db.Some? ==> s.db == old(s).db && s.migrated == old(s).migrated
      ensures r.Ok? && old(s).db.Some? ==> s.build == if old(s).build == old(s).db then None else old(s).build
      ensures r.Ok? && old(s).db.None? ==> r.value == old(s).next && s.build.None?
      ensures r.Err? ==> r.error.InUse? && s == Goto(old(s), p, Gone)
    {
      RunKeepsInv(origin, trace, s);
      Call(p, StatDb);
      if PcOf(s, p).Leftover? {
        var created := CreateDatabase(p, hardLinks);
        if created.Err? {
          return Err(created.error);
        }
      }
      r := Serve(p);
    }
  }

  /** From every state reachable with any number of processes, any interleaving and stops
      at any point, once the stopped processes' locks are gone: a process that then opens
      alone succeeds and is the only one to hold a lock, on a migrated `agend.db`. A
      database that was there is kept, and a build name left as its second name, by a
      stop between linking and removing, is gone. */
  method RecoverAfterAnyStops(ghost trace: seq<Action>, found: State, p: Pid, hardLinks: bool)
    returns (home: Home, i: Inode)
    requires Runs(Always, Empty, trace, found) && found.holder == map[] && p !in found.pcs
    ensures home.s.db == Some(i) && i in home.s.migrated
    ensures home.s.holder == map[i := p] && PcOf(home.s, p) == Serving(i)
    ensures found.db.Some? ==> home.s.db == found.db && home.s.migrated == found.migrated
    ensures found.db.Some? ==> home.s.build == if found.build == found.db then None else found.build
    ensures found.db.None? ==> i == found.next && home.s.build.None?
    ensures exists more :: Runs(Always, found, more, home.s)
  {
    RunKeepsInv(Empty, trace, found);
    hide Inv;
    home := new Home(found);
    var r := home.OpenConnection(p, hardLinks);
    i := r.value;
    assert Runs(Always, found, home.trace, home.s);
  }
}
