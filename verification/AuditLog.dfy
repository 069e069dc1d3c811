/**
  Rotation and retention of the shim audit log: `audit_log` and `delete_dated`
  (crates/agend-daemon/src/housekeeping.rs).
*/
module AuditLog {
  import opened Common
  import opened Calendar

  /** A directory entry; `content` stands for what a file holds. */
  datatype Entry = File(content: nat) | NotAFile

  datatype Live = Live(modifiedMs: nat, content: nat)

  /** The audit directory: `shim.jsonl` and everything beside it. */
  datatype Dir = Dir(live: Option<Live>, entries: map<string, Entry>)

  function Today(ms: nat): nat { ms / DAY_MS }

  const PREFIX := "shim-"
  const SUFFIX := ".jsonl"

  function StripPrefix(s: string, prefix: string): Option<string>
  {
    if prefix <= s then Some(s[|prefix|..]) else None
  }

  function StripSuffix(s: string, suffix: string): Option<string>
  {
    if |suffix| <= |s| && s[|s| - |suffix|..] == suffix then Some(s[..|s| - |suffix|]) else None
  }

  /** The day in the name of a dated file. */
  function DayOf(name: string): Option<int>
  {
    var rest := StripPrefix(name, PREFIX);
    if rest.None? then None
    else
      var date := StripSuffix(rest.value, SUFFIX);
      if date.None? then None else ParseDay(date.value)
  }

  function RotatedName(ms: nat): string { PREFIX + UtcDate(ms) + SUFFIX }

  predicate FourDigitYear(day: nat) { CivilFromDays(day).y <= 9999 }

  /** The name of the log of one day. */
  function NameOfDay(day: nat): string { RotatedName(day * DAY_MS) }

  lemma RotatedOnItsDay(ms: nat)
    ensures RotatedName(ms) == NameOfDay(Today(ms))
  {
    assert Today(Today(ms) * DAY_MS) == Today(ms);
  }

  /** A rotated name reads back as its day exactly while the year has four digits. */
  lemma NameReadsBack(day: nat)
    ensures DayOf(NameOfDay(day)) == if FourDigitYear(day) then Some(day) else None
  {
    var ms := day * DAY_MS;
    assert Today(ms) == day;
    var date := UtcDate(ms);
    var name := RotatedName(ms);
    assert name[|PREFIX|..] == date + SUFFIX;
    assert (date + SUFFIX)[|date + SUFFIX| - |SUFFIX|..] == SUFFIX;
    assert (date + SUFFIX)[..|date|] == date;
    NamesReadBack(ms);
  }

  lemma OneNamePerDay(a: nat, b: nat)
    requires NameOfDay(a) == NameOfDay(b)
    ensures a == b
  {
    hide UtcDate;
    SameMiddle(UtcDate(a * DAY_MS), UtcDate(b * DAY_MS));
    DifferentDaysDifferentNames(a * DAY_MS, b * DAY_MS);
    assert Today(a * DAY_MS) == a && Today(b * DAY_MS) == b;
  }

  lemma SameMiddle(x: string, y: string)
    requires PREFIX + x + SUFFIX == PREFIX + y + SUFFIX
    ensures x == y
  {
    var s := PREFIX + x + SUFFIX;
    assert s[|PREFIX|..|s| - |SUFFIX|] == x;
    assert s[|PREFIX|..|s| - |SUFFIX|] == y;
  }

  // ---- the code -----------------------------------------------------------------

  /** A dated file that `delete_dated` removes. */
  predicate Expired(name: string, entry: Entry, keepDays: nat, today: nat)
  {
    DayOf(name).Some? && entry.File? && today - DayOf(name).value >= keepDays
  }

  /** What `delete_dated` leaves. */
  function Kept(entries: map<string, Entry>, keepDays: nat, today: nat): map<string, Entry>
  {
    map name <- entries | !Expired(name, entries[name], keepDays, today) :: entries[name]
  }

  /** `delete_dated`: the directory is read in any order; exactly the expired files go. */
  method DeleteDated(entries: map<string, Entry>, keepDays: nat, nowMs: nat) returns (left: map<string, Entry>)
    ensures left == Kept(entries, keepDays, Today(nowMs))
    ensures forall name :: name in left <==>
              && name in entries
              && !(entries[name].File? && DayOf(name).Some? && nowMs / DAY_MS - DayOf(name).value >= keepDays)
    ensures forall name <- left :: left[name] == entries[name]
  {
    left := entries;
    var unread := entries.Keys;
    while unread != {}
      invariant unread <= entries.Keys
      invariant forall name :: name in left <==>
        name in entries && (name in unread || !Expired(name, entries[name], keepDays, Today(nowMs)))
      invariant forall name <- left :: left[name] == entries[name]
      decreases |unread|
    {
      var name :| name in unread;
      unread := unread - {name};
      var day := DayOf(name);
      if day.Some? && entries[name].File? && Today(nowMs) - day.value >= keepDays {
        left := left - {name};
      }
    }
  }

  /** What one run makes of the directory. */
  function Audited(dir: Dir, keepDays: nat, nowMs: nat): Dir
  {
    var rotated := Rotated(dir, nowMs);
    Dir(rotated.live, Kept(rotated.entries, keepDays, Today(nowMs)))
  }

  predicate Stale(dir: Dir, nowMs: nat) { dir.live.Some? && Today(dir.live.value.modifiedMs) < Today(nowMs) }

  /** The rename: only a log of an earlier day, and only to a name that is free. */
  function Rotated(dir: Dir, nowMs: nat): Dir
  {
    if !Stale(dir, nowMs) || RotatedName(dir.live.value.modifiedMs) in dir.entries then dir
    else Dir(None, dir.entries[RotatedName(dir.live.value.modifiedMs) := File(dir.live.value.content)])
  }

  /** `audit_log` */
  method AuditLog(dir: Dir, keepDays: nat, nowMs: nat) returns (r: Dir, changed: bool)
    ensures r == Audited(dir, keepDays, nowMs)
    ensures changed <==> r != dir || (Stale(dir, nowMs) && r.live.Some?)
  {
    var live, entries := dir.live, dir.entries;
    changed := false;
    if live.Some? && Today(live.value.modifiedMs) < Today(nowMs) {
      changed := true;
      var name := RotatedName(live.value.modifiedMs);
      if name !in entries {
        entries := entries[name := File(live.value.content)];
        live := None;
      }
    }
    var left := DeleteDated(entries, keepDays, nowMs);
    changed := changed || left != entries;
    r := Dir(live, left);
  }

  // ---- every run under a clock that does not go back ------------------------------

  /** The dated files are rotations, of days before the live log's last write. */
  ghost predicate Inv(dir: Dir, clock: nat)
  {
    && (dir.live.Some? ==> dir.live.value.modifiedMs <= clock)
    && (forall day: nat :: NameOfDay(day) in dir.entries ==> IsRotation(dir, clock, day))
    && (forall name <- dir.entries :: DayOf(name).Some? ==>
          DayOf(name).value >= 0 && name == NameOfDay(DayOf(name).value))
  }

  ghost predicate IsRotation(dir: Dir, clock: nat, day: nat)
    requires NameOfDay(day) in dir.entries
  {
    && dir.entries[NameOfDay(day)].File? && day < Today(clock)
    && (dir.live.Some? ==> day < Today(dir.live.value.modifiedMs))
  }

  datatype Op = Write(atMs: nat, content: nat) | Audit(nowMs: nat)

  function Time(op: Op): nat { if op.Write? then op.atMs else op.nowMs }

  function Step(dir: Dir, keepDays: nat, op: Op): Dir
  {
    match op
    case Write(at, content) => dir.(live := Some(Live(at, content)))
    case Audit(now) => Audited(dir, keepDays, now)
  }

  lemma EarlierYearsAreShorter(day: nat, later: nat)
    requires day <= later && FourDigitYear(later)
    ensures FourDigitYear(day)
  {
    DayNumberUndoesCivil(day);
    DayNumberUndoesCivil(later);
    DayNumberIsStrictlyIncreasing(CivilFromDays(later), CivilFromDays(day));
  }

  /** The rotated name is always free, so a log of an earlier day is always rotated, whole,
      and no rotated file is ever overwritten. */
  lemma RotationAlwaysSucceeds(dir: Dir, clock: nat, nowMs: nat)
    requires Inv(dir, clock) && Stale(dir, nowMs)
    ensures var w := dir.live.value;
            && RotatedName(w.modifiedMs) == NameOfDay(Today(w.modifiedMs))
            && RotatedName(w.modifiedMs) !in dir.entries
            && Rotated(dir, nowMs) == Dir(None, dir.entries[RotatedName(w.modifiedMs) := File(w.content)])
  {
    hide RotatedName;
    RotatedOnItsDay(dir.live.value.modifiedMs);
    var day := Today(dir.live.value.modifiedMs);
    assert NameOfDay(day) in dir.entries ==> IsRotation(dir, clock, day);
  }

  /** After an audit the live log is one written today; the log of an earlier day was moved,
      whole, to the name of its day, where it stays as long as it is young. */
  lemma AuditLeavesTodaysLog(dir: Dir, clock: nat, keepDays: nat, nowMs: nat)
    requires Inv(dir, clock) && clock <= nowMs && dir.live.Some?
    ensures var day, today, after := Today(dir.live.value.modifiedMs), Today(nowMs), Audited(dir, keepDays, nowMs);
            && (day == today ==> after.live == dir.live)
            && (day != today ==> after.live.None?)
            && (day != today && today - day < keepDays ==>
                  NameOfDay(day) in after.entries && after.entries[NameOfDay(day)] == File(dir.live.value.content))
  {
    TodayGoesOn(dir.live.value.modifiedMs, nowMs);
    hide RotatedName, NameOfDay, DayOf, Today;
    var day := Today(dir.live.value.modifiedMs);
    if day < Today(nowMs) {
      RotationAlwaysSucceeds(dir, clock, nowMs);
      YoungFileStays(Rotated(dir, nowMs).entries, day, keepDays, Today(nowMs));
    }
    hide Kept, Inv;
  }

  lemma TodayGoesOn(a: nat, b: nat)
    requires a <= b
    ensures Today(a) <= Today(b)
  {
  }

  lemma YoungFileStays(entries: map<string, Entry>, day: nat, keepDays: nat, today: nat)
    requires NameOfDay(day) in entries
    ensures today - day < keepDays ==>
              NameOfDay(day) in Kept(entries, keepDays, today)
              && Kept(entries, keepDays, today)[NameOfDay(day)] == entries[NameOfDay(day)]
  {
    hide NameOfDay, DayOf;
    NameReadsBack(day);
  }

  lemma RotateKeepsInv(dir: Dir, clock: nat, nowMs: nat)
    requires Inv(dir, clock) && clock <= nowMs
    ensures Inv(Rotated(dir, nowMs), nowMs)
  {
    hide RotatedName, DayOf, FourDigitYear, NameOfDay;
    var r := Rotated(dir, nowMs);
    if Stale(dir, nowMs) {
      var rotated := Today(dir.live.value.modifiedMs);
      RotationAlwaysSucceeds(dir, clock, nowMs);
      NameReadsBack(rotated);
      forall day: nat | NameOfDay(day) in r.entries ensures IsRotation(r, nowMs, day) {
        if NameOfDay(day) in dir.entries {
          assert IsRotation(dir, clock, day);
        } else {
          OneNamePerDay(day, rotated);
        }
      }
    } else {
      forall day: nat | NameOfDay(day) in r.entries ensures IsRotation(r, nowMs, day) {
        assert IsRotation(dir, clock, day);
      }
    }
  }

  lemma StepKeepsInv(dir: Dir, clock: nat, keepDays: nat, op: Op)
    requires Inv(dir, clock) && clock <= Time(op)
    ensures Inv(Step(dir, keepDays, op), Time(op))
  {
    hide NameOfDay, DayOf, Expired;
    var r := Step(dir, keepDays, op);
    var before := if op.Audit? then Rotated(dir, op.nowMs) else dir;
    if op.Audit? {
      RotateKeepsInv(dir, clock, op.nowMs);
    }
    hide Rotated;
    forall day: nat | NameOfDay(day) in r.entries ensures IsRotation(r, Time(op), day) {
      assert IsRotation(before, if op.Audit? then op.nowMs else clock, day);
    }
  }

  /** A run of writes and audits whose clock never goes back. */
  ghost predicate Ordered(ops: seq<Op>, clock: nat)
  {
    if ops == [] then true else clock <= Time(ops[0]) && Ordered(ops[1..], Time(ops[0]))
  }

  function Run(dir: Dir, keepDays: nat, ops: seq<Op>): Dir
    decreases |ops|
  {
    if ops == [] then dir else Run(Step(dir, keepDays, ops[0]), keepDays, ops[1..])
  }

  function Clock(clock: nat, ops: seq<Op>): nat { if ops == [] then clock else Time(ops[|ops| - 1]) }

  lemma {:induction false} RunKeepsInv(dir: Dir, clock: nat, keepDays: nat, ops: seq<Op>)
    requires Inv(dir, clock) && Ordered(ops, clock)
    ensures Inv(Run(dir, keepDays, ops), Clock(clock, ops))
    decreases |ops|
  {
    if ops != [] {
      StepKeepsInv(dir, clock, keepDays, ops[0]);
      RunKeepsInv(Step(dir, keepDays, ops[0]), Time(ops[0]), keepDays, ops[1..]);
    }
  }

  // ---- how many files stay ----------------------------------------------------------

  ghost predicate IsName(name: string) { exists day: nat :: name == NameOfDay(day) }

  /** The rotated files of the directory, of any year. */
  ghost function RotatedFiles(dir: Dir): set<string> { set name | name in dir.entries && IsName(name) }

  ghost function NamesOf(lo: nat, hi: nat): set<string>
  {
    if hi <= lo then {} else NamesOf(lo, hi - 1) + {NameOfDay(hi - 1)}
  }

  lemma {:induction false} NamesOfAre(lo: nat, hi: nat)
    ensures |NamesOf(lo, hi)| <= if lo <= hi then hi - lo else 0
    ensures forall day: nat :: lo <= day < hi ==> NameOfDay(day) in NamesOf(lo, hi)
  {
    hide NameOfDay;
    if lo < hi {
      NamesOfAre(lo, hi - 1);
    }
  }

  lemma {:induction false} SubsetSize(a: set<string>, b: set<string>)
    requires a <= b
    ensures |a| <= |b|
  {
    if a != {} {
      var x :| x in a;
      SubsetSize(a - {x}, b - {x});
    }
  }

  /** Exactly when an audit deletes a rotated file: it is old enough and its year has four
      digits, since a later year's name does not read back as a date. */
  lemma RotatedFileGoesIff(dir: Dir, clock: nat, keepDays: nat, nowMs: nat, day: nat)
    requires Inv(dir, clock) && clock <= nowMs && NameOfDay(day) in Rotated(dir, nowMs).entries
    ensures NameOfDay(day) !in Audited(dir, keepDays, nowMs).entries
            <==> Today(nowMs) - day >= keepDays && FourDigitYear(day)
  {
    hide NameOfDay, DayOf, FourDigitYear, RotatedName;
    RotateKeepsInv(dir, clock, nowMs);
    NameReadsBack(day);
    assert IsRotation(Rotated(dir, nowMs), nowMs, day);
    hide Rotated;
  }

  lemma StartHoldsInv(start: Dir, clock: nat)
    requires RotatedFiles(start) == {} && (forall name <- start.entries :: DayOf(name).None?)
    requires start.live.Some? ==> start.live.value.modifiedMs <= clock
    ensures Inv(start, clock)
  {
    forall day: nat ensures NameOfDay(day) !in start.entries {
      assert IsName(NameOfDay(day));
      assert NameOfDay(day) !in RotatedFiles(start);
    }
  }

  /** After an audit that ends any run from a directory without dated files: every rotated
      file is less than `keepDays` days old or of a year past 9999, and no other is gone.
      So while the year has four digits at most `keepDays - 1` remain beside the live one. */
  lemma AuditKeepsFewRotatedFiles(start: Dir, clock: nat, ops: seq<Op>, keepDays: nat, nowMs: nat)
    requires keepDays > 0
    requires RotatedFiles(start) == {} && (forall name <- start.entries :: DayOf(name).None?)
    requires start.live.Some? ==> start.live.value.modifiedMs <= clock
    requires Ordered(ops, clock) && Clock(clock, ops) <= nowMs
    ensures var before := Rotated(Run(start, keepDays, ops), nowMs);
            var after := Step(Run(start, keepDays, ops), keepDays, Audit(nowMs));
            && RotatedFiles(after) <= RotatedFiles(before)
            && (forall day: nat :: NameOfDay(day) in before.entries ==>
                  (NameOfDay(day) in after.entries <==> Today(nowMs) - day < keepDays || !FourDigitYear(day)))
            && (FourDigitYear(Today(nowMs)) ==> |RotatedFiles(after)| <= keepDays - 1)
  {
    hide NameOfDay, DayOf, FourDigitYear, Rotated;
    StartHoldsInv(start, clock);
    RunKeepsInv(start, clock, keepDays, ops);
    var dir, now := Run(start, keepDays, ops), Clock(clock, ops);
    forall day: nat | NameOfDay(day) in Rotated(dir, nowMs).entries
      ensures NameOfDay(day) in Audited(dir, keepDays, nowMs).entries
              <==> Today(nowMs) - day < keepDays || !FourDigitYear(day)
    {
      RotatedFileGoesIff(dir, now, keepDays, nowMs, day);
    }
    if FourDigitYear(Today(nowMs)) {
      FewFiles(dir, now, keepDays, nowMs);
    }
  }

  lemma FewFiles(dir: Dir, clock: nat, keepDays: nat, nowMs: nat)
    requires keepDays > 0 && Inv(dir, clock) && clock <= nowMs && FourDigitYear(Today(nowMs))
    ensures |RotatedFiles(Audited(dir, keepDays, nowMs))| <= keepDays - 1
  {
    hide NameOfDay, DayOf, FourDigitYear, Rotated;
    var after, today := Audited(dir, keepDays, nowMs), Today(nowMs);
    var lo := if today < keepDays then 0 else today - keepDays + 1;
    StepKeepsInv(dir, clock, keepDays, Audit(nowMs));
    NamesOfAre(lo, today);
    forall name | name in RotatedFiles(after) ensures name in NamesOf(lo, today) {
      var day: nat :| name == NameOfDay(day);
      assert IsRotation(after, nowMs, day);
      EarlierYearsAreShorter(day, today);
      RotatedFileGoesIff(dir, clock, keepDays, nowMs, day);
    }
    SubsetSize(RotatedFiles(after), NamesOf(lo, today));
  }

  /** There is such a day: the first of the year 10000, whose log is never deleted. */
  lemma TheYear10000()
    ensures CivilFromDays(2932897) == Date(10000, 1, 1) && !FourDigitYear(2932897)
  {
    assert DayNumber(Date(10000, 1, 1)) == 2932897;
    CivilUndoesDayNumber(Date(10000, 1, 1));
    hide CivilFromDays;
  }
}
