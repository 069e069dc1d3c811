/**
  The rotating cursor over the pending-record spool (`pending` and its use in `run` of
  crates/agend-daemon/src/ingest.rs): each scan examines at most 32 files after the last
  one examined, in name order, and starts over when none is left.
*/
module SpoolCursor {
  import opened Common

  /** A file name, compared byte by byte. */
  type Name = seq<nat>

  const BATCH: nat := 32

  predicate Less(a: Name, b: Name)
  {
    if b == [] then false
    else if a == [] then true
    else a[0] < b[0] || (a[0] == b[0] && Less(a[1..], b[1..]))
  }

  /** The first byte in which they differ decides, and a shorter name comes first. */
  lemma {:induction false} LessIff(a: Name, b: Name)
    ensures Less(a, b) <==> (a < b || exists k :: 0 <= k < |a| && k < |b| && a[..k] == b[..k] && a[k] < b[k])
  {
    if a != [] && b != [] && a[0] == b[0] {
      LessIff(a[1..], b[1..]);
      assert a[1..] < b[1..] <==> a < b;
      if k :| 0 <= k < |a| && k < |b| && a[..k] == b[..k] && a[k] < b[k] {
        assert a[1..][..k - 1] == a[..k][1..] && b[1..][..k - 1] == b[..k][1..];
        assert a[1..][k - 1] < b[1..][k - 1];
      }
      if k :| 0 <= k < |a| - 1 && k < |b| - 1 && a[1..][..k] == b[1..][..k] && a[1..][k] < b[1..][k] {
        assert a[..k + 1] == [a[0]] + a[1..][..k] && b[..k + 1] == [b[0]] + b[1..][..k];
        assert a[k + 1] < b[k + 1];
      }
    } else if a != [] && b != [] {
      assert a[..0] == b[..0];
      forall k | 0 < k < |a| && k < |b| ensures a[..k] == b[..k] ==> a[0] == b[0] {
        assert a[..k][0] == a[0] && b[..k][0] == b[0];
      }
    }
  }

  lemma {:induction false} LessIsTransitive(a: Name, b: Name, c: Name)
    requires Less(a, b) && Less(b, c)
    ensures Less(a, c)
  {
    if a != [] && a[0] == b[0] == c[0] {
      LessIsTransitive(a[1..], b[1..], c[1..]);
    }
  }

  lemma {:induction false} LessIsTotal(a: Name, b: Name)
    ensures Less(a, b) || a == b || Less(b, a)
    ensures !(Less(a, b) && Less(b, a)) && !Less(a, a)
  {
    if a != [] {
      LessIsTotal(a[1..], a[1..]);
      if b != [] && a[0] == b[0] {
        LessIsTotal(a[1..], b[1..]);
        assert a == [a[0]] + a[1..] && b == [b[0]] + b[1..];
      }
    }
  }

  lemma Transitive()
    ensures forall a, b, c :: Less(a, b) && Less(b, c) ==> Less(a, c)
  {
    forall a, b, c | Less(a, b) && Less(b, c) ensures Less(a, c) {
      LessIsTransitive(a, b, c);
    }
  }

  // ---- sorting ---------------------------------------------------------------------

  ghost predicate Ascending(s: seq<Name>) { forall i, j :: 0 <= i < j < |s| ==> Less(s[i], s[j]) }

  function Insert(x: Name, s: seq<Name>): (r: seq<Name>)
    ensures forall y :: y in r <==> y in s || y == x
  {
    if s == [] then [x]
    else if Less(x, s[0]) then [x] + s
    else [s[0]] + Insert(x, s[1..])
  }

  lemma {:induction false} InsertKeepsAscending(x: Name, s: seq<Name>)
    requires Ascending(s) && x !in s
    ensures Ascending(Insert(x, s))
  {
    if s != [] {
      Transitive();
      LessIsTotal(x, s[0]);
      if !Less(x, s[0]) {
        InsertKeepsAscending(x, s[1..]);
        var rest := Insert(x, s[1..]);
        forall j | 0 <= j < |rest| ensures Less(s[0], rest[j]) {
          assert rest[j] in rest;
        }
      }
    }
  }

  function Sorted(s: seq<Name>): (r: seq<Name>)
    ensures forall y :: y in r <==> y in s
  {
    if s == [] then [] else Insert(s[0], Sorted(s[1..]))
  }

  ghost predicate Distinct(s: seq<Name>) { forall i, j :: 0 <= i < j < |s| ==> s[i] != s[j] }

  lemma {:induction false} SortedIsAscending(s: seq<Name>)
    requires Distinct(s)
    ensures Ascending(Sorted(s))
  {
    if s != [] {
      SortedIsAscending(s[1..]);
      InsertKeepsAscending(s[0], Sorted(s[1..]));
    }
  }

  // ---- what a scan examines ----------------------------------------------------------

  predicate Behind(after: Option<Name>, x: Name) { after.None? || Less(after.value, x) }

  ghost function Remaining(files: set<Name>, after: Option<Name>): set<Name>
  {
    set x | x in files && Behind(after, x)
  }

  /** What a scan chooses from: the files behind the cursor, or all once there are none. */
  ghost function Choice(files: set<Name>, after: Option<Name>): set<Name>
  {
    if Remaining(files, after) == {} then files else Remaining(files, after)
  }

  ghost function Elements(s: seq<Name>): set<Name> { set x | x in s }

  /** The first 32 files of the choice, in order. */
  ghost predicate IsBatch(files: set<Name>, after: Option<Name>, batch: seq<Name>)
  {
    && Ascending(batch) && |batch| <= BATCH
    && (forall x <- batch :: x in Choice(files, after))
    && (forall x <- Choice(files, after) :: x !in batch ==> |batch| == BATCH && forall b <- batch :: Less(b, x))
  }

  function Filter(s: seq<Name>, after: Option<Name>): (r: seq<Name>)
    ensures forall y :: y in r <==> y in s && Behind(after, y)
  {
    if s == [] then []
    else (if Behind(after, s[0]) then [s[0]] else []) + Filter(s[1..], after)
  }

  lemma {:induction false} FilterKeepsAscending(s: seq<Name>, after: Option<Name>)
    requires Ascending(s)
    ensures Ascending(Filter(s, after))
  {
    if s != [] {
      FilterKeepsAscending(s[1..], after);
      var rest := Filter(s[1..], after);
      forall j | 0 <= j < |rest| ensures Less(s[0], rest[j]) {
        assert rest[j] in rest && rest[j] in s[1..];
      }
    }
  }

  function Kept(batch: seq<Name>, valid: set<Name>): (r: seq<Name>)
    ensures forall x :: x in r <==> x in batch && x in valid
  {
    if batch == [] then []
    else
      var n := |batch| - 1;
      Kept(batch[..n], valid) + (if batch[n] in valid then [batch[n]] else [])
  }

  lemma {:induction false} KeptKeepsAscending(batch: seq<Name>, valid: set<Name>)
    requires Ascending(batch)
    ensures Ascending(Kept(batch, valid))
  {
    if batch != [] {
      var n := |batch| - 1;
      KeptKeepsAscending(batch[..n], valid);
      var rest := Kept(batch[..n], valid);
      forall i | 0 <= i < |rest| ensures Less(rest[i], batch[n]) {
        assert rest[i] in rest && rest[i] in batch[..n];
      }
    }
  }

  function FirstOnes(s: seq<Name>): seq<Name> { if |s| <= BATCH then s else s[..BATCH] }

  /** The loop of `pending`: a file that does not read as a record is passed by. */
  method Examine(paths: seq<Name>, valid: set<Name>) returns (batch: seq<Name>, records: seq<Name>)
    ensures batch == FirstOnes(paths) && records == Kept(batch, valid)
  {
    batch, records := [], [];
    var path := FirstOnes(paths);
    for i := 0 to |path|
      invariant batch == path[..i] && records == Kept(batch, valid)
    {
      assert path[..i + 1][..i] == path[..i];
      batch := batch + [path[i]];
      if path[i] in valid {
        records := records + [path[i]];
      }
    }
  }

  lemma FirstOnesAreABatch(files: set<Name>, after: Option<Name>, chosen: seq<Name>)
    requires Ascending(chosen) && forall x :: x in chosen <==> x in Choice(files, after)
    ensures IsBatch(files, after, FirstOnes(chosen))
  {
    hide Choice, Less;
    var batch := FirstOnes(chosen);
    forall x | x in Choice(files, after) && x !in batch
      ensures |batch| == BATCH && forall b <- batch :: Less(b, x)
    {
      var j :| 0 <= j < |chosen| && chosen[j] == x;
      assert j >= |batch|;
    }
  }

  /** The scans' cursors, one for each kind of record. */
  class Ingest {
    var cursors: map<string, Name>

    constructor ()
      ensures cursors == map[]
    {
      cursors := map[];
    }

    /** `pending` and the cursor update of `run`. `valid` holds the files that read as a
        record; the others are retained and passed by. */
    method Scan(kind: string, listing: seq<Name>, valid: set<Name>)
      returns (batch: seq<Name>, records: seq<Name>)
      requires Distinct(listing)
      modifies this
      ensures IsBatch(Elements(listing), old(Cursor(kind)), batch)
      ensures Cursor(kind) == if batch == [] then old(Cursor(kind)) else Some(batch[|batch| - 1])
      ensures forall other :: other != kind ==> Cursor(other) == old(Cursor(other))
      ensures Ascending(records) && forall x :: x in records <==> x in batch && x in valid
    {
      var after := Cursor(kind);
      var paths := Sorted(listing);
      var remaining := Filter(paths, after);
      var chosen := if remaining == [] then paths else remaining;
      ChosenIsTheChoice(listing, after);
      batch, records := Examine(chosen, valid);
      FirstOnesAreABatch(Elements(listing), after, chosen);
      KeptKeepsAscending(batch, valid);
      if batch != [] {
        cursors := cursors[kind := batch[|batch| - 1]];
      }
    }

    function Cursor(kind: string): Option<Name>
      reads this
    {
      if kind in cursors then Some(cursors[kind]) else None
    }
  }

  lemma ChosenIsTheChoice(listing: seq<Name>, after: Option<Name>)
    requires Distinct(listing)
    ensures var paths := Sorted(listing);
            var remaining := Filter(paths, after);
            var chosen := if remaining == [] then paths else remaining;
            Ascending(chosen) && forall x :: x in chosen <==> x in Choice(Elements(listing), after)
  {
    SortedIsAscending(listing);
    FilterKeepsAscending(Sorted(listing), after);
    var remaining := Filter(Sorted(listing), after);
    if remaining != [] {
      assert remaining[0] in Remaining(Elements(listing), after);
    }
  }

  // ---- fairness ----------------------------------------------------------------------

  function Scans(files: nat): nat { (files + BATCH - 1) / BATCH }

  /** The files from the cursor up to and including `f`. */
  ghost function UpTo(files: set<Name>, after: Option<Name>, f: Name): set<Name>
  {
    set x | x in files && Behind(after, x) && !Less(f, x)
  }

  /** How many scans `f` waits at most. */
  ghost function Wait(files: set<Name>, after: Option<Name>, f: Name): nat
  {
    if Behind(after, f) then Scans(|UpTo(files, after, f)|)
    else Scans(|Remaining(files, after)|) + Scans(|UpTo(files, None, f)|)
  }

  lemma {:induction false} AscendingSize(s: seq<Name>)
    requires Ascending(s)
    ensures |Elements(s)| == |s|
  {
    if s != [] {
      var n := |s| - 1;
      AscendingSize(s[..n]);
      LessIsTotal(s[n], s[n]);
      assert s[n] !in s[..n];
      assert Elements(s) == Elements(s[..n]) + {s[n]};
    }
  }

  lemma SmallerSet(small: set<Name>, big: set<Name>, gone: set<Name>)
    requires gone <= big && small <= big - gone
    ensures |small| <= |big| - |gone|
  {
    SubsetSize(small, big - gone);
  }

  lemma {:induction false} SubsetSize(a: set<Name>, b: set<Name>)
    requires a <= b
    ensures |a| <= |b|
  {
    if a != {} {
      var x :| x in a;
      SubsetSize(a - {x}, b - {x});
    }
  }

  lemma AfterTheLast(batch: seq<Name>, x: Name)
    requires Ascending(batch) && batch != [] && Less(batch[|batch| - 1], x)
    ensures x !in batch
  {
    LessIsTotal(batch[|batch| - 1], x);
    LessIsTotal(x, x);
  }

  /** 32 files before `f` were examined: `f` waits for as many fewer. */
  lemma FewerBefore(files: set<Name>, from: Option<Name>, batch: seq<Name>, later: set<Name>, f: Name)
    requires Ascending(batch) && |batch| == BATCH && later <= files
    requires forall b <- batch :: b in files && Behind(from, b) && Less(b, f)
    ensures |UpTo(later, Some(batch[|batch| - 1]), f)| + BATCH <= |UpTo(files, from, f)|
  {
    var last := batch[|batch| - 1];
    var small, big := UpTo(later, Some(last), f), UpTo(files, from, f);
    assert last in batch;
    forall b | b in batch ensures b in big {
      LessIsTotal(b, f);
    }
    forall x | x in small ensures x in big - Elements(batch) {
      AfterTheLast(batch, x);
      if from.Some? {
        LessIsTransitive(from.value, last, x);
      }
    }
    AscendingSize(batch);
    SmallerSet(small, big, Elements(batch));
  }

  /** The files left behind the cursor once it has passed a batch of them. */
  lemma FewerRemaining(files: set<Name>, after: Option<Name>, batch: seq<Name>, later: set<Name>)
    requires IsBatch(files, after, batch) && later <= files && Remaining(files, after) != {}
    ensures batch != [] && Behind(after, batch[|batch| - 1])
    ensures Scans(|Remaining(later, Some(batch[|batch| - 1]))|) < Scans(|Remaining(files, after)|)
  {
    var any :| any in Remaining(files, after);
    assert any in Choice(files, after);
    var last := batch[|batch| - 1];
    assert last in batch;
    var small, big := Remaining(later, Some(last)), Remaining(files, after);
    forall x | x in small ensures x in big - Elements(batch) {
      AfterTheLast(batch, x);
      if after.Some? {
        LessIsTransitive(after.value, last, x);
      }
    }
    AscendingSize(batch);
    SmallerSet(small, big, Elements(batch));
    if |batch| < BATCH {
      assert big - Elements(batch) == {};
      assert small == {};
    }
  }

  /** A scan that skips `f` brings it one scan closer, whatever disappears before the next. */
  lemma OneScanCloser(files: set<Name>, after: Option<Name>, batch: seq<Name>, later: set<Name>, f: Name)
    requires IsBatch(files, after, batch) && f in later && later <= files && f !in batch
    ensures batch != [] && Wait(later, Some(batch[|batch| - 1]), f) < Wait(files, after, f)
  {
    if Behind(after, f) {
      assert f in Remaining(files, after);
      assert Choice(files, after) == Remaining(files, after);
      FewerBefore(files, after, batch, later, f);
    } else if Remaining(files, after) == {} {
      assert Choice(files, after) == files;
      FewerBefore(files, None, batch, later, f);
    } else {
      FewerRemaining(files, after, batch, later);
      NotBehindLater(after, batch[|batch| - 1], f);
      SubsetSize(UpTo(later, None, f), UpTo(files, None, f));
    }
  }

  lemma NotBehindLater(after: Option<Name>, last: Name, f: Name)
    requires !Behind(after, f) && Behind(after, last)
    ensures !Behind(Some(last), f)
  {
    if Less(last, f) {
      LessIsTransitive(after.value, last, f);
    }
  }

  datatype Scan = Scan(files: set<Name>, batch: seq<Name>)

  /** Successive scans from a cursor with no file added in between. */
  ghost predicate Successive(files: set<Name>, after: Option<Name>, scans: seq<Scan>)
    decreases |scans|
  {
    scans == []
    || var s := scans[0];
       && s.files <= files && IsBatch(s.files, after, s.batch)
       && Successive(s.files, if s.batch == [] then after else Some(s.batch[|s.batch| - 1]), scans[1..])
  }

  lemma {:induction false} ExaminedInTime(files: set<Name>, after: Option<Name>, scans: seq<Scan>, f: Name)
    requires Successive(files, after, scans) && |scans| >= Wait(files, after, f)
    requires f in files && forall i :: 0 <= i < |scans| ==> f in scans[i].files
    ensures exists t :: 0 <= t < Wait(files, after, f) && t < |scans| && f in scans[t].batch
    decreases |scans|
  {
    WaitIsShort(files, after, f);
    var s := scans[0];
    if f !in s.batch {
      OneScanCloser(s.files, after, s.batch, s.files, f);
      FewerFilesFewerScans(s.files, files, after, f);
      ExaminedInTime(s.files, Some(s.batch[|s.batch| - 1]), scans[1..], f);
      var t :| 0 <= t < |scans| - 1 && t + 1 < Wait(files, after, f) && f in scans[1..][t].batch;
      assert f in scans[t + 1].batch;
    }
  }

  lemma FewerFilesFewerScans(small: set<Name>, big: set<Name>, after: Option<Name>, f: Name)
    requires small <= big
    ensures Wait(small, after, f) <= Wait(big, after, f)
  {
    SubsetSize(UpTo(small, after, f), UpTo(big, after, f));
    SubsetSize(Remaining(small, after), Remaining(big, after));
    SubsetSize(UpTo(small, None, f), UpTo(big, None, f));
  }

  /** The cursor is fair: while no file is added, a file that stays is examined within
      n/32 (rounded up) + 1 scans from any cursor, whatever else is retained or removed. */
  lemma EveryFileIsExamined(files: set<Name>, after: Option<Name>, scans: seq<Scan>, f: Name)
    requires Successive(files, after, scans) && |scans| >= Scans(|files|) + 1
    requires f in files && forall i :: 0 <= i < |scans| ==> f in scans[i].files
    ensures exists t :: 0 <= t < Scans(|files|) + 1 && f in scans[t].batch
  {
    WaitIsShort(files, after, f);
    ExaminedInTime(files, after, scans, f);
  }

  lemma WaitIsShort(files: set<Name>, after: Option<Name>, f: Name)
    requires f in files
    ensures 1 <= Wait(files, after, f) <= Scans(|files|) + 1
  {
    if Behind(after, f) {
      LessIsTotal(f, f);
      assert f in UpTo(files, after, f);
      SubsetSize(UpTo(files, after, f), files);
    } else {
      var a, b := Remaining(files, after), UpTo(files, None, f);
      LessIsTotal(f, f);
      assert f in b;
      forall x | x in a ensures x !in b {
        // f is at or before the cursor and x behind it
        LessIsTotal(after.value, f);
        LessIsTotal(f, x);
        if Less(f, after.value) {
          LessIsTransitive(f, after.value, x);
        }
      }
      SmallerSet(a, files, b);
    }
  }
}
