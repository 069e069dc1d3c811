/**
  The durable GitHub ownership ledger (crates/agend-core/src/github.rs) under any number
  of compare-and-swap writers (crates/agend-daemon/src/store/github.rs).
*/
module GithubLedger {
  import opened Common

  datatype Identity = Identity(
    taskId: string, localRepo: string, repository: string, repositoryId: nat,
    base: string, branch: string, nonce: string)

  datatype Cleanup = Cleanup(closeAttempted: bool, deleteAttempted: bool, complete: bool)

  const NoCleanup := Cleanup(false, false, false)

  datatype Change = Change(
    identity: Identity, pullNumber: Option<nat>, pushedHead: Option<string>,
    pushIntent: Option<string>, createAttempted: bool, mergeHead: Option<string>, cleanup: Cleanup)

  predicate FullSha(s: string)
  {
    |s| == 40 && forall c <- s :: '0' <= c <= '9' || 'a' <= c <= 'f'
  }

  /** The checks `follows` makes on the new record alone. */
  predicate WellFormed(c: Change)
  {
    var i := c.identity;
    && i.taskId != "" && i.localRepo != "" && i.repository != "" && i.repositoryId != 0
    && i.base != "" && i.branch != "" && i.nonce != ""
    && c.pullNumber != Some(0)
    && (c.pushedHead.Some? ==> FullSha(c.pushedHead.value))
    && (c.pushIntent.Some? ==> FullSha(c.pushIntent.value))
    && (c.mergeHead.Some? ==> FullSha(c.mergeHead.value))
    && (c.pullNumber.Some? ==> c.createAttempted)
  }

  /** The first record of a task holds its identity and nothing else. */
  predicate Begins(c: Change)
  {
    && c.pullNumber.None? && c.pushedHead.None? && c.pushIntent.None?
    && !c.createAttempted && c.mergeHead.None? && c.cleanup == NoCleanup
  }

  /** `GithubChange::follows`: the refusals in source order, then the push rule. */
  predicate Follows(c: Change, previous: Option<Change>)
  {
    if !WellFormed(c) then false
    else if previous.None? then Begins(c)
    else
      var p := previous.value;
      if || (p.mergeHead.Some? && c.mergeHead != p.mergeHead)
         || (c.mergeHead.Some? && c.pullNumber.None?)
         || (p.mergeHead.None? && c.mergeHead.Some? && (p.cleanup != NoCleanup || p.pushIntent.Some?))
         || (p.mergeHead.Some? && (c.pushIntent != p.pushIntent || c.pushedHead != p.pushedHead))
         || (p.cleanup.complete && c != p)
         || (p.cleanup.closeAttempted && !c.cleanup.closeAttempted)
         || (p.cleanup.deleteAttempted && !c.cleanup.deleteAttempted)
         || c.identity != p.identity
         || (p.createAttempted && !c.createAttempted)
         || (c.pullNumber.Some? && !p.createAttempted)
         || (!p.createAttempted && c.createAttempted && (p.pushedHead.None? || p.pushIntent.Some?))
         || (p.pullNumber.Some? && c.pullNumber != p.pullNumber)
      then false
      else if p.pushIntent.Some? && c.pushIntent != p.pushIntent
      then c.pushIntent.None? && c.pushedHead == p.pushIntent
      else c.pushedHead == p.pushedHead
  }

  // ---- the ledger and its writers -----------------------------------------------

  const MAX_REVISION := 0x7fff_ffff_ffff_ffff

  datatype Versioned = Versioned(revision: nat, change: Change)

  /** The stored row of one task, what each writer last read, and every accepted write. */
  datatype Ledger = Ledger(
    row: Option<Versioned>, seen: map<nat, Option<Versioned>>, history: seq<Change>)

  const EmptyLedger := Ledger(None, map[], [])

  datatype Op =
    | Read(writer: nat)
    | Save(expected: Option<nat>, change: Change)
    | Forget(writer: nat)         // the writer stops, its snapshot is lost

  function Revision(row: Option<Versioned>): Option<nat>
  {
    if row.None? then None else Some(row.value.revision)
  }

  function Stored(row: Option<Versioned>): Option<Change>
  {
    if row.None? then None else Some(row.value.change)
  }

  predicate Accepts(l: Ledger, expected: Option<nat>, c: Change)
  {
    && Revision(l.row) == expected
    && Follows(c, Stored(l.row))
    && (if expected.None? then 0 else expected.value) + 1 <= MAX_REVISION
  }

  /** `save_github_change`: one transaction; a stale or refused write changes nothing. */
  function Step(l: Ledger, op: Op): Ledger
  {
    match op
    case Read(w) => l.(seen := l.seen[w := l.row])
    case Forget(w) => l.(seen := l.seen - {w})
    case Save(expected, c) =>
      if !Accepts(l, expected, c) then l
      else
        var revision := (if expected.None? then 0 else expected.value) + 1;
        l.(row := Some(Versioned(revision, c)), history := l.history + [c])
  }

  function Run(l: Ledger, ops: seq<Op>): Ledger
    decreases |ops|
  {
    if ops == [] then l else Run(Step(l, ops[0]), ops[1..])
  }

  /** Every accepted write follows the one before it. */
  ghost predicate Chain(h: seq<Change>)
  {
    && (h != [] ==> Follows(h[0], None))
    && forall i :: 0 < i < |h| ==> Follows(h[i], Some(h[i - 1]))
  }

  ghost predicate Inv(l: Ledger)
  {
    && Chain(l.history)
    && l.row == (if l.history == [] then None
                 else Some(Versioned(|l.history|, l.history[|l.history| - 1])))
    && forall w <- l.seen :: WasRow(l.history, l.seen[w])
  }

  /** `row` was what the ledger stored after some number of accepted writes. */
  ghost predicate WasRow(h: seq<Change>, row: Option<Versioned>)
  {
    row.None? || (0 < row.value.revision <= |h| && row.value.change == h[row.value.revision - 1])
  }

  lemma StepKeepsInv(l: Ledger, op: Op)
    requires Inv(l)
    ensures Inv(Step(l, op))
  {
    var t := Step(l, op);
    forall w | w in t.seen ensures WasRow(t.history, t.seen[w]) {
      if w in l.seen {
        assert WasRow(l.history, l.seen[w]);
      }
    }
  }

  lemma {:induction false} RunKeepsInv(l: Ledger, ops: seq<Op>)
    requires Inv(l)
    ensures Inv(Run(l, ops))
    decreases |ops|
  {
    if ops != [] {
      StepKeepsInv(l, ops[0]);
      RunKeepsInv(Step(l, ops[0]), ops[1..]);
    }
  }

  /** Compare-and-swap has no ABA: a write a writer makes against the revision it read is
      accepted only while the row is still exactly the record it read. */
  lemma AcceptedWriteSawTheRow(ops: seq<Op>, w: nat, c: Change)
    requires var l := Run(EmptyLedger, ops);
             w in l.seen && Accepts(l, Revision(l.seen[w]), c)
    ensures var l := Run(EmptyLedger, ops);
            l.seen[w] == l.row && Follows(c, Stored(l.seen[w]))
  {
    RunKeepsInv(EmptyLedger, ops);
    var l := Run(EmptyLedger, ops);
    assert WasRow(l.history, l.seen[w]);
  }

  // ---- what every run keeps -----------------------------------------------------

  /** The shape of every accepted record. */
  ghost predicate Ordered(c: Change)
  {
    && (c.mergeHead.Some? ==> c.pullNumber.Some?)
    && (c.pullNumber.Some? ==> c.createAttempted)
    && (c.createAttempted ==> c.pushedHead.Some?)
  }

  lemma {:induction false} AcceptedIsOrdered(h: seq<Change>, i: nat)
    requires Chain(h) && i < |h|
    ensures Ordered(h[i])
  {
    if i > 0 {
      AcceptedIsOrdered(h, i - 1);
    }
  }

  /** Whatever is claimed stays claimed from `i` to `j`. */
  ghost predicate Later(p: Change, c: Change)
  {
    && c.identity == p.identity
    && (p.createAttempted ==> c.createAttempted)
    && (p.pullNumber.Some? ==> c.pullNumber == p.pullNumber)
    && (p.cleanup.closeAttempted ==> c.cleanup.closeAttempted)
    && (p.cleanup.deleteAttempted ==> c.cleanup.deleteAttempted)
    && (p.mergeHead.Some? ==> c.mergeHead == p.mergeHead
                              && c.pushIntent == p.pushIntent && c.pushedHead == p.pushedHead)
    && (p.cleanup.complete ==> c == p)
  }

  lemma {:induction false} ClaimsLast(h: seq<Change>, i: nat, j: nat)
    requires Chain(h) && i <= j < |h|
    ensures Later(h[i], h[j])
    decreases j
  {
    if i < j {
      ClaimsLast(h, i, j - 1);
      assert Follows(h[j], Some(h[j - 1]));
    }
  }

  predicate FlipsCreate(h: seq<Change>, i: nat)
    requires 0 < i < |h|
  {
    !h[i - 1].createAttempted && h[i].createAttempted
  }

  predicate ClaimsMerge(h: seq<Change>, i: nat)
    requires 0 < i < |h|
  {
    h[i - 1].mergeHead.None? && h[i].mergeHead.Some?
  }

  /** At most one accepted write ever authorises creating the pull request, and at most one
      ever claims the merge. */
  lemma OneCreateOneMerge(ops: seq<Op>, i: nat, j: nat)
    requires var h := Run(EmptyLedger, ops).history; 0 < i < |h| && 0 < j < |h|
    ensures var h := Run(EmptyLedger, ops).history;
            && (FlipsCreate(h, i) && FlipsCreate(h, j) ==> i == j)
            && (ClaimsMerge(h, i) && ClaimsMerge(h, j) ==> i == j)
  {
    RunKeepsInv(EmptyLedger, ops);
    var h := Run(EmptyLedger, ops).history;
    if i < j {
      ClaimsLast(h, i, j - 1);
    } else if j < i {
      ClaimsLast(h, j, i - 1);
    }
  }

  /** A merge implies a pull request, which implies an attempted create, which implies a
      pushed head; the first record claims none of them. */
  lemma ClaimsComeInOrder(ops: seq<Op>, i: nat)
    requires i < |Run(EmptyLedger, ops).history|
    ensures Ordered(Run(EmptyLedger, ops).history[i])
    ensures Begins(Run(EmptyLedger, ops).history[0])
  {
    RunKeepsInv(EmptyLedger, ops);
    AcceptedIsOrdered(Run(EmptyLedger, ops).history, i);
  }

  lemma {:induction false} PushedWasIntended(h: seq<Change>, j: nat) returns (i: nat)
    requires Chain(h) && j < |h| && h[j].pushedHead.Some?
    ensures i < j && h[i].pushIntent == h[j].pushedHead && h[i + 1].pushIntent.None?
    ensures h[i + 1].pushedHead == h[j].pushedHead
  {
    assert Follows(h[j], Some(h[j - 1]));
    if h[j].pushedHead == h[j - 1].pushedHead {
      i := PushedWasIntended(h, j - 1);
    } else {
      i := j - 1;
    }
  }

  /** Every head on the branch was first a durable intent, and the write that confirmed
      it cleared exactly that intent. */
  lemma EveryPushWasADurableIntent(ops: seq<Op>, j: nat)
    requires var h := Run(EmptyLedger, ops).history; j < |h| && h[j].pushedHead.Some?
    ensures var h := Run(EmptyLedger, ops).history;
            exists i :: 0 <= i < j && h[i].pushIntent == h[j].pushedHead
                        && h[i + 1].pushIntent.None? && h[i + 1].pushedHead == h[j].pushedHead
  {
    RunKeepsInv(EmptyLedger, ops);
    var i := PushedWasIntended(Run(EmptyLedger, ops).history, j);
  }

  /** A pending push is never replaced: up to its confirmation every record keeps it. */
  lemma {:induction false} IntentIsKeptOrConfirmed(ops: seq<Op>, i: nat, j: nat)
    requires var h := Run(EmptyLedger, ops).history; i <= j < |h| && h[i].pushIntent.Some?
    ensures var h := Run(EmptyLedger, ops).history;
            h[j].pushIntent == h[i].pushIntent
            || exists k :: i < k <= j && h[k].pushedHead == h[i].pushIntent && h[k].pushIntent.None?
    decreases j
  {
    RunKeepsInv(EmptyLedger, ops);
    var h := Run(EmptyLedger, ops).history;
    if i < j {
      IntentIsKeptOrConfirmed(ops, i, j - 1);
      assert Follows(h[j], Some(h[j - 1]));
    }
  }

  /** No merge is claimed once cleanup began, a claim waits for no push, and after a claim
      the push fields, the head and the identity never change. */
  lemma MergeExcludesCleanupAndPushes(ops: seq<Op>, i: nat, j: nat)
    requires var h := Run(EmptyLedger, ops).history; 0 < i < |h| && j < |h|
    requires ClaimsMerge(Run(EmptyLedger, ops).history, i)
    ensures var h := Run(EmptyLedger, ops).history;
            && (j < i ==> h[j].cleanup == NoCleanup && h[j].mergeHead.None?)
            && h[i - 1].pushIntent.None?
            && (i <= j ==> h[j].mergeHead == h[i].mergeHead && h[j].pushIntent == h[i].pushIntent
                           && h[j].pushedHead == h[i].pushedHead)
            && h[j].identity == h[i].identity
  {
    RunKeepsInv(EmptyLedger, ops);
    var h := Run(EmptyLedger, ops).history;
    assert Follows(h[i], Some(h[i - 1]));
    if j < i {
      ClaimsLast(h, j, i - 1);
      ClaimsLast(h, i - 1, i);
    } else {
      ClaimsLast(h, i, j);
    }
  }

  /** Creating the pull request waits for a confirmed push, and its number for the create. */
  lemma CreateWaitsForThePush(ops: seq<Op>, i: nat)
    requires 0 < i < |Run(EmptyLedger, ops).history|
    ensures var h := Run(EmptyLedger, ops).history;
            && (FlipsCreate(h, i) ==> h[i - 1].pushedHead.Some? && h[i - 1].pushIntent.None?)
            && (h[i].pullNumber.Some? ==> h[i - 1].createAttempted)
  {
    RunKeepsInv(EmptyLedger, ops);
    assert Follows(Run(EmptyLedger, ops).history[i], Some(Run(EmptyLedger, ops).history[i - 1]));
  }

  predicate ShaIfAny(head: Option<string>)
  {
    head.Some? ==> |head.value| == 40
                   && forall i :: 0 <= i < 40 ==> '0' <= head.value[i] <= '9' || 'a' <= head.value[i] <= 'f'
  }

  /** Every accepted record names its task, repositories, base, branch and nonce, and heads
      in full. */
  lemma AcceptedIsComplete(ops: seq<Op>, i: nat)
    requires i < |Run(EmptyLedger, ops).history|
    ensures var c := Run(EmptyLedger, ops).history[i];
            && c.identity.taskId != "" && c.identity.localRepo != "" && c.identity.repository != ""
            && c.identity.repositoryId != 0 && c.identity.base != "" && c.identity.branch != ""
            && c.identity.nonce != ""
            && ShaIfAny(c.pushIntent) && ShaIfAny(c.pushedHead) && ShaIfAny(c.mergeHead)
            && c.pullNumber != Some(0)
  {
    RunKeepsInv(EmptyLedger, ops);
    var h := Run(EmptyLedger, ops).history;
    ChainIsWellFormed(h, i);
    forall s: string | FullSha(s) ensures ShaIfAny(Some(s)) {
      assert forall k :: 0 <= k < |s| ==> s[k] in s;
    }
  }

  /** The row is `c`, a writer that read it writes `next`, and the row is then `next`. */
  predicate Takes(l: Ledger, c: Change, next: Change)
  {
    && l.row.Some? && l.row.value.change == c
    && Step(l, Save(Some(l.row.value.revision), next)).row == Some(Versioned(l.row.value.revision + 1, next))
  }

  /** A write against any other revision than the row's changes nothing. */
  lemma StaleWritesChangeNothing(l: Ledger, expected: Option<nat>, c: Change)
    requires expected != if l.row.Some? then Some(l.row.value.revision) else None
    ensures Step(l, Save(expected, c)) == l
  {
  }

  /** The first record of a task is accepted exactly with a complete identity. */
  lemma TheFirstWriteIsAcceptedIff(identity: Identity)
    ensures var c := Change(identity, None, None, None, false, None, NoCleanup);
            Step(EmptyLedger, Save(None, c)).row == Some(Versioned(1, c))
            <==> identity.taskId != "" && identity.localRepo != "" && identity.repository != ""
                 && identity.repositoryId != 0 && identity.base != "" && identity.branch != "" && identity.nonce != ""
  {
  }

  /** What a writer that read the row can do next, in every reachable ledger: each step of
      a task's life is accepted if and only if it is its turn. */
  lemma NextWriteIsAcceptedIff(ops: seq<Op>, sha: string, number: nat, cleanup: Cleanup)
    requires var l := Run(EmptyLedger, ops); l.row.Some? && l.row.value.revision < MAX_REVISION
    ensures var l := Run(EmptyLedger, ops);
            var c := l.row.value.change;
            var done := c.cleanup.complete;
            && (c.pushIntent.None? ==>
                  (Takes(l, c, c.(pushIntent := Some(sha))) <==> FullSha(sha) && c.mergeHead.None? && !done))
            && (c.pushIntent.Some? ==>
                  (Takes(l, c, c.(pushIntent := None, pushedHead := Some(sha))) 
                   <==> c.pushIntent == Some(sha) && c.mergeHead.None? && !done))
            && (!c.createAttempted ==>
                  (Takes(l, c, c.(createAttempted := true)) <==> c.pushedHead.Some? && c.pushIntent.None? && !done))
            && (c.pullNumber.None? ==>
                  (Takes(l, c, c.(pullNumber := Some(number))) <==> number != 0 && c.createAttempted && !done))
            && (c.mergeHead.None? ==>
                  (Takes(l, c, c.(mergeHead := Some(sha)))
                   <==> FullSha(sha) && c.pullNumber.Some? && c.pushIntent.None? && c.cleanup == NoCleanup))
            && (Takes(l, c, c.(cleanup := cleanup))
                <==> if done then cleanup == c.cleanup
                     else (c.cleanup.closeAttempted ==> cleanup.closeAttempted)
                          && (c.cleanup.deleteAttempted ==> cleanup.deleteAttempted))
  {
    RunKeepsInv(EmptyLedger, ops);
    var h := Run(EmptyLedger, ops).history;
    var n := |h| - 1;
    AcceptedIsOrdered(h, n);
    ChainIsWellFormed(h, n);
    var l, c := Run(EmptyLedger, ops), h[n];
    TakesIff(l, c, c.(pushIntent := Some(sha)));
    TakesIff(l, c, c.(pushIntent := None, pushedHead := Some(sha)));
    TakesIff(l, c, c.(createAttempted := true));
    TakesIff(l, c, c.(pullNumber := Some(number)));
    TakesIff(l, c, c.(mergeHead := Some(sha)));
    TakesIff(l, c, c.(cleanup := cleanup));
    PushesFollowIff(c, sha);
    ClaimsFollowIff(c, sha, number, cleanup);
    hide *;
  }

  lemma TakesIff(l: Ledger, c: Change, next: Change)
    requires l.row.Some? && l.row.value.change == c && l.row.value.revision < MAX_REVISION
    ensures Takes(l, c, next) <==> Follows(next, Some(c))
  {
    hide Follows;
  }

  lemma PushesFollowIff(c: Change, sha: string)
    requires WellFormed(c) && Ordered(c)
    ensures var done := c.cleanup.complete;
            && (c.pushIntent.None? ==>
                  (Follows(c.(pushIntent := Some(sha)), Some(c)) <==> FullSha(sha) && c.mergeHead.None? && !done))
            && (c.pushIntent.Some? ==>
                  (Follows(c.(pushIntent := None, pushedHead := Some(sha)), Some(c))
                   <==> c.pushIntent == Some(sha) && c.mergeHead.None? && !done))
  {
    hide FullSha;
  }

  lemma ClaimsFollowIff(c: Change, sha: string, number: nat, cleanup: Cleanup)
    requires WellFormed(c) && Ordered(c)
    ensures var done := c.cleanup.complete;
            && (!c.createAttempted ==>
                  (Follows(c.(createAttempted := true), Some(c))
                   <==> c.pushedHead.Some? && c.pushIntent.None? && !done))
            && (c.pullNumber.None? ==>
                  (Follows(c.(pullNumber := Some(number)), Some(c)) <==> number != 0 && c.createAttempted && !done))
            && (c.mergeHead.None? ==>
                  (Follows(c.(mergeHead := Some(sha)), Some(c))
                   <==> FullSha(sha) && c.pullNumber.Some? && c.pushIntent.None? && c.cleanup == NoCleanup))
            && (Follows(c.(cleanup := cleanup), Some(c))
                <==> if done then cleanup == c.cleanup
                     else (c.cleanup.closeAttempted ==> cleanup.closeAttempted)
                          && (c.cleanup.deleteAttempted ==> cleanup.deleteAttempted))
  {
    hide FullSha;
  }

  lemma ChainIsWellFormed(h: seq<Change>, i: nat)
    requires Chain(h) && i < |h|
    ensures WellFormed(h[i])
  {
    assert i > 0 ==> Follows(h[i], Some(h[i - 1]));
  }
}
