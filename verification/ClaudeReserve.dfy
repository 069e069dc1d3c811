/**
  `reserve` of crates/agend-daemon/src/claude_bridge.rs: which queued messages one
  reservation starts, in order, within the batch limits. Every message is reserved in a
  transaction of its own, which starts it, finds delivery paused or fails.
*/
module ClaudeReserve {
  import opened Common
  import opened ClaudeBridge

  const CLAUDE_BATCH_BYTES: nat := 0x10_0000
  const CLAUDE_BATCH_COUNT: nat := 32
  const HEADER_BYTES: nat := 512

  datatype Level = Queue | Steer | Interrupt

  /** A stored message; `legal` is false when it exceeds the transport bounds. */
  datatype Message = Message(id: Msg, level: Level, content: nat, legal: bool)

  /** What the transaction of one message answers. */
  datatype Answer = Starts | Paused | Fails

  type Answers = Msg -> Answer

  function Size(m: Message): nat { m.content + HEADER_BYTES }

  function Total(ms: seq<Message>): nat
  {
    if ms == [] then 0 else Total(ms[..|ms| - 1]) + Size(ms[|ms| - 1])
  }

  function Ids(ms: seq<Message>): seq<Msg> { seq(|ms|, i requires 0 <= i < |ms| => ms[i].id) }

  /** A pending message this reservation may start: Stop takes queued ones only. */
  predicate Eligible(store: Store, route: Route, m: Message)
  {
    (route.Stop? ==> m.level.Queue?) && m.id in store && MayStart(store[m.id])
  }

  function Eligibles(store: Store, route: Route, pending: seq<Message>): (r: seq<Message>)
    ensures |r| <= |pending|
  {
    if pending == [] then []
    else
      var n := |pending| - 1;
      Eligibles(store, route, pending[..n]) + (if Eligible(store, route, pending[n]) then [pending[n]] else [])
  }

  lemma {:induction false} EligiblesAre(store: Store, route: Route, pending: seq<Message>, m: Message)
    ensures m in Eligibles(store, route, pending) <==> m in pending && Eligible(store, route, m)
  {
    if pending != [] {
      var n := |pending| - 1;
      EligiblesAre(store, route, pending[..n], m);
      assert pending == pending[..n] + [pending[n]];
    }
  }

  /** Ids are primary keys. */
  ghost predicate UniqueIds(ms: seq<Message>)
  {
    forall i, j :: 0 <= i < j < |ms| ==> ms[i].id != ms[j].id
  }

  /** The messages among `e` whose transaction starts them. */
  function Started(e: seq<Message>, answer: Answers): (r: seq<Message>)
    ensures forall m <- r :: m in e
  {
    if e == [] then []
    else
      var n := |e| - 1;
      Started(e[..n], answer) + (if answer(e[n].id).Starts? then [e[n]] else [])
  }

  /** No room for another message after `started`: a single one of any size is allowed. */
  predicate Full(started: seq<Message>, m: Message)
  {
    started != [] && (Total(started) + Size(m) > CLAUDE_BATCH_BYTES || |started| == CLAUDE_BATCH_COUNT)
  }

  datatype Verdict = Next | Done | Refused

  /** What message `m` means for a batch that has `started` these so far. */
  function Judge(started: seq<Message>, m: Message, answer: Answers, interruptOnly: bool): Verdict
  {
    if interruptOnly && started != [] then Done
    else if !m.legal then Refused
    else if Full(started, m) then Done
    else if answer(m.id).Fails? then Refused
    else Next
  }

  ghost predicate AllNext(e: seq<Message>, n: nat, answer: Answers, interruptOnly: bool)
    requires n <= |e|
  {
    forall k :: 0 <= k < n ==> Judge(Started(e[..k], answer), e[k], answer, interruptOnly).Next?
  }

  /** Of the eligible messages `e` the first `n` were considered, those whose transaction
      starts them are pushed, and the batch ended at the first one that ends it. */
  ghost predicate IsBatch(e: seq<Message>, n: nat, answer: Answers, pushes: seq<Msg>, failed: bool, interruptOnly: bool)
  {
    && n <= |e| && pushes == Ids(Started(e[..n], answer)) && AllNext(e, n, answer, interruptOnly)
    && (if n == |e| then !failed
        else Judge(Started(e[..n], answer), e[n], answer, interruptOnly) == if failed then Refused else Done)
  }

  lemma NextEligible(store: Store, route: Route, pending: seq<Message>, i: nat)
    requires i < |pending|
    ensures Eligibles(store, route, pending[..i + 1])
         == Eligibles(store, route, pending[..i]) + (if Eligible(store, route, pending[i]) then [pending[i]] else [])
  {
    assert pending[..i + 1][..i] == pending[..i];
  }

  lemma {:induction false} EligiblesGrow(store: Store, route: Route, pending: seq<Message>, i: nat)
    requires i <= |pending|
    ensures Eligibles(store, route, pending[..i]) <= Eligibles(store, route, pending)
    decreases |pending| - i
  {
    if i < |pending| {
      NextEligible(store, route, pending, i);
      EligiblesGrow(store, route, pending, i + 1);
    } else {
      assert pending[..i] == pending;
    }
  }

  /** An eligible message is the next of the eligible ones. */
  lemma ComesNext(store: Store, route: Route, pending: seq<Message>, i: nat)
    requires i < |pending| && Eligible(store, route, pending[i])
    ensures var n, e := |Eligibles(store, route, pending[..i])|, Eligibles(store, route, pending);
            n < |e| && e[n] == pending[i] && |Eligibles(store, route, pending[..i + 1])| == n + 1
  {
    NextEligible(store, route, pending, i);
    EligiblesGrow(store, route, pending, i + 1);
  }

  lemma NotStartedYet(store: Store, route: Route, pending: seq<Message>, i: nat, answer: Answers)
    requires UniqueIds(pending) && i < |pending|
    ensures pending[i].id !in Ids(Started(Eligibles(store, route, pending[..i]), answer))
  {
    var s := Started(Eligibles(store, route, pending[..i]), answer);
    forall k | 0 <= k < |s| ensures s[k].id != pending[i].id {
      assert s[k] in s;
      EligiblesAre(store, route, pending[..i], s[k]);
    }
  }

  lemma StartOneMore(store: Store, ms: seq<Msg>, m: Msg, first: nat)
    requires Startable(store, ms) && m in store && MayStart(store[m]) && m !in ms
    ensures Startable(store, ms + [m])
    ensures StartAll(store, ms + [m], first)
         == StartAll(store, ms, first)[m := store[m].(attempt := Some(first + |ms|), attempted := true)]
  {
    assert (ms + [m])[..|ms|] == ms;
  }

  /** The first `n` eligible messages were considered and none of them ended the batch. */
  ghost predicate Progress(e: seq<Message>, n: nat, answer: Answers, pushes: seq<Msg>, bytes: nat, interruptOnly: bool)
  {
    && n <= |e| && AllNext(e, n, answer, interruptOnly)
    && pushes == Ids(Started(e[..n], answer)) && bytes == Total(Started(e[..n], answer))
  }

  lemma StartedOneMore(e: seq<Message>, n: nat, answer: Answers)
    requires n < |e|
    ensures var s, t := Started(e[..n], answer), Started(e[..n + 1], answer);
            if answer(e[n].id).Starts?
            then t == s + [e[n]] && Ids(t) == Ids(s) + [e[n].id] && Total(t) == Total(s) + Size(e[n])
            else t == s
  {
    assert e[..n + 1][..n] == e[..n];
    var s := Started(e[..n], answer);
    assert (s + [e[n]])[..|s|] == s;
    assert Ids(s + [e[n]]) == Ids(s) + [e[n].id];
  }

  lemma GoesOn(e: seq<Message>, n: nat, answer: Answers, pushes: seq<Msg>, bytes: nat, interruptOnly: bool)
    requires Progress(e, n, answer, pushes, bytes, interruptOnly) && n < |e|
    requires Judge(Started(e[..n], answer), e[n], answer, interruptOnly).Next?
    ensures if answer(e[n].id).Starts?
            then Progress(e, n + 1, answer, pushes + [e[n].id], bytes + Size(e[n]), interruptOnly)
            else Progress(e, n + 1, answer, pushes, bytes, interruptOnly)
  {
    StartedOneMore(e, n, answer);
    hide Judge, Ids, Total, Started, Size;
  }

  /** Asked for one message only, a batch that has one ends there. */
  lemma OneIsEnough(e: seq<Message>, n: nat, answer: Answers, pushes: seq<Msg>, bytes: nat)
    requires Progress(e, n, answer, pushes, bytes, true) && pushes != []
    ensures IsBatch(e, n, answer, pushes, false, true)
  {
  }

  class Deliveries {
    var store: Store
    var nextDelivery: nat

    constructor (found: Store, next: nat)
      ensures store == found && nextDelivery == next
    {
      store, nextDelivery := found, next;
    }

    /** The rows are those of `before` with `pushes` started. */
    ghost predicate Rows(before: Store, first: nat, pushes: seq<Msg>)
      reads this
    {
      Startable(before, pushes) && store == StartAll(before, pushes, first) && nextDelivery == first + |pushes|
    }

    /** `reserve_claude_delivery` of the message after those of `pushes`. */
    method ReserveOne(pushes: seq<Msg>, m: Msg, answer: Answer, ghost before: Store, ghost first: nat)
      requires Rows(before, first, pushes) && m in before && MayStart(before[m]) && m !in pushes
      modifies this
      ensures Rows(before, first, if answer.Starts? then pushes + [m] else pushes)
    {
      StartOneMore(before, pushes, m, first);
      assert store[m] == before[m];
      hide StartAll, Startable;
      if answer.Starts? {
        store := store[m := store[m].(attempt := Some(nextDelivery), attempted := true)];
        nextDelivery := nextDelivery + 1;
      }
    }

    /** The loop body: message `e[n]` of the eligible ones is started, passed by because
        delivery is paused, or ends the batch before or after it. */
    method Consider(ghost e: seq<Message>, ghost n: nat, m: Message, interruptOnly: bool, answer: Answers,
                    pushes: seq<Msg>, bytes: nat, ghost before: Store, ghost first: nat)
      returns (r: seq<Msg>, total: nat, verdict: Verdict, ghost considered: nat)
      requires n < |e| && m == e[n] && Progress(e, n, answer, pushes, bytes, interruptOnly)
      requires interruptOnly ==> pushes == []
      requires Rows(before, first, pushes) && m.id in before && MayStart(before[m.id]) && m.id !in pushes
      modifies this
      ensures Rows(before, first, r)
      ensures verdict.Next? ==> Progress(e, n + 1, answer, r, total, interruptOnly) && (interruptOnly ==> r == [])
      ensures !verdict.Next? ==> IsBatch(e, considered, answer, r, verdict.Refused?, interruptOnly)
    {
      hide StartAll, Startable, Total, Started, Size;
      r, total, verdict, considered := pushes, bytes, Next, n;
      if !m.legal {
        verdict := Refused;
        return;
      }
      if pushes != [] && (bytes + Size(m) > CLAUDE_BATCH_BYTES || |pushes| == CLAUDE_BATCH_COUNT) {
        verdict := Done;
        return;
      }
      if answer(m.id).Fails? {
        verdict := Refused;
        return;
      }
      GoesOn(e, n, answer, pushes, bytes, interruptOnly);
      ReserveOne(pushes, m.id, answer(m.id), before, first);
      if answer(m.id).Starts? {
        r, total := pushes + [m.id], bytes + Size(m);
        if interruptOnly {
          OneIsEnough(e, n + 1, answer, r, total);
          verdict, considered := Done, n + 1;
        }
      }
    }

    /** One reservation: what it starts is a batch of the eligible messages, the rows change
        exactly as the bridge's commit says, and an error leaves its reservations behind.
        Only pending messages with an untouched row are started, in their order, and for
        Stop only queued ones; with nothing in the way all of them are. */
    method Reserve(pending: seq<Message>, route: Route, interruptOnly: bool, answer: Answers)
      returns (pushes: seq<Msg>, failed: bool, ghost considered: nat, ghost at: seq<nat>)
      requires UniqueIds(pending)
      modifies this
      ensures Startable(old(store), pushes)
      ensures store == StartAll(old(store), pushes, old(nextDelivery))
      ensures nextDelivery == old(nextDelivery) + |pushes|
      ensures IsBatch(Eligibles(old(store), route, pending), considered, answer, pushes, failed, interruptOnly)
      ensures Picked(old(store), route, pending, answer, at, pushes)
      ensures Unhindered(pending, answer) ==> !failed && NoneLeft(old(store), route, pending, pushes, interruptOnly)
      ensures failed ==> exists k :: 0 <= k < |pending| && Stops(old(store), route, pending[k], answer)
      ensures forall k :: 0 <= k < |pending| && IsFirst(old(store), route, pending, k) ==>
                (Stops(old(store), route, pending[k], answer) ==> failed && pushes == [])
    {
      hide Eligible, Progress, IsBatch, Startable, StartAll, Unhindered, Picked, NoneLeft;
      pushes, failed, considered, at := [], false, 0, [];
      var bytes: nat := 0;
      ghost var e := Eligibles(store, route, pending);
      NothingYet(store, nextDelivery, e, answer, interruptOnly);
      assert pending[..0] == [];
      for i := 0 to |pending|
        invariant Rows(old(store), old(nextDelivery), pushes) && (interruptOnly ==> pushes == [])
        invariant Progress(e, |Eligibles(old(store), route, pending[..i])|, answer, pushes, bytes, interruptOnly)
      {
        ghost var n := |Eligibles(old(store), route, pending[..i])|;
        var m := pending[i];
        StillEligible(this, old(store), old(nextDelivery), route, pending, i, answer, pushes, bytes, interruptOnly);
        if Eligible(store, route, m) {
          ComesNext(old(store), route, pending, i);
          var verdict;
          pushes, bytes, verdict, considered :=
            Consider(e, n, m, interruptOnly, answer, pushes, bytes, old(store), old(nextDelivery));
          if !verdict.Next? {
            failed := verdict.Refused?;
            at := BatchMeans(old(store), route, pending, considered, answer, pushes, failed, interruptOnly);
            return;
          }
        } else {
          NextEligible(old(store), route, pending, i);
        }
      }
      considered := |e|;
      assert pending[..|pending|] == pending;
      AllConsidered(e, answer, pushes, bytes, interruptOnly);
      at := BatchMeans(old(store), route, pending, considered, answer, pushes, failed, interruptOnly);
    }
  }

  /** Every transaction starts its message, all are legal and together within the limits. */
  ghost predicate Unhindered(pending: seq<Message>, answer: Answers)
  {
    && (forall m <- pending :: m.legal && answer(m.id).Starts?)
    && |pending| <= CLAUDE_BATCH_COUNT && Total(pending) <= CLAUDE_BATCH_BYTES
  }

  /** A message this reservation is for, by its level and its row alone: the row is there
      and nothing has happened to it, and Stop is for queued messages. */
  ghost predicate MayBePicked(store: Store, route: Route, m: Message)
  {
    && m.id in store && store[m.id] == Delivery(None, false, false, false, false)
    && (route == Channel || m.level == Queue)
  }

  /** A message that makes the reservation fail when its turn comes: it breaks the transport
      bounds or its transaction fails. */
  ghost predicate Stops(store: Store, route: Route, m: Message, answer: Answers)
  {
    MayBePicked(store, route, m) && (!m.legal || answer(m.id).Fails?)
  }

  /** The first message this reservation is for. */
  ghost predicate IsFirst(store: Store, route: Route, pending: seq<Message>, k: nat)
    requires k < |pending|
  {
    MayBePicked(store, route, pending[k]) && forall j :: 0 <= j < k ==> !MayBePicked(store, route, pending[j])
  }

  ghost predicate Increasing(at: seq<nat>) { forall i, j :: 0 <= i < j < |at| ==> at[i] < at[j] }

  /** `s` is the messages of `t` at these places, in the order of `t`. */
  ghost predicate Places(t: seq<Message>, at: seq<nat>, s: seq<Message>)
  {
    && |at| == |s| && Increasing(at)
    && forall i :: 0 <= i < |at| ==> at[i] < |t| && t[at[i]] == s[i]
  }

  /** The pushes are the pending messages at these places, in their order, each one legal,
      one this reservation is for, and started by its transaction. */
  ghost predicate Picked(store: Store, route: Route, pending: seq<Message>, answer: Answers, at: seq<nat>,
                         pushes: seq<Msg>)
  {
    && |at| == |pushes| && Increasing(at)
    && forall i :: 0 <= i < |at| ==>
         && at[i] < |pending| && pending[at[i]].id == pushes[i]
         && MayBePicked(store, route, pending[at[i]]) && pending[at[i]].legal && answer(pushes[i]).Starts?
  }

  /** Every message this reservation is for was pushed, or one when only one was asked for. */
  ghost predicate NoneLeft(store: Store, route: Route, pending: seq<Message>, pushes: seq<Msg>, interruptOnly: bool)
  {
    forall m <- pending :: MayBePicked(store, route, m) ==> if interruptOnly then |pushes| == 1 else m.id in pushes
  }

  lemma PlacesNext(t: seq<Message>, at: seq<nat>, s: seq<Message>)
    requires t != [] && Places(t[..|t| - 1], at, s)
    ensures Places(t, at, s) && Places(t, at + [|t| - 1], s + [t[|t| - 1]])
  {
  }

  lemma {:induction false} StartedAt(e: seq<Message>, answer: Answers) returns (at: seq<nat>)
    ensures Places(e, at, Started(e, answer))
  {
    if e == [] {
      at := [];
    } else {
      var n := |e| - 1;
      at := StartedAt(e[..n], answer);
      PlacesNext(e, at, Started(e[..n], answer));
      if answer(e[n].id).Starts? {
        at := at + [n];
      } else {
        assert Started(e[..n], answer) + [] == Started(e[..n], answer);
      }
    }
  }

  lemma {:induction false} EligiblesAt(store: Store, route: Route, pending: seq<Message>) returns (at: seq<nat>)
    ensures Places(pending, at, Eligibles(store, route, pending))
  {
    if pending == [] {
      at := [];
    } else {
      var n := |pending| - 1;
      at := EligiblesAt(store, route, pending[..n]);
      PlacesNext(pending, at, Eligibles(store, route, pending[..n]));
      if Eligible(store, route, pending[n]) {
        at := at + [n];
      } else {
        assert Eligibles(store, route, pending[..n]) + [] == Eligibles(store, route, pending[..n]);
      }
    }
  }

  lemma PlacesOfPlaces(s: seq<Message>, within: seq<nat>, e: seq<Message>, at: seq<nat>, t: seq<Message>)
    returns (both: seq<nat>)
    requires Places(e, within, s) && Places(t, at, e)
    ensures Places(t, both, s)
  {
    both := seq(|within|, i requires 0 <= i < |within| => at[within[i]]);
  }

  lemma {:induction false} EligiblesWeighLess(store: Store, route: Route, pending: seq<Message>)
    ensures Total(Eligibles(store, route, pending)) <= Total(pending)
  {
    if pending != [] {
      var n := |pending| - 1;
      EligiblesWeighLess(store, route, pending[..n]);
      var e := Eligibles(store, route, pending[..n]);
      TotalNext(e, pending[n]);
      assert e + [] == e;
    }
  }

  lemma TotalNext(ms: seq<Message>, m: Message)
    ensures Total(ms + [m]) == Total(ms) + Size(m)
  {
    assert (ms + [m])[..|ms|] == ms;
  }

  lemma {:induction false} PrefixWeighsLess(e: seq<Message>, n: nat)
    requires n <= |e|
    ensures Total(e[..n]) <= Total(e)
    decreases |e|
  {
    if n < |e| {
      var m := |e| - 1;
      PrefixWeighsLess(e[..m], n);
      assert e[..m][..n] == e[..n];
    } else {
      assert e[..n] == e;
    }
  }

  /** With room for all eligible messages nothing ends the batch before the last. */
  lemma RoomForAll(e: seq<Message>, n: nat, answer: Answers, pushes: seq<Msg>, failed: bool, interruptOnly: bool)
    requires IsBatch(e, n, answer, pushes, failed, interruptOnly)
    requires forall k :: 0 <= k < |e| ==> e[k].legal && answer(e[k].id).Starts?
    requires |e| <= CLAUDE_BATCH_COUNT && Total(e) <= CLAUDE_BATCH_BYTES
    ensures !failed && pushes == Ids(e[..n])
    ensures n == |e| || (interruptOnly && pushes != [])
  {
    hide Started, AllNext, Full;
    UnpausedBatchIsAPrefix(e, n, answer);
    if n < |e| {
      NotFull(e, n);
    }
  }

  lemma NotFull(e: seq<Message>, n: nat)
    requires n < |e| <= CLAUDE_BATCH_COUNT && Total(e) <= CLAUDE_BATCH_BYTES
    ensures !Full(e[..n], e[n]) && (e[..n] == [] <==> n == 0)
  {
    PrefixWeighsLess(e, n + 1);
    TotalNext(e[..n], e[n]);
    assert e[..n + 1] == e[..n] + [e[n]];
    hide Total;
  }

  /** What a batch means for the pending messages and their rows. */
  lemma BatchMeans(store: Store, route: Route, pending: seq<Message>, n: nat, answer: Answers, pushes: seq<Msg>,
                   failed: bool, interruptOnly: bool)
    returns (at: seq<nat>)
    requires IsBatch(Eligibles(store, route, pending), n, answer, pushes, failed, interruptOnly)
    ensures Picked(store, route, pending, answer, at, pushes)
    ensures Unhindered(pending, answer) ==> !failed && NoneLeft(store, route, pending, pushes, interruptOnly)
    ensures failed ==> exists k :: 0 <= k < |pending| && Stops(store, route, pending[k], answer)
    ensures forall k :: 0 <= k < |pending| && IsFirst(store, route, pending, k) ==>
              (Stops(store, route, pending[k], answer) ==> failed && pushes == [])
  {
    var e := Eligibles(store, route, pending);
    var s := Started(e[..n], answer);
    StartedMeans(e, n, answer, interruptOnly);
    var within := StartedAt(e[..n], answer);
    var all := EligiblesAt(store, route, pending);
    assert Places(e, within, s);
    at := PlacesOfPlaces(s, within, e, all, pending);
    forall i | 0 <= i < |at|
      ensures MayBePicked(store, route, pending[at[i]]) && pending[at[i]].legal && answer(pushes[i]).Starts?
    {
      assert s[i] in s;
      EligiblesAre(store, route, pending, s[i]);
    }
    FailureMeans(store, route, pending, n, answer, pushes, failed, interruptOnly);
    if Unhindered(pending, answer) {
      UnhinderedBatch(store, route, pending, n, answer, pushes, failed, interruptOnly);
    }
  }

  /** A reservation fails exactly at a message that makes it fail, and at once when that is
      the first one. */
  lemma FailureMeans(store: Store, route: Route, pending: seq<Message>, n: nat, answer: Answers, pushes: seq<Msg>,
                     failed: bool, interruptOnly: bool)
    requires IsBatch(Eligibles(store, route, pending), n, answer, pushes, failed, interruptOnly)
    ensures failed ==> exists k :: 0 <= k < |pending| && Stops(store, route, pending[k], answer)
    ensures forall k :: 0 <= k < |pending| && IsFirst(store, route, pending, k) ==>
              (Stops(store, route, pending[k], answer) ==> failed && pushes == [])
  {
    var e := Eligibles(store, route, pending);
    if failed {
      EligiblesAre(store, route, pending, e[n]);
      var k :| 0 <= k < |pending| && pending[k] == e[n];
      assert Stops(store, route, pending[k], answer);
    }
    forall k | 0 <= k < |pending| && IsFirst(store, route, pending, k) && Stops(store, route, pending[k], answer)
      ensures failed && pushes == []
    {
      FirstIsFirst(store, route, pending, k);
      assert e[..0] == [];
    }
  }

  lemma FirstIsFirst(store: Store, route: Route, pending: seq<Message>, k: nat)
    requires k < |pending| && IsFirst(store, route, pending, k)
    ensures var e := Eligibles(store, route, pending); e != [] && e[0] == pending[k]
  {
    NoneBefore(store, route, pending, k);
    ComesNext(store, route, pending, k);
  }

  lemma {:induction false} NoneBefore(store: Store, route: Route, pending: seq<Message>, k: nat)
    requires k <= |pending| && forall j :: 0 <= j < k ==> !MayBePicked(store, route, pending[j])
    ensures Eligibles(store, route, pending[..k]) == []
  {
    if k > 0 {
      NoneBefore(store, route, pending, k - 1);
      NextEligible(store, route, pending, k - 1);
    }
  }

  lemma UnhinderedBatch(store: Store, route: Route, pending: seq<Message>, n: nat, answer: Answers, pushes: seq<Msg>,
                        failed: bool, interruptOnly: bool)
    requires IsBatch(Eligibles(store, route, pending), n, answer, pushes, failed, interruptOnly)
    requires Unhindered(pending, answer)
    ensures !failed && NoneLeft(store, route, pending, pushes, interruptOnly)
  {
    var e := Eligibles(store, route, pending);
    EligiblesWeighLess(store, route, pending);
    forall k | 0 <= k < |e| ensures e[k].legal && answer(e[k].id).Starts? {
      EligiblesAre(store, route, pending, e[k]);
    }
    hide Total, Started;
    RoomForAll(e, n, answer, pushes, failed, interruptOnly);
    BatchRespectsLimits(e, n, answer, pushes, failed, interruptOnly);
    hide IsBatch, Unhindered;
    forall m | m in pending && MayBePicked(store, route, m)
      ensures if interruptOnly then |pushes| == 1 else m.id in pushes
    {
      EligiblesAre(store, route, pending, m);
      if n == |e| {
        IdsOfAll(e, pushes, m);
      }
    }
  }

  lemma IdsOfAll(e: seq<Message>, pushes: seq<Msg>, m: Message)
    requires pushes == Ids(e[..|e|]) && m in e
    ensures m.id in pushes && pushes != []
  {
    var i :| 0 <= i < |e| && e[i] == m;
    assert e[..|e|] == e && pushes[i] == m.id;
  }

  /** What was started was legal and its transaction said so. */
  lemma {:induction false} StartedMeans(e: seq<Message>, n: nat, answer: Answers, interruptOnly: bool)
    requires n <= |e| && AllNext(e, n, answer, interruptOnly)
    ensures forall m <- Started(e[..n], answer) :: m in e && m.legal && answer(m.id).Starts?
  {
    if n > 0 {
      StartedMeans(e, n - 1, answer, interruptOnly);
      StartedOneMore(e, n - 1, answer);
      assert Judge(Started(e[..n - 1], answer), e[n - 1], answer, interruptOnly).Next?;
    }
  }

  lemma NothingYet(store: Store, first: nat, e: seq<Message>, answer: Answers, interruptOnly: bool)
    ensures Startable(store, []) && StartAll(store, [], first) == store
    ensures Progress(e, 0, answer, [], 0, interruptOnly)
  {
  }

  lemma AllConsidered(e: seq<Message>, answer: Answers, pushes: seq<Msg>, bytes: nat, interruptOnly: bool)
    requires Progress(e, |e|, answer, pushes, bytes, interruptOnly)
    ensures IsBatch(e, |e|, answer, pushes, false, interruptOnly)
  {
  }

  /** The rows started so far do not change whether a later message is eligible. */
  lemma StillEligible(d: Deliveries, before: Store, first: nat, route: Route, pending: seq<Message>, i: nat,
                      answer: Answers, pushes: seq<Msg>, bytes: nat, interruptOnly: bool)
    requires UniqueIds(pending) && i < |pending| && d.Rows(before, first, pushes)
    requires Progress(Eligibles(before, route, pending), |Eligibles(before, route, pending[..i])|,
                      answer, pushes, bytes, interruptOnly)
    ensures pending[i].id !in pushes
    ensures Eligible(d.store, route, pending[i]) == Eligible(before, route, pending[i])
    ensures Eligible(before, route, pending[i]) ==> pending[i].id in before && MayStart(before[pending[i].id])
  {
    EligiblesGrow(before, route, pending, i);
    var e, done := Eligibles(before, route, pending), Eligibles(before, route, pending[..i]);
    assert e[..|done|] == done;
    NotStartedYet(before, route, pending, i, answer);
    hide Eligibles, Started, Ids, Total;
  }

  /** The bytes of the contents alone. */
  function Bytes(ms: seq<Message>): nat
  {
    if ms == [] then 0 else Bytes(ms[..|ms| - 1]) + ms[|ms| - 1].content
  }

  /** Headers count too, 512 bytes each. */
  lemma {:induction false} HeadersCount(ms: seq<Message>)
    ensures Total(ms) == Bytes(ms) + 512 * |ms|
  {
    if ms != [] {
      HeadersCount(ms[..|ms| - 1]);
    }
  }

  /** Every batch respects the limits; a single message of any size is allowed. */
  lemma BatchRespectsLimits(e: seq<Message>, n: nat, answer: Answers, pushes: seq<Msg>, failed: bool,
                            interruptOnly: bool)
    requires IsBatch(e, n, answer, pushes, failed, interruptOnly)
    ensures |pushes| <= CLAUDE_BATCH_COUNT
    ensures Bytes(Started(e[..n], answer)) + 512 * |pushes| <= CLAUDE_BATCH_BYTES || |pushes| == 1
    ensures interruptOnly ==> |pushes| <= 1
  {
    HeadersCount(Started(e[..n], answer));
    StartedWithin(e, n, answer, interruptOnly);
  }

  lemma {:induction false} StartedWithin(e: seq<Message>, n: nat, answer: Answers, interruptOnly: bool)
    requires n <= |e| && AllNext(e, n, answer, interruptOnly)
    ensures var s := Started(e[..n], answer);
            && |s| <= CLAUDE_BATCH_COUNT && (Total(s) <= CLAUDE_BATCH_BYTES || |s| == 1)
            && (interruptOnly ==> |s| <= 1)
  {
    if n > 0 {
      StartedWithin(e, n - 1, answer, interruptOnly);
      StartedOneMore(e, n - 1, answer);
      assert Judge(Started(e[..n - 1], answer), e[n - 1], answer, interruptOnly).Next?;
      hide Started;
    }
  }

  lemma PrefixNext(e: seq<Message>, n: nat)
    requires n < |e|
    ensures e[..n + 1] == e[..n] + [e[n]]
  {
  }

  /** While delivery is not paused and no transaction fails, a batch is the longest prefix
      of the eligible messages within the limits, cut short only by an illegal one. */
  lemma {:induction false} UnpausedBatchIsAPrefix(e: seq<Message>, n: nat, answer: Answers)
    requires n <= |e| && forall k :: 0 <= k < n ==> answer(e[k].id).Starts?
    ensures Started(e[..n], answer) == e[..n]
  {
    if n > 0 {
      UnpausedBatchIsAPrefix(e, n - 1, answer);
      StartedOneMore(e, n - 1, answer);
      hide *;
      PrefixNext(e, n - 1);
    }
  }
}
