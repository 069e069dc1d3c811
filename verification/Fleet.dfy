/**
  The fleet view and the event log of the client protocol (crates/agend-daemon/src/fleet.rs)
  and the event half of a connection (crates/agend-daemon/src/server.rs).

  Every method of `Fleet` is one critical section under its mutex, so any interleaving of
  clients and daemon tasks is a sequence of method calls.
*/
module Fleet {
  import opened Common

  datatype Result<+T> = Ok(value: T) | EventGap

  datatype Action = Retry | OtherAction(name: string)

  /** An instance as the view shows it; `details` stands for the fields besides the id. */
  datatype InstanceView = InstanceView(instanceId: string, details: string)

  /** A needs-you item; `questions` counts the questions of its ask, `details` stands for
      the texts. */
  datatype Item = Item(
    attentionId: Option<string>, waitingSince: Option<nat>, actions: seq<Action>, questions: nat, details: string)

  /** `read_key` of a listed item: a new question makes it unread. */
  function ReadKey(item: Item): Option<string>
  {
    if item.attentionId.None? then None else Some(item.attentionId.value + "#" + Decimal(item.questions))
  }

  /** A key that was read stays read exactly until the item has another question. */
  lemma KeysTellQuestionsApart(a: Item, b: Item)
    requires a.attentionId.Some? && a.attentionId == b.attentionId
    ensures ReadKey(a) == ReadKey(b) <==> a.questions == b.questions
  {
    var id := a.attentionId.value + "#";
    var x, y := Decimal(a.questions), Decimal(b.questions);
    DecimalReadsBack(a.questions);
    DecimalReadsBack(b.questions);
    assert (id + x)[|id|..] == x && (id + y)[|id|..] == y;
  }

  datatype TaskView = TaskView(taskId: string, details: string)

  datatype Event =
    | InstanceChanged(instanceId: string, summary: string, instance: Option<InstanceView>)
    | AttentionRequired(item: Item)
    | AttentionResolved(attentionId: string, action: Action)
    | TaskChanged(task: TaskView)
    | AttentionRead(key: string)
    | Other(kind: string, about: string)          // all other events

  datatype EventData = EventData(eventId: nat, event: Event)

  // ---- what a client makes of the events ----------------------------------------

  datatype Shown = Shown(instances: map<string, InstanceView>, attention: map<string, Item>)

  const Nothing := Shown(map[], map[])

  function Fold1(v: Shown, e: Event): Shown
  {
    match e
    case InstanceChanged(id, _, Some(i)) => v.(instances := v.instances[id := i])
    case InstanceChanged(id, _, None) => v.(instances := v.instances - {id})
    case AttentionRequired(item) =>
      if item.attentionId.None? then v
      else v.(attention := v.attention[item.attentionId.value := item])
    case AttentionResolved(id, _) => v.(attention := v.attention - {id})
    case TaskChanged(_) => v
    case AttentionRead(_) => v
    case Other(_, _) => v
  }

  function Fold(v: Shown, events: seq<EventData>): Shown
    decreases |events|
  {
    if events == [] then v else Fold1(Fold(v, events[..|events| - 1]), events[|events| - 1].event)
  }

  lemma FoldNext(v: Shown, events: seq<EventData>, e: EventData)
    ensures Fold(v, events + [e]) == Fold1(Fold(v, events), e.event)
  {
    assert (events + [e])[..|events|] == events;
  }

  /** Folding a prefix and then the rest is folding it all. */
  lemma {:induction false} FoldInTwoParts(v: Shown, events: seq<EventData>, k: nat)
    requires k <= |events|
    ensures Fold(Fold(v, events[..k]), events[k..]) == Fold(v, events)
    decreases |events|
  {
    if k < |events| {
      var n := |events| - 1;
      FoldInTwoParts(v, events[..n], k);
      assert events[..n][..k] == events[..k] && events[..n][k..] == events[k..][..n - k];
    } else {
      assert events[..k] == events && events[k..] == [];
    }
  }

  // ---- the history behind the log -----------------------------------------------

  /** Event ids count up from the boot's base without a gap. */
  ghost predicate Numbered(history: seq<EventData>, base: nat)
  {
    forall k :: 0 <= k < |history| ==> history[k].eventId == base + 1 + k
  }

  function Tail(history: seq<EventData>, n: nat): seq<EventData>
  {
    if |history| <= n then history else history[|history| - n..]
  }

  /** Nothing is resolved that is not listed. */
  ghost predicate Genuine(history: seq<EventData>)
  {
    forall k :: 0 <= k < |history| ==> GenuineAt(history, k)
  }

  ghost predicate GenuineAt(history: seq<EventData>, k: nat)
    requires k < |history|
  {
    history[k].event.AttentionResolved? ==>
      history[k].event.attentionId in Fold(Nothing, history[..k]).attention
  }

  predicate Requires(e: Event, id: string) { e.AttentionRequired? && e.item.attentionId == Some(id) }

  /** An id that is listed after `j` and was not listed after `i` was raised in between. */
  lemma {:induction false} ListedWasRaised(history: seq<EventData>, i: nat, j: nat, id: string)
    requires i <= j <= |history|
    requires id !in Fold(Nothing, history[..i]).attention && id in Fold(Nothing, history[..j]).attention
    ensures exists m :: i <= m < j && Requires(history[m].event, id)
    decreases j
  {
    FoldNext(Nothing, history[..j - 1], history[j - 1]);
    assert history[..j - 1] + [history[j - 1]] == history[..j];
    if !Requires(history[j - 1].event, id) {
      ListedWasRaised(history, i, j - 1, id);
    }
  }

  /** Of all resolves of one raised item only one obtains it: between two successful
      resolves of an id the item was raised again. */
  lemma OneResolvePerRaise(history: seq<EventData>, i: nat, j: nat)
    requires Genuine(history) && i < j < |history|
    requires history[i].event.AttentionResolved? && history[j].event.AttentionResolved?
    requires history[i].event.attentionId == history[j].event.attentionId
    ensures exists m :: i < m < j && Requires(history[m].event, history[i].event.attentionId)
  {
    assert GenuineAt(history, j);
    FoldNext(Nothing, history[..i], history[i]);
    assert history[..i] + [history[i]] == history[..i + 1];
    ListedWasRaised(history, i + 1, j, history[i].event.attentionId);
  }

  /** These events, numbered after event `latest`. */
  function Following(events: seq<Event>, latest: nat): seq<EventData>
  {
    seq(|events|, i requires 0 <= i < |events| => EventData(latest + 1 + i, events[i]))
  }

  // ---- views --------------------------------------------------------------------

  /** The fleet view of a reply; the order of its items is not modelled. */
  datatype FleetView = FleetView(asOf: nat, shown: Shown, tasks: seq<TaskView>, readKeys: set<string>)

  /** `v` showed the fleet as it was after its last event. */
  ghost predicate WasView(v: FleetView, history: seq<EventData>, base: nat)
  {
    base <= v.asOf <= base + |history| && v.shown == Fold(Nothing, history[..v.asOf - base])
  }

  function After(events: seq<EventData>, cursor: nat): seq<EventData>
    decreases |events|
  {
    if events == [] then []
    else
      var n := |events| - 1;
      After(events[..n], cursor) + (if events[n].eventId > cursor then [events[n]] else [])
  }

  lemma {:induction false} AfterIsTheRest(history: seq<EventData>, base: nat, k: nat, cursor: nat)
    requires k <= |history| && (forall i :: 0 <= i < |history| ==> history[i].eventId == base + 1 + i)
    requires base + k == cursor
    ensures After(history, cursor) == history[k..]
    decreases |history|
  {
    if |history| > k {
      var n := |history| - 1;
      AfterIsTheRest(history[..n], base, k, cursor);
      assert history[k..] == history[..n][k..] + [history[n]];
    } else if history != [] {
      AfterTheLast(history, cursor);
    }
  }

  lemma {:induction false} AfterTheLast(events: seq<EventData>, cursor: nat)
    requires forall i :: 0 <= i < |events| ==> events[i].eventId <= cursor
    ensures After(events, cursor) == []
    decreases |events|
  {
    if events != [] {
      AfterTheLast(events[..|events| - 1], cursor);
    }
  }

  /** The events of the tasks in `now` that `before` does not have, after event `latest`. */
  function TaskEvents(before: seq<TaskView>, now: seq<TaskView>, latest: nat): seq<EventData>
  {
    if now == [] then []
    else
      var n := |now| - 1;
      var events := TaskEvents(before, now[..n], latest);
      if now[n] in before then events else events + [EventData(latest + |events| + 1, TaskChanged(now[n]))]
  }

  /** These are the places in `now` of the tasks `before` does not have, in order, and their
      events. */
  ghost predicate TasksAt(before: seq<TaskView>, now: seq<TaskView>, latest: nat, at: seq<nat>, events: seq<EventData>)
  {
    && |at| == |events| && (forall i, j :: 0 <= i < j < |at| ==> at[i] < at[j])
    && (forall i :: 0 <= i < |at| ==> at[i] < |now| && now[at[i]] !in before)
    && (forall i :: 0 <= i < |at| ==> at[i] < |now| && events[i] == EventData(latest + 1 + i, TaskChanged(now[at[i]])))
    && (forall k :: 0 <= k < |now| && now[k] !in before ==> k in at)
  }

  lemma NoTasks(before: seq<TaskView>, latest: nat)
    ensures TasksAt(before, [], latest, [], [])
  {
  }

  lemma NextTask(before: seq<TaskView>, now: seq<TaskView>, latest: nat, at: seq<nat>, events: seq<EventData>)
    requires now != [] && TasksAt(before, now[..|now| - 1], latest, at, events)
    ensures var n := |now| - 1;
            if now[n] in before then TasksAt(before, now, latest, at, events)
            else TasksAt(before, now, latest, at + [n],
                         events + [EventData(latest + |events| + 1, TaskChanged(now[n]))])
  {
    var n := |now| - 1;
    forall k | 0 <= k < n && now[k] !in before ensures k in at {
      assert now[..n][k] == now[k];
    }
  }

  /** Exactly the tasks that are new or changed are published, in their order. */
  lemma {:induction false} TaskEventsAre(before: seq<TaskView>, now: seq<TaskView>, latest: nat) returns (at: seq<nat>)
    ensures TasksAt(before, now, latest, at, TaskEvents(before, now, latest))
  {
    hide TasksAt;
    at := [];
    if now == [] {
      NoTasks(before, latest);
      return;
    }
    var n := |now| - 1;
    at := TaskEventsAre(before, now[..n], latest);
    NextTask(before, now, latest, at, TaskEvents(before, now[..n], latest));
    at := if now[n] in before then at else at + [n];
  }

  // ---- the fleet ----------------------------------------------------------------

  function FailedAttentionId(id: string): string { "instance-failed:" + id }

  /** `same_attention`: waiting times only tell failure episodes apart. */
  predicate SameAttention(a: Item, b: Item)
  {
    if a.attentionId.Some? && "instance-failed:" <= a.attentionId.value then a == b
    else a.(waitingSince := None) == b.(waitingSince := None)
  }

  class Fleet {
    const base: nat
    const retained: nat
    var latest: nat
    var log: seq<EventData>
    var instances: map<string, InstanceView>
    var attention: map<string, Item>
    var tasks: seq<TaskView>
    var readKeys: set<string>
    ghost var history: seq<EventData>       // every event since boot

    ghost predicate LogValid()
      reads this
    {
      && retained > 0
      && latest == base + |history|
      && Numbered(history, base)
      && log == Tail(history, retained)
      && Genuine(history)
    }

    /** The log holds the last events, and the view is what all events add up to. */
    ghost predicate Valid()
      reads this
    {
      LogValid() && Shown(instances, attention) == Fold(Nothing, history)
    }

    constructor (bootUnixMs: nat, capacity: nat)
      requires capacity > 0
      ensures Valid() && base == bootUnixMs * 1000 && retained == capacity
      ensures history == [] && instances == map[] && attention == map[]
    {
      base, retained, latest := bootUnixMs * 1000, capacity, bootUnixMs * 1000;
      log, instances, attention, tasks, readKeys, history := [], map[], map[], [], {}, [];
    }

    /** Appends an event, dropping the oldest beyond the capacity. */
    method Push(event: Event) returns (id: nat)
      requires LogValid()
      requires event.AttentionResolved? ==> event.attentionId in Fold(Nothing, history).attention
      modifies this`latest, this`log, this`history
      ensures LogValid() && id == latest
      ensures history == old(history) + [EventData(id, event)]
      ensures Fold(Nothing, history) == Fold1(Fold(Nothing, old(history)), event)
    {
      latest := latest + 1;
      var data := EventData(latest, event);
      log := log + [data];
      if |log| > retained {
        log := log[1..];
      }
      id := latest;
      FoldNext(Nothing, history, data);
      GenuineNext(history, data);
      history := history + [data];
    }

    static lemma GenuineNext(h: seq<EventData>, e: EventData)
      requires Genuine(h)
      requires e.event.AttentionResolved? ==> e.event.attentionId in Fold(Nothing, h).attention
      ensures Genuine(h + [e])
    {
      var t := h + [e];
      forall k | 0 <= k < |t|
        ensures GenuineAt(t, k)
      {
        if k < |h| {
          assert GenuineAt(h, k) && t[k] == h[k] && t[..k] == h[..k];
        } else {
          assert t[..k] == h;
        }
      }
    }

    /** `publish` carries no instance and no needs-you item. */
    method Publish(event: Event) returns (id: nat)
      requires Valid() && event.Other?
      modifies this
      ensures Valid() && history == old(history) + [EventData(id, event)]
      ensures instances == old(instances) && attention == old(attention)
    {
      id := Push(event);
    }

    method SetInstance(instance: InstanceView, summary: string)
      requires Valid()
      modifies this
      ensures Valid()
      ensures instances == old(instances)[instance.instanceId := instance] && attention == old(attention)
      ensures history == old(history)
                + if old(instance.instanceId in instances && instances[instance.instanceId] == instance) then []
                  else [EventData(old(latest) + 1, InstanceChanged(instance.instanceId, summary, Some(instance)))]
    {
      if instance.instanceId in instances && instances[instance.instanceId] == instance {
        assert instances == instances[instance.instanceId := instance];
        return;
      }
      instances := instances[instance.instanceId := instance];
      var _ := Push(InstanceChanged(instance.instanceId, summary, Some(instance)));
    }

    method RemoveInstance(id: string)
      requires Valid()
      modifies this
      ensures Valid()
      ensures instances == old(instances) - {id}
      ensures attention == old(attention) - {"instance-failed:" + id}
      ensures var shown := if id in old(instances) then [InstanceChanged(id, "removed", None)] else [];
              var item := "instance-failed:" + id;
              var listed := if item in old(attention) then [AttentionResolved(item, OtherAction("unknown"))] else [];
              history == old(history) + Following(shown + listed, old(latest))
    {
      hide Fold, Genuine, Tail, Numbered;
      if id in instances {
        instances := instances - {id};
        var _ := Push(InstanceChanged(id, "removed", None));
      }
      assert instances == old(instances) - {id};
      var item := FailedAttentionId(id);
      if item in attention {
        attention := attention - {item};
        var _ := Push(AttentionResolved(item, OtherAction("unknown")));
      }
      assert attention == old(attention) - {item};
    }

    /** Lists an item unless one with its id is listed. */
    method Raise(item: Item)
      requires Valid()
      modifies this
      ensures Valid() && instances == old(instances)
      ensures if item.attentionId.None? || item.attentionId.value in old(attention)
              then attention == old(attention) && history == old(history)
              else attention == old(attention)[item.attentionId.value := item]
                   && history == old(history) + [EventData(old(latest) + 1, AttentionRequired(item))]
    {
      if item.attentionId.None? || item.attentionId.value in attention {
        return;
      }
      attention := attention[item.attentionId.value := item];
      var _ := Push(AttentionRequired(item));
    }

    /** Lists an item, replacing a different one with its id. */
    method UpsertAttention(item: Item)
      requires Valid()
      modifies this
      ensures Valid() && instances == old(instances)
      ensures attention == if item.attentionId.None? then old(attention)
                           else old(attention)[item.attentionId.value := item]
      ensures history == old(history)
                + if attention == old(attention) then [] else [EventData(old(latest) + 1, AttentionRequired(item))]
    {
      if item.attentionId.None? {
        return;
      }
      var id := item.attentionId.value;
      if id in attention && attention[id] == item {
        assert attention == attention[id := item];
        return;
      }
      attention := attention[id := item];
      var _ := Push(AttentionRequired(item));
    }

    /** Replaces a captured item only if it is still listed unchanged. */
    method ReplaceAttentionIf(expected: Item, item: Item) returns (done: bool)
      requires Valid()
      modifies this
      ensures Valid() && old(history) <= history && instances == old(instances)
      ensures done <==> expected.attentionId.Some? && item.attentionId == expected.attentionId
                        && expected.attentionId.value in old(attention)
                        && old(attention)[expected.attentionId.value] == expected
      ensures attention == if done then old(attention)[expected.attentionId.value := item] else old(attention)
      ensures history == old(history)
                + if done && item != expected then [EventData(old(latest) + 1, AttentionRequired(item))] else []
    {
      if expected.attentionId.None? || item.attentionId != expected.attentionId {
        return false;
      }
      var id := expected.attentionId.value;
      if id !in attention || attention[id] != expected {
        return false;
      }
      if expected != item {
        attention := attention[id := item];
        var _ := Push(AttentionRequired(item));
      } else {
        assert attention == attention[id := item];
      }
      return true;
    }

    method Dismiss(id: string)
      requires Valid()
      modifies this
      ensures Valid() && old(history) <= history && instances == old(instances)
      ensures attention == old(attention) - {id}
      ensures history == old(history)
                + if id !in old(attention) then []
                  else [EventData(old(latest) + 1, AttentionResolved(id, OtherAction("unknown")))]
    {
      if id in attention {
        attention := attention - {id};
        var _ := Push(AttentionResolved(id, OtherAction("unknown")));
      }
      assert attention == old(attention) - {id};
    }

    /** Takes a listed item that offers the action off the list, once. */
    method Resolve(id: string, action: Action) returns (r: Option<Item>)
      requires Valid()
      modifies this
      ensures Valid() && instances == old(instances)
      ensures r.Some? <==> id in old(attention) && action in old(attention)[id].actions
      ensures r.Some? ==> r.value == old(attention)[id] && attention == old(attention) - {id}
      ensures r.Some? ==> history == old(history) + [EventData(latest, AttentionResolved(id, action))]
      ensures r.None? ==> attention == old(attention) && history == old(history)
    {
      if id !in attention || action !in attention[id].actions {
        return None;
      }
      r := Some(attention[id]);
      attention := attention - {id};
      var _ := Push(AttentionResolved(id, action));
    }

    /** As `Resolve`, only if the item is still the one the notification showed: equal in
        everything, except that a wait that began at another time matters only for a
        failed instance, where it is another failure. */
    method ResolveIfCurrent(expected: Item, action: Action) returns (r: Option<Item>)
      requires Valid()
      modifies this
      ensures Valid() && instances == old(instances)
      ensures r.Some? <==>
                && expected.attentionId.Some? && expected.attentionId.value in old(attention)
                && var id, item := expected.attentionId.value, old(attention)[expected.attentionId.value];
                   && action in item.actions
                   && item.(waitingSince := expected.waitingSince) == expected
                   && ("instance-failed:" <= id ==> item.waitingSince == expected.waitingSince)
      ensures r.Some? ==>
                var id := expected.attentionId.value;
                && r.value == old(attention)[id] && attention == old(attention) - {id}
                && history == old(history) + [EventData(old(latest) + 1, AttentionResolved(id, action))]
      ensures r.None? ==> attention == old(attention) && history == old(history)
    {
      if expected.attentionId.None? || expected.attentionId.value !in attention {
        return None;
      }
      var id := expected.attentionId.value;
      if !SameAttention(attention[id], expected) || action !in attention[id].actions {
        return None;
      }
      r := Some(attention[id]);
      attention := attention - {id};
      var _ := Push(AttentionResolved(id, action));
    }

    /** Publishes every task that is new or changed, in order; a vanished task has no event. */
    method SyncTasks(now: seq<TaskView>)
      requires Valid()
      modifies this
      ensures Valid() && tasks == now
      ensures history == old(history) + TaskEvents(old(tasks), now, old(latest))
      ensures instances == old(instances) && attention == old(attention)
    {
      hide Fold, Genuine;
      var before := tasks;
      tasks := now;
      for i := 0 to |now|
        invariant Valid() && tasks == now
        invariant history == old(history) + TaskEvents(before, now[..i], old(latest))
        invariant instances == old(instances) && attention == old(attention)
      {
        assert now[..i + 1][..i] == now[..i];
        if now[i] !in before {
          var _ := Push(TaskChanged(now[i]));
        }
      }
      assert now[..|now|] == now;
    }

    /** The first time a key is read an event tells the other clients. */
    method MarkRead(key: string)
      requires Valid()
      modifies this
      ensures Valid() && readKeys == old(readKeys) + {key}
      ensures history == old(history) + if key in old(readKeys) then [] else [EventData(latest, AttentionRead(key))]
      ensures instances == old(instances) && attention == old(attention)
    {
      if key !in readKeys {
        readKeys := readKeys + {key};
        var _ := Push(AttentionRead(key));
      }
    }

    /** The fleet view now; of the keys read it has those of listed items. */
    method View() returns (v: FleetView)
      requires Valid()
      ensures WasView(v, history, base) && v.asOf == base + |history|
      ensures v.shown == Shown(instances, attention) && v.tasks == tasks
      ensures forall key :: key in v.readKeys <==>
                key in readKeys && exists id :: id in attention && ReadKey(attention[id]) == Some(key)
    {
      var read := set id | id in attention && ReadKey(attention[id]).Some? && ReadKey(attention[id]).value in readKeys
                    :: ReadKey(attention[id]).value;
      v := FleetView(latest, Shown(instances, attention), tasks, read);
      assert history[..|history|] == history;
    }

    /** Accepted exactly when every event after the cursor is still retained; the backlog
        is then those events in order and live ones start right behind them. Without a
        cursor everything retained comes first. */
    method Subscribe(after: Option<nat>) returns (r: Result<Subscription>)
      requires Valid()
      ensures r.Ok? <==> after.None? || CanContinue(history, base, retained, after.value)
      ensures r.Ok? ==> Continues(r.value, history, base)
      ensures r.Ok? && after.Some? ==> r.value.start == after.value
      ensures r.Ok? && after.None? ==> r.value.backlog == log
    {
      var oldest := if log == [] then latest + 1 else log[0].eventId;
      OldestRetained(history, base, retained);
      if after.Some? {
        CanContinueIff(history, base, retained, after.value);
        if !(after.value + 1 >= oldest && after.value <= latest) {
          return EventGap;
        }
      }
      var cursor := if after.Some? then after.value else 0;
      var start := if after.Some? then after.value else oldest - 1;
      var backlog := Select(log, cursor);
      BacklogContinues(history, base, retained, start, cursor);
      r := Ok(Subscription(start, backlog, latest + 1));
    }
  }

  /** The id before the oldest retained event, or the last id while none is retained. */
  ghost function First(history: seq<EventData>, base: nat, n: nat): nat
  {
    base + |history| - |Tail(history, n)|
  }

  lemma OldestRetained(history: seq<EventData>, base: nat, n: nat)
    requires Numbered(history, base) && n > 0
    ensures var log := Tail(history, n);
            First(history, base, n) + 1 == if log == [] then base + |history| + 1 else log[0].eventId
  {
    TailIsNumbered(history, base, n);
  }

  ghost predicate CanContinue(history: seq<EventData>, base: nat, n: nat, cursor: nat)
  {
    && cursor <= base + |history|
    && forall id :: cursor < id <= base + |history| ==> Holds(Tail(history, n), id)
  }

  lemma CanContinueIff(history: seq<EventData>, base: nat, n: nat, cursor: nat)
    requires Numbered(history, base) && n > 0
    ensures CanContinue(history, base, n, cursor) <==> First(history, base, n) <= cursor <= base + |history|
  {
    TailIsNumbered(history, base, n);
    RetainedIff(Tail(history, n), First(history, base, n), cursor);
  }

  lemma BacklogContinues(history: seq<EventData>, base: nat, n: nat, start: nat, cursor: nat)
    requires Numbered(history, base) && n > 0
    requires First(history, base, n) <= start <= base + |history|
    requires cursor == start || (cursor == 0 && start == First(history, base, n))
    ensures After(Tail(history, n), cursor) == history[start - base..]
    ensures start == First(history, base, n) ==> history[start - base..] == Tail(history, n)
  {
    TailIsNumbered(history, base, n);
    var log := Tail(history, n);
    var dropped := |history| - |log|;
    assert First(history, base, n) == base + dropped;
    hide Tail, Numbered, After, First;
    SelectsTheRest(log, base + dropped, start, cursor);
    SuffixOfSuffix(history, dropped, start - base);
  }

  lemma SuffixOfSuffix(history: seq<EventData>, i: nat, j: nat)
    requires i <= j <= |history|
    ensures history[i..][j - i..] == history[j..]
  {
    assert history[i..][j - i..] == history[j..];
  }

  lemma TailIsNumbered(history: seq<EventData>, base: nat, n: nat)
    requires Numbered(history, base) && n > 0
    ensures var log := Tail(history, n);
            var dropped := |history| - |log|;
            dropped >= 0 && log == history[dropped..] && Numbered(log, base + dropped)
  {
  }

  /** A cursor can continue exactly when no id after it has left the retained events. */
  lemma RetainedIff(log: seq<EventData>, first: nat, cursor: nat)
    requires Numbered(log, first)
    ensures (cursor <= first + |log| && forall id :: cursor < id <= first + |log| ==> Holds(log, id))
            <==> first <= cursor <= first + |log|
  {
    if first <= cursor {
      forall id | cursor < id <= first + |log| ensures Holds(log, id) {
        assert log[id - first - 1].eventId == id;
      }
    } else {
      assert !Holds(log, first);
    }
  }

  /** An event with this id is among `events`. */
  ghost predicate Holds(events: seq<EventData>, id: nat)
  {
    exists k :: 0 <= k < |events| && events[k].eventId == id
  }

  datatype Subscription = Subscription(start: nat, backlog: seq<EventData>, next: nat)

  /** The backlog is every event after the start, and `next` is the one after it. */
  ghost predicate Continues(s: Subscription, history: seq<EventData>, base: nat)
  {
    && base <= s.start <= base + |history|
    && s.backlog == history[s.start - base..]
    && s.next == base + |history| + 1
  }

  method Select(events: seq<EventData>, cursor: nat) returns (r: seq<EventData>)
    ensures r == After(events, cursor)
  {
    r := [];
    for i := 0 to |events|
      invariant r == After(events[..i], cursor)
    {
      assert events[..i + 1][..i] == events[..i];
      if events[i].eventId > cursor {
        r := r + [events[i]];
      }
    }
    assert events[..|events|] == events;
  }

  /** Of consecutive events the ones after a cursor are a suffix; a cursor below them all
      selects them all. */
  lemma SelectsTheRest(events: seq<EventData>, first: nat, start: nat, cursor: nat)
    requires Numbered(events, first)
    requires first <= start <= first + |events| && (cursor == start || (cursor <= first && start == first))
    ensures After(events, cursor) == events[start - first..]
  {
    if cursor == start {
      AfterIsTheRest(events, first, start - first, cursor);
    } else {
      AfterBelow(events, cursor);
      assert events[0..] == events;
    }
  }

  lemma {:induction false} AfterBelow(events: seq<EventData>, cursor: nat)
    requires forall i :: 0 <= i < |events| ==> events[i].eventId > cursor
    ensures After(events, cursor) == events
    decreases |events|
  {
    if events != [] {
      var n := |events| - 1;
      AfterBelow(events[..n], cursor);
      assert events == events[..n] + [events[n]];
    }
  }

  /** A cursor below a boot's base is refused by that boot, always. */
  lemma CursorBeforeThisBootIsRefused(history: seq<EventData>, base: nat, retained: nat, cursor: nat)
    requires Numbered(history, base) && cursor < base
    ensures !CanContinue(history, base, retained, cursor)
  {
    assert !Holds(Tail(history, retained), base);
  }

  // ---- view, then events --------------------------------------------------------

  lemma ViewsStayViews(v: FleetView, history: seq<EventData>, later: seq<EventData>, base: nat)
    requires WasView(v, history, base) && history <= later
    ensures WasView(v, later, base)
  {
    assert later[..v.asOf - base] == history[..v.asOf - base];
  }

  /** Folding the events after any view this fleet ever gave over that view gives exactly
      the instances and needs-you items of the fleet now. */
  lemma ViewPlusEventsIsNow(f: Fleet, v: FleetView)
    requires f.Valid() && WasView(v, f.history, f.base)
    ensures Fold(v.shown, After(f.history, v.asOf)) == Shown(f.instances, f.attention)
  {
    AfterIsTheRest(f.history, f.base, v.asOf - f.base, v.asOf);
    FoldInTwoParts(Nothing, f.history, v.asOf - f.base);
  }

  // ---- a connection's event stream ----------------------------------------------

  /** The next event is in the log exactly when it is not older than the oldest there. */
  lemma NextOfTheLog(history: seq<EventData>, base: nat, n: nat, next: nat)
    requires Numbered(history, base) && n > 0 && base < next <= base + |history|
    ensures var log := Tail(history, n);
            && log != [] && (Holds(log, next) <==> log[0].eventId <= next)
            && (log[0].eventId <= next ==>
                  next - log[0].eventId < |log| && log[next - log[0].eventId] == history[next - 1 - base])
  {
    TailIsNumbered(history, base, n);
    var log := Tail(history, n);
    hide Tail;
    if log[0].eventId <= next {
      assert log[next - log[0].eventId].eventId == next;
    }
  }

  lemma OneLonger(history: seq<EventData>, i: nat, j: nat)
    requires i <= j < |history|
    ensures history[i..j + 1] == history[i..j] + [history[j]]
  {
  }

  /** Subscribed connection: what it sent, what is left of the backlog, and the id the
      broadcast receiver expects next. */
  class Connection {
    const start: nat
    var delivered: seq<EventData>
    var backlog: seq<EventData>
    var next: nat
    var open: bool

    /** What was sent and what is queued is the history after the start, without a gap
        or a repeat. */
    ghost predicate Ok(history: seq<EventData>, base: nat)
      reads this
    {
      && base <= start < next <= base + |history| + 1
      && delivered + backlog == history[start - base..next - 1 - base]
    }

    constructor (s: Subscription, ghost history: seq<EventData>, ghost base: nat)
      requires Continues(s, history, base)
      ensures Ok(history, base) && start == s.start && delivered == [] && open
    {
      start, delivered, backlog, next, open := s.start, [], s.backlog, s.next, true;
      new;
      assert history[start - base..|history|] == history[start - base..];
    }

    method SendBacklog(f: Fleet)
      requires f.Valid() && Ok(f.history, f.base) && open && backlog != []
      modifies this
      ensures Ok(f.history, f.base) && open && |delivered| == old(|delivered|) + 1 && old(delivered) <= delivered
    {
      delivered, backlog := delivered + [backlog[0]], backlog[1..];
    }

    /** The live half: the broadcast holds the last `retained` events; a receiver whose next
        one was overwritten gets `event_gap` and is closed. */
    method ReceiveLive(f: Fleet)
      requires f.Valid() && Ok(f.history, f.base) && open && backlog == [] && next <= f.latest
      modifies this
      ensures Ok(f.history, f.base) && old(delivered) <= delivered
      ensures open <==> Holds(f.log, old(next))
      ensures open ==> |delivered| == old(|delivered|) + 1
      ensures !open ==> delivered == old(delivered)
    {
      hide Fold, Genuine;
      NextOfTheLog(f.history, f.base, f.retained, next);
      hide Tail, Numbered, Holds;
      var oldest := f.log[0].eventId;
      if next < oldest {
        open := false;
        return;
      }
      OneLonger(f.history, start - f.base, next - 1 - f.base);
      delivered, next := delivered + [f.log[next - oldest]], next + 1;
    }
  }

  /** Whatever the fleet publishes in between leaves the stream intact. */
  lemma PublishingKeepsTheStream(c: Connection, history: seq<EventData>, later: seq<EventData>, base: nat)
    requires c.Ok(history, base) && history <= later
    ensures c.Ok(later, base)
  {
    assert later[c.start - base..c.next - 1 - base] == history[c.start - base..c.next - 1 - base];
  }

  /** A client receives the ids start+1, start+2, ... and the events themselves. */
  lemma DeliveredIsContiguous(c: Connection, history: seq<EventData>, base: nat, k: nat)
    requires c.Ok(history, base) && Numbered(history, base) && k < |c.delivered|
    ensures c.start - base + k < |history|
    ensures c.delivered[k].eventId == c.start + 1 + k && c.delivered[k] == history[c.start - base + k]
  {
    assert (c.delivered + c.backlog)[k] == c.delivered[k];
  }
}
