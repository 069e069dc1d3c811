/**
  `plan_boot` (crates/agend-daemon/src/boot.rs): what the daemon does at boot with every
  instance of the database and every holder that runs, and that the supervisor's life
  cycle starts from it.
*/
module BootPlan {
  import opened Common
  import opened Supervisor

  datatype Instance = Instance(id: string, row: Row)

  datatype BootAction = Reconnect(id: string) | Start(id: string, resume: bool) | Orphan(id: string)

  function ForInstances(instances: seq<Instance>, running: seq<string>): seq<BootAction>
  {
    if instances == [] then []
    else
      var i := instances[0];
      (if i.row.status.Failed? then []
       else if i.id in running then [Reconnect(i.id)]
       else [Start(i.id, i.row.status.Running?)])
      + ForInstances(instances[1..], running)
  }

  predicate Known(instances: seq<Instance>, id: string) { exists k :: 0 <= k < |instances| && instances[k].id == id }

  function Orphans(instances: seq<Instance>, running: seq<string>): seq<BootAction>
  {
    if running == [] then []
    else (if Known(instances, running[0]) then [] else [Orphan(running[0])]) + Orphans(instances, running[1..])
  }

  function PlanBoot(instances: seq<Instance>, running: seq<string>): seq<BootAction>
  {
    ForInstances(instances, running) + Orphans(instances, running)
  }

  /** Ids are primary keys, and a holder lock is listed once. */
  ghost predicate Keyed(instances: seq<Instance>, running: seq<string>)
  {
    && (forall i, j :: 0 <= i < j < |instances| ==> instances[i].id != instances[j].id)
    && (forall i, j :: 0 <= i < j < |running| ==> running[i] != running[j])
  }

  /** The action the boot table gives an instance; a failed one waits for a human. */
  predicate Calls(i: Instance, running: seq<string>, a: BootAction)
  {
    !i.row.status.Failed? && a == if i.id in running then Reconnect(i.id) else Start(i.id, i.row.status.Running?)
  }

  lemma {:induction false} InstancesIff(instances: seq<Instance>, running: seq<string>, a: BootAction)
    ensures a in ForInstances(instances, running)
            <==> exists k :: 0 <= k < |instances| && Calls(instances[k], running, a)
  {
    if instances != [] {
      var rest := instances[1..];
      InstancesIff(rest, running, a);
      if k :| 0 <= k < |rest| && Calls(rest[k], running, a) {
        assert Calls(instances[k + 1], running, a);
      }
      if k :| 0 < k < |instances| && Calls(instances[k], running, a) {
        assert Calls(rest[k - 1], running, a);
      }
    }
  }

  lemma {:induction false} OrphansIff(instances: seq<Instance>, running: seq<string>, a: BootAction)
    ensures a in Orphans(instances, running) <==> a.Orphan? && a.id in running && !Known(instances, a.id)
  {
    if running != [] {
      OrphansIff(instances, running[1..], a);
    }
  }

  /** The plan is the boot table, for every instance and every holder. */
  lemma PlanIsTheTable(instances: seq<Instance>, running: seq<string>, a: BootAction)
    ensures a in PlanBoot(instances, running)
            <==> if a.Orphan? then a.id in running && !Known(instances, a.id)
                 else exists k :: 0 <= k < |instances| && Calls(instances[k], running, a)
  {
    InstancesIff(instances, running, a);
    OrphansIff(instances, running, a);
  }

  ghost predicate OnePerId(actions: seq<BootAction>)
  {
    forall i, j :: 0 <= i < j < |actions| ==> actions[i].id != actions[j].id
  }

  lemma {:induction false} OnePerInstance(instances: seq<Instance>, running: seq<string>)
    requires Keyed(instances, running)
    ensures OnePerId(ForInstances(instances, running))
  {
    if instances != [] {
      OnePerInstance(instances[1..], running);
      var rest := ForInstances(instances[1..], running);
      forall j | 0 <= j < |rest| ensures rest[j].id != instances[0].id {
        InstancesIff(instances[1..], running, rest[j]);
        assert rest[j] in rest;
      }
    }
  }

  lemma {:induction false} OnePerOrphan(instances: seq<Instance>, running: seq<string>)
    requires Keyed(instances, running)
    ensures OnePerId(Orphans(instances, running))
  {
    if running != [] {
      OnePerOrphan(instances, running[1..]);
      var rest := Orphans(instances, running[1..]);
      forall j | 0 <= j < |rest| ensures rest[j].id != running[0] {
        OrphansIff(instances, running[1..], rest[j]);
        assert rest[j] in rest;
      }
    }
  }

  /** No id gets two actions: never both a start and a stop, and no holder two starts. */
  lemma OneActionPerId(instances: seq<Instance>, running: seq<string>)
    requires Keyed(instances, running)
    ensures OnePerId(PlanBoot(instances, running))
  {
    OnePerInstance(instances, running);
    OnePerOrphan(instances, running);
    var a, b := ForInstances(instances, running), Orphans(instances, running);
    forall i, j | 0 <= i < |a| && 0 <= j < |b| ensures a[i].id != b[j].id {
      assert a[i] in a && b[j] in b;
      InstancesIff(instances, running, a[i]);
      OrphansIff(instances, running, b[j]);
    }
  }

  /** The supervisor's boot step of one instance follows the plan: it reconnects, starts
      (unless a backend switch holds it) or, for a failed row, only lists the item. */
  lemma BootFollowsThePlan(instances: seq<Instance>, running: seq<string>, k: nat, s: Sup, held: bool)
    requires Keyed(instances, running) && k < |instances|
    requires !s.up && s.pc.Idle? && s.item.None? && s.row == Some(instances[k].row)
    ensures var id := instances[k].id;
            var plan := PlanBoot(instances, running);
            var t := Apply(s, Boot(id in running, held));
            && (t.pc.Reconnecting? <==> Reconnect(id) in plan)
            && (t.pc.Starting? <==> !held && exists resume :: Start(id, resume) in plan)
            && (t.pc.Starting? ==> Start(id, t.pc.resume) in plan)
            && (t.pc.Reconnecting? ==> (t.pc.resume <==> instances[k].row.status == Running))
            && (t.item.Some? ==> t.item == Some(Item(CanRetry(instances[k].row))))
            && (t.item.Some? <==> forall a <- plan :: a.id != id)
  {
    var i, plan := instances[k], PlanBoot(instances, running);
    forall a ensures a in plan && a.id == i.id <==> Calls(i, running, a) {
      PlanIsTheTable(instances, running, a);
    }
    assert forall resume :: Start(i.id, resume) in plan <==> Calls(i, running, Start(i.id, resume));
    assert Reconnect(i.id) in plan <==> Calls(i, running, Reconnect(i.id));
    var due := if i.id in running then Reconnect(i.id) else Start(i.id, i.row.status.Running?);
    assert Calls(i, running, due) <==> !i.row.status.Failed?;
  }
}
