/** The link runtime itself: its lists of hosts and targets, updated in place by the live reconfiguration. */
module LinkRuntime {
  import opened Points
  import opened HostGroups
  import opened Reconcile
  import opened ReconcileGoal
  import opened LinkRuns

  class LinkRuntime {
    var ledger: seq<Instance>
    var hosts: seq<ActiveHost>
    var targets: seq<string>
    var phase: Phase
    var monitorJoinable: bool

    function State(): Link
      reads this
    {
      Link(ledger, hosts, targets, phase, monitorJoinable)
    }

    /** Every listed host runs its own instance, and no other instance runs. */
    predicate Valid()
      reads this
    {
      Owned(ledger, hosts)
    }

    constructor ()
      ensures Valid() && State() == Link([], [], [], Stopped, false)
    {
      ledger, hosts, targets, phase, monitorJoinable := [], [], [], Stopped, false;
    }

    method HaltHosts(list: seq<ActiveHost>)
      modifies this`ledger
      ensures ledger == HaltAll(old(ledger), list)
    {
      for j := 0 to |list|
        invariant ledger == HaltAll(old(ledger), list[..j])
      {
        assert list[..j + 1][..j] == list[..j];
        ledger := Halt(ledger, list[j].handle);
      }
      assert list[..|list|] == list;
    }

    method RemoveUnwanted(h: nat, answers: Answers, k: nat, current: seq<string>, keep: seq<string>)
      returns (ok: bool)
      modifies this`ledger
      ensures var r := Removed(answers, k, ServedBy(old(ledger), h), current, keep);
        ledger == WithServed(old(ledger), h, r.0) && ok == r.1
    {
      ghost var start := ledger;
      var served := ServedBy(ledger, h);
      assert WithServed(start, h, served) == start;
      for j := 0 to |current|
        invariant (served, true) == Removed(answers, k, ServedBy(start, h), current[..j], keep)
        invariant ledger == WithServed(start, h, served)
      {
        var id := current[j];
        RemovedOneMore(answers, k, ServedBy(start, h), current, keep, j);
        if id !in keep {
          if !answers.removes(k, id) {
            RemovedStops(answers, k, ServedBy(start, h), current, keep, j + 1);
            return false;
          }
          served := served - {id};
          ledger := WithServed(ledger, h, served);
        }
      }
      assert current[..|current|] == current;
      ok := true;
    }

    method AddMissing(h: nat, answers: Answers, k: nat, desired: seq<string>, had: seq<string>)
      returns (ok: bool)
      modifies this`ledger
      ensures var r := Extended(answers, k, ServedBy(old(ledger), h), desired, had);
        ledger == WithServed(old(ledger), h, r.0) && ok == r.1
    {
      ghost var start := ledger;
      var served := ServedBy(ledger, h);
      assert WithServed(start, h, served) == start;
      for j := 0 to |desired|
        invariant (served, true) == Extended(answers, k, ServedBy(start, h), desired[..j], had)
        invariant ledger == WithServed(start, h, served)
      {
        var id := desired[j];
        ExtendedOneMore(answers, k, ServedBy(start, h), desired, had, j);
        if id !in had {
          if !answers.adds(k, id) {
            ExtendedStops(answers, k, ServedBy(start, h), desired, had, j + 1);
            return false;
          }
          served := served + {id};
          ledger := WithServed(ledger, h, served);
        }
      }
      assert desired[..|desired|] == desired;
      ok := true;
    }

    method Retarget(h: nat, answers: Answers, k: nat, current: seq<string>, desired: seq<string>) returns (ok: bool)
      requires h < |ledger|
      modifies this`ledger
      ensures var r := Retargeted(answers, k, ServedBy(old(ledger), h), current, desired);
        ledger == WithServed(old(ledger), h, r.0) && ok == r.1
    {
      assert WithServed(ledger, h, ServedBy(ledger, h)) == ledger;
      ok := answers.dynamic(k);
      if ok {
        ok := RemoveUnwanted(h, answers, k, current, desired);
      }
      if ok {
        ok := AddMissing(h, answers, k, desired, current);
      }
    }

    method Launch(group: Group) returns (a: ActiveHost)
      modifies this`ledger
      ensures ledger == old(ledger) + [Instance(group.key, Ids(group.targets), true)]
      ensures a == ActiveHost(group.key, |old(ledger)|, group.targets)
    {
      a := ActiveHost(group.key, |ledger|, group.targets);
      ledger := ledger + [Instance(group.key, Ids(group.targets), true)];
    }

    /** One old host that a group asks for: keep it, retarget it, or restart it. */
    method UpdateHost(next: seq<ActiveHost>, k: nat, a: ActiveHost, group: Group, answers: Answers)
      returns (next': seq<ActiveHost>, failed: bool)
      requires a.handle < |ledger|
      modifies this`ledger
      ensures |old(ledger)| <= |ledger|
      ensures forall handled ::
        (Progress(ledger, next', handled, failed)
         == Matched(Progress(old(ledger), next, handled, false), k, a, group, answers))
    {
      next', failed := next, false;
      if Ids(a.targets) == Ids(group.targets) {
        next' := next + [a];
        return;
      }
      var ok := Retarget(a.handle, answers, k, a.targets, group.targets);
      if ok {
        next' := next + [a.(targets := group.targets)];
        return;
      }
      ledger := Halt(ledger, a.handle);
      if answers.restarts(k) {
        var started := Launch(group);
        next' := next + [started];
      } else {
        failed := true;
      }
    }

    method UpdateOldHosts(groups: seq<Group>, answers: Answers)
      returns (next: seq<ActiveHost>, handled: set<nat>, failed: bool)
      requires forall j :: 0 <= j < |hosts| ==> hosts[j].handle < |ledger|
      modifies this`ledger
      ensures Progress(ledger, next, handled, failed)
           == OldHosts(old(ledger), hosts, |hosts|, groups, answers)
    {
      next, handled, failed := [], {}, false;
      var k := 0;
      while k < |hosts| && !failed
        invariant k <= |hosts| && |old(ledger)| <= |ledger|
        invariant Progress(ledger, next, handled, failed) == OldHosts(old(ledger), hosts, k, groups, answers)
        decreases |hosts| - k
      {
        var g := FindGroupIndex(groups, hosts[k].key);
        if g == |groups| {
          ledger := Halt(ledger, hosts[k].handle);
        } else {
          handled := handled + {g};
          next, failed := UpdateHost(next, k, hosts[k], groups[g], answers);
        }
        k := k + 1;
      }
      OldHostsStop(old(ledger), hosts, k, groups, answers);
    }

    method StartNewHosts(next: seq<ActiveHost>, handled: set<nat>, groups: seq<Group>, answers: Answers)
      returns (next': seq<ActiveHost>, failed: bool)
      modifies this`ledger
      ensures Progress(ledger, next', handled, failed)
           == NewHosts(Progress(old(ledger), next, handled, false), |groups|, groups, answers)
    {
      next', failed := next, false;
      ghost var p := Progress(ledger, next, handled, false);
      var g := 0;
      while g < |groups| && !failed
        invariant g <= |groups|
        invariant Progress(ledger, next', handled, failed) == NewHosts(p, g, groups, answers)
        decreases |groups| - g
      {
        if g !in handled {
          if answers.starts(g) {
            var started := Launch(groups[g]);
            next' := next' + [started];
          } else {
            failed := true;
          }
        }
        g := g + 1;
      }
      NewHostsStop(p, g, groups, answers);
    }

    method Fail(next: seq<ActiveHost>)
      modifies this`ledger, this`hosts, this`targets, this`phase
      ensures State() == Finished(old(State()), Progress(old(ledger), next, {}, true), [])
    {
      HaltHosts(next);
      HaltHosts(hosts);
      hosts, targets, phase := [], [], Failed;
    }

    method RunPasses(groups: seq<Group>, answers: Answers)
      returns (next: seq<ActiveHost>, handled: set<nat>, failed: bool)
      requires forall j :: 0 <= j < |hosts| ==> hosts[j].handle < |ledger|
      modifies this`ledger
      ensures Progress(ledger, next, handled, failed)
           == NewHosts(OldHosts(old(ledger), hosts, |hosts|, groups, answers), |groups|, groups, answers)
    {
      next, handled, failed := UpdateOldHosts(groups, answers);
      if failed {
        NewHostsStop(Progress(ledger, next, handled, failed), 0, groups, answers);
      } else {
        next, failed := StartNewHosts(next, handled, groups, answers);
      }
    }

    method ApplyGroups(groups: seq<Group>, desired: seq<string>, answers: Answers) returns (ok: bool)
      requires Valid() && DistinctKeys(groups)
      modifies this
      ensures Valid() && State() == Reconciled(old(State()), groups, desired, answers)
      ensures ok <==> phase == Running
    {
      ReconciledOwns(State(), groups, desired, answers);
      AllFitHandles(ledger, hosts);
      var next, handled, failed := RunPasses(groups, answers);
      if failed {
        Fail(next);
        return false;
      }
      hosts, targets, phase := next, desired, Running;
      ok := true;
    }

    method StopLink()
      requires Valid()
      modifies this
      ensures Valid() && State() == Halted(old(State()))
    {
      HaltingStopsAll(ledger, hosts);
      var running := hosts;
      monitorJoinable := false;
      hosts, targets, phase := [], [], Stopped;
      HaltHosts(running);
    }

    /** A start request on a link that is not running; `ids` are the selected controllers that could be connected. */
    method StartLink(setup: Setup, ids: seq<string>, cancel: Cancel, answers: Answers) returns (ok: bool)
      requires Consistent(State()) && (phase == Stopped || phase == Failed) && Distinct(ids)
      modifies this
      ensures ok <==> phase == Running
      ensures Consistent(State()) && State() == Started(old(State()), setup, ids, cancel, answers)
    {
      StartedIsConsistent(State(), setup, ids, cancel, answers);
      ok := false;
      if setup.hostId != "" && FallbackHost(setup).None? {
        phase := Failed;
        return;
      }
      if cancel == BeforeHosts {
        phase := Stopped;
        return;
      }
      if ids == [] {
        phase := Failed;
        return;
      }
      AllConnected(ids, Ids(ids));
      var groups, desired := GroupTargets(setup, ids, Ids(ids));
      if groups.None? {
        phase := Failed;
        return;
      }
      ok := StartGroups(groups.value, desired, cancel, answers);
    }

    method StartGroups(groups: seq<Group>, desired: seq<string>, cancel: Cancel, answers: Answers) returns (ok: bool)
      modifies this
      ensures State() == Completed(old(State()), NewHosts(Beside(old(State())), |groups|, groups, answers),
                                   desired, cancel)
      ensures ok <==> phase == Running
    {
      var next, failed := StartNewHosts([], {}, groups, answers);
      if failed {
        HaltHosts(next);
        phase := if cancel == AmongHosts then Stopped else Failed;
        return false;
      }
      HaltHosts(hosts);
      hosts, targets := next, desired;
      phase := if monitorJoinable then Terminated else Running;
      monitorJoinable := true;
      ok := phase == Running;
    }

    /** A start request on a running link. */
    method Update(setup: Setup, selected: seq<string>, connected: set<string>, answers: Answers) returns (ok: bool)
      requires Valid() && phase == Running && Distinct(selected)
      modifies this
      ensures Valid() && State() == Updated(old(State()), setup, selected, connected, answers)
      ensures ok <==> phase != Failed
    {
      if selected == [] {
        StopLink();
        return true;
      }
      if setup.hostId != "" && FallbackHost(setup).None? {
        phase := Failed;
        return false;
      }
      var groups, desired := GroupTargets(setup, selected, connected);
      if groups.None? {
        phase := Failed;
        return false;
      }
      if desired == [] {
        StopLink();
        return true;
      }
      ConnectedDistinct(selected, connected);
      GroupingPartitions(setup, desired);
      ok := ApplyGroups(groups.value, desired, answers);
    }
  }

  lemma {:induction false} AllConnected(ids: seq<string>, connected: set<string>)
    requires forall t :: t in ids ==> t in connected
    ensures Connected(ids, connected) == ids
  {
    if ids != [] {
      AllConnected(ids[..|ids| - 1], connected);
    }
  }

  lemma AllFitHandles(ledger: seq<Instance>, hosts: seq<ActiveHost>)
    requires AllFit(ledger, hosts)
    ensures forall j :: 0 <= j < |hosts| ==> hosts[j].handle < |ledger|
  {
    forall j | 0 <= j < |hosts| ensures hosts[j].handle < |ledger| {
      assert Fits(ledger, hosts[j]);
    }
  }

  lemma ReconciledOwns(link: Link, groups: seq<Group>, desired: seq<string>, answers: Answers)
    requires DistinctKeys(groups) && Owned(link.ledger, link.hosts)
    ensures var after := Reconciled(link, groups, desired, answers); Owned(after.ledger, after.hosts)
  {
    ReconciliationReachesGoal(link, groups, desired, answers);
  }

  // ---- One step more of each pass, and passes that stopped early

  lemma RemovedOneMore(answers: Answers, k: nat, served: set<string>, current: seq<string>, keep: seq<string>, j: nat)
    requires j < |current|
    ensures var before := Removed(answers, k, served, current[..j], keep);
      Removed(answers, k, served, current[..j + 1], keep)
      == if !before.1 || current[j] in keep then before
         else if !answers.removes(k, current[j]) then (before.0, false)
         else (before.0 - {current[j]}, true)
  {
    assert current[..j + 1][..j] == current[..j];
  }

  lemma {:induction false} RemovedStops(answers: Answers, k: nat, served: set<string>, current: seq<string>,
                                        keep: seq<string>, j: nat)
    requires j <= |current| && !Removed(answers, k, served, current[..j], keep).1
    ensures Removed(answers, k, served, current, keep) == Removed(answers, k, served, current[..j], keep)
    decreases |current| - j
  {
    if j == |current| {
      assert current[..j] == current;
    } else {
      RemovedOneMore(answers, k, served, current, keep, j);
      RemovedStops(answers, k, served, current, keep, j + 1);
    }
  }

  lemma ExtendedOneMore(answers: Answers, k: nat, served: set<string>, desired: seq<string>, had: seq<string>, j: nat)
    requires j < |desired|
    ensures var before := Extended(answers, k, served, desired[..j], had);
      Extended(answers, k, served, desired[..j + 1], had)
      == if !before.1 || desired[j] in had then before
         else if !answers.adds(k, desired[j]) then (before.0, false)
         else (before.0 + {desired[j]}, true)
  {
    assert desired[..j + 1][..j] == desired[..j];
  }

  lemma {:induction false} ExtendedStops(answers: Answers, k: nat, served: set<string>, desired: seq<string>,
                                         had: seq<string>, j: nat)
    requires j <= |desired| && !Extended(answers, k, served, desired[..j], had).1
    ensures Extended(answers, k, served, desired, had) == Extended(answers, k, served, desired[..j], had)
    decreases |desired| - j
  {
    if j == |desired| {
      assert desired[..j] == desired;
    } else {
      ExtendedOneMore(answers, k, served, desired, had, j);
      ExtendedStops(answers, k, served, desired, had, j + 1);
    }
  }

  lemma {:induction false} OldHostsStop(ledger: seq<Instance>, hosts: seq<ActiveHost>, k: nat, groups: seq<Group>,
                                        answers: Answers)
    requires k <= |hosts|
    ensures k == |hosts| || OldHosts(ledger, hosts, k, groups, answers).failed ==>
      OldHosts(ledger, hosts, |hosts|, groups, answers) == OldHosts(ledger, hosts, k, groups, answers)
    decreases |hosts| - k
  {
    if k < |hosts| {
      OldHostsStop(ledger, hosts, k + 1, groups, answers);
    }
  }

  lemma {:induction false} NewHostsStop(p: Progress, g: nat, groups: seq<Group>, answers: Answers)
    requires g <= |groups|
    ensures g == |groups| || NewHosts(p, g, groups, answers).failed ==>
      NewHosts(p, |groups|, groups, answers) == NewHosts(p, g, groups, answers)
    decreases |groups| - g
  {
    if g < |groups| {
      NewHostsStop(p, g + 1, groups, answers);
    }
  }
}
