/** Whole runs of the link: starts, live updates, scans and stops in any order. */
module LinkRuns {
  import opened Points
  import opened HostGroups
  import opened Reconcile
  import opened ReconcileGoal

  datatype Request =
    | Start(setup: Setup, ids: seq<string>, cancel: Cancel, answers: Answers)
    | Update(setup: Setup, selected: seq<string>, connected: set<string>, answers: Answers)
    | Scan(discoveryFailed: bool)
    | Stop

  const IDLE := Link([], [], [], Stopped, false)

  /**
   * A start request updates a running link and starts any other; a running link is not scanned; a terminated
   * process takes no requests. The ids of a start and of a selection are distinct.
   */
  predicate Enabled(link: Link, request: Request) {
    link.phase != Terminated &&
    match request
    case Start(_, ids, _, _) => link.phase != Running && Distinct(ids)
    case Update(_, selected, _, _) => link.phase == Running && Distinct(selected)
    case Scan(_) => link.phase != Running
    case Stop => true
  }

  function Served(link: Link, request: Request): Link {
    match request
    case Start(setup, ids, cancel, answers) => Started(link, setup, ids, cancel, answers)
    case Update(setup, selected, connected, answers) => Updated(link, setup, selected, connected, answers)
    case Scan(discoveryFailed) => link.(phase := if discoveryFailed then Failed else Stopped)
    case Stop => Halted(link)
  }

  ghost predicate Follows(link: Link, after: Link) {
    exists request :: Enabled(link, request) && after == Served(link, request)
  }

  ghost predicate IsLinkRun(links: seq<Link>) {
    && links != [] && links[0] == IDLE
    && forall k :: 0 <= k < |links| - 1 ==> FollowsAt(links, k)
  }

  ghost predicate FollowsAt(links: seq<Link>, k: nat)
    requires k + 1 < |links|
  {
    Follows(links[k], links[k + 1])
  }

  predicate Serves(ledger: seq<Instance>, h: nat, t: string) {
    h < |ledger| && ledger[h].running && t in ledger[h].served
  }

  /** Every linked target is served by exactly one running host, and nothing else is served. */
  ghost predicate ServesExactly(ledger: seq<Instance>, targets: seq<string>) {
    && (forall h, t :: Serves(ledger, h, t) ==> t in targets)
    && (forall t :: t in targets ==> exists h :: Serves(ledger, h, t))
    && (forall h, i, t :: Serves(ledger, h, t) && Serves(ledger, i, t) ==> h == i)
  }

  ghost predicate Consistent(link: Link) {
    Owned(link.ledger, link.hosts) && ServesExactly(link.ledger, link.targets)
  }

  lemma NothingServed(ledger: seq<Instance>)
    requires NothingRuns(ledger)
    ensures Owned(ledger, []) && ServesExactly(ledger, [])
  {}

  // ---- Each target served once

  /** What the passes reach: the listed hosts own what runs and answer the groups one to one. */
  ghost predicate GroupsAnswered(ledger: seq<Instance>, hosts: seq<ActiveHost>, groups: seq<Group>) {
    && Owned(ledger, hosts)
    && (forall g :: 0 <= g < |groups| ==> HasAnswer(hosts, groups[g]))
    && (forall a :: a in hosts ==> exists g :: 0 <= g < |groups| && Answers1(a, groups[g]))
  }

  /** The group that the instance serving a target belongs to. */
  lemma ServingGroup(ledger: seq<Instance>, hosts: seq<ActiveHost>, groups: seq<Group>, h: nat, t: string)
    returns (g: nat, j: nat)
    requires GroupsAnswered(ledger, hosts, groups) && Serves(ledger, h, t)
    ensures g < |groups| && t in groups[g].targets
    ensures j < |hosts| && hosts[j].handle == h && hosts[j].key == groups[g].key
  {
    assert Lists(hosts, h);
    j :| 0 <= j < |hosts| && hosts[j].handle == h;
    OwnerHasKey(ledger, hosts, j);
    g :| 0 <= g < |groups| && Answers1(hosts[j], groups[g]);
    assert t in Ids(groups[g].targets);
  }

  lemma GroupIsServed(ledger: seq<Instance>, hosts: seq<ActiveHost>, group: Group, t: string) returns (h: nat)
    requires AllFit(ledger, hosts) && HasAnswer(hosts, group) && t in group.targets
    ensures Serves(ledger, h, t) && exists j :: 0 <= j < |hosts| && hosts[j].handle == h
  {
    var a :| a in hosts && Answers1(a, group);
    var j :| 0 <= j < |hosts| && hosts[j] == a;
    OwnerHasKey(ledger, hosts, j);
    h := a.handle;
    assert t in Ids(group.targets) && Ids(group.targets) == Ids(a.targets);
  }

  /** When the groups are answered, each of their targets is served by exactly one running host. */
  lemma EachTargetServedOnce(ledger: seq<Instance>, hosts: seq<ActiveHost>, setup: Setup, ids: seq<string>,
                             groups: seq<Group>)
    requires GroupsOf(setup, ids, groups) && GroupsAnswered(ledger, hosts, groups)
    ensures ServesExactly(ledger, ids)
  {
    forall h, t | Serves(ledger, h, t) ensures t in ids {
      ServedIsLinked(ledger, hosts, setup, ids, groups, h, t);
    }
    forall t | t in ids ensures exists h :: Serves(ledger, h, t) {
      var h := LinkedIsServed(ledger, hosts, setup, ids, groups, t);
    }
    forall h, i, t | Serves(ledger, h, t) && Serves(ledger, i, t) ensures h == i {
      ServedByOne(ledger, hosts, setup, ids, groups, h, i, t);
    }
  }

  lemma ServedIsLinked(ledger: seq<Instance>, hosts: seq<ActiveHost>, setup: Setup, ids: seq<string>,
                       groups: seq<Group>, h: nat, t: string)
    requires GroupsOf(setup, ids, groups) && GroupsAnswered(ledger, hosts, groups) && Serves(ledger, h, t)
    ensures t in ids
  {
    var g, j := ServingGroup(ledger, hosts, groups, h, t);
  }

  lemma LinkedIsServed(ledger: seq<Instance>, hosts: seq<ActiveHost>, setup: Setup, ids: seq<string>,
                       groups: seq<Group>, t: string) returns (h: nat)
    requires GroupsOf(setup, ids, groups) && GroupsAnswered(ledger, hosts, groups) && t in ids
    ensures Serves(ledger, h, t)
  {
    var g :| 0 <= g < |groups| && t in groups[g].targets;
    h := GroupIsServed(ledger, hosts, groups[g], t);
  }

  lemma ServedByOne(ledger: seq<Instance>, hosts: seq<ActiveHost>, setup: Setup, ids: seq<string>,
                    groups: seq<Group>, h: nat, i: nat, t: string)
    requires GroupsOf(setup, ids, groups) && GroupsAnswered(ledger, hosts, groups)
    requires Serves(ledger, h, t) && Serves(ledger, i, t)
    ensures h == i
  {
    var g1, j1 := ServingGroup(ledger, hosts, groups, h, t);
    var g2, j2 := ServingGroup(ledger, hosts, groups, i, t);
    OneGroupEach(setup, ids, groups, g1, g2, t);
    SameKeySameHost(hosts, j1, j2);
  }

  lemma SameKeySameHost(hosts: seq<ActiveHost>, i: nat, j: nat)
    requires AllDiffer(hosts) && i < |hosts| && j < |hosts| && hosts[i].key == hosts[j].key
    ensures i == j
  {}

  // ---- A start beside what is left over

  lemma HaltAllAppends(ledger: seq<Instance>, x: Instance, hosts: seq<ActiveHost>)
    requires forall a :: a in hosts ==> a.handle < |ledger|
    ensures HaltAll(ledger + [x], hosts) == HaltAll(ledger, hosts) + [x]
  {}

  predicate HandlesBelow(hosts: seq<ActiveHost>, n: nat) {
    forall a :: a in hosts ==> a.handle < n
  }

  lemma FitsBelow(ledger: seq<Instance>, hosts: seq<ActiveHost>)
    requires AllFit(ledger, hosts)
    ensures HandlesBelow(hosts, |ledger|)
  {
    forall a | a in hosts ensures a.handle < |ledger| {
      var j :| 0 <= j < |hosts| && hosts[j] == a;
      assert Fits(ledger, hosts[j]);
    }
  }

  lemma StartStepHalted(p: Progress, hosts: seq<ActiveHost>, g: nat, group: Group, answers: Answers)
    requires HandlesBelow(hosts, |p.ledger|)
    ensures StartStep(p.(ledger := HaltAll(p.ledger, hosts)), g, group, answers)
         == (var q := StartStep(p, g, group, answers); q.(ledger := HaltAll(q.ledger, hosts)))
    ensures |StartStep(p, g, group, answers).ledger| >= |p.ledger|
  {
    HaltAllAppends(p.ledger, Instance(group.key, Ids(group.targets), true), hosts);
  }

  /** Stopping the old hosts after the new ones have started comes to the same as stopping them before. */
  lemma {:induction false} HaltingCommutes(p: Progress, hosts: seq<ActiveHost>, g: nat, groups: seq<Group>,
                                           answers: Answers)
    requires g <= |groups| && HandlesBelow(hosts, |p.ledger|)
    ensures NewHosts(p.(ledger := HaltAll(p.ledger, hosts)), g, groups, answers)
         == (var q := NewHosts(p, g, groups, answers); q.(ledger := HaltAll(q.ledger, hosts)))
    ensures HandlesBelow(hosts, |NewHosts(p, g, groups, answers).ledger|)
  {
    if g > 0 {
      HaltingCommutes(p, hosts, g - 1, groups, answers);
      HaltingOneMore(p, NewHosts(p, g - 1, groups, answers), hosts, g - 1, groups, answers);
    }
  }

  lemma HaltingOneMore(p: Progress, before: Progress, hosts: seq<ActiveHost>, g: nat, groups: seq<Group>,
                       answers: Answers)
    requires g < |groups| && before == NewHosts(p, g, groups, answers) && HandlesBelow(hosts, |before.ledger|)
    requires NewHosts(p.(ledger := HaltAll(p.ledger, hosts)), g, groups, answers)
          == before.(ledger := HaltAll(before.ledger, hosts))
    ensures var q := NewHosts(p, g + 1, groups, answers);
      && NewHosts(p.(ledger := HaltAll(p.ledger, hosts)), g + 1, groups, answers)
         == q.(ledger := HaltAll(q.ledger, hosts))
      && HandlesBelow(hosts, |q.ledger|)
  {
    StartStepHalted(before, hosts, g, groups[g], answers);
  }

  /** The entries added to a ledger of `n` entries are those of the list. */
  predicate AddedAreListed(p: Progress, n: nat) {
    && |p.ledger| == n + |p.next|
    && forall j :: 0 <= j < |p.next| ==> p.next[j].handle == n + j && Fits(p.ledger, p.next[j])
  }

  lemma {:induction false} NewHostsAreListed(link: Link, g: nat, groups: seq<Group>, answers: Answers)
    requires g <= |groups|
    ensures var p := NewHosts(Beside(link), g, groups, answers);
      AddedAreListed(p, |link.ledger|) && p.ledger[..|link.ledger|] == link.ledger
  {
    if g > 0 {
      NewHostsAreListed(link, g - 1, groups, answers);
      AddedOneMore(NewHosts(Beside(link), g - 1, groups, answers), |link.ledger|, g - 1, groups[g - 1], answers);
    }
  }

  lemma AddedOneMore(p: Progress, n: nat, g: nat, group: Group, answers: Answers)
    requires AddedAreListed(p, n)
    ensures var q := StartStep(p, g, group, answers);
      AddedAreListed(q, n) && q.ledger[..n] == p.ledger[..n]
  {
    var q := StartStep(p, g, group, answers);
    forall j | 0 <= j < |q.next| ensures q.next[j].handle == n + j && Fits(q.ledger, q.next[j]) {
      if j < |p.next| {
        assert Fits(p.ledger, p.next[j]);
      }
    }
  }

  /** A failed or cancelled start takes its own hosts down and nothing else. */
  lemma FailedStartUndone(link: Link, p: Progress)
    requires Consistent(link) && AddedAreListed(p, |link.ledger|) && p.ledger[..|link.ledger|] == link.ledger
    ensures Consistent(link.(ledger := HaltAll(p.ledger, p.next)))
  {
    var n, after := |link.ledger|, HaltAll(p.ledger, p.next);
    assert |after| == |p.ledger|;
    forall h | 0 <= h < |after| ensures if h < n then after[h] == link.ledger[h] else !after[h].running {
      OnlyAddedHalt(p, n, h);
      assert h < n ==> p.ledger[h] == p.ledger[..n][h];
    }
    SameRunning(link, after);
  }

  lemma OnlyAddedHalt(p: Progress, n: nat, h: nat)
    requires AddedAreListed(p, n) && h < |p.ledger|
    ensures (exists a :: a in p.next && a.handle == h) <==> h >= n
  {
    if h >= n {
      assert p.next[h - n] in p.next;
    }
  }

  lemma SameRunning(link: Link, after: seq<Instance>)
    requires Consistent(link) && |after| >= |link.ledger|
    requires forall h :: 0 <= h < |after| ==>
      if h < |link.ledger| then after[h] == link.ledger[h] else !after[h].running
    ensures Consistent(link.(ledger := after))
  {
    forall j | 0 <= j < |link.hosts| ensures Fits(after, link.hosts[j]) {
      assert Fits(link.ledger, link.hosts[j]);
    }
    assert forall h, t :: Serves(after, h, t) <==> Serves(link.ledger, h, t);
  }

  /** A start that succeeds leaves the new hosts only, each target served once. */
  lemma StartReachesGoal(link: Link, setup: Setup, ids: seq<string>, groups: seq<Group>, answers: Answers)
    requires Consistent(link) && GroupsOf(setup, ids, groups)
    requires !NewHosts(Beside(link), |groups|, groups, answers).failed
    ensures var p := NewHosts(Beside(link), |groups|, groups, answers);
      var ledger := HaltAll(p.ledger, link.hosts);
      GroupsAnswered(ledger, p.next, groups) && ServesExactly(ledger, ids)
  {
    var before := Beside(link).(ledger := HaltAll(link.ledger, link.hosts));
    HaltingStopsAll(link.ledger, link.hosts);
    FitsBelow(link.ledger, link.hosts);
    HaltingCommutes(Beside(link), link.hosts, |groups|, groups, answers);
    SecondPassOwns(before, groups, answers);
    var p := NewHosts(Beside(link), |groups|, groups, answers);
    GoalFromAnswers(p, groups);
    EachTargetServedOnce(HaltAll(p.ledger, link.hosts), p.next, setup, ids, groups);
  }

  /**
   * In between, both generations run: a target linked before and started again is served by two hosts at once,
   * until the old lists are replaced.
   */
  lemma BothGenerationsRun(link: Link, g: nat, groups: seq<Group>, answers: Answers, x: nat, t: string)
    returns (older: nat, newer: nat)
    requires Consistent(link) && x < g <= |groups| && t in link.targets && t in groups[x].targets
    requires !NewHosts(Beside(link), g, groups, answers).failed
    ensures var ledger := NewHosts(Beside(link), g, groups, answers).ledger;
      older != newer && Serves(ledger, older, t) && Serves(ledger, newer, t)
  {
    var p := NewHosts(Beside(link), g, groups, answers);
    NewHostsAreListed(link, g, groups, answers);
    EarlierHostsAnswer(Beside(link), g, groups, answers, x);
    older :| Serves(link.ledger, older, t);
    assert p.ledger[older] == p.ledger[..|link.ledger|][older];
    newer := GroupIsServed(p.ledger, p.next, groups[x], t);
  }

  lemma {:induction false} EarlierHostsAnswer(p: Progress, g: nat, groups: seq<Group>, answers: Answers, x: nat)
    requires x < g <= |groups| && p.handled == {} && !NewHosts(p, g, groups, answers).failed
    ensures HasAnswer(NewHosts(p, g, groups, answers).next, groups[x])
  {
    var before := NewHosts(p, g - 1, groups, answers);
    StartStepAppends(before, g - 1, groups[g - 1], answers);
    HandledStays(p, g - 1, groups, answers);
    if x < g - 1 {
      EarlierHostsAnswer(p, g - 1, groups, answers, x);
    }
  }

  lemma StartStepAppends(p: Progress, g: nat, group: Group, answers: Answers)
    ensures var q := StartStep(p, g, group, answers);
      && (forall a :: a in p.next ==> a in q.next)
      && (!q.failed ==> !p.failed && (g !in p.handled ==> HasAnswer(q.next, group)))
  {
    var q := StartStep(p, g, group, answers);
    if !q.failed && g !in p.handled {
      assert q.next[|p.next|] in q.next && Answers1(q.next[|p.next|], group);
    }
  }

  lemma {:induction false} HandledStays(p: Progress, g: nat, groups: seq<Group>, answers: Answers)
    requires g <= |groups|
    ensures NewHosts(p, g, groups, answers).handled == p.handled
  {
    if g > 0 {
      HandledStays(p, g - 1, groups, answers);
    }
  }

  // ---- What every request keeps

  lemma HaltedIsConsistent(link: Link)
    requires Consistent(link)
    ensures Consistent(Halted(link)) && AllStopped(Halted(link), Stopped)
  {
    HaltingStopsAll(link.ledger, link.hosts);
    NothingServed(Halted(link).ledger);
  }

  lemma ReconciledIsConsistent(link: Link, setup: Setup, ids: seq<string>, answers: Answers)
    requires Consistent(link) && Distinct(ids) && Grouped(setup, ids).Some?
    ensures Consistent(Reconciled(link, Grouped(setup, ids).value, ids, answers))
  {
    GroupingPartitions(setup, ids);
    var groups := Grouped(setup, ids).value;
    ReconciliationReachesGoal(link, groups, ids, answers);
    var after := Reconciled(link, groups, ids, answers);
    if after.phase == Failed {
      NothingServed(after.ledger);
    } else {
      EachTargetServedOnce(after.ledger, after.hosts, setup, ids, groups);
    }
  }

  lemma UpdatedIsConsistent(link: Link, setup: Setup, selected: seq<string>, connected: set<string>, answers: Answers)
    requires Consistent(link) && Distinct(selected)
    ensures Consistent(Updated(link, setup, selected, connected, answers))
  {
    HaltedIsConsistent(link);
    ConnectedDistinct(selected, connected);
    if Grouped(setup, Connected(selected, connected)).Some? {
      ReconciledIsConsistent(link, setup, Connected(selected, connected), answers);
    }
  }

  lemma CompletedIsConsistent(link: Link, setup: Setup, ids: seq<string>, groups: seq<Group>, cancel: Cancel,
                              answers: Answers)
    requires Consistent(link) && GroupsOf(setup, ids, groups)
    ensures Consistent(Completed(link, NewHosts(Beside(link), |groups|, groups, answers), ids, cancel))
  {
    var p := NewHosts(Beside(link), |groups|, groups, answers);
    if p.failed {
      NewHostsAreListed(link, |groups|, groups, answers);
      FailedStartUndone(link, p);
    } else {
      StartReachesGoal(link, setup, ids, groups, answers);
    }
  }

  lemma StartedIsConsistent(link: Link, setup: Setup, ids: seq<string>, cancel: Cancel, answers: Answers)
    requires Consistent(link) && Distinct(ids)
    ensures Consistent(Started(link, setup, ids, cancel, answers))
  {
    GroupingPartitions(setup, ids);
    if Grouped(setup, ids).Some? {
      CompletedIsConsistent(link, setup, ids, Grouped(setup, ids).value, cancel, answers);
    }
  }

  lemma ServedIsConsistent(link: Link, request: Request)
    requires Consistent(link) && Enabled(link, request)
    ensures Consistent(Served(link, request))
  {
    match request
    case Start(setup, ids, cancel, answers) => StartedIsConsistent(link, setup, ids, cancel, answers);
    case Update(setup, selected, connected, answers) =>
      UpdatedIsConsistent(link, setup, selected, connected, answers);
    case Scan(_) =>
    case Stop => HaltedIsConsistent(link);
  }

  /** A link that lists hosts or runs has its monitor thread; a terminated one has had two. */
  predicate Monitored(link: Link) {
    link.hosts != [] || link.phase == Running || link.phase == Terminated ==> link.monitor
  }

  lemma ServedIsMonitored(link: Link, request: Request)
    requires Monitored(link) && Enabled(link, request)
    ensures Monitored(Served(link, request))
  {}

  /**
   * Along every run of starts, updates, scans and stops, whatever the hosts answer: no instance runs without being
   * listed, and every linked target is served by exactly one running instance. A link that lists hosts has a
   * monitor thread that only a stop joins.
   */
  lemma {:induction false} NoHostIsOrphaned(links: seq<Link>)
    requires IsLinkRun(links)
    ensures Consistent(links[|links| - 1]) && Monitored(links[|links| - 1])
  {
    if |links| == 1 {
      NothingServed([]);
    } else {
      var n := |links| - 1;
      var front := links[..n];
      forall k | 0 <= k < n - 1 ensures FollowsAt(front, k) {
        assert FollowsAt(links, k);
      }
      NoHostIsOrphaned(front);
      assert FollowsAt(links, n - 1);
      var request :| Enabled(links[n - 1], request) && links[n] == Served(links[n - 1], request);
      ServedIsConsistent(links[n - 1], request);
      ServedIsMonitored(links[n - 1], request);
    }
  }

  // ---- Starting again after a failed update

  /** Every group of the start comes up. */
  predicate AllComeUp(setup: Setup, ids: seq<string>, cancel: Cancel, answers: Answers) {
    && !(setup.hostId != "" && FallbackHost(setup).None?) && cancel != BeforeHosts && ids != []
    && Grouped(setup, ids).Some? && forall g :: 0 <= g < |Grouped(setup, ids).value| ==> answers.starts(g)
  }

  /**
   * What a start does on any reachable link that is not running. It gets as far as replacing the lists exactly when
   * all its hosts come up; then it terminates the process exactly when the monitor thread of an earlier start was
   * never joined, as is always so when hosts were left over.
   */
  lemma StartOutcome(links: seq<Link>, setup: Setup, ids: seq<string>, cancel: Cancel, answers: Answers)
    requires IsLinkRun(links) && Distinct(ids)
    requires links[|links| - 1].phase == Stopped || links[|links| - 1].phase == Failed
    ensures var link := links[|links| - 1]; var after := Started(link, setup, ids, cancel, answers);
      if AllComeUp(setup, ids, cancel, answers) then
        && after.targets == ids && after.monitor
        && after.phase == (if link.monitor then Terminated else Running)
        && (link.hosts != [] ==> after.phase == Terminated)
      else
        && after.hosts == link.hosts && after.targets == link.targets && after.monitor == link.monitor
        && after.phase == (if cancel == Never then Failed
                           else if setup.hostId != "" && FallbackHost(setup).None? then Failed
                           else if cancel == BeforeHosts then Stopped
                           else if ids == [] || Grouped(setup, ids).None? then Failed
                           else Stopped)
  {
    NoHostIsOrphaned(links);
    if Grouped(setup, ids).Some? {
      var groups := Grouped(setup, ids).value;
      NewHostsFail(Beside(links[|links| - 1]), |groups|, groups, answers);
    }
  }

  /**
   * The sequence that shows it: a start, an update that names an unknown host, and a second start. The update leaves
   * the first host running with the state Failed; the second start runs both generations, and then terminates.
   */
  lemma FailedUpdateThenStart(setup: Setup, id: string, answers: Answers) returns (links: seq<Link>)
    requires KeyOf(setup, id).Some? && setup.hostId == "" && answers.starts(0)
    ensures |links| == 4 && IsLinkRun(links) && links[1].phase == Running
    ensures links[2].phase == Failed && links[2].hosts == links[1].hosts && links[2].hosts != []
    ensures links[3].phase == Terminated
  {
    var unknown := Setup("?", [], map[], map[], None);
    var first := Request.Start(setup, [id], Never, answers);
    var second := Request.Update(unknown, [id], {id}, answers);
    var started := Served(IDLE, first);
    OneHostStarted(IDLE, setup, id, answers);
    var failed := Served(started, second);
    assert failed == started.(phase := Failed);
    OneHostStarted(failed, setup, id, answers);
    links := [IDLE, started, failed, Served(failed, first)];
    assert Enabled(IDLE, first) && Enabled(started, second) && Enabled(failed, first);
    assert FollowsAt(links, 0) && FollowsAt(links, 1) && FollowsAt(links, 2);
  }

  lemma SingleGroup(setup: Setup, id: string)
    requires KeyOf(setup, id).Some?
    ensures Grouped(setup, [id]) == Some([Group(KeyOf(setup, id).value, [id])])
  {
    var key := KeyOf(setup, id).value;
    assert [id][..0] == [] && Grouped(setup, []) == Some([]);
    assert Place([], key, id) == [Group(key, [id])];
  }

  lemma OneNewHost(link: Link, group: Group, answers: Answers)
    requires answers.starts(0)
    ensures NewHosts(Beside(link), 1, [group], answers) == Launched(Beside(link), group)
  {
    assert NewHosts(Beside(link), 0, [group], answers) == Beside(link);
  }

  lemma OneHostStarted(link: Link, setup: Setup, id: string, answers: Answers)
    requires KeyOf(setup, id).Some? && setup.hostId == "" && answers.starts(0)
    ensures var after := Started(link, setup, [id], Never, answers);
      && |after.hosts| == 1 && after.monitor
      && after.phase == if link.monitor then Terminated else Running
  {
    SingleGroup(setup, id);
    OneNewHost(link, Group(KeyOf(setup, id).value, [id]), answers);
  }

  /**
   * The entry of the update: with an unknown fallback host or an unknown routed host nothing but the state changes,
   * so the hosts keep running; with nothing left to link everything stops.
   */
  lemma UpdateWithoutGroups(link: Link, setup: Setup, selected: seq<string>, connected: set<string>, answers: Answers)
    requires Consistent(link) && Distinct(selected)
    ensures var after := Updated(link, setup, selected, connected, answers);
      var desired := Connected(selected, connected);
      var unknown := (setup.hostId != "" && FallbackHost(setup).None?)
                     || exists t :: t in desired && KeyOf(setup, t).None?;
      && (selected != [] && unknown ==> after == link.(phase := Failed))
      && (selected == [] || (!unknown && desired == []) ==> AllStopped(after, Stopped))
  {
    ConnectedDistinct(selected, connected);
    GroupingPartitions(setup, Connected(selected, connected));
    HaltedIsConsistent(link);
  }
}
