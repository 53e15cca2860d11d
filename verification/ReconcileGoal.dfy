/** What a live update of the link achieves, and what holds along any sequence of updates and stops. */
module ReconcileGoal {
  import opened Points
  import opened HostGroups
  import opened Reconcile

  // ---- When an update fails

  /** The host refuses to have its targets changed while it runs. */
  ghost predicate RetargetRefused(answers: Answers, k: nat, current: seq<string>, desired: seq<string>) {
    || !answers.dynamic(k)
    || (exists t :: t in current && t !in desired && !answers.removes(k, t))
    || (exists t :: t in desired && t !in current && !answers.adds(k, t))
  }

  predicate Unchanged(a: ActiveHost, groups: seq<Group>) {
    exists g :: 0 <= g < |groups| && Answers1(a, groups[g])
  }

  predicate Unmatched(hosts: seq<ActiveHost>, k: nat, key: Key)
    requires k <= |hosts|
  {
    forall j :: 0 <= j < k ==> hosts[j].key != key
  }

  /** Old host `k` has to be restarted for its group, and does not come up again. */
  ghost predicate RestartFails(answers: Answers, k: nat, a: ActiveHost, groups: seq<Group>) {
    exists g :: 0 <= g < |groups| && groups[g].key == a.key && Ids(a.targets) != Ids(groups[g].targets)
                && RetargetRefused(answers, k, a.targets, groups[g].targets) && !answers.restarts(k)
  }

  ghost predicate SomeRestartFails(answers: Answers, hosts: seq<ActiveHost>, k: nat, groups: seq<Group>)
    requires k <= |hosts|
  {
    exists j :: 0 <= j < k && RestartFails(answers, j, hosts[j], groups)
  }

  predicate StartFails(answers: Answers, hosts: seq<ActiveHost>, g: nat, groups: seq<Group>)
    requires g < |groups|
  {
    Unmatched(hosts, |hosts|, groups[g].key) && !answers.starts(g)
  }

  ghost predicate SomeStartFails(answers: Answers, hosts: seq<ActiveHost>, groups: seq<Group>) {
    exists g :: 0 <= g < |groups| && StartFails(answers, hosts, g, groups)
  }

  lemma {:induction false} RemovedSucceeds(answers: Answers, k: nat, served: set<string>, current: seq<string>,
                                           keep: seq<string>)
    ensures Removed(answers, k, served, current, keep).1
       <==> forall t :: t in current && t !in keep ==> answers.removes(k, t)
  {
    if current != [] {
      assert current == current[..|current| - 1] + [current[|current| - 1]];
      RemovedSucceeds(answers, k, served, current[..|current| - 1], keep);
    }
  }

  lemma {:induction false} ExtendedSucceeds(answers: Answers, k: nat, served: set<string>, desired: seq<string>,
                                            had: seq<string>)
    ensures Extended(answers, k, served, desired, had).1
       <==> forall t :: t in desired && t !in had ==> answers.adds(k, t)
  {
    if desired != [] {
      assert desired == desired[..|desired| - 1] + [desired[|desired| - 1]];
      ExtendedSucceeds(answers, k, served, desired[..|desired| - 1], had);
    }
  }

  /** A running host is retargeted exactly when it supports that and refuses none of the calls needed. */
  lemma RetargetSucceeds(answers: Answers, k: nat, served: set<string>, current: seq<string>, desired: seq<string>)
    ensures Retargeted(answers, k, served, current, desired).1 <==> !RetargetRefused(answers, k, current, desired)
  {
    if answers.dynamic(k) {
      RemovedSucceeds(answers, k, served, current, desired);
      var left := Removed(answers, k, served, current, desired).0;
      ExtendedSucceeds(answers, k, left, desired, current);
    }
  }

  lemma HostStepFails(p: Progress, k: nat, a: ActiveHost, groups: seq<Group>, answers: Answers)
    requires DistinctKeys(groups) && !p.failed
    ensures HostStep(p, k, a, groups, answers).failed <==> RestartFails(answers, k, a, groups)
  {
    var g := FindGroup(groups, a.key, 0);
    if g < |groups| {
      RetargetSucceeds(answers, k, ServedBy(p.ledger, a.handle), a.targets, groups[g].targets);
    }
  }

  lemma {:induction false} OldHostsFail(ledger: seq<Instance>, hosts: seq<ActiveHost>, k: nat, groups: seq<Group>,
                                        answers: Answers)
    requires k <= |hosts| && DistinctKeys(groups)
    ensures OldHosts(ledger, hosts, k, groups, answers).failed <==> SomeRestartFails(answers, hosts, k, groups)
  {
    if k > 0 {
      OldHostsFail(ledger, hosts, k - 1, groups, answers);
      FailsStep(ledger, OldHosts(ledger, hosts, k - 1, groups, answers), hosts, k - 1, groups, answers);
    }
  }

  lemma FailsStep(ledger: seq<Instance>, before: Progress, hosts: seq<ActiveHost>, k: nat, groups: seq<Group>,
                  answers: Answers)
    requires k < |hosts| && DistinctKeys(groups) && before == OldHosts(ledger, hosts, k, groups, answers)
    requires before.failed <==> SomeRestartFails(answers, hosts, k, groups)
    ensures OldHosts(ledger, hosts, k + 1, groups, answers).failed <==> SomeRestartFails(answers, hosts, k + 1, groups)
  {
    OneMoreFails(before, hosts, k, groups, answers);
  }

  lemma OneMoreFails(p: Progress, hosts: seq<ActiveHost>, k: nat, groups: seq<Group>, answers: Answers)
    requires k < |hosts| && DistinctKeys(groups) && (p.failed <==> SomeRestartFails(answers, hosts, k, groups))
    ensures HostStep(p, k, hosts[k], groups, answers).failed <==> SomeRestartFails(answers, hosts, k + 1, groups)
  {
    if p.failed {
      var j :| 0 <= j < k && RestartFails(answers, j, hosts[j], groups);
    } else {
      HostStepFails(p, k, hosts[k], groups, answers);
    }
  }

  lemma {:induction false} NewHostsFail(p: Progress, g: nat, groups: seq<Group>, answers: Answers)
    requires g <= |groups| && !p.failed
    ensures NewHosts(p, g, groups, answers).failed
       <==> exists x :: 0 <= x < g && x !in p.handled && !answers.starts(x)
    ensures NewHosts(p, g, groups, answers).handled == p.handled
  {
    if g > 0 {
      NewHostsFail(p, g - 1, groups, answers);
    }
  }

  lemma {:induction false} FailedStaysFailed(p: Progress, g: nat, groups: seq<Group>, answers: Answers)
    requires g <= |groups| && p.failed
    ensures NewHosts(p, g, groups, answers) == p
  {
    if g > 0 {
      FailedStaysFailed(p, g - 1, groups, answers);
    }
  }

  // ---- What a pass leaves alone

  /** Instances are only added; one that has stopped never runs again and keeps its key. */
  predicate Grows(before: seq<Instance>, after: seq<Instance>) {
    && |before| <= |after|
    && forall h :: 0 <= h < |before| ==>
         after[h].key == before[h].key && (after[h].running ==> before[h].running)
  }

  /** Nothing but instance `h` may differ. */
  predicate SameBut(before: seq<Instance>, after: seq<Instance>, h: nat) {
    && |before| <= |after|
    && forall j :: 0 <= j < |before| && j != h ==> after[j] == before[j]
  }

  lemma HostStepTouches(p: Progress, k: nat, a: ActiveHost, groups: seq<Group>, answers: Answers)
    ensures var q := HostStep(p, k, a, groups, answers);
      && Grows(p.ledger, q.ledger) && SameBut(p.ledger, q.ledger, a.handle)
      && |p.next| <= |q.next| && q.next[..|p.next|] == p.next
  {}

  lemma KeptHostStep(p: Progress, k: nat, a: ActiveHost, groups: seq<Group>, answers: Answers)
    requires DistinctKeys(groups) && Unchanged(a, groups) && !p.failed
    ensures var q := HostStep(p, k, a, groups, answers);
      !q.failed && q.ledger == p.ledger && a in q.next
  {}

  /** Host `j` is as it was: always before its turn, and for good when nothing changed for it. */
  predicate AsItWas(p: Progress, ledger: seq<Instance>, hosts: seq<ActiveHost>, j: nat, k: nat, groups: seq<Group>)
    requires j < |hosts|
  {
    j >= k || Unchanged(hosts[j], groups) ==>
      hosts[j].handle < |ledger| <= |p.ledger| && p.ledger[hosts[j].handle] == ledger[hosts[j].handle]
      && (j < k ==> hosts[j] in p.next)
  }

  lemma AsItWasOneMore(p: Progress, ledger: seq<Instance>, hosts: seq<ActiveHost>, j: nat, k: nat, groups: seq<Group>,
                       answers: Answers)
    requires k < |hosts| && j < |hosts| && DistinctKeys(groups) && AllDiffer(hosts)
    requires !p.failed && AsItWas(p, ledger, hosts, j, k, groups)
    ensures AsItWas(HostStep(p, k, hosts[k], groups, answers), ledger, hosts, j, k + 1, groups)
  {
    var q := HostStep(p, k, hosts[k], groups, answers);
    HostStepTouches(p, k, hosts[k], groups, answers);
    if j == k {
      if Unchanged(hosts[k], groups) {
        KeptHostStep(p, k, hosts[k], groups, answers);
      }
    } else if j < k && Unchanged(hosts[j], groups) {
      assert hosts[j] in q.next[..|p.next|];
    }
  }

  lemma {:induction false} OldHostsAsTheyWere(ledger: seq<Instance>, hosts: seq<ActiveHost>, j: nat, k: nat,
                                              groups: seq<Group>, answers: Answers)
    requires j < |hosts| && k <= |hosts| && DistinctKeys(groups) && Owned(ledger, hosts)
    ensures var p := OldHosts(ledger, hosts, k, groups, answers);
      !p.failed ==> AsItWas(p, ledger, hosts, j, k, groups)
  {
    if k == 0 {
      NothingTouchedYet(ledger, hosts, j, groups);
    } else {
      OldHostsAsTheyWere(ledger, hosts, j, k - 1, groups, answers);
      AsItWasStep(OldHosts(ledger, hosts, k - 1, groups, answers), ledger, hosts, j, k - 1, groups, answers);
    }
  }

  lemma NothingTouchedYet(ledger: seq<Instance>, hosts: seq<ActiveHost>, j: nat, groups: seq<Group>)
    requires j < |hosts| && AllFit(ledger, hosts)
    ensures AsItWas(Progress(ledger, [], {}, false), ledger, hosts, j, 0, groups)
  {
    assert Fits(ledger, hosts[j]);
  }

  lemma AsItWasStep(p: Progress, ledger: seq<Instance>, hosts: seq<ActiveHost>, j: nat, k: nat, groups: seq<Group>,
                    answers: Answers)
    requires k < |hosts| && j < |hosts| && DistinctKeys(groups) && AllDiffer(hosts)
    requires p == OldHosts(ledger, hosts, k, groups, answers) && (!p.failed ==> AsItWas(p, ledger, hosts, j, k, groups))
    ensures var q := OldHosts(ledger, hosts, k + 1, groups, answers);
      !q.failed ==> AsItWas(q, ledger, hosts, j, k + 1, groups)
  {
    if !p.failed {
      AsItWasOneMore(p, ledger, hosts, j, k, groups, answers);
    }
  }

  lemma {:induction false} OldHostsGrow(ledger: seq<Instance>, hosts: seq<ActiveHost>, k: nat, groups: seq<Group>,
                                        answers: Answers)
    requires k <= |hosts|
    ensures Grows(ledger, OldHosts(ledger, hosts, k, groups, answers).ledger)
  {
    if k > 0 {
      OldHostsGrow(ledger, hosts, k - 1, groups, answers);
      HostStepTouches(OldHosts(ledger, hosts, k - 1, groups, answers), k - 1, hosts[k - 1], groups, answers);
    }
  }

  /** The second pass only appends, to the ledger and to the list. */
  lemma {:induction false} NewHostsAppend(p: Progress, g: nat, groups: seq<Group>, answers: Answers)
    requires g <= |groups|
    ensures var q := NewHosts(p, g, groups, answers);
      && |p.ledger| <= |q.ledger| && q.ledger[..|p.ledger|] == p.ledger
      && |p.next| <= |q.next| && q.next[..|p.next|] == p.next
  {
    if g > 0 {
      NewHostsAppend(p, g - 1, groups, answers);
    }
  }

  // ---- Outcomes

  predicate NothingRuns(ledger: seq<Instance>) {
    forall h :: 0 <= h < |ledger| ==> !ledger[h].running
  }

  lemma HaltingListedStopsAll(ledger: seq<Instance>, next: seq<ActiveHost>, hosts: seq<ActiveHost>, j: nat)
    requires j <= |hosts| && AllListed(ledger, next + hosts[j..])
    ensures NothingRuns(HaltAll(HaltAll(ledger, next), hosts))
  {
    forall h | 0 <= h < |ledger| && ledger[h].running
      ensures (exists a :: a in next && a.handle == h) || (exists a :: a in hosts && a.handle == h)
    {
      ListedInOne(next, hosts, j, h);
    }
  }

  lemma ListedInOne(next: seq<ActiveHost>, hosts: seq<ActiveHost>, j: nat, h: nat)
    requires j <= |hosts| && Lists(next + hosts[j..], h)
    ensures (exists a :: a in next && a.handle == h) || (exists a :: a in hosts && a.handle == h)
  {
    var i :| 0 <= i < |next + hosts[j..]| && (next + hosts[j..])[i].handle == h;
    if i < |next| {
      assert next[i] in next;
    } else {
      assert hosts[j + (i - |next|)] in hosts;
    }
  }

  lemma HaltingStopsAll(ledger: seq<Instance>, hosts: seq<ActiveHost>)
    requires Owned(ledger, hosts)
    ensures NothingRuns(HaltAll(ledger, hosts)) && Grows(ledger, HaltAll(ledger, hosts))
  {
    assert HaltAll(ledger, []) == ledger && [] + hosts[0..] == hosts;
    HaltingListedStopsAll(ledger, [], hosts, 0);
  }

  /** The passes, together: a failure leaves only listed hosts running, success leaves all groups answered. */
  lemma PassesOutcome(link: Link, groups: seq<Group>, answers: Answers)
    requires DistinctKeys(groups) && Owned(link.ledger, link.hosts)
    ensures var p := OldHosts(link.ledger, link.hosts, |link.hosts|, groups, answers);
      var q := NewHosts(p, |groups|, groups, answers);
      && (q.failed <==> SomeRestartFails(answers, link.hosts, |link.hosts|, groups)
                        || SomeStartFails(answers, link.hosts, groups))
      && (q.failed ==> Listed(q, groups, link.hosts))
      && (!q.failed ==> !p.failed && Owned(q.ledger, q.next) && Answered(q.next, groups, Below(|groups|)))
  {
    var hosts := link.hosts;
    var p := OldHosts(link.ledger, hosts, |hosts|, groups, answers);
    OldHostsKeepInv(link.ledger, hosts, |hosts|, groups, answers);
    OldHostsFail(link.ledger, hosts, |hosts|, groups, answers);
    if p.failed {
      FailedStaysFailed(p, |groups|, groups, answers);
    } else {
      assert p.next + hosts[|hosts|..] == p.next;
      SecondPassOutcome(link.ledger, hosts, p, groups, answers);
      var q := NewHosts(p, |groups|, groups, answers);
      assert q.next + hosts[|hosts|..] == q.next;
    }
  }

  lemma SecondPassFails(ledger: seq<Instance>, hosts: seq<ActiveHost>, p: Progress, groups: seq<Group>,
                        answers: Answers)
    requires DistinctKeys(groups) && !p.failed && p == OldHosts(ledger, hosts, |hosts|, groups, answers)
    ensures NewHosts(p, |groups|, groups, answers).failed <==> SomeStartFails(answers, hosts, groups)
  {
    NewHostsFail(p, |groups|, groups, answers);
    HandledAreMatched(ledger, hosts, |hosts|, groups, answers);
    forall g: nat | g < |groups|
      ensures g !in p.handled && !answers.starts(g) <==> StartFails(answers, hosts, g, groups)
    {
      assert g in p.handled <==> MatchedBefore(hosts, |hosts|, groups[g].key);
    }
    if x: nat :| x < |groups| && x !in p.handled && !answers.starts(x) {
      assert StartFails(answers, hosts, x, groups);
    }
  }

  lemma SecondPassOwns(p: Progress, groups: seq<Group>, answers: Answers)
    requires DistinctKeys(groups) && !p.failed && Owned(p.ledger, p.next) && Answered(p.next, groups, p.handled)
    ensures var q := NewHosts(p, |groups|, groups, answers);
      Owned(q.ledger, q.next) && (!q.failed ==> Answered(q.next, groups, Below(|groups|)))
  {
    assert p.handled + Below(0) == p.handled;
    NewHostsKeepInv(p, |groups|, groups, answers);
    assert p.handled + Below(|groups|) == Below(|groups|);
  }

  lemma SecondPassOutcome(ledger: seq<Instance>, hosts: seq<ActiveHost>, p: Progress, groups: seq<Group>,
                          answers: Answers)
    requires DistinctKeys(groups) && !p.failed && p == OldHosts(ledger, hosts, |hosts|, groups, answers)
    requires Owned(p.ledger, p.next) && Answered(p.next, groups, p.handled)
    ensures var q := NewHosts(p, |groups|, groups, answers);
      && (q.failed <==> SomeStartFails(answers, hosts, groups))
      && Owned(q.ledger, q.next)
      && (!q.failed ==> Answered(q.next, groups, Below(|groups|)))
  {
    SecondPassFails(ledger, hosts, p, groups, answers);
    SecondPassOwns(p, groups, answers);
  }

  // ---- Main results

  /** Exactly the desired groups are served, each by one running host with its key and its targets. */
  predicate GoalReached(link: Link, groups: seq<Group>, desired: seq<string>) {
    && link.phase == Running && link.targets == desired
    && Owned(link.ledger, link.hosts)
    && (forall g :: 0 <= g < |groups| ==> HasAnswer(link.hosts, groups[g]))
    && (forall a :: a in link.hosts ==> exists g :: 0 <= g < |groups| && Answers1(a, groups[g]))
  }

  predicate AllStopped(link: Link, phase: Phase) {
    link.phase == phase && link.hosts == [] && link.targets == [] && NothingRuns(link.ledger)
  }

  /**
   * Reconciliation reaches its goal unless a host that has to be started or restarted does not come up; then, and
   * only then, everything is stopped.
   */
  lemma ReconciliationReachesGoal(link: Link, groups: seq<Group>, desired: seq<string>, answers: Answers)
    requires DistinctKeys(groups) && Owned(link.ledger, link.hosts)
    ensures var after := Reconciled(link, groups, desired, answers);
      if SomeRestartFails(answers, link.hosts, |link.hosts|, groups) || SomeStartFails(answers, link.hosts, groups)
      then AllStopped(after, Failed)
      else GoalReached(after, groups, desired)
  {
    PassesOutcome(link, groups, answers);
    var p := OldHosts(link.ledger, link.hosts, |link.hosts|, groups, answers);
    var q := NewHosts(p, |groups|, groups, answers);
    if q.failed {
      var j :| 0 <= j <= |link.hosts| && Owned(q.ledger, q.next + link.hosts[j..]);
      HaltingListedStopsAll(q.ledger, q.next, link.hosts, j);
    } else {
      GoalFromAnswers(q, groups);
    }
  }

  lemma GoalFromAnswers(q: Progress, groups: seq<Group>)
    requires Answered(q.next, groups, Below(|groups|))
    ensures forall g :: 0 <= g < |groups| ==> HasAnswer(q.next, groups[g])
    ensures forall a :: a in q.next ==> exists g :: 0 <= g < |groups| && Answers1(a, groups[g])
  {
    forall g | 0 <= g < |groups| ensures HasAnswer(q.next, groups[g]) {
      assert g in Below(|groups|);
    }
    forall a | a in q.next ensures exists g :: 0 <= g < |groups| && Answers1(a, groups[g]) {
      assert AnswersOne(a, groups, Below(|groups|));
    }
  }

  /**
   * Whatever the outcome of a successful update: a host whose key and targets did not change keeps its entry and its
   * instance untouched, and a host that no group asks for does not run any more.
   */
  lemma UnchangedHostsAreLeftAlone(link: Link, groups: seq<Group>, desired: seq<string>, answers: Answers, j: nat)
    requires DistinctKeys(groups) && Owned(link.ledger, link.hosts) && j < |link.hosts|
    requires Reconciled(link, groups, desired, answers).phase == Running
    ensures var after, a := Reconciled(link, groups, desired, answers), link.hosts[j];
      && a.handle < |link.ledger| <= |after.ledger|
      && (Unchanged(a, groups) ==> a in after.hosts && after.ledger[a.handle] == link.ledger[a.handle])
      && ((forall g :: 0 <= g < |groups| ==> groups[g].key != a.key) ==> !after.ledger[a.handle].running)
  {
    var a := link.hosts[j];
    assert Fits(link.ledger, a);
    ReconciliationReachesGoal(link, groups, desired, answers);
    var p := OldHosts(link.ledger, link.hosts, |link.hosts|, groups, answers);
    if p.failed {
      FailedStaysFailed(p, |groups|, groups, answers);
    }
    UnchangedThroughPasses(link.ledger, link.hosts, groups, answers, j);
    if forall g :: 0 <= g < |groups| ==> groups[g].key != a.key {
      UnaskedStopped(Reconciled(link, groups, desired, answers), groups, desired, a.handle, a.key);
    }
  }

  lemma UnchangedThroughPasses(ledger: seq<Instance>, hosts: seq<ActiveHost>, groups: seq<Group>, answers: Answers,
                               j: nat)
    requires DistinctKeys(groups) && Owned(ledger, hosts) && j < |hosts|
    requires !OldHosts(ledger, hosts, |hosts|, groups, answers).failed
    ensures var q := NewHosts(OldHosts(ledger, hosts, |hosts|, groups, answers), |groups|, groups, answers);
      var a := hosts[j];
      && a.handle < |ledger| <= |q.ledger| && q.ledger[a.handle].key == ledger[a.handle].key
      && (Unchanged(a, groups) ==> a in q.next && q.ledger[a.handle] == ledger[a.handle])
  {
    var a := hosts[j];
    assert Fits(ledger, a);
    var p := OldHosts(ledger, hosts, |hosts|, groups, answers);
    var q := NewHosts(p, |groups|, groups, answers);
    OldHostsAsTheyWere(ledger, hosts, j, |hosts|, groups, answers);
    OldHostsGrow(ledger, hosts, |hosts|, groups, answers);
    NewHostsAppend(p, |groups|, groups, answers);
    assert q.ledger[a.handle] == q.ledger[..|p.ledger|][a.handle] == p.ledger[a.handle];
    if Unchanged(a, groups) {
      InPrefix(q.next, |p.next|, a);
    }
  }

  lemma InPrefix(hosts: seq<ActiveHost>, n: nat, a: ActiveHost)
    requires n <= |hosts| && a in hosts[..n]
    ensures a in hosts
  {}

  lemma UnaskedStopped(link: Link, groups: seq<Group>, desired: seq<string>, h: nat, key: Key)
    requires GoalReached(link, groups, desired) && h < |link.ledger| && link.ledger[h].key == key
    requires forall g :: 0 <= g < |groups| ==> groups[g].key != key
    ensures !link.ledger[h].running
  {
    if link.ledger[h].running {
      assert Lists(link.hosts, h);
      var i :| 0 <= i < |link.hosts| && link.hosts[i].handle == h;
      OwnerHasKey(link.ledger, link.hosts, i);
    }
  }

  lemma OwnerHasKey(ledger: seq<Instance>, hosts: seq<ActiveHost>, i: nat)
    requires AllFit(ledger, hosts) && i < |hosts|
    ensures hosts[i] in hosts && Fits(ledger, hosts[i])
  {}

  // ---- Which hosts go on running

  /** Old host `j` is wanted by group `g` for other targets than it serves. */
  predicate WantedDifferently(a: ActiveHost, groups: seq<Group>, g: nat) {
    g < |groups| && groups[g].key == a.key && Ids(a.targets) != Ids(groups[g].targets)
  }

  /** A host that lets itself be retargeted keeps its running instance; one that refuses has it stopped. */
  ghost predicate FateMet(ledger: seq<Instance>, next: seq<ActiveHost>, a: ActiveHost, j: nat, group: Group,
                          answers: Answers)
  {
    a.handle < |ledger| &&
    if RetargetRefused(answers, j, a.targets, group.targets) then !ledger[a.handle].running
    else a.(targets := group.targets) in next && Fits(ledger, a.(targets := group.targets))
  }

  lemma StepMeetsFate(p: Progress, j: nat, a: ActiveHost, groups: seq<Group>, g: nat, answers: Answers)
    requires DistinctKeys(groups) && WantedDifferently(a, groups, g) && !p.failed && Fits(p.ledger, a)
    ensures var q := HostStep(p, j, a, groups, answers); FateMet(q.ledger, q.next, a, j, groups[g], answers)
  {
    assert FindGroup(groups, a.key, 0) == g;
    RetargetSucceeds(answers, j, ServedBy(p.ledger, a.handle), a.targets, groups[g].targets);
    var q := HostStep(p, j, a, groups, answers);
    if !RetargetRefused(answers, j, a.targets, groups[g].targets) {
      assert q.next[|p.next|] == a.(targets := groups[g].targets);
    }
  }

  lemma FateStays(p: Progress, q: Progress, a: ActiveHost, j: nat, group: Group, answers: Answers)
    requires FateMet(p.ledger, p.next, a, j, group, answers)
    requires |p.ledger| <= |q.ledger| && q.ledger[a.handle] == p.ledger[a.handle]
    requires |p.next| <= |q.next| && q.next[..|p.next|] == p.next
    ensures FateMet(q.ledger, q.next, a, j, group, answers)
  {
    if !RetargetRefused(answers, j, a.targets, group.targets) {
      assert a.(targets := group.targets) in q.next[..|p.next|];
      InPrefix(q.next, |p.next|, a.(targets := group.targets));
    }
  }

  lemma StepKeepsFate(p: Progress, k: nat, b: ActiveHost, groups: seq<Group>, a: ActiveHost, j: nat, group: Group,
                      answers: Answers)
    requires FateMet(p.ledger, p.next, a, j, group, answers) && a.handle != b.handle
    ensures var q := HostStep(p, k, b, groups, answers); FateMet(q.ledger, q.next, a, j, group, answers)
  {
    HostStepTouches(p, k, b, groups, answers);
    FateStays(p, HostStep(p, k, b, groups, answers), a, j, group, answers);
  }

  lemma {:induction false} OldHostsMeetFate(ledger: seq<Instance>, hosts: seq<ActiveHost>, j: nat, k: nat,
                                            groups: seq<Group>, g: nat, answers: Answers)
    requires j < k <= |hosts| && DistinctKeys(groups) && Owned(ledger, hosts) && WantedDifferently(hosts[j], groups, g)
    requires !OldHosts(ledger, hosts, k, groups, answers).failed
    ensures var p := OldHosts(ledger, hosts, k, groups, answers);
      FateMet(p.ledger, p.next, hosts[j], j, groups[g], answers)
  {
    var p := OldHosts(ledger, hosts, k - 1, groups, answers);
    if j == k - 1 {
      OldHostsAsTheyWere(ledger, hosts, j, k - 1, groups, answers);
      assert Fits(ledger, hosts[j]);
      StepMeetsFate(p, j, hosts[j], groups, g, answers);
    } else {
      OldHostsMeetFate(ledger, hosts, j, k - 1, groups, g, answers);
      assert hosts[j].handle != hosts[k - 1].handle;
      StepKeepsFate(p, k - 1, hosts[k - 1], groups, hosts[j], j, groups[g], answers);
    }
  }

  /**
   * After a successful update, a host whose targets had to change goes on with the same instance exactly when it let
   * itself be changed while running; otherwise that instance is stopped, and another serves the group.
   */
  lemma RetargetedHostsGoOn(link: Link, groups: seq<Group>, desired: seq<string>, answers: Answers, j: nat, g: nat)
    requires DistinctKeys(groups) && Owned(link.ledger, link.hosts) && j < |link.hosts|
    requires WantedDifferently(link.hosts[j], groups, g)
    requires Reconciled(link, groups, desired, answers).phase == Running
    ensures var after := Reconciled(link, groups, desired, answers);
      FateMet(after.ledger, after.hosts, link.hosts[j], j, groups[g], answers)
  {
    var p := OldHosts(link.ledger, link.hosts, |link.hosts|, groups, answers);
    var q := NewHosts(p, |groups|, groups, answers);
    if p.failed {
      FailedStaysFailed(p, |groups|, groups, answers);
    }
    OldHostsMeetFate(link.ledger, link.hosts, j, |link.hosts|, groups, g, answers);
    NewHostsAppend(p, |groups|, groups, answers);
    assert q.ledger[link.hosts[j].handle] == q.ledger[..|p.ledger|][link.hosts[j].handle];
    FateStays(p, q, link.hosts[j], j, groups[g], answers);
  }
}
