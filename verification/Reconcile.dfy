/**
 * The live update of a running link: the running host instances are turned into the desired groups by keeping,
 * retargeting, restarting, stopping and starting. Every instance ever launched stays in a ledger, so that one left
 * running by mistake would be visible.
 */
module Reconcile {
  import opened Points
  import opened HostGroups

  datatype Instance = Instance(key: Key, served: set<string>, running: bool)

  /** An entry of the runtime's list; `handle` is the instance it owns. */
  datatype ActiveHost = ActiveHost(key: Key, handle: nat, targets: seq<string>)

  datatype Phase = Running | Stopped | Failed | Terminated

  /** `monitor` is whether the thread that watches a started link has not been joined yet. */
  datatype Link = Link(
    ledger: seq<Instance>, hosts: seq<ActiveHost>, targets: seq<string>, phase: Phase, monitor: bool)

  /** What the hosts answer: `k` counts active hosts, `g` desired groups. */
  datatype Answers = Answers(
    dynamic: nat -> bool, removes: (nat, string) -> bool, adds: (nat, string) -> bool,
    restarts: nat -> bool, starts: nat -> bool)

  datatype Progress = Progress(
    ledger: seq<Instance>, next: seq<ActiveHost>, handled: set<nat>, failed: bool)

  // ---- Steps on the ledger

  function Halt(ledger: seq<Instance>, h: nat): (r: seq<Instance>)
    ensures |r| == |ledger| && (h < |ledger| ==> r[h] == ledger[h].(running := false))
    ensures forall j :: 0 <= j < |ledger| && j != h ==> r[j] == ledger[j]
  {
    if h < |ledger| then ledger[h := ledger[h].(running := false)] else ledger
  }

  function HaltAll(ledger: seq<Instance>, hosts: seq<ActiveHost>): (r: seq<Instance>)
    ensures |r| == |ledger|
    ensures forall j :: 0 <= j < |ledger| ==>
      r[j] == if exists a :: a in hosts && a.handle == j then ledger[j].(running := false) else ledger[j]
  {
    if hosts == [] then ledger
    else
      var before := HaltAll(ledger, hosts[..|hosts| - 1]);
      assert hosts == hosts[..|hosts| - 1] + [hosts[|hosts| - 1]];
      Halt(before, hosts[|hosts| - 1].handle)
  }

  /** What is served after removing what is not desired, up to the first refusal. */
  function Removed(answers: Answers, k: nat, served: set<string>, current: seq<string>, keep: seq<string>)
    : (r: (set<string>, bool))
    ensures r.1 ==> forall t :: t in r.0 <==> t in served && (t in current ==> t in keep)
  {
    if current == [] then (served, true)
    else
      var before := Removed(answers, k, served, current[..|current| - 1], keep);
      var last := current[|current| - 1];
      assert current == current[..|current| - 1] + [last];
      if !before.1 || last in keep then before
      else if !answers.removes(k, last) then (before.0, false)
      else (before.0 - {last}, true)
  }

  /** What is served after adding what was missing, up to the first refusal. */
  function Extended(answers: Answers, k: nat, served: set<string>, desired: seq<string>, had: seq<string>)
    : (r: (set<string>, bool))
    ensures r.1 ==> forall t :: t in r.0 <==> t in served || (t in desired && t !in had)
  {
    if desired == [] then (served, true)
    else
      var before := Extended(answers, k, served, desired[..|desired| - 1], had);
      var last := desired[|desired| - 1];
      assert desired == desired[..|desired| - 1] + [last];
      if !before.1 || last in had then before
      else if !answers.adds(k, last) then (before.0, false)
      else (before.0 + {last}, true)
  }

  function Retargeted(answers: Answers, k: nat, served: set<string>, current: seq<string>, desired: seq<string>)
    : (r: (set<string>, bool))
    ensures r.1 && served == Ids(current) ==> r.0 == Ids(desired)
  {
    if !answers.dynamic(k) then (served, false)
    else
      var (left, ok) := Removed(answers, k, served, current, desired);
      if !ok then (left, false) else Extended(answers, k, left, desired, current)
  }

  function WithServed(ledger: seq<Instance>, h: nat, served: set<string>): seq<Instance> {
    if h < |ledger| then ledger[h := ledger[h].(served := served)] else ledger
  }

  function ServedBy(ledger: seq<Instance>, h: nat): set<string> {
    if h < |ledger| then ledger[h].served else {}
  }

  function Launched(p: Progress, group: Group): Progress {
    p.(ledger := p.ledger + [Instance(group.key, Ids(group.targets), true)],
       next := p.next + [ActiveHost(group.key, |p.ledger|, group.targets)])
  }

  /** Active host `k` of the old list, against the group it matches. */
  function Matched(p: Progress, k: nat, a: ActiveHost, group: Group, answers: Answers): Progress {
    if Ids(a.targets) == Ids(group.targets) then p.(next := p.next + [a])
    else
      var (served, ok) := Retargeted(answers, k, ServedBy(p.ledger, a.handle), a.targets, group.targets);
      var ledger := WithServed(p.ledger, a.handle, served);
      if ok then p.(ledger := ledger, next := p.next + [a.(targets := group.targets)])
      else
        var stopped := p.(ledger := Halt(ledger, a.handle));
        if answers.restarts(k) then Launched(stopped, group) else stopped.(failed := true)
  }

  function HostStep(p: Progress, k: nat, a: ActiveHost, groups: seq<Group>, answers: Answers): Progress {
    if p.failed then p
    else
      var g := FindGroup(groups, a.key, 0);
      if g == |groups| then p.(ledger := Halt(p.ledger, a.handle))
      else Matched(p.(handled := p.handled + {g}), k, a, groups[g], answers)
  }

  function OldHosts(ledger: seq<Instance>, hosts: seq<ActiveHost>, k: nat, groups: seq<Group>, answers: Answers)
    : Progress
    requires k <= |hosts|
  {
    if k == 0 then Progress(ledger, [], {}, false)
    else HostStep(OldHosts(ledger, hosts, k - 1, groups, answers), k - 1, hosts[k - 1], groups, answers)
  }

  function StartStep(p: Progress, g: nat, group: Group, answers: Answers): Progress {
    if p.failed || g in p.handled then p
    else if answers.starts(g) then Launched(p, group)
    else p.(failed := true)
  }

  function NewHosts(p: Progress, g: nat, groups: seq<Group>, answers: Answers): Progress
    requires g <= |groups|
  {
    if g == 0 then p
    else StartStep(NewHosts(p, g - 1, groups, answers), g - 1, groups[g - 1], answers)
  }

  function Finished(link: Link, p: Progress, desired: seq<string>): Link {
    if p.failed then Link(HaltAll(HaltAll(p.ledger, p.next), link.hosts), [], [], Failed, link.monitor)
    else Link(p.ledger, p.next, desired, Running, link.monitor)
  }

  function Reconciled(link: Link, groups: seq<Group>, desired: seq<string>, answers: Answers): Link {
    var p := OldHosts(link.ledger, link.hosts, |link.hosts|, groups, answers);
    Finished(link, NewHosts(p, |groups|, groups, answers), desired)
  }

  function Halted(link: Link): Link {
    Link(HaltAll(link.ledger, link.hosts), [], [], Stopped, false)
  }

  function Updated(link: Link, setup: Setup, selected: seq<string>, connected: set<string>, answers: Answers): Link {
    var desired := Connected(selected, connected);
    if selected == [] then Halted(link)
    else if setup.hostId != "" && FallbackHost(setup).None? then link.(phase := Failed)
    else
      match Grouped(setup, desired)
      case None => link.(phase := Failed)
      case Some(groups) => if desired == [] then Halted(link) else Reconciled(link, groups, desired, answers)
  }

  // ---- The first start, and every start of a link that is not running

  /** When a start is cancelled: not at all, before any host was started, or right after one was. */
  datatype Cancel = Never | BeforeHosts | AmongHosts

  const NO_HOSTS := Progress([], [], {}, false)

  /** The new hosts, started beside whatever the link still owns. */
  function Beside(link: Link): Progress {
    NO_HOSTS.(ledger := link.ledger)
  }

  /**
   * After the starts. A host that does not come up, or a cancellation after it came up, stops the new hosts and
   * leaves the old lists. Success replaces the lists, which destroys and so stops the old hosts, and then starts the
   * monitor thread: assigning it over one that was never joined terminates the process.
   */
  function Completed(link: Link, p: Progress, ids: seq<string>, cancel: Cancel): Link {
    if p.failed then
      link.(ledger := HaltAll(p.ledger, p.next), phase := if cancel == AmongHosts then Stopped else Failed)
    else
      Link(HaltAll(p.ledger, link.hosts), p.next, ids, if link.monitor then Terminated else Running, true)
  }

  function Started(link: Link, setup: Setup, ids: seq<string>, cancel: Cancel, answers: Answers): Link {
    if setup.hostId != "" && FallbackHost(setup).None? then link.(phase := Failed)
    else if cancel == BeforeHosts then link.(phase := Stopped)
    else if ids == [] then link.(phase := Failed)
    else
      match Grouped(setup, ids)
      case None => link.(phase := Failed)
      case Some(groups) => Completed(link, NewHosts(Beside(link), |groups|, groups, answers), ids, cancel)
  }

  // ---- What a list of hosts owns

  predicate Fits(ledger: seq<Instance>, a: ActiveHost) {
    a.handle < |ledger| && ledger[a.handle] == Instance(a.key, Ids(a.targets), true)
  }

  predicate AllFit(ledger: seq<Instance>, hosts: seq<ActiveHost>) {
    forall j :: 0 <= j < |hosts| ==> Fits(ledger, hosts[j])
  }

  predicate AllDiffer(hosts: seq<ActiveHost>) {
    forall i, j :: 0 <= i < j < |hosts| ==> hosts[i].handle != hosts[j].handle && hosts[i].key != hosts[j].key
  }

  predicate Lists(hosts: seq<ActiveHost>, h: nat) {
    exists j :: 0 <= j < |hosts| && hosts[j].handle == h
  }

  predicate AllListed(ledger: seq<Instance>, hosts: seq<ActiveHost>) {
    forall h :: 0 <= h < |ledger| && ledger[h].running ==> Lists(hosts, h)
  }

  /** Every listed host runs its own instance, and no other instance runs. */
  predicate Owned(ledger: seq<Instance>, hosts: seq<ActiveHost>) {
    AllFit(ledger, hosts) && AllDiffer(hosts) && AllListed(ledger, hosts)
  }

  /** Host `a` gone from the middle of the list. */
  lemma HaltMiddle(ledger: seq<Instance>, left: seq<ActiveHost>, a: ActiveHost, right: seq<ActiveHost>)
    requires Owned(ledger, left + [a] + right)
    ensures Owned(Halt(ledger, a.handle), left + right)
  {
    var all, rest := left + [a] + right, left + right;
    var after := Halt(ledger, a.handle);
    assert all[|left|] == a;
    forall j | 0 <= j < |rest| ensures Fits(after, rest[j]) {
      assert rest[j] == all[if j < |left| then j else j + 1];
    }
    forall i, j | 0 <= i < j < |rest| ensures rest[i].handle != rest[j].handle && rest[i].key != rest[j].key {
      assert rest[i] == all[if i < |left| then i else i + 1];
      assert rest[j] == all[if j < |left| then j else j + 1];
    }
    forall h | 0 <= h < |after| && after[h].running ensures Lists(rest, h) {
      var j :| 0 <= j < |all| && all[j].handle == h;
      assert rest[if j < |left| then j else j - 1] == all[j];
    }
  }

  /** Host `a` serving other targets from now on. */
  lemma RetargetMiddle(ledger: seq<Instance>, left: seq<ActiveHost>, a: ActiveHost, right: seq<ActiveHost>,
                       targets: seq<string>)
    requires Owned(ledger, left + [a] + right)
    ensures a.handle < |ledger|
    ensures Owned(WithServed(ledger, a.handle, Ids(targets)), left + [a.(targets := targets)] + right)
  {
    var all, now := left + [a] + right, left + [a.(targets := targets)] + right;
    assert all[|left|] == a && Fits(ledger, all[|left|]);
    forall j | 0 <= j < |now|
      ensures now[j] == if j == |left| then a.(targets := targets) else all[j]
    {}
    var after := WithServed(ledger, a.handle, Ids(targets));
    forall h | 0 <= h < |after| && after[h].running ensures Lists(now, h) {
      var j :| 0 <= j < |all| && all[j].handle == h;
      assert now[j].handle == h;
    }
  }

  lemma Inserted(left: seq<ActiveHost>, a: ActiveHost, right: seq<ActiveHost>, j: nat)
    requires j <= |left + right|
    ensures (left + [a] + right)[j]
         == if j < |left| then (left + right)[j] else if j == |left| then a else (left + right)[j - 1]
  {}

  lemma InsertedDiffers(left: seq<ActiveHost>, a: ActiveHost, right: seq<ActiveHost>)
    requires AllDiffer(left + right)
    requires forall b :: b in left + right ==> b.key != a.key && b.handle != a.handle
    ensures AllDiffer(left + [a] + right)
  {
    var all, now := left + right, left + [a] + right;
    forall i, j | 0 <= i < j < |now| ensures now[i].handle != now[j].handle && now[i].key != now[j].key {
      Inserted(left, a, right, i);
      Inserted(left, a, right, j);
      if i == |left| {
        assert all[j - 1] in all;
      } else if j == |left| {
        assert all[i] in all;
      }
    }
  }

  lemma InsertedLists(left: seq<ActiveHost>, a: ActiveHost, right: seq<ActiveHost>, h: nat)
    requires Lists(left + right, h) || h == a.handle
    ensures Lists(left + [a] + right, h)
  {
    var now := left + [a] + right;
    if h == a.handle {
      assert now[|left|] == a;
    } else {
      var j :| 0 <= j < |left + right| && (left + right)[j].handle == h;
      Inserted(left, a, right, if j < |left| then j else j + 1);
      assert now[if j < |left| then j else j + 1].handle == h;
    }
  }

  /** A new instance put into the list under a key that is not in it. */
  lemma LaunchMiddle(ledger: seq<Instance>, left: seq<ActiveHost>, group: Group, right: seq<ActiveHost>)
    requires Owned(ledger, left + right)
    requires forall a :: a in left + right ==> a.key != group.key
    ensures Owned(ledger + [Instance(group.key, Ids(group.targets), true)],
                  left + [ActiveHost(group.key, |ledger|, group.targets)] + right)
  {
    var all, added := left + right, ActiveHost(group.key, |ledger|, group.targets);
    var now, after := left + [added] + right, ledger + [Instance(group.key, Ids(group.targets), true)];
    forall b | b in all ensures b.key != group.key && b.handle < |ledger| && Fits(after, b) {
      var j :| 0 <= j < |all| && all[j] == b;
      assert Fits(ledger, all[j]);
    }
    InsertedDiffers(left, added, right);
    forall j | 0 <= j < |now| ensures Fits(after, now[j]) {
      Inserted(left, added, right, j);
      if j != |left| {
        assert all[if j < |left| then j else j - 1] in all;
      }
    }
    forall h | 0 <= h < |after| && after[h].running ensures Lists(now, h) {
      InsertedLists(left, added, right, h);
    }
  }

  lemma MiddleIsAlone(ledger: seq<Instance>, left: seq<ActiveHost>, a: ActiveHost, right: seq<ActiveHost>)
    requires Owned(ledger, left + [a] + right)
    ensures forall b :: b in left + right ==> b.key != a.key && b.handle != a.handle
    ensures Fits(ledger, a)
  {
    var all := left + [a] + right;
    assert all[|left|] == a;
    forall b | b in left + right ensures b.key != a.key && b.handle != a.handle {
      var j :| 0 <= j < |left + right| && (left + right)[j] == b;
      assert all[if j < |left| then j else j + 1] == b;
    }
  }

  /** Changing what a host's instance serves, then stopping it, is as good as stopping it. */
  lemma HaltForgets(ledger: seq<Instance>, left: seq<ActiveHost>, a: ActiveHost, right: seq<ActiveHost>,
                    served: set<string>)
    requires Owned(ledger, left + [a] + right)
    ensures Owned(Halt(WithServed(ledger, a.handle, served), a.handle), left + right)
  {
    MiddleIsAlone(ledger, left, a, right);
    HaltMiddle(ledger, left, a, right);
    var after := Halt(WithServed(ledger, a.handle, served), a.handle);
    var plain := Halt(ledger, a.handle);
    forall j | 0 <= j < |left + right| ensures Fits(after, (left + right)[j]) {
      assert (left + right)[j] in left + right && Fits(plain, (left + right)[j]);
    }
    forall h | 0 <= h < |after| && after[h].running
      ensures Lists(left + right, h)
    {
      assert plain[h].running;
    }
  }

  // ---- The pass over the old hosts

  predicate Answers1(a: ActiveHost, group: Group) {
    a.key == group.key && Ids(a.targets) == Ids(group.targets)
  }

  predicate AnswersOne(a: ActiveHost, groups: seq<Group>, handled: set<nat>) {
    exists g :: g in handled && g < |groups| && Answers1(a, groups[g])
  }

  predicate HasAnswer(next: seq<ActiveHost>, group: Group) {
    exists a :: a in next && Answers1(a, group)
  }

  /** `next` answers exactly the groups of `handled`. */
  predicate Answered(next: seq<ActiveHost>, groups: seq<Group>, handled: set<nat>) {
    && (forall a :: a in next ==> AnswersOne(a, groups, handled))
    && (forall g :: g in handled ==> g < |groups| && HasAnswer(next, groups[g]))
  }

  lemma AnsweredMore(next: seq<ActiveHost>, groups: seq<Group>, handled: set<nat>, a: ActiveHost, g: nat)
    requires Answered(next, groups, handled) && g < |groups| && Answers1(a, groups[g])
    ensures Answered(next + [a], groups, handled + {g})
  {
    var wider, more := handled + {g}, next + [a];
    forall b | b in more ensures AnswersOne(b, groups, wider) {
      if b == a {
        assert g in wider && Answers1(b, groups[g]);
      } else {
        assert AnswersOne(b, groups, handled);
        var x :| x in handled && x < |groups| && Answers1(b, groups[x]);
        assert x in wider;
      }
    }
    forall x | x in wider ensures x < |groups| && HasAnswer(more, groups[x]) {
      if x == g {
        assert more[|next|] == a && a in more;
      } else {
        assert HasAnswer(next, groups[x]);
        var b :| b in next && Answers1(b, groups[x]);
        assert b in more;
      }
    }
  }

  /** One old host: the list of new hosts followed by the old ones not yet looked at stays owned. */
  lemma MatchedKeepsOwned(p: Progress, k: nat, a: ActiveHost, right: seq<ActiveHost>, group: Group, answers: Answers)
    requires !p.failed && a.key == group.key && Owned(p.ledger, p.next + [a] + right)
    ensures var q := Matched(p, k, a, group, answers);
      && q.handled == p.handled && Owned(q.ledger, q.next + right)
      && (q.failed ==> q.next == p.next)
      && (!q.failed ==> exists b :: q.next == p.next + [b] && Answers1(b, group))
  {
    var q := Matched(p, k, a, group, answers);
    MiddleIsAlone(p.ledger, p.next, a, right);
    if Ids(a.targets) == Ids(group.targets) {
      assert q.next == p.next + [a];
    } else {
      var (served, ok) := Retargeted(answers, k, ServedBy(p.ledger, a.handle), a.targets, group.targets);
      if ok {
        RetargetMiddle(p.ledger, p.next, a, right, group.targets);
        assert q.next == p.next + [a.(targets := group.targets)];
      } else {
        HaltForgets(p.ledger, p.next, a, right, served);
        if answers.restarts(k) {
          var stopped := Halt(WithServed(p.ledger, a.handle, served), a.handle);
          LaunchMiddle(stopped, p.next, group, right);
          assert q.next == p.next + [ActiveHost(group.key, |stopped|, group.targets)];
        }
      }
    }
  }

  predicate OldHostsInv(p: Progress, groups: seq<Group>, right: seq<ActiveHost>) {
    Owned(p.ledger, p.next + right) && (!p.failed ==> Answered(p.next, groups, p.handled))
  }

  lemma HostStepKeepsInv(p: Progress, k: nat, a: ActiveHost, right: seq<ActiveHost>, groups: seq<Group>,
                         answers: Answers)
    requires !p.failed && OldHostsInv(p, groups, [a] + right)
    ensures OldHostsInv(HostStep(p, k, a, groups, answers), groups, right)
  {
    assert p.next + ([a] + right) == p.next + [a] + right;
    var g := FindGroup(groups, a.key, 0);
    if g == |groups| {
      HaltMiddle(p.ledger, p.next, a, right);
    } else {
      var p1 := p.(handled := p.handled + {g});
      MatchedKeepsOwned(p1, k, a, right, groups[g], answers);
      var q := Matched(p1, k, a, groups[g], answers);
      if !q.failed {
        var b :| q.next == p.next + [b] && Answers1(b, groups[g]);
        AnsweredMore(p.next, groups, p.handled, b, g);
      }
    }
  }

  /** What still runs is listed: in the new list, or in a rest of the old one. */
  predicate Listed(p: Progress, groups: seq<Group>, hosts: seq<ActiveHost>) {
    exists j :: 0 <= j <= |hosts| && Owned(p.ledger, p.next + hosts[j..])
  }

  /** After `k` old hosts; a failure freezes the pass where it happened. */
  predicate OldHostsState(p: Progress, groups: seq<Group>, hosts: seq<ActiveHost>, k: nat)
    requires k <= |hosts|
  {
    if p.failed then Listed(p, groups, hosts) else OldHostsInv(p, groups, hosts[k..])
  }

  lemma HostStepKeepsState(p: Progress, groups: seq<Group>, hosts: seq<ActiveHost>, k: nat, answers: Answers)
    requires k < |hosts| && OldHostsState(p, groups, hosts, k)
    ensures OldHostsState(HostStep(p, k, hosts[k], groups, answers), groups, hosts, k + 1)
  {
    if !p.failed {
      assert hosts[k..] == [hosts[k]] + hosts[k + 1..];
      HostStepKeepsInv(p, k, hosts[k], hosts[k + 1..], groups, answers);
      var q := HostStep(p, k, hosts[k], groups, answers);
      assert Owned(q.ledger, q.next + hosts[k + 1..]);
    }
  }

  lemma OldHostsOneMore(ledger: seq<Instance>, before: Progress, groups: seq<Group>, hosts: seq<ActiveHost>, k: nat,
                        answers: Answers)
    requires k < |hosts| && before == OldHosts(ledger, hosts, k, groups, answers)
    requires OldHostsState(before, groups, hosts, k)
    ensures OldHostsState(OldHosts(ledger, hosts, k + 1, groups, answers), groups, hosts, k + 1)
  {
    HostStepKeepsState(before, groups, hosts, k, answers);
  }

  lemma NoOldHostsYet(ledger: seq<Instance>, groups: seq<Group>, hosts: seq<ActiveHost>)
    requires Owned(ledger, hosts)
    ensures OldHostsState(Progress(ledger, [], {}, false), groups, hosts, 0)
  {
    assert [] + hosts[0..] == hosts;
  }

  lemma {:induction false} OldHostsKeepInv(ledger: seq<Instance>, hosts: seq<ActiveHost>, k: nat, groups: seq<Group>,
                                           answers: Answers)
    requires k <= |hosts| && Owned(ledger, hosts)
    ensures OldHostsState(OldHosts(ledger, hosts, k, groups, answers), groups, hosts, k)
  {
    if k == 0 {
      NoOldHostsYet(ledger, groups, hosts);
    } else {
      OldHostsKeepInv(ledger, hosts, k - 1, groups, answers);
      OldHostsOneMore(ledger, OldHosts(ledger, hosts, k - 1, groups, answers), groups, hosts, k - 1, answers);
    }
  }

  /** The groups handled are those that some old host matches. */
  lemma {:induction false} HandledAreMatched(ledger: seq<Instance>, hosts: seq<ActiveHost>, k: nat, groups: seq<Group>,
                                             answers: Answers)
    requires k <= |hosts| && DistinctKeys(groups)
    ensures HandledUpTo(OldHosts(ledger, hosts, k, groups, answers), hosts, k, groups)
  {
    if k > 0 {
      HandledAreMatched(ledger, hosts, k - 1, groups, answers);
      HandledStep(ledger, OldHosts(ledger, hosts, k - 1, groups, answers), hosts, k - 1, groups, answers);
    }
  }

  lemma HandledStep(ledger: seq<Instance>, before: Progress, hosts: seq<ActiveHost>, k: nat, groups: seq<Group>,
                    answers: Answers)
    requires k < |hosts| && DistinctKeys(groups) && before == OldHosts(ledger, hosts, k, groups, answers)
    requires HandledUpTo(before, hosts, k, groups)
    ensures HandledUpTo(OldHosts(ledger, hosts, k + 1, groups, answers), hosts, k + 1, groups)
  {
    HandledOneMore(before, hosts, k, groups, answers);
  }

  predicate MatchedBefore(hosts: seq<ActiveHost>, k: nat, key: Key)
    requires k <= |hosts|
  {
    exists j :: 0 <= j < k && hosts[j].key == key
  }

  ghost predicate HandledUpTo(p: Progress, hosts: seq<ActiveHost>, k: nat, groups: seq<Group>)
    requires k <= |hosts|
  {
    !p.failed ==> forall g: nat :: g in p.handled <==> g < |groups| && MatchedBefore(hosts, k, groups[g].key)
  }

  lemma HandledOneMore(p: Progress, hosts: seq<ActiveHost>, k: nat, groups: seq<Group>, answers: Answers)
    requires k < |hosts| && DistinctKeys(groups)
    requires HandledUpTo(p, hosts, k, groups)
    ensures HandledUpTo(HostStep(p, k, hosts[k], groups, answers), hosts, k + 1, groups)
  {
    var q := HostStep(p, k, hosts[k], groups, answers);
    if !q.failed {
      var found := FindGroup(groups, hosts[k].key, 0);
      forall g: nat ensures g in q.handled <==> g < |groups| && MatchedBefore(hosts, k + 1, groups[g].key) {
        assert g in p.handled <==> g < |groups| && MatchedBefore(hosts, k, groups[g].key);
        if g == found && g < |groups| {
          assert hosts[k].key == groups[g].key;
        }
      }
    }
  }

  // ---- The pass over the groups nobody served

  ghost predicate NewHostsInv(p: Progress, groups: seq<Group>, handled: set<nat>, g: nat) {
    && Owned(p.ledger, p.next)
    && p.handled == handled
    && (!p.failed ==> Answered(p.next, groups, handled + Below(g)))
  }

  function Below(g: nat): (r: set<nat>)
    ensures forall x: nat :: x in r <==> x < g
  {
    if g == 0 then {} else Below(g - 1) + {g - 1}
  }

  lemma StartStepKeepsInv(p: Progress, groups: seq<Group>, handled: set<nat>, g: nat, answers: Answers)
    requires DistinctKeys(groups) && g < |groups| && NewHostsInv(p, groups, handled, g)
    ensures NewHostsInv(StartStep(p, g, groups[g], answers), groups, handled, g + 1)
  {
    var done := handled + Below(g);
    if p.failed {
    } else if g in handled {
      assert handled + Below(g + 1) == done;
    } else if answers.starts(g) {
      assert handled + Below(g + 1) == done + {g};
      LaunchKeepsInv(p, groups, done, g);
    }
  }

  lemma LaunchKeepsInv(p: Progress, groups: seq<Group>, done: set<nat>, g: nat)
    requires DistinctKeys(groups) && g < |groups| && g !in done
    requires Owned(p.ledger, p.next) && Answered(p.next, groups, done)
    ensures var q := Launched(p, groups[g]);
      q.handled == p.handled && Owned(q.ledger, q.next) && Answered(q.next, groups, done + {g})
  {
    assert p.next + [] == p.next;
    forall a | a in p.next + [] ensures a.key != groups[g].key {
      OtherKey(a, p.next, groups, done, g);
    }
    LaunchMiddle(p.ledger, p.next, groups[g], []);
    var added := ActiveHost(groups[g].key, |p.ledger|, groups[g].targets);
    assert p.next + [added] + [] == p.next + [added];
    AnsweredMore(p.next, groups, done, added, g);
  }

  lemma OtherKey(a: ActiveHost, next: seq<ActiveHost>, groups: seq<Group>, done: set<nat>, g: nat)
    requires DistinctKeys(groups) && g < |groups| && g !in done && Answered(next, groups, done) && a in next
    ensures a.key != groups[g].key
  {
    assert AnswersOne(a, groups, done);
    var x :| x in done && x < |groups| && Answers1(a, groups[x]);
    assert x != g;
  }

  lemma NewHostsOneMore(p: Progress, before: Progress, g: nat, groups: seq<Group>, answers: Answers)
    requires DistinctKeys(groups) && g < |groups| && before == NewHosts(p, g, groups, answers)
    requires NewHostsInv(before, groups, p.handled, g)
    ensures NewHostsInv(NewHosts(p, g + 1, groups, answers), groups, p.handled, g + 1)
  {
    StartStepKeepsInv(before, groups, p.handled, g, answers);
  }

  lemma {:induction false} NewHostsKeepInv(p: Progress, g: nat, groups: seq<Group>, answers: Answers)
    requires DistinctKeys(groups) && g <= |groups| && NewHostsInv(p, groups, p.handled, 0)
    ensures NewHostsInv(NewHosts(p, g, groups, answers), groups, p.handled, g)
  {
    if g == 0 {
      assert NewHosts(p, 0, groups, answers) == p;
    } else {
      NewHostsKeepInv(p, g - 1, groups, answers);
      NewHostsOneMore(p, NewHosts(p, g - 1, groups, answers), g - 1, groups, answers);
    }
  }
}
