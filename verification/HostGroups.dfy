/** How the selected controllers are grouped by the virtual controller host that is to serve them. */
module HostGroups {
  import opened Points

  type HostOptions = map<string, string>

  datatype HostInfo = HostInfo(id: string, separateInstancePerTarget: bool)

  datatype Route = Route(controllerId: string, hostId: string, instanceKey: string, options: HostOptions)

  /** The part of the link options that decides the grouping, with the host registry it is resolved against. */
  datatype Setup = Setup(
    hostId: string, routes: seq<Route>, hostOptions: HostOptions,
    registry: map<string, HostInfo>, preferred: Option<HostInfo>)

  datatype Key = Key(hostId: string, instanceKey: string, options: HostOptions)

  datatype Group = Group(key: Key, targets: seq<string>)

  function Ids(targets: seq<string>): (r: set<string>)
    ensures forall t :: t in r <==> t in targets
  {
    set t | t in targets
  }

  predicate Distinct(ids: seq<string>) {
    forall j, k :: 0 <= j < k < |ids| ==> ids[j] != ids[k]
  }

  function Find(registry: map<string, HostInfo>, id: string): Option<HostInfo> {
    if id in registry then Some(registry[id]) else None
  }

  function FallbackHost(setup: Setup): Option<HostInfo> {
    if setup.hostId != "" then Find(setup.registry, setup.hostId) else setup.preferred
  }

  /** The route that holds for a controller: the last one naming it. */
  function RouteOf(routes: seq<Route>, id: string): (r: Option<Route>)
    ensures r.Some? ==> r.value in routes && r.value.controllerId == id && id != ""
    ensures r.None? ==> id == "" || forall route :: route in routes ==> route.controllerId != id
  {
    if routes == [] || id == "" then None
    else
      var last := routes[|routes| - 1];
      if last.controllerId == id then Some(last) else RouteOf(routes[..|routes| - 1], id)
  }

  function KeyWith(setup: Setup, route: Option<Route>, id: string): Option<Key> {
    var info := if route.Some? && route.value.hostId != "" then Find(setup.registry, route.value.hostId)
                else FallbackHost(setup);
    if info.None? then None
    else
      var instanceKey :=
        if route.Some? && route.value.instanceKey != "" then route.value.instanceKey
        else if info.value.separateInstancePerTarget then id
        else info.value.id;
      Some(Key(info.value.id, instanceKey, if route.Some? then route.value.options else setup.hostOptions))
  }

  /** The host instance a controller belongs to, or `None` when its host is not registered. */
  function KeyOf(setup: Setup, id: string): Option<Key> {
    KeyWith(setup, RouteOf(setup.routes, id), id)
  }

  function FindGroup(groups: seq<Group>, key: Key, from: nat): (g: nat)
    requires from <= |groups|
    ensures from <= g <= |groups| && (g < |groups| ==> groups[g].key == key)
    ensures forall j :: from <= j < g ==> groups[j].key != key
    decreases |groups| - from
  {
    if from == |groups| || groups[from].key == key then from else FindGroup(groups, key, from + 1)
  }

  function Place(groups: seq<Group>, key: Key, id: string): seq<Group> {
    var g := FindGroup(groups, key, 0);
    if g == |groups| then groups + [Group(key, [id])]
    else groups[g := Group(key, groups[g].targets + [id])]
  }

  /** The selected controllers that have a connected target, in the order of selection. */
  function Connected(selected: seq<string>, connected: set<string>): (r: seq<string>)
    ensures forall t :: t in r <==> t in selected && t in connected
  {
    if selected == [] then []
    else
      var last := selected[|selected| - 1];
      Connected(selected[..|selected| - 1], connected) + if last in connected then [last] else []
  }

  function Grouped(setup: Setup, ids: seq<string>): Option<seq<Group>> {
    if ids == [] then Some([])
    else
      var before := Grouped(setup, ids[..|ids| - 1]);
      var key := KeyOf(setup, ids[|ids| - 1]);
      if before.None? || key.None? then None
      else Some(Place(before.value, key.value, ids[|ids| - 1]))
  }

  lemma GroupedOneMore(setup: Setup, ids: seq<string>, id: string)
    ensures Grouped(setup, ids + [id])
         == if Grouped(setup, ids).None? || KeyOf(setup, id).None? then None
            else Some(Place(Grouped(setup, ids).value, KeyOf(setup, id).value, id))
  {
    assert (ids + [id])[..|ids|] == ids;
  }

  lemma ConnectedOneMore(selected: seq<string>, connected: set<string>, k: nat)
    requires k < |selected|
    ensures Connected(selected[..k + 1], connected)
         == Connected(selected[..k], connected) + if selected[k] in connected then [selected[k]] else []
  {
    assert selected[..k + 1][..k] == selected[..k];
  }

  predicate DistinctKeys(groups: seq<Group>) {
    forall j, k :: 0 <= j < k < |groups| ==> groups[j].key != groups[k].key
  }

  /** A group holds exactly the ids that belong to its key. */
  ghost predicate GroupsOf(setup: Setup, ids: seq<string>, groups: seq<Group>) {
    && DistinctKeys(groups)
    && (forall g :: 0 <= g < |groups| ==> groups[g].targets != [] && Distinct(groups[g].targets))
    && (forall g, t :: 0 <= g < |groups| ==>
          (t in groups[g].targets <==> t in ids && KeyOf(setup, t) == Some(groups[g].key)))
    && (forall t :: t in ids ==> exists g :: 0 <= g < |groups| && t in groups[g].targets)
  }

  lemma ConnectedDistinct(selected: seq<string>, connected: set<string>)
    requires Distinct(selected)
    ensures Distinct(Connected(selected, connected))
  {}

  lemma PlaceKeepsGroups(setup: Setup, ids: seq<string>, groups: seq<Group>, key: Key, id: string)
    requires GroupsOf(setup, ids, groups) && id !in ids && KeyOf(setup, id) == Some(key)
    ensures GroupsOf(setup, ids + [id], Place(groups, key, id))
  {
    var g := FindGroup(groups, key, 0);
    var after := Place(groups, key, id);
    forall t | t in ids + [id] ensures exists k :: 0 <= k < |after| && t in after[k].targets {
      if t == id {
        assert t in after[g].targets;
      } else {
        var k :| 0 <= k < |groups| && t in groups[k].targets;
        assert t in after[k].targets;
      }
    }
  }

  /** Grouping partitions the selected controllers by key; it fails exactly when some host is not registered. */
  lemma {:induction false} GroupingPartitions(setup: Setup, ids: seq<string>)
    requires Distinct(ids)
    ensures Grouped(setup, ids).None? <==> exists t :: t in ids && KeyOf(setup, t) == None
    ensures Grouped(setup, ids).Some? ==> GroupsOf(setup, ids, Grouped(setup, ids).value)
  {
    if ids != [] {
      var front, last := ids[..|ids| - 1], ids[|ids| - 1];
      assert ids == front + [last];
      GroupingPartitions(setup, front);
      if Grouped(setup, ids).Some? {
        PlaceKeepsGroups(setup, front, Grouped(setup, front).value, KeyOf(setup, last).value, last);
      }
    }
  }

  /** The same key means the same group: no controller is in two groups. */
  lemma OneGroupEach(setup: Setup, ids: seq<string>, groups: seq<Group>, j: nat, k: nat, t: string)
    requires GroupsOf(setup, ids, groups) && j < |groups| && k < |groups|
    requires t in groups[j].targets && t in groups[k].targets
    ensures j == k
  {
    assert KeyOf(setup, t) == Some(groups[j].key) && KeyOf(setup, t) == Some(groups[k].key);
  }

  method RoutesByController(routes: seq<Route>) returns (byId: map<string, Route>)
    ensures forall id :: RouteOf(routes, id) == if id in byId then Some(byId[id]) else None
  {
    byId := map[];
    for k := 0 to |routes|
      invariant forall id :: RouteOf(routes[..k], id) == if id in byId then Some(byId[id]) else None
    {
      assert routes[..k + 1][..k] == routes[..k];
      if routes[k].controllerId != "" {
        byId := byId[routes[k].controllerId := routes[k]];
      }
    }
    assert routes[..|routes|] == routes;
  }

  method FindGroupIndex(groups: seq<Group>, key: Key) returns (g: nat)
    ensures g == FindGroup(groups, key, 0)
  {
    g := 0;
    while g < |groups| && groups[g].key != key
      invariant g <= |groups| && FindGroup(groups, key, 0) == FindGroup(groups, key, g)
    {
      g := g + 1;
    }
  }

  method PlaceTarget(groups: seq<Group>, key: Key, id: string) returns (after: seq<Group>)
    ensures after == Place(groups, key, id)
  {
    after := groups;
    var g := FindGroupIndex(groups, key);
    if g == |groups| {
      after := after + [Group(key, [])];
    }
    assert [] + [id] == [id];
    after := after[g := Group(key, after[g].targets + [id])];
    assert g == |groups| ==> after == groups + [Group(key, [id])];
  }

  method KeyFrom(setup: Setup, byId: map<string, Route>, id: string) returns (key: Option<Key>)
    requires RouteOf(setup.routes, id) == if id in byId then Some(byId[id]) else None
    ensures key == KeyOf(setup, id)
  {
    key := KeyWith(setup, if id in byId then Some(byId[id]) else None, id);
  }

  /** What the next selected controller adds to the targets and to the groups. */
  lemma GroupingOneMore(setup: Setup, selected: seq<string>, connected: set<string>, k: nat)
    requires k < |selected|
    ensures var (ids, more, id) := (Connected(selected[..k], connected), Connected(selected[..k + 1], connected),
                                    selected[k]);
      && more == (if id in connected then ids + [id] else ids)
      && (id in connected && Grouped(setup, ids).Some? ==>
            Grouped(setup, more) == if KeyOf(setup, id).None? then None
                                    else Some(Place(Grouped(setup, ids).value, KeyOf(setup, id).value, id)))
  {
    ConnectedOneMore(selected, connected, k);
    GroupedOneMore(setup, Connected(selected[..k], connected), selected[k]);
  }

  method GroupTargets(setup: Setup, selected: seq<string>, connected: set<string>)
    returns (groups: Option<seq<Group>>, targets: seq<string>)
    ensures groups == Grouped(setup, Connected(selected, connected))
    ensures groups.Some? ==> targets == Connected(selected, connected)
  {
    var byId := RoutesByController(setup.routes);
    var desired: seq<Group> := [];
    targets := [];
    for k := 0 to |selected|
      invariant targets == Connected(selected[..k], connected)
      invariant Grouped(setup, targets) == Some(desired)
    {
      var id := selected[k];
      GroupingOneMore(setup, selected, connected, k);
      if id in connected {
        var key := KeyFrom(setup, byId, id);
        if key.None? {
          GroupedPrefix(setup, selected, connected, k + 1);
          return None, [];
        }
        desired := PlaceTarget(desired, key.value, id);
        targets := targets + [id];
      }
    }
    assert selected[..|selected|] == selected;
    groups := Some(desired);
  }

  /** One controller without a host stops the whole grouping. */
  lemma {:induction false} GroupedPrefix(setup: Setup, selected: seq<string>, connected: set<string>, k: nat)
    requires k <= |selected| && Grouped(setup, Connected(selected[..k], connected)).None?
    ensures Grouped(setup, Connected(selected, connected)).None?
    decreases |selected| - k
  {
    if k == |selected| {
      assert selected[..k] == selected;
    } else {
      ConnectedOneMore(selected, connected, k);
      if selected[k] in connected {
        GroupedOneMore(setup, Connected(selected[..k], connected), selected[k]);
      } else {
        assert Connected(selected[..k + 1], connected) == Connected(selected[..k], connected);
      }
      GroupedPrefix(setup, selected, connected, k + 1);
    }
  }
}
