/** Which controllers share a host instance, in terms of routes, hosts and options alone. */
module HostKeys {
  import opened Points
  import opened HostGroups

  /** Route `k` is the last one that names the controller. */
  predicate Governs(routes: seq<Route>, k: nat, id: string) {
    k < |routes| && id != "" && routes[k].controllerId == id
    && forall j :: k < j < |routes| ==> routes[j].controllerId != id
  }

  predicate IsRouteOf(routes: seq<Route>, id: string, route: Option<Route>) {
    match route
    case None => id == "" || forall k :: 0 <= k < |routes| ==> routes[k].controllerId != id
    case Some(r) => exists k :: 0 <= k < |routes| && Governs(routes, k, id) && routes[k] == r
  }

  lemma {:induction false} LastRouteGoverns(routes: seq<Route>, id: string)
    ensures IsRouteOf(routes, id, RouteOf(routes, id))
  {
    if routes != [] && id != "" {
      var n := |routes| - 1;
      if routes[n].controllerId == id {
        assert Governs(routes, n, id);
      } else {
        LastRouteGoverns(routes[..n], id);
        if RouteOf(routes, id).Some? {
          var k :| 0 <= k < n && Governs(routes[..n], k, id) && routes[..n][k] == RouteOf(routes, id).value;
          assert Governs(routes, k, id) && routes[k] == RouteOf(routes, id).value;
        }
      }
    }
  }

  /** The last route naming a controller is its route, and the only one. */
  lemma OnlyLastRoute(routes: seq<Route>, id: string, route: Option<Route>)
    ensures IsRouteOf(routes, id, route) <==> route == RouteOf(routes, id)
  {
    LastRouteGoverns(routes, id);
    if IsRouteOf(routes, id, route) && route.Some? {
      var k :| 0 <= k < |routes| && Governs(routes, k, id) && routes[k] == route.value;
      assert RouteOf(routes, id).Some?;
      var j :| 0 <= j < |routes| && Governs(routes, j, id) && routes[j] == RouteOf(routes, id).value;
      assert j == k;
    }
  }

  /** The host a route names, else the one the link names, else the preferred one. */
  predicate HostedBy(setup: Setup, route: Option<Route>, info: HostInfo) {
    if route.Some? && route.value.hostId != "" then
      route.value.hostId in setup.registry && setup.registry[route.value.hostId] == info
    else if setup.hostId != "" then
      setup.hostId in setup.registry && setup.registry[setup.hostId] == info
    else
      setup.preferred == Some(info)
  }

  function OptionsOf(setup: Setup, route: Option<Route>): HostOptions {
    match route
    case None => setup.hostOptions
    case Some(r) => r.options
  }

  function InstanceOf(route: Option<Route>): string {
    match route
    case None => ""
    case Some(r) => r.instanceKey
  }

  /** A controller with its route and its host. */
  predicate Placed(setup: Setup, id: string, route: Option<Route>, info: HostInfo) {
    IsRouteOf(setup.routes, id, route) && HostedBy(setup, route, info)
  }

  lemma KeyExactly(setup: Setup, id: string, route: Option<Route>)
    requires IsRouteOf(setup.routes, id, route)
    ensures KeyOf(setup, id).None? <==> forall info :: !HostedBy(setup, route, info)
    ensures forall info :: HostedBy(setup, route, info) ==>
      && KeyOf(setup, id).Some?
      && KeyOf(setup, id).value.hostId == info.id
      && KeyOf(setup, id).value.options == OptionsOf(setup, route)
      && KeyOf(setup, id).value.instanceKey
         == if InstanceOf(route) != "" then InstanceOf(route) else if info.separateInstancePerTarget then id else info.id
  {
    OnlyLastRoute(setup.routes, id, route);
    var named := if route.Some? && route.value.hostId != "" then route.value.hostId else setup.hostId;
    if named != "" && named in setup.registry {
      assert HostedBy(setup, route, setup.registry[named]);
    } else if named == "" && setup.preferred.Some? {
      assert HostedBy(setup, route, setup.preferred.value);
    }
  }

  /** No host is registered for the controller. */
  ghost predicate Hostless(setup: Setup, id: string) {
    forall route, info :: IsRouteOf(setup.routes, id, route) ==> !HostedBy(setup, route, info)
  }

  lemma HostlessExactly(setup: Setup, id: string)
    ensures Hostless(setup, id) <==> KeyOf(setup, id) == None
  {
    var route := RouteOf(setup.routes, id);
    OnlyLastRoute(setup.routes, id, route);
    KeyExactly(setup, id, route);
    if KeyOf(setup, id) == None {
      forall r, info | IsRouteOf(setup.routes, id, r) ensures !HostedBy(setup, r, info) {
        OnlyLastRoute(setup.routes, id, r);
      }
    }
  }

  /** Grouping fails exactly when some controller has no registered host. */
  lemma GroupingFailsExactly(setup: Setup, ids: seq<string>)
    requires Distinct(ids)
    ensures Grouped(setup, ids).None? <==> exists t :: t in ids && Hostless(setup, t)
  {
    GroupingPartitions(setup, ids);
    if Grouped(setup, ids).None? {
      var t :| t in ids && KeyOf(setup, t) == None;
      HostlessExactly(setup, t);
    }
    if t :| t in ids && Hostless(setup, t) {
      HostlessExactly(setup, t);
    }
  }

  /** A group runs on the host of its members, with their options, under their instance key. */
  lemma GroupFollowsRoute(setup: Setup, ids: seq<string>, groups: seq<Group>, g: nat, t: string,
                          route: Option<Route>, info: HostInfo)
    requires GroupsOf(setup, ids, groups) && g < |groups| && t in groups[g].targets
    requires Placed(setup, t, route, info)
    ensures groups[g].key.hostId == info.id && groups[g].key.options == OptionsOf(setup, route)
    ensures groups[g].key.instanceKey
         == if InstanceOf(route) != "" then InstanceOf(route) else if info.separateInstancePerTarget then t else info.id
  {
    KeyExactly(setup, t, route);
    assert KeyOf(setup, t) == Some(groups[g].key);
  }

  /** Two controllers in groups of one link, with their routes and hosts. */
  predicate TwoPlaced(setup: Setup, ids: seq<string>, groups: seq<Group>, a: string, b: string, ga: nat, gb: nat,
                      ra: Option<Route>, rb: Option<Route>, ia: HostInfo, ib: HostInfo)
  {
    && ga < |groups| && gb < |groups| && a in groups[ga].targets && b in groups[gb].targets
    && Placed(setup, a, ra, ia) && Placed(setup, b, rb, ib)
  }

  /** One host serves two controllers exactly when host, options and instance key agree. */
  lemma SameGroupExactly(setup: Setup, ids: seq<string>, groups: seq<Group>, a: string, b: string, ga: nat, gb: nat,
                         ra: Option<Route>, rb: Option<Route>, ia: HostInfo, ib: HostInfo)
    requires GroupsOf(setup, ids, groups) && TwoPlaced(setup, ids, groups, a, b, ga, gb, ra, rb, ia, ib)
    ensures ga == gb <==>
      && ia.id == ib.id && OptionsOf(setup, ra) == OptionsOf(setup, rb)
      && (if InstanceOf(ra) != "" then InstanceOf(ra) else if ia.separateInstancePerTarget then a else ia.id)
         == (if InstanceOf(rb) != "" then InstanceOf(rb) else if ib.separateInstancePerTarget then b else ib.id)
  {
    GroupFollowsRoute(setup, ids, groups, ga, a, ra, ia);
    GroupFollowsRoute(setup, ids, groups, gb, b, rb, ib);
    assert groups[ga].key == groups[gb].key <==> ga == gb;
  }

  /** Controllers of one shared host under equal options share its instance, unless a route says otherwise. */
  lemma SharedHostIsShared(setup: Setup, ids: seq<string>, groups: seq<Group>, a: string, b: string, ga: nat, gb: nat,
                           ra: Option<Route>, rb: Option<Route>, info: HostInfo)
    requires GroupsOf(setup, ids, groups) && TwoPlaced(setup, ids, groups, a, b, ga, gb, ra, rb, info, info)
    requires !info.separateInstancePerTarget && InstanceOf(ra) == "" && InstanceOf(rb) == ""
    requires OptionsOf(setup, ra) == OptionsOf(setup, rb)
    ensures ga == gb
  {
    SameGroupExactly(setup, ids, groups, a, b, ga, gb, ra, rb, info, info);
  }

  /** Two controllers of a host with an instance each never share one, unless a route says otherwise. */
  lemma SeparateHostsStayApart(setup: Setup, ids: seq<string>, groups: seq<Group>, a: string, b: string,
                               ga: nat, gb: nat, ra: Option<Route>, rb: Option<Route>, ia: HostInfo, ib: HostInfo)
    requires GroupsOf(setup, ids, groups) && TwoPlaced(setup, ids, groups, a, b, ga, gb, ra, rb, ia, ib) && a != b
    requires ia.separateInstancePerTarget && ib.separateInstancePerTarget
    requires InstanceOf(ra) == "" && InstanceOf(rb) == ""
    ensures ga != gb
  {
    SameGroupExactly(setup, ids, groups, a, b, ga, gb, ra, rb, ia, ib);
  }

  // --- order ---

  /** Linking is a filter: it distributes over concatenation and keeps a connected controller. */
  lemma {:induction false} ConnectedSplits(a: seq<string>, b: seq<string>, connected: set<string>)
    ensures Connected(a + b, connected) == Connected(a, connected) + Connected(b, connected)
  {
    if b == [] {
      assert a + b == a;
    } else {
      assert (a + b)[..|a + b| - 1] == a + b[..|b| - 1];
      ConnectedSplits(a, b[..|b| - 1], connected);
    }
  }

  lemma ConnectedOne(id: string, connected: set<string>)
    ensures Connected([id], connected) == if id in connected then [id] else []
  {
    assert [id][..0] == [];
  }

  /** The controllers of `ids` with a given key, in order. */
  function OfKey(setup: Setup, ids: seq<string>, key: Key): seq<string> {
    if ids == [] then []
    else
      var last := ids[|ids| - 1];
      OfKey(setup, ids[..|ids| - 1], key) + if KeyOf(setup, last) == Some(key) then [last] else []
  }

  predicate HasKey(groups: seq<Group>, key: Key) {
    exists g :: 0 <= g < |groups| && groups[g].key == key
  }

  ghost predicate InOrder(setup: Setup, ids: seq<string>, groups: seq<Group>) {
    && (forall g :: 0 <= g < |groups| ==> groups[g].targets == OfKey(setup, ids, groups[g].key))
    && (forall key :: !HasKey(groups, key) ==> OfKey(setup, ids, key) == [])
  }

  /** Groups list their controllers in the order of selection, each group all those of its key. */
  lemma {:induction false} GroupsKeepOrder(setup: Setup, ids: seq<string>)
    requires Distinct(ids) && Grouped(setup, ids).Some?
    ensures InOrder(setup, ids, Grouped(setup, ids).value)
  {
    if ids != [] {
      var front := ids[..|ids| - 1];
      GroupsKeepOrder(setup, front);
      GroupingPartitions(setup, front);
      PlaceKeepsOrder(setup, ids, Grouped(setup, front).value, KeyOf(setup, ids[|ids| - 1]).value);
    }
  }

  lemma KeysStay(groups: seq<Group>, key: Key, id: string, other: Key)
    ensures HasKey(groups, other) ==> HasKey(Place(groups, key, id), other)
  {
    if g :| 0 <= g < |groups| && groups[g].key == other {
      assert Place(groups, key, id)[g].key == other;
    }
  }

  lemma PlaceKeepsOrder(setup: Setup, ids: seq<string>, before: seq<Group>, key: Key)
    requires ids != [] && KeyOf(setup, ids[|ids| - 1]) == Some(key) && InOrder(setup, ids[..|ids| - 1], before)
    requires DistinctKeys(before)
    ensures InOrder(setup, ids, Place(before, key, ids[|ids| - 1]))
  {
    var front, id := ids[..|ids| - 1], ids[|ids| - 1];
    var found, after := FindGroup(before, key, 0), Place(before, key, id);
    if found == |before| {
      assert !HasKey(before, key);
    }
    forall g | 0 <= g < |after| ensures after[g].targets == OfKey(setup, ids, after[g].key) {
      if g < |before| {
        assert before[g].targets == OfKey(setup, front, before[g].key);
      }
    }
    forall other | !HasKey(after, other) ensures OfKey(setup, ids, other) == [] {
      KeysStay(before, key, id, other);
      assert after[found].key == key;
    }
  }
}
