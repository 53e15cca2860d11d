/** The set of protocol servers of one host: one per target, each on the least free port. */
module PortAllocator {
  import opened Points
  import opened FiniteSets

  const LAST_PORT := 65535

  datatype Server = Server(targetId: string, port: nat)

  datatype AddError = NoPorts | StartFailed

  datatype AddResult = Added | AlreadyPresent | Failed(error: AddError)

  predicate PortInUse(servers: seq<Server>, port: nat) {
    exists k :: 0 <= k < |servers| && servers[k].port == port
  }

  predicate HasTarget(servers: seq<Server>, targetId: string) {
    exists k :: 0 <= k < |servers| && servers[k].targetId == targetId
  }

  /** Distinct targets on distinct ports, all at or above the base port. */
  predicate Allocated(base: nat, servers: seq<Server>) {
    && (forall k :: 0 <= k < |servers| ==> base <= servers[k].port <= LAST_PORT)
    && (forall j, k :: 0 <= j < k < |servers| ==>
          servers[j].port != servers[k].port && servers[j].targetId != servers[k].targetId)
  }

  predicate LeastFree(base: nat, servers: seq<Server>, port: nat) {
    && base <= port <= LAST_PORT && !PortInUse(servers, port)
    && forall p :: base <= p < port ==> PortInUse(servers, p)
  }

  function Ports(servers: seq<Server>): (r: set<nat>)
    ensures forall p: nat :: p in r <==> PortInUse(servers, p)
  {
    set k | 0 <= k < |servers| :: servers[k].port
  }

  function PortRange(lo: nat, hi: nat): (r: set<nat>)
    ensures forall p: nat :: p in r <==> lo <= p < hi
    ensures |r| == if lo < hi then hi - lo else 0
    decreases hi - lo
  {
    if lo >= hi then {} else {lo} + PortRange(lo + 1, hi)
  }

  lemma {:induction false} PortCount(servers: seq<Server>)
    ensures |Ports(servers)| <= |servers|
  {
    if servers != [] {
      var n := |servers| - 1;
      PortCount(servers[..n]);
      forall p | p in Ports(servers) ensures p in Ports(servers[..n]) + {servers[n].port} {
        var k :| 0 <= k < |servers| && servers[k].port == p;
        if k < n { assert servers[..n][k].port == p; }
      }
      SubsetIsNoLarger(Ports(servers), Ports(servers[..n]) + {servers[n].port});
    }
  }

  /** Pigeonhole: running out of ports takes at least one server for every port from the base up. */
  lemma NoPortsMeansFull(base: nat, servers: seq<Server>)
    requires base <= LAST_PORT && forall p: nat :: base <= p <= LAST_PORT ==> PortInUse(servers, p)
    ensures |servers| >= 65536 - base
  {
    PortCount(servers);
    SubsetIsNoLarger(PortRange(base, LAST_PORT + 1), Ports(servers));
  }

  /** The first port from `from` on that no server uses. */
  function FirstFree(servers: seq<Server>, from: nat): (r: Option<nat>)
    ensures r.Some? ==> from <= r.value <= LAST_PORT && !PortInUse(servers, r.value)
                        && forall p :: from <= p < r.value ==> PortInUse(servers, p)
    ensures r.None? ==> forall p: nat :: from <= p <= LAST_PORT ==> PortInUse(servers, p)
    decreases LAST_PORT + 1 - from
  {
    if from > LAST_PORT then None
    else if !PortInUse(servers, from) then Some(from)
    else FirstFree(servers, from + 1)
  }

  /** `starts` is whether the new server manages to bind and listen. */
  function AfterAdd(base: nat, servers: seq<Server>, targetId: string, starts: bool): (seq<Server>, AddResult) {
    if HasTarget(servers, targetId) then (servers, AlreadyPresent)
    else
      match FirstFree(servers, base)
      case None => (servers, Failed(NoPorts))
      case Some(port) =>
        if !starts then (servers, Failed(StartFailed)) else (servers + [Server(targetId, port)], Added)
  }

  /** The first server of a target from `from` on, or the number of servers. */
  function TargetIndex(servers: seq<Server>, targetId: string, from: nat): (k: nat)
    requires from <= |servers|
    ensures from <= k <= |servers| && (k < |servers| ==> servers[k].targetId == targetId)
    ensures forall j :: from <= j < k ==> servers[j].targetId != targetId
    decreases |servers| - from
  {
    if from == |servers| || servers[from].targetId == targetId then from
    else TargetIndex(servers, targetId, from + 1)
  }

  function Without(servers: seq<Server>, targetId: string): seq<Server> {
    var k := TargetIndex(servers, targetId, 0);
    if k < |servers| then Cut(servers, k) else servers
  }

  datatype Request = Add(targetId: string, starts: bool) | Remove(targetId: string)

  function Served(base: nat, requests: seq<Request>): seq<Server> {
    if requests == [] then []
    else
      var before := Served(base, requests[..|requests| - 1]);
      match requests[|requests| - 1]
      case Add(targetId, starts) => AfterAdd(base, before, targetId, starts).0
      case Remove(targetId) => Without(before, targetId)
  }

  /** What one addition promises. */
  lemma AddPromises(base: nat, servers: seq<Server>, targetId: string, starts: bool)
    requires base <= LAST_PORT && Allocated(base, servers)
    ensures var (after, r) := AfterAdd(base, servers, targetId, starts);
      && Allocated(base, after)
      && (r == Added ==> exists port :: LeastFree(base, servers, port) && after == servers + [Server(targetId, port)])
      && (r != Added ==> after == servers)
      && (r == Failed(NoPorts) ==> |servers| >= LAST_PORT + 1 - base)
      && (!HasTarget(servers, targetId) && starts && |servers| < LAST_PORT + 1 - base ==> r == Added)
  {
    var free := FirstFree(servers, base);
    if free.None? {
      NoPortsMeansFull(base, servers);
    } else {
      assert LeastFree(base, servers, free.value);
    }
  }

  function Cut(servers: seq<Server>, k: nat): (r: seq<Server>)
    requires k < |servers|
    ensures |r| == |servers| - 1
    ensures forall j :: 0 <= j < |r| ==> r[j] == servers[if j < k then j else j + 1]
  {
    servers[..k] + servers[k + 1..]
  }

  lemma CutKeepsAllocated(base: nat, servers: seq<Server>, k: nat)
    requires k < |servers| && Allocated(base, servers)
    ensures Allocated(base, Cut(servers, k)) && !HasTarget(Cut(servers, k), servers[k].targetId)
  {}

  lemma CutMembers(base: nat, servers: seq<Server>, k: nat)
    requires k < |servers| && Allocated(base, servers)
    ensures forall s :: s in Cut(servers, k) <==> s in servers && s.targetId != servers[k].targetId
  {
    var after := Cut(servers, k);
    forall s | s in servers && s.targetId != servers[k].targetId ensures s in after {
      var j :| 0 <= j < |servers| && servers[j] == s;
      assert after[if j < k then j else j - 1] == s;
    }
    forall s | s in after ensures s in servers && s.targetId != servers[k].targetId {
      var j :| 0 <= j < |after| && after[j] == s;
    }
  }

  /** Removing a target removes that server and no other. */
  lemma RemovePromises(base: nat, servers: seq<Server>, targetId: string)
    requires Allocated(base, servers)
    ensures var after := Without(servers, targetId);
      && Allocated(base, after) && !HasTarget(after, targetId)
      && (forall s :: s in after <==> s in servers && s.targetId != targetId)
      && |after| == |servers| - if HasTarget(servers, targetId) then 1 else 0
  {
    var k := TargetIndex(servers, targetId, 0);
    if k < |servers| {
      CutKeepsAllocated(base, servers, k);
      CutMembers(base, servers, k);
    }
  }

  /** Any sequence of additions and removals keeps targets and ports distinct and in range. */
  lemma {:induction false} AlwaysAllocated(base: nat, requests: seq<Request>)
    requires base <= LAST_PORT
    ensures Allocated(base, Served(base, requests))
  {
    if requests != [] {
      var front := requests[..|requests| - 1];
      AlwaysAllocated(base, front);
      match requests[|requests| - 1]
      case Add(targetId, starts) => AddPromises(base, Served(base, front), targetId, starts);
      case Remove(targetId) => RemovePromises(base, Served(base, front), targetId);
    }
  }

  class ServerSet {
    const basePort: nat
    var servers: seq<Server>

    constructor (basePort: nat)
      ensures this.basePort == basePort && servers == []
    {
      this.basePort := basePort;
      servers := [];
    }

    method NextServerIndex() returns (index: Option<nat>)
      requires basePort <= LAST_PORT
      ensures index.Some? ==> FirstFree(servers, basePort) == Some(basePort + index.value)
      ensures index.None? ==> FirstFree(servers, basePort) == None
    {
      var availablePortCount := LAST_PORT - basePort + 1;
      var i := 0;
      while i < availablePortCount
        invariant 0 <= i <= availablePortCount
        invariant FirstFree(servers, basePort) == FirstFree(servers, basePort + i)
      {
        var candidate := basePort + i;
        var inUse := false;
        for k := 0 to |servers|
          invariant inUse <==> exists j :: 0 <= j < k && servers[j].port == candidate
        {
          if servers[k].port == candidate {
            inUse := true;
          }
        }
        assert inUse <==> PortInUse(servers, candidate);
        if !inUse {
          return Some(i);
        }
        i := i + 1;
      }
      index := None;
    }

    method FindTarget(targetId: string) returns (k: nat)
      ensures k == TargetIndex(servers, targetId, 0)
    {
      k := 0;
      while k < |servers| && servers[k].targetId != targetId
        invariant 0 <= k <= |servers|
        invariant TargetIndex(servers, targetId, 0) == TargetIndex(servers, targetId, k)
      {
        k := k + 1;
      }
    }

    method AddServer(targetId: string, starts: bool) returns (r: AddResult)
      requires 1 <= basePort <= LAST_PORT
      modifies this`servers
      ensures (servers, r) == AfterAdd(basePort, old(servers), targetId, starts)
    {
      var k := FindTarget(targetId);
      if k < |servers| {
        return AlreadyPresent;
      }
      var index := NextServerIndex();
      if index.None? {
        return Failed(NoPorts);
      }
      if !starts {
        return Failed(StartFailed);
      }
      servers := servers + [Server(targetId, basePort + index.value)];
      r := Added;
    }

    method RemoveServer(targetId: string) returns (ok: bool)
      modifies this`servers
      ensures ok <==> HasTarget(old(servers), targetId)
      ensures servers == Without(old(servers), targetId)
    {
      var k := FindTarget(targetId);
      if k == |servers| {
        return false;
      }
      servers := servers[..k] + servers[k + 1..];
      ok := true;
    }
  }
}
