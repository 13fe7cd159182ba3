/** `NsdHelper`: network service discovery with a single resolver. Found
    services of the Cacophony management type are resolved one at a time; a
    service found while the resolver is busy waits in a FIFO queue, and each
    resolve outcome starts the next queued one or frees the resolver. The
    platform's `NsdManager` appears only as the calls made to it, and the
    subclass hooks `onNsdServiceResolved` / `onNsdServiceLost` as calls too. */
module Nsd {
  /** `NSD_SERVICE_TYPE`. */
  const ServiceType: string := "_cacophonator-management._tcp."

  /** The parts of an `NsdServiceInfo` the helper looks at. */
  datatype Service = Service(name: string, serviceType: string)

  /** What the helper does to the outside world, in order. */
  datatype Call =
    | ResolveService(service: Service)
    | DiscoverServices
    | StopServiceDiscovery
    | ServiceResolvedHook(service: Service)
    | ServiceLostHook(service: Service)

  /** The helper's state: the resolver flag, the pending queue (head first),
      the resolved list, whether a discovery listener is set, and the calls
      made so far. */
  datatype NsdState = NsdState(
    busy: bool,
    pending: seq<Service>,
    resolved: seq<Service>,
    listening: bool,
    log: seq<Call>)

  const Initial := NsdState(false, [], [], false, [])

  /** The resolver is free only when nothing is queued, and only services of
      the right type are queued. */
  predicate Inv(st: NsdState)
  {
    (!st.busy ==> st.pending == []) &&
    forall k :: 0 <= k < |st.pending| ==> st.pending[k].serviceType == ServiceType
  }

  /** The services of `q` whose name differs from `name`, in their order. */
  function WithoutName(q: seq<Service>, name: string): (r: seq<Service>)
    ensures |r| <= |q|
    ensures forall x :: x in r ==> x in q && x.name != name
    ensures forall x :: x in q && x.name != name ==> x in r
  {
    if q == [] then []
    else
      var last := q[|q| - 1];
      var rest := WithoutName(q[..|q| - 1], name);
      assert forall x :: x in q ==> x in q[..|q| - 1] || x == last by {
        forall x | x in q ensures x in q[..|q| - 1] || x == last {
          var k :| 0 <= k < |q| && q[k] == x;
          if k < |q| - 1 {
            assert q[..|q| - 1][k] == x;
          }
        }
      }
      if last.name == name then rest else rest + [last]
  }

  /** `nsdManager?.resolveService(s, …)`: a call only when there is a manager. */
  function RequestResolve(st: NsdState, hasManager: bool, s: Service): (r: NsdState)
    ensures r.busy == st.busy && r.pending == st.pending && r.resolved == st.resolved
    ensures r.listening == st.listening
    ensures r.log == st.log + (if hasManager then [ResolveService(s)] else [])
  {
    if hasManager then st.(log := st.log + [ResolveService(s)]) else st
  }

  /** `onServiceFound`: a service of the management type leaves the resolver
      busy, and is queued exactly when the resolver already was; nothing else
      is touched and the log only grows. */
  function Found(st: NsdState, hasManager: bool, s: Service): (r: NsdState)
    ensures s.serviceType != ServiceType ==> r == st
    ensures s.serviceType == ServiceType ==> r.busy
    ensures st.pending <= r.pending && |r.pending| <= |st.pending| + 1
    ensures r.pending != st.pending <==> s.serviceType == ServiceType && st.busy
    ensures r.resolved == st.resolved && r.listening == st.listening && st.log <= r.log
  {
    if s.serviceType != ServiceType then st
    else if !st.busy then RequestResolve(st.(busy := true), hasManager, s)
    else st.(pending := st.pending + [s])
  }

  /** `resolveNextInQueue`: the queue head is sent to be resolved and
      removed, or an empty queue frees the resolver. */
  function Next(st: NsdState, hasManager: bool): (r: NsdState)
    ensures st.pending == [] ==> !r.busy && r.pending == [] && r.log == st.log
    ensures st.pending != [] ==> r.busy == st.busy && [st.pending[0]] + r.pending == st.pending
    ensures st.pending != [] && hasManager ==> r.log == st.log + [ResolveService(st.pending[0])]
    ensures r.resolved == st.resolved && r.listening == st.listening
  {
    if st.pending != [] then RequestResolve(st.(pending := st.pending[1..]), hasManager, st.pending[0])
    else st.(busy := false)
  }

  /** `onServiceResolved`: record, hand to the subclass, move on. */
  function Resolved(st: NsdState, hasManager: bool, s: Service): (r: NsdState)
    ensures r.resolved == st.resolved + [s] && r.listening == st.listening
    ensures st.log + [ServiceResolvedHook(s)] <= r.log
    ensures |r.pending| == if st.pending == [] then 0 else |st.pending| - 1
  {
    Next(st.(resolved := st.resolved + [s], log := st.log + [ServiceResolvedHook(s)]), hasManager)
  }

  /** `onServiceLost`: forget the name in both lists, then tell the subclass. */
  function Lost(st: NsdState, s: Service): (r: NsdState)
    ensures forall x :: x in r.pending ==> x in st.pending && x.name != s.name
    ensures forall x :: x in r.resolved ==> x in st.resolved && x.name != s.name
    ensures r.busy == st.busy && r.listening == st.listening
    ensures r.log == st.log + [ServiceLostHook(s)]
  {
    st.(pending := WithoutName(st.pending, s.name),
        resolved := WithoutName(st.resolved, s.name),
        log := st.log + [ServiceLostHook(s)])
  }

  /** `stopDiscovery`: no listener afterwards; without one it does nothing. */
  function Stop(st: NsdState, hasManager: bool): (r: NsdState)
    ensures !r.listening
    ensures !st.listening ==> r == st
    ensures r.busy == st.busy && r.pending == st.pending && r.resolved == st.resolved
    ensures st.log <= r.log && |r.log| <= |st.log| + 1
  {
    if !st.listening then st
    else st.(listening := false, log := st.log + (if hasManager then [StopServiceDiscovery] else []))
  }

  /** `discoverServices`: stop any discovery, set a new listener, start. */
  function Discover(st: NsdState, hasManager: bool): (r: NsdState)
    ensures r.listening
    ensures r.busy == st.busy && r.pending == st.pending && r.resolved == st.resolved
    ensures st.log <= r.log
    ensures hasManager ==> |r.log| > 0 && r.log[|r.log| - 1] == DiscoverServices
  {
    var t := Stop(st, hasManager);
    t.(listening := true, log := t.log + (if hasManager then [DiscoverServices] else []))
  }

  /** A service of another type changes nothing; one of the right type either
      takes the free resolver, which is then busy, and is sent to be resolved,
      or joins the end of the queue when the resolver is busy. */
  lemma FoundCases(st: NsdState, hasManager: bool, s: Service)
    ensures s.serviceType != ServiceType ==> Found(st, hasManager, s) == st
    ensures s.serviceType == ServiceType && !st.busy ==>
      Found(st, hasManager, s) ==
      st.(busy := true, log := st.log + (if hasManager then [ResolveService(s)] else []))
    ensures s.serviceType == ServiceType && st.busy ==>
      Found(st, hasManager, s) == st.(pending := st.pending + [s])
  {
  }

  /** Every step keeps the invariant. */
  lemma StepsKeepInv(st: NsdState, hasManager: bool, s: Service)
    requires Inv(st)
    ensures Inv(Found(st, hasManager, s))
    ensures Inv(Next(st, hasManager)) && Inv(Resolved(st, hasManager, s))
    ensures Inv(Lost(st, s))
    ensures Inv(Stop(st, hasManager)) && Inv(Discover(st, hasManager))
  {
    var p := WithoutName(st.pending, s.name);
    forall k | 0 <= k < |p| ensures p[k].serviceType == ServiceType {
      assert p[k] in p;
    }
  }

  /** Only `resolveNextInQueue` frees the resolver, and only on an empty
      queue; when it takes a service from the queue the resolver stays busy. */
  lemma BusyClearedOnlyWhenQueueEmpty(st: NsdState, hasManager: bool, s: Service)
    requires Inv(st)
    ensures Next(st, hasManager).busy <==> st.pending != []
    ensures st.busy ==> Found(st, hasManager, s).busy && Lost(st, s).busy
    ensures st.busy ==> Stop(st, hasManager).busy && Discover(st, hasManager).busy
    ensures Resolved(st, hasManager, s).busy <==> st.pending != []
  {
  }

  /** A service of another type is never queued or sent to be resolved. */
  lemma ForeignTypeIgnored(st: NsdState, hasManager: bool, s: Service)
    requires s.serviceType != ServiceType
    ensures Found(st, hasManager, s).pending == st.pending
    ensures Found(st, hasManager, s).log == st.log
  {
  }

  /** A successful resolve appends exactly that service to the resolved list. */
  lemma ResolvedAppends(st: NsdState, hasManager: bool, s: Service)
    ensures Resolved(st, hasManager, s).resolved == st.resolved + [s]
  {
  }

  /** After `onServiceLost(s)` nothing pending or resolved has `s`'s name,
      and every other entry is still there. */
  lemma LostForgetsName(st: NsdState, s: Service)
    ensures forall x :: x in Lost(st, s).pending ==> x.name != s.name
    ensures forall x :: x in Lost(st, s).resolved ==> x.name != s.name
    ensures forall x :: x in st.pending && x.name != s.name ==> x in Lost(st, s).pending
    ensures forall x :: x in st.resolved && x.name != s.name ==> x in Lost(st, s).resolved
  {
  }

  /** `stopDiscovery` leaves no listener, and a second call does nothing. */
  lemma StopIdempotent(st: NsdState, hasManager: bool)
    ensures !Stop(st, hasManager).listening
    ensures Stop(Stop(st, hasManager), hasManager) == Stop(st, hasManager)
  {
  }

  /** `k` resolve outcomes in a row (each running `resolveNextInQueue`). */
  function NextN(st: NsdState, hasManager: bool, k: nat): NsdState
  {
    if k == 0 then st else Next(NextN(st, hasManager, k - 1), hasManager)
  }

  /** The resolve calls for a list of services, in order. */
  function ResolveCalls(q: seq<Service>): (r: seq<Call>)
    ensures |r| == |q|
    ensures forall i :: 0 <= i < |q| ==> r[i] == ResolveService(q[i])
  {
    if q == [] then [] else ResolveCalls(q[..|q| - 1]) + [ResolveService(q[|q| - 1])]
  }

  /** The queue is served first in, first out: after `k` outcomes the first
      `k` queued services have been sent to be resolved in queue order, and
      the rest are still waiting. */
  lemma {:induction false} QueueServedInOrder(st: NsdState, k: nat)
    requires k <= |st.pending|
    ensures NextN(st, true, k).pending == st.pending[k..]
    ensures NextN(st, true, k).log == st.log + ResolveCalls(st.pending[..k])
    ensures NextN(st, true, k).resolved == st.resolved
  {
    if k > 0 {
      QueueServedInOrder(st, k - 1);
      assert st.pending[k - 1..][1..] == st.pending[k..];
      assert st.pending[..k][..k - 1] == st.pending[..k - 1];
    }
  }

  /** Services found one after another while the resolver is busy are queued
      in the order they were found. */
  function FoundAll(st: NsdState, hasManager: bool, ss: seq<Service>): NsdState
  {
    if ss == [] then st else Found(FoundAll(st, hasManager, ss[..|ss| - 1]), hasManager, ss[|ss| - 1])
  }

  lemma {:induction false} FoundWhileBusyQueues(st: NsdState, hasManager: bool, ss: seq<Service>)
    requires st.busy
    requires forall i :: 0 <= i < |ss| ==> ss[i].serviceType == ServiceType
    ensures FoundAll(st, hasManager, ss).pending == st.pending + ss
    ensures FoundAll(st, hasManager, ss).busy && FoundAll(st, hasManager, ss).log == st.log
  {
    if ss != [] {
      FoundWhileBusyQueues(st, hasManager, ss[..|ss| - 1]);
      assert ss[..|ss| - 1] + [ss[|ss| - 1]] == ss;
    }
  }

  /** One iterator walk of `onServiceLost`: removes every service carrying
      `name`, keeping the others in order. */
  method DropName(q: seq<Service>, name: string) returns (kept: seq<Service>)
    ensures kept == WithoutName(q, name)
  {
    kept := [];
    var i := 0;
    while i < |q|
      invariant 0 <= i <= |q|
      invariant kept == WithoutName(q[..i], name)
    {
      assert q[..i + 1][..i] == q[..i];
      if q[i].name != name {
        kept := kept + [q[i]];
      }
      i := i + 1;
    }
    assert q[..i] == q;
  }

  /** The helper object. `hasManager` says whether the platform returned an
      `NsdManager`; without one every call to it is skipped. */
  class NsdHelper {
    const hasManager: bool
    var busy: bool
    var pending: seq<Service>
    var resolved: seq<Service>
    var listening: bool
    var log: seq<Call>

    function State(): NsdState
      reads this
    {
      NsdState(busy, pending, resolved, listening, log)
    }

    constructor (hasManager: bool)
      ensures this.hasManager == hasManager && State() == Initial && Inv(State())
    {
      this.hasManager := hasManager;
      busy := false;
      pending := [];
      resolved := [];
      listening := false;
      log := [];
    }

    method ResolveService(s: Service)
      modifies this
      ensures State() == RequestResolve(old(State()), hasManager, s)
    {
      if hasManager {
        log := log + [Call.ResolveService(s)];
      }
    }

    /** `onServiceFound`: the compare-and-set on the busy flag decides between
        resolving now and queueing. */
    method OnServiceFound(s: Service)
      modifies this
      ensures State() == Found(old(State()), hasManager, s)
    {
      if s.serviceType == ServiceType {
        if !busy {
          busy := true;
          ResolveService(s);
        } else {
          pending := pending + [s];
        }
      }
    }

    /** `onServiceLost`: walks the queue and then the resolved list, dropping
        every entry with the lost service's name, then calls the hook. */
    method OnServiceLost(s: Service)
      modifies this
      ensures State() == Lost(old(State()), s)
    {
      pending := DropName(pending, s.name);
      resolved := DropName(resolved, s.name);
      log := log + [ServiceLostHook(s)];
    }

    /** `onServiceResolved`. */
    method OnServiceResolved(s: Service)
      modifies this
      ensures State() == Resolved(old(State()), hasManager, s)
    {
      resolved := resolved + [s];
      log := log + [ServiceResolvedHook(s)];
      ResolveNextInQueue();
    }

    /** `onResolveFailed`: only moves on to the next queued service. */
    method OnResolveFailed(s: Service)
      modifies this
      ensures State() == Next(old(State()), hasManager)
    {
      ResolveNextInQueue();
    }

    /** `resolveNextInQueue`: polls the queue head, or frees the resolver. */
    method ResolveNextInQueue()
      modifies this
      ensures State() == Next(old(State()), hasManager)
    {
      if pending != [] {
        var next := pending[0];
        pending := pending[1..];
        ResolveService(next);
      } else {
        busy := false;
      }
    }

    /** `stopDiscovery`. */
    method StopDiscovery()
      modifies this
      ensures State() == Stop(old(State()), hasManager)
    {
      if listening {
        if hasManager {
          log := log + [StopServiceDiscovery];
        }
        listening := false;
      }
    }

    /** `discoverServices`. */
    method DiscoverServices()
      modifies this
      ensures State() == Discover(old(State()), hasManager)
    {
      StopDiscovery();
      listening := true;
      if hasManager {
        log := log + [Call.DiscoverServices];
      }
    }

    /** `onStartDiscoveryFailed`: stops discovery. */
    method OnStartDiscoveryFailed()
      modifies this
      ensures State() == Stop(old(State()), hasManager)
    {
      StopDiscovery();
    }

    /** `onStopDiscoveryFailed`: asks the manager to stop again; the listener
        field is left as it is. */
    method OnStopDiscoveryFailed()
      modifies this
      ensures State() == old(State()).(log := old(log) + (if hasManager then [StopServiceDiscovery] else []))
    {
      if hasManager {
        log := log + [StopServiceDiscovery];
      }
    }
  }
}
