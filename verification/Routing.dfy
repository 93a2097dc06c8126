/**
 The way of a request: through the Service in front of the proxy, a server of the proxy and its reverse proxy,
 and the Service that the reverse proxy names, to the pods behind that Service.
 */
module Routing {
  import opened Types
  import opened Text
  import opened PortWiring

  type Labels = map<string, string>

  datatype Pods = Pods(namespace: string, labels: Labels)

  /** A Service forwards each of its ports to the pods of its namespace that carry its labels. */
  datatype ServiceObject = ServiceObject(pods: Pods, ports: seq<ServicePort>)

  /** The Services of the cluster by host name. */
  type Services = map<string, ServiceObject>

  function ManagedHost(hs: Service): string {
    Host(ManagedName(hs), hs.namespace)
  }

  function FrontHost(hs: Service): string {
    Host(hs.name, hs.namespace)
  }

  function ForwardHost(hs: Service): string
    requires App(hs).Some?
  {
    Host(BackendName(hs, App(hs).value), hs.namespace)
  }

  lemma HostsDiffer(a: string, b: string, namespace: string)
    ensures Host(a, namespace) == Host(b, namespace) <==> a == b
  {
    if Host(a, namespace) == Host(b, namespace) {
      assert |a| == |b|;
      assert a == Host(a, namespace)[..|a|] == Host(b, namespace)[..|b|] == b;
    }
  }

  // ------------------------------------------------------------ the two Services of the controller

  predicate Disabled(hs: Service) {
    hs.backend.Some? && hs.backend.value.enabled == Some(false)
  }

  function ProxyLabels(hs: Service): Labels {
    map["app.kubernetes.io/name" := "wake-proxy", "app.kubernetes.io/instance" := hs.name]
  }

  ghost predicate IsBack(hs: Service, labels: Labels, s: ServiceObject) {
    s.pods == Pods(hs.namespace, labels) && ServesBackend(Declared(hs), s.ports)
  }

  ghost predicate IsFront(hs: Service, s: ServiceObject) {
    s.pods == Pods(hs.namespace, ProxyLabels(hs)) && ServesProxy(Declared(hs), s.ports)
  }

  /** What the API server answers: the labels of the main component's pods, and whether each write is accepted. */
  datatype Answers = Answers(podSelector: Option<Labels>, backWritten: bool, frontWritten: bool)

  predicate BackSucceeds(hs: Service, a: Answers) {
    Disabled(hs) || (App(hs).Some? && a.podSelector.Some? && a.podSelector.value != map[] && a.backWritten)
  }

  /** Both Services are in place, the managed one unless it is disabled; all others are as before. */
  ghost predicate Ensured(hs: Service, labels: Labels, before: Services, after: Services) {
    && FrontHost(hs) in after && IsFront(hs, after[FrontHost(hs)])
    && (!Disabled(hs) ==> ManagedHost(hs) in after && IsBack(hs, labels, after[ManagedHost(hs)]))
    && forall h | h != FrontHost(hs) && (Disabled(hs) || h != ManagedHost(hs)) ::
         (h in after <==> h in before) && (h in after ==> after[h] == before[h])
  }

  class ServiceWriter {
    var services: Services

    constructor (services: Services)
      ensures this.services == services
    {
      this.services := services;
    }

    method EnsureBackendService(hs: Service, a: Answers) returns (ok: bool)
      modifies this
      ensures ok <==> BackSucceeds(hs, a)
      ensures hs.backend.Some? && hs.backend.value.enabled == Some(false) ==> ok && services == old(services)
      ensures hs.backend.None? || hs.backend.value.enabled != Some(false) ==>
                && (ok <==> App(hs).Some? && a.podSelector.Some? && a.podSelector.value != map[] && a.backWritten)
                && (ok ==>
                      && hs.name + "-actual" + "." + hs.namespace in services
                      && services[hs.name + "-actual" + "." + hs.namespace].pods ==
                         Pods(hs.namespace, a.podSelector.value))
      ensures if ok && !Disabled(hs)
              then && ManagedHost(hs) in services && IsBack(hs, a.podSelector.value, services[ManagedHost(hs)])
                   && services == old(services)[ManagedHost(hs) := services[ManagedHost(hs)]]
              else services == old(services)
    {
      if hs.backend.Some? && hs.backend.value.enabled.Some? && !hs.backend.value.enabled.value {
        return true;
      }
      var app := FindAppComponent(hs);
      if app.None? || a.podSelector.None? || |a.podSelector.value| == 0 || !a.backWritten {
        return false;
      }
      var ports := BuildBackendServicePorts(hs);
      services := services[ManagedHost(hs) := ServiceObject(Pods(hs.namespace, a.podSelector.value), ports[..])];
      return true;
    }

    method EnsureProxyService(hs: Service, a: Answers) returns (ok: bool)
      modifies this
      ensures ok <==> a.frontWritten
      ensures ok ==>
                && hs.name + "." + hs.namespace in services
                && services[hs.name + "." + hs.namespace].pods ==
                   Pods(hs.namespace,
                        map["app.kubernetes.io/name" := "wake-proxy", "app.kubernetes.io/instance" := hs.name])
      ensures if ok
              then && FrontHost(hs) in services && IsFront(hs, services[FrontHost(hs)])
                   && services == old(services)[FrontHost(hs) := services[FrontHost(hs)]]
              else services == old(services)
    {
      if !a.frontWritten {
        return false;
      }
      var ports := BuildProxyServicePorts(hs);
      services := services[FrontHost(hs) := ServiceObject(Pods(hs.namespace, ProxyLabels(hs)), ports[..])];
      return true;
    }

    /** The managed Service first; without it, unless it is disabled, the proxy's Service is not written either. */
    method EnsureServices(hs: Service, a: Answers) returns (ok: bool)
      modifies this
      ensures ok <==> BackSucceeds(hs, a) && a.frontWritten
      ensures ok ==>
                Ensured(hs, if a.podSelector.Some? then a.podSelector.value else map[], old(services), services)
    {
      HostsDiffer(hs.name, ManagedName(hs), hs.namespace);
      ok := EnsureBackendService(hs, a);
      if ok {
        ok := EnsureProxyService(hs, a);
      }
    }
  }

  // ------------------------------------------------------------ which Service the proxy forwards to

  /** Somebody else's Service, or one left over from earlier, has the name that the proxy forwards to. */
  ghost predicate Foreign(hs: Service, before: Services) {
    && App(hs).Some? && ForwardHost(hs) in before
    && ForwardHost(hs) != FrontHost(hs) && (Disabled(hs) || ForwardHost(hs) != ManagedHost(hs))
  }

  /** The controller keeps the Service that the proxy forwards to. */
  predicate ForwardsToManaged(hs: Service)
    requires App(hs).Some?
  {
    !Disabled(hs) && (hs.backend.Some? || App(hs).value.ref.name == ManagedName(hs))
  }

  lemma KeptInCluster(
    hs: Service, env: seq<EnvVar>, r: Option<Config>, labels: Labels, before: Services, after: Services)
    requires Describes(hs, env) && Loads(env, r) && r.Some?
    requires Ensured(hs, labels, before, after) && !Foreign(hs, before) && labels != ProxyLabels(hs)
    ensures r.value.backendHost in after && IsBack(hs, labels, after[r.value.backendHost])
            <==> App(hs).Some? && ForwardsToManaged(hs)
  {
    AcceptedIff(hs, env, r);
    HostsDiffer(BackendName(hs, App(hs).value), ManagedName(hs), hs.namespace);
  }

  lemma ManagedIsNotForeign(hs: Service, before: Services)
    requires App(hs).Some? && ForwardsToManaged(hs)
    ensures !Foreign(hs, before)
  {
  }

  /** What the controller makes of an empty cluster. */
  lemma EmptyCluster(hs: Service, labels: Labels) returns (after: Services)
    ensures Ensured(hs, labels, map[], after)
  {
    var specs := Declared(hs);
    var front := seq(|specs|, i requires 0 <= i < |specs| =>
      ServicePort(specs[i].name, Protocol(specs[i]), specs[i].port, FromInt(specs[i].port), 0));
    var back := seq(|specs|, i requires 0 <= i < |specs| =>
      ServicePort(specs[i].name, Protocol(specs[i]), specs[i].port, Target(specs[i]), specs[i].nodePort));
    HostsDiffer(hs.name, ManagedName(hs), hs.namespace);
    after := map[FrontHost(hs) := ServiceObject(Pods(hs.namespace, ProxyLabels(hs)), front)];
    if !Disabled(hs) {
      after := after[ManagedHost(hs) := ServiceObject(Pods(hs.namespace, labels), back)];
    }
  }

  /**
   In every cluster the proxy forwards to a Service that the controller keeps, exactly when that Service is not
   disabled and either there is a backend section or the main component carries the managed name.
   */
  lemma ForwardsToManagedIff(hs: Service, env: seq<EnvVar>, r: Option<Config>, labels: Labels)
    requires Describes(hs, env) && Loads(env, r) && r.Some? && labels != ProxyLabels(hs)
    ensures (forall before, after | Ensured(hs, labels, before, after) ::
               r.value.backendHost in after && IsBack(hs, labels, after[r.value.backendHost]))
            <==> App(hs).Some? && ForwardsToManaged(hs)
  {
    if App(hs).Some? && ForwardsToManaged(hs) {
      forall before, after | Ensured(hs, labels, before, after)
        ensures r.value.backendHost in after && IsBack(hs, labels, after[r.value.backendHost])
      {
        ManagedIsNotForeign(hs, before);
        KeptInCluster(hs, env, r, labels, before, after);
      }
    } else {
      var after := EmptyCluster(hs, labels);
      KeptInCluster(hs, env, r, labels, map[], after);
    }
  }

  /** A disabled backend: the proxy loads and forwards to the managed name, where the controller keeps nothing. */
  lemma DisabledForwardsNowhere(
    hs: Service, env: seq<EnvVar>, r: Option<Config>, labels: Labels, after: Services)
    requires hs.name == "web" && hs.backend == Some(BackendSpec(Some(false), []))
    requires hs.components == [Component("app", Deployment, ResourceRef("app", ""), None, [])]
    requires Describes(hs, env) && Loads(env, r) && Ensured(hs, labels, map[], after)
    ensures r.Some? && r.value.backendHost == ManagedHost(hs) && r.value.backendHost !in after
  {
    assert hs.components[0].kind in WORKLOADS;
    AcceptedIff(hs, env, r);
    HostsDiffer(ManagedName(hs), hs.name, hs.namespace);
  }

  // ------------------------------------------------------------ the servers of the proxy

  datatype Backend = Backend(host: string, port: Int32)

  /** One reverse proxy for each configured port. */
  method ReverseProxies(config: Config) returns (proxies: map<Int32, Backend>)
    ensures proxies.Keys == set p | p in config.backendPorts
    ensures forall p | p in proxies :: proxies[p] == Backend(config.backendHost, p)
  {
    proxies := map[];
    for i := 0 to |config.backendPorts|
      invariant proxies.Keys == set p | p in config.backendPorts[..i]
      invariant forall p | p in proxies :: proxies[p] == Backend(config.backendHost, p)
    {
      var port := config.backendPorts[i];
      proxies := proxies[port := Backend(config.backendHost, port)];
    }
    assert config.backendPorts[..|config.backendPorts|] == config.backendPorts;
  }

  /** A server is refused its address, which ends the proxy, or is bound to one. */
  datatype Bind = Refused | Bound(address: Int32)

  predicate IsPort(p: Int32) {
    1 <= p <= 65535
  }

  function Taken(binds: seq<Bind>): set<Int32> {
    set k | 0 <= k < |binds| && binds[k].Bound? :: binds[k].address
  }

  /** A number that is no port is refused, or makes no URL; zero asks for any free address. */
  predicate Allows(p: Int32, taken: set<Int32>, b: Bind) {
    if IsPort(p) then b == if p in taken then Refused else Bound(p)
    else if p == 0 then (b.Bound? ==> IsPort(b.address) && b.address !in taken)
    else b == Refused
  }

  /** One server per entry of the list; `starts` are the entries in the order in which the servers start. */
  ghost predicate Starts(ports: seq<Int32>, starts: seq<Int32>, binds: seq<Bind>) {
    && multiset(starts) == multiset(ports) && |binds| == |starts|
    && forall k | 0 <= k < |starts| :: Allows(starts[k], Taken(binds[..k]), binds[k])
  }

  predicate Servable(ports: seq<Int32>) {
    forall p | p in ports :: IsPort(p) && multiset(ports)[p] == 1
  }

  lemma BindAt(ports: seq<Int32>, starts: seq<Int32>, binds: seq<Bind>, j: nat, k: nat)
    requires Starts(ports, starts, binds) && j < k < |starts| && binds[j].Bound? && binds[k].Bound?
    ensures binds[j] != binds[k]
  {
    assert binds[..k][j] == binds[j];
    assert binds[j].address in Taken(binds[..k]);
    assert Allows(starts[k], Taken(binds[..k]), binds[k]);
  }

  /** No two servers are bound to the same address. */
  lemma AddressesDiffer(ports: seq<Int32>, starts: seq<Int32>, binds: seq<Bind>, j: nat, k: nat)
    requires Starts(ports, starts, binds) && j < |starts| && k < |starts| && j != k
    requires binds[j].Bound? && binds[k].Bound?
    ensures binds[j].address != binds[k].address
  {
    BindAt(ports, starts, binds, if j < k then j else k, if j < k then k else j);
  }

  lemma OccursTwice(s: seq<Int32>, j: nat, k: nat)
    requires j < k < |s| && s[j] == s[k]
    ensures multiset(s)[s[k]] >= 2
  {
    assert s == s[..k] + [s[k]] + s[k + 1..];
    assert s[..k][j] == s[k];
  }

  lemma {:induction false} OccursOnce(s: seq<Int32>, p: Int32)
    requires p in s && multiset(s)[p] != 1
    ensures exists j, k :: 0 <= j < k < |s| && s[j] == p == s[k]
  {
    var k :| 0 <= k < |s| && s[k] == p;
    var rest := s[..k] + s[k + 1..];
    assert s == s[..k] + [s[k]] + s[k + 1..];
    assert multiset(rest)[p] > 0;
    var j :| 0 <= j < |rest| && rest[j] == p;
    assert s[if j < k then j else j + 1] == p;
  }

  /** With servable ports each server gets its own address, whatever the order of the starts. */
  lemma {:induction false} ServableIsBound(ports: seq<Int32>, starts: seq<Int32>, binds: seq<Bind>, k: nat)
    requires Starts(ports, starts, binds) && Servable(ports) && k < |starts|
    ensures binds[k] == Bound(starts[k])
    decreases k
  {
    assert starts[k] in multiset(ports);
    if starts[k] in Taken(binds[..k]) {
      var j :| 0 <= j < k && binds[..k][j].Bound? && binds[..k][j].address == starts[k];
      ServableIsBound(ports, starts, binds, j);
      OccursTwice(starts, j, k);
    }
    assert Allows(starts[k], Taken(binds[..k]), binds[k]);
  }

  lemma NamedIsPort(ports: seq<Int32>, starts: seq<Int32>, binds: seq<Bind>, k: nat)
    requires Starts(ports, starts, binds) && k < |starts| && starts[k] != 0 && binds[k] != Refused
    ensures IsPort(starts[k]) && binds[k] == Bound(starts[k])
  {
    assert Allows(starts[k], Taken(binds[..k]), binds[k]);
  }

  /**
   The proxy goes on running, every server on the port it is configured for, exactly when the configured numbers
   are ports and none is repeated.
   */
  lemma ServesAllIff(ports: seq<Int32>, starts: seq<Int32>, binds: seq<Bind>)
    requires Starts(ports, starts, binds)
    ensures Refused !in binds && 0 !in ports <==> Servable(ports)
    ensures Servable(ports) <==> forall k | 0 <= k < |starts| :: binds[k] == Bound(starts[k]) && starts[k] != 0
  {
    if Servable(ports) {
      forall k | 0 <= k < |starts|
        ensures binds[k] == Bound(starts[k])
      {
        ServableIsBound(ports, starts, binds, k);
      }
      assert forall k | 0 <= k < |starts| :: starts[k] in multiset(ports);
    } else {
      var p :| p in ports && !(IsPort(p) && multiset(ports)[p] == 1);
      assert p in multiset(starts);
      NotServed(ports, starts, binds, p);
    }
  }

  lemma NotServed(ports: seq<Int32>, starts: seq<Int32>, binds: seq<Bind>, p: Int32)
    requires Starts(ports, starts, binds) && p in starts && !(IsPort(p) && multiset(starts)[p] == 1)
    ensures p == 0 || Refused in binds
    ensures exists k :: 0 <= k < |starts| && (binds[k] == Refused || starts[k] == 0)
  {
    var i :| 0 <= i < |starts| && starts[i] == p;
    if p != 0 && IsPort(p) {
      OccursOnce(starts, p);
      var j, k :| 0 <= j < k < |starts| && starts[j] == p == starts[k];
      if binds[j] != Refused && binds[k] != Refused {
        NamedIsPort(ports, starts, binds, j);
        NamedIsPort(ports, starts, binds, k);
        AddressesDiffer(ports, starts, binds, j, k);
      }
    } else if p != 0 {
      assert Allows(starts[i], Taken(binds[..i]), binds[i]);
    }
  }

  /** While no server has been refused, the server for entry `p` answers on address `a`. */
  ghost predicate Listens(starts: seq<Int32>, binds: seq<Bind>, a: Int32, p: Int32)
    requires |binds| == |starts|
  {
    Refused !in binds && exists k :: 0 <= k < |starts| && starts[k] == p && binds[k] == Bound(a)
  }

  /** On the address of a configured port only the server for that port answers. */
  lemma ListenerIsNamed(ports: seq<Int32>, starts: seq<Int32>, binds: seq<Bind>, q: Int32, p: Int32)
    requires Starts(ports, starts, binds) && q in ports
    ensures Listens(starts, binds, q, p) <==> p == q && q != 0 && Refused !in binds
  {
    assert q in multiset(starts);
    var k :| 0 <= k < |starts| && starts[k] == q;
    assert binds[k] in binds;
    if Refused !in binds && q != 0 {
      NamedIsPort(ports, starts, binds, k);
    }
    if Listens(starts, binds, q, p) {
      var j :| 0 <= j < |starts| && starts[j] == p && binds[j] == Bound(q);
      assert Allows(starts[j], Taken(binds[..j]), binds[j]);
      if j != k {
        AddressesDiffer(ports, starts, binds, j, k);
      }
    }
  }

  // ------------------------------------------------------------ the whole way

  /** A proxy that has loaded its configuration and started its servers. */
  datatype Running = Running(
    config: Config,
    proxies: map<Int32, Backend>,
    starts: seq<Int32>,
    binds: seq<Bind>)

  ghost predicate Runs(r: Option<Config>, w: Option<Running>) {
    && (w.Some? <==> r.Some?)
    && (w.Some? ==>
          && w.value.config == r.value
          && w.value.proxies.Keys == (set p | p in r.value.backendPorts)
          && (forall p | p in w.value.proxies :: w.value.proxies[p] == Backend(r.value.backendHost, p))
          && Starts(r.value.backendPorts, w.value.starts, w.value.binds))
  }

  ghost predicate Routes(ports: seq<ServicePort>, q: Int32, t: IntOrString) {
    exists i | 0 <= i < |ports| :: ports[i].port == q && ports[i].targetPort == t
  }

  /** The Service with this host name sends traffic for port `q` to target `t` of these pods. */
  ghost predicate Forwards(services: Services, host: string, q: Int32, pods: Pods, t: IntOrString) {
    host in services && services[host].pods == pods && Routes(services[host].ports, q, t)
  }

  /** A request to port `q` of the service is handled by the server for entry `p` of the proxy. */
  ghost predicate Enters(hs: Service, services: Services, w: Running, q: Int32, p: Int32)
    requires |w.binds| == |w.starts|
  {
    exists a | Listens(w.starts, w.binds, a, p) ::
      Forwards(services, FrontHost(hs), q, Pods(hs.namespace, ProxyLabels(hs)), FromInt(a))
  }

  /** A request to port `q` of the service gets through the proxy to target `t` of these pods. */
  ghost predicate Arrives(
    hs: Service, services: Services, w: Option<Running>, q: Int32, pods: Pods, t: IntOrString)
    requires w.Some? ==> |w.value.binds| == |w.value.starts|
  {
    w.Some? && exists p | p in w.value.proxies ::
      && Enters(hs, services, w.value, q, p)
      && Forwards(services, w.value.proxies[p].host, w.value.proxies[p].port, pods, t)
  }

  /** The target of a declared port: the one it names, by number or by name, and otherwise its own number. */
  ghost predicate Declares(specs: seq<PortSpec>, q: Int32, t: IntOrString) {
    exists i | 0 <= i < |specs| ::
      && specs[i].port == q
      && (specs[i].targetPort.intVal != 0 || specs[i].targetPort.strVal != "" ==> t == specs[i].targetPort)
      && (specs[i].targetPort.intVal == 0 && specs[i].targetPort.strVal == "" ==> t == IntOrString(Number, q, ""))
  }

  lemma DeclaresIff(specs: seq<PortSpec>, q: Int32, t: IntOrString)
    ensures Declares(specs, q, t) <==> exists i | 0 <= i < |specs| :: specs[i].port == q && Target(specs[i]) == t
  {
    if i :| 0 <= i < |specs| && specs[i].port == q && Target(specs[i]) == t {
      assert Declares(specs, q, t);
    }
  }

  lemma BackRoutesDeclared(specs: seq<PortSpec>, back: seq<ServicePort>, q: Int32, t: IntOrString)
    requires ServesBackend(specs, back)
    ensures Routes(back, q, t) <==> Declares(specs, q, t)
  {
    DeclaresIff(specs, q, t);
    if Declares(specs, q, t) {
      var i :| 0 <= i < |specs| && specs[i].port == q && Target(specs[i]) == t;
      assert back[i].port == q && back[i].targetPort == t;
    }
    if Routes(back, q, t) {
      var i :| 0 <= i < |back| && back[i].port == q && back[i].targetPort == t;
      assert specs[i].port == q && Target(specs[i]) == t;
    }
  }

  lemma FrontRoutesToItself(specs: seq<PortSpec>, front: seq<ServicePort>, q: Int32, l: Int32)
    requires ServesProxy(specs, front)
    ensures Routes(front, q, FromInt(l)) <==> l == q && q in PortNumbers(specs)
  {
    if l == q && q in PortNumbers(specs) {
      var i :| 0 <= i < |specs| && PortNumbers(specs)[i] == q;
      assert front[i].port == q && front[i].targetPort == FromInt(q);
    }
    if Routes(front, q, FromInt(l)) {
      var i :| 0 <= i < |front| && front[i].port == q && front[i].targetPort == FromInt(l);
      assert PortNumbers(specs)[i] == q;
    }
  }

  lemma EntersIff(hs: Service, labels: Labels, before: Services, after: Services, w: Running, q: Int32, p: Int32)
    requires Ensured(hs, labels, before, after) && Starts(PortNumbers(Declared(hs)), w.starts, w.binds)
    ensures Enters(hs, after, w, q, p) <==>
            p == q && q != 0 && q in PortNumbers(Declared(hs)) && Refused !in w.binds
  {
    var ports, front := PortNumbers(Declared(hs)), after[FrontHost(hs)].ports;
    FrontRoutesToItself(Declared(hs), front, q, q);
    if q in ports {
      ListenerIsNamed(ports, w.starts, w.binds, q, p);
    }
    if Enters(hs, after, w, q, p) {
      var a :| Listens(w.starts, w.binds, a, p)
               && Forwards(after, FrontHost(hs), q, Pods(hs.namespace, ProxyLabels(hs)), FromInt(a));
      FrontRoutesToItself(Declared(hs), front, q, a);
    }
  }

  lemma PassesThroughIff(
    hs: Service, w: Running, host: string, labels: Labels, before: Services, after: Services, q: Int32, pods: Pods,
    t: IntOrString)
    requires Ensured(hs, labels, before, after) && Starts(PortNumbers(Declared(hs)), w.starts, w.binds)
    requires w.proxies.Keys == set p | p in PortNumbers(Declared(hs))
    requires forall p | p in w.proxies :: w.proxies[p] == Backend(host, p)
    ensures Arrives(hs, after, Some(w), q, pods, t) <==>
            Refused !in w.binds && q != 0 && q in PortNumbers(Declared(hs)) && Forwards(after, host, q, pods, t)
  {
    EntersIff(hs, labels, before, after, w, q, q);
    if Arrives(hs, after, Some(w), q, pods, t) {
      var p :| p in w.proxies && Enters(hs, after, w, q, p)
               && Forwards(after, w.proxies[p].host, w.proxies[p].port, pods, t);
      EntersIff(hs, labels, before, after, w, q, p);
    }
  }

  /**
   In any cluster a request gets exactly as far as the Service that the proxy forwards to takes it, for the
   declared ports other than zero and as long as no server of the proxy was refused.
   */
  lemma ArrivesIff(
    hs: Service, env: seq<EnvVar>, r: Option<Config>, w: Option<Running>, labels: Labels,
    before: Services, after: Services, q: Int32, pods: Pods, t: IntOrString)
    requires Describes(hs, env) && Loads(env, r) && Runs(r, w) && Ensured(hs, labels, before, after)
    ensures Arrives(hs, after, w, q, pods, t) <==>
            && w.Some? && Refused !in w.value.binds && q != 0 && q in PortNumbers(Declared(hs))
            && App(hs).Some? && Forwards(after, ForwardHost(hs), q, pods, t)
  {
    AcceptedIff(hs, env, r);
    if w.Some? {
      PassesThroughIff(hs, w.value, ForwardHost(hs), labels, before, after, q, pods, t);
    }
  }

  /** The pods of the main component. */
  function AppPods(hs: Service, labels: Labels): Pods {
    match App(hs)
    case None => Pods("", labels)
    case Some(app) => Pods(if app.ref.namespace == "" then hs.namespace else app.ref.namespace, labels)
  }

  /** The managed Service selects pods of the service's own namespace. */
  predicate SameNamespace(hs: Service)
    requires App(hs).Some?
  {
    App(hs).value.ref.namespace == "" || App(hs).value.ref.namespace == hs.namespace
  }

  /**
   What a spec has to satisfy: a name, a main component in the namespace of the service, ports that can be served,
   and a Service to forward to that the controller keeps.
   */
  predicate Wired(hs: Service) {
    && App(hs).Some? && hs.name != ""
    && (App(hs).value.ref.namespace == "" || App(hs).value.ref.namespace == hs.namespace)
    && (forall p | p in PortNumbers(Declared(hs)) :: 1 <= p <= 65535 && multiset(PortNumbers(Declared(hs)))[p] == 1)
    && !(hs.backend.Some? && hs.backend.value.enabled == Some(false))
    && (hs.backend.Some? || App(hs).value.ref.name == hs.name + "-actual")
  }

  lemma ForwardsToAppIff(
    hs: Service, labels: Labels, before: Services, after: Services, q: Int32, t: IntOrString)
    requires App(hs).Some? && Ensured(hs, labels, before, after)
    requires !Foreign(hs, before) && labels != ProxyLabels(hs)
    ensures Forwards(after, ForwardHost(hs), q, AppPods(hs, labels), t) <==>
            ForwardsToManaged(hs) && SameNamespace(hs) && Declares(Declared(hs), q, t)
  {
    HostsDiffer(BackendName(hs, App(hs).value), ManagedName(hs), hs.namespace);
    if ForwardsToManaged(hs) {
      BackRoutesDeclared(Declared(hs), after[ManagedHost(hs)].ports, q, t);
    }
  }

  /** Requests get through at all: the proxy runs and forwards to a Service in front of the main component. */
  ghost predicate Open(hs: Service, w: Option<Running>) {
    && w.Some? && Refused !in w.value.binds
    && App(hs).Some? && ForwardsToManaged(hs) && SameNamespace(hs)
  }

  lemma DeclaredIsPort(specs: seq<PortSpec>, q: Int32)
    ensures q in PortNumbers(specs) <==> exists t :: Declares(specs, q, t)
  {
    if q in PortNumbers(specs) {
      var i :| 0 <= i < |specs| && PortNumbers(specs)[i] == q;
      DeclaresIff(specs, q, Target(specs[i]));
    }
    if t :| Declares(specs, q, t) {
      DeclaresIff(specs, q, t);
      var i :| 0 <= i < |specs| && specs[i].port == q && Target(specs[i]) == t;
      assert PortNumbers(specs)[i] == q;
    }
  }

  lemma ArrivesAtAppIff(
    hs: Service, env: seq<EnvVar>, r: Option<Config>, w: Option<Running>, labels: Labels,
    before: Services, after: Services, q: Int32, t: IntOrString)
    requires Describes(hs, env) && Loads(env, r) && Runs(r, w) && Ensured(hs, labels, before, after)
    requires !Foreign(hs, before) && labels != ProxyLabels(hs)
    ensures Arrives(hs, after, w, q, AppPods(hs, labels), t) <==>
            Open(hs, w) && q != 0 && Declares(Declared(hs), q, t)
  {
    ArrivesIff(hs, env, r, w, labels, before, after, q, AppPods(hs, labels), t);
    DeclaredIsPort(Declared(hs), q);
    if App(hs).Some? {
      ForwardsToAppIff(hs, labels, before, after, q, t);
    }
  }

  lemma WiredIff(hs: Service)
    ensures Wired(hs) <==>
            && App(hs).Some? && hs.name != "" && SameNamespace(hs) && Servable(PortNumbers(Declared(hs)))
            && ForwardsToManaged(hs)
  {
  }

  lemma OpenIff(hs: Service, env: seq<EnvVar>, r: Option<Config>, w: Option<Running>)
    requires Describes(hs, env) && Loads(env, r) && Runs(r, w)
    ensures Open(hs, w) && 0 !in PortNumbers(Declared(hs)) <==> Wired(hs)
  {
    AcceptedIff(hs, env, r);
    WiredIff(hs);
    if w.Some? {
      ServesAllIff(PortNumbers(Declared(hs)), w.value.starts, w.value.binds);
    }
  }

  /** Requests to every declared port reach the main component at every target declared for that port. */
  ghost predicate AllDeclaredArrive(hs: Service, services: Services, w: Option<Running>, labels: Labels)
    requires w.Some? ==> |w.value.binds| == |w.value.starts|
  {
    forall q, t | Declares(Declared(hs), q, t) :: Arrives(hs, services, w, q, AppPods(hs, labels), t)
  }

  /** They reach it at no other target. */
  ghost predicate OnlyDeclaredArrives(hs: Service, services: Services, w: Option<Running>, labels: Labels)
    requires w.Some? ==> |w.value.binds| == |w.value.starts|
  {
    forall q, t | Arrives(hs, services, w, q, AppPods(hs, labels), t) :: Declares(Declared(hs), q, t)
  }

  lemma ReachesInCluster(
    hs: Service, env: seq<EnvVar>, r: Option<Config>, w: Option<Running>, labels: Labels,
    before: Services, after: Services)
    requires Describes(hs, env) && Loads(env, r) && Runs(r, w) && Ensured(hs, labels, before, after)
    requires !Foreign(hs, before) && labels != ProxyLabels(hs)
    ensures AllDeclaredArrive(hs, after, w, labels) <==> Wired(hs)
    ensures OnlyDeclaredArrives(hs, after, w, labels)
  {
    var specs := Declared(hs);
    forall q, t
      ensures Arrives(hs, after, w, q, AppPods(hs, labels), t) <==> Open(hs, w) && q != 0 && Declares(specs, q, t)
    {
      ArrivesAtAppIff(hs, env, r, w, labels, before, after, q, t);
    }
    OpenIff(hs, env, r, w);
    DeclaredIsPort(specs, 0);
    DeclaresIff(specs, specs[0].port, Target(specs[0]));
    assert Declares(specs, specs[0].port, Target(specs[0]));
  }

  /**
   Whatever else the cluster holds, requests to every declared port reach the main component at every target
   declared for that port exactly when the spec is wired, and then they reach it at no other target.
   */
  lemma RequestReachesDeclaredTarget(
    hs: Service, env: seq<EnvVar>, r: Option<Config>, w: Option<Running>, labels: Labels)
    requires Describes(hs, env) && Loads(env, r) && Runs(r, w) && labels != ProxyLabels(hs)
    ensures (forall before, after | Ensured(hs, labels, before, after) :: AllDeclaredArrive(hs, after, w, labels))
            <==> Wired(hs)
    ensures Wired(hs) ==>
              forall before, after | Ensured(hs, labels, before, after) :: OnlyDeclaredArrives(hs, after, w, labels)
  {
    if Wired(hs) {
      forall before, after | Ensured(hs, labels, before, after)
        ensures AllDeclaredArrive(hs, after, w, labels) && OnlyDeclaredArrives(hs, after, w, labels)
      {
        ManagedIsNotForeign(hs, before);
        ReachesInCluster(hs, env, r, w, labels, before, after);
      }
    } else {
      var after := EmptyCluster(hs, labels);
      ReachesInCluster(hs, env, r, w, labels, map[], after);
    }
  }

  /**
   The proxy forwards to its own Service exactly when there is no backend section and the main component is named
   like the service; then every request comes back to the proxy.
   */
  lemma ForwardsToItselfIff(
    hs: Service, env: seq<EnvVar>, r: Option<Config>, w: Option<Running>, labels: Labels,
    before: Services, after: Services)
    requires Describes(hs, env) && Loads(env, r) && r.Some? && Runs(r, w) && Ensured(hs, labels, before, after)
    ensures App(hs).Some?
    ensures r.value.backendHost == FrontHost(hs) <==> hs.backend.None? && App(hs).value.ref.name == hs.name
    ensures r.value.backendHost == FrontHost(hs) ==>
              Arrives(hs, after, w, 80, Pods(hs.namespace, ProxyLabels(hs)), FromInt(80))
  {
    AcceptedIff(hs, env, r);
    HostsDiffer(BackendName(hs, App(hs).value), hs.name, hs.namespace);
    if r.value.backendHost == FrontHost(hs) {
      assert PortNumbers(Declared(hs)) == [80];
      assert multiset([80 as Int32])[80] == 1;
      ServesAllIff([80], w.value.starts, w.value.binds);
      FrontRoutesToItself(Declared(hs), after[FrontHost(hs)].ports, 80, 80);
      ArrivesIff(hs, env, r, w, labels, before, after, 80, Pods(hs.namespace, ProxyLabels(hs)), FromInt(80));
    }
  }

  /** A number listed twice, say for TCP and for UDP: one of its servers is refused, which ends the proxy. */
  lemma RepeatedPortIsRefused(ports: seq<Int32>, starts: seq<Int32>, binds: seq<Bind>, p: Int32)
    requires Starts(ports, starts, binds) && p != 0 && multiset(ports)[p] >= 2
    ensures Refused in binds
  {
    assert p in multiset(starts);
    NotServed(ports, starts, binds, p);
  }
}
