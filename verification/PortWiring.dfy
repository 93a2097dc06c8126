/**
 How a SleepyService's ports travel: printed into the environment of the proxy, parsed there, and
 written into the proxy's container, the Service in front of it and the Service behind it.
 */
module PortWiring {
  import opened Types
  import opened Text

  datatype TargetKind = Number | Name

  datatype IntOrString = IntOrString(kind: TargetKind, intVal: Int32, strVal: string)

  function FromInt(i: Int32): IntOrString {
    IntOrString(Number, i, "")
  }

  datatype PortSpec = PortSpec(
    name: string,
    protocol: string,
    port: Int32,
    targetPort: IntOrString,
    nodePort: Int32)

  datatype BackendSpec = BackendSpec(enabled: Option<bool>, ports: seq<PortSpec>)

  datatype Service = Service(
    name: string,
    namespace: string,
    debug: Option<bool>,
    wakeTimeout: string,
    idleTimeout: string,
    backend: Option<BackendSpec>,
    components: seq<Component>)

  datatype ServicePort = ServicePort(
    name: string,
    protocol: string,
    port: Int32,
    targetPort: IntOrString,
    nodePort: Int32)

  datatype ContainerPort = ContainerPort(name: string, containerPort: Int32)

  /** The declared ports; a service without any stands for one that declares `http` on port 80. */
  function Declared(hs: Service): (ports: seq<PortSpec>)
    ensures |ports| > 0
  {
    if hs.backend.Some? && hs.backend.value.ports != [] then hs.backend.value.ports
    else [PortSpec("http", "", 80, IntOrString(Number, 0, ""), 0)]
  }

  function PortNumbers(ports: seq<PortSpec>): (numbers: seq<Int32>)
    ensures |numbers| == |ports| && forall i | 0 <= i < |ports| :: numbers[i] == ports[i].port
  {
    seq(|ports|, i requires 0 <= i < |ports| => ports[i].port)
  }

  // ------------------------------------------------------------ the main application component

  const WORKLOADS: set<ComponentType> := {Deployment, StatefulSet}
  const CLUSTERS: set<ComponentType> := {CNPGCluster}

  function LastOf(cs: seq<Component>, kinds: set<ComponentType>): (r: Option<Component>)
    ensures r.None? <==> forall i | 0 <= i < |cs| :: cs[i].kind !in kinds
    ensures r.Some? ==>
              exists i | 0 <= i < |cs| ::
                cs[i] == r.value && cs[i].kind in kinds && forall j | i < j < |cs| :: cs[j].kind !in kinds
  {
    if cs == [] then None else
    var last := cs[|cs| - 1];
    if last.kind in kinds then Some(last) else LastOf(cs[..|cs| - 1], kinds)
  }

  lemma LastOfNext(cs: seq<Component>, i: nat, kinds: set<ComponentType>)
    requires i < |cs|
    ensures LastOf(cs[..i + 1], kinds) ==
            if cs[i].kind in kinds then Some(cs[i]) else LastOf(cs[..i], kinds)
  {
    assert cs[..i + 1][..i] == cs[..i];
  }

  function App(hs: Service): Option<Component> {
    LastOf(hs.components, WORKLOADS)
  }

  /** The last Deployment or StatefulSet. */
  method FindAppComponent(hs: Service) returns (r: Option<Component>)
    ensures r == App(hs)
    ensures r.None? <==> forall i | 0 <= i < |hs.components| :: hs.components[i].kind == CNPGCluster
    ensures r.Some? ==>
              exists i | 0 <= i < |hs.components| ::
                && hs.components[i] == r.value && hs.components[i].kind != CNPGCluster
                && forall j | i < j < |hs.components| :: hs.components[j].kind == CNPGCluster
  {
    r := None;
    for i := 0 to |hs.components|
      invariant r == LastOf(hs.components[..i], WORKLOADS)
    {
      var c := hs.components[i];
      LastOfNext(hs.components, i, WORKLOADS);
      if c.kind == Deployment || c.kind == StatefulSet {
        r := Some(c);
      }
    }
    assert hs.components[..|hs.components|] == hs.components;
    assert forall kind: ComponentType :: kind in WORKLOADS <==> kind != CNPGCluster;
  }

  // ------------------------------------------------------------ the environment of the proxy

  datatype EnvName =
    | NAMESPACE | HIBERNATING_SERVICE_NAME | WAKE_TIMEOUT | IDLE_TIMEOUT | DEBUG_ENDPOINTS
    | DEPLOYMENT_NAME | BACKEND_HOST | BACKEND_PORTS | DESIRED_REPLICAS | CNPG_CLUSTER_NAME

  datatype EnvVar = EnvVar(name: EnvName, value: string)

  /** A variable that is not set reads as the empty string. */
  function Value(env: seq<EnvVar>, name: EnvName): string {
    if env == [] then ""
    else if env[|env| - 1].name == name then env[|env| - 1].value
    else Value(env[..|env| - 1], name)
  }

  function With(env: seq<EnvVar>, name: EnvName, value: string): (r: seq<EnvVar>)
    ensures forall n :: Value(r, n) == if n == name then value else Value(env, n)
  {
    var r := env + [EnvVar(name, value)];
    assert r[..|env|] == env;
    r
  }

  function ManagedName(hs: Service): string {
    hs.name + "-actual"
  }

  function Host(service: string, namespace: string): (r: string)
    ensures r != ""
  {
    service + "." + namespace
  }

  /** The Service that the proxy forwards to. */
  function BackendName(hs: Service, app: Component): string {
    if hs.backend.Some? then ManagedName(hs) else app.ref.name
  }

  function PrintedPorts(hs: Service): string {
    Join(PrintAll(PortNumbers(Declared(hs))))
  }

  function Expected(hs: Service, name: EnvName): string {
    match name
    case NAMESPACE => hs.namespace
    case HIBERNATING_SERVICE_NAME => hs.name
    case WAKE_TIMEOUT => hs.wakeTimeout
    case IDLE_TIMEOUT => hs.idleTimeout
    case DEBUG_ENDPOINTS => if hs.debug == Some(true) then "true" else ""
    case CNPG_CLUSTER_NAME =>
      (match LastOf(hs.components, CLUSTERS) case None => "" case Some(c) => c.ref.name)
    case _ => (match App(hs) case None => "" case Some(app) => ExpectedOfApp(hs, app, name))
  }

  function ExpectedOfApp(hs: Service, app: Component, name: EnvName): string {
    match name
    case DEPLOYMENT_NAME => app.ref.name
    case BACKEND_HOST => Host(BackendName(hs, app), hs.namespace)
    case BACKEND_PORTS => PrintedPorts(hs)
    case DESIRED_REPLICAS => if app.replicas.Some? then PrintInt(app.replicas.value) else ""
    case _ => ""
  }

  ghost predicate Describes(hs: Service, env: seq<EnvVar>) {
    forall name :: Value(env, name) == Expected(hs, name)
  }

  method PrintPorts(ports: seq<PortSpec>) returns (parts: seq<string>)
    ensures parts == PrintAll(PortNumbers(ports))
  {
    parts := [];
    for i := 0 to |ports|
      invariant parts == PrintAll(PortNumbers(ports))[..i]
    {
      parts := parts + [PrintInt(ports[i].port)];
    }
  }

  method BackendPortStrings(hs: Service) returns (parts: seq<string>)
    ensures parts == PrintAll(PortNumbers(Declared(hs)))
  {
    if hs.backend.Some? && |hs.backend.value.ports| > 0 {
      parts := PrintPorts(hs.backend.value.ports);
    } else {
      parts := ["80"];
      assert PrintInt(80) == "80";
    }
  }

  method LastComponents(hs: Service) returns (app: Option<Component>, cnpg: Option<Component>)
    ensures app == App(hs)
    ensures cnpg == LastOf(hs.components, CLUSTERS)
  {
    app, cnpg := None, None;
    for i := 0 to |hs.components|
      invariant app == LastOf(hs.components[..i], WORKLOADS)
      invariant cnpg == LastOf(hs.components[..i], CLUSTERS)
    {
      var c := hs.components[i];
      LastOfNext(hs.components, i, WORKLOADS);
      LastOfNext(hs.components, i, CLUSTERS);
      match c.kind
      case CNPGCluster => cnpg := Some(c);
      case Deployment => app := Some(c);
      case StatefulSet => app := Some(c);
    }
    assert hs.components[..|hs.components|] == hs.components;
  }

  predicate IsAppName(name: EnvName) {
    name in {DEPLOYMENT_NAME, BACKEND_HOST, BACKEND_PORTS, DESIRED_REPLICAS}
  }

  method BaseEnv(hs: Service) returns (env: seq<EnvVar>)
    ensures forall n ::
              Value(env, n) == if IsAppName(n) || n == CNPG_CLUSTER_NAME then "" else Expected(hs, n)
  {
    env := With([], NAMESPACE, hs.namespace);
    env := With(env, HIBERNATING_SERVICE_NAME, hs.name);
    env := With(env, WAKE_TIMEOUT, hs.wakeTimeout);
    env := With(env, IDLE_TIMEOUT, hs.idleTimeout);
    if hs.debug.Some? && hs.debug.value {
      env := With(env, DEBUG_ENDPOINTS, "true");
    }
  }

  method BackendEnv(hs: Service, app: Component, base: seq<EnvVar>) returns (env: seq<EnvVar>)
    ensures forall n ::
              Value(env, n) ==
              if IsAppName(n) && n != DESIRED_REPLICAS then ExpectedOfApp(hs, app, n) else Value(base, n)
  {
    var name := if hs.backend.Some? then ManagedName(hs) else app.ref.name;
    var parts := BackendPortStrings(hs);
    var text := Join(parts);
    env := With(base, DEPLOYMENT_NAME, app.ref.name);
    env := With(env, BACKEND_HOST, Host(name, hs.namespace));
    env := With(env, BACKEND_PORTS, text);
  }

  method AppEnv(hs: Service, app: Component, base: seq<EnvVar>) returns (env: seq<EnvVar>)
    requires Value(base, DESIRED_REPLICAS) == ""
    ensures forall n ::
              Value(env, n) == if IsAppName(n) then ExpectedOfApp(hs, app, n) else Value(base, n)
  {
    env := BackendEnv(hs, app, base);
    if app.replicas.Some? {
      env := With(env, DESIRED_REPLICAS, PrintInt(app.replicas.value));
    }
  }

  /** Variable by variable: the base, then the main component's part, then the cluster's. */
  lemma Assembled(hs: Service, base: seq<EnvVar>, mid: seq<EnvVar>, env: seq<EnvVar>)
    requires forall n ::
               Value(base, n) == if IsAppName(n) || n == CNPG_CLUSTER_NAME then "" else Expected(hs, n)
    requires forall n ::
               Value(mid, n) ==
               if App(hs).Some? && IsAppName(n) then ExpectedOfApp(hs, App(hs).value, n) else Value(base, n)
    requires forall n | n != CNPG_CLUSTER_NAME :: Value(env, n) == Value(mid, n)
    requires Value(env, CNPG_CLUSTER_NAME) == Expected(hs, CNPG_CLUSTER_NAME)
    ensures Describes(hs, env)
  {
    forall n
      ensures Value(env, n) == Expected(hs, n)
    {
      if IsAppName(n) {
        assert Value(mid, n) == if App(hs).Some? then ExpectedOfApp(hs, App(hs).value, n) else "";
      }
    }
  }

  /** Each variable on the fields of the spec. */
  lemma DescribesOnFields(hs: Service, env: seq<EnvVar>)
    requires Describes(hs, env)
    ensures Value(env, NAMESPACE) == hs.namespace && Value(env, HIBERNATING_SERVICE_NAME) == hs.name
    ensures Value(env, WAKE_TIMEOUT) == hs.wakeTimeout && Value(env, IDLE_TIMEOUT) == hs.idleTimeout
    ensures Value(env, DEBUG_ENDPOINTS) == if hs.debug == Some(true) then "true" else ""
    ensures App(hs).Some? ==>
              && Value(env, DEPLOYMENT_NAME) == App(hs).value.ref.name
              && Value(env, BACKEND_HOST) ==
                 (if hs.backend.Some? then hs.name + "-actual" else App(hs).value.ref.name) + "." + hs.namespace
              && Value(env, DESIRED_REPLICAS) ==
                 if App(hs).value.replicas.Some? then PrintInt(App(hs).value.replicas.value) else ""
    ensures App(hs).None? ==>
              Value(env, DEPLOYMENT_NAME) == Value(env, BACKEND_HOST) == Value(env, BACKEND_PORTS) == ""
  {
    assert forall name :: Value(env, name) == Expected(hs, name);
    assert Value(env, NAMESPACE) == Expected(hs, NAMESPACE);
    assert Value(env, HIBERNATING_SERVICE_NAME) == Expected(hs, HIBERNATING_SERVICE_NAME);
    assert Value(env, WAKE_TIMEOUT) == Expected(hs, WAKE_TIMEOUT);
    assert Value(env, IDLE_TIMEOUT) == Expected(hs, IDLE_TIMEOUT);
    assert Value(env, DEBUG_ENDPOINTS) == Expected(hs, DEBUG_ENDPOINTS);
    assert Value(env, DEPLOYMENT_NAME) == Expected(hs, DEPLOYMENT_NAME);
    assert Value(env, BACKEND_HOST) == Expected(hs, BACKEND_HOST);
    assert Value(env, BACKEND_PORTS) == Expected(hs, BACKEND_PORTS);
    assert Value(env, DESIRED_REPLICAS) == Expected(hs, DESIRED_REPLICAS);
  }

  method BuildProxyEnv(hs: Service) returns (env: seq<EnvVar>)
    ensures Describes(hs, env)
  {
    var app, cnpg := LastComponents(hs);
    var base := BaseEnv(hs);
    env := base;
    if app.Some? {
      env := AppEnv(hs, app.value, env);
    }
    ghost var mid := env;
    if cnpg.Some? {
      env := With(env, CNPG_CLUSTER_NAME, cnpg.value.ref.name);
    }
    Assembled(hs, base, mid, env);
  }

  // ------------------------------------------------------------ the proxy reads its environment

  datatype Config = Config(
    namespace: string,
    serviceName: string,
    deploymentName: string,
    cnpgClusterName: string,
    backendHost: string,
    desiredReplicas: Int32,
    debugEndpoints: bool,
    backendPorts: seq<Int32>)

  /** The conversion of a 64-bit number to 32 bits. */
  function Wrap32(i: int): (r: Int32)
    ensures -0x8000_0000 <= i < 0x8000_0000 ==> r == i
    ensures (r - i) % 0x1_0000_0000 == 0
  {
    (i + 0x8000_0000) % 0x1_0000_0000 - 0x8000_0000
  }

  function ParseBool(s: string): Option<bool> {
    if s in {"1", "t", "T", "TRUE", "true", "True"} then Some(true)
    else if s in {"0", "f", "F", "FALSE", "false", "False"} then Some(false)
    else None
  }

  function GetEnv(env: seq<EnvVar>, name: EnvName, default: string): string {
    if Value(env, name) != "" then Value(env, name) else default
  }

  function GetEnvBool(env: seq<EnvVar>, name: EnvName, default: bool): bool {
    match ParseBool(Value(env, name)) case None => default case Some(b) => b
  }

  function GetEnvInt(env: seq<EnvVar>, name: EnvName, default: int): int {
    match ParseInt(Value(env, name), 0x8000_0000_0000_0000) case None => default case Some(i) => i
  }

  /** The ports in a comma-separated list; nothing when it is empty or a part of it is no port. */
  function ParsedPorts(text: string): Option<seq<Int32>> {
    if text == "" then None else ParseAll(Split(text))
  }

  /** The first `|ports|` of the parts have been read into `ports`. */
  predicate ReadSoFar(parts: seq<string>, i: int, ports: seq<Int32>)
    requires 0 <= i <= |parts|
  {
    match ParseAll(parts[i..])
    case None => ParseAll(parts) == None
    case Some(rest) => ParseAll(parts) == Some(ports + rest)
  }

  lemma ReadOneMore(parts: seq<string>, i: int, ports: seq<Int32>)
    requires 0 <= i < |parts| && ReadSoFar(parts, i, ports)
    ensures match ParsePort(parts[i])
            case None => ParseAll(parts) == None
            case Some(p) => ReadSoFar(parts, i + 1, ports + [p])
  {
    assert parts[i..][0] == parts[i] && parts[i..][1..] == parts[i + 1..];
    match ParseAll(parts[i + 1..])
    case None =>
    case Some(rest) =>
      match ParsePort(parts[i])
      case None =>
      case Some(p) => assert ports + ([p] + rest) == ports + [p] + rest;
  }

  /** The answer `None` is the fatal exit of the proxy. */
  method ParseBackendPorts(text: string) returns (r: Option<seq<Int32>>)
    ensures r == ParsedPorts(text)
  {
    if text == "" {
      return None;
    }
    var parts := Split(text);
    var ports: seq<Int32> := [];
    assert parts[0..] == parts;
    assert ParseAll(parts).Some? ==> ports + ParseAll(parts).value == ParseAll(parts).value;
    for i := 0 to |parts|
      invariant ReadSoFar(parts, i, ports)
    {
      ReadOneMore(parts, i, ports);
      match ParsePort(parts[i])
      case None => return None;
      case Some(p) => ports := ports + [p];
    }
    assert ports + [] == ports;
    return Some(ports);
  }

  /** What the proxy makes of its environment, `None` being its fatal exit. */
  predicate Loads(env: seq<EnvVar>, r: Option<Config>) {
    && (r.Some? <==> && ParsedPorts(Value(env, BACKEND_PORTS)).Some?
                     && Value(env, HIBERNATING_SERVICE_NAME) != ""
                     && Value(env, BACKEND_HOST) != "")
    && (r.Some? ==>
          && r.value.namespace == GetEnv(env, NAMESPACE, "default")
          && r.value.serviceName == Value(env, HIBERNATING_SERVICE_NAME)
          && r.value.deploymentName == Value(env, DEPLOYMENT_NAME)
          && r.value.cnpgClusterName == Value(env, CNPG_CLUSTER_NAME)
          && r.value.backendHost == Value(env, BACKEND_HOST)
          && r.value.desiredReplicas == Wrap32(GetEnvInt(env, DESIRED_REPLICAS, 1))
          && r.value.debugEndpoints == GetEnvBool(env, DEBUG_ENDPOINTS, false)
          && Some(r.value.backendPorts) == ParsedPorts(Value(env, BACKEND_PORTS)))
  }

  method LoadConfig(env: seq<EnvVar>) returns (r: Option<Config>)
    ensures Loads(env, r)
    ensures r.None? <==>
            || Value(env, BACKEND_PORTS) == "" || ParseAll(Split(Value(env, BACKEND_PORTS))).None?
            || Value(env, HIBERNATING_SERVICE_NAME) == "" || Value(env, BACKEND_HOST) == ""
    ensures r.Some? ==>
              && r.value.namespace == (if Value(env, NAMESPACE) == "" then "default" else Value(env, NAMESPACE))
              && (Value(env, DESIRED_REPLICAS) == "" ==> r.value.desiredReplicas == 1)
              && (r.value.debugEndpoints <==>
                    Value(env, DEBUG_ENDPOINTS) in {"1", "t", "T", "TRUE", "true", "True"})
  {
    var config := Config(
      GetEnv(env, NAMESPACE, "default"),
      GetEnv(env, HIBERNATING_SERVICE_NAME, ""),
      GetEnv(env, DEPLOYMENT_NAME, ""),
      GetEnv(env, CNPG_CLUSTER_NAME, ""),
      GetEnv(env, BACKEND_HOST, ""),
      Wrap32(GetEnvInt(env, DESIRED_REPLICAS, 1)),
      GetEnvBool(env, DEBUG_ENDPOINTS, false),
      []);
    var ports := ParseBackendPorts(GetEnv(env, BACKEND_PORTS, ""));
    if ports.None? || config.serviceName == "" || config.backendHost == "" {
      return None;
    }
    return Some(config.(backendPorts := ports.value));
  }

  lemma PortsReadBack(hs: Service)
    ensures ParsedPorts(PrintedPorts(hs)) == Some(PortNumbers(Declared(hs)))
  {
    PortListRoundTrip(PortNumbers(Declared(hs)));
  }

  lemma ReplicasReadBack(hs: Service, app: Component, env: seq<EnvVar>)
    requires Value(env, DESIRED_REPLICAS) == ExpectedOfApp(hs, app, DESIRED_REPLICAS)
    ensures Wrap32(GetEnvInt(env, DESIRED_REPLICAS, 1)) ==
            if app.replicas.Some? then app.replicas.value else 1
  {
    if app.replicas.Some? {
      ParsePrintInt(app.replicas.value, 0x8000_0000_0000_0000);
    }
  }

  lemma HostReadBack(hs: Service, env: seq<EnvVar>)
    requires Describes(hs, env)
    ensures Value(env, BACKEND_HOST) ==
            if App(hs).Some? then Host(BackendName(hs, App(hs).value), hs.namespace) else ""
    ensures Value(env, BACKEND_HOST) != "" <==> App(hs).Some?
  {
    assert Value(env, BACKEND_HOST) == Expected(hs, BACKEND_HOST);
  }

  lemma PortTextReadBack(hs: Service, env: seq<EnvVar>)
    requires Describes(hs, env)
    ensures ParsedPorts(Value(env, BACKEND_PORTS)) ==
            if App(hs).Some? then Some(PortNumbers(Declared(hs))) else None
  {
    assert Value(env, BACKEND_PORTS) == Expected(hs, BACKEND_PORTS);
    PortsReadBack(hs);
  }

  /** `loadConfig` accepts exactly when the service has a name and a component to forward to. */
  lemma AcceptedIff(hs: Service, env: seq<EnvVar>, r: Option<Config>)
    requires Describes(hs, env) && Loads(env, r)
    ensures r.Some? <==> App(hs).Some? && hs.name != ""
    ensures r.Some? ==> r.value.backendPorts == PortNumbers(Declared(hs))
    ensures r.Some? ==> r.value.backendHost == Host(BackendName(hs, App(hs).value), hs.namespace)
  {
    PortTextReadBack(hs, env);
    HostReadBack(hs, env);
    assert Value(env, HIBERNATING_SERVICE_NAME) == Expected(hs, HIBERNATING_SERVICE_NAME);
  }

  lemma NamesReadBack(hs: Service, env: seq<EnvVar>, r: Option<Config>)
    requires Describes(hs, env) && Loads(env, r) && r.Some? && App(hs).Some?
    ensures r.value.serviceName == hs.name && r.value.deploymentName == App(hs).value.ref.name
    ensures r.value.namespace == if hs.namespace == "" then "default" else hs.namespace
    ensures var cluster := LastOf(hs.components, CLUSTERS);
            r.value.cnpgClusterName == if cluster.Some? then cluster.value.ref.name else ""
  {
    assert Value(env, HIBERNATING_SERVICE_NAME) == Expected(hs, HIBERNATING_SERVICE_NAME);
    assert Value(env, DEPLOYMENT_NAME) == Expected(hs, DEPLOYMENT_NAME);
    assert Value(env, NAMESPACE) == Expected(hs, NAMESPACE);
    assert Value(env, CNPG_CLUSTER_NAME) == Expected(hs, CNPG_CLUSTER_NAME);
  }

  lemma SettingsReadBack(hs: Service, env: seq<EnvVar>, r: Option<Config>)
    requires Describes(hs, env) && Loads(env, r) && r.Some? && App(hs).Some?
    ensures r.value.debugEndpoints <==> hs.debug == Some(true)
    ensures r.value.desiredReplicas == if App(hs).value.replicas.Some? then App(hs).value.replicas.value else 1
  {
    assert Value(env, DEBUG_ENDPOINTS) == Expected(hs, DEBUG_ENDPOINTS);
    assert Value(env, DESIRED_REPLICAS) == Expected(hs, DESIRED_REPLICAS);
    ReplicasReadBack(hs, App(hs).value, env);
  }

  /** The configuration that the controller means the proxy to have. */
  function Intended(hs: Service): Config
    requires App(hs).Some?
  {
    var app, cluster := App(hs).value, LastOf(hs.components, CLUSTERS);
    Config(
      if hs.namespace == "" then "default" else hs.namespace,
      hs.name,
      app.ref.name,
      if cluster.Some? then cluster.value.ref.name else "",
      Host(BackendName(hs, app), hs.namespace),
      if app.replicas.Some? then app.replicas.value else 1,
      hs.debug == Some(true),
      PortNumbers(Declared(hs)))
  }

  /** From the spec through the environment and back: the proxy reads exactly what was meant, or refuses to load. */
  lemma WiringRoundTrip(hs: Service, env: seq<EnvVar>, r: Option<Config>)
    requires Describes(hs, env) && Loads(env, r)
    ensures r == if App(hs).Some? && hs.name != "" then Some(Intended(hs)) else None
  {
    AcceptedIff(hs, env, r);
    if r.Some? {
      NamesReadBack(hs, env, r);
      SettingsReadBack(hs, env, r);
    }
  }

  // ------------------------------------------------------------ the three port builders

  function Protocol(p: PortSpec): string {
    if p.protocol == "" then "TCP" else p.protocol
  }

  /** Where the backend Service sends traffic for a declared port. */
  function Target(p: PortSpec): IntOrString {
    if p.targetPort.intVal == 0 && p.targetPort.strVal == "" then FromInt(p.port) else p.targetPort
  }

  predicate ServesBackend(specs: seq<PortSpec>, ports: seq<ServicePort>) {
    && |ports| == |specs|
    && forall i | 0 <= i < |specs| ::
         ports[i] == ServicePort(specs[i].name, Protocol(specs[i]), specs[i].port, Target(specs[i]),
                                 specs[i].nodePort)
  }

  predicate ServesContainer(specs: seq<PortSpec>, ports: seq<ContainerPort>) {
    && |ports| == |specs|
    && forall i | 0 <= i < |specs| :: ports[i] == ContainerPort(specs[i].name, specs[i].port)
  }

  predicate ServesProxy(specs: seq<PortSpec>, ports: seq<ServicePort>) {
    && |ports| == |specs|
    && forall i | 0 <= i < |specs| ::
         ports[i] == ServicePort(specs[i].name, Protocol(specs[i]), specs[i].port,
                                 FromInt(specs[i].port), 0)
  }

  const HTTP := ServicePort("http", "TCP", 80, FromInt(80), 0)

  method BuildBackendServicePorts(hs: Service) returns (ports: array<ServicePort>)
    ensures fresh(ports)
    ensures ServesBackend(Declared(hs), ports[..])
    ensures hs.backend.Some? && hs.backend.value.ports != [] ==>
              && ports.Length == |hs.backend.value.ports|
              && forall i | 0 <= i < ports.Length ::
                   var p := hs.backend.value.ports[i];
                   && ports[i].name == p.name && ports[i].port == p.port && ports[i].nodePort == p.nodePort
                   && (p.targetPort.intVal != 0 || p.targetPort.strVal != "" ==> ports[i].targetPort == p.targetPort)
                   && (p.targetPort.intVal == 0 && p.targetPort.strVal == "" ==>
                         ports[i].targetPort == IntOrString(Number, p.port, ""))
                   && (p.protocol != "" ==> ports[i].protocol == p.protocol)
                   && (p.protocol == "" ==> ports[i].protocol == "TCP")
    ensures hs.backend.None? || hs.backend.value.ports == [] ==>
              ports[..] == [ServicePort("http", "TCP", 80, IntOrString(Number, 80, ""), 0)]
  {
    if hs.backend.Some? && |hs.backend.value.ports| > 0 {
      var specs := hs.backend.value.ports;
      ports := new ServicePort[|specs|](_ => HTTP);
      for i := 0 to |specs|
        invariant ServesBackend(specs[..i], ports[..i])
      {
        var p := specs[i];
        var targetPort := p.targetPort;
        if targetPort.intVal == 0 && targetPort.strVal == "" {
          targetPort := FromInt(p.port);
        }
        var protocol := "TCP";
        if p.protocol != "" {
          protocol := p.protocol;
        }
        ports[i] := ServicePort(p.name, protocol, p.port, targetPort, p.nodePort);
      }
      assert specs[..|specs|] == specs && ports[..|specs|] == ports[..];
    } else {
      ports := new ServicePort[1](_ => HTTP);
    }
  }

  method BuildProxyContainerPorts(hs: Service) returns (ports: array<ContainerPort>)
    ensures fresh(ports)
    ensures ServesContainer(Declared(hs), ports[..])
    ensures hs.backend.Some? && hs.backend.value.ports != [] ==>
              && ports.Length == |hs.backend.value.ports|
              && forall i | 0 <= i < ports.Length ::
                   ports[i] == ContainerPort(hs.backend.value.ports[i].name, hs.backend.value.ports[i].port)
    ensures hs.backend.None? || hs.backend.value.ports == [] ==> ports[..] == [ContainerPort("http", 80)]
  {
    if hs.backend.Some? && |hs.backend.value.ports| > 0 {
      var specs := hs.backend.value.ports;
      ports := new ContainerPort[|specs|](_ => ContainerPort("", 0));
      for i := 0 to |specs|
        invariant ServesContainer(specs[..i], ports[..i])
      {
        ports[i] := ContainerPort(specs[i].name, specs[i].port);
      }
      assert specs[..|specs|] == specs && ports[..|specs|] == ports[..];
    } else {
      ports := new ContainerPort[1](_ => ContainerPort("http", 80));
    }
  }

  method BuildProxyServicePorts(hs: Service) returns (ports: array<ServicePort>)
    ensures fresh(ports)
    ensures ServesProxy(Declared(hs), ports[..])
    ensures hs.backend.Some? && hs.backend.value.ports != [] ==>
              && ports.Length == |hs.backend.value.ports|
              && forall i | 0 <= i < ports.Length ::
                   var p := hs.backend.value.ports[i];
                   && ports[i].name == p.name && ports[i].port == p.port && ports[i].nodePort == 0
                   && ports[i].targetPort == IntOrString(Number, p.port, "")
                   && (p.protocol != "" ==> ports[i].protocol == p.protocol)
                   && (p.protocol == "" ==> ports[i].protocol == "TCP")
    ensures hs.backend.None? || hs.backend.value.ports == [] ==>
              ports[..] == [ServicePort("http", "TCP", 80, IntOrString(Number, 80, ""), 0)]
  {
    if hs.backend.Some? && |hs.backend.value.ports| > 0 {
      var specs := hs.backend.value.ports;
      ports := new ServicePort[|specs|](_ => HTTP);
      for i := 0 to |specs|
        invariant ServesProxy(specs[..i], ports[..i])
      {
        var p := specs[i];
        var protocol := "TCP";
        if p.protocol != "" {
          protocol := p.protocol;
        }
        ports[i] := ServicePort(p.name, protocol, p.port, FromInt(p.port), 0);
      }
      assert specs[..|specs|] == specs && ports[..|specs|] == ports[..];
    } else {
      ports := new ServicePort[1](_ => HTTP);
    }
  }

  /** The five lists of ports agree, index by index. */
  lemma PortsAgree(
    hs: Service, env: seq<EnvVar>, r: Option<Config>, containers: seq<ContainerPort>,
    front: seq<ServicePort>, back: seq<ServicePort>)
    requires Describes(hs, env) && Loads(env, r) && r.Some?
    requires ServesContainer(Declared(hs), containers)
    requires ServesProxy(Declared(hs), front) && ServesBackend(Declared(hs), back)
    ensures |r.value.backendPorts| == |containers| == |front| == |back| > 0
    ensures forall i | 0 <= i < |front| ::
              && r.value.backendPorts[i] == containers[i].containerPort == front[i].port == back[i].port
              && front[i].targetPort == FromInt(containers[i].containerPort)
              && front[i].name == containers[i].name == back[i].name
              && front[i].protocol == back[i].protocol
  {
    AcceptedIff(hs, env, r);
  }
}
