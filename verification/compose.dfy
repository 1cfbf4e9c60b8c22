/**
 * The compose-to-container derivation of the docker package. Its
 * implementation file is not part of this model; every rule below is the one
 * docker/compose_test.go pins: service naming, `getConfig`, `getHostConfig`,
 * `getNetworkConfig` and the default tag of `pullImage`.
 */
module Compose {
  import opened Wrappers
  import opened Text
  import opened Auth

  const DeploySuffix := "_deploy"
  const OwnerLabel := "owner"
  const AppLabel := "app"
  const DefaultCpuShares := 128
  const LogDriver := "json-file"
  const LogMaxSize := "50m"
  const RestartPolicyName := "on-failure"
  const RestartMaxRetries := 5
  const NoNewPrivileges := "no-new-privileges"
  const DefaultTag := "latest"

  const IntervalErrorPrefix := "Error while parsing healthcheck interval: "
  const TimeoutErrorPrefix := "Error while parsing healthcheck timeout: "
  const PullErrorPrefix := "Error while pulling image: "

  // ---- naming -------------------------------------------------------------

  /** `getServiceFullName`: the temporary name a service is deployed under. */
  function ServiceFullName(app: string, service: string): string {
    app + "_" + service + DeploySuffix
  }

  /** `getFinalName`: drops one trailing `_deploy`. */
  function FinalName(name: string): (r: string)
    ensures EndsWith(name, DeploySuffix) ==> r + DeploySuffix == name
    ensures !EndsWith(name, DeploySuffix) ==> r == name
  {
    TrimSuffix(name, DeploySuffix)
  }

  /** The final name of a deployed service is `app_service`. */
  lemma FinalNameOfFullName(app: string, service: string)
    ensures FinalName(ServiceFullName(app, service)) == app + "_" + service
  {
    var full := ServiceFullName(app, service);
    assert full[|full| - |DeploySuffix|..] == DeploySuffix;
  }

  // ---- getConfig ----------------------------------------------------------

  datatype Healthcheck = Healthcheck(test: seq<string>, retries: int, interval: string, timeout: string)

  /**
   * `dockerComposeService`. The environment is given in the order Go's map
   * iteration yields it, which the language leaves unspecified.
   */
  datatype Service = Service(
    image: string,
    environment: seq<(string, string)>,
    labels: map<string, string>,
    command: seq<string>,
    healthcheck: Option<Healthcheck>,
    readOnly: bool,
    cpuShares: int,
    memoryLimit: int,
    links: seq<string>)

  /** `container.HealthConfig`, durations in nanoseconds. */
  datatype HealthConfig = HealthConfig(test: seq<string>, retries: int, interval: int, timeout: int)

  /** `container.Config` */
  datatype Config = Config(
    image: string,
    labels: map<string, string>,
    env: seq<string>,
    cmd: seq<string>,
    healthcheck: Option<HealthConfig>)

  /** One `K=V` environment entry. */
  function EnvEntry(key: string, value: string): string {
    key + "=" + value
  }

  /** Splits an entry at its first `=`: how the container runtime reads it back. */
  function SplitEntry(entry: string): (string, string) {
    var k := IndexOf(entry, '=');
    if k < |entry| then (entry[..k], entry[k + 1..]) else (entry, "")
  }

  /** An entry reads back as the pair it was built from whenever the key holds no `=`. */
  lemma EnvEntryRoundTrip(key: string, value: string)
    requires '=' !in key
    ensures SplitEntry(EnvEntry(key, value)) == (key, value)
  {
    var e := EnvEntry(key, value);
    assert e[|key|] == '=';
    assert forall i :: 0 <= i < |key| ==> e[i] == key[i];
    assert IndexOf(e, '=') == |key|;
    assert e[..|key|] == key && e[|key| + 1..] == value;
  }

  /** The environment as `K=V` strings, one per variable, in order. */
  function Environment(pairs: seq<(string, string)>): (env: seq<string>)
    ensures |env| == |pairs|
    ensures forall i :: 0 <= i < |pairs| ==> SplitEntry(env[i]) == pairs[i] || '=' in pairs[i].0
    ensures forall i :: 0 <= i < |pairs| ==>
              StartsWith(env[i], pairs[i].0 + "=") && env[i][|pairs[i].0| + 1..] == pairs[i].1
  {
    var env := seq(|pairs|, i requires 0 <= i < |pairs| => EnvEntry(pairs[i].0, pairs[i].1));
    assert forall i :: 0 <= i < |pairs| && '=' !in pairs[i].0 ==> SplitEntry(env[i]) == pairs[i] by {
      forall i | 0 <= i < |pairs| && '=' !in pairs[i].0 {
        EnvEntryRoundTrip(pairs[i].0, pairs[i].1);
      }
    }
    env
  }

  /** The service's labels, then `owner` and `app` set over them. */
  function Labels(service: Service, user: User, appName: string): (labels: map<string, string>)
    ensures labels.Keys == service.labels.Keys + {OwnerLabel, AppLabel}
    ensures labels[OwnerLabel] == user.username && labels[AppLabel] == appName
    ensures forall k :: k in service.labels && k != OwnerLabel && k != AppLabel ==> labels[k] == service.labels[k]
  {
    service.labels[OwnerLabel := user.username][AppLabel := appName]
  }

  /**
   * `getConfig`. `parseDuration` stands for Go's `time.ParseDuration`, whose
   * grammar is not part of this model.
   */
  function GetConfig(service: Service, user: User, appName: string,
                     parseDuration: string -> Result<int, string>): (r: Result<Config, string>)
    // the interval is checked before the timeout
    ensures service.healthcheck.Some? && parseDuration(service.healthcheck.value.interval).Failure? ==>
              r == Failure(IntervalErrorPrefix + parseDuration(service.healthcheck.value.interval).error)
    ensures service.healthcheck.Some? && parseDuration(service.healthcheck.value.interval).Success?
            && parseDuration(service.healthcheck.value.timeout).Failure? ==>
              r == Failure(TimeoutErrorPrefix + parseDuration(service.healthcheck.value.timeout).error)
    ensures r.Success? <==>
              (service.healthcheck.None? ||
               (parseDuration(service.healthcheck.value.interval).Success? &&
                parseDuration(service.healthcheck.value.timeout).Success?))
    ensures r.Success? ==>
              && r.value.image == service.image
              && r.value.cmd == service.command
              && r.value.labels == Labels(service, user, appName)
              && r.value.env == Environment(service.environment)
              && (r.value.healthcheck.Some? <==> service.healthcheck.Some?)
    ensures r.Success? && service.healthcheck.Some? ==>
              var h, c := service.healthcheck.value, r.value.healthcheck.value;
              c.test == h.test && c.retries == h.retries
              && c.interval == parseDuration(h.interval).value
              && c.timeout == parseDuration(h.timeout).value
  {
    var base := Config(service.image, Labels(service, user, appName), Environment(service.environment),
                       service.command, None);
    match service.healthcheck
    case None => Success(base)
    case Some(h) =>
      match parseDuration(h.interval)
      case Failure(e) => Failure(IntervalErrorPrefix + e)
      case Success(interval) =>
        match parseDuration(h.timeout)
        case Failure(e) => Failure(TimeoutErrorPrefix + e)
        case Success(timeout) =>
          Success(base.(healthcheck := Some(HealthConfig(h.test, h.retries, interval, timeout))))
  }

  // ---- getHostConfig ------------------------------------------------------

  datatype LogConfig = LogConfig(driver: string, options: map<string, string>)
  datatype RestartPolicy = RestartPolicy(name: string, maximumRetryCount: int)
  datatype Resources = Resources(cpuShares: int, memory: int)

  /** `container.HostConfig` */
  datatype HostConfig = HostConfig(
    logConfig: LogConfig,
    networkMode: string,
    restartPolicy: RestartPolicy,
    readonlyRootfs: bool,
    resources: Resources,
    securityOpt: seq<string>)

  /** The package constants `networkMode`, `minMemory` and `maxMemory`, whose values are not part of this model. */
  datatype Settings = Settings(networkMode: string, minMemory: int, maxMemory: int)

  /** The memory a container gets: the minimum when unset, capped at the maximum. */
  function Memory(requested: int, s: Settings): int {
    if requested == 0 then s.minMemory
    else if requested < s.maxMemory then requested
    else s.maxMemory
  }

  /** `getHostConfig` */
  function GetHostConfig(service: Service, s: Settings): (h: HostConfig)
    ensures h.logConfig == LogConfig(LogDriver, map["max-size" := LogMaxSize])
    ensures h.networkMode == s.networkMode
    ensures h.restartPolicy == RestartPolicy(RestartPolicyName, RestartMaxRetries)
    ensures h.securityOpt == [NoNewPrivileges]
    ensures h.readonlyRootfs == service.readOnly
    ensures h.resources.cpuShares == if service.cpuShares == 0 then DefaultCpuShares else service.cpuShares
    ensures h.resources.memory == Memory(service.memoryLimit, s)
  {
    HostConfig(
      LogConfig(LogDriver, map["max-size" := LogMaxSize]),
      s.networkMode,
      RestartPolicy(RestartPolicyName, RestartMaxRetries),
      service.readOnly,
      Resources(if service.cpuShares == 0 then DefaultCpuShares else service.cpuShares,
                Memory(service.memoryLimit, s)),
      [NoNewPrivileges])
  }

  /**
   * Unset memory gets the minimum, a value in range is kept, a value at or above
   * the maximum gets the maximum; so a request that is unset or at least the
   * minimum always ends up between the two limits.
   */
  lemma MemoryClamp(service: Service, s: Settings)
    requires 0 < s.minMemory <= s.maxMemory
    ensures var m := GetHostConfig(service, s).resources.memory;
            && (service.memoryLimit == 0 ==> m == s.minMemory)
            && (s.minMemory <= service.memoryLimit <= s.maxMemory ==> m == service.memoryLimit)
            && (service.memoryLimit >= s.maxMemory ==> m == s.maxMemory)
            && m <= s.maxMemory
            && (service.memoryLimit == 0 || service.memoryLimit >= s.minMemory ==> s.minMemory <= m)
  {
  }

  // ---- getNetworkConfig ---------------------------------------------------

  /** `deployedService`: the name a service was deployed under. */
  datatype DeployedService = DeployedService(name: string)

  /** `network.NetworkingConfig`: the links of each endpoint. */
  datatype NetworkingConfig = NetworkingConfig(endpoints: map<string, seq<string>>)

  /**
   * One compose link `target[:alias]` as a Docker link `container:alias`: the
   * alias defaults to the target, and a target naming a deployed service becomes
   * that service's final container name.
   */
  function RewriteLink(link: string, deployed: map<string, DeployedService>): string {
    var k := IndexOf(link, ':');
    var target := link[..k];
    var alias := if k < |link| then link[k + 1..] else link;
    var container := if target in deployed then FinalName(deployed[target].name) else target;
    container + ":" + alias
  }

  /** The three shapes of link the tests pin. */
  lemma RewriteLinkCases(deployed: map<string, DeployedService>, x: string, alias: string)
    requires ':' !in x
    ensures x !in deployed ==> RewriteLink(x, deployed) == x + ":" + x
    ensures x in deployed ==> RewriteLink(x, deployed) == FinalName(deployed[x].name) + ":" + x
    ensures x !in deployed ==> RewriteLink(x + ":" + alias, deployed) == x + ":" + alias
  {
    assert x[..|x|] == x;
    var l := x + ":" + alias;
    assert l[|x|] == ':';
    assert forall i :: 0 <= i < |x| ==> l[i] == x[i];
    assert IndexOf(l, ':') == |x|;
    assert l[..|x|] == x && l[|x| + 1..] == alias;
  }

  /** `getNetworkConfig`: one endpoint, keyed by the network mode, holding the rewritten links. */
  function GetNetworkConfig(service: Service, deployed: map<string, DeployedService>, s: Settings): (n: NetworkingConfig)
    ensures n.endpoints.Keys == {s.networkMode}
    ensures |n.endpoints[s.networkMode]| == |service.links|
    ensures forall i :: 0 <= i < |service.links| ==>
              n.endpoints[s.networkMode][i] == RewriteLink(service.links[i], deployed)
  {
    NetworkingConfig(map[s.networkMode :=
      seq(|service.links|, i requires 0 <= i < |service.links| => RewriteLink(service.links[i], deployed))])
  }

  // ---- pullImage ----------------------------------------------------------

  /** The repository and tag pulled for an image reference; a reference without a tag pulls `latest`. */
  function PullTarget(image: string): (string, string) {
    var k := LastIndexOf(image, ':');
    if k < |image| && '/' !in image[k + 1..] then (image[..k], image[k + 1..])
    else (image, DefaultTag)
  }

  /** A reference without `:` pulls `latest`; `name:tag` pulls exactly that tag. */
  lemma PullTargetDefaultsTag(name: string, tag: string)
    requires ':' !in tag && '/' !in tag
    ensures ':' !in name ==> PullTarget(name) == (name, DefaultTag)
    ensures PullTarget(name + ":" + tag) == (name, tag)
  {
    var image := name + ":" + tag;
    assert image[|name|] == ':';
    assert forall i :: |name| < i < |image| ==> image[i] == tag[i - |name| - 1];
    assert LastIndexOf(image, ':') == |name|;
    assert image[..|name|] == name && image[|name| + 1..] == tag;
  }

  /** `pullImage`: `pull(repository, tag)` stands for the client call and returns its error. */
  function PullImage(image: string, pull: (string, string) -> Option<string>): (r: Option<string>)
    ensures r.None? <==> pull(PullTarget(image).0, PullTarget(image).1).None?
    ensures r.Some? ==> r.value == PullErrorPrefix + pull(PullTarget(image).0, PullTarget(image).1).value
  {
    var (repository, tag) := PullTarget(image);
    match pull(repository, tag)
    case Some(e) => Some(PullErrorPrefix + e)
    case None => None
  }
}
