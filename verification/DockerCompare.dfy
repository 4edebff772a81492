/** Comparing a container with the parameters requested for it (check_container_differs and the compare methods of
    ansible/module_utils/kolla_container_worker.py and ansible/module_utils/kolla_docker_worker.py), and what a
    container created from the parameters looks like.  Module Drift says what the comparison finds. */
module DockerCompare {
  import opened Common
  import opened Decimal
  import opened Dimensions
  import opened OrderedDict
  import opened ContainerSpec

  // ----- What the engine reports -----

  /** A local image.  Its environment is given as a dictionary, as the engine sees it. */
  datatype Image = Image(
    id: string,
    labels: Dict<string, string>,
    env: Dict<string, string>,
    entrypoint: seq<string>,
    cmd: seq<string>,
    volumes: set<string>,
    healthcheck: map<string, HealthField>)

  datatype Status = Created | Running | Paused | Restarting | Exited

  function StatusText(s: Status): string {
    match s
    case Created => "created"
    case Running => "running"
    case Paused => "paused"
    case Restarting => "restarting"
    case Exited => "exited"
  }

  /** The part of a container's inspection that is compared. */
  datatype Info = Info(
    ipcMode: string,
    capAdd: seq<string>,
    securityOpt: seq<string>,
    pidMode: string,
    privileged: bool,
    cgroupnsMode: Option<NsMode>,
    tmpfs: seq<string>,
    volumesFrom: seq<string>,
    binds: seq<string>,
    limits: map<string, Limit>,
    ulimits: seq<Ulimit>,
    imageId: string,
    imageName: string,
    labels: map<string, string>,
    volumes: set<string>,
    env: seq<string>,
    healthcheck: map<string, HealthField>,
    path: string,
    args: seq<string>)

  /** What depends on the engine's version. */
  datatype Api = Api(cgroupnsSupported: bool, kernelMemoryRemoved: bool)

  // ----- The comparisons -----

  /** A comparison may also raise an exception, or end the whole action itself. */
  datatype Verdict = Same | Different | Raises | Exits

  function When(different: bool): Verdict {
    if different then Different else Same
  }

  function CompareCapAdd(p: Params, info: Info): Verdict {
    When(Elements(p.capAdd) != Elements(info.capAdd))
  }

  function CompareSecurityOpt(p: Params, info: Info): Verdict {
    if p.ipcMode == Some("host") || p.pidMode == Some("host") || p.privileged then Same
    else When(Elements(p.securityOpt) != Elements(info.securityOpt))
  }

  function CompareImage(p: Params, image: Option<Image>, info: Info): Verdict {
    if image.None? then Different
    else if image.value.id != info.imageId then Different
    else When(RepositoryTag(info.imageName) != RepositoryTag(p.image))
  }

  function CompareIpcMode(p: Params, info: Info): Verdict {
    When(p.ipcMode.Some? && p.ipcMode != (if info.ipcMode == "" then None else Some(info.ipcMode)))
  }

  /** Goes through the image's labels: those that were not requested are taken out of the current ones. */
  function CompareLabelsFrom(keys: seq<string>, image: map<string, string>, new_: map<string, string>,
                             current: map<string, string>): Verdict
    requires forall k :: k in keys ==> k in image
  {
    if keys == [] then When(new_ != current)
    else
      var k := keys[0];
      if k in new_ then
        if image[k] != new_[k] then Different else CompareLabelsFrom(keys[1..], image, new_, current)
      else if k !in current then Raises
      else CompareLabelsFrom(keys[1..], image, new_, current - {k})
  }

  function CompareLabels(p: Params, image: Option<Image>, info: Info): Verdict {
    if image.None? then Raises
    else
      KeysHaveValues(image.value.labels);
      CompareLabelsFrom(image.value.labels.keys, image.value.labels.vals, p.labels, info.labels)
  }

  function ComparePrivileged(p: Params, info: Info): Verdict {
    When(p.privileged != info.privileged)
  }

  function ComparePidMode(p: Params, info: Info): Verdict {
    When(p.pidMode != (if info.pidMode == "" then None else Some(info.pidMode)))
  }

  function CompareCgroupnsMode(api: Api, p: Params, info: Info): Verdict {
    if !api.cgroupnsSupported || p.cgroupnsMode.None? then Same
    else When(p.cgroupnsMode.value != if info.cgroupnsMode.None? then HostNs else info.cgroupnsMode.value)
  }

  function RequestedTmpfs(p: Params): seq<string> {
    Without(p.tmpfs, {""})
  }

  function CompareTmpfs(p: Params, info: Info): Verdict {
    When(Elements(info.tmpfs) != Elements(RequestedTmpfs(p)))
  }

  function BindTexts(binds: Dict<string, Bind>): set<string> {
    set k | k in binds.vals :: BindText(k, binds.vals[k])
  }

  function CompareVolumes(p: Params, info: Info): Verdict {
    match VolumesFrom(p.volumes)
    case Err(_) => Raises
    case Ok(v) => When(Elements(v.list) != info.volumes || BindTexts(v.binds) != Elements(info.binds))
  }

  function CompareVolumesFrom(p: Params, info: Info): Verdict {
    When(Elements(info.volumesFrom) != Elements(p.volumesFrom))
  }

  /** The current environment as a dictionary; None if an entry has no equals sign. */
  function CurrentEnv(env: seq<string>): Option<map<string, string>> {
    if env == [] then Some(map[])
    else
      match CurrentEnv(env[..|env| - 1])
      case None => None
      case Some(m) =>
        match SplitFirst(env[|env| - 1], '=')
        case None => None
        case Some((k, v)) => Some(m[k := v])
  }

  function CompareEnvironment(p: Params, info: Info): Verdict {
    if p.environment.keys == [] then Same
    else
      match CurrentEnv(info.env)
      case None => Raises
      case Some(current) => When(!EnvironmentIn(p, current))
  }

  predicate EnvironmentIn(p: Params, current: map<string, string>) {
    forall k :: k in p.environment.vals ==> k in current && p.environment.vals[k] == Str(current[k])
  }

  function CompareState(p: Params, status: Status): Verdict {
    if p.state == "started" && status == Running then Same else When(p.state != StatusText(status))
  }

  /** The requested dimensions and the names under which the engine reports them. */
  const DIMENSIONS := [
    ("mem_limit", "Memory"), ("mem_reservation", "MemoryReservation"), ("memswap_limit", "MemorySwap"),
    ("cpu_period", "CpuPeriod"), ("cpu_quota", "CpuQuota"), ("cpu_shares", "CpuShares"),
    ("cpuset_cpus", "CpusetCpus"), ("cpuset_mems", "CpusetMems"), ("kernel_memory", "KernelMemory"),
    ("blkio_weight", "BlkioWeight")]

  predicate Compared(api: Api, key: string) {
    exists i :: 0 <= i < |DIMENSIONS| && DIMENSIONS[i].0 == key && (key == "kernel_memory" ==> !api.kernelMemoryRemoved)
  }

  predicate IsSet(v: Limit) {
    match v
    case Null => false
    case Num(n) => n != 0
    case Text(s) => s != ""
  }

  function Reported(info: Info, name: string): Limit {
    if name in info.limits then info.limits[name] else Null
  }

  function CompareDimension(p: Params, info: Info, key: string, name: string): Verdict {
    if key in p.dimensions then
      match Differ(p.dimensions[key], Reported(info, name))
      case Err(e) => if e.NoLongerSupported? || e.UnsupportedUnit? then Exits else Raises
      case Ok(differ) => When(differ)
    else When(IsSet(Reported(info, name)))
  }

  function Or(a: Verdict, b: Verdict): Verdict {
    if a.Same? then b else a
  }

  function CompareDimensionsFrom(api: Api, p: Params, info: Info, i: nat): Verdict
    requires i <= |DIMENSIONS|
    decreases |DIMENSIONS| - i
  {
    if i == |DIMENSIONS| then CompareUlimits(p, info)
    else
      var (key, name) := DIMENSIONS[i];
      Or(if key == "kernel_memory" && api.kernelMemoryRemoved then Same else CompareDimension(p, info, key, name),
         CompareDimensionsFrom(api, p, info, i + 1))
  }

  function BuildUlimits(ulimits: Dict<string, (int, int)>): seq<Ulimit> {
    KeysHaveValues(ulimits);
    seq(|ulimits.keys|, i requires 0 <= i < |ulimits.keys| =>
      var limits := ulimits.vals[ulimits.keys[i]]; Ulimit(ulimits.keys[i], limits.0, limits.1))
  }

  /** The requested limits have distinct names, so sorting both lists by name compares them as multisets. */
  function CompareUlimits(p: Params, info: Info): Verdict {
    match p.ulimits
    case None => When(info.ulimits != [])
    case Some(ulimits) => When(multiset(BuildUlimits(ulimits)) != multiset(info.ulimits))
  }

  function CompareDimensions(api: Api, p: Params, info: Info): Verdict {
    if exists key :: key in p.dimensions && !Compared(api, key) then Exits else CompareDimensionsFrom(api, p, info, 0)
  }

  function CompareCommand(p: Params, info: Info): Verdict {
    if p.command.None? then Same
    else if p.command.value == [] then Raises
    else When(p.command.value[0] != info.path || p.command.value[1..] != info.args)
  }

  function Renamed(fields: map<string, HealthField>): map<string, HealthField>
    requires fields.Keys == Elements(HEALTH_OPTIONS)
  {
    map["Test" := fields["test"], "Retries" := fields["retries"], "Interval" := fields["interval"],
        "StartPeriod" := fields["start_period"], "Timeout" := fields["timeout"]]
  }

  function CompareHealthcheck(p: Params, info: Info): Verdict {
    match Health(p.healthcheck)
    case Err(e) => if e == BadParameters then Exits else Raises
    case Ok(None) => When(info.healthcheck != map[])
    case Ok(Some(fields)) =>
      HealthIsComplete(p.healthcheck);
      When(info.healthcheck == map[] || Renamed(fields) != info.healthcheck)
  }

  /** check_container_differs: the comparisons in turn, up to the first that does not find the container the same. */
  function Compare(api: Api, p: Params, image: Option<Image>, info: Info, status: Status): Verdict {
    Or(CompareCapAdd(p, info),
    Or(CompareSecurityOpt(p, info),
    Or(CompareImage(p, image, info),
    Or(CompareIpcMode(p, info),
    Or(CompareLabels(p, image, info),
    Or(ComparePrivileged(p, info),
    Or(ComparePidMode(p, info),
    Or(CompareCgroupnsMode(api, p, info),
    Or(CompareTmpfs(p, info),
    Or(CompareVolumes(p, info),
    Or(CompareVolumesFrom(p, info),
    Or(CompareEnvironment(p, info),
    Or(CompareState(p, status),
    Or(CompareDimensions(api, p, info),
    Or(CompareCommand(p, info),
       CompareHealthcheck(p, info))))))))))))))))
  }

  // ----- What a container created from the parameters looks like -----

  const SERVICE_NAME := "KOLLA_SERVICE_NAME"

  /** With dashes for underscores. */
  function Dashed(s: string): (r: string)
    ensures |r| == |s| && '_' !in r
    ensures forall i :: 0 <= i < |s| ==> if s[i] == '_' then r[i] == '-' else r[i] == s[i]
  {
    seq(|s|, i requires 0 <= i < |s| => if s[i] == '_' then '-' else s[i])
  }

  function Formatted(v: EnvValue): string {
    match v
    case Absent => ""
    case Str(s) => s
    case Number(n) => PrintInt(n)
  }

  /** The environment passed to the engine: the service's name is put in, over a requested one. */
  function FormatEnvVars(p: Params): map<string, string> {
    map k | k in p.environment.vals.Keys + {SERVICE_NAME} ::
      if k == SERVICE_NAME then Dashed(p.name) else Formatted(p.environment.vals[k])
  }

  predicate IsCpuset(key: string) {
    key == "cpuset_cpus" || key == "cpuset_mems"
  }

  predicate Supported(key: string) {
    key in {"mem_limit", "mem_reservation", "memswap_limit", "cpu_period", "cpu_quota", "cpu_shares",
            "cpuset_cpus", "cpuset_mems", "kernel_memory", "blkio_weight"}
  }

  /** Limits that the engine can be given: a set of processors is a text, everything else an amount. */
  predicate Settable(key: string, v: Limit) {
    v.Null? || if IsCpuset(key) then v.Text? else IsAmount(v)
  }

  /** What the engine reports for a limit that it was given. */
  function Stored(key: string, v: Limit): Limit
    requires Settable(key, v)
  {
    if IsCpuset(key) then (if v.Null? then Text("") else v)
    else Num(if v.Null? then 0 else Bytes(v))
  }

  function FullCommand(p: Params, image: Image): seq<string> {
    image.entrypoint + if p.command.Some? && p.command.value != [] then p.command.value else image.cmd
  }

  /** Parameters from which build_container_options and the engine can make a container. */
  predicate Creatable(p: Params, image: Image) {
    && VolumesFrom(p.volumes).Ok?
    && Health(p.healthcheck).Ok?
    && (forall key :: key in p.dimensions ==> Supported(key) && Settable(key, p.dimensions[key]))
    && (p.ulimits.Some? ==> p.ulimits.value.keys != [])
    && FullCommand(p, image) != []
  }

  /** The parameters as the module hands them over: modes that are empty have been dropped. */
  predicate WellFormed(p: Params) {
    p.ipcMode != Some("") && p.pidMode != Some("")
  }

  function EnvText(k: string, v: string): string {
    k + "=" + v
  }

  /** The environment that a container made from the parameters has. */
  function MadeEnv(p: Params, image: Image): map<string, string> {
    image.env.vals + FormatEnvVars(p)
  }

  ghost predicate FaithfulEnv(p: Params, image: Image, env: seq<string>) {
    var all := MadeEnv(p, image);
    forall s :: s in env <==> exists k :: k in all && s == EnvText(k, all[k])
  }

  /** The limit is reported under the name as the engine has stored it, or is at its default. */
  predicate GivenAs(p: Params, info: Info, key: string, name: string)
    requires forall key :: key in p.dimensions ==> Settable(key, p.dimensions[key])
  {
    if key in p.dimensions then Reported(info, name) == Stored(key, p.dimensions[key]) else !IsSet(Reported(info, name))
  }

  /** The requested resource limits, soft and hard, by name. */
  function AskedUlimits(p: Params): map<string, (int, int)> {
    if p.ulimits.Some? then p.ulimits.value.vals else map[]
  }

  /** Each resource limit is reported once, as it was requested, and no other is. */
  ghost predicate FaithfulUlimits(p: Params, ulimits: seq<Ulimit>) {
    && Distinct(ulimits)
    && forall u :: u in ulimits <==> u.name in AskedUlimits(p) && AskedUlimits(p)[u.name] == (u.soft, u.hard)
  }

  ghost predicate FaithfulLimits(p: Params, info: Info)
    requires forall key :: key in p.dimensions ==> Settable(key, p.dimensions[key])
  {
    && GivenAs(p, info, "mem_limit", "Memory")
    && GivenAs(p, info, "mem_reservation", "MemoryReservation")
    && GivenAs(p, info, "memswap_limit", "MemorySwap")
    && GivenAs(p, info, "cpu_period", "CpuPeriod")
    && GivenAs(p, info, "cpu_quota", "CpuQuota")
    && GivenAs(p, info, "cpu_shares", "CpuShares")
    && GivenAs(p, info, "cpuset_cpus", "CpusetCpus")
    && GivenAs(p, info, "cpuset_mems", "CpusetMems")
    && GivenAs(p, info, "kernel_memory", "KernelMemory")
    && GivenAs(p, info, "blkio_weight", "BlkioWeight")
    && FaithfulUlimits(p, info.ulimits)
  }

  /** The engine gives the container what was requested, in whatever order, takes the rest from the image, and leaves
      limits that were not requested at their defaults. */
  ghost predicate Faithful(api: Api, p: Params, image: Image, info: Info)
    requires Creatable(p, image)
  {
    var v := VolumesFrom(p.volumes).value;
    var health := Health(p.healthcheck).value;
    var command := FullCommand(p, image);
    && Elements(info.capAdd) == Elements(p.capAdd)
    && Elements(info.securityOpt) == Elements(p.securityOpt)
    && info.imageId == image.id && info.imageName == p.image
    && (p.ipcMode.Some? ==> info.ipcMode == p.ipcMode.value)
    && info.labels == image.labels.vals + p.labels
    && info.privileged == p.privileged
    && info.pidMode == (if p.pidMode.Some? then p.pidMode.value else "")
    && (api.cgroupnsSupported && p.cgroupnsMode.Some? ==> info.cgroupnsMode == p.cgroupnsMode)
    && Elements(info.tmpfs) == Elements(p.tmpfs) - {""}
    && info.volumes == Elements(v.list) + image.volumes && Elements(info.binds) == BindTexts(v.binds)
    && Elements(info.volumesFrom) == Elements(p.volumesFrom)
    && FaithfulEnv(p, image, info.env)
    && FaithfulLimits(p, info)
    && [info.path] + info.args == command
    && (if health.Some? then HealthReport(p.healthcheck.vals, info.healthcheck) else info.healthcheck == image.healthcheck)
  }

  /** An image that is not there is a difference, and so is another one than the container's. */
  lemma SameNeedsImage(api: Api, p: Params, image: Option<Image>, info: Info, status: Status)
    requires Compare(api, p, image, info, status) == Same
    ensures image.Some? && image.value.id == info.imageId
  {
  }

  /** A container that is not in the requested state is a difference; "started" asks for a running one. */
  lemma SameIsInState(api: Api, p: Params, image: Option<Image>, info: Info, status: Status)
    ensures CompareState(p, status) == Same <==>
            match status
            case Created => p.state == "created"
            case Running => p.state == "running" || p.state == "started"
            case Paused => p.state == "paused"
            case Restarting => p.state == "restarting"
            case Exited => p.state == "exited"
    ensures Compare(api, p, image, info, status) == Same ==> CompareState(p, status) == Same
  {
  }

  lemma NoImageDiffers(api: Api, p: Params)
    ensures forall info, status :: Compare(api, p, None, info, status) != Same
  {
    forall info, status
      ensures Compare(api, p, None, info, status) != Same
    {
      if Compare(api, p, None, info, status) == Same {
        SameNeedsImage(api, p, None, info, status);
      }
    }
  }

  lemma SameIsRunning(api: Api, p: Params, image: Option<Image>, info: Info, status: Status)
    requires Compare(api, p, image, info, status) == Same && (p.state == "running" || p.state == "started")
    ensures image.Some? && status == Running
  {
  }
}
