/** An engine that is faithful in the sense of DockerCompare, to show that there is one: a container is inspected as
    exactly what was requested of it. */
module FaithfulEngine {
  import opened Dimensions
  import opened OrderedDict
  import opened ContainerSpec
  import opened DockerCompare
  import opened Drift

  function BindList(binds: Dict<string, Bind>): seq<string> {
    KeysHaveValues(binds);
    seq(|binds.keys|, i requires 0 <= i < |binds.keys| => BindText(binds.keys[i], binds.vals[binds.keys[i]]))
  }

  lemma BindListIsFaithful(binds: Dict<string, Bind>)
    ensures Elements(BindList(binds)) == BindTexts(binds)
  {
    KeysHaveValues(binds);
    var list := BindList(binds);
    forall s | s in Elements(list)
      ensures s in BindTexts(binds)
    {
      var i :| 0 <= i < |list| && list[i] == s;
      assert binds.keys[i] in binds.vals;
    }
    forall s | s in BindTexts(binds)
      ensures s in Elements(list)
    {
      var k :| k in binds.vals && s == BindText(k, binds.vals[k]);
      var i :| 0 <= i < |binds.keys| && binds.keys[i] == k;
      assert list[i] == s;
    }
  }

  function EnvKeys(p: Params, image: Image): seq<string> {
    image.env.keys + p.environment.keys + [SERVICE_NAME]
  }

  lemma EnvKeysAreAll(p: Params, image: Image)
    ensures forall k :: k in EnvKeys(p, image) <==> k in MadeEnv(p, image)
  {
    KeysHaveValues(image.env);
    KeysHaveValues(p.environment);
  }

  function EnvList(p: Params, image: Image): seq<string> {
    EnvKeysAreAll(p, image);
    var keys, all := EnvKeys(p, image), MadeEnv(p, image);
    seq(|keys|, i requires 0 <= i < |keys| => EnvText(keys[i], all[keys[i]]))
  }

  lemma EnvListIsFaithful(p: Params, image: Image)
    ensures FaithfulEnv(p, image, EnvList(p, image))
  {
    EnvKeysAreAll(p, image);
    var keys, all, env := EnvKeys(p, image), MadeEnv(p, image), EnvList(p, image);
    forall s
      ensures s in env <==> exists k :: k in all && s == EnvText(k, all[k])
    {
      if s in env {
        var i :| 0 <= i < |env| && env[i] == s;
        assert keys[i] in all;
      }
      if k :| k in all && s == EnvText(k, all[k]) {
        var i :| 0 <= i < |keys| && keys[i] == k;
        assert env[i] == s;
      }
    }
  }

  /** The dimension that is reported under the name. */
  function DimensionOf(name: string): string {
    match name
    case "Memory" => "mem_limit"
    case "MemoryReservation" => "mem_reservation"
    case "MemorySwap" => "memswap_limit"
    case "CpuPeriod" => "cpu_period"
    case "CpuQuota" => "cpu_quota"
    case "CpuShares" => "cpu_shares"
    case "CpusetCpus" => "cpuset_cpus"
    case "CpusetMems" => "cpuset_mems"
    case "KernelMemory" => "kernel_memory"
    case _ => "blkio_weight"
  }

  function Names(): set<string> {
    set i | 0 <= i < |DIMENSIONS| :: DIMENSIONS[i].1
  }

  function Limits(p: Params): map<string, Limit>
    requires forall key :: key in p.dimensions ==> Settable(key, p.dimensions[key])
  {
    map name | name in Names() && DimensionOf(name) in p.dimensions ::
      Stored(DimensionOf(name), p.dimensions[DimensionOf(name)])
  }

  function BuiltHealth(p: Params): map<string, HealthField>
    requires Health(p.healthcheck).Ok? && Health(p.healthcheck).value.Some?
  {
    RenamedReports(p.healthcheck);
    Renamed(Health(p.healthcheck).value.value)
  }

  /** What is inspected of a container made from the parameters. */
  function Build(p: Params, image: Image): Info
    requires Creatable(p, image)
  {
    var v := VolumesFrom(p.volumes).value;
    var command := FullCommand(p, image);
    Info(
      if p.ipcMode.Some? then p.ipcMode.value else "private",
      p.capAdd,
      p.securityOpt,
      if p.pidMode.Some? then p.pidMode.value else "",
      p.privileged,
      p.cgroupnsMode,
      RequestedTmpfs(p),
      p.volumesFrom,
      BindList(v.binds),
      Limits(p),
      if p.ulimits.Some? then BuildUlimits(p.ulimits.value) else [],
      image.id,
      p.image,
      image.labels.vals + p.labels,
      Elements(v.list) + image.volumes,
      EnvList(p, image),
      if Health(p.healthcheck).value.Some? then BuiltHealth(p) else image.healthcheck,
      command[0],
      command[1..])
  }

  lemma BuildIsFaithful(api: Api, p: Params, image: Image)
    requires Creatable(p, image)
    ensures Faithful(api, p, image, Build(p, image))
  {
    hide FaithfulLimits, FaithfulEnv, HealthReport, Health, VolumesFrom, RequestedTmpfs, BuildUlimits, Limits, EnvList, BindList;
    hide Renamed, FullCommand, BindTexts, Settable, Supported;
    BindListIsFaithful(VolumesFrom(p.volumes).value.binds);
    EnvListIsFaithful(p, image);
    LimitsAreFaithful(p, Build(p, image));
    TmpfsRequested(p);
    if Health(p.healthcheck).value.Some? {
      RenamedReports(p.healthcheck);
    }
    var command := FullCommand(p, image);
    assert [command[0]] + command[1..] == command;
  }

  lemma LimitsAreFaithful(p: Params, info: Info)
    requires forall key :: key in p.dimensions ==> Settable(key, p.dimensions[key])
    requires info.limits == Limits(p) && info.ulimits == if p.ulimits.Some? then BuildUlimits(p.ulimits.value) else []
    ensures FaithfulLimits(p, info)
  {
    hide Stored, Settable, Reported, FaithfulUlimits, GivenAs, Limits, BuildUlimits;
    GivenUnder(p, info, 0);
    GivenUnder(p, info, 1);
    GivenUnder(p, info, 2);
    GivenUnder(p, info, 3);
    GivenUnder(p, info, 4);
    GivenUnder(p, info, 5);
    GivenUnder(p, info, 6);
    GivenUnder(p, info, 7);
    GivenUnder(p, info, 8);
    GivenUnder(p, info, 9);
    UlimitsAreFaithful(p);
  }

  lemma GivenUnder(p: Params, info: Info, i: nat)
    requires i < |DIMENSIONS|
    requires (forall key :: key in p.dimensions ==> Settable(key, p.dimensions[key])) && info.limits == Limits(p)
    ensures GivenAs(p, info, DIMENSIONS[i].0, DIMENSIONS[i].1)
  {
    hide Stored, Settable;
    var (key, name) := DIMENSIONS[i];
    assert name in Names();
    assert DimensionOf(name) == key;
  }

  lemma UlimitsAreFaithful(p: Params)
    ensures FaithfulUlimits(p, if p.ulimits.Some? then BuildUlimits(p.ulimits.value) else [])
  {
    if p.ulimits.Some? {
      BuiltUlimits(p.ulimits.value);
    }
  }
}
