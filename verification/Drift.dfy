/** What check_container_differs finds (ansible/module_utils/kolla_container_worker.py, with the parts of
    ansible/module_utils/kolla_docker_worker.py): whether a container that was made from some parameters is what others
    request.

    The main results are DriftIsDetected, on any two sets of parameters, and Convergence, on one and the same. */
module Drift {
  import opened Common
  import opened Decimal
  import opened Dimensions
  import opened OrderedDict
  import opened ContainerSpec
  import opened DockerCompare

  // ----- When what was made from p is what q requests -----

  /** The labels that the container has. */
  function MadeLabels(p: Params, image: Image): map<string, string> {
    image.labels.vals + p.labels
  }

  /** Requested labels agree with the image's own, and the container has them and no others, but for the image's. */
  predicate SameLabels(p: Params, q: Params, image: Image) {
    var made := MadeLabels(p, image);
    && (forall k :: k in q.labels ==> k in made && made[k] == q.labels[k])
    && (forall k :: k in q.labels && k in image.labels.vals ==> image.labels.vals[k] == q.labels[k])
    && (forall k :: k in made && k !in image.labels.vals ==> k in q.labels)
  }

  predicate SameVolumes(p: Params, q: Params, image: Image)
    requires VolumesFrom(p.volumes).Ok?
  {
    && VolumesFrom(q.volumes).Ok?
    && var (made, requested) := (VolumesFrom(p.volumes).value, VolumesFrom(q.volumes).value);
       Elements(requested.list) == Elements(made.list) + image.volumes && BindTexts(requested.binds) == BindTexts(made.binds)
  }

  ghost predicate PlainNames(m: map<string, string>) {
    forall k :: k in m ==> '=' !in k
  }

  predicate SameEnvironment(p: Params, q: Params, image: Image) {
    var made := MadeEnv(p, image);
    forall k :: k in q.environment.vals ==> '=' !in k && k in made && q.environment.vals[k] == Str(made[k])
  }

  /** A requested limit is compared with one that was given to the engine: a set of processors as a text, an amount by
      its value. */
  predicate SameLimit(key: string, requested: Limit, given: Limit)
    requires Settable(key, requested) && Settable(key, given)
  {
    if IsCpuset(key) then
      requested.Text? && given.Text? && requested.s != "" && given.s != "" &&
      Normal(requested.s).Ok? && Normal(requested.s) == Normal(given.s)
    else
      IsAmount(requested) && ComparedByValue(requested) && Bytes(requested) == if given.Null? then 0 else Bytes(given)
  }

  /** A limit that comes to none. */
  predicate NoLimit(key: string, given: Limit)
    requires Settable(key, given)
  {
    given.Null? || (if IsCpuset(key) then given.s == "" else Bytes(given) == 0)
  }

  /** The dimension is not looked at, or is requested as it was given, or neither requested nor given.  A limit that is
      requested although none was given is compared with the default that the engine reports. */
  predicate SameDimension(api: Api, p: Params, q: Params, info: Info, key: string, name: string)
    requires SettableLimits(p) && SettableLimits(q)
  {
    if key == "kernel_memory" && api.kernelMemoryRemoved then true
    else if key in q.dimensions then
      if key in p.dimensions then SameLimit(key, q.dimensions[key], p.dimensions[key])
      else Differ(q.dimensions[key], Reported(info, name)) == Ok(false)
    else key in p.dimensions ==> NoLimit(key, p.dimensions[key])
  }

  predicate SettableLimits(p: Params) {
    forall key :: key in p.dimensions ==> Settable(key, p.dimensions[key])
  }

  /** The dimension is looked at. */
  predicate LookedAt(api: Api, key: string) {
    Supported(key) && (key == "kernel_memory" ==> !api.kernelMemoryRemoved)
  }

  predicate SameDimensions(api: Api, p: Params, q: Params, info: Info)
    requires SettableLimits(p) && SettableLimits(q)
  {
    && (forall key :: key in q.dimensions ==> LookedAt(api, key))
    && SameDimension(api, p, q, info, "mem_limit", "Memory")
    && SameDimension(api, p, q, info, "mem_reservation", "MemoryReservation")
    && SameDimension(api, p, q, info, "memswap_limit", "MemorySwap")
    && SameDimension(api, p, q, info, "cpu_period", "CpuPeriod")
    && SameDimension(api, p, q, info, "cpu_quota", "CpuQuota")
    && SameDimension(api, p, q, info, "cpu_shares", "CpuShares")
    && SameDimension(api, p, q, info, "cpuset_cpus", "CpusetCpus")
    && SameDimension(api, p, q, info, "cpuset_mems", "CpusetMems")
    && SameDimension(api, p, q, info, "kernel_memory", "KernelMemory")
    && SameDimension(api, p, q, info, "blkio_weight", "BlkioWeight")
    && AskedUlimits(q) == AskedUlimits(p)
  }

  predicate SameCommand(p: Params, q: Params, image: Image) {
    q.command.Some? ==> q.command.value == FullCommand(p, image)
  }

  /** The healthcheck that the container has, its own or the image's, is the requested one, or there is none. */
  ghost predicate SameHealthcheck(p: Params, q: Params, image: Image)
    requires Health(p.healthcheck).Ok?
  {
    && Health(q.healthcheck).Ok?
    && if Health(p.healthcheck).value.None? then HealthIs(q, image.healthcheck)
       else exists report :: HealthReport(p.healthcheck.vals, report) && HealthIs(q, report)
  }

  /** The healthcheck is reported as it is requested. */
  predicate HealthIs(q: Params, report: map<string, HealthField>)
    requires Health(q.healthcheck).Ok?
  {
    if Health(q.healthcheck).value.None? then report == map[] else HealthReport(q.healthcheck.vals, report)
  }

  /** Modes and lists that are compared one to one.  Modes that were not requested of the engine are its own choice. */
  predicate SameModes(api: Api, p: Params, q: Params, info: Info) {
    && Elements(q.capAdd) == Elements(p.capAdd)
    && (q.ipcMode == Some("host") || q.pidMode == Some("host") || q.privileged ||
        Elements(q.securityOpt) == Elements(p.securityOpt))
    && RepositoryTag(q.image) == RepositoryTag(p.image)
    && (q.ipcMode.Some? ==> q.ipcMode.value == if p.ipcMode.Some? then p.ipcMode.value else info.ipcMode)
    && q.privileged == p.privileged
    && q.pidMode == p.pidMode
    && (api.cgroupnsSupported && q.cgroupnsMode.Some? ==>
          q.cgroupnsMode.value == if p.cgroupnsMode.Some? then p.cgroupnsMode.value
                                  else if info.cgroupnsMode.Some? then info.cgroupnsMode.value else HostNs)
    && Elements(q.tmpfs) - {""} == Elements(p.tmpfs) - {""}
    && Elements(q.volumesFrom) == Elements(p.volumesFrom)
    && (q.state == "running" || q.state == "started")
  }

  /** A container made from p is what q requests. */
  ghost predicate Agree(api: Api, p: Params, q: Params, image: Image, info: Info)
    requires Creatable(p, image) && SettableLimits(q)
  {
    && SameModes(api, p, q, info)
    && SameLabels(p, q, image)
    && SameVolumes(p, q, image)
    && SameEnvironment(p, q, image)
    && SameDimensions(api, p, q, info)
    && SameCommand(p, q, image)
    && SameHealthcheck(p, q, image)
  }

  // ----- Labels -----

  /** The loop over the image's labels. */
  lemma {:induction false} LabelsCompare(keys: seq<string>, image: map<string, string>, new_: map<string, string>,
                                         current: map<string, string>)
    requires Distinct(keys) && Elements(keys) <= current.Keys && forall k :: k in keys ==> k in image
    ensures CompareLabelsFrom(keys, image, new_, current) == Same <==>
            (forall k :: k in keys && k in new_ ==> image[k] == new_[k]) && new_ == current - (Elements(keys) - new_.Keys)
    decreases keys
  {
    if keys == [] {
      assert current - {} == current;
    } else {
      var k, rest := keys[0], keys[1..];
      assert keys == [k] + rest;
      ElementsConcat([k], rest);
      DistinctConcat([k], rest);
      assert k in Elements([k]);
      if k !in new_ {
        LabelsCompare(rest, image, new_, current - {k});
        assert (current - {k}) - (Elements(rest) - new_.Keys) == current - (Elements(keys) - new_.Keys);
      } else {
        LabelsCompare(rest, image, new_, current);
        assert Elements(rest) - new_.Keys == Elements(keys) - new_.Keys;
      }
    }
  }

  lemma LabelsMean(p: Params, q: Params, image: Image, info: Info)
    requires info.labels == MadeLabels(p, image)
    ensures CompareLabels(q, Some(image), info) == Same <==> SameLabels(p, q, image)
  {
    KeysHaveValues(image.labels);
    LabelsCompare(image.labels.keys, image.labels.vals, q.labels, info.labels);
    var others := info.labels - (Elements(image.labels.keys) - q.labels.Keys);
    if SameLabels(p, q, image) {
      assert q.labels == others;
    }
  }

  // ----- Environment -----

  /** Every entry has an equals sign, and no name in the dictionary does. */
  lemma {:induction false} CurrentEnvNames(env: seq<string>)
    requires forall s :: s in env ==> '=' in s
    ensures CurrentEnv(env).Some? && PlainNames(CurrentEnv(env).value)
  {
    if env != [] {
      CurrentEnvNames(env[..|env| - 1]);
      SplitFirstMeans(env[|env| - 1], '=');
      assert env[|env| - 1] in env;
    }
  }

  /** Entries made from a dictionary with plain names are read as that dictionary. */
  lemma {:induction false} CurrentEnvIs(env: seq<string>, m: map<string, string>)
    requires PlainNames(m) && forall s :: s in env ==> exists k :: k in m && s == EnvText(k, m[k])
    ensures CurrentEnv(env).Some?
    ensures var c := CurrentEnv(env).value;
            && (forall k :: k in c ==> k in m && c[k] == m[k])
            && (forall k :: k in m && EnvText(k, m[k]) in env ==> k in c)
  {
    if env != [] {
      var init, last := env[..|env| - 1], env[|env| - 1];
      assert env == init + [last] && last in env && forall s :: s in init ==> s in env;
      CurrentEnvIs(init, m);
      var k :| k in m && last == EnvText(k, m[k]);
      SplitFirstAt(k, '=', m[k]);
      forall k' | k' in m && EnvText(k', m[k']) == last
        ensures k' == k
      {
        SplitFirstAt(k', '=', m[k']);
      }
    }
  }

  lemma EnvIsReadBack(p: Params, image: Image, env: seq<string>)
    requires FaithfulEnv(p, image, env) && PlainNames(MadeEnv(p, image))
    ensures CurrentEnv(env) == Some(MadeEnv(p, image))
  {
    var made := MadeEnv(p, image);
    CurrentEnvIs(env, made);
    forall k | k in made
      ensures k in CurrentEnv(env).value
    {
      assert EnvText(k, made[k]) in env;
    }
    assert CurrentEnv(env).value == made;
  }

  lemma EnvironmentMeans(p: Params, q: Params, image: Image, info: Info)
    requires FaithfulEnv(p, image, info.env) && PlainNames(MadeEnv(p, image))
    ensures CompareEnvironment(q, info) == Same <==> SameEnvironment(p, q, image)
  {
    KeysHaveValues(q.environment);
    EnvIsReadBack(p, image, info.env);
  }

  // ----- Dimensions -----

  lemma LimitMeans(key: string, requested: Limit, given: Limit)
    requires Settable(key, requested) && Settable(key, given)
    ensures Differ(requested, Stored(key, given)) == Ok(false) <==> SameLimit(key, requested, given)
    ensures IsSet(Stored(key, given)) <==> !NoLimit(key, given)
  {
    if !IsCpuset(key) && IsAmount(requested) {
      DecidesEqualValue(requested, Stored(key, given));
    }
  }

  lemma DimensionMeans(api: Api, p: Params, q: Params, info: Info, key: string, name: string)
    requires SettableLimits(p) && SettableLimits(q) && GivenAs(p, info, key, name)
    ensures DimensionIsSame(api, q, info, key, name) <==> SameDimension(api, p, q, info, key, name)
  {
    if key in p.dimensions {
      LimitMeans(key, if key in q.dimensions then q.dimensions[key] else Null, p.dimensions[key]);
    }
  }

  /** The loop finds nothing at the dimension. */
  predicate DimensionIsSame(api: Api, q: Params, info: Info, key: string, name: string) {
    (key == "kernel_memory" && api.kernelMemoryRemoved) || CompareDimension(q, info, key, name) == Same
  }

  /** The loop over the dimensions, from dimension i on. */
  lemma {:induction false} DimensionsCompare(api: Api, q: Params, info: Info, i: nat)
    requires i <= |DIMENSIONS|
    ensures CompareDimensionsFrom(api, q, info, i) == Same <==>
            && (forall j :: i <= j < |DIMENSIONS| ==> DimensionIsSame(api, q, info, DIMENSIONS[j].0, DIMENSIONS[j].1))
            && CompareUlimits(q, info) == Same
    decreases |DIMENSIONS| - i
  {
    hide CompareDimension, CompareUlimits;
    if i < |DIMENSIONS| {
      DimensionsCompare(api, q, info, i + 1);
      assert CompareDimensionsFrom(api, q, info, i) == Same <==>
        DimensionIsSame(api, q, info, DIMENSIONS[i].0, DIMENSIONS[i].1) && CompareDimensionsFrom(api, q, info, i + 1) == Same;
    }
  }

  /** A list without repetition has each of its elements once. */
  lemma {:induction false} OnceEach(s: seq<Ulimit>, u: Ulimit)
    requires Distinct(s)
    ensures multiset(s)[u] == if u in s then 1 else 0
  {
    if s != [] {
      OnceEach(s[..|s| - 1], u);
      assert s == s[..|s| - 1] + [s[|s| - 1]];
    }
  }

  lemma SameElements(s: seq<Ulimit>, t: seq<Ulimit>)
    requires Distinct(s) && Distinct(t)
    ensures multiset(s) == multiset(t) <==> forall u :: u in s <==> u in t
  {
    if forall u :: u in s <==> u in t {
      forall u
        ensures multiset(s)[u] == multiset(t)[u]
      {
        OnceEach(s, u);
        OnceEach(t, u);
      }
    }
    if multiset(s) == multiset(t) {
      forall u
        ensures u in s <==> u in t
      {
        assert u in s <==> u in multiset(s);
      }
    }
  }

  /** What is requested is faithful to itself. */
  lemma BuiltUlimits(ulimits: Dict<string, (int, int)>)
    ensures Distinct(BuildUlimits(ulimits))
    ensures forall u :: u in BuildUlimits(ulimits) <==> u.name in ulimits.vals && ulimits.vals[u.name] == (u.soft, u.hard)
  {
    KeysHaveValues(ulimits);
    var built := BuildUlimits(ulimits);
    forall u: Ulimit | u.name in ulimits.vals && ulimits.vals[u.name] == (u.soft, u.hard)
      ensures u in built
    {
      var i :| 0 <= i < |ulimits.keys| && ulimits.keys[i] == u.name;
      assert built[i] == u;
    }
  }

  lemma UlimitsMean(p: Params, q: Params, info: Info)
    requires FaithfulUlimits(p, info.ulimits)
    ensures CompareUlimits(q, info) == Same <==> AskedUlimits(q) == AskedUlimits(p)
  {
    hide BuildUlimits, Distinct;
    var asked := if q.ulimits.Some? then BuildUlimits(q.ulimits.value) else [];
    if q.ulimits.Some? {
      BuiltUlimits(q.ulimits.value);
      SameElements(asked, info.ulimits);
    }
    UlimitsTell(AskedUlimits(q), asked, AskedUlimits(p), info.ulimits);
  }

  /** Lists of the resource limits in two dictionaries have the same elements exactly when the dictionaries agree. */
  lemma UlimitsTell(a: map<string, (int, int)>, s: seq<Ulimit>, b: map<string, (int, int)>, t: seq<Ulimit>)
    requires forall u :: u in s <==> u.name in a && a[u.name] == (u.soft, u.hard)
    requires forall u :: u in t <==> u.name in b && b[u.name] == (u.soft, u.hard)
    ensures a == b <==> forall u :: u in s <==> u in t
    ensures s == [] ==> (a == b <==> t == [])
  {
    if forall u :: u in s <==> u in t {
      forall name
        ensures name in a <==> name in b
        ensures name in a ==> a[name] == b[name]
      {
        if name in a {
          assert Ulimit(name, a[name].0, a[name].1) in s;
        }
        if name in b {
          assert Ulimit(name, b[name].0, b[name].1) in t;
        }
      }
      assert a == b;
    }
    if s == [] && t != [] {
      assert t[0] in t;
    }
  }

  lemma DimensionsMean(api: Api, p: Params, q: Params, info: Info)
    requires SettableLimits(p) && SettableLimits(q) && FaithfulLimits(p, info)
    ensures CompareDimensions(api, q, info) == Same <==> SameDimensions(api, p, q, info)
  {
    hide DimensionIsSame, SameDimension, CompareUlimits, FaithfulUlimits, SettableLimits, CompareDimensionsFrom, GivenAs;
    hide AskedUlimits;
    DimensionsCompare(api, q, info, 0);
    UlimitsMean(p, q, info);
    ComparedIsLookedAt(api, q);
    forall i | 0 <= i < |DIMENSIONS|
      ensures var (key, name) := DIMENSIONS[i];
              DimensionIsSame(api, q, info, key, name) <==> SameDimension(api, p, q, info, key, name)
    {
      DimensionMeans(api, p, q, info, DIMENSIONS[i].0, DIMENSIONS[i].1);
    }
    AllDimensions(api, p, q, info);
  }

  lemma ComparedIsLookedAt(api: Api, q: Params)
    ensures forall key :: Compared(api, key) <==> LookedAt(api, key)
  {
    assert forall i :: 0 <= i < |DIMENSIONS| ==> Supported(DIMENSIONS[i].0);
    forall key | Supported(key)
      ensures exists i :: 0 <= i < |DIMENSIONS| && DIMENSIONS[i].0 == key
    {
      assert DIMENSIONS[0].0 == "mem_limit" && DIMENSIONS[1].0 == "mem_reservation" && DIMENSIONS[2].0 == "memswap_limit";
      assert DIMENSIONS[3].0 == "cpu_period" && DIMENSIONS[4].0 == "cpu_quota" && DIMENSIONS[5].0 == "cpu_shares";
      assert DIMENSIONS[6].0 == "cpuset_cpus" && DIMENSIONS[7].0 == "cpuset_mems" && DIMENSIONS[8].0 == "kernel_memory";
      assert DIMENSIONS[9].0 == "blkio_weight";
    }
  }

  lemma AllDimensions(api: Api, p: Params, q: Params, info: Info)
    requires SettableLimits(p) && SettableLimits(q)
    ensures (forall i :: 0 <= i < |DIMENSIONS| ==> SameDimension(api, p, q, info, DIMENSIONS[i].0, DIMENSIONS[i].1)) <==>
            && SameDimension(api, p, q, info, "mem_limit", "Memory")
            && SameDimension(api, p, q, info, "mem_reservation", "MemoryReservation")
            && SameDimension(api, p, q, info, "memswap_limit", "MemorySwap")
            && SameDimension(api, p, q, info, "cpu_period", "CpuPeriod")
            && SameDimension(api, p, q, info, "cpu_quota", "CpuQuota")
            && SameDimension(api, p, q, info, "cpu_shares", "CpuShares")
            && SameDimension(api, p, q, info, "cpuset_cpus", "CpusetCpus")
            && SameDimension(api, p, q, info, "cpuset_mems", "CpusetMems")
            && SameDimension(api, p, q, info, "kernel_memory", "KernelMemory")
            && SameDimension(api, p, q, info, "blkio_weight", "BlkioWeight")
  {
    hide SameDimension;
    assert DIMENSIONS[0] == ("mem_limit", "Memory") && DIMENSIONS[1] == ("mem_reservation", "MemoryReservation");
    assert DIMENSIONS[2] == ("memswap_limit", "MemorySwap") && DIMENSIONS[3] == ("cpu_period", "CpuPeriod");
    assert DIMENSIONS[4] == ("cpu_quota", "CpuQuota") && DIMENSIONS[5] == ("cpu_shares", "CpuShares");
    assert DIMENSIONS[6] == ("cpuset_cpus", "CpusetCpus") && DIMENSIONS[7] == ("cpuset_mems", "CpusetMems");
    assert DIMENSIONS[8] == ("kernel_memory", "KernelMemory") && DIMENSIONS[9] == ("blkio_weight", "BlkioWeight");
  }

  // ----- Command, healthcheck and the rest -----

  lemma CommandMeans(p: Params, q: Params, image: Image, info: Info)
    requires FullCommand(p, image) != [] && [info.path] + info.args == FullCommand(p, image)
    ensures CompareCommand(q, info) == Same <==> SameCommand(p, q, image)
  {
    var command := FullCommand(p, image);
    assert command[0] == info.path && command[1..] == info.args;
    if q.command.Some? && q.command.value != [] {
      assert [q.command.value[0]] + q.command.value[1..] == q.command.value;
    }
  }

  /** A healthcheck is found the same exactly when each of the five fields of the report is the reading of its own
      option, or when none is requested and none reported. */
  lemma HealthcheckCompared(q: Params, info: Info)
    ensures CompareHealthcheck(q, info) == Same <==> Health(q.healthcheck).Ok? && HealthIs(q, info.healthcheck)
  {
    hide HealthReport, Health;
    if Health(q.healthcheck).Ok? && Health(q.healthcheck).value.Some? {
      RenamedReports(q.healthcheck);
      var made := Renamed(Health(q.healthcheck).value.value);
      if HealthReport(q.healthcheck.vals, info.healthcheck) {
        OneReport(q.healthcheck.vals, made, info.healthcheck);
      }
      assert "Test" in made;
    }
  }

  lemma RenamedReports(options: Dict<string, HealthOption>)
    requires Health(options).Ok? && Health(options).value.Some?
    ensures Health(options).value.value.Keys == Elements(HEALTH_OPTIONS)
    ensures HealthReport(options.vals, Renamed(Health(options).value.value))
  {
    HealthIsComplete(options);
    OptionNames();
    hide Health, FieldIs;
    FieldsReport(options.vals, Health(options).value.value);
  }

  lemma FieldsReport(options: map<string, HealthOption>, fields: map<string, HealthField>)
    requires fields.Keys == options.Keys == {"test", "interval", "timeout", "start_period", "retries"}
    requires forall k :: k in fields ==> FieldIs(k, options[k], fields[k])
    requires fields.Keys == Elements(HEALTH_OPTIONS)
    ensures HealthReport(options, Renamed(fields))
  {
    hide FieldIs, IsCheck, IsTime, IsCount;
    FieldReads("test", options["test"], fields["test"]);
    FieldReads("interval", options["interval"], fields["interval"]);
    FieldReads("timeout", options["timeout"], fields["timeout"]);
    FieldReads("start_period", options["start_period"], fields["start_period"]);
    FieldReads("retries", options["retries"], fields["retries"]);
  }

  lemma FieldReads(k: string, v: HealthOption, f: HealthField)
    requires FieldIs(k, v, f)
    ensures if k == "test" then IsCheck(v, f)
            else if k in {"interval", "timeout", "start_period"} then IsTime(v, f)
            else IsCount(v, f)
  {
  }

  /** There is but one report on the options. */
  lemma OneReport(options: map<string, HealthOption>, a: map<string, HealthField>, b: map<string, HealthField>)
    requires HealthReport(options, a) && HealthReport(options, b)
    ensures a == b
  {
    OneTime(options["interval"], a["Interval"], b["Interval"]);
    OneTime(options["timeout"], a["Timeout"], b["Timeout"]);
    OneTime(options["start_period"], a["StartPeriod"], b["StartPeriod"]);
  }

  lemma OneTime(v: HealthOption, f: HealthField, g: HealthField)
    requires IsTime(v, f) && IsTime(v, g)
    ensures f == g
  {
  }

  lemma HealthcheckMeans(p: Params, q: Params, image: Image, info: Info)
    requires Health(p.healthcheck).Ok?
    requires if Health(p.healthcheck).value.Some? then HealthReport(p.healthcheck.vals, info.healthcheck)
             else info.healthcheck == image.healthcheck
    ensures CompareHealthcheck(q, info) == Same <==> SameHealthcheck(p, q, image)
  {
    hide HealthReport, CompareHealthcheck, Health;
    HealthcheckCompared(q, info);
    forall report | Health(p.healthcheck).value.Some? && HealthReport(p.healthcheck.vals, report)
      ensures report == info.healthcheck
    {
      OneReport(p.healthcheck.vals, report, info.healthcheck);
    }
  }

  lemma VolumesMean(api: Api, p: Params, q: Params, image: Image, info: Info)
    requires Creatable(p, image) && Faithful(api, p, image, info)
    ensures CompareVolumes(q, info) == Same <==> SameVolumes(p, q, image)
  {
  }

  lemma ModesMean(api: Api, p: Params, q: Params, image: Image, info: Info)
    requires Creatable(p, image) && WellFormed(p) && WellFormed(q) && Faithful(api, p, image, info)
    ensures SameModes(api, p, q, info) <==>
            && CompareCapAdd(q, info) == CompareSecurityOpt(q, info) == CompareImage(q, Some(image), info) == Same
            && CompareIpcMode(q, info) == ComparePrivileged(q, info) == ComparePidMode(q, info) == Same
            && CompareCgroupnsMode(api, q, info) == CompareTmpfs(q, info) == CompareVolumesFrom(q, info) == Same
            && CompareState(q, Running) == Same
  {
    hide FaithfulLimits, FaithfulEnv, HealthReport, Health, VolumesFrom, RequestedTmpfs, Settable, Supported, RepositoryTag;
    hide MadeEnv, BindTexts;
    TmpfsRequested(p);
    TmpfsRequested(q);
  }

  lemma TmpfsRequested(p: Params)
    ensures Elements(RequestedTmpfs(p)) == Elements(p.tmpfs) - {""}
  {
    WithoutElements(p.tmpfs, {""});
  }

  // ----- The comparison as a whole -----

  lemma CreatableIsSettable(p: Params, image: Image)
    requires Creatable(p, image)
    ensures SettableLimits(p) && FullCommand(p, image) != []
  {
  }

  /** The comparison finds a running container, made from p, to be what q requests exactly when it is: it detects every
      drift, and nothing else. */
  lemma DriftIsDetected(api: Api, p: Params, q: Params, image: Image, info: Info)
    requires Creatable(p, image) && WellFormed(p) && PlainNames(MadeEnv(p, image)) && Faithful(api, p, image, info)
    requires WellFormed(q) && SettableLimits(q)
    ensures Compare(api, q, Some(image), info, Running) == Same <==> Agree(api, p, q, image, info)
  {
    hide FaithfulLimits, FaithfulEnv, HealthReport, Health, VolumesFrom, RequestedTmpfs, Settable, Supported, MadeEnv;
    hide CompareCapAdd, CompareSecurityOpt, CompareImage, CompareIpcMode, CompareLabels, ComparePrivileged, ComparePidMode;
    hide CompareCgroupnsMode, CompareTmpfs, CompareVolumes, CompareVolumesFrom, CompareEnvironment, CompareState;
    hide CompareDimensions, CompareCommand, CompareHealthcheck, BindTexts, FullCommand, SettableLimits;
    hide SameModes, SameLabels, SameVolumes, SameEnvironment, SameDimensions, SameCommand, SameHealthcheck;
    CreatableIsSettable(p, image);
    ModesMean(api, p, q, image, info);
    LabelsMean(p, q, image, info);
    VolumesMean(api, p, q, image, info);
    EnvironmentMeans(p, q, image, info);
    DimensionsMean(api, p, q, info);
    CommandMeans(p, q, image, info);
    HealthcheckMeans(p, q, image, info);
  }

  // ----- Convergence -----

  predicate LabelsAgree(p: Params, image: Image) {
    forall k :: k in image.labels.vals && k in p.labels ==> image.labels.vals[k] == p.labels[k]
  }

  /** Every requested variable is a text under a name without an equals sign, and the service's name, if it is
      requested at all, is the one that is put in anyway. */
  predicate EnvironmentSticks(p: Params) {
    && (forall k :: k in p.environment.vals ==> '=' !in k && p.environment.vals[k].Str?)
    && ("KOLLA_SERVICE_NAME" in p.environment.vals ==> p.environment.vals["KOLLA_SERVICE_NAME"] == Str(Dashed(p.name)))
  }

  predicate DimensionsStick(api: Api, p: Params) {
    forall key :: key in p.dimensions ==> LookedAt(api, key) && LimitSticks(key, p.dimensions[key])
  }

  /** A limit that agrees with what the engine makes of it. */
  predicate LimitSticks(key: string, v: Limit) {
    if IsCpuset(key) then v.Text? && v.s != "" && Normal(v.s).Ok?
    else IsAmount(v) && ComparedByValue(v)
  }

  predicate CommandSticks(p: Params, image: Image) {
    p.command.Some? ==> p.command.value != [] && image.entrypoint == []
  }

  /** The parameters and the image for which a container, once made and started, is left alone. */
  predicate Converges(api: Api, p: Params, image: Image) {
    && (p.state == "running" || p.state == "started")
    && LabelsAgree(p, image)
    && (VolumesFrom(p.volumes).Ok? ==> image.volumes <= Elements(VolumesFrom(p.volumes).value.list))
    && EnvironmentSticks(p)
    && DimensionsStick(api, p)
    && CommandSticks(p, image)
    && (Health(p.healthcheck) == Ok(None) ==> image.healthcheck == map[])
  }

  lemma LabelsConverge(p: Params, image: Image)
    ensures SameLabels(p, p, image) <==> LabelsAgree(p, image)
  {
  }

  lemma VolumesConverge(p: Params, image: Image)
    requires VolumesFrom(p.volumes).Ok?
    ensures SameVolumes(p, p, image) <==> image.volumes <= Elements(VolumesFrom(p.volumes).value.list)
  {
  }

  /** The environment of a new container: what was requested, numbers in decimal notation and nothing for none; the
      service's name over that; and the rest as the image has it. */
  lemma EnvironmentIsMade(p: Params, image: Image, k: string)
    requires k != "KOLLA_SERVICE_NAME"
    ensures "KOLLA_SERVICE_NAME" in MadeEnv(p, image) && MadeEnv(p, image)["KOLLA_SERVICE_NAME"] == Dashed(p.name)
    ensures k in MadeEnv(p, image) <==> k in p.environment.vals || k in image.env.vals
    ensures k in p.environment.vals ==>
            match p.environment.vals[k]
            case Absent => MadeEnv(p, image)[k] == ""
            case Str(s) => MadeEnv(p, image)[k] == s
            case Number(n) =>
              IsInteger(MadeEnv(p, image)[k]) && IsCanonical(MadeEnv(p, image)[k]) && ParseInt(MadeEnv(p, image)[k]) == n
    ensures k !in p.environment.vals && k in image.env.vals ==> MadeEnv(p, image)[k] == image.env.vals[k]
  {
    if k in p.environment.vals && p.environment.vals[k].Number? {
      ParsePrintInt(p.environment.vals[k].n);
    }
  }

  lemma VariableConverges(p: Params, image: Image, k: string)
    requires k in p.environment.vals
    ensures k in MadeEnv(p, image)
    ensures p.environment.vals[k] == Str(MadeEnv(p, image)[k]) <==>
            if k == "KOLLA_SERVICE_NAME" then p.environment.vals[k] == Str(Dashed(p.name)) else p.environment.vals[k].Str?
  {
  }

  lemma EnvironmentConverges(p: Params, image: Image)
    ensures SameEnvironment(p, p, image) <==> EnvironmentSticks(p)
  {
    hide MadeEnv, Dashed;
    forall k | k in p.environment.vals
      ensures k in MadeEnv(p, image)
      ensures p.environment.vals[k] == Str(MadeEnv(p, image)[k]) <==>
              if k == "KOLLA_SERVICE_NAME" then p.environment.vals[k] == Str(Dashed(p.name)) else p.environment.vals[k].Str?
    {
      VariableConverges(p, image, k);
    }
  }

  lemma DimensionsConverge(api: Api, p: Params, info: Info)
    requires SettableLimits(p) && forall key :: key in p.dimensions ==> Supported(key)
    ensures SameDimensions(api, p, p, info) <==> DimensionsStick(api, p)
  {
    hide SameDimension, LimitSticks, SettableLimits;
    if forall key :: key in p.dimensions ==> LookedAt(api, key) {
      forall key, name | key in p.dimensions
        ensures SameDimension(api, p, p, info, key, name) <==> LimitSticks(key, p.dimensions[key])
      {
        DimensionConverges(api, p, info, key, name);
      }
      forall key, name | key !in p.dimensions
        ensures SameDimension(api, p, p, info, key, name)
      {
        DimensionConverges(api, p, info, key, name);
      }
    }
  }

  lemma DimensionConverges(api: Api, p: Params, info: Info, key: string, name: string)
    requires SettableLimits(p) && (key in p.dimensions ==> LookedAt(api, key))
    ensures SameDimension(api, p, p, info, key, name) <==> (key in p.dimensions ==> LimitSticks(key, p.dimensions[key]))
  {
    if key in p.dimensions {
      LimitConverges(key, p.dimensions[key]);
    }
  }

  lemma LimitConverges(key: string, v: Limit)
    requires Settable(key, v)
    ensures SameLimit(key, v, v) <==> LimitSticks(key, v)
  {
  }

  lemma CommandConverges(p: Params, image: Image)
    requires FullCommand(p, image) != []
    ensures SameCommand(p, p, image) <==> CommandSticks(p, image)
  {
    if p.command.Some? {
      assert |FullCommand(p, image)| == |image.entrypoint| + if p.command.value != [] then |p.command.value| else |image.cmd|;
    }
  }

  lemma HealthcheckConverges(p: Params, image: Image)
    requires Health(p.healthcheck).Ok?
    ensures SameHealthcheck(p, p, image) <==> (Health(p.healthcheck) == Ok(None) ==> image.healthcheck == map[])
  {
    if Health(p.healthcheck).value.Some? {
      RenamedReports(p.healthcheck);
    }
  }

  lemma AgreesWithItself(api: Api, p: Params, image: Image, info: Info)
    requires Creatable(p, image)
    ensures Agree(api, p, p, image, info) <==> Converges(api, p, image)
  {
    LabelsConverge(p, image);
    VolumesConverge(p, image);
    EnvironmentConverges(p, image);
    DimensionsConverge(api, p, info);
    CommandConverges(p, image);
    HealthcheckConverges(p, image);
  }

  /** No variable with an equals sign in its name is ever found. */
  lemma NoSuchName(p: Params, q: Params, image: Image, info: Info, k: string)
    requires FaithfulEnv(p, image, info.env) && k in q.environment.vals && '=' in k
    ensures CompareEnvironment(q, info) != Same
  {
    var made := MadeEnv(p, image);
    forall s | s in info.env
      ensures '=' in s
    {
      var name :| name in made && s == EnvText(name, made[name]);
      assert s[|name|] == '=';
    }
    CurrentEnvNames(info.env);
    KeysHaveValues(q.environment);
  }

  /** Convergence: the comparison finds a running container, made from the parameters, to be what was requested exactly
      when parameters and image are such that it converges. */
  lemma Convergence(api: Api, p: Params, image: Image, info: Info)
    requires Creatable(p, image) && WellFormed(p) && PlainNames(image.env.vals) && Faithful(api, p, image, info)
    ensures Compare(api, p, Some(image), info, Running) == Same <==> Converges(api, p, image)
  {
    hide Agree, Compare, Converges, Faithful, Creatable, WellFormed, MadeEnv;
    if k :| k in p.environment.vals && '=' in k {
      NeverConverges(api, p, image, info, k);
    } else {
      MadeNamesArePlain(p, image);
      LimitsAreSettable(p, image);
      DriftIsDetected(api, p, p, image, info);
      AgreesWithItself(api, p, image, info);
    }
  }

  lemma MadeNamesArePlain(p: Params, image: Image)
    requires PlainNames(image.env.vals) && forall k :: k in p.environment.vals ==> '=' !in k
    ensures PlainNames(MadeEnv(p, image))
  {
    assert '=' !in "KOLLA_SERVICE_NAME";
  }

  lemma LimitsAreSettable(p: Params, image: Image)
    requires Creatable(p, image)
    ensures SettableLimits(p)
  {
  }

  lemma NeverConverges(api: Api, p: Params, image: Image, info: Info, k: string)
    requires Creatable(p, image) && Faithful(api, p, image, info) && k in p.environment.vals && '=' in k
    ensures Compare(api, p, Some(image), info, Running) != Same && !Converges(api, p, image)
  {
    NoSuchName(p, p, image, info, k);
    EnvironmentTells(api, p, image, info);
  }

  lemma EnvironmentTells(api: Api, p: Params, image: Image, info: Info)
    ensures Compare(api, p, Some(image), info, Running) == Same ==> CompareEnvironment(p, info) == Same
  {
    hide CompareCapAdd, CompareSecurityOpt, CompareImage, CompareIpcMode, CompareLabels, ComparePrivileged, ComparePidMode;
    hide CompareCgroupnsMode, CompareTmpfs, CompareVolumes, CompareVolumesFrom, CompareEnvironment, CompareState;
    hide CompareDimensions, CompareCommand, CompareHealthcheck;
  }
}
