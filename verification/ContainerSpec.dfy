/** What a container is asked to be: the parameters of the kolla_container module, and the values derived from them by
    ContainerWorker (ansible/module_utils/kolla_container_worker.py). */
module ContainerSpec {
  import opened Common
  import opened Decimal
  import opened Dimensions
  import opened OrderedDict

  /** Errors that end an action. */
  datatype Problem = IndexError | ValueError | TypeError | BadParameters

  datatype EnvValue = Absent | Str(s: string) | Number(n: int)

  datatype NsMode = PrivateNs | HostNs

  datatype Ulimit = Ulimit(name: string, soft: int, hard: int)

  /** A value of a healthcheck option as requested. */
  datatype HealthOption = NoValue | Whole(n: int) | Words(text: string) | WordList(words: seq<string>)

  /** A value of a healthcheck option as passed to the engine. */
  datatype HealthField = Amount(n: int) | Test(words: seq<string>)

  /** The module's parameters, as kolla_container.py hands them to the worker: an empty pid_mode or ipc_mode has been
      dropped, and the command is given as the list that shlex makes of it. */
  datatype Params = Params(
    name: string,
    image: string,
    command: Option<seq<string>>,
    detach: bool,
    environment: Dict<string, EnvValue>,
    healthcheck: Dict<string, HealthOption>,
    labels: map<string, string>,
    ipcMode: Option<string>,
    pidMode: Option<string>,
    cgroupnsMode: Option<NsMode>,
    privileged: bool,
    capAdd: seq<string>,
    securityOpt: seq<string>,
    tmpfs: seq<string>,
    volumes: seq<string>,
    volumesFrom: seq<string>,
    dimensions: map<string, Limit>,
    ulimits: Option<Dict<string, (int, int)>>,
    state: string,
    engine: string,
    restartPolicy: Option<string>,
    restartRetries: int,
    clientTimeout: int,
    gracefulTimeout: Option<int>,
    ignoreMissing: bool,
    removeOnExit: bool)
  {
    predicate OneShot() {
      restartPolicy == Some("oneshot")
    }

    /** The configuration is to be refreshed in the given way. */
    predicate Asks(strategy: string) {
      "KOLLA_CONFIG_STRATEGY" in environment.vals && environment.vals["KOLLA_CONFIG_STRATEGY"] == Str(strategy)
    }
  }

  // ----- Image names -----

  /** The text before and after the first c; None if there is no c. */
  function SplitFirst(s: string, c: char): Option<(string, string)> {
    if s == "" then None
    else if s[0] == c then Some(("", s[1..]))
    else
      match SplitFirst(s[1..], c)
      case None => None
      case Some((before, after)) => Some(([s[0]] + before, after))
  }

  /** The text before and after the last c; None if there is no c. */
  function SplitLast(s: string, c: char): Option<(string, string)> {
    if s == "" then None
    else if s[|s| - 1] == c then Some((s[..|s| - 1], ""))
    else
      match SplitLast(s[..|s| - 1], c)
      case None => None
      case Some((before, after)) => Some((before, after + [s[|s| - 1]]))
  }

  lemma {:induction false} SplitLastMeans(s: string, c: char)
    ensures SplitLast(s, c).None? <==> c !in s
    ensures match SplitLast(s, c)
            case None => true
            case Some((before, after)) => s == before + [c] + after && c !in after
  {
    if s != "" {
      SplitLastMeans(s[..|s| - 1], c);
      assert s == s[..|s| - 1] + [s[|s| - 1]];
    }
  }

  lemma {:induction false} SplitFirstMeans(s: string, c: char)
    ensures SplitFirst(s, c).None? <==> c !in s
    ensures match SplitFirst(s, c)
            case None => true
            case Some((before, after)) => s == before + [c] + after && c !in before
  {
    if s != "" {
      SplitFirstMeans(s[1..], c);
      assert s == [s[0]] + s[1..];
    }
  }

  lemma {:induction false} SplitFirstAt(before: string, c: char, after: string)
    requires c !in before
    ensures SplitFirst(before + [c] + after, c) == Some((before, after))
  {
    var s := before + [c] + after;
    if before == "" {
      assert s[1..] == after;
    } else {
      assert s[1..] == before[1..] + [c] + after;
      SplitFirstAt(before[1..], c, after);
      assert [before[0]] + before[1..] == before;
    }
  }

  /** The image name without a registry host, which may have a port. */
  function WithoutRegistry(image: string): string {
    match SplitFirst(image, '/')
    case None => image
    case Some((_, rest)) => rest
  }

  predicate Tagged(image: string) {
    ':' in WithoutRegistry(image)
  }

  /** Repository and tag of an image name. */
  function ParseImage(image: string): (string, string) {
    if Tagged(image) then
      match SplitLast(image, ':')
      case Some(parts) => parts
      case None => (image, "latest")
    else (image, "latest")
  }

  /** Joined again, repository and tag are the image name, with the tag "latest" if it had none. */
  lemma ParseImageJoins(image: string)
    ensures var (repository, tag) := ParseImage(image);
            && repository + ":" + tag == (if Tagged(image) then image else image + ":latest")
            && ':' !in tag
  {
    SplitLastMeans(image, ':');
    SplitFirstMeans(image, '/');
    if Tagged(image) {
      assert ':' in image;
    }
  }

  /** The tag is what follows the last colon of the name; a colon in the registry, before the first slash, begins a port
      and no tag. */
  lemma NamesAreParsed(registry: string, name: string, tag: string)
    requires '/' !in registry && ':' !in name && ':' !in tag && '/' !in tag
    ensures ParseImage(registry + "/" + name) == (registry + "/" + name, "latest")
    ensures ParseImage(registry + "/" + name + ":" + tag) == (registry + "/" + name, tag)
    ensures '/' !in name ==> ParseImage(name) == (name, "latest") && ParseImage(name + ":" + tag) == (name, tag)
  {
    SplitFirstAt(registry, '/', name);
    assert registry + "/" + name == registry + ['/'] + name;
    var tagged := name + ":" + tag;
    SplitFirstAt(registry, '/', tagged);
    assert registry + "/" + name + ":" + tag == registry + ['/'] + tagged && tagged[|name|] == ':';
    SplitLastAt(registry + "/" + name, ':', tag);
    SplitLastAt(name, ':', tag);
    if '/' !in name {
      SplitFirstMeans(name, '/');
      SplitFirstMeans(tagged, '/');
    }
  }

  lemma {:induction false} SplitLastAt(before: string, c: char, after: string)
    requires c !in after
    ensures SplitLast(before + [c] + after, c) == Some((before, after))
  {
    var s := before + [c] + after;
    if after == "" {
      assert s[..|s| - 1] == before;
    } else {
      var init := after[..|after| - 1];
      assert s[..|s| - 1] == before + [c] + init;
      SplitLastAt(before, c, init);
      assert init + [after[|after| - 1]] == after;
    }
  }

  /** Repository and tag, or digest, as docker's own client splits a name: None if it has neither. */
  function RepositoryTag(image: string): (string, Option<string>) {
    match SplitLast(image, '@')
    case Some((repository, digest)) => (repository, Some(digest))
    case None =>
      match SplitLast(image, ':')
      case Some((repository, tag)) => if '/' in tag then (image, None) else (repository, Some(tag))
      case None => (image, None)
  }

  /** The tag is what follows the colon after the last slash; a digest is what follows the last "@". */
  lemma RepositoryTagMeans(registry: string, name: string, tag: string)
    requires ':' !in name && ':' !in tag && '/' !in tag && '@' !in registry && '@' !in name && '@' !in tag
    ensures RepositoryTag(registry + "/" + name) == (registry + "/" + name, None)
    ensures RepositoryTag(registry + "/" + name + ":" + tag) == (registry + "/" + name, Some(tag))
    ensures RepositoryTag(registry + "/" + name + "@" + tag) == (registry + "/" + name, Some(tag))
  {
    var untagged := registry + "/" + name;
    SplitLastMeans(untagged, '@');
    SplitLastMeans(untagged, ':');
    SplitLastMeans(untagged + ":" + tag, '@');
    SplitLastAt(untagged, ':', tag);
    SplitLastAt(untagged, '@', tag);
    hide SplitLast;
    if SplitLast(untagged, ':').Some? {
      var (before, after) := SplitLast(untagged, ':').value;
      assert untagged[|before|] == ':' && untagged[|registry|] == '/';
      assert after == untagged[|before| + 1..];
      assert after[|registry| - |before| - 1] == '/';
    }
  }

  /** That tells any two names apart, also one without a tag from the same with the tag "latest". */
  lemma RepositoryTagTells(a: string, b: string)
    requires '@' in a <==> '@' in b
    ensures RepositoryTag(a) == RepositoryTag(b) <==> a == b
  {
    SplitLastMeans(a, '@');
    SplitLastMeans(b, '@');
    SplitLastMeans(a, ':');
    SplitLastMeans(b, ':');
  }

  // ----- Volumes -----

  function SplitAll(s: string, c: char): (parts: seq<string>)
    ensures |parts| >= 1
    decreases |s|
  {
    SplitFirstMeans(s, c);
    match SplitFirst(s, c)
    case None => [s]
    case Some((before, after)) => [before] + SplitAll(after, c)
  }

  datatype Bind = Bind(target: string, mode: string)

  datatype Volumes = Volumes(list: seq<string>, binds: Dict<string, Bind>)

  /** One more volume.  A source with a slash whose target has none, as in "/etc/localtime:ro", is an index error. */
  function AddVolume(v: Volumes, vol: string): Result<Volumes, Problem> {
    if vol == "" then Ok(v)
    else if ':' !in vol then Ok(v.(list := v.list + [vol]))
    else
      var split := SplitAll(vol, ':');
      if |split| < 2 then Err(IndexError)
      else
        var parts := if |split| == 2 && ('/' !in split[0] || '/' in split[1]) then split + ["rw"] else split;
        if |parts| < 3 then Err(IndexError)
        else Ok(Volumes(v.list + [parts[1]], Put(v.binds, parts[0], Bind(parts[1], parts[2]))))
  }

  function VolumesFrom(vols: seq<string>): Result<Volumes, Problem> {
    if vols == [] then Ok(Volumes([], Empty()))
    else
      match VolumesFrom(vols[..|vols| - 1])
      case Err(e) => Err(e)
      case Ok(v) => AddVolume(v, vols[|vols| - 1])
  }

  method GenerateVolumes(vols: seq<string>) returns (r: Result<Volumes, Problem>)
    ensures r == VolumesFrom(vols)
  {
    var v := Volumes([], Empty());
    for i := 0 to |vols|
      invariant VolumesFrom(vols[..i]) == Ok(v)
    {
      assert vols[..i + 1][..i] == vols[..i];
      var vol := vols[i];
      if vol == "" {
        continue;
      }
      if ':' !in vol {
        v := v.(list := v.list + [vol]);
        continue;
      }
      var split := SplitAll(vol, ':');
      if |split| == 2 && ('/' !in split[0] || '/' in split[1]) {
        split := split + ["rw"];
      }
      if |split| < 3 {
        StaysFailed(vols, i + 1);
        return Err(IndexError);
      }
      v := Volumes(v.list + [split[1]], Put(v.binds, split[0], Bind(split[1], split[2])));
    }
    assert vols[..|vols|] == vols;
    return Ok(v);
  }

  lemma {:induction false} StaysFailed(vols: seq<string>, i: nat)
    requires i <= |vols| && VolumesFrom(vols[..i]).Err?
    ensures VolumesFrom(vols) == VolumesFrom(vols[..i])
    decreases |vols| - i
  {
    if i == |vols| {
      assert vols[..i] == vols;
    } else {
      assert vols[..i + 1][..i] == vols[..i];
      StaysFailed(vols, i + 1);
    }
  }

  // What the volumes mean

  /** A bind as the engine writes it. */
  function BindText(source: string, b: Bind): string {
    source + ":" + b.target + ":" + b.mode
  }

  function Joined(parts: seq<string>, c: char): string
    requires parts != []
  {
    if |parts| == 1 then parts[0] else parts[0] + [c] + Joined(parts[1..], c)
  }

  lemma {:induction false} SplitAllJoins(s: string, c: char)
    ensures Joined(SplitAll(s, c), c) == s
    ensures |SplitAll(s, c)| == 1 <==> c !in s
    ensures c !in SplitAll(s, c)[0]
    decreases |s|
  {
    SplitFirstMeans(s, c);
    match SplitFirst(s, c)
    case None =>
    case Some((before, after)) =>
      SplitAllJoins(after, c);
      assert SplitAll(s, c)[1..] == SplitAll(after, c);
  }

  /** The volume is the bind as written, perhaps without its mode, which is then "rw", or with further options. */
  predicate Writes(vol: string, source: string, b: Bind) {
    var text := BindText(source, b);
    vol == text || vol + ":rw" == text || text + ":" <= vol
  }

  function SourceOf(vol: string): string {
    SplitAll(vol, ':')[0]
  }

  lemma Regroup(a: string, b: string, c: string)
    ensures a + (b + c) == (a + b) + c
  {
  }

  lemma JoinedTwo(a: string, rest: seq<string>)
    requires rest != []
    ensures Joined([a] + rest, ':') == (a + ":") + Joined(rest, ':')
  {
    assert ([a] + rest)[1..] == rest;
  }

  lemma WrittenWithoutMode(source: string, target: string)
    ensures Writes((source + ":") + target, source, Bind(target, "rw"))
  {
    Regroup((source + ":") + target, ":", "rw");
    assert ":" + "rw" == ":rw";
  }

  lemma WrittenWithMode(vol: string, source: string, target: string, mode: string, more: Option<string>)
    requires vol == (source + ":") + ((target + ":") + if more.Some? then (mode + ":") + more.value else mode)
    ensures Writes(vol, source, Bind(target, mode))
  {
    var start := source + ":" + target + ":";
    Regroup(source + ":", target, ":");
    match more
    case None =>
      Regroup(source + ":", target + ":", mode);
    case Some(rest) =>
      Regroup(source + ":", target + ":", (mode + ":") + rest);
      Regroup(start, mode + ":", rest);
      Regroup(start, mode, ":");
      assert (start + mode + ":") + rest == vol;
  }

  lemma JoinedWrites(vol: string, source: string, target: string, rest: seq<string>)
    requires vol == Joined([source] + ([target] + rest), ':')
    ensures Writes(vol, source, Bind(target, if rest == [] then "rw" else rest[0]))
  {
    hide Joined, Writes;
    JoinedTwo(source, [target] + rest);
    if rest == [] {
      assert [target] + rest == [target];
      JoinedOne(target);
      WrittenWithoutMode(source, target);
    } else {
      JoinedTwo(target, rest);
      if |rest| == 1 {
        assert rest == [rest[0]];
        JoinedOne(rest[0]);
        WrittenWithMode(vol, source, target, rest[0], None);
      } else {
        assert rest == [rest[0]] + rest[1..];
        JoinedTwo(rest[0], rest[1..]);
        WrittenWithMode(vol, source, target, rest[0], Some(Joined(rest[1..], ':')));
      }
    }
  }

  lemma JoinedOne(a: string)
    ensures Joined([a], ':') == a
  {
  }

  lemma SplitWrites(vol: string, parts: seq<string>)
    requires parts == SplitAll(vol, ':') && |parts| >= 2
    ensures Writes(vol, parts[0], Bind(parts[1], if |parts| == 2 then "rw" else parts[2]))
  {
    hide Joined, Writes, SplitAll;
    SplitAllJoins(vol, ':');
    assert parts == [parts[0]] + ([parts[1]] + parts[2..]);
    JoinedWrites(vol, parts[0], parts[1], parts[2..]);
  }

  /** One more volume is a bind or just a name; an error it is exactly when a path has a target that is none. */
  lemma AddVolumeMeans(v: Volumes, vol: string) returns (b: Bind)
    ensures AddVolume(v, vol).Err? <==>
            |SplitAll(vol, ':')| == 2 && '/' in SourceOf(vol) && '/' !in SplitAll(vol, ':')[1]
    ensures AddVolume(v, vol).Ok? && ':' !in vol ==>
            AddVolume(v, vol).value == if vol == "" then v else v.(list := v.list + [vol])
    ensures AddVolume(v, vol).Ok? && ':' in vol ==>
            Writes(vol, SourceOf(vol), b) &&
            AddVolume(v, vol).value == Volumes(v.list + [b.target], Put(v.binds, SourceOf(vol), b))
  {
    var parts := SplitAll(vol, ':');
    SplitAllJoins(vol, ':');
    b := Bind("", "");
    if |parts| >= 2 {
      b := Bind(parts[1], if |parts| == 2 then "rw" else parts[2]);
      SplitWrites(vol, parts);
    }
  }

  /** The last volume with the given source. */
  function LastWith(vols: seq<string>, source: string): Option<string> {
    if vols == [] then None
    else
      var last := vols[|vols| - 1];
      if ':' in last && SourceOf(last) == source then Some(last) else LastWith(vols[..|vols| - 1], source)
  }

  /** Each bind is the last volume with its source, as it was written, and every volume with a colon is there. */
  lemma {:induction false} VolumesMean(vols: seq<string>)
    requires VolumesFrom(vols).Ok?
    ensures var binds := VolumesFrom(vols).value.binds.vals;
            forall source :: (source in binds <==> LastWith(vols, source).Some?) &&
                             (source in binds ==> Writes(LastWith(vols, source).value, source, binds[source]))
  {
    if vols != [] {
      var init, last := vols[..|vols| - 1], vols[|vols| - 1];
      VolumesMean(init);
      var b := AddVolumeMeans(VolumesFrom(init).value, last);
    }
  }

  // ----- Configuration -----

  /** How a container's configuration is refreshed when its parameters are the same. */
  function Strategy(p: Params): EnvValue {
    if "KOLLA_CONFIG_STRATEGY" in p.environment.vals then p.environment.vals["KOLLA_CONFIG_STRATEGY"] else Absent
  }

  // ----- Healthchecks -----

  const HEALTH_OPTIONS := ["test", "interval", "timeout", "start_period", "retries"]

  predicate IsDuration(key: string) {
    key == "interval" || key == "timeout" || key == "start_period"
  }

  function ToInt(v: HealthOption): Result<int, Problem> {
    match v
    case Whole(n) => Ok(n)
    case Words(text) => if IsInteger(text) then Ok(ParseInt(text)) else Err(ValueError)
    case _ => Err(TypeError)
  }

  predicate Disables(v: HealthOption) {
    v == WordList(["NONE"]) || v == Words("NONE")
  }

  function TestOf(v: HealthOption): HealthField {
    match v
    case WordList(words) => Test(words)
    case Words(text) => Test(["CMD-SHELL", text])
    case Whole(n) => Test(["CMD-SHELL", PrintInt(n)])
    case NoValue => Test(["CMD-SHELL", "None"])
  }

  /** The options from keys on: None if the test among them disables the check. */
  function HealthFrom(keys: seq<string>, options: map<string, HealthOption>, fields: map<string, HealthField>)
    : Result<Option<map<string, HealthField>>, Problem>
    requires forall k :: k in keys ==> k in options
  {
    if keys == [] then Ok(Some(fields))
    else
      var key, value := keys[0], options[keys[0]];
      if IsDuration(key) then
        match ToInt(value)
        case Err(e) => Err(e)
        case Ok(n) => HealthFrom(keys[1..], options, fields[key := Amount(n * 1000000000)])
      else if key == "test" then
        if Disables(value) then Ok(None) else HealthFrom(keys[1..], options, fields[key := TestOf(value)])
      else if key == "retries" then
        match ToInt(value)
        case Err(e) => Err(e)
        case Ok(n) => HealthFrom(keys[1..], options, fields[key := Amount(n)])
      else HealthFrom(keys[1..], options, fields)
  }

  /** The healthcheck passed to the engine; None if there is none to pass. */
  function Health(options: Dict<string, HealthOption>): Result<Option<map<string, HealthField>>, Problem> {
    KeysHaveValues(options);
    if options.keys == [] then Ok(None)
    else if Elements(options.keys) != Elements(HEALTH_OPTIONS) then Err(BadParameters)
    else HealthFrom(options.keys, options.vals, map[])
  }

  method ParseHealthcheck(options: Dict<string, HealthOption>)
    returns (r: Result<Option<map<string, HealthField>>, Problem>)
    ensures r == Health(options)
  {
    KeysHaveValues(options);
    if options.keys == [] {
      return Ok(None);
    }
    if Elements(options.keys) != Elements(HEALTH_OPTIONS) {
      return Err(BadParameters);
    }
    var fields: map<string, HealthField> := map[];
    for i := 0 to |options.keys|
      invariant HealthFrom(options.keys[i..], options.vals, fields) == Health(options)
    {
      var key := options.keys[i];
      var value := options.vals[key];
      assert options.keys[i..][1..] == options.keys[i + 1..];
      if IsDuration(key) {
        var n := ToInt(value);
        if n.Err? {
          return Err(n.error);
        }
        fields := fields[key := Amount(n.value * 1000000000)];
      } else if key == "test" {
        if Disables(value) {
          return Ok(None);
        }
        fields := fields[key := TestOf(value)];
      } else if key == "retries" {
        var n := ToInt(value);
        if n.Err? {
          return Err(n.error);
        }
        fields := fields[key := Amount(n.value)];
      }
    }
    return Ok(Some(fields));
  }

  /** What one option contributes, if it can be read. */
  predicate FieldIs(k: string, v: HealthOption, f: HealthField) {
    if k == "test" then !Disables(v) && f == TestOf(v)
    else ToInt(v).Ok? && f == Amount(if IsDuration(k) then ToInt(v).value * 1000000000 else ToInt(v).value)
  }

  /** A healthcheck that is not disabled has all five fields, whatever the order in which they were given. */
  lemma HealthIsComplete(options: Dict<string, HealthOption>)
    requires Health(options).Ok? && Health(options).value.Some?
    ensures var fields := Health(options).value.value;
            && fields.Keys == Elements(HEALTH_OPTIONS) == options.vals.Keys
            && forall k :: k in fields ==> FieldIs(k, options.vals[k], fields[k])
  {
    KeysHaveValues(options);
    HealthFields(options.keys, options.vals, map[]);
  }

  lemma {:induction false} HealthFields(keys: seq<string>, options: map<string, HealthOption>,
                                        fields: map<string, HealthField>)
    requires forall k :: k in keys ==> k in options && k in HEALTH_OPTIONS
    requires HealthFrom(keys, options, fields).Ok? && HealthFrom(keys, options, fields).value.Some?
    requires forall k :: k in fields ==> k in options && FieldIs(k, options[k], fields[k])
    ensures var r := HealthFrom(keys, options, fields).value.value;
            && r.Keys == fields.Keys + Elements(keys)
            && forall k :: k in r ==> k in options && FieldIs(k, options[k], r[k])
    decreases keys
  {
    if keys != [] {
      var key, value := keys[0], options[keys[0]];
      assert key in HEALTH_OPTIONS;
      var field := if key == "test" then TestOf(value)
                   else if IsDuration(key) then Amount(ToInt(value).value * 1000000000)
                   else Amount(ToInt(value).value);
      HealthFields(keys[1..], options, fields[key := field]);
      assert keys == [key] + keys[1..];
      ElementsConcat([key], keys[1..]);
    }
  }

  // What the engine reports of a healthcheck, name by name

  /** The option is a number, given as such or in decimal. */
  predicate Numeric(v: HealthOption) {
    v.Whole? || (v.Words? && IsInteger(v.text))
  }

  predicate IsNumber(v: HealthOption, n: int) {
    v == Whole(n) || (v.Words? && IsInteger(v.text) && n == ParseInt(v.text))
  }

  /** The field is the option's number, and a time is given in nanoseconds. */
  predicate IsCount(v: HealthOption, f: HealthField) {
    f.Amount? && IsNumber(v, f.n)
  }

  predicate IsTime(v: HealthOption, f: HealthField) {
    f.Amount? && f.n % 1000000000 == 0 && IsNumber(v, f.n / 1000000000)
  }

  /** The field is the command that the option asks for: its words, or the text run by a shell. */
  predicate IsCheck(v: HealthOption, f: HealthField) {
    f.Test? &&
    match v
    case WordList(words) => f.words == words
    case Words(text) => f.words == ["CMD-SHELL", text]
    case Whole(n) => f.words == ["CMD-SHELL", PrintInt(n)]
    case NoValue => f.words == ["CMD-SHELL", "None"]
  }

  /** The report has five fields, each the reading of the option that it is named for. */
  predicate HealthReport(options: map<string, HealthOption>, report: map<string, HealthField>) {
    && options.Keys == {"test", "interval", "timeout", "start_period", "retries"}
    && report.Keys == {"Test", "Interval", "Timeout", "StartPeriod", "Retries"}
    && IsCheck(options["test"], report["Test"])
    && IsTime(options["interval"], report["Interval"])
    && IsTime(options["timeout"], report["Timeout"])
    && IsTime(options["start_period"], report["StartPeriod"])
    && IsCount(options["retries"], report["Retries"])
  }

  /** The options ask for a check: all five are there, four are numbers, and the test is not "NONE". */
  predicate AsksForCheck(options: map<string, HealthOption>) {
    && options.Keys == {"test", "interval", "timeout", "start_period", "retries"}
    && options["test"] != Words("NONE") && options["test"] != WordList(["NONE"])
    && Numeric(options["interval"]) && Numeric(options["timeout"])
    && Numeric(options["start_period"]) && Numeric(options["retries"])
  }

  /** There is a healthcheck exactly when the options ask for one; there is none if there are no options, or the test is
      "NONE" and nothing before it is an error. */
  lemma HealthDecides(options: Dict<string, HealthOption>)
    ensures Health(options).Ok? && Health(options).value.Some? <==> AsksForCheck(options.vals)
    ensures Health(options) == Ok(None) ==> options.vals == map[] || ("test" in options.vals && Disables(options.vals["test"]))
    ensures options.vals == map[] ==> Health(options) == Ok(None)
  {
    KeysHaveValues(options);
    OptionNames();
    assert options.vals.Keys == Elements(options.keys);
    if options.keys == [] {
      assert options.vals.Keys == {};
    } else {
      assert options.keys[0] in options.vals;
      if Elements(options.keys) == Elements(HEALTH_OPTIONS) {
        HealthFromDecides(options.keys, options.vals, map[]);
      }
    }
  }

  lemma OptionNames()
    ensures Elements(HEALTH_OPTIONS) == {"test", "interval", "timeout", "start_period", "retries"}
  {
    assert HEALTH_OPTIONS[0] in HEALTH_OPTIONS && HEALTH_OPTIONS[1] in HEALTH_OPTIONS && HEALTH_OPTIONS[2] in HEALTH_OPTIONS;
    assert HEALTH_OPTIONS[3] in HEALTH_OPTIONS && HEALTH_OPTIONS[4] in HEALTH_OPTIONS;
  }

  lemma {:induction false} HealthFromDecides(keys: seq<string>, options: map<string, HealthOption>,
                                             fields: map<string, HealthField>)
    requires forall k :: k in keys ==> k in options && k in HEALTH_OPTIONS
    ensures var r := HealthFrom(keys, options, fields);
            && (r.Ok? && r.value.Some? <==>
                  forall k :: k in keys ==> if k == "test" then !Disables(options[k]) else Numeric(options[k]))
            && (r == Ok(None) ==> "test" in keys && Disables(options["test"]))
    decreases keys
  {
    if keys != [] {
      var key := keys[0];
      assert key in HEALTH_OPTIONS && keys == [key] + keys[1..];
      var field := if key == "test" then TestOf(options[key])
                   else if ToInt(options[key]).Err? then Amount(0)
                   else Amount(if IsDuration(key) then ToInt(options[key]).value * 1000000000 else ToInt(options[key]).value);
      HealthFromDecides(keys[1..], options, fields[key := field]);
    }
  }
}
