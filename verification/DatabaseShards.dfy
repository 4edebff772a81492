/** Grouping database hosts into shards (database_shards_info, kolla_ansible/database_shards.py). */
module DatabaseShards {
  import opened Common
  import opened Decimal
  import opened OrderedDict

  /** A shard id as written in the inventory, quoted or not. */
  datatype ShardId = Number(n: int) | Name(s: string)

  function Str(id: ShardId): string {
    match id
    case Number(n) => PrintInt(n)
    case Name(s) => s
  }

  /** The variables of a host that matter here; None where undefined.  enableMariabackup is the value after the bool
      filter. */
  datatype HostVars = HostVars(
    shardId: Option<ShardId>,
    enableMariabackup: Option<bool>,
    databasePassword: Option<string>,
    rootUserPrefix: Option<string>,
    backupUserPrefix: Option<string>,
    backupPassword: Option<string>)

  datatype User = User(password: Option<string>, user: string, shardId: string)

  datatype ShardsInfo = ShardsInfo(shards: Dict<string, seq<string>>, users: seq<User>)

  datatype FilterError =
    | HostvarsUnavailable
    | NotInHostvars(host: string)
    | ShardIdUndefined(host: string)
    | BackupFlagUnavailable
    | PasswordUnavailable
    | RootPrefixUnavailable
    | BackupPrefixUnavailable

  /** A number and a text name the same shard exactly when the text is that number in decimal notation. */
  lemma QuotedOrNot(n: int, s: string)
    ensures Str(Name(s)) == s
    ensures Str(Number(n)) == Str(Name(s)) <==> IsInteger(s) && IsCanonical(s) && ParseInt(s) == n
  {
    ParsePrintInt(n);
    if IsInteger(s) {
      PrintParseInt(s);
    }
  }

  // ----- What a host contributes -----

  /** Why a host cannot be grouped, if it cannot; first says whether it is the first of its shard. */
  function Problem(hostvars: map<string, HostVars>, host: string, first: bool): Option<FilterError> {
    if host !in hostvars then Some(NotInHostvars(host))
    else
      var h := hostvars[host];
      if h.shardId.None? then Some(ShardIdUndefined(host))
      else if !first then None
      else if h.enableMariabackup.None? then Some(BackupFlagUnavailable)
      else if h.databasePassword.None? then Some(PasswordUnavailable)
      else if h.rootUserPrefix.None? then Some(RootPrefixUnavailable)
      else if h.enableMariabackup.value && h.backupUserPrefix.None? then Some(BackupPrefixUnavailable)
      else None
  }

  predicate HasShard(hostvars: map<string, HostVars>, host: string) {
    host in hostvars && hostvars[host].shardId.Some?
  }

  function ShardOf(hostvars: map<string, HostVars>, host: string): string
    requires HasShard(hostvars, host)
  {
    Str(hostvars[host].shardId.value)
  }

  /** The database users of a shard whose first host is the given one. */
  function UsersOf(hostvars: map<string, HostVars>, host: string): seq<User>
    requires HasShard(hostvars, host) && Problem(hostvars, host, true).None?
  {
    var h, shard := hostvars[host], ShardOf(hostvars, host);
    [User(h.databasePassword, h.rootUserPrefix.value + shard, shard)] +
    if h.enableMariabackup.value then [User(h.backupPassword, h.backupUserPrefix.value + shard, shard)] else []
  }

  /** The shards of the hosts, host by host. */
  function Shards(hostvars: map<string, HostVars>, hosts: seq<string>): seq<string>
    requires forall i :: 0 <= i < |hosts| ==> HasShard(hostvars, hosts[i])
  {
    seq(|hosts|, i requires 0 <= i < |hosts| => ShardOf(hostvars, hosts[i]))
  }

  /** The hosts of one shard, in order. */
  function HostsOf(hostvars: map<string, HostVars>, hosts: seq<string>, shard: string): seq<string>
    requires forall i :: 0 <= i < |hosts| ==> HasShard(hostvars, hosts[i])
  {
    if hosts == [] then []
    else
      var init, last := hosts[..|hosts| - 1], hosts[|hosts| - 1];
      if ShardOf(hostvars, last) == shard then HostsOf(hostvars, init, shard) + [last] else HostsOf(hostvars, init, shard)
  }

  /** Whether host i is the first of its shard. */
  predicate IsFirst(hostvars: map<string, HostVars>, hosts: seq<string>, i: nat)
    requires i < |hosts| && forall j :: 0 <= j <= i ==> HasShard(hostvars, hosts[j])
  {
    forall j :: 0 <= j < i ==> ShardOf(hostvars, hosts[j]) != ShardOf(hostvars, hosts[i])
  }

  /** The problem met at host i when the hosts before it have shards. */
  function ProblemAt(hostvars: map<string, HostVars>, hosts: seq<string>, i: nat): Option<FilterError>
    requires i < |hosts| && forall j :: 0 <= j < i ==> HasShard(hostvars, hosts[j])
  {
    Problem(hostvars, hosts[i], HasShard(hostvars, hosts[i]) && IsFirst(hostvars, hosts, i))
  }

  /** The hosts can all be grouped. */
  ghost predicate Groupable(hostvars: map<string, HostVars>, hosts: seq<string>) {
    && (forall i :: 0 <= i < |hosts| ==> HasShard(hostvars, hosts[i]))
    && (forall i :: 0 <= i < |hosts| ==> ProblemAt(hostvars, hosts, i).None?)
  }

  /** The shard has a first host, which can provide its users. */
  ghost predicate Leads(hostvars: map<string, HostVars>, hosts: map<string, seq<string>>, shard: string) {
    && shard in hosts && hosts[shard] != []
    && HasShard(hostvars, hosts[shard][0]) && Problem(hostvars, hosts[shard][0], true).None?
  }

  /** The users of the listed shards: each shard's come from the first of its hosts. */
  ghost function UsersOfShards(hostvars: map<string, HostVars>, shards: seq<string>,
                               hosts: map<string, seq<string>>): seq<User>
    requires forall s :: s in shards ==> Leads(hostvars, hosts, s)
  {
    if shards == [] then []
    else
      var last := shards[|shards| - 1];
      assert Leads(hostvars, hosts, last);
      UsersOfShards(hostvars, shards[..|shards| - 1], hosts) + UsersOf(hostvars, hosts[last][0])
  }

  /** The shards in the order of their first hosts, each with all of its hosts in order. */
  ghost predicate DescribesShards(hostvars: map<string, HostVars>, hosts: seq<string>,
                                  shards: Dict<string, seq<string>>)
    requires forall i :: 0 <= i < |hosts| ==> HasShard(hostvars, hosts[i])
  {
    && shards.keys == FirstSeen(Shards(hostvars, hosts))
    && forall s :: s in shards.vals ==> shards.vals[s] == HostsOf(hostvars, hosts, s)
  }

  /** The users of each shard, in the order of the shards. */
  ghost predicate DescribesUsers(hostvars: map<string, HostVars>, shards: Dict<string, seq<string>>, users: seq<User>) {
    && (forall s :: s in shards.keys ==> Leads(hostvars, shards.vals, s))
    && users == UsersOfShards(hostvars, shards.keys, shards.vals)
  }

  ghost predicate Describes(hostvars: map<string, HostVars>, hosts: seq<string>, info: ShardsInfo) {
    && Groupable(hostvars, hosts)
    && DescribesShards(hostvars, hosts, info.shards)
    && DescribesUsers(hostvars, info.shards, info.users)
  }

  // ----- One more host -----

  lemma ShardsStep(hostvars: map<string, HostVars>, hosts: seq<string>, host: string)
    requires (forall i :: 0 <= i < |hosts| ==> HasShard(hostvars, hosts[i])) && HasShard(hostvars, host)
    ensures forall i :: 0 <= i < |hosts + [host]| ==> HasShard(hostvars, (hosts + [host])[i])
    ensures Shards(hostvars, hosts + [host]) == Shards(hostvars, hosts) + [ShardOf(hostvars, host)]
    ensures IsFirst(hostvars, hosts + [host], |hosts|) <==> ShardOf(hostvars, host) !in Shards(hostvars, hosts)
    ensures forall s :: HostsOf(hostvars, hosts + [host], s) ==
              if s == ShardOf(hostvars, host) then HostsOf(hostvars, hosts, s) + [host] else HostsOf(hostvars, hosts, s)
  {
    var more := hosts + [host];
    assert more[..|more| - 1] == hosts;
    var shards := Shards(hostvars, hosts);
    assert forall j :: 0 <= j < |hosts| ==> shards[j] == ShardOf(hostvars, hosts[j]) && more[j] == hosts[j];
  }

  lemma GroupableStep(hostvars: map<string, HostVars>, hosts: seq<string>, host: string)
    requires Groupable(hostvars, hosts)
    ensures Groupable(hostvars, hosts + [host]) <==> ProblemAt(hostvars, hosts + [host], |hosts|).None?
  {
    var more := hosts + [host];
    assert forall j :: 0 <= j < |hosts| ==> more[j] == hosts[j];
    forall i | 0 <= i < |hosts|
      ensures ProblemAt(hostvars, more, i) == ProblemAt(hostvars, hosts, i)
    {
    }
  }

  /** A host of a new shard. */
  lemma AddShard(hostvars: map<string, HostVars>, hosts: seq<string>, info: ShardsInfo, host: string)
    requires Describes(hostvars, hosts, info) && HasShard(hostvars, host) && Problem(hostvars, host, true).None?
    requires ShardOf(hostvars, host) !in info.shards.vals
    ensures Describes(hostvars, hosts + [host],
              ShardsInfo(Put(info.shards, ShardOf(hostvars, host), [host]), info.users + UsersOf(hostvars, host)))
  {
    ShardsStep(hostvars, hosts, host);
    GroupableStep(hostvars, hosts, host);
    AddShardHosts(hostvars, hosts, info.shards, host);
    AddShardUsers(hostvars, info.shards, info.users, host);
  }

  lemma KnownShards(hostvars: map<string, HostVars>, hosts: seq<string>, shards: Dict<string, seq<string>>,
                    shard: string)
    requires (forall i :: 0 <= i < |hosts| ==> HasShard(hostvars, hosts[i])) && DescribesShards(hostvars, hosts, shards)
    ensures shard in shards.vals <==> shard in Shards(hostvars, hosts)
  {
    InFirstSeen(Shards(hostvars, hosts), shard);
    assert shard in shards.keys <==> shard in Elements(shards.keys);
  }

  lemma AddShardHosts(hostvars: map<string, HostVars>, hosts: seq<string>, shards: Dict<string, seq<string>>,
                      host: string)
    requires (forall i :: 0 <= i < |hosts| ==> HasShard(hostvars, hosts[i])) && DescribesShards(hostvars, hosts, shards)
    requires HasShard(hostvars, host) && ShardOf(hostvars, host) !in shards.vals
    ensures DescribesShards(hostvars, hosts + [host], Put(shards, ShardOf(hostvars, host), [host]))
  {
    hide HostsOf, Shards, FirstSeen, Put;
    var shard := ShardOf(hostvars, host);
    ShardsStep(hostvars, hosts, host);
    KnownShards(hostvars, hosts, shards, shard);
    FirstSeenStep(Shards(hostvars, hosts), shard);
    PutKeys(shards, shard, [host]);
    NoHostsYet(hostvars, hosts, shard);
    var shards' := Put(shards, shard, [host]);
    forall s | s in shards'.vals
      ensures shards'.vals[s] == HostsOf(hostvars, hosts + [host], s)
    {
      assert [] + [host] == [host];
    }
  }

  lemma AddShardUsers(hostvars: map<string, HostVars>, shards: Dict<string, seq<string>>, users: seq<User>,
                      host: string)
    requires DescribesUsers(hostvars, shards, users)
    requires HasShard(hostvars, host) && Problem(hostvars, host, true).None? && ShardOf(hostvars, host) !in shards.vals
    ensures DescribesUsers(hostvars, Put(shards, ShardOf(hostvars, host), [host]), users + UsersOf(hostvars, host))
  {
    var shard := ShardOf(hostvars, host);
    var shards' := Put(shards, shard, [host]);
    PutKeys(shards, shard, [host]);
    forall s | s in shards'.keys
      ensures Leads(hostvars, shards'.vals, s)
    {
      assert s != shard ==> Leads(hostvars, shards.vals, s);
    }
    SameUsers(hostvars, shards.keys, shards.vals, shards'.vals);
    assert shards'.keys[..|shards'.keys| - 1] == shards.keys;
  }

  lemma {:induction false} NoHostsYet(hostvars: map<string, HostVars>, hosts: seq<string>, shard: string)
    requires forall i :: 0 <= i < |hosts| ==> HasShard(hostvars, hosts[i])
    requires shard !in Shards(hostvars, hosts)
    ensures HostsOf(hostvars, hosts, shard) == []
  {
    if hosts != [] {
      var init, last := hosts[..|hosts| - 1], hosts[|hosts| - 1];
      assert hosts == init + [last];
      ShardsStep(hostvars, init, last);
      NoHostsYet(hostvars, init, shard);
    }
  }

  /** The users depend on the first hosts only. */
  lemma {:induction false} SameUsers(hostvars: map<string, HostVars>, shards: seq<string>,
                                     hosts: map<string, seq<string>>, hosts': map<string, seq<string>>)
    requires forall s :: s in shards ==> Leads(hostvars, hosts, s) && Leads(hostvars, hosts', s) && hosts[s][0] == hosts'[s][0]
    ensures UsersOfShards(hostvars, shards, hosts) == UsersOfShards(hostvars, shards, hosts')
  {
    if shards != [] {
      SameUsers(hostvars, shards[..|shards| - 1], hosts, hosts');
    }
  }

  /** A further host of a known shard. */
  lemma AddHost(hostvars: map<string, HostVars>, hosts: seq<string>, info: ShardsInfo, host: string)
    requires Describes(hostvars, hosts, info) && HasShard(hostvars, host)
    requires ShardOf(hostvars, host) in info.shards.vals
    ensures var shard := ShardOf(hostvars, host);
            Describes(hostvars, hosts + [host],
              ShardsInfo(Put(info.shards, shard, info.shards.vals[shard] + [host]), info.users))
  {
    ShardsStep(hostvars, hosts, host);
    GroupableStep(hostvars, hosts, host);
    KnownShards(hostvars, hosts, info.shards, ShardOf(hostvars, host));
    AddHostHosts(hostvars, hosts, info.shards, host);
    AddHostUsers(hostvars, info.shards, info.users, ShardOf(hostvars, host), host);
  }

  lemma AddHostHosts(hostvars: map<string, HostVars>, hosts: seq<string>, shards: Dict<string, seq<string>>,
                     host: string)
    requires (forall i :: 0 <= i < |hosts| ==> HasShard(hostvars, hosts[i])) && DescribesShards(hostvars, hosts, shards)
    requires HasShard(hostvars, host) && ShardOf(hostvars, host) in shards.vals
    ensures var shard := ShardOf(hostvars, host);
            DescribesShards(hostvars, hosts + [host], Put(shards, shard, shards.vals[shard] + [host]))
  {
    hide HostsOf, Shards, FirstSeen, Put;
    var shard := ShardOf(hostvars, host);
    ShardsStep(hostvars, hosts, host);
    KnownShards(hostvars, hosts, shards, shard);
    FirstSeenStep(Shards(hostvars, hosts), shard);
    PutKeys(shards, shard, shards.vals[shard] + [host]);
  }

  lemma AddHostUsers(hostvars: map<string, HostVars>, shards: Dict<string, seq<string>>, users: seq<User>,
                     shard: string, host: string)
    requires DescribesUsers(hostvars, shards, users) && shard in shards.vals
    ensures DescribesUsers(hostvars, Put(shards, shard, shards.vals[shard] + [host]), users)
  {
    var shards' := Put(shards, shard, shards.vals[shard] + [host]);
    PutKeys(shards, shard, shards.vals[shard] + [host]);
    forall s | s in shards.keys
      ensures Leads(hostvars, shards'.vals, s) && shards'.vals[s][0] == shards.vals[s][0]
    {
      assert Leads(hostvars, shards.vals, s);
    }
    SameUsers(hostvars, shards.keys, shards.vals, shards'.vals);
  }

  // ----- The filter -----

  /** The users of a new shard, from its first host. */
  method ShardUsers(hostvars: map<string, HostVars>, hostname: string, hostShardId: string)
    returns (r: Result<seq<User>, FilterError>)
    requires HasShard(hostvars, hostname) && hostShardId == ShardOf(hostvars, hostname)
    ensures match r
            case Ok(users) => Problem(hostvars, hostname, true).None? && users == UsersOf(hostvars, hostname)
            case Err(e) => Problem(hostvars, hostname, true) == Some(e)
  {
    var host := hostvars[hostname];
    if host.enableMariabackup.None? {
      return Err(BackupFlagUnavailable);
    }
    if host.databasePassword.None? {
      return Err(PasswordUnavailable);
    }
    if host.rootUserPrefix.None? {
      return Err(RootPrefixUnavailable);
    }
    var users := [User(host.databasePassword, host.rootUserPrefix.value + hostShardId, hostShardId)];
    if host.enableMariabackup.value {
      if host.backupUserPrefix.None? {
        return Err(BackupPrefixUnavailable);
      }
      users := users + [User(host.backupPassword, host.backupUserPrefix.value + hostShardId, hostShardId)];
    }
    return Ok(users);
  }

  method DatabaseShardsInfo(hostvars: Option<map<string, HostVars>>, hostnames: seq<string>)
    returns (r: Result<ShardsInfo, FilterError>)
    ensures hostvars.None? ==> r == Err(HostvarsUnavailable)
    ensures hostvars.Some? ==> (r.Ok? <==> Groupable(hostvars.value, hostnames))
    ensures r.Ok? ==> Describes(hostvars.value, hostnames, r.value)
    ensures hostvars.Some? && r.Err? ==> FirstProblem(hostvars.value, hostnames, r.error)
  {
    if hostvars.None? {
      return Err(HostvarsUnavailable);
    }
    var vars := hostvars.value;
    var info := ShardsInfo(Empty(), []);
    for i := 0 to |hostnames|
      invariant Describes(vars, hostnames[..i], info)
    {
      var hostname := hostnames[i];
      assert hostnames[..i + 1] == hostnames[..i] + [hostname];
      GroupedSoFar(vars, hostnames[..i], info, hostname);
      if hostname !in vars {
        StopsAt(vars, hostnames, i, NotInHostvars(hostname));
        return Err(NotInHostvars(hostname));
      }
      var host := vars[hostname];
      if host.shardId.None? {
        StopsAt(vars, hostnames, i, ShardIdUndefined(hostname));
        return Err(ShardIdUndefined(hostname));
      }
      var hostShardId := Str(host.shardId.value);
      if hostShardId !in info.shards.vals {
        var users := ShardUsers(vars, hostname, hostShardId);
        if users.Err? {
          StopsAt(vars, hostnames, i, users.error);
          return Err(users.error);
        }
        AddShard(vars, hostnames[..i], info, hostname);
        info := ShardsInfo(Put(info.shards, hostShardId, [hostname]), info.users + users.value);
      } else {
        AddHost(vars, hostnames[..i], info, hostname);
        info := info.(shards := Put(info.shards, hostShardId, info.shards.vals[hostShardId] + [hostname]));
      }
    }
    assert hostnames[..|hostnames|] == hostnames;
    return Ok(info);
  }

  /** The error is the problem of some host before which all hosts can be grouped. */
  ghost predicate FirstProblem(hostvars: map<string, HostVars>, hosts: seq<string>, e: FilterError) {
    exists i :: 0 <= i < |hosts| && Groupable(hostvars, hosts[..i]) && StopsWith(hostvars, hosts[..i], hosts[i], e)
  }

  ghost predicate StopsWith(hostvars: map<string, HostVars>, before: seq<string>, host: string, e: FilterError)
    requires Groupable(hostvars, before)
  {
    Problem(hostvars, host, HasShard(hostvars, host) && ShardOf(hostvars, host) !in Shards(hostvars, before)) == Some(e)
  }

  lemma StopsAt(hostvars: map<string, HostVars>, hosts: seq<string>, i: nat, e: FilterError)
    requires i < |hosts| && Groupable(hostvars, hosts[..i]) && StopsWith(hostvars, hosts[..i], hosts[i], e)
    ensures FirstProblem(hostvars, hosts, e) && !Groupable(hostvars, hosts)
  {
    if HasShard(hostvars, hosts[i]) {
      ShardsStep(hostvars, hosts[..i], hosts[i]);
      assert hosts[..i + 1] == hosts[..i] + [hosts[i]];
      assert forall j :: 0 <= j < i ==> hosts[..i][j] == hosts[j];
      assert IsFirst(hostvars, hosts, i) <==> IsFirst(hostvars, hosts[..i + 1], i);
      assert ProblemAt(hostvars, hosts, i) == Some(e);
    }
  }

  lemma GroupedSoFar(hostvars: map<string, HostVars>, hosts: seq<string>, info: ShardsInfo, host: string)
    requires Describes(hostvars, hosts, info)
    ensures HasShard(hostvars, host) ==>
      (ShardOf(hostvars, host) in info.shards.vals <==> ShardOf(hostvars, host) in Shards(hostvars, hosts))
  {
    if HasShard(hostvars, host) {
      KnownShards(hostvars, hosts, info.shards, ShardOf(hostvars, host));
    }
  }

  // ----- A partition -----

  function SumOfSizes(hostvars: map<string, HostVars>, hosts: seq<string>, shards: seq<string>): nat
    requires forall i :: 0 <= i < |hosts| ==> HasShard(hostvars, hosts[i])
  {
    if shards == [] then 0
    else SumOfSizes(hostvars, hosts, shards[..|shards| - 1]) + |HostsOf(hostvars, hosts, shards[|shards| - 1])|
  }

  lemma {:induction false} SumOfNoHosts(hostvars: map<string, HostVars>, shards: seq<string>)
    ensures SumOfSizes(hostvars, [], shards) == 0
  {
    if shards != [] {
      SumOfNoHosts(hostvars, shards[..|shards| - 1]);
    }
  }

  lemma {:induction false} SumGrows(hostvars: map<string, HostVars>, hosts: seq<string>, host: string,
                                    shards: seq<string>)
    requires (forall i :: 0 <= i < |hosts| ==> HasShard(hostvars, hosts[i])) && HasShard(hostvars, host) && Distinct(shards)
    ensures forall i :: 0 <= i < |hosts + [host]| ==> HasShard(hostvars, (hosts + [host])[i])
    ensures SumOfSizes(hostvars, hosts + [host], shards) ==
            SumOfSizes(hostvars, hosts, shards) + if ShardOf(hostvars, host) in shards then 1 else 0
    decreases shards
  {
    ShardsStep(hostvars, hosts, host);
    if shards != [] {
      var init, last := shards[..|shards| - 1], shards[|shards| - 1];
      SumGrows(hostvars, hosts, host, init);
      assert shards == init + [last];
      DistinctConcat(init, [last]);
      assert last in init ==> last in Elements(init);
    }
  }

  /** The shards partition the hosts: every host is listed under its own shard, and the sizes of the lists add up to
      the number of hosts. */
  lemma {:induction false} SizesAddUp(hostvars: map<string, HostVars>, hosts: seq<string>, shards: seq<string>)
    requires forall i :: 0 <= i < |hosts| ==> HasShard(hostvars, hosts[i])
    requires Distinct(shards) && forall i :: 0 <= i < |hosts| ==> ShardOf(hostvars, hosts[i]) in shards
    ensures SumOfSizes(hostvars, hosts, shards) == |hosts|
    ensures forall i :: 0 <= i < |hosts| ==> hosts[i] in HostsOf(hostvars, hosts, ShardOf(hostvars, hosts[i]))
    decreases hosts
  {
    hide SumOfSizes;
    if hosts == [] {
      SumOfNoHosts(hostvars, shards);
    } else {
      var init, last := hosts[..|hosts| - 1], hosts[|hosts| - 1];
      assert forall i :: 0 <= i < |init| ==> init[i] == hosts[i];
      SizesAddUp(hostvars, init, shards);
      SumGrows(hostvars, init, last, shards);
      ShardsStep(hostvars, init, last);
      assert hosts == init + [last];
    }
  }

  /** The filter's result is such a partition. */
  lemma ShardsPartitionHosts(hostvars: map<string, HostVars>, hosts: seq<string>, info: ShardsInfo)
    requires Describes(hostvars, hosts, info)
    ensures SumOfSizes(hostvars, hosts, info.shards.keys) == |hosts|
    ensures forall i :: 0 <= i < |hosts| ==>
      var shard := ShardOf(hostvars, hosts[i]); shard in info.shards.vals && hosts[i] in info.shards.vals[shard]
  {
    forall i | 0 <= i < |hosts|
      ensures ShardOf(hostvars, hosts[i]) in info.shards.keys && ShardOf(hostvars, hosts[i]) in info.shards.vals
    {
      KnownShards(hostvars, hosts, info.shards, ShardOf(hostvars, hosts[i]));
      assert Shards(hostvars, hosts)[i] == ShardOf(hostvars, hosts[i]);
      assert forall s :: s in info.shards.keys <==> s in Elements(info.shards.keys);
    }
    SizesAddUp(hostvars, hosts, info.shards.keys);
  }

  /** The users of a shard are its root user, with the database password, and, exactly if backups are enabled, its
      backup user, with the backup password; both are named by prefix and shard. */
  predicate IsUser(h: HostVars, shard: string, u: User) {
    && u.shardId == shard
    && ((h.rootUserPrefix.Some? && u.user == h.rootUserPrefix.value + shard && u.password == h.databasePassword) ||
        (h.enableMariabackup == Some(true) && h.backupUserPrefix.Some? &&
         u.user == h.backupUserPrefix.value + shard && u.password == h.backupPassword))
  }

  /** Every shard has its own users, by the variables of its first host, and no others. */
  lemma EachShardHasItsUsers(hostvars: map<string, HostVars>, hosts: seq<string>, info: ShardsInfo, u: User)
    requires Describes(hostvars, hosts, info)
    ensures u in info.users ==> u.shardId in info.shards.vals
    ensures u.shardId in info.shards.vals ==>
      var first := info.shards.vals[u.shardId];
      first != [] && first[0] in hostvars && (u in info.users <==> IsUser(hostvars[first[0]], u.shardId, u))
  {
    hide UsersOfShards, IsUser, FirstSeen;
    var shards := info.shards;
    assert forall s :: s in shards.keys <==> s in Elements(shards.keys);
    UserOfSome(hostvars, shards.keys, shards.vals, u);
    forall s | s in shards.keys
      ensures Leads(hostvars, shards.vals, s) && ShardOf(hostvars, shards.vals[s][0]) == s
      ensures u in UsersOf(hostvars, shards.vals[s][0]) <==> u.shardId == s && IsUser(hostvars[shards.vals[s][0]], s, u)
    {
      assert shards.vals[s] == HostsOf(hostvars, hosts, s) && shards.vals[s][0] in shards.vals[s];
      HostsHaveTheShard(hostvars, hosts, s);
      UsersAre(hostvars, shards.vals[s][0], u);
    }
  }

  lemma UsersAre(hostvars: map<string, HostVars>, host: string, u: User)
    requires HasShard(hostvars, host) && Problem(hostvars, host, true).None?
    ensures u in UsersOf(hostvars, host) <==>
            u.shardId == ShardOf(hostvars, host) && IsUser(hostvars[host], ShardOf(hostvars, host), u)
  {
  }

  lemma {:induction false} HostsHaveTheShard(hostvars: map<string, HostVars>, hosts: seq<string>, shard: string)
    requires forall i :: 0 <= i < |hosts| ==> HasShard(hostvars, hosts[i])
    ensures forall h :: h in HostsOf(hostvars, hosts, shard) ==> HasShard(hostvars, h) && ShardOf(hostvars, h) == shard
  {
    if hosts != [] {
      HostsHaveTheShard(hostvars, hosts[..|hosts| - 1], shard);
    }
  }

  lemma {:induction false} UserOfSome(hostvars: map<string, HostVars>, shards: seq<string>,
                                      hosts: map<string, seq<string>>, u: User)
    requires forall s :: s in shards ==> Leads(hostvars, hosts, s)
    ensures u in UsersOfShards(hostvars, shards, hosts) <==>
            exists s :: s in shards && u in UsersOf(hostvars, hosts[s][0])
  {
    if shards != [] {
      var init, last := shards[..|shards| - 1], shards[|shards| - 1];
      assert Leads(hostvars, hosts, last) && shards == init + [last];
      UserOfSome(hostvars, init, hosts, u);
    }
  }
}
