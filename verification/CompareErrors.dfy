/** How a comparison ends that finds the container neither the same nor different: by an exception, or by ending the
    whole action with a failure (ansible/module_utils/kolla_container_worker.py). */
module CompareErrors {
  import opened Common
  import opened Decimal
  import opened Dimensions
  import opened OrderedDict
  import opened ContainerSpec
  import opened DockerCompare

  // ----- The order of the comparisons -----

  /** The verdict is that of the first comparison that does not find the container the same. */
  predicate FirstOf(v: Verdict, verdicts: seq<Verdict>) {
    if v == Same then forall i :: 0 <= i < |verdicts| ==> verdicts[i] == Same
    else exists i :: 0 <= i < |verdicts| && verdicts[i] == v && forall j :: 0 <= j < i ==> verdicts[j] == Same
  }

  lemma FirstOfMore(a: Verdict, b: Verdict, verdicts: seq<Verdict>)
    requires FirstOf(b, verdicts)
    ensures FirstOf(Or(a, b), [a] + verdicts)
  {
    var all := [a] + verdicts;
    if a == Same && b != Same {
      var i :| 0 <= i < |verdicts| && verdicts[i] == b && forall j :: 0 <= j < i ==> verdicts[j] == Same;
      assert all[i + 1] == b && forall j :: 0 <= j < i + 1 ==> all[j] == Same;
    } else if a != Same {
      assert all[0] == a;
    }
  }

  /** The verdicts of the sixteen comparisons in their order. */
  function Verdicts(api: Api, p: Params, image: Option<Image>, info: Info, status: Status): seq<Verdict> {
    [CompareCapAdd(p, info), CompareSecurityOpt(p, info), CompareImage(p, image, info), CompareIpcMode(p, info),
     CompareLabels(p, image, info), ComparePrivileged(p, info), ComparePidMode(p, info), CompareCgroupnsMode(api, p, info),
     CompareTmpfs(p, info), CompareVolumes(p, info), CompareVolumesFrom(p, info), CompareEnvironment(p, info),
     CompareState(p, status), CompareDimensions(api, p, info), CompareCommand(p, info), CompareHealthcheck(p, info)]
  }

  /** The first of them that fails, or finds a difference, decides. */
  lemma CompareIsTheFirst(api: Api, p: Params, image: Option<Image>, info: Info, status: Status)
    ensures FirstOf(Compare(api, p, image, info, status), Verdicts(api, p, image, info, status))
  {
    hide CompareCapAdd, CompareSecurityOpt, CompareImage, CompareIpcMode, CompareLabels, ComparePrivileged, ComparePidMode;
    hide CompareCgroupnsMode, CompareTmpfs, CompareVolumes, CompareVolumesFrom, CompareEnvironment, CompareState;
    hide CompareDimensions, CompareCommand, CompareHealthcheck, FirstOf, Or, OrFrom;
    var all := Verdicts(api, p, image, info, status);
    OrFromIsFirst(all, 0);
    assert all[0..] == all;
    SixteenOr(all);
  }

  lemma SixteenOr(all: seq<Verdict>)
    requires |all| == 16
    ensures OrFrom(all, 0) ==
            Or(all[0], Or(all[1], Or(all[2], Or(all[3], Or(all[4], Or(all[5], Or(all[6], Or(all[7], Or(all[8], Or(all[9],
            Or(all[10], Or(all[11], Or(all[12], Or(all[13], Or(all[14], all[15])))))))))))))))
  {
    assert OrFrom(all, 15) == all[15];
    hide Or;
    assert OrFrom(all, 13) == Or(all[13], Or(all[14], OrFrom(all, 15)));
    assert OrFrom(all, 11) == Or(all[11], Or(all[12], OrFrom(all, 13)));
    assert OrFrom(all, 9) == Or(all[9], Or(all[10], OrFrom(all, 11)));
    assert OrFrom(all, 7) == Or(all[7], Or(all[8], OrFrom(all, 9)));
    assert OrFrom(all, 5) == Or(all[5], Or(all[6], OrFrom(all, 7)));
    assert OrFrom(all, 3) == Or(all[3], Or(all[4], OrFrom(all, 5)));
    assert OrFrom(all, 1) == Or(all[1], Or(all[2], OrFrom(all, 3)));
  }

  function OrFrom(verdicts: seq<Verdict>, i: nat): Verdict
    requires i <= |verdicts|
    decreases |verdicts| - i
  {
    if i == |verdicts| then Same else Or(verdicts[i], OrFrom(verdicts, i + 1))
  }

  lemma {:induction false} OrFromIsFirst(verdicts: seq<Verdict>, i: nat)
    requires i <= |verdicts|
    ensures FirstOf(OrFrom(verdicts, i), verdicts[i..])
    decreases |verdicts| - i
  {
    if i < |verdicts| {
      OrFromIsFirst(verdicts, i + 1);
      FirstOfMore(verdicts[i], OrFrom(verdicts, i + 1), verdicts[i + 1..]);
      assert verdicts[i..] == [verdicts[i]] + verdicts[i + 1..];
    }
  }

  // ----- Labels, volumes, environment, command -----

  /** The loop over the image's labels fails at one that neither the request nor the container has, unless an earlier
      one differs from the request. */
  lemma {:induction false} LabelsFail(keys: seq<string>, image: map<string, string>, new_: map<string, string>,
                                      current: map<string, string>)
    requires Distinct(keys) && forall k :: k in keys ==> k in image
    ensures CompareLabelsFrom(keys, image, new_, current) == Raises <==>
            exists i :: 0 <= i < |keys| && keys[i] !in new_ && keys[i] !in current && LabelsAgreeBefore(keys, image, new_, i)
    decreases keys
  {
    if keys != [] {
      var k, rest := keys[0], keys[1..];
      var current' := if k in new_ then current else current - {k};
      assert Distinct(rest) && k !in rest by {
        assert keys == [k] + rest;
        DistinctConcat([k], rest);
        assert k in Elements([k]);
      }
      LabelsFail(rest, image, new_, current');
      if i :| 0 <= i < |rest| && rest[i] !in new_ && rest[i] !in current' && LabelsAgreeBefore(rest, image, new_, i)
      {
        assert keys[i + 1] == rest[i];
        assert k in new_ && image[k] == new_[k] ==> LabelsAgreeBefore(keys, image, new_, i + 1);
        assert k !in new_ ==> LabelsAgreeBefore(keys, image, new_, i + 1);
      }
      if i :| 0 <= i < |keys| && keys[i] !in new_ && keys[i] !in current && LabelsAgreeBefore(keys, image, new_, i) {
        if i > 0 {
          assert rest[i - 1] == keys[i];
          assert LabelsAgreeBefore(rest, image, new_, i - 1);
          assert rest[i - 1] !in current';
        }
      }
    }
  }

  /** Of the first labels of the image, those that are requested are requested as the image has them. */
  predicate LabelsAgreeBefore(keys: seq<string>, image: map<string, string>, new_: map<string, string>, i: nat)
    requires i <= |keys| && forall k :: k in keys ==> k in image
  {
    forall j :: 0 <= j < i && keys[j] in new_ ==> image[keys[j]] == new_[keys[j]]
  }

  /** Volumes fail at a path whose target is none. */
  lemma VolumesFail(p: Params, info: Info)
    ensures CompareVolumes(p, info) != Exits
    ensures CompareVolumes(p, info) == Raises <==>
            exists i :: 0 <= i < |p.volumes| && IsBadVolume(p.volumes[i])
  {
    SomeVolumeFails(p.volumes);
  }

  /** A path whose target is none, as in "/etc/localtime:ro". */
  predicate IsBadVolume(vol: string) {
    var parts := SplitAll(vol, ':');
    |parts| == 2 && '/' in parts[0] && '/' !in parts[1]
  }

  lemma {:induction false} SomeVolumeFails(vols: seq<string>)
    ensures VolumesFrom(vols).Err? <==> exists i :: 0 <= i < |vols| && IsBadVolume(vols[i])
  {
    if vols != [] {
      var init, last := vols[..|vols| - 1], vols[|vols| - 1];
      SomeVolumeFails(init);
      assert forall i :: 0 <= i < |init| ==> init[i] == vols[i];
      if VolumesFrom(init).Ok? {
        var _ := AddVolumeMeans(VolumesFrom(init).value, last);
        SplitAllJoins(last, ':');
      }
    }
  }

  /** The environment fails at an entry without an equals sign, if any variable is requested. */
  lemma EnvironmentFails(p: Params, info: Info)
    ensures CompareEnvironment(p, info) != Exits
    ensures CompareEnvironment(p, info) == Raises <==>
            p.environment.keys != [] && exists i :: 0 <= i < |info.env| && '=' !in info.env[i]
  {
    SomeEntryFails(info.env);
  }

  lemma {:induction false} SomeEntryFails(env: seq<string>)
    ensures CurrentEnv(env).None? <==> exists i :: 0 <= i < |env| && '=' !in env[i]
  {
    if env != [] {
      var init := env[..|env| - 1];
      SomeEntryFails(init);
      SplitFirstMeans(env[|env| - 1], '=');
      assert forall i :: 0 <= i < |init| ==> init[i] == env[i];
    }
  }

  // ----- Healthcheck -----

  /** Other options than the five end the action; an exception is raised at a number that is none, unless the test
      before it disables the check. */
  lemma HealthcheckFails(p: Params, info: Info)
    ensures CompareHealthcheck(p, info) == Exits <==>
            p.healthcheck.vals != map[] &&
            p.healthcheck.vals.Keys != {"test", "interval", "timeout", "start_period", "retries"}
    ensures CompareHealthcheck(p, info) == Raises <==>
            p.healthcheck.vals.Keys == {"test", "interval", "timeout", "start_period", "retries"} &&
            FailsAtANumber(p.healthcheck.keys, p.healthcheck.vals)
  {
    var options := p.healthcheck;
    KeysHaveValues(options);
    OptionNames();
    assert options.vals.Keys == Elements(options.keys);
    if options.keys == [] {
      assert options.vals.Keys == {};
    } else {
      assert options.keys[0] in options.vals;
      if Elements(options.keys) == Elements(HEALTH_OPTIONS) {
        NumberFails(options.keys, options.vals, map[]);
      }
    }
  }

  predicate FailsAtANumber(keys: seq<string>, options: map<string, HealthOption>) {
    keys != [] && keys[0] in options &&
    if keys[0] == "test" then !Disables(options["test"]) && FailsAtANumber(keys[1..], options)
    else !Numeric(options[keys[0]]) || FailsAtANumber(keys[1..], options)
  }

  lemma {:induction false} NumberFails(keys: seq<string>, options: map<string, HealthOption>, fields: map<string, HealthField>)
    requires forall k :: k in keys ==> k in options && k in HEALTH_OPTIONS
    ensures HealthFrom(keys, options, fields).Err? <==> FailsAtANumber(keys, options)
    ensures HealthFrom(keys, options, fields).Err? ==> HealthFrom(keys, options, fields).error != BadParameters
    decreases keys
  {
    if keys != [] {
      var key := keys[0];
      assert key in HEALTH_OPTIONS && keys == [key] + keys[1..];
      var field := if key == "test" then TestOf(options[key])
                   else if ToInt(options[key]).Err? then Amount(0)
                   else Amount(if IsDuration(key) then ToInt(options[key]).value * 1000000000 else ToInt(options[key]).value);
      NumberFails(keys[1..], options, fields[key := field]);
    }
  }

  // ----- Dimensions -----

  /** A text whose last character is neither a digit nor a unit. */
  predicate HasNoUnit(s: string) {
    s != "" && !IsDigit(s[|s| - 1]) && s[|s| - 1] !in "bBkKmMgG"
  }

  /** A unit after what is no number. */
  predicate HasNoNumber(s: string) {
    s != "" && s[|s| - 1] in "bBkKmMgG" && !IsInteger(s[..|s| - 1])
  }

  /** A missing value, requested or reported, and an unknown unit end the action; an empty text, and a unit without a
      number, raise an exception.  The requested value is looked at first. */
  lemma DimensionFails(p: Params, info: Info, key: string, name: string)
    requires key in p.dimensions
    ensures var (v, r) := (p.dimensions[key], Reported(info, name));
            if v.Null? || r.Null? then CompareDimension(p, info, key, name) == Exits
            else
              var (a, b) := (Dimensions.Str(v), Dimensions.Str(r));
              if a == "" || b == "" then CompareDimension(p, info, key, name) == Raises
              else
                && (CompareDimension(p, info, key, name) == Exits <==> HasNoUnit(a) || (HasNoUnit(b) && !HasNoNumber(a)))
                && (CompareDimension(p, info, key, name) == Raises <==> HasNoNumber(a) || (HasNoNumber(b) && !HasNoUnit(a)))
  {
    var (v, r) := (p.dimensions[key], Reported(info, name));
    if !v.Null? && !r.Null? && Dimensions.Str(v) != "" && Dimensions.Str(r) != "" {
      hide Normal, HasNoUnit, HasNoNumber;
      NormalFails(Dimensions.Str(v));
      NormalFails(Dimensions.Str(r));
    }
  }

  lemma NormalFails(s: string)
    requires s != ""
    ensures Normal(s).Err? && Normal(s).error.UnsupportedUnit? <==> HasNoUnit(s)
    ensures Normal(s).Err? && Normal(s).error == NotANumber <==> HasNoNumber(s)
    ensures Normal(s).Err? ==> Normal(s).error.UnsupportedUnit? || Normal(s).error == NotANumber
  {
  }

  /** A dimension that cannot be asked for ends the action; otherwise the first of the ten dimensions, in their order,
      and then of the resource limits, that is not the same decides. */
  lemma DimensionsFail(api: Api, p: Params, info: Info)
    ensures (exists key :: key in p.dimensions && !Compared(api, key)) ==> CompareDimensions(api, p, info) == Exits
    ensures (forall key :: key in p.dimensions ==> Compared(api, key)) ==>
            FirstOf(CompareDimensions(api, p, info), DimensionVerdicts(api, p, info, 0))
  {
    FirstDimension(api, p, info, 0);
  }

  function DimensionVerdicts(api: Api, p: Params, info: Info, i: nat): seq<Verdict>
    requires i <= |DIMENSIONS|
    decreases |DIMENSIONS| - i
  {
    if i == |DIMENSIONS| then [CompareUlimits(p, info)]
    else
      var (key, name) := DIMENSIONS[i];
      [if key == "kernel_memory" && api.kernelMemoryRemoved then Same else CompareDimension(p, info, key, name)] +
      DimensionVerdicts(api, p, info, i + 1)
  }

  lemma {:induction false} FirstDimension(api: Api, p: Params, info: Info, i: nat)
    requires i <= |DIMENSIONS|
    ensures FirstOf(CompareDimensionsFrom(api, p, info, i), DimensionVerdicts(api, p, info, i))
    decreases |DIMENSIONS| - i
  {
    if i == |DIMENSIONS| {
      assert DimensionVerdicts(api, p, info, i)[0] == CompareUlimits(p, info);
    } else {
      hide CompareDimension, FirstOf;
      FirstDimension(api, p, info, i + 1);
      var (key, name) := DIMENSIONS[i];
      FirstOfMore(if key == "kernel_memory" && api.kernelMemoryRemoved then Same else CompareDimension(p, info, key, name),
                  CompareDimensionsFrom(api, p, info, i + 1), DimensionVerdicts(api, p, info, i + 1));
    }
  }
}
