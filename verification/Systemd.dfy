/** The systemd unit that starts and stops a container (ansible/module_utils/kolla_systemd_worker.py). */
module Systemd {
  import opened Common
  import opened Decimal
  import opened ContainerSpec
  import opened DockerCompare
  import opened Host

  // ----- The unit file -----

  /** Python's //. */
  function FloorDiv(a: int, b: int): int
    requires b != 0
  {
    if b > 0 then a / b else (-a) / (-b)
  }

  /** The pause between two restarts. */
  function RestartDuration(timeout: int, retries: int): int
    requires retries != 0
  {
    FloorDiv(timeout, retries) - 1
  }

  /** All permitted retries fit into the timeout, so the start limit is reached: systemd does not restart a failing
      service for ever.  The pause is a possible one only if there are not more retries than seconds. */
  lemma RetriesFit(timeout: int, retries: int)
    requires retries >= 1
    ensures RestartDuration(timeout, retries) * retries <= timeout - retries < timeout
    ensures RestartDuration(timeout, retries) >= 0 <==> timeout >= retries
  {
  }

  function Dependencies(engine: string): string {
    if engine == "docker" then "docker.service" else "network-online.target"
  }

  /** The restart policy in systemd's words. */
  function Policy(p: Params): string {
    match p.restartPolicy
    case None => "no"
    case Some(policy) => if policy == "unless-stopped" then "always" else policy
  }

  function ServiceName(p: Params): string {
    "kolla-" + p.name + "-container.service"
  }

  function Grace(p: Params): string {
    match p.gracefulTimeout
    case None => "None"
    case Some(n) => PrintInt(n)
  }

  /** The lines of the unit file; the last one ends with a line end, too. */
  function UnitLines(p: Params): seq<string>
    requires p.restartRetries != 0
  {
    ["# " + ServiceName(p),
     "# autogenerated by Kolla-Ansible",
     "",
     "[Unit]",
     "Description=" + (p.engine + (" " + ServiceName(p))),
     "After=" + Dependencies(p.engine),
     "Wants=" + Dependencies(p.engine),
     "StartLimitInterval=" + PrintInt(p.clientTimeout),
     "StartLimitBurst=" + PrintInt(p.restartRetries),
     "",
     "[Service]",
     "ExecStart=/usr/bin/" + (p.engine + (" start -a " + p.name)),
     "ExecStop=/usr/bin/" + (p.engine + (" stop " + (p.name + (" -t " + Grace(p))))),
     "Restart=" + Policy(p),
     "RestartSec=" + PrintInt(RestartDuration(p.clientTimeout, p.restartRetries)),
     "SuccessExitStatus=143",
     "",
     "[Install]",
     "WantedBy=multi-user.target",
     ""]
  }

  /** The contents of the unit file. */
  function UnitText(p: Params): string
    requires p.restartRetries != 0
  {
    Joined(UnitLines(p), '\n')
  }

  /** The settings that the unit file depends on. */
  predicate SameUnit(p: Params, q: Params) {
    && p.name == q.name && p.engine == q.engine
    && p.clientTimeout == q.clientTimeout && p.restartRetries == q.restartRetries
    && Grace(p) == Grace(q) && Policy(p) == Policy(q)
  }

  predicate OneLine(s: string) {
    '\n' !in s
  }

  lemma SamePrefix(a: string, s: string, t: string)
    requires a + s == a + t
    ensures s == t
  {
    assert s == (a + s)[|a|..] && t == (a + t)[|a|..];
  }

  lemma SameSuffix(s: string, t: string, a: string)
    requires s + a == t + a
    ensures s == t
  {
    assert |s| == |t| && s == (s + a)[..|s|] && t == (t + a)[..|t|];
  }

  lemma PrintIntIsOneLine(n: int)
    ensures OneLine(PrintInt(n))
  {
    var s := PrintNat(if n < 0 then -n else n);
    assert forall c :: c in s ==> IsDigit(c);
  }

  lemma ServiceNameDetermines(p: Params, q: Params)
    requires ServiceName(p) == ServiceName(q)
    ensures p.name == q.name
  {
    assert ServiceName(p) == "kolla-" + (p.name + "-container.service");
    assert ServiceName(q) == "kolla-" + (q.name + "-container.service");
    SamePrefix("kolla-", p.name + "-container.service", q.name + "-container.service");
    SameSuffix(p.name, q.name, "-container.service");
  }

  lemma GraceIsOneLine(p: Params)
    ensures OneLine(Grace(p))
  {
    match p.gracefulTimeout
    case None =>
    case Some(n) => PrintIntIsOneLine(n);
  }

  /** All that goes into the file is without line ends. */
  predicate OneLiners(p: Params) {
    OneLine(p.name) && OneLine(p.engine) && OneLine(Policy(p))
  }

  lemma Labelled(key: string, s: string)
    requires OneLine(key) && OneLine(s)
    ensures OneLine(key + s)
  {
  }

  lemma LinesAreOneLine(p: Params)
    requires p.restartRetries != 0 && OneLiners(p)
    ensures forall i :: 0 <= i < |UnitLines(p)| ==> OneLine(UnitLines(p)[i])
  {
    hide PrintInt, RestartDuration, Grace, Policy, ServiceName, Dependencies;
    NamesAreOneLine(p);
    Labelled("# ", ServiceName(p));
    Labelled("Description=", p.engine + (" " + ServiceName(p)));
    Labelled("After=", Dependencies(p.engine));
    Labelled("Wants=", Dependencies(p.engine));
    Labelled("StartLimitInterval=", PrintInt(p.clientTimeout));
    Labelled("StartLimitBurst=", PrintInt(p.restartRetries));
    Labelled("ExecStart=/usr/bin/", p.engine + (" start -a " + p.name));
    Labelled("ExecStop=/usr/bin/", p.engine + (" stop " + (p.name + (" -t " + Grace(p)))));
    Labelled("Restart=", Policy(p));
    Labelled("RestartSec=", PrintInt(RestartDuration(p.clientTimeout, p.restartRetries)));
    FixedLines();
    hide OneLine;
  }

  lemma NamesAreOneLine(p: Params)
    requires p.restartRetries != 0 && OneLiners(p)
    ensures OneLine(ServiceName(p)) && OneLine(Dependencies(p.engine)) && OneLine(p.engine + (" " + ServiceName(p)))
    ensures OneLine(PrintInt(p.clientTimeout)) && OneLine(PrintInt(p.restartRetries))
    ensures OneLine(PrintInt(RestartDuration(p.clientTimeout, p.restartRetries)))
    ensures OneLine(p.engine + (" start -a " + p.name))
    ensures OneLine(p.engine + (" stop " + (p.name + (" -t " + Grace(p)))))
  {
    hide PrintInt, RestartDuration, Grace;
    GraceIsOneLine(p);
    PrintIntIsOneLine(p.clientTimeout);
    PrintIntIsOneLine(p.restartRetries);
    PrintIntIsOneLine(RestartDuration(p.clientTimeout, p.restartRetries));
  }

  lemma FixedLines()
    ensures OneLine("# autogenerated by Kolla-Ansible") && OneLine("") && OneLine("[Unit]") && OneLine("[Service]")
    ensures OneLine("SuccessExitStatus=143") && OneLine("[Install]") && OneLine("WantedBy=multi-user.target")
  {
  }

  /** The file falls into its lines. */
  lemma LinesOfUnit(p: Params)
    requires p.restartRetries != 0 && OneLiners(p)
    ensures SplitAll(UnitText(p), '\n') == UnitLines(p)
  {
    hide UnitLines, Joined;
    LinesAreOneLine(p);
    UnitHasLines(p);
    JoinedSplits(UnitLines(p), '\n');
  }

  lemma UnitHasLines(p: Params)
    requires p.restartRetries != 0
    ensures |UnitLines(p)| == 20
  {
  }

  lemma {:induction false} JoinedSplits(parts: seq<string>, c: char)
    requires parts != [] && forall i :: 0 <= i < |parts| ==> c !in parts[i]
    ensures SplitAll(Joined(parts, c), c) == parts
    decreases parts
  {
    if |parts| == 1 {
      SplitFirstMeans(parts[0], c);
    } else {
      JoinedSplits(parts[1..], c);
      SplitFirstAt(parts[0], c, Joined(parts[1..], c));
      assert [parts[0]] + parts[1..] == parts;
    }
  }

  /** What the file tells systemd, line by line: the unit starts and stops the container by the engine's commands, comes
      after what the engine needs, and restarts the container by its policy, with such a pause that all permitted retries
      fit into the timeout. */
  lemma UnitFileSays(p: Params)
    requires p.restartRetries >= 1 && OneLine(p.name) && OneLine(p.engine)
    requires p.restartPolicy.Some? ==> OneLine(p.restartPolicy.value)
    ensures var lines := SplitAll(UnitText(p), '\n');
            && "ExecStart=/usr/bin/" + (p.engine + (" start -a " + p.name)) in lines
            && (p.gracefulTimeout.Some? ==>
                  "ExecStop=/usr/bin/" + (p.engine + (" stop " + (p.name + (" -t " + PrintInt(p.gracefulTimeout.value))))) in lines)
            && (p.gracefulTimeout.None? ==> "ExecStop=/usr/bin/" + (p.engine + (" stop " + (p.name + (" -t " + "None")))) in lines)
            && (p.engine == "docker" ==> "After=" + "docker.service" in lines && "Wants=" + "docker.service" in lines)
            && (p.engine != "docker" ==>
                  "After=" + "network-online.target" in lines && "Wants=" + "network-online.target" in lines)
            && (p.restartPolicy == Some("unless-stopped") ==> "Restart=" + "always" in lines)
            && (p.restartPolicy.Some? && p.restartPolicy.value != "unless-stopped" ==> "Restart=" + p.restartPolicy.value in lines)
            && (p.restartPolicy == None ==> "Restart=" + "no" in lines)
            && "StartLimitInterval=" + PrintInt(p.clientTimeout) in lines
            && "StartLimitBurst=" + PrintInt(p.restartRetries) in lines
            && "SuccessExitStatus=143" in lines && "WantedBy=multi-user.target" in lines
    ensures var lines := SplitAll(UnitText(p), '\n');
            exists pause: int :: "RestartSec=" + PrintInt(pause) in lines &&
              (pause + 1) * p.restartRetries <= p.clientTimeout < (pause + 2) * p.restartRetries
  {
    hide SplitAll, PrintInt, UnitText, UnitLines, RestartDuration, OneLine;
    if p.gracefulTimeout.Some? {
      assert Grace(p) == PrintInt(p.gracefulTimeout.value);
    } else {
      assert Grace(p) == "None";
    }
    assert OneLiners(p) by {
      PolicyIsOneLine(p);
    }
    LinesOfUnit(p);
    LinesAt(p);
    EngineNeeds(p);
    hide Policy, Dependencies, Grace;
    assert forall i :: 0 <= i < |UnitLines(p)| ==> UnitLines(p)[i] in UnitLines(p);
    Pauses(p.clientTimeout, p.restartRetries);
  }

  lemma EngineNeeds(p: Params)
    ensures Dependencies(p.engine) == if p.engine == "docker" then "docker.service" else "network-online.target"
    ensures p.restartPolicy == Some("unless-stopped") ==> Policy(p) == "always"
    ensures p.restartPolicy == None ==> Policy(p) == "no"
    ensures p.restartPolicy.Some? && p.restartPolicy.value != "unless-stopped" ==> Policy(p) == p.restartPolicy.value
  {
  }

  lemma PolicyIsOneLine(p: Params)
    requires p.restartPolicy.Some? ==> OneLine(p.restartPolicy.value)
    ensures OneLine(Policy(p))
  {
  }

  lemma LinesAt(p: Params)
    requires p.restartRetries != 0
    ensures var lines := UnitLines(p);
            && |lines| == 20
            && lines[5] == "After=" + Dependencies(p.engine) && lines[6] == "Wants=" + Dependencies(p.engine)
            && lines[7] == "StartLimitInterval=" + PrintInt(p.clientTimeout)
            && lines[8] == "StartLimitBurst=" + PrintInt(p.restartRetries)
            && lines[11] == "ExecStart=/usr/bin/" + (p.engine + (" start -a " + p.name))
            && lines[12] == "ExecStop=/usr/bin/" + (p.engine + (" stop " + (p.name + (" -t " + Grace(p)))))
            && lines[13] == "Restart=" + Policy(p)
            && lines[14] == "RestartSec=" + PrintInt(RestartDuration(p.clientTimeout, p.restartRetries))
            && lines[15] == "SuccessExitStatus=143" && lines[18] == "WantedBy=multi-user.target"
  {
    hide PrintInt, RestartDuration, Policy, Grace, Dependencies;
  }

  lemma Pauses(timeout: int, retries: int)
    requires retries >= 1
    ensures var pause := RestartDuration(timeout, retries);
            (pause + 1) * retries <= timeout < (pause + 2) * retries
  {
    assert (timeout / retries + 1) * retries == timeout / retries * retries + retries;
  }

  /** Comparing the text of the unit file finds every change of the settings, and nothing else. */
  lemma UnitTextTellsChanges(p: Params, q: Params)
    requires p.restartRetries != 0 && q.restartRetries != 0
    requires OneLine(p.name) && OneLine(q.name) && OneLine(p.engine) && OneLine(q.engine)
    requires OneLine(Policy(p)) && OneLine(Policy(q))
    ensures UnitText(p) == UnitText(q) <==> SameUnit(p, q)
  {
    if UnitText(p) == UnitText(q) {
      hide UnitText, SplitAll, PrintInt, Grace, Policy, UnitLines;
      LinesOfUnit(p);
      LinesOfUnit(q);
      LinesTell(p, q);
    } else {
      SameLines(p, q);
    }
  }

  lemma SameLines(p: Params, q: Params)
    requires p.restartRetries != 0 && q.restartRetries != 0
    ensures SameUnit(p, q) ==> UnitLines(p) == UnitLines(q)
  {
  }

  lemma LinesTell(p: Params, q: Params)
    requires p.restartRetries != 0 && q.restartRetries != 0 && UnitLines(p) == UnitLines(q)
    ensures SameUnit(p, q)
  {
    hide PrintInt, Grace, Policy, RestartDuration, Dependencies;
    var a, b := UnitLines(p), UnitLines(q);
    assert a[0] == b[0] && a[4] == b[4] && a[7] == b[7] && a[8] == b[8] && a[12] == b[12] && a[13] == b[13];
    SamePrefix("# ", ServiceName(p), ServiceName(q));
    ServiceNameDetermines(p, q);
    SamePrefix("Description=", p.engine + (" " + ServiceName(p)), q.engine + (" " + ServiceName(q)));
    SameSuffix(p.engine, q.engine, " " + ServiceName(p));
    SamePrefix("StartLimitInterval=", PrintInt(p.clientTimeout), PrintInt(q.clientTimeout));
    SamePrefix("StartLimitBurst=", PrintInt(p.restartRetries), PrintInt(q.restartRetries));
    PrintIntInjective(p.clientTimeout, q.clientTimeout);
    PrintIntInjective(p.restartRetries, q.restartRetries);
    StopLineTells(p, q);
    SamePrefix("Restart=", Policy(p), Policy(q));
  }

  lemma StopLineTells(p: Params, q: Params)
    requires p.name == q.name && p.engine == q.engine
    requires "ExecStop=/usr/bin/" + (p.engine + (" stop " + (p.name + (" -t " + Grace(p))))) ==
             "ExecStop=/usr/bin/" + (q.engine + (" stop " + (q.name + (" -t " + Grace(q)))))
    ensures Grace(p) == Grace(q)
  {
    hide Grace;
    SamePrefix("ExecStop=/usr/bin/", p.engine + (" stop " + (p.name + (" -t " + Grace(p)))),
               q.engine + (" stop " + (q.name + (" -t " + Grace(q)))));
    SamePrefix(p.engine, " stop " + (p.name + (" -t " + Grace(p))), " stop " + (q.name + (" -t " + Grace(q))));
    SamePrefix(" stop ", p.name + (" -t " + Grace(p)), q.name + (" -t " + Grace(q)));
    SamePrefix(p.name, " -t " + Grace(p), " -t " + Grace(q));
    SamePrefix(" -t ", Grace(p), Grace(q));
  }

  // ----- Waiting for the unit -----

  const DELAY := 5

  /** The first time that the unit is asked after the timeout has elapsed. */
  function LastPoll(timeout: int): nat {
    if timeout < 0 then 0 else timeout / DELAY + 1
  }

  predicate SawState(observed: nat -> Observation, k: nat, state: string) {
    observed(k) == Seen(Some(state))
  }

  /** Asks for the state of the unit until it is the wanted one or the timeout has elapsed, sleeping in between. */
  method WaitForUnit(observed: nat -> Observation, timeout: int, state: string)
    returns (r: Outcome, ok: bool, polls: nat, slept: nat)
    ensures 1 <= polls <= LastPoll(timeout) + 1
    ensures slept == 5 * (polls - 1)
    ensures timeout >= 0 ==> polls <= timeout / 5 + 2 && slept <= timeout + 5
    ensures forall k :: 0 <= k < polls - 1 ==> observed(k).Seen? && !SawState(observed, k, state)
    ensures r == if observed(polls - 1).Broken? then OtherError else Returned
    ensures r == Returned ==> (ok <==> exists k :: 0 <= k <= LastPoll(timeout) && SawState(observed, k, state))
    ensures r == Returned && !ok ==> polls == LastPoll(timeout) + 1 && slept > timeout
  {
    var elapsed := 0;
    polls, slept := 0, 0;
    while true
      invariant elapsed == slept == DELAY * polls
      invariant polls <= LastPoll(timeout)
      invariant forall k :: 0 <= k < polls ==> observed(k).Seen? && !SawState(observed, k, state)
      decreases LastPoll(timeout) - polls
    {
      var current := observed(polls);
      polls := polls + 1;
      if current.Broken? {
        return OtherError, false, polls, slept;
      }
      if current.state == Some(state) {
        assert SawState(observed, polls - 1, state);
        return Returned, true, polls, slept;
      } else if elapsed > timeout {
        return Returned, false, polls, slept;
      }
      slept := slept + DELAY;
      elapsed := elapsed + DELAY;
    }
  }

  // ----- The worker -----

  class SystemdWorker {
    const p: Params
    const host: Host
    /** The contents of the unit file, all settings in which are fixed when the worker is made. */
    const text: string

    /** Fails, with a division by zero, for parameters with no retries. */
    constructor (p: Params, host: Host)
      requires p.restartRetries != 0
      ensures this.p == p && this.host == host && text == UnitText(p)
    {
      this.p, this.host, text := p, host, UnitText(p);
    }

    method CheckUnitFile() returns (exists_: bool)
      ensures exists_ == host.world.unit.Some?
    {
      exists_ := host.world.unit.Some?;
    }

    /** Whether the unit file would have to be written. */
    method CheckUnitChange() returns (r: Outcome, change: bool)
      ensures host.reliable ==> r == Returned
      ensures !r.EndsAction()
      ensures r == Returned ==> change == (host.world.unit != Some(text))
    {
      change := true;
      var there := CheckUnitFile();
      if there {
        :- host.Query();
        return Returned, host.world.unit.value != text;
      }
      return Returned, true;
    }

    /** Writes the unit file unless it is there with the same contents; tells whether it did.  Reloading and enabling
        may fail unnoticed. */
    method CreateUnitFile() returns (r: Outcome, written: bool)
      modifies host
      ensures host.trace == old(host.trace) || host.trace == old(host.trace) + [Event(WriteUnit, old(host.world), host.world)]
      ensures host.trace == old(host.trace) ==> host.world == old(host.world)
      ensures host.world == old(host.world).(unit := host.world.unit)
      ensures host.world == old(host.world) || host.world.unit.Some?
      ensures r == Returned ==> host.world.unit == Some(text) && written == (old(host.world).unit != Some(text))
      ensures r == Returned && !written ==> host.trace == old(host.trace)
      ensures host.reliable ==> r == Returned
      ensures !r.EndsAction()
    {
      written := false;
      var change :- CheckUnitChange();
      if change {
        :- host.WriteUnit(text);
        return Returned, true;
      }
      return Returned, false;
    }

    /** Removes the unit file if it is there; tells whether it was. */
    method RemoveUnitFile() returns (r: Outcome, removed: bool)
      modifies host
      ensures host.trace == old(host.trace) || host.trace == old(host.trace) + [Event(DeleteUnit, old(host.world), host.world)]
      ensures host.trace == old(host.trace) ==> host.world == old(host.world)
      ensures host.trace == old(host.trace) <==> old(host.world).unit.None?
      ensures host.world == if r == Returned then old(host.world).(unit := None) else old(host.world)
      ensures r == Returned ==> removed == old(host.world).unit.Some?
      ensures host.reliable ==> r == Returned
      ensures !r.EndsAction()
    {
      removed := false;
      var there := CheckUnitFile();
      if there {
        :- host.DeleteUnit();
        return Returned, true;
      }
      return Returned, false;
    }

    /** Asks systemd to start or stop the container; an error is only a "no".  A unit whose file is gone may still be
        loaded. */
    method PerformAction(op: Op, wanted: Status) returns (done: bool)
      requires op == StartUnit || op == StopUnit
      modifies host
      ensures ChangesStatusOnly(old(host.world), old(host.trace), host.world, host.trace, op)
      ensures done || old(host.world).unit.Some? ==> host.trace != old(host.trace)
      ensures host.reliable && old(host.world).unit.Some? ==> done && host.world == old(host.world).WithStatus(wanted)
      ensures host.reliable && old(host.world).unit.None? ==> !done && host.trace == old(host.trace)
    {
      var loaded: bool := *;
      if host.world.unit.Some? || (loaded && !host.reliable) {
        var r := host.ChangeStatus(op, wanted);
        return r == Returned;
      }
      return false;
    }

    /** Waits for the state of the unit. */
    method Await(state: string) returns (r: Outcome, ok: bool)
      ensures host.reliable ==> r == Returned && (ok <==> UnitState(host.world) == Some(state))
      ensures !r.EndsAction()
    {
      var observed := host.ObserveUnit();
      var polls, slept;
      r, ok, polls, slept := WaitForUnit(observed, p.clientTimeout, state);
      if host.reliable && UnitState(host.world) == Some(state) {
        assert SawState(observed, 0, state);
      }
    }

    method Start() returns (r: Outcome, ok: bool)
      modifies host
      ensures ChangesStatusOnly(old(host.world), old(host.trace), host.world, host.trace, StartUnit)
      ensures ok || old(host.world).unit.Some? ==> host.trace != old(host.trace)
      ensures host.reliable && old(host.world).unit.Some? ==> host.world == old(host.world).WithStatus(Running)
      ensures host.reliable && old(host.world).unit.None? ==> host.trace == old(host.trace)
      ensures host.reliable ==> r == Returned && (ok <==> old(host.world).unit.Some? && old(host.world).container.Some?)
      ensures !r.EndsAction()
    {
      var done := PerformAction(StartUnit, Running);
      if !done {
        return Returned, false;
      }
      r, ok := Await("running");
    }

    /** Stops the container and starts it again. */
    method Restart() returns (r: Outcome, ok: bool)
      modifies host
      ensures RestartsOnly(old(host.world), old(host.trace), host.world, host.trace)
      ensures ok ==> EndsInRestart(host.trace)
      ensures host.reliable && old(host.world).unit.Some? ==> host.world == old(host.world).WithStatus(Running)
      ensures host.reliable && old(host.world).unit.None? ==> host.trace == old(host.trace)
      ensures host.reliable ==> r == Returned && (ok <==> old(host.world).unit.Some? && old(host.world).container.Some?)
      ensures !r.EndsAction()
    {
      ghost var before := host.world;
      var stopped := PerformAction(StopUnit, Exited);
      ghost var between := host.world;
      ghost var trace := host.trace;
      if !stopped {
        assert Restarts(before, old(host.trace), between, trace, host.world, host.trace);
        return Returned, false;
      }
      var done := PerformAction(StartUnit, Running);
      assert Restarts(before, old(host.trace), between, trace, host.world, host.trace);
      if !done {
        return Returned, false;
      }
      r, ok := Await("running");
    }

    method Stop() returns (r: Outcome, ok: bool)
      modifies host
      ensures ChangesStatusOnly(old(host.world), old(host.trace), host.world, host.trace, StopUnit)
      ensures ok || old(host.world).unit.Some? ==> host.trace != old(host.trace)
      ensures host.reliable && old(host.world).unit.Some? ==> host.world == AfterStop(old(host.world))
      ensures host.reliable && old(host.world).unit.None? ==> host.trace == old(host.trace)
      ensures host.reliable ==> r == Returned && (ok <==> old(host.world).unit.Some?)
      ensures !r.EndsAction()
    {
      var status := if host.world.container.Some? then Stopped(host.world.container.value.status) else Exited;
      var done := PerformAction(StopUnit, status);
      if !done {
        return Returned, false;
      }
      r, ok := Await("dead");
    }
  }

  /** The world after the container, if there is one, has been stopped. */
  function AfterStop(w: World): World {
    if w.container.Some? then w.WithStatus(Stopped(w.container.value.status)) else w
  }

  /** At most one call of the given kind has been made, and only the container's status may have changed. */
  ghost predicate ChangesStatusOnly(w: World, trace: seq<Event>, w': World, trace': seq<Event>, op: Op) {
    && (trace' == trace || trace' == trace + [Event(op, w, w')])
    && (trace' == trace ==> w' == w)
    && w' == w.(container := w'.container)
    && (w'.container.Some? <==> w.container.Some?)
    && (w'.container.Some? ==> w'.container.value.info == w.container.value.info)
  }

  /** The container has been stopped and then started through its unit, or nothing has been done, or only the former. */
  ghost predicate RestartsOnly(w: World, trace: seq<Event>, w': World, trace': seq<Event>) {
    exists m, between :: Restarts(w, trace, m, between, w', trace')
  }

  ghost predicate Restarts(w: World, trace: seq<Event>, m: World, between: seq<Event>, w': World, trace': seq<Event>) {
    && ChangesStatusOnly(w, trace, m, between, StopUnit)
    && ChangesStatusOnly(m, between, w', trace', StartUnit)
    && (between == trace ==> trace' == trace)
  }

  /** The last two calls were a stop and a start. */
  predicate EndsInRestart(trace: seq<Event>) {
    |trace| >= 2 &&
    ((trace[|trace| - 2].op == StopUnit && trace[|trace| - 1].op == StartUnit) ||
     (trace[|trace| - 2].op == Stop && trace[|trace| - 1].op == Start))
  }

  lemma ChangeKeeps(w: World, trace: seq<Event>, w': World, trace': seq<Event>, op: Op, begun: World,
                    past: seq<Event>, ref: Ref)
    requires ChangesStatusOnly(w, trace, w', trace', op) && (op == StartUnit || op == StopUnit)
    requires Leads(begun, past, trace, w)
    ensures Leads(begun, past, trace', w')
    ensures Backed(w) && AllBacked(trace) ==> AllBacked(trace')
    ensures ref in w.images && StopsWithImage(trace, |past|, ref) ==> StopsWithImage(trace', |past|, ref)
    ensures RemovesStopped(trace, |past|) ==> RemovesStopped(trace', |past|)
  {
    LeadsGrows(begun, past, trace, w);
  }

  /** A restart keeps what holds of the run, if the image is local. */
  lemma RestartKeeps(w: World, trace: seq<Event>, w': World, trace': seq<Event>, begun: World, past: seq<Event>,
                     ref: Ref)
    requires RestartsOnly(w, trace, w', trace') && Leads(begun, past, trace, w)
    ensures w' == w.(container := w'.container) && (w'.container.Some? <==> w.container.Some?)
    ensures Leads(begun, past, trace', w')
    ensures Backed(w) && AllBacked(trace) ==> AllBacked(trace')
    ensures ref in w.images && StopsWithImage(trace, |past|, ref) ==> StopsWithImage(trace', |past|, ref)
    ensures RemovesStopped(trace, |past|) ==> RemovesStopped(trace', |past|)
  {
    hide Leads, AllBacked, StopsWithImage, RemovesStopped;
    var m, between :| Restarts(w, trace, m, between, w', trace');
    ChangeKeeps(w, trace, m, between, StopUnit, begun, past, ref);
    ChangeKeeps(m, between, w', trace', StartUnit, begun, past, ref);
  }
}
