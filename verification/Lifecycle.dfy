/** Whole runs of the kolla_container module (ansible/library/kolla_container.py): any sequence of actions, each with
    parameters and a worker of its own. */
module Lifecycle {
  import opened Common
  import opened ContainerSpec
  import opened DockerCompare
  import opened Drift
  import opened Host
  import opened Systemd
  import opened DockerWorker
  import opened PodmanWorker

  datatype Action =
    | CompareContainer | CompareImage | EnsureVolume | EnsureImage | GetContainerEnv | GetContainerState | PullImage
    | RecreateOrRestartContainer | RemoveContainer | RemoveImage | RemoveVolume | RestartContainer | StartContainer
    | StopContainer | StopAndRemoveContainer

  /** The engine of the host; how podman's containers are compared is left open. */
  datatype Engine = Docker | Podman(compare: (Option<Image>, Container) -> Verdict)

  datatype Task = Task(engine: Engine, p: Params, action: Action)

  /** What the module tells Ansible. */
  datatype Report = Report(failed: bool, changed: bool)

  /** A container does not exist without a unit file with the given contents. */
  predicate InStep(text: string, w: World) {
    w.container.Some? ==> w.unit == Some(text)
  }

  /** Any exception is reported as a failure that has changed something; a failure that does not speak of changes is
      taken to have changed nothing. */
  function ReportOf(r: Outcome, changed: bool): Report {
    match r
    case Returned => Report(false, changed)
    case Failed => Report(true, false)
    case _ => Report(true, true)
  }

  /** The actions that may replace a container. */
  predicate Replaces(action: Action) {
    action.StartContainer? || action.RecreateOrRestartContainer?
  }

  /** If the image is not local in the end, the container and its unit file are as before. */
  predicate LeftAlone(ref: Ref, w: World, w': World) {
    ref !in w'.images ==> w.Untouched(w')
  }

  /** What an action that succeeds has made of the world.  That a volume is gone is sure for docker, and on a reliable
      host. */
  predicate Achieved(p: Params, action: Action, sure: bool, w: World, w': World) {
    var ref := ParseImage(p.image);
    match action
    case CompareContainer | CompareImage => w' == w
    case GetContainerEnv | GetContainerState => w' == w && w.container.Some?
    case EnsureVolume => w' == w.(volume := true)
    case RemoveVolume => w' == w.(volume := w'.volume) && (sure ==> !w'.volume)
    case EnsureImage | PullImage => ref in w'.images && w.Grown(ref, w')
    case RemoveImage => w' == w.(images := w.images - {ref})
    case RemoveContainer => w' == w.Bare()
    case StopAndRemoveContainer => w' == if w.container.Some? then w.Bare() else w
    case StopContainer => w'.Bare() == w.Bare() && (w'.container.Some? <==> w.container.Some?)
    case RestartContainer => w'.Bare() == w.Bare() && w.container.Some? && w'.container.Some?
    case StartContainer | RecreateOrRestartContainer => w'.volume == w.volume && (p.detach ==> w'.container.Some?)
  }

  /** And with what calls. */
  predicate Called(p: Params, action: Action, w: World, trace: seq<Event>, w': World, trace': seq<Event>) {
    match action
    case CompareContainer | CompareImage | GetContainerEnv | GetContainerState => trace' == trace
    case EnsureImage => ParseImage(p.image) in w.images ==> trace' == trace
    case PullImage => trace' == trace + [Event(Pull, w, w')]
    case StopContainer => trace' == trace || EndsWith(trace', Op.Stop) || EndsWith(trace', StopUnit)
    case RestartContainer => EndsInRestart(trace')
    case _ => true
  }

  /** Tells of the container's environment or state, which fails if there is none. */
  method DescribeContainer(host: Host) returns (r: Outcome)
    ensures r == Returned ==> host.world.container.Some?
    ensures host.reliable ==> r == if host.world.container.Some? then Returned else Failed
  {
    var container :- host.LookUpContainer();
    return if container.Some? then Returned else Failed;
  }

  /** An action of the docker worker. */
  method PerformDocker(worker: DockerWorker, action: Action) returns (r: Outcome)
    requires worker.Valid() && worker.past == worker.host.trace && !worker.changed
    modifies worker, worker.host
    ensures worker.Valid()
    ensures old(worker.host.AlwaysBacked()) ==> worker.host.AlwaysBacked()
    ensures Tagged(worker.p.image) && r == Returned ==> worker.Honest()
    ensures r == Returned ==> Achieved(worker.p, action, true, old(worker.host.world), worker.host.world)
    ensures r == Returned ==>
      Called(worker.p, action, old(worker.host.world), old(worker.host.trace), worker.host.world, worker.host.trace)
    ensures action.CompareContainer? && worker.host.reliable && r == Returned ==>
      (worker.changed <==> worker.MustRestart(worker.host.world))
    ensures action.CompareImage? || action.GetContainerEnv? || action.GetContainerState? ==> !worker.changed
    ensures action.StartContainer? && worker.host.reliable ==> worker.StartEnds(old(worker.host.world), r, worker.host.world)
    ensures action.RecreateOrRestartContainer? && worker.host.reliable ==>
      worker.RecreateEnds(old(worker.host.world), r, worker.host.world)
    ensures Replaces(action) ==> worker.ImageFirst()
    ensures Replaces(action) ==> LeftAlone(worker.Ref(), old(worker.host.world), worker.host.world)
    ensures worker.host.reliable && !worker.p.OneShot() && worker.Synced(old(worker.host.world)) ==>
      worker.Synced(worker.host.world)
  {
    hide Leads, AnyAltered, AllBacked, StopsWithImage, RemovesStopped, EndsInRestart;
    hide DockerWorker.RecreateEnds, DockerWorker.StartEnds, DockerWorker.MustRestart;
    var host := worker.host;
    ghost var before := host.world;
    NothingDone(before, host.trace);
    match action {
      case CompareContainer => r := worker.CompareContainer();
      case CompareImage => r := host.Query();
      case GetContainerEnv | GetContainerState => r := DescribeContainer(host);
      case EnsureVolume => r := worker.EnsureVolume();
      case EnsureImage => r := worker.EnsureImage();
      case PullImage => r := worker.PullImage();
      case RecreateOrRestartContainer =>
        r := worker.RecreateOrRestartContainer();
        if host.reliable && !worker.p.OneShot() && worker.Synced(before) {
          worker.RecreatedSynced(before, r, host.world);
        }
      case RemoveContainer => r := worker.RemoveContainer();
      case RemoveImage => r := worker.RemoveImage();
      case RemoveVolume => r := worker.RemoveVolume();
      case RestartContainer => r := worker.RestartContainer();
      case StartContainer =>
        r := worker.StartContainer();
        if host.reliable && !worker.p.OneShot() && worker.Synced(before) {
          worker.StartedSynced(before, r, host.world);
        }
      case StopContainer => r := worker.StopContainer();
      case StopAndRemoveContainer => r := worker.StopAndRemoveContainer();
    }
  }

  /** An action of the podman worker. */
  method PerformPodman(worker: PodmanWorker, action: Action) returns (r: Outcome)
    requires worker.Valid() && worker.past == worker.host.trace && !worker.changed
    modifies worker, worker.host
    ensures worker.Valid()
    ensures old(worker.host.AlwaysBacked()) ==> worker.host.AlwaysBacked()
    ensures worker.Paired(old(worker.host.world)) && r == Returned ==> worker.Honest()
    ensures r == Returned ==> Achieved(worker.p, action, worker.host.reliable, old(worker.host.world), worker.host.world)
    ensures r == Returned ==>
      Called(worker.p, action, old(worker.host.world), old(worker.host.trace), worker.host.world, worker.host.trace)
    ensures action.CompareContainer? && worker.host.reliable && r == Returned ==>
      (worker.changed <==> worker.MustRestart(worker.host.world))
    ensures action.CompareImage? || action.GetContainerEnv? || action.GetContainerState? ==> !worker.changed
    ensures action.StartContainer? && worker.host.reliable ==> worker.StartEnds(old(worker.host.world), r, worker.host.world)
    ensures action.RecreateOrRestartContainer? && worker.host.reliable ==>
      worker.RecreateEnds(old(worker.host.world), r, worker.host.world)
    ensures Replaces(action) ==> worker.ImageFirst()
    ensures Replaces(action) ==> LeftAlone(worker.Ref(), old(worker.host.world), worker.host.world)
    ensures worker.host.reliable && worker.Synced(old(worker.host.world)) ==> worker.Synced(worker.host.world)
  {
    hide Leads, AnyAltered, AllBacked, StopsWithImage, RemovesStopped, EndsInRestart;
    hide PodmanWorker.RecreateEnds, PodmanWorker.StartEnds, PodmanWorker.MustRestart;
    var host := worker.host;
    ghost var before := host.world;
    NothingDone(before, host.trace);
    match action {
      case CompareContainer => r := worker.CompareContainer();
      case CompareImage => r := host.Query();
      case GetContainerEnv | GetContainerState => r := DescribeContainer(host);
      case EnsureVolume => r := worker.EnsureVolume();
      case EnsureImage => r := worker.EnsureImage();
      case PullImage => r := worker.PullImage();
      case RecreateOrRestartContainer =>
        r := worker.RecreateOrRestartContainer();
        if host.reliable && worker.Synced(before) {
          worker.RecreatedSynced(before, r, host.world);
        }
      case RemoveContainer => r := worker.RemoveContainer();
      case RemoveImage => r := worker.RemoveImage();
      case RemoveVolume => r := worker.RemoveVolume();
      case RestartContainer => r := worker.RestartContainer();
      case StartContainer =>
        r := worker.StartContainer();
        if host.reliable && worker.Synced(before) {
          worker.StartedSynced(before, r, host.world);
        }
      case StopContainer => r := worker.StopContainer();
      case StopAndRemoveContainer => r := worker.StopAndRemoveContainer();
    }
  }

  // ----- Tasks -----

  /** The report says truly whether the action failed.  An exception counts as a change, and so does a failure that says
      so itself; any other failure does not. */
  predicate Tells(report: Report, r: Outcome) {
    && (report.failed <==> r != Returned)
    && (r in {ApiError, OtherError, FailedChanged} ==> report.changed)
    && (r == Failed ==> !report.changed)
  }

  /** Whether the engine keeps a unit file for every container it makes. */
  predicate KeepsUnits(t: Task) {
    t.engine.Podman? || !t.p.OneShot()
  }

  /** The Ansible tasks and worlds in which a report of no change is to be trusted: docker's images have a tag,
      podman's container has a unit file. */
  predicate Trusted(t: Task, w: World) {
    match t.engine
    case Docker => Tagged(t.p.image)
    case Podman(_) => w.container.Some? ==> w.unit.Some?
  }

  /** Makes a worker for an Ansible task and has it perform the action. */
  method Run(host: Host, t: Task) returns (report: Report, ghost r: Outcome)
    modifies host
    ensures Tells(report, r)
    ensures r == Returned ==> Achieved(t.p, t.action, t.engine.Docker? || host.reliable, old(host.world), host.world)
    ensures Leads(old(host.world), old(host.trace), host.trace, host.world)
    ensures old(host.AlwaysBacked()) ==> host.AlwaysBacked()
    ensures Trusted(t, old(host.world)) && report == Report(false, false) ==>
      !AnyAltered(host.trace, |old(host.trace)|) && Unaltered(old(host.world), host.world)
    ensures Replaces(t.action) ==> StopsWithImage(host.trace, |old(host.trace)|, ParseImage(t.p.image))
    ensures Replaces(t.action) ==> LeftAlone(ParseImage(t.p.image), old(host.world), host.world)
    ensures t.p.restartRetries == 0 ==> host.trace == old(host.trace)
    ensures t.p.restartRetries != 0 && host.reliable && KeepsUnits(t) && InStep(UnitText(t.p), old(host.world)) ==>
      InStep(UnitText(t.p), host.world)
  {
    hide UnitText, Leads, AnyAltered, AllBacked, StopsWithImage, RemovesStopped;
    if t.p.restartRetries == 0 {
      NothingDone(host.world, host.trace);
      return Report(true, true), OtherError;
    }
    ghost var text;
    match t.engine {
      case Docker => report, r, text := RunDocker(host, t.p, t.action);
      case Podman(compare) => report, r, text := RunPodman(host, t.p, compare, t.action);
    }
    if Trusted(t, old(host.world)) && report == Report(false, false) {
      NothingAltered(old(host.world), old(host.trace), host.trace, host.world);
    }
  }

  /** The same, except that a container that was waited for may have exited. */
  predicate Unaltered(w: World, w': World) {
    w' == w || w' == w.WithStatus(Exited)
  }

  method RunDocker(host: Host, p: Params, action: Action) returns (report: Report, ghost r: Outcome, ghost text: string)
    requires p.restartRetries != 0
    modifies host
    ensures text == UnitText(p) && Tells(report, r)
    ensures r == Returned ==> Achieved(p, action, true, old(host.world), host.world)
    ensures Leads(old(host.world), old(host.trace), host.trace, host.world)
    ensures old(host.AlwaysBacked()) ==> host.AlwaysBacked()
    ensures Tagged(p.image) && report == Report(false, false) ==> !AnyAltered(host.trace, |old(host.trace)|)
    ensures Replaces(action) ==> StopsWithImage(host.trace, |old(host.trace)|, ParseImage(p.image))
    ensures Replaces(action) ==> LeftAlone(ParseImage(p.image), old(host.world), host.world)
    ensures host.reliable && !p.OneShot() && InStep(text, old(host.world)) ==> InStep(text, host.world)
  {
    hide UnitText, Leads, AnyAltered, AllBacked, StopsWithImage, RemovesStopped, Compare;
    var worker := new DockerWorker(p, host);
    text := worker.systemd.text;
    var outcome := PerformDocker(worker, action);
    r, report := outcome, ReportOf(outcome, worker.changed);
  }

  method RunPodman(host: Host, p: Params, compare: (Option<Image>, Container) -> Verdict, action: Action)
    returns (report: Report, ghost r: Outcome, ghost text: string)
    requires p.restartRetries != 0
    modifies host
    ensures text == UnitText(p) && Tells(report, r)
    ensures r == Returned ==> Achieved(p, action, host.reliable, old(host.world), host.world)
    ensures Leads(old(host.world), old(host.trace), host.trace, host.world)
    ensures old(host.AlwaysBacked()) ==> host.AlwaysBacked()
    ensures (old(host.world).container.Some? ==> old(host.world).unit.Some?) && report == Report(false, false) ==>
      !AnyAltered(host.trace, |old(host.trace)|)
    ensures Replaces(action) ==> StopsWithImage(host.trace, |old(host.trace)|, ParseImage(p.image))
    ensures Replaces(action) ==> LeftAlone(ParseImage(p.image), old(host.world), host.world)
    ensures host.reliable && InStep(text, old(host.world)) ==> InStep(text, host.world)
  {
    hide UnitText, Leads, AnyAltered, AllBacked, StopsWithImage, RemovesStopped;
    var worker := new PodmanWorker(p, host, compare);
    text := worker.systemd.text;
    var outcome := PerformPodman(worker, action);
    r, report := outcome, ReportOf(outcome, worker.changed);
  }

  // ----- Runs -----

  /** What the events number from to number to, and the worlds before and after them, say of a task. */
  ghost predicate TaskKeeps(t: Task, report: Report, trace: seq<Event>, from: nat, to: nat, before: World, after: World) {
    && from <= to <= |trace|
    && (!report.failed ==> Achieved(t.p, t.action, t.engine.Docker?, before, after))
    && (Trusted(t, before) && report == Report(false, false) ==>
          Unaltered(before, after) && forall j :: from <= j < to ==> !Altered(trace[j]))
    && (Replaces(t.action) ==>
          LeftAlone(ParseImage(t.p.image), before, after) &&
          forall j :: from <= j < to ==> StopHasImage(trace[j], ParseImage(t.p.image)))
  }

  /** A report of no change is to be trusted, and whoever may replace a container stops it with the image at hand. */
  method RunTask(host: Host, t: Task) returns (report: Report)
    modifies host
    ensures Leads(old(host.world), old(host.trace), host.trace, host.world) && old(host.trace) <= host.trace
    ensures old(host.AlwaysBacked()) ==> host.AlwaysBacked()
    ensures TaskKeeps(t, report, host.trace, |old(host.trace)|, |host.trace|, old(host.world), host.world)
  {
    hide UnitText, Leads, AnyAltered, AllBacked, StopsWithImage, RemovesStopped;
    ghost var r;
    report, r := Run(host, t);
    LeadsGrows(old(host.world), old(host.trace), host.trace, host.world);
    RunsMean(host.trace, |old(host.trace)|, ParseImage(t.p.image));
  }

  /** More events change nothing of that. */
  lemma KeepsOn(t: Task, report: Report, trace: seq<Event>, from: nat, to: nat, before: World, after: World,
                trace': seq<Event>)
    requires TaskKeeps(t, report, trace, from, to, before, after) && trace <= trace'
    ensures TaskKeeps(t, report, trace', from, to, before, after)
  {
    assert forall j :: from <= j < to ==> trace'[j] == trace[j];
  }

  /** Any sequence of tasks, with any engine and any faults: a unit file never exists without its container, whatever a
      task reports unchanged is so, and no task that may replace a container takes it down before it has the image.  The
      marks tell which events are those of which task, the worlds what was between the tasks. */
  method RunAll(host: Host, tasks: seq<Task>)
    returns (reports: seq<Report>, ghost worlds: seq<World>, ghost marks: seq<nat>)
    modifies host
    ensures |reports| == |tasks| && |worlds| == |marks| == |tasks| + 1
    ensures worlds[0] == old(host.world) && worlds[|tasks|] == host.world
    ensures marks[0] == |old(host.trace)| && marks[|tasks|] == |host.trace| && old(host.trace) <= host.trace
    ensures forall i :: 0 <= i < |tasks| ==>
      TaskKeeps(tasks[i], reports[i], host.trace, marks[i], marks[i + 1], worlds[i], worlds[i + 1])
    ensures Leads(old(host.world), old(host.trace), host.trace, host.world)
    ensures old(host.AlwaysBacked()) ==> Backed(host.world) && forall j :: 0 <= j < |host.trace| ==> Backed(host.trace[j].after)
  {
    hide Leads, AnyAltered, AllBacked, StopsWithImage, TaskKeeps;
    reports, worlds, marks := [], [host.world], [|host.trace|];
    NothingDone(host.world, host.trace);
    for i := 0 to |tasks|
      invariant |reports| == i && |worlds| == |marks| == i + 1
      invariant worlds[0] == old(host.world) && worlds[i] == host.world
      invariant marks[0] == |old(host.trace)| && marks[i] == |host.trace| && old(host.trace) <= host.trace
      invariant forall k :: 0 <= k < i ==>
        TaskKeeps(tasks[k], reports[k], host.trace, marks[k], marks[k + 1], worlds[k], worlds[k + 1])
      invariant Leads(old(host.world), old(host.trace), host.trace, host.world)
      invariant old(host.AlwaysBacked()) ==> host.AlwaysBacked()
    {
      ghost var w, trace := host.world, host.trace;
      var report := RunTask(host, tasks[i]);
      LeadsOn(old(host.world), old(host.trace), trace, w, host.trace, host.world);
      forall k | 0 <= k < i
        ensures TaskKeeps(tasks[k], reports[k], host.trace, marks[k], marks[k + 1], worlds[k], worlds[k + 1])
      {
        KeepsOn(tasks[k], reports[k], trace, marks[k], marks[k + 1], worlds[k], worlds[k + 1], host.trace);
      }
      reports, worlds, marks := reports + [report], worlds + [host.world], marks + [|host.trace|];
    }
    RunsMean(host.trace, 0, ("", ""));
  }

  /** Tasks with the same settings of the unit file. */
  ghost predicate SameText(tasks: seq<Task>, text: string) {
    forall t :: t in tasks ==> t.p.restartRetries != 0 && KeepsUnits(t) && UnitText(t.p) == text
  }

  /** Any sequence of tasks with the same settings, on a reliable host: a container never exists without an up-to-date
      unit file, and every report of no change is to be trusted. */
  method RunInStep(host: Host, tasks: seq<Task>, ghost text: string)
    returns (reports: seq<Report>, ghost worlds: seq<World>)
    requires host.reliable && SameText(tasks, text) && InStep(text, host.world)
    modifies host
    ensures |reports| == |tasks| && |worlds| == |tasks| + 1
    ensures worlds[0] == old(host.world) && worlds[|tasks|] == host.world
    ensures forall i :: 0 <= i < |worlds| ==> InStep(text, worlds[i])
    ensures forall i :: 0 <= i < |tasks| ==> ReportHolds(tasks[i], reports[i], worlds[i], worlds[i + 1])
  {
    hide UnitText, Leads, AnyAltered, StopsWithImage;
    reports, worlds := [], [host.world];
    for i := 0 to |tasks|
      invariant |reports| == i && |worlds| == i + 1
      invariant worlds[0] == old(host.world) && worlds[i] == host.world
      invariant forall k :: 0 <= k < |worlds| ==> InStep(text, worlds[k])
      invariant forall k :: 0 <= k < i ==> ReportHolds(tasks[k], reports[k], worlds[k], worlds[k + 1])
    {
      assert tasks[i] in tasks;
      var report;
      ghost var r;
      report, r := Run(host, tasks[i]);
      reports, worlds := reports + [report], worlds + [host.world];
    }
  }

  /** No change is reported only if there was none. */
  predicate ReportHolds(t: Task, report: Report, before: World, after: World) {
    (t.engine.Docker? ==> Tagged(t.p.image)) && report == Report(false, false) ==> Unaltered(before, after)
  }

  // ----- Convergence -----

  /** The image that the host has or can pull. */
  function Available(images: map<Ref, Image>, registry: map<Ref, Image>, ref: Ref): Option<Image> {
    if ref in images then Some(images[ref]) else if ref in registry then Some(registry[ref]) else None
  }

  /** Starts a container that is not there, and then again with the same parameters.  The second time nothing is done and
      nothing is reported exactly if the parameters converge. */
  method StartTwice(host: Host, p: Params, image: Image)
    returns (first: Report, second: Report, ghost between: World, ghost events: seq<Event>)
    requires host.reliable && p.restartRetries != 0 && p.detach && host.world.container.None?
    requires Available(host.world.images, host.registry, ParseImage(p.image)) == Some(image)
    requires host.accepts(p, image) && Creatable(p, image) && WellFormed(p) && PlainNames(image.env.vals)
    requires Faithful(host.api, p, image, host.inspect(p, image))
    modifies host
    ensures first == Report(false, true)
    ensures between.container == Some(Container(host.inspect(p, image), Running))
    ensures second == Report(false, false) <==> Converges(host.api, p, image)
    ensures Converges(host.api, p, image) ==> host.world == between && host.trace == events
  {
    hide UnitText, Leads, AnyAltered, AllBacked, StopsWithImage, RemovesStopped, Compare, Converges, Creatable, Faithful;
    var worker := new DockerWorker(p, host);
    worker.StartedFromNothing(host.world);
    var r := worker.StartContainer();
    first := ReportOf(r, worker.changed);
    between, events := host.world, host.trace;
    Convergence(host.api, p, image, host.inspect(p, image));
    var again := new DockerWorker(p, host);
    assert again.Settled(between) <==> Converges(host.api, p, image);
    r := again.StartContainer();
    second := ReportOf(r, again.changed);
  }

  /** The two ways of asking agree: when compare_container reports nothing for a container that is to run, then
      start_container does nothing and reports nothing, whatever fails. */
  method CompareThenStart(host: Host, p: Params) returns (compared: Report, started: Report)
    requires p.restartRetries != 0 && p.detach && (p.state == "running" || p.state == "started")
    modifies host
    ensures compared == Report(false, false) ==> host.world == old(host.world) && host.trace == old(host.trace)
    ensures compared == Report(false, false) ==> started.failed || !started.changed
  {
    hide UnitText, Leads, AnyAltered, AllBacked, StopsWithImage, RemovesStopped, Compare;
    var comparing := new DockerWorker(p, host);
    var r := comparing.CompareContainer();
    compared := ReportOf(r, comparing.changed);
    var starting := new DockerWorker(p, host);
    if compared == Report(false, false) {
      var container := host.world.container.value;
      SameIsRunning(host.api, p, starting.ImageIn(host.world), container.info, container.status);
      assert starting.Settled(host.world);
    }
    r := starting.StartContainer();
    started := ReportOf(r, starting.changed);
  }
}
