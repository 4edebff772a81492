/** The part of a host that the workers act on: the container engine's local images and its one container of the
    service's name, the service's systemd unit file, and the named volume.  Every call may fail, unless the host is
    reliable, and every call that changes something is recorded. */
module Host {
  import opened Common
  import opened ContainerSpec
  import opened DockerCompare

  /** Repository and tag. */
  type Ref = (string, string)

  datatype Container = Container(info: Info, status: Status)

  datatype World = World(images: map<Ref, Image>, container: Option<Container>, unit: Option<string>, volume: bool)
  {
    /** The world with the container, if there is one, in another state. */
    function WithStatus(s: Status): World {
      if container.Some? then this.(container := Some(container.value.(status := s))) else this
    }

    /** The images and the volume alone. */
    function Bare(): World {
      this.(container := None, unit := None)
    }

    /** After the container has been waited for, and removed if so requested. */
    function Waited(remove: bool): World {
      if remove then Bare() else WithStatus(Exited)
    }

    /** With the image, if it is to be had. */
    function Pulled(ref: Ref, registry: map<Ref, Image>): World {
      if ref !in images && ref in registry then this.(images := images[ref := registry[ref]]) else this
    }

    /** The container and its unit file are the same. */
    predicate Untouched(w: World) {
      w.container == container && w.unit == unit
    }

    /** At most the image has arrived. */
    predicate Grown(ref: Ref, w: World) {
      w == this || (ref in w.images && w == this.(images := images[ref := w.images[ref]]))
    }
  }

  /** A container is started and stopped by the engine, or by systemd through its unit. */
  datatype Op =
    | Pull | RemoveImage | Create | Remove | Start | Stop | StartUnit | StopUnit | WriteUnit | DeleteUnit
    | CreateVolume | RemoveVolume | Wait

  /** A call that changed the world, or tried to. */
  datatype Event = Event(op: Op, before: World, after: World)

  /** How a call ends: normally, with an error of the engine's interface, with another exception, or by ending the
      whole action with a failure, of which it may be said that something has changed (fail_json, exit_json). */
  datatype Outcome = Returned | ApiError | OtherError | Failed | FailedChanged
  {
    predicate EndsAction() {
      Failed? || FailedChanged?
    }

    predicate IsFailure() {
      !Returned?
    }

    function PropagateFailure(): Outcome
      requires IsFailure()
    {
      this
    }
  }

  /** What systemd says of the unit: the state of it, None if it is not listed; or the question raises. */
  datatype Observation = Seen(state: Option<string>) | Broken

  /** What becomes of having the container check its own configuration: the check's exit code; an error of the engine
      that is the client's, as the container cannot run the check; or another failure. */
  datatype Answer = ExitCode(code: int) | ClientError | NoAnswer(why: Outcome)

  /** The exit codes that are answers are 0 for unchanged and others for changed. */
  predicate Judged(answer: Answer, answers: set<int>, r: Outcome, stale: bool) {
    match answer
    case ExitCode(code) => if code in answers then r == Returned && (stale <==> code != 0) else r == OtherError
    case ClientError => r == Returned && stale
    case NoAnswer(why) => r == why != Returned
  }

  /** How the comparison of the container ends. */
  function Ending(v: Verdict): Outcome {
    match v
    case Raises => OtherError
    case Exits => Failed
    case _ => Returned
  }

  /** The status of a container after it has been told to stop: one that was never started is left as it is. */
  function Stopped(s: Status): Status {
    if s == Created then Created else Exited
  }

  /** Whether the engine lists the container as up. */
  predicate IsUp(s: Status) {
    s == Running || s == Paused
  }

  // ----- What is said of a run -----

  /** A unit file never exists without its container. */
  predicate Backed(w: World) {
    w.unit.Some? ==> w.container.Some?
  }

  /** The events after those of the past lead from world w to world w'. */
  predicate Leads(w: World, past: seq<Event>, trace: seq<Event>, w': World) {
    if |trace| <= |past| then trace == past && w' == w
    else trace[|trace| - 1].after == w' && Leads(w, past, trace[..|trace| - 1], trace[|trace| - 1].before)
  }

  /** The worker has changed something; that a container exits while it is waited for is not its doing. */
  predicate Altered(e: Event) {
    e.after != e.before && !(e.op == Wait && e.after == e.before.WithStatus(Exited))
  }

  predicate EndsWith(trace: seq<Event>, op: Op) {
    trace != [] && trace[|trace| - 1].op == op
  }

  /** Since event number from, the worker has changed something. */
  predicate AnyAltered(trace: seq<Event>, from: nat) {
    |trace| > from && (AnyAltered(trace[..|trace| - 1], from) || Altered(trace[|trace| - 1]))
  }

  /** A unit file has never existed without its container. */
  predicate AllBacked(trace: seq<Event>) {
    trace == [] || (AllBacked(trace[..|trace| - 1]) && Backed(trace[|trace| - 1].after))
  }

  /** Since event number from, the container has been stopped or removed only while the image was local. */
  predicate StopsWithImage(trace: seq<Event>, from: nat, ref: Ref) {
    |trace| > from ==> StopsWithImage(trace[..|trace| - 1], from, ref) && StopHasImage(trace[|trace| - 1], ref)
  }

  predicate StopHasImage(e: Event, ref: Ref) {
    e.op == Stop || e.op == StopUnit || e.op == Remove ==> ref in e.before.images
  }

  /** Since event number from, the container has been removed only when it was not up. */
  predicate RemovesStopped(trace: seq<Event>, from: nat) {
    |trace| > from ==> RemovesStopped(trace[..|trace| - 1], from) && RemoveOfStopped(trace[|trace| - 1])
  }

  predicate RemoveOfStopped(e: Event) {
    e.op == Remove ==> !ContainerUp(e.before)
  }

  /** What the predicates on runs say of each event. */
  lemma {:induction false} RunsMean(trace: seq<Event>, from: nat, ref: Ref)
    ensures AnyAltered(trace, from) <==> exists i :: from <= i < |trace| && Altered(trace[i])
    ensures AllBacked(trace) <==> forall i :: 0 <= i < |trace| ==> Backed(trace[i].after)
    ensures StopsWithImage(trace, from, ref) <==> forall i :: from <= i < |trace| ==> StopHasImage(trace[i], ref)
    ensures RemovesStopped(trace, from) <==> forall i :: from <= i < |trace| ==> RemoveOfStopped(trace[i])
  {
    if trace != [] {
      var init := trace[..|trace| - 1];
      RunsMean(init, from, ref);
      assert forall i :: 0 <= i < |init| ==> init[i] == trace[i];
    }
  }

  lemma {:induction false} LeadsOn(w: World, past: seq<Event>, middle: seq<Event>, w': World, trace: seq<Event>,
                                   w'': World)
    requires Leads(w, past, middle, w') && Leads(w', middle, trace, w'')
    ensures Leads(w, past, trace, w'')
    decreases trace
  {
    if |trace| > |middle| {
      LeadsOn(w, past, middle, w', trace[..|trace| - 1], trace[|trace| - 1].before);
      LeadsGrows(w, past, middle, w');
      LeadsGrows(w', middle, trace, w'');
    }
  }

  /** No events lead nowhere. */
  lemma NothingDone(w: World, trace: seq<Event>)
    ensures Leads(w, trace, trace, w) && !AnyAltered(trace, |trace|)
    ensures forall ref :: StopsWithImage(trace, |trace|, ref)
  {
  }

  lemma {:induction false} LeadsGrows(w: World, past: seq<Event>, trace: seq<Event>, w': World)
    requires Leads(w, past, trace, w')
    ensures past <= trace
  {
    if |trace| > |past| {
      LeadsGrows(w, past, trace[..|trace| - 1], trace[|trace| - 1].before);
    }
  }

  /** Events that altered nothing lead nowhere, except that the container may have exited. */
  lemma {:induction false} NothingAltered(w: World, past: seq<Event>, trace: seq<Event>, w': World)
    requires Leads(w, past, trace, w') && !AnyAltered(trace, |past|)
    ensures w' == w || w' == w.WithStatus(Exited)
  {
    if |trace| > |past| {
      NothingAltered(w, past, trace[..|trace| - 1], trace[|trace| - 1].before);
    }
  }

  predicate ContainerUp(w: World) {
    w.container.Some? && IsUp(w.container.value.status)
  }

  /** What a reliable systemd says of the unit: its state is that of the container it starts and stops. */
  function UnitState(w: World): Option<string> {
    if w.unit.None? then None
    else if w.container.Some? && w.container.value.status == Running then Some("running")
    else Some("dead")
  }

  class Host {
    var world: World
    ghost var trace: seq<Event>

    /** A reliable host never fails without a reason that can be seen in the world. */
    const reliable: bool
    /** The images that a reliable host can pull. */
    const registry: map<Ref, Image>
    const api: Api
    /** What a container says when it is told to check its own configuration: an exit code. */
    const checkConfig: Container -> int
    /** The exit code with which a container ends. */
    const exitsWith: Container -> int
    /** Whether the engine takes the parameters for a container of the image. */
    const accepts: (Params, Image) -> bool
    /** What the engine reports of a container made from the parameters and the image. */
    const inspect: (Params, Image) -> Info

    constructor (world: World, reliable: bool, registry: map<Ref, Image>, api: Api,
                 checkConfig: Container -> int, exitsWith: Container -> int, accepts: (Params, Image) -> bool,
                 inspect: (Params, Image) -> Info)
      ensures this.world == world && trace == []
      ensures this.reliable == reliable && this.registry == registry && this.api == api
      ensures this.checkConfig == checkConfig && this.exitsWith == exitsWith
      ensures this.accepts == accepts && this.inspect == inspect
    {
      this.world, trace := world, [];
      this.reliable, this.registry, this.api := reliable, registry, api;
      this.checkConfig, this.exitsWith, this.accepts, this.inspect := checkConfig, exitsWith, accepts, inspect;
    }

    /** There is no unit file without its container now, and there never was, not even between two calls. */
    ghost predicate AlwaysBacked()
      reads this
    {
      Backed(world) && AllBacked(trace)
    }

    /** How waiting for the container ends: the action succeeds exactly if its exit code is zero. */
    function WaitOutcome(c: Container): Outcome {
      if exitsWith(c) == 0 then Returned else FailedChanged
    }

    /** How starting the container ends after it has been started or not, together with waiting for it unless it is
        detached. */
    predicate EndsAfterStart(p: Params, outcome: Outcome, started: World, r: Outcome, w: World) {
      if p.detach || outcome != Returned then r == outcome && w == started
      else started.container.Some? && r == WaitOutcome(started.container.value) && w == started.Waited(p.removeOnExit)
    }

    /** A container can be made from the parameters. */
    predicate Makeable(w: World, p: Params, ref: Ref) {
      ref in w.images && w.container == None && accepts(p, w.images[ref])
    }

    // Calls that only look

    method Query() returns (r: Outcome)
      ensures reliable ==> r == Returned
      ensures !r.EndsAction()
    {
      var fault: Outcome := *;
      r := if reliable || fault.EndsAction() then Returned else fault;
    }

    method LookUpImage(ref: Ref) returns (r: Outcome, image: Option<Image>)
      ensures reliable ==> r == Returned
      ensures !r.EndsAction()
      ensures r == Returned ==> image == if ref in world.images then Some(world.images[ref]) else None
    {
      r := Query();
      image := if ref in world.images then Some(world.images[ref]) else None;
    }

    method LookUpContainer() returns (r: Outcome, container: Option<Container>)
      ensures reliable ==> r == Returned
      ensures !r.EndsAction()
      ensures r == Returned ==> container == world.container
    {
      r := Query();
      container := world.container;
    }

    method LookUpVolume() returns (r: Outcome, volume: bool)
      ensures reliable ==> r == Returned
      ensures !r.EndsAction()
      ensures r == Returned ==> volume == world.volume
    {
      r := Query();
      volume := world.volume;
    }

    /** Has the container check its own configuration. */
    method ExecCheck() returns (answer: Answer)
      ensures answer.NoAnswer? ==> answer.why != Returned && !answer.why.EndsAction()
      ensures reliable && world.container.Some? ==> answer == ExitCode(checkConfig(world.container.value))
    {
      var r := Query();
      var clientError: bool := *;
      var exitCode: int := *;
      if reliable && world.container.Some? {
        exitCode := checkConfig(world.container.value);
      }
      return if r == ApiError && clientError then ClientError else if r != Returned then NoAnswer(r) else ExitCode(exitCode);
    }

    /** What systemd will say of the unit each time it is asked. */
    method ObserveUnit() returns (observed: nat -> Observation)
      ensures reliable ==> forall k :: observed(k) == Seen(UnitState(world))
    {
      observed := *;
      if reliable {
        var state := UnitState(world);
        observed := k => Seen(state);
      }
    }

    // Calls that change something

    /** Records the change from the world before to the world now. */
    ghost method Log(op: Op, before: World)
      modifies `trace
      ensures trace == old(trace) + [Event(op, before, world)]
    {
      trace := trace + [Event(op, before, world)];
    }

    /** Pulls an image.  It may have arrived although the call fails.  Images with the same id are the same. */
    method PullImage(ref: Ref) returns (r: Outcome)
      modifies this
      ensures trace == old(trace) + [Event(Pull, old(world), world)]
      ensures world == old(world) ||
              (ref in world.images && world == old(world).(images := old(world).images[ref := world.images[ref]]))
      ensures r == Returned ==> ref in world.images
      ensures ref in old(world).images && ref in world.images && old(world).images[ref].id == world.images[ref].id ==>
                world == old(world)
      ensures reliable ==> r == (if ref in registry then Returned else Failed)
      ensures reliable && ref !in registry ==> world == old(world)
      ensures reliable && ref in registry ==> ref in world.images && world.images[ref].id == registry[ref].id
      ensures reliable && ref in registry && ref !in old(world).images ==> world.images[ref] == registry[ref]
    {
      ghost var before := world;
      r := *;
      r := if r == FailedChanged then Failed else r;
      var image: Image := *;
      var arrived: bool := *;
      if reliable {
        r := if ref in registry then Returned else Failed;
        image, arrived := if ref in registry then registry[ref] else image, ref in registry;
      }
      var known := ref in world.images && world.images[ref].id == image.id;
      if (r == Returned || arrived) && !known {
        world := world.(images := world.images[ref := image]);
      }
      Log(Pull, before);
    }

    method RemoveImage(ref: Ref) returns (r: Outcome)
      modifies this
      ensures trace == old(trace) + [Event(Op.RemoveImage, old(world), world)]
      ensures r == Returned ==> world == old(world).(images := old(world).images - {ref})
      ensures world == old(world) || world == old(world).(images := old(world).images - {ref})
      ensures reliable ==> r == Returned
      ensures !r.EndsAction()
    {
      ghost var before := world;
      r := AnyOutcome();
      var gone: bool := *;
      if r == Returned || gone {
        world := world.(images := world.images - {ref});
      }
      Log(Op.RemoveImage, before);
    }

    /** Any way in which a call may end. */
    method AnyOutcome() returns (r: Outcome)
      ensures reliable ==> r == Returned
      ensures !r.EndsAction()
    {
      r := *;
      if reliable || r.EndsAction() {
        r := if reliable then Returned else OtherError;
      }
    }

    /** Makes the container.  The engine needs the image and a free name.  The call may fail although the container has
        been made. */
    method CreateContainer(p: Params, ref: Ref) returns (r: Outcome)
      modifies this
      ensures trace == old(trace) + [Event(Create, old(world), world)]
      ensures world != old(world) ==> ref in old(world).images && old(world).container == None
      ensures world != old(world) ==>
                world == old(world).(container := Some(Container(inspect(p, old(world).images[ref]), Created)))
      ensures r == Returned ==> world != old(world)
      ensures reliable ==> (r == Returned <==> world != old(world))
      ensures reliable ==> (r == Returned <==> Makeable(old(world), p, ref))
      ensures reliable && r != Returned ==> r == ApiError
      ensures !r.EndsAction()
    {
      ghost var before := world;
      r := AnyOutcome();
      var made: bool := *;
      if ref !in world.images || world.container != None || (reliable && !Makeable(world, p, ref)) {
        r := ApiError;
      } else if r == Returned || (made && !reliable) {
        world := world.(container := Some(Container(inspect(p, world.images[ref]), Created)));
      }
      Log(Create, before);
    }

    /** Removes the container by force.  The call may fail although the container is gone. */
    method RemoveContainer() returns (r: Outcome)
      modifies this
      ensures trace == old(trace) + [Event(Remove, old(world), world)]
      ensures world == old(world) || world == old(world).(container := None)
      ensures r == Returned ==> world.container == None
      ensures reliable ==> r == Returned
      ensures !r.EndsAction()
    {
      ghost var before := world;
      r := AnyOutcome();
      var gone: bool := *;
      if r == Returned || gone {
        world := world.(container := None);
      }
      Log(Remove, before);
    }

    /** Changes the state of the container, to the given one if all goes well. */
    method ChangeStatus(op: Op, wanted: Status) returns (r: Outcome)
      requires op == Start || op == Stop || op == StartUnit || op == StopUnit
      modifies this
      ensures trace == old(trace) + [Event(op, old(world), world)]
      ensures world == old(world).(container := world.container)
      ensures world.container.Some? <==> old(world).container.Some?
      ensures world.container.Some? ==> world == old(world).WithStatus(world.container.value.status)
      ensures reliable ==> r == Returned && world == old(world).WithStatus(wanted)
      ensures !r.EndsAction()
    {
      ghost var before := world;
      r := AnyOutcome();
      var status: Status := *;
      world := world.WithStatus(if reliable then wanted else status);
      Log(op, before);
    }

    /** Waits for the container to exit. */
    method WaitForExit() returns (r: Outcome, rc: int)
      modifies this
      ensures trace == old(trace) + [Event(Wait, old(world), world)]
      ensures world == old(world) || world == old(world).WithStatus(Exited)
      ensures r == Returned ==> world == old(world).WithStatus(Exited)
      ensures reliable ==> r == Returned
      ensures reliable && old(world).container.Some? ==> rc == exitsWith(old(world).container.value)
      ensures !r.EndsAction()
    {
      ghost var before := world;
      r := AnyOutcome();
      rc := *;
      if reliable && world.container.Some? {
        rc := exitsWith(world.container.value);
      }
      if r == Returned {
        world := world.WithStatus(Exited);
      }
      Log(Wait, before);
    }

    /** Writes the unit file.  A failure may leave it with other contents. */
    method WriteUnit(text: string) returns (r: Outcome)
      modifies this
      ensures trace == old(trace) + [Event(Op.WriteUnit, old(world), world)]
      ensures r == Returned ==> world == old(world).(unit := Some(text))
      ensures world == old(world).(unit := world.unit)
      ensures world == old(world) || world.unit.Some?
      ensures reliable ==> r == Returned
      ensures !r.EndsAction()
    {
      ghost var before := world;
      r := AnyOutcome();
      var written: string := *;
      var touched: bool := *;
      if r == Returned || touched {
        world := world.(unit := Some(if r == Returned then text else written));
      }
      Log(Op.WriteUnit, before);
    }

    method DeleteUnit() returns (r: Outcome)
      modifies this
      ensures trace == old(trace) + [Event(Op.DeleteUnit, old(world), world)]
      ensures world == if r == Returned then old(world).(unit := None) else old(world)
      ensures reliable ==> r == Returned
      ensures !r.EndsAction()
    {
      ghost var before := world;
      r := AnyOutcome();
      if r == Returned {
        world := world.(unit := None);
      }
      Log(Op.DeleteUnit, before);
    }

    /** Creates or removes the volume. */
    method SetVolume(present: bool) returns (r: Outcome)
      modifies this
      ensures trace == old(trace) + [Event(if present then CreateVolume else RemoveVolume, old(world), world)]
      ensures r == Returned ==> world == old(world).(volume := present)
      ensures world == old(world).(volume := world.volume)
      ensures reliable ==> r == Returned
      ensures !r.EndsAction()
    {
      ghost var before := world;
      r := AnyOutcome();
      var done: bool := *;
      if r == Returned || done {
        world := world.(volume := present);
      }
      Log(if present then CreateVolume else RemoveVolume, before);
    }
  }
}
