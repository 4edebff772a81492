/** The life of a podman container (ansible/module_utils/kolla_podman_worker.py and the parts of
    ansible/module_utils/kolla_container_worker.py that it inherits).

    It differs from docker's in when the unit file is written and in what is reported: the removal of a container
    reports only that of its unit file.  How podman's containers are compared is left open. */
module PodmanWorker {
  import opened Common
  import opened ContainerSpec
  import opened DockerCompare
  import opened Host
  import opened Systemd

  class PodmanWorker {
    const p: Params
    const host: Host
    const systemd: SystemdWorker
    /** What the comparison says of the container, given the local image. */
    const compare: (Option<Image>, Container) -> Verdict

    var changed: bool
    /** The exit code in the result of the action. */
    var rc: Option<int>

    /** The events before the action, and the world in which it began. */
    ghost const past: seq<Event>
    ghost const begun: World

    constructor (p: Params, host: Host, compare: (Option<Image>, Container) -> Verdict)
      requires p.restartRetries != 0
      ensures this.p == p && this.host == host && this.compare == compare
      ensures past == host.trace && begun == host.world && systemd.text == UnitText(p)
      ensures Valid() && Honest() && ImageFirst() && Gentle() && !changed
    {
      hide UnitText;
      this.p, this.host, this.compare, past, begun := p, host, compare, host.trace, host.world;
      systemd := new SystemdWorker(p, host);
      changed, rc := false, None;
    }

    ghost predicate Valid()
      reads host
    {
      systemd.p == p && systemd.host == host && Leads(begun, past, host.trace, host.world)
    }

    /** Whatever the action has altered, it reports. */
    ghost predicate Honest()
      reads this, host
    {
      changed || !AnyAltered(host.trace, |past|)
    }

    /** The action has stopped and removed the container only while the image was local. */
    ghost predicate ImageFirst()
      reads host
    {
      StopsWithImage(host.trace, |past|, Ref())
    }

    /** The action has not removed a container that was up. */
    ghost predicate Gentle()
      reads host
    {
      RemovesStopped(host.trace, |past|)
    }

    function Ref(): Ref {
      ParseImage(p.image)
    }

    function ImageIn(w: World): Option<Image> {
      if Ref() in w.images then Some(w.images[Ref()]) else None
    }

    /** A container does not exist without a unit file. */
    predicate Paired(w: World) {
      w.container.Some? ==> w.unit.Some?
    }

    /** A container does not exist without an up-to-date unit file. */
    predicate Synced(w: World) {
      w.container.Some? ==> w.unit == Some(systemd.text)
    }

    function VerdictOn(w: World): Verdict
      requires w.container.Some?
    {
      compare(ImageIn(w), w.container.value)
    }

    predicate IsRunning(w: World) {
      w.container.Some? && w.container.value.status == Running
    }

    predicate NotExited(w: World) {
      w.container.Some? && w.container.value.status != Exited
    }

    // ----- On a reliable host -----

    /** With the unit file up to date. */
    function WithUnit(w: World): World {
      w.(unit := Some(systemd.text))
    }

    function AfterStopping(w: World): World {
      if NotExited(w) && !p.OneShot() then AfterStop(WithUnit(w)) else AfterStop(w)
    }

    /** With the container running. */
    function Up(w: World): World {
      if p.OneShot() then w.WithStatus(Running) else WithUnit(w).WithStatus(Running)
    }

    function Created(w: World): World
      requires Ref() in w.images
    {
      WithUnit(w.(container := Some(Container(host.inspect(p, w.images[Ref()]), Status.Created))))
    }

    /** The container is running and is what is requested. */
    predicate Settled(w: World) {
      Ref() in w.images && IsRunning(w) && VerdictOn(w) == Same
    }

    /** Without the container if it is not what is requested. */
    function WithoutDifferent(w: World): World {
      if w.container.Some? && VerdictOn(w) == Different then w.Bare() else w
    }

    /** What providing the container comes to: what is requested is there, if not yet running. */
    function AfterProvide(w: World): (Outcome, World) {
      var pulled := w.Pulled(Ref(), host.registry);
      if Ref() !in pulled.images then (Failed, pulled)
      else if pulled.container.Some? && Ending(VerdictOn(pulled)) != Returned then (Ending(VerdictOn(pulled)), pulled)
      else
        var kept := WithoutDifferent(pulled);
        if kept.container.Some? then (Returned, kept)
        else if host.accepts(p, kept.images[Ref()]) then (Returned, Created(kept))
        else (ApiError, kept)
    }

    /** What starting the container comes to, if it is not waited for. */
    function AfterStart(w: World): (Outcome, World) {
      var (outcome, provided) := AfterProvide(w);
      (outcome, if outcome == Returned && !IsRunning(provided) then Up(provided) else provided)
    }

    /** How starting the container ends on a reliable host, together with waiting for it unless it is detached. */
    predicate StartEnds(w: World, r: Outcome, w': World) {
      var (outcome, started) := AfterStart(w);
      host.EndsAfterStart(p, outcome, started, r, w')
    }

    /** The exit code of the container that was started, if it was, has been recorded. */
    predicate CodeTold(w: World, rc: Option<int>) {
      var (outcome, started) := AfterStart(w);
      outcome == Returned ==> started.container.Some? && rc == Some(host.exitsWith(started.container.value))
    }

    /** How replacing it ends on a reliable host. */
    predicate ReplaceEnds(w: World, r: Outcome, w': World) {
      var pulled := w.Pulled(Ref(), host.registry);
      if Ref() !in pulled.images then r == Failed && w' == pulled else StartEnds(pulled.Bare(), r, w')
    }

    /** How recreating it ends on a reliable host. */
    predicate RecreateEnds(w: World, r: Outcome, w': World) {
      if w.container.None? then StartEnds(w, r, w')
      else if p.Asks("COPY_ONCE") || VerdictOn(w) == Different then ReplaceEnds(w, r, w')
      else if Ending(VerdictOn(w)) != Returned then r == Ending(VerdictOn(w)) && w' == w
      else if p.Asks("COPY_ALWAYS") then ReplaceEnds(w, r, w')
      else r == Returned && w' == w
    }

    /** The container is there and is what is requested, running or not. */
    predicate FoundSame(w: World) {
      w.container.Some? && VerdictOn(w) == Same
    }

    /** A container can be made anew, and is not waited for. */
    predicate Remakeable(w: World) {
      p.detach && Ref() in w.Pulled(Ref(), host.registry).images && host.accepts(p, w.Pulled(Ref(), host.registry).images[Ref()])
    }

    /** There is a new container, made from the parameters, and it runs. */
    predicate Remade(w: World, w': World)
      requires Remakeable(w)
    {
      var image := w.Pulled(Ref(), host.registry).images[Ref()];
      w' == w.Pulled(Ref(), host.registry).(container := Some(Container(host.inspect(p, image), Running)),
                                            unit := Some(systemd.text))
    }

    lemma ReplacedIsRemade(w: World, r: Outcome, w': World)
      requires ReplaceEnds(w, r, w') && Remakeable(w)
      ensures r == Returned && Remade(w, w')
    {
    }

    /** An error of the engine ends the action. */
    function Fatal(r: Outcome): Outcome {
      if r == ApiError then Failed else r
    }

    method CheckImage() returns (r: Outcome, image: Option<Image>)
      ensures host.reliable ==> r == Returned
      ensures r != ApiError
      ensures r == Returned ==> image == ImageIn(host.world)
    {
      r, image := host.LookUpImage(Ref());
      r := Fatal(r);
    }

    method CheckContainerDiffers() returns (r: Outcome, differs: bool)
      ensures r == Returned ==>
        if host.world.container.None? then differs
        else Ending(VerdictOn(host.world)) == Returned && (differs <==> VerdictOn(host.world) == Different)
      ensures host.reliable ==>
        r == if host.world.container.Some? then Ending(VerdictOn(host.world)) else Returned
      ensures host.reliable && host.world.container.Some? ==>
        match VerdictOn(host.world)
        case Raises => r == OtherError
        case Exits => r == Failed
        case _ => r == Returned
    {
      differs := true;
      var container :- host.LookUpContainer();
      if container.None? {
        return Returned, true;
      }
      var image :- CheckImage();
      var verdict := compare(image, container.value);
      return Ending(verdict), verdict == Different;
    }

    /** Has the container check its own configuration.  One that does not run counts as changed, and so does one that
        cannot run the check. */
    method CompareConfig() returns (r: Outcome, stale: bool, ghost answer: Option<Answer>)
      requires host.world.container.Some?
      ensures !r.EndsAction()
      ensures host.reliable && IsRunning(host.world) ==> answer == Some(ExitCode(host.checkConfig(host.world.container.value)))
      ensures host.reliable && !IsRunning(host.world) ==> answer == None
      ensures if answer.Some? then Judged(answer.value, {0, 1}, r, stale) else r == Returned && stale && !IsRunning(host.world)
      ensures !IsRunning(host.world) && r == Returned ==> stale
    {
      var said: Answer;
      var lookUp, container := host.LookUpContainer();
      if lookUp == Returned {
        if container.value.status != Running {
          return Returned, true, None;
        }
        said := host.ExecCheck();
      } else {
        var clientError: bool := *;
        said := if lookUp == ApiError && clientError then ClientError else NoAnswer(lookUp);
      }
      match said {
        case ExitCode(code) => return if code in {0, 1} then Returned else OtherError, code != 0, Some(said);
        case ClientError => return Returned, true, Some(said);
        case NoAnswer(why) => return why, false, Some(said);
      }
    }

    /** Reports, without touching anything, whether the container would have to be started again. */
    method CompareContainer() returns (r: Outcome)
      requires Valid()
      modifies `changed
      ensures changed || !old(changed)
      ensures r == Returned && !changed ==> host.world.container.Some? && VerdictOn(host.world) == Same && Synced(host.world)
      ensures r == Returned && (host.world.container.None? || VerdictOn(host.world) == Different || !Synced(host.world)) ==>
                changed
      ensures host.world.container.Some? && Ending(VerdictOn(host.world)) != Returned ==> r != Returned
      ensures host.reliable && r == Returned ==> (changed <==> old(changed) || MustRestart(host.world))
    {
      var container :- host.LookUpContainer();
      if container.None? {
        changed := true;
        return Returned;
      }
      var differs :- CheckContainerDiffers();
      if !differs {
        ghost var answer;
        r, differs, answer := CompareConfig();
        :- r;
      }
      if !differs {
        var unitDiffers :- systemd.CheckUnitChange();
        differs := unitDiffers;
      }
      if differs {
        changed := true;
      }
      return Returned;
    }

    /** The container is missing, not running or not what is requested, or its configuration or its unit file is out of
        date. */
    predicate MustRestart(w: World) {
      !IsRunning(w) || VerdictOn(w) == Different || host.checkConfig(w.container.value) != 0 || !Synced(w)
    }

    // ----- Images -----

    method PullImage() returns (r: Outcome)
      requires Valid()
      modifies `changed, host
      ensures Valid()
      ensures old(host.world).Grown(Ref(), host.world)
      ensures old(host.AlwaysBacked()) ==> host.AlwaysBacked()
      ensures old(ImageFirst()) ==> ImageFirst()
      ensures old(Gentle()) ==> Gentle()
      ensures r == Returned ==> Ref() in host.world.images
      ensures r == Returned ==> (changed <==> host.world != old(host.world))
      ensures r == Returned && !old(AnyAltered(host.trace, |past|)) ==> Honest()
      ensures host.reliable && Ref() !in old(host.world).images ==> host.world == old(host.world).Pulled(Ref(), host.registry)
      ensures host.reliable ==> r == if Ref() in host.registry then Returned else Failed
      ensures r != ApiError
      ensures r == Returned ==> host.trace == old(host.trace) + [Event(Pull, old(host.world), host.world)]
    {
      var before :- CheckImage();
      var pulled := host.PullImage(Ref());
      pulled := Fatal(pulled);
      :- pulled;
      changed := before != Some(host.world.images[Ref()]);
      return Returned;
    }

    /** Pulls the image unless it is local. */
    method EnsureImage() returns (r: Outcome)
      requires Valid()
      modifies `changed, host
      ensures Valid()
      ensures old(host.world).Grown(Ref(), host.world)
      ensures old(host.AlwaysBacked()) ==> host.AlwaysBacked()
      ensures old(ImageFirst()) ==> ImageFirst()
      ensures old(Gentle()) ==> Gentle()
      ensures r == Returned ==> Ref() in host.world.images
      ensures r == Returned ==> (changed <==> old(changed) || Ref() !in old(host.world).images)
      ensures r == Returned && old(Honest()) ==> Honest()
      ensures Ref() in old(host.world).images ==>
        host.trace == old(host.trace) && host.world == old(host.world) && changed == old(changed)
      ensures host.reliable ==> host.world == old(host.world).Pulled(Ref(), host.registry)
      ensures host.reliable ==> r == if Ref() in host.world.images then Returned else Failed
    {
      var image :- CheckImage();
      if image.None? {
        r := PullImage();
        return;
      }
      return Returned;
    }

    method RemoveImage() returns (r: Outcome)
      requires Valid()
      modifies `changed, host
      ensures Valid()
      ensures host.world == old(host.world) || host.world == old(host.world).(images := old(host.world).images - {Ref()})
      ensures r == Returned ==> Ref() !in host.world.images
      ensures r == Returned ==> (changed <==> old(changed) || Ref() in old(host.world).images)
      ensures r == Returned && old(Honest()) ==> Honest()
      ensures old(host.AlwaysBacked()) ==> host.AlwaysBacked()
      ensures host.reliable ==> r == Returned
    {
      var image :- CheckImage();
      if image.None? {
        return Returned;
      }
      :- host.Query();
      changed := true;
      r := host.RemoveImage(Ref());
      r := Fatal(r);
    }

    // ----- The container -----

    /** Brings the unit file up to date. */
    method WriteUnit() returns (r: Outcome, written: bool)
      requires Valid()
      modifies host
      ensures Valid()
      ensures host.world == old(host.world).(unit := host.world.unit)
      ensures host.world == old(host.world) || host.world.unit.Some?
      ensures r == Returned ==> host.world.unit == Some(systemd.text) && written == (old(host.world).unit != Some(systemd.text))
      ensures r == Returned && !written ==> host.trace == old(host.trace)
      ensures old(host.AlwaysBacked()) && host.world.container.Some? ==> host.AlwaysBacked()
      ensures old(ImageFirst()) ==> ImageFirst()
      ensures old(Gentle()) ==> Gentle()
      ensures host.reliable ==> r == Returned
      ensures !r.EndsAction()
    {
      r, written := systemd.CreateUnitFile();
    }

    /** Reports the removal of the unit file only. */
    method RemoveContainer() returns (r: Outcome)
      requires Valid()
      modifies `changed, host
      ensures Valid()
      ensures host.world == old(host.world).(container := host.world.container, unit := host.world.unit)
      ensures r == Returned ==> host.world == old(host.world).Bare()
      ensures r == Returned ==> (changed <==> old(changed) || old(host.world).unit.Some?)
      ensures old(changed) ==> changed
      ensures r == Returned && old(Honest()) && (Paired(old(host.world)) || old(changed)) ==> Honest()
      ensures r == Returned && !Paired(old(host.world)) && !old(changed) ==> !Honest()
      ensures old(host.AlwaysBacked()) ==> host.AlwaysBacked()
      ensures old(ImageFirst()) && Ref() in host.world.images ==> ImageFirst()
      ensures old(Gentle()) && !ContainerUp(old(host.world)) ==> Gentle()
      ensures host.reliable ==> r == Returned
      ensures r != FailedChanged
    {
      var hadUnit :- systemd.RemoveUnitFile();
      changed := changed || hadUnit;
      var container :- host.LookUpContainer();
      if container.Some? {
        var removed := host.RemoveContainer();
        if removed == ApiError {
          var still :- host.LookUpContainer();
          if still.Some? {
            return ApiError;
          }
        } else {
          :- removed;
        }
      }
      return Returned;
    }

    method CreateContainer() returns (r: Outcome)
      requires Valid()
      modifies `changed, host
      ensures Valid()
      ensures host.world == old(host.world).(container := host.world.container, unit := host.world.unit)
      ensures old(host.world).container.Some? ==> host.world == old(host.world)
      ensures r == Returned ==> old(host.world).container.None? && Ref() in host.world.images
      ensures r == Returned ==> host.world == Created(old(host.world))
      ensures old(changed) ==> changed
      ensures old(host.AlwaysBacked()) ==> host.AlwaysBacked()
      ensures old(ImageFirst()) ==> ImageFirst()
      ensures old(Gentle()) ==> Gentle()
      ensures host.reliable ==> r == if host.Makeable(old(host.world), p, Ref()) then Returned else ApiError
      ensures host.reliable && r == ApiError ==> host.world == old(host.world)
    {
      var made := host.CreateContainer(p, Ref());
      :- made;
      var empty: bool := *;
      if empty && !host.reliable {
        return Failed;
      }
      var written :- WriteUnit();
      changed := changed || written;
      return Returned;
    }

    method StopContainer() returns (r: Outcome)
      requires Valid()
      modifies `changed, host
      ensures Valid()
      ensures host.world == old(host.world).(container := host.world.container, unit := host.world.unit)
      ensures host.world.container.Some? <==> old(host.world).container.Some?
      ensures old(host.world).unit.Some? ==> host.world.unit.Some?
      ensures r == Returned && NotExited(old(host.world)) && !p.OneShot() ==> host.world.unit == Some(systemd.text)
      ensures r == Returned && NotExited(old(host.world)) ==>
        EndsWith(host.trace, if p.OneShot() then Op.Stop else StopUnit)
      ensures old(changed) ==> changed
      ensures r == Returned && old(Honest()) ==> Honest()
      ensures r == Returned ==> (changed <==> old(changed) || NotExited(old(host.world)))
      ensures !NotExited(old(host.world)) ==>
        host.trace == old(host.trace) && host.world == old(host.world) && changed == old(changed)
      ensures old(host.AlwaysBacked()) ==> host.AlwaysBacked()
      ensures old(ImageFirst()) && Ref() in host.world.images ==> ImageFirst()
      ensures old(Gentle()) ==> Gentle()
      ensures r == Returned ==> host.world.container.Some? || p.ignoreMissing
      ensures host.reliable ==> host.world == AfterStopping(old(host.world))
      ensures host.reliable ==> r == if host.world.container.None? && !p.ignoreMissing then Failed else Returned
      ensures r != FailedChanged
    {
      var container :- host.LookUpContainer();
      if container.None? {
        return if p.ignoreMissing then Returned else Failed;
      }
      if container.value.status != Exited {
        changed := true;
        if p.restartPolicy != Some("oneshot") {
          var written :- WriteUnit();
          assert old(host.AlwaysBacked()) ==> host.AlwaysBacked();
          assert old(ImageFirst()) ==> ImageFirst();
          var stopped :- systemd.Stop();
        } else {
          :- host.ChangeStatus(Op.Stop, Stopped(container.value.status));
        }
      }
      return Returned;
    }

    /** Stops the container and removes it. */
    method TakeDown() returns (r: Outcome)
      requires Valid() && host.world.container.Some?
      modifies `changed, host
      ensures Valid()
      ensures host.world == old(host.world).(container := host.world.container, unit := host.world.unit)
      ensures r == Returned ==> host.world == old(host.world).Bare()
      ensures old(changed) ==> changed
      ensures r == Returned ==> (changed <==> old(changed) || NotExited(old(host.world)) || old(host.world).unit.Some?)
      ensures r == Returned && old(Honest()) && (Paired(old(host.world)) || old(changed)) ==> Honest()
      ensures old(host.AlwaysBacked()) ==> host.AlwaysBacked()
      ensures old(ImageFirst()) && Ref() in host.world.images ==> ImageFirst()
      ensures host.reliable && old(Gentle()) ==> Gentle()
      ensures host.reliable ==> r == Returned
    {
      hide Leads, AnyAltered, AllBacked, StopsWithImage, RemovesStopped;
      :- StopContainer();
      r := RemoveContainer();
    }

    method StopAndRemoveContainer() returns (r: Outcome)
      requires Valid()
      modifies `changed, host
      ensures Valid()
      ensures host.world == old(host.world).(container := host.world.container, unit := host.world.unit)
      ensures r == Returned && old(host.world).container.Some? ==> host.world == old(host.world).Bare()
      ensures old(host.world).container.None? ==> host.world == old(host.world) && host.trace == old(host.trace)
      ensures r == Returned && old(host.world).container.Some? ==>
        (changed <==> old(changed) || NotExited(old(host.world)) || old(host.world).unit.Some?)
      ensures r == Returned && old(Honest()) && (Paired(old(host.world)) || old(changed)) ==> Honest()
      ensures old(host.AlwaysBacked()) ==> host.AlwaysBacked()
      ensures host.reliable && old(Gentle()) ==> Gentle()
      ensures host.reliable ==> r == Returned
    {
      var container :- host.LookUpContainer();
      if container.Some? {
        :- TakeDown();
      }
      return Returned;
    }

    // ----- Starting -----

    /** Stops and removes a container that is not what is requested. */
    method ReplaceIfDifferent() returns (r: Outcome)
      requires Valid()
      modifies `changed, host
      ensures Valid()
      ensures host.world == old(host.world).(container := host.world.container, unit := host.world.unit)
      ensures r == Returned ==> host.world == WithoutDifferent(old(host.world))
      ensures r == Returned && old(host.world).container.Some? ==> Ending(VerdictOn(old(host.world))) == Returned
      ensures old(changed) ==> changed
      ensures old(host.world).container.None? ==> host.trace == old(host.trace) && changed == old(changed)
      ensures old(host.world).container.Some? && VerdictOn(old(host.world)) != Different ==>
        host.trace == old(host.trace) && host.world == old(host.world) && changed == old(changed)
      ensures old(host.AlwaysBacked()) ==> host.AlwaysBacked()
      ensures old(ImageFirst()) && Ref() in host.world.images ==> ImageFirst()
      ensures host.reliable && old(Gentle()) ==> Gentle()
      ensures host.reliable ==>
        r == if old(host.world).container.Some? then Ending(VerdictOn(old(host.world))) else Returned
    {
      var container :- host.LookUpContainer();
      if container.Some? {
        var differs :- CheckContainerDiffers();
        if differs {
          :- TakeDown();
        }
      }
      return Returned;
    }

    /** Has the container made if it is not there. */
    method CreateIfAbsent() returns (r: Outcome)
      requires Valid()
      modifies `changed, host
      ensures Valid()
      ensures host.world == old(host.world).(container := host.world.container, unit := host.world.unit)
      ensures old(host.world).container.Some? ==>
        host.trace == old(host.trace) && host.world == old(host.world) && changed == old(changed)
      ensures old(host.world).container.None? && r == Returned ==>
        Ref() in host.world.images && host.world == Created(old(host.world))
      ensures r == Returned ==> host.world.container.Some?
      ensures old(changed) ==> changed
      ensures old(host.AlwaysBacked()) ==> host.AlwaysBacked()
      ensures old(ImageFirst()) ==> ImageFirst()
      ensures old(Gentle()) ==> Gentle()
      ensures host.reliable ==>
        r == if old(host.world).container.Some? || host.Makeable(old(host.world), p, Ref()) then Returned else ApiError
      ensures host.reliable && r != Returned ==> host.world == old(host.world)
    {
      hide Leads, AnyAltered, AllBacked, StopsWithImage, RemovesStopped;
      var container :- host.LookUpContainer();
      if container.None? {
        r := CreateContainer();
        return;
      }
      return Returned;
    }

    /** Has the requested container made, if it is not there. */
    method ProvideContainer() returns (r: Outcome)
      requires Valid()
      modifies `changed, host
      ensures Valid()
      ensures host.world.volume == old(host.world).volume
      ensures old(host.world).Bare().Grown(Ref(), host.world.Bare())
      ensures Ref() !in host.world.images ==> old(host.world).Untouched(host.world)
      ensures r == Returned ==> host.world.container.Some? && Ref() in host.world.images
      ensures r == Returned && Paired(old(host.world)) ==> Paired(host.world)
      ensures r == Returned && old(changed) ==> changed
      ensures r == Returned && IsRunning(host.world) && old(Honest()) ==> Honest()
      ensures r == Returned && !Settled(old(host.world)) ==> changed || !IsRunning(host.world)
      ensures Settled(old(host.world)) ==>
        host.trace == old(host.trace) && host.world == old(host.world) && changed == old(changed)
      ensures old(host.AlwaysBacked()) ==> host.AlwaysBacked()
      ensures old(ImageFirst()) ==> ImageFirst()
      ensures host.reliable && old(Gentle()) ==> Gentle()
      ensures host.reliable ==> (r, host.world) == AfterProvide(old(host.world))
    {
      hide Leads, AnyAltered, AllBacked, StopsWithImage, RemovesStopped;
      :- EnsureImage();
      :- ReplaceIfDifferent();
      r := CreateIfAbsent();
    }

    /** Starts the container unless it is running. */
    method StartIfDown() returns (r: Outcome)
      requires Valid() && host.world.container.Some?
      modifies `changed, host
      ensures Valid()
      ensures host.world == old(host.world).(container := host.world.container, unit := host.world.unit)
      ensures host.world.container.Some? && (old(host.world).unit.Some? ==> host.world.unit.Some?)
      ensures IsRunning(old(host.world)) ==>
        host.trace == old(host.trace) && host.world == old(host.world) && changed == old(changed)
      ensures r == Returned && !IsRunning(old(host.world)) ==>
        EndsWith(host.trace, if p.OneShot() then Op.Start else StartUnit)
      ensures r == Returned ==> (changed <==> old(changed) || !IsRunning(old(host.world)))
      ensures old(host.AlwaysBacked()) ==> host.AlwaysBacked()
      ensures old(ImageFirst()) ==> ImageFirst()
      ensures old(Gentle()) ==> Gentle()
      ensures host.reliable ==>
        r == Returned && host.world == if IsRunning(old(host.world)) then old(host.world) else Up(old(host.world))
    {
      var container :- host.LookUpContainer();
      if container.value.status != Running {
        changed := true;
        if p.restartPolicy == Some("oneshot") {
          var again :- host.LookUpContainer();
          :- host.ChangeStatus(Op.Start, Running);
        } else {
          var written :- WriteUnit();
          var started :- systemd.Start();
          if !started {
            return FailedChanged;
          }
        }
      }
      return Returned;
    }

    /** Waits for the container to exit, and reads its output. */
    method AwaitExit() returns (r: Outcome, code: int)
      requires Valid()
      modifies `rc, host
      ensures Valid()
      ensures host.world == old(host.world) || host.world == old(host.world).WithStatus(Exited)
      ensures r == Returned ==> host.world == old(host.world).WithStatus(Exited) && rc == Some(code)
      ensures host.reliable && old(host.world).container.Some? ==> code == host.exitsWith(old(host.world).container.value)
      ensures old(Honest()) ==> Honest()
      ensures old(host.AlwaysBacked()) ==> host.AlwaysBacked()
      ensures old(ImageFirst()) ==> ImageFirst()
      ensures old(Gentle()) ==> Gentle()
      ensures host.reliable ==> r == Returned
      ensures !r.EndsAction()
    {
      code := 0;
      var container :- host.LookUpContainer();
      r, code := host.WaitForExit();
      :- r;
      :- host.Query();
      :- host.Query();
      rc := Some(code);
      return Returned, code;
    }

    /** Waits for the container to exit, removes it if so requested, and fails if its exit code is not zero. */
    method WaitForContainer() returns (r: Outcome)
      requires Valid()
      modifies this, host
      ensures Valid()
      ensures host.world == old(host.world).(container := host.world.container, unit := host.world.unit)
      ensures r == Returned ==> host.world == old(host.world).Waited(p.removeOnExit) && rc == Some(0)
      ensures r == Returned && old(changed) ==> changed
      ensures r == Returned && old(Honest()) && (Paired(old(host.world)) || old(changed)) ==> Honest()
      ensures old(host.AlwaysBacked()) ==> host.AlwaysBacked()
      ensures old(ImageFirst()) && Ref() in host.world.images ==> ImageFirst()
      ensures old(Gentle()) ==> Gentle()
      ensures r == FailedChanged ==> rc.Some? && rc != Some(0)
      ensures host.reliable && old(host.world).container.Some? ==>
        rc == Some(host.exitsWith(old(host.world).container.value)) && host.world == old(host.world).Waited(p.removeOnExit)
      ensures host.reliable && old(host.world).container.Some? ==>
        r == if host.exitsWith(old(host.world).container.value) == 0 then Returned else FailedChanged
    {
      hide Leads, AnyAltered, AllBacked, StopsWithImage, RemovesStopped;
      var code :- AwaitExit();
      if p.removeOnExit {
        :- StopContainer();
        :- RemoveContainer();
      }
      return if code == 0 then Returned else FailedChanged;
    }

    method StartContainer() returns (r: Outcome)
      requires Valid()
      modifies this, host
      ensures Valid()
      ensures host.world.volume == old(host.world).volume
      ensures old(host.world).Bare().Grown(Ref(), host.world.Bare())
      ensures Ref() !in host.world.images ==> old(host.world).Untouched(host.world)
      ensures r == Returned && old(changed) ==> changed
      ensures r == Returned && old(Honest()) && Paired(old(host.world)) ==> Honest()
      ensures r == Returned && p.detach && old(Honest()) ==> Honest()
      ensures r == Returned && p.detach ==> (changed <==> old(changed) || !Settled(old(host.world)))
      ensures p.detach && Settled(old(host.world)) ==>
        host.trace == old(host.trace) && host.world == old(host.world) && changed == old(changed)
      ensures r == Returned && host.world.container.None? && !Settled(old(host.world)) ==> changed
      ensures r == Returned && old(host.world).container.None? ==> changed
      ensures r == Returned && !p.detach ==> rc == Some(0)
      ensures r == Returned && p.detach ==> host.world.container.Some? && Ref() in host.world.images
      ensures old(host.AlwaysBacked()) ==> host.AlwaysBacked()
      ensures old(ImageFirst()) ==> ImageFirst()
      ensures host.reliable && old(Gentle()) ==> Gentle()
      ensures host.reliable && !p.detach ==> CodeTold(old(host.world), rc)
      ensures host.reliable ==> StartEnds(old(host.world), r, host.world)
    {
      hide Leads, AnyAltered, AllBacked, StopsWithImage, RemovesStopped, EndsWith, VerdictOn, AfterProvide, Ending;
      :- ProvideContainer();
      :- StartIfDown();
      if !p.detach {
        r := WaitForContainer();
        return;
      }
      return Returned;
    }

    /** Brings the unit file up to date and has systemd restart the container. */
    method RestartUnit() returns (r: Outcome)
      requires Valid() && host.world.container.Some?
      modifies host
      ensures Valid()
      ensures host.world == old(host.world).(container := host.world.container, unit := host.world.unit)
      ensures host.world.container.Some?
      ensures r == Returned ==> host.world.unit == Some(systemd.text) && EndsInRestart(host.trace)
      ensures old(host.AlwaysBacked()) ==> host.AlwaysBacked()
      ensures old(ImageFirst()) && Ref() in host.world.images ==> ImageFirst()
      ensures old(Gentle()) ==> Gentle()
      ensures host.reliable ==>
        r == Returned && host.world == old(host.world).(unit := Some(systemd.text)).WithStatus(Running)
    {
      var written :- WriteUnit();
      ghost var before, trace := host.world, host.trace;
      assert Leads(begun, past, trace, before);
      hide Leads, AllBacked, StopsWithImage, RemovesStopped, RestartsOnly, EndsInRestart;
      var restarted;
      r, restarted := systemd.Restart();
      RestartKeeps(before, trace, host.world, host.trace, begun, past, Ref());
      :- r;
      return if restarted then Returned else FailedChanged;
    }

    method RestartContainer() returns (r: Outcome)
      requires Valid()
      modifies `changed, host
      ensures Valid()
      ensures host.world == old(host.world).(container := host.world.container, unit := host.world.unit)
      ensures host.world.container.Some? <==> old(host.world).container.Some?
      ensures r == Returned ==> changed && host.world.container.Some? && host.world.unit == Some(systemd.text)
      ensures r == Returned ==> EndsInRestart(host.trace)
      ensures host.world.container.None? ==> r != Returned && host.trace == old(host.trace) && host.world == old(host.world)
      ensures old(changed) ==> changed
      ensures old(host.AlwaysBacked()) ==> host.AlwaysBacked()
      ensures old(ImageFirst()) && Ref() in host.world.images ==> ImageFirst()
      ensures old(Gentle()) ==> Gentle()
      ensures host.reliable && host.world.container.None? ==> r == Failed
      ensures host.reliable && host.world.container.Some? ==>
        r == Returned && host.world == WithUnit(old(host.world)).WithStatus(Running)
    {
      var container :- host.LookUpContainer();
      if container.None? {
        return Failed;
      }
      changed := true;
      r := RestartUnit();
    }

    /** Replaces the container; the image is pulled, if need be, before the container is stopped. */
    method RecreateContainer() returns (r: Outcome)
      requires Valid() && host.world.container.Some?
      modifies this, host
      ensures Valid()
      ensures host.world.volume == old(host.world).volume
      ensures old(host.world).Bare().Grown(Ref(), host.world.Bare())
      ensures Ref() !in host.world.images ==> old(host.world).Untouched(host.world)
      ensures r == Returned ==> changed
      ensures r == Returned && !p.detach ==> rc == Some(0)
      ensures r == Returned && p.detach ==> host.world.container.Some?
      ensures old(host.AlwaysBacked()) ==> host.AlwaysBacked()
      ensures old(ImageFirst()) ==> ImageFirst()
      ensures host.reliable && old(Gentle()) ==> Gentle()
      ensures host.reliable ==> ReplaceEnds(old(host.world), r, host.world)
    {
      hide Valid, Gentle, ImageFirst, Honest, Leads, AnyAltered, AllBacked, StopsWithImage, RemovesStopped, EndsWith;
      hide StartEnds, Settled, Paired, VerdictOn, IsRunning;
      :- EnsureImage();
      :- TakeDown();
      r := StartContainer();
    }

    method RecreateOrRestartContainer() returns (r: Outcome)
      requires Valid()
      modifies this, host
      ensures Valid()
      ensures host.world.volume == old(host.world).volume
      ensures old(host.world).Bare().Grown(Ref(), host.world.Bare())
      ensures Ref() !in host.world.images ==> old(host.world).Untouched(host.world)
      ensures r == Returned && old(Honest()) ==> Honest()
      ensures r == Returned && p.detach ==> host.world.container.Some?
      ensures old(host.AlwaysBacked()) ==> host.AlwaysBacked()
      ensures old(ImageFirst()) ==> ImageFirst()
      ensures host.reliable && old(Gentle()) ==> Gentle()
      ensures host.reliable ==> RecreateEnds(old(host.world), r, host.world)
      ensures (p.Asks("COPY_ALWAYS") && FoundSame(old(host.world))) || (p.Asks("COPY_ONCE") && old(host.world).container.Some?) ==>
        (host.reliable && Remakeable(old(host.world)) ==> r == Returned && Remade(old(host.world), host.world))
      ensures FoundSame(old(host.world)) && !p.Asks("COPY_ALWAYS") && !p.Asks("COPY_ONCE") ==>
        host.trace == old(host.trace) && host.world == old(host.world)
    {
      ghost var before := host.world;
      var strategy := Strategy(p);
      var container :- host.LookUpContainer();
      if container.None? {
        r := StartContainer();
        return;
      }
      var differs := strategy == Str("COPY_ONCE");
      if !differs {
        differs :- CheckContainerDiffers();
      }
      if differs {
        r := RecreateContainer();
        if host.reliable && Remakeable(before) {
          ReplacedIsRemade(before, r, host.world);
        }
        return;
      } else if strategy == Str("COPY_ALWAYS") {
        r := RecreateContainer();
        if host.reliable && Remakeable(before) {
          ReplacedIsRemade(before, r, host.world);
        }
        return;
      }
      return Returned;
    }

    // ----- Volumes -----

    /** An error of the engine, whatever it is, counts as "there is none". */
    method CheckVolume() returns (r: Outcome, volume: bool)
      ensures host.reliable ==> r == Returned
      ensures host.reliable ==> volume == host.world.volume
      ensures r == Returned && volume ==> host.world.volume
      ensures r == Returned || r == OtherError
    {
      r, volume := host.LookUpVolume();
      if r == ApiError {
        return Returned, false;
      }
    }

    method EnsureVolume() returns (r: Outcome)
      requires Valid()
      modifies `changed, host
      ensures Valid()
      ensures host.world == old(host.world).(volume := host.world.volume)
      ensures r == Returned ==> host.world.volume && (!old(host.world).volume ==> changed)
      ensures r == Returned && old(Honest()) ==> Honest()
      ensures old(host.AlwaysBacked()) ==> host.AlwaysBacked()
      ensures host.reliable ==> r == Returned && (changed <==> old(changed) || !old(host.world).volume)
    {
      var volume :- CheckVolume();
      if !volume {
        changed := true;
        :- host.SetVolume(true);
      }
      return Returned;
    }

    /** Finding no volume because of an error, it reports success with the volume still there. */
    method RemoveVolume() returns (r: Outcome)
      requires Valid()
      modifies `changed, host
      ensures Valid()
      ensures host.world == old(host.world).(volume := host.world.volume)
      ensures r == Returned ==> (host.world.volume ==> changed == old(changed) && host.trace == old(host.trace))
      ensures r == Returned && old(Honest()) ==> Honest()
      ensures old(host.AlwaysBacked()) ==> host.AlwaysBacked()
      ensures host.reliable ==> r == Returned && !host.world.volume && (changed <==> old(changed) || old(host.world).volume)
    {
      var volume :- CheckVolume();
      if volume {
        changed := true;
        r := host.SetVolume(false);
        r := Fatal(r);
        return;
      }
      return Returned;
    }

    // ----- Staying in step -----

    lemma ProvidedSynced(w: World)
      requires Synced(w)
      ensures Synced(AfterProvide(w).1)
    {
    }

    lemma StartedSynced(w: World, r: Outcome, w': World)
      requires Synced(w) && StartEnds(w, r, w')
      ensures Synced(w')
    {
      ProvidedSynced(w);
      assert Synced(AfterStart(w).1);
    }

    lemma ReplacedSynced(w: World, r: Outcome, w': World)
      requires ReplaceEnds(w, r, w')
      requires Synced(w)
      ensures Synced(w')
    {
      if Ref() in w.Pulled(Ref(), host.registry).images {
        StartedSynced(w.Pulled(Ref(), host.registry).Bare(), r, w');
      }
    }

    /** On a reliable host, recreating or restarting a container that has an up-to-date unit file leaves an up-to-date
        unit file beside the container, if there is one. */
    lemma RecreatedSynced(w: World, r: Outcome, w': World)
      requires Synced(w) && RecreateEnds(w, r, w')
      ensures Synced(w')
    {
      if w.container.None? {
        StartedSynced(w, r, w');
      } else if ReplaceEnds(w, r, w') {
        ReplacedSynced(w, r, w');
      }
    }
  }
}
