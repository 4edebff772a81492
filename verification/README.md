# Kolla-Ansible, modelled and verified in Dafny

Kolla-Ansible deploys OpenStack services in containers. This project models the parts of it that keep state or
transform configuration, and proves what they are for:

* **The life of a container.** `DockerWorker` and `PodmanWorker` start, stop, remove, restart and recreate one container
  and keep its systemd unit in step with it, through `SystemdWorker`. The host (`Host`) is a small world: local images,
  the container, the unit file and a volume. Every call to it may fail, at every point and in every combination, and
  each call that changes something is an event in a trace. Proved over all runs: a unit file never exists without its
  container; starting or recreating a container stops the old one only while the new image is local, and a failed pull
  leaves it untouched; what an action has altered it reports; and all of this for each task of any sequence of tasks. On a reliable host (`Host.reliable`: no call fails
  without a reason visible in the world) each action ends in exactly the world and outcome that a function gives, a
  container never exists without an up-to-date unit file, and a second start with parameters that converge does and
  reports nothing.
* **Detecting drift.** The sixteen comparisons of `check_container_differs` find a container that was made from one set
  of parameters to be what another set requests exactly when it is; in particular, when a container is what it was made
  from. Which of them decides, and exactly when each of them fails.
* **The rotation of keystone's fernet keys.** The cron calendar that N hosts share: a round-robin cover of the slots,
  whose jobs are at least T minutes and less than 2T minutes apart, for every T and N; exactly when crond fires every
  job at the minute meant for it; and exactly when keys are never over-rotated.
* **Merging configuration.** The INI parser, overlay and printer: what each key ends up with, and exactly when printing
  and parsing undo each other. The YAML merge: its algebra on values, when it fails, and the in-place merge of Python
  dictionaries and lists: it computes the merge of the documents exactly when no list that is stored more than once is
  extended, a condition on the sources alone.
* **Two smaller loops.** Database hosts grouped into shards, and passwords written to and read back from Vault.

Objects that the original updates in place are classes here, and its loops are loops; functions specify them, and the
main results are lemmas about those functions or contracts of the methods.

## Layout

| files | subject |
|---|---|
| `Host.dfy`, `Systemd.dfy`, `PullReport.dfy`, `DockerWorker.dfy`, `PodmanWorker.dfy`, `Lifecycle.dfy` | the life of a container |
| `ContainerSpec.dfy`, `Dimensions.dfy`, `DockerCompare.dfy`, `CompareErrors.dfy`, `Drift.dfy`, `FaithfulEngine.dfy` | parameters, comparisons, what they find and how they fail |
| `FernetRotation.dfy` | key rotation |
| `IniMerge.dfy`, `IniText.dfy`, `IniParser.dfy` | INI files: meaning, text, parser object |
| `YamlMerge.dfy`, `YamlLists.dfy`, `YamlObjects.dfy` | YAML: values, lists that are shared, objects in memory |
| `DatabaseShards.dfy`, `VaultPasswords.dfy` | shards, passwords |
| `Common.dfy`, `Decimal.dfy`, `OrderedDict.dfy` | options and results, decimal notation, Python dictionaries |

## Where the code does not do what it is meant to do

Each of these is stated as a theorem: a condition that is exact, or a concrete input.

* The weekly branch of the cron generator writes `time % 60` as the hour
  (ansible/roles/keystone/files/fernet_rotate_cron_generator.py:69). `FernetRotation.EveryJobIsFaithful` gives the exact
  intervals for which all jobs nevertheless fire on time; `FernetRotation.WeeklyCollision` is an interval of 780 minutes
  on two hosts, where both rotate in the same minute.
* The docker worker's report of a pull is wrong for an image name without a tag if another local tag of the
  repository is of another image than the default tag (`PullReport.PullReportsAreRight`).
* The podman worker reports the removal of a container only through that of its unit file; without one it removes the
  container and reports no change (`PodmanWorker.PodmanWorker.RemoveContainer`).
* A premerged pair of YAML sources may merge where the two, one after the other, do not
  (`YamlMerge.PremergingHidesAClash`); that is so exactly when the first of the two clashes with what is there
  (`YamlMerge.MergeIsAssociative`, `YamlMerge.MergeFails`).
* With list extension, a list that a YAML source stores at two places, as an alias does, grows at both when a later
  source extends one (`YamlObjects.MergeAliased`). `YamlObjects.MergeSources` gives the exact condition, for any sources,
  under which the result is the merge of the documents; sources that store each list once meet it
  (`YamlLists.StoredOnceIsHarmless`).
* Keys without a section in a later INI source are lost when the merged file is read again
  (`IniText.LaterOrphansAreLost`).

## Model

| member | source | states |
|---|---|---|
| Systemd.RetriesFit | ansible/module_utils/kolla_systemd_worker.py:60-66 | The permitted retries fit into the timeout, as the comment there requires, and the pause between them is a possible one exactly when there are no more retries than seconds |
| Systemd.UnitTextTellsChanges | ansible/module_utils/kolla_systemd_worker.py:20-39 | The unit file's text is injective: two sets of parameters give the same text exactly when every setting in it is the same, so comparing texts finds every change |
| Systemd.UnitFileSays | ansible/module_utils/kolla_systemd_worker.py:20-83 | What the file says, line by line: the commands that start and stop the container, what docker and other engines come after, the restart policy, "always" for "unless-stopped" and "no" for none, and a pause with which all permitted retries fit into the timeout |
| Systemd.WaitForUnit | ansible/module_utils/kolla_systemd_worker.py:205-216 | At most timeout div 5 + 2 polls and timeout + 5 seconds of sleep; true exactly when one of those polls sees the wanted state; never gives up before the timeout has elapsed |
| Systemd.SystemdWorker.CheckUnitChange | ansible/module_utils/kolla_systemd_worker.py:154-167 | A missing unit file counts as changed; nothing is touched |
| Systemd.SystemdWorker.CreateUnitFile | ansible/module_utils/kolla_systemd_worker.py:172-185 | Afterwards the file is there with the right text; it was written, and says so, exactly when it was not |
| Systemd.SystemdWorker.RemoveUnitFile | ansible/module_utils/kolla_systemd_worker.py:187-194 | Afterwards there is no file; reports whether there was one |
| Systemd.SystemdWorker.PerformAction | ansible/module_utils/kolla_systemd_worker.py:142-147 | An error is only a "no"; only the container's status can change |
| Systemd.SystemdWorker.Start | ansible/module_utils/kolla_systemd_worker.py:97-104 | On a reliable host the container runs, and this is reported, exactly when there are a unit file and a container |
| Systemd.SystemdWorker.Restart | ansible/module_utils/kolla_systemd_worker.py:106-113 | The container is stopped and then started, or only the former, or neither |
| Systemd.SystemdWorker.Stop | ansible/module_utils/kolla_systemd_worker.py:115-125 | On a reliable host a container with a unit file is no longer up |
| Systemd.RestartKeeps | ansible/module_utils/kolla_systemd_worker.py:106-113 | A restart, whatever fails in it, keeps the safety properties of the run |
| Host.RunsMean | ansible/library/kolla_container.py:410-429 | The predicates on runs say what they say of every single call: some call altered something; no unit file without its container after any; every stop and removal with the image local; every removal of a container that is not up |
| PullReport.PullReportsAreRight | ansible/module_utils/kolla_docker_worker.py:190-230 | Every possible pull is reported rightly exactly when all other local tags of the repository are of the image that has the default tag; always so for a name with a tag |
| DockerWorker.DockerWorker.constructor | ansible/module_utils/kolla_container_worker.py:25-45 | A new worker has changed nothing and compares containers with check_container_differs |
| DockerWorker.DockerWorker.CheckContainerDiffers | ansible/module_utils/kolla_container_worker.py:68-90 | No container differs; otherwise the verdict of the comparisons, which may raise |
| DockerWorker.DockerWorker.CompareConfig | ansible/module_utils/kolla_docker_worker.py:153-188 | Exit code 0 is unchanged, 1 and 137 are changed, any other raises; an error of the client's, as the container cannot run the check, counts as changed, and any other failure is passed on |
| DockerWorker.DockerWorker.CompareContainer | ansible/module_utils/kolla_container_worker.py:59-66 | Reports a change when the container is missing or different or its unit file is not up to date; no report means that none of this holds; nothing is touched; on a reliable host the report is exact |
| DockerWorker.DockerWorker.PullImage | ansible/module_utils/kolla_docker_worker.py:196-230 | At most the image arrives; the report is overwritten with one on the images that the name stands for, and for a name with a tag it tells exactly whether the image is another one |
| DockerWorker.DockerWorker.EnsureImage | ansible/module_utils/kolla_docker_worker.py:520-522 | Afterwards the image is local; for a name with a tag an earlier report is never erased |
| DockerWorker.DockerWorker.RemoveImage | ansible/module_utils/kolla_docker_worker.py:500-518 | Only the image goes, and that is reported |
| DockerWorker.DockerWorker.RemoveContainer | ansible/module_utils/kolla_docker_worker.py:232-248 | The unit file goes before the container, on every path; returns only when both are gone; reports exactly whether there was either |
| DockerWorker.DockerWorker.CreateContainer | ansible/module_utils/kolla_docker_worker.py:353-358 | The unit file comes after the container, on every path; succeeds on a reliable host exactly when the image is local, the name is free and the engine takes the parameters |
| DockerWorker.DockerWorker.StopContainer | ansible/module_utils/kolla_docker_worker.py:434-450 | A missing container ends the action unless ignored; an exited one is left alone; any other is stopped by exactly one call, of systemd if it has a unit file and of the engine if not; reports exactly whether there was one |
| DockerWorker.DockerWorker.WriteUnit | ansible/module_utils/kolla_docker_worker.py:355-357 | Bringing the unit file up to date keeps the safety properties of the run as long as there is a container |
| DockerWorker.DockerWorker.TakeDown | ansible/module_utils/kolla_docker_worker.py:390-391 | Stop and remove, in this order: afterwards neither container nor unit file, and that is reported; on a reliable host the container is not up when it is removed |
| DockerWorker.DockerWorker.StopAndRemoveContainer | ansible/module_utils/kolla_docker_worker.py:452-456 | Afterwards neither container nor unit file; reports exactly whether there was a container; on a reliable host it is not up when it is removed |
| DockerWorker.DockerWorker.ReplaceIfDifferent | ansible/module_utils/kolla_docker_worker.py:388-392 | Removes exactly a container that is not what is requested, only while the image is local |
| DockerWorker.DockerWorker.CreateIfAbsent | ansible/module_utils/kolla_docker_worker.py:394-396 | A container that is there is left alone, otherwise it is made of the local image, and that is reported |
| DockerWorker.DockerWorker.ProvideContainer | ansible/module_utils/kolla_docker_worker.py:384-396 | Afterwards there is a container and its image; without the image the old container is untouched |
| DockerWorker.DockerWorker.StartIfDown | ansible/module_utils/kolla_docker_worker.py:398-408 | A container that is up is left alone; another one is started, by the engine if it runs once and by systemd if not, and reported; on a reliable host it runs with an up-to-date unit file |
| DockerWorker.DockerWorker.AwaitExit | ansible/module_utils/kolla_docker_worker.py:411-423 | Waiting changes nothing but that the container exits, and records the code with which it does |
| DockerWorker.DockerWorker.WaitForContainer | ansible/module_utils/kolla_docker_worker.py:410-432 | Once the container has exited, succeeds exactly with exit code 0, on a reliable host always; on failure, too, the code is recorded; the container is removed exactly if so requested |
| DockerWorker.DockerWorker.StartContainer | ansible/module_utils/kolla_docker_worker.py:384-432 | Stops or removes only while the image is local; a failed pull leaves container and unit file untouched; every alteration is reported, and for a detached container a change is reported exactly when it was not settled; a container that is waited for tells its exit code, and only code 0 is success; on a reliable host ends exactly as AfterStart says |
| DockerWorker.DockerWorker.RestartUnit | ansible/module_utils/kolla_docker_worker.py:470-475 | Success means an up-to-date unit file and a stop and a start; on a reliable host the container runs |
| DockerWorker.DockerWorker.ChangeStatus | ansible/module_utils/kolla_docker_worker.py:476-478 | One call of the engine, which changes the status alone and keeps the safety properties of the run while the image is local |
| DockerWorker.DockerWorker.RestartByEngine | ansible/module_utils/kolla_docker_worker.py:476-478 | Success means a stop and a start by the engine; the unit file is left alone |
| DockerWorker.DockerWorker.RestartContainer | ansible/module_utils/kolla_docker_worker.py:458-478 | Success means that the last two calls were a stop and a start; on a reliable host it fails exactly for a missing container |
| DockerWorker.DockerWorker.RecreateContainer | ansible/module_utils/kolla_docker_worker.py:376-380 | The image is local before the old container is stopped; without it the old container is untouched |
| DockerWorker.DockerWorker.RecreateOrRestartContainer | ansible/module_utils/kolla_docker_worker.py:360-382 | By the variable KOLLA_CONFIG_STRATEGY of a container that is found the same: COPY_ALWAYS restarts it, in a stop and a start; COPY_ONCE replaces it by a new one; with any other value, or none, no call is made. Restarting and replacing happen only while the image is local; a change is always reported |
| DockerWorker.DockerWorker.EnsureVolume | ansible/module_utils/kolla_docker_worker.py:480-483 | Afterwards the volume is there; reports exactly whether it was not |
| DockerWorker.DockerWorker.RemoveVolume | ansible/module_utils/kolla_docker_worker.py:485-498 | Afterwards it is not there; reports exactly whether it was |
| DockerWorker.DockerWorker.RecreatedSynced | ansible/module_utils/kolla_docker_worker.py:360-408 | On a reliable host starting and recreating leave an up-to-date unit file beside the container, if there is one |
| PodmanWorker.PodmanWorker.PullImage | ansible/module_utils/kolla_podman_worker.py:456-475 | At most the image arrives; reports exactly whether it is another one than before |
| PodmanWorker.PodmanWorker.EnsureImage | ansible/module_utils/kolla_podman_worker.py:680-682 | Afterwards the image is local; an earlier report is never erased |
| PodmanWorker.PodmanWorker.RemoveImage | ansible/module_utils/kolla_podman_worker.py:657-678 | Only the image goes, and that is reported |
| PodmanWorker.PodmanWorker.CompareConfig | ansible/module_utils/kolla_podman_worker.py:429-454 | A container that does not run counts as changed, unless looking it up fails; so does an error of the client's; otherwise exit code 0 is unchanged, 1 is changed, any other raises, and any other failure is passed on |
| PodmanWorker.PodmanWorker.CompareContainer | ansible/module_utils/kolla_podman_worker.py:295-302 | As for docker |
| PodmanWorker.PodmanWorker.RemoveContainer | ansible/module_utils/kolla_podman_worker.py:477-485 | Unit file before container; reports exactly whether there was a unit file, so the removal of a container goes unreported exactly when it had none and nothing was reported before |
| PodmanWorker.PodmanWorker.CreateContainer | ansible/module_utils/kolla_podman_worker.py:498-506 | The unit file comes after the container, under every restart policy |
| PodmanWorker.PodmanWorker.StopContainer | ansible/module_utils/kolla_podman_worker.py:580-598 | Brings the unit file up to date and has systemd stop the container, or the engine if the container runs once; reports exactly whether there was one that had not exited |
| PodmanWorker.PodmanWorker.WriteUnit | ansible/module_utils/kolla_podman_worker.py:505 | As for docker |
| PodmanWorker.PodmanWorker.TakeDown | ansible/module_utils/kolla_podman_worker.py:518-519 | Stop and remove, in this order; reports exactly whether the container had not exited or had a unit file |
| PodmanWorker.PodmanWorker.StopAndRemoveContainer | ansible/module_utils/kolla_podman_worker.py:600-605 | Afterwards neither container nor unit file; reports exactly whether the container had not exited or had a unit file |
| PodmanWorker.PodmanWorker.CreateIfAbsent | ansible/module_utils/kolla_podman_worker.py:540-542 | As for docker, but for the report, which is left to the start |
| PodmanWorker.PodmanWorker.ProvideContainer | ansible/module_utils/kolla_podman_worker.py:531-542 | As for docker |
| PodmanWorker.PodmanWorker.StartIfDown | ansible/module_utils/kolla_podman_worker.py:544-555 | A running container is left alone; another one is started, by the engine if it runs once and by systemd if not, and reported |
| PodmanWorker.PodmanWorker.WaitForContainer | ansible/module_utils/kolla_podman_worker.py:557-578 | As for docker |
| PodmanWorker.PodmanWorker.StartContainer | ansible/module_utils/kolla_podman_worker.py:531-578 | As for docker, for every image name; with a unit file for every container, every alteration is reported |
| PodmanWorker.PodmanWorker.RestartContainer | ansible/module_utils/kolla_podman_worker.py:607-622 | Brings the unit file up to date and has systemd restart the container, under every restart policy |
| PodmanWorker.PodmanWorker.RecreateContainer | ansible/module_utils/kolla_podman_worker.py:517-522 | The image is local before the old container is stopped; a success is always reported |
| PodmanWorker.PodmanWorker.RecreateOrRestartContainer | ansible/module_utils/kolla_podman_worker.py:508-529 | By the variable KOLLA_CONFIG_STRATEGY of a container that is found the same: COPY_ALWAYS and COPY_ONCE replace it by a new one; with any other value, or none, no call is made |
| PodmanWorker.PodmanWorker.EnsureVolume | ansible/module_utils/kolla_podman_worker.py:624-633 | Afterwards the volume is there; an error while looking for it counts as missing |
| PodmanWorker.PodmanWorker.RemoveVolume | ansible/module_utils/kolla_podman_worker.py:635-655 | After an error while looking for the volume it may still be there although the action succeeds; then nothing is reported |
| PodmanWorker.PodmanWorker.RecreatedSynced | ansible/module_utils/kolla_podman_worker.py:508-555 | On a reliable host starting and recreating leave an up-to-date unit file beside the container, if there is one |
| Lifecycle.Run | ansible/library/kolla_container.py:410-429 | One task, with any engine and any faults: the safety properties are kept; no change is reported only if there was none, for docker images with a tag and podman containers with a unit file; and an action that succeeds has achieved what its name says |
| Lifecycle.DescribeContainer | ansible/module_utils/kolla_container_worker.py:455-477 | Asking for the environment or the state succeeds on a reliable host exactly when there is a container |
| Lifecycle.RunTask | ansible/library/kolla_container.py:410-429 | The same, event by event: a trusted report of no change means that no call of the task altered anything; a report of success means that the action is achieved; and a task that may replace a container makes no call that stops or removes it without the image at hand |
| Lifecycle.RunAll | ansible/library/kolla_container.py:410-429 | Any sequence of tasks, with any faults: a unit file never exists without its container, in any world between any two calls; and RunTask's claims hold of every task, of the calls between its two marks and the worlds before and after it |
| Lifecycle.RunInStep | ansible/library/kolla_container.py:410-429 | Any sequence of tasks with the same unit settings on a reliable host: no container without an up-to-date unit file after any task, and all reports of no change hold, also podman's of a removal |
| Lifecycle.StartTwice | ansible/module_utils/kolla_docker_worker.py:384-408 | Convergence in action: after a container has been made and started, starting it again touches nothing and reports nothing exactly when parameters and image converge |
| Lifecycle.CompareThenStart | ansible/module_utils/kolla_container_worker.py:59-66 | When compare_container reports nothing for a container that is to run, start_container does and reports nothing, whatever fails |
| Drift.DriftIsDetected | ansible/module_utils/kolla_container_worker.py:68-90 | For any two sets of parameters p and q: the sixteen comparisons find a container that a faithful engine made from p to be what q requests exactly when it is, item by item; every drift is detected, and nothing else |
| Drift.Convergence | ansible/module_utils/kolla_container_worker.py:68-90 | For one and the same set of parameters: the comparisons accept the running container exactly when Converges holds of parameters and image |
| Drift.LabelsMean | ansible/module_utils/kolla_container_worker.py:170-182 | The loop that takes out the image's labels, for any p and q: requested labels agree with the image's own, and the container has these and, but for the image's, no others |
| Drift.VolumesMean | ansible/module_utils/kolla_docker_worker.py:131-151 | Volumes are the same exactly when the requested ones are those made from p and from the image, as sets |
| Drift.EnvironmentMeans | ansible/module_utils/kolla_container_worker.py:307-318 | The environment is the same exactly when every requested variable, under a name without an equals sign, has that text in the container |
| Drift.EnvironmentIsMade | ansible/module_utils/kolla_docker_worker.py:321-332 | The environment of a new container: what was requested, empty for a variable without a value, the service name over it, and the rest as the image has it |
| Drift.NoSuchName | ansible/module_utils/kolla_container_worker.py:310-318 | A requested variable with an equals sign in its name is never found |
| Drift.LimitMeans | ansible/module_utils/kolla_container_worker.py:298-305 | A requested limit is compared with a given one by the number of bytes, a set of processors as a text |
| Drift.DimensionsMean | ansible/module_utils/kolla_container_worker.py:277-305 | The loop over the ten dimensions, by their names and those of the report: each one that is looked at is requested as given, or neither requested nor given |
| Drift.UlimitsMean | ansible/module_utils/kolla_container_worker.py:329-339 | Resource limits are the same exactly when they are as multisets, in whatever order they are reported |
| Drift.CommandMeans | ansible/module_utils/kolla_container_worker.py:341-349 | A requested command is the same exactly when it is the whole command of the container, the image's entrypoint included |
| Drift.HealthcheckMeans | ansible/module_utils/kolla_container_worker.py:351-373 | The healthcheck is the same exactly when the requested one, or none, is what the container has, the image's included |
| Drift.HealthcheckCompared | ansible/module_utils/kolla_container_worker.py:351-373 | Whatever the engine reports: the healthcheck is the same exactly when each of the fields Test, Interval, Timeout, StartPeriod and Retries of the report is the reading of its own option, or when none is requested and none is reported |
| Drift.ModesMean | ansible/module_utils/kolla_container_worker.py:92-168 | The other comparisons, one to one; modes that were not requested of the engine are its own choice, and image names agree in repository and tag, having no tag being other than having the tag "latest" |
| Drift.EnvironmentConverges | ansible/module_utils/kolla_docker_worker.py:321-330 | A container has its own requested environment exactly when all values are texts under names without an equals sign and the service name does not conflict |
| Drift.DimensionsConverge | ansible/module_utils/kolla_container_worker.py:277-305 | And its own dimensions exactly when each is compared at all and agrees with what the engine makes of it |
| Drift.CommandConverges | ansible/module_utils/kolla_container_worker.py:341-349 | And its own command exactly when it is not set, or is run on an image without an entrypoint |
| DockerCompare.SameNeedsImage | ansible/module_utils/kolla_docker_worker.py:114-129 | A container is never found the same while its image is missing locally or another one has its name |
| DockerCompare.SameIsInState | ansible/module_utils/kolla_container_worker.py:320-327 | Nor while it is not in the requested state; "started" asks for a running one |
| CompareErrors.CompareIsTheFirst | ansible/module_utils/kolla_container_worker.py:68-90 | The verdict is that of the first of the sixteen comparisons that finds a difference or fails |
| CompareErrors.LabelsFail | ansible/module_utils/kolla_container_worker.py:170-182 | The loop over the image's labels raises exactly at one that neither the request nor the container has, unless an earlier one differs |
| CompareErrors.VolumesFail | ansible/module_utils/kolla_container_worker.py:403-437 | Volumes raise exactly if one of them is a path whose target is none |
| CompareErrors.EnvironmentFails | ansible/module_utils/kolla_container_worker.py:307-318 | The environment raises exactly at an entry without an equals sign, if any variable is requested |
| CompareErrors.HealthcheckFails | ansible/module_utils/kolla_container_worker.py:479-542 | Other options than the five end the action; an exception is raised exactly at a number that is none, before a test that disables the check |
| CompareErrors.DimensionFails | ansible/module_utils/kolla_container_worker.py:210-275 | A missing value and an unknown unit end the action; an empty text and a unit without a number raise; the requested value is looked at first |
| CompareErrors.DimensionsFail | ansible/module_utils/kolla_container_worker.py:277-305 | A dimension that cannot be asked for ends the action; else the first of the ten, and then of the resource limits, that is not the same decides |
| FaithfulEngine.BuildIsFaithful | ansible/module_utils/kolla_docker_worker.py:284-351 | There is a faithful engine: one that inspects a container as exactly what build_container_options requests |
| ContainerSpec.ParseImageJoins | ansible/module_utils/kolla_container_worker.py:375-386 | Repository and tag, joined again, are the image name, with the default tag if it had none |
| ContainerSpec.NamesAreParsed | ansible/module_utils/kolla_container_worker.py:375-386 | The tag is what follows the colon after the last slash, and the default tag if there is none; the colon before a port begins no tag |
| ContainerSpec.RepositoryTagTells | ansible/module_utils/kolla_docker_worker.py:126-129 | Comparing repository and tag tells any two image names apart, also one without a tag from the same with the tag "latest", but for one with a digest from one without |
| ContainerSpec.RepositoryTagMeans | ansible/module_utils/kolla_docker_worker.py:126-129 | The tag follows the colon after the last slash, a digest the at sign; a port is no tag |
| ContainerSpec.GenerateVolumes | ansible/module_utils/kolla_container_worker.py:403-437 | The loop computes the volumes and binds, entry by entry, or the index error that it meets first |
| ContainerSpec.AddVolumeMeans | ansible/module_utils/kolla_container_worker.py:415-435 | A volume is passed on as it was written, with mode "rw" if it has none; it is an index error exactly when a path has a target that is none |
| ContainerSpec.VolumesMean | ansible/module_utils/kolla_container_worker.py:403-437 | Each bind is the last volume with its source, as it was written, and no volume with a colon is dropped |
| ContainerSpec.ParseHealthcheck | ansible/module_utils/kolla_container_worker.py:479-542 | The loop computes the healthcheck, none if its test disables it, or the error |
| ContainerSpec.HealthIsComplete | ansible/module_utils/kolla_container_worker.py:479-542 | A healthcheck that is not disabled has all five fields, each the reading of the option of its name, in whatever order they were given |
| ContainerSpec.HealthDecides | ansible/module_utils/kolla_container_worker.py:479-542 | There is a healthcheck exactly when all five options are given, four of them numbers, and the test is not one that disables it; none is requested by no options at all |
| Dimensions.DimensionsDiffer | ansible/module_utils/kolla_container_worker.py:210-275 | Computes Differ, including the errors for missing values and unknown units |
| Dimensions.DecidesEqualValue | ansible/module_utils/kolla_container_worker.py:210-275 | Two amounts are found the same exactly when they are the same number of bytes, provided that unitless ones are written canonically |
| Dimensions.UnitsMean | ansible/module_utils/kolla_container_worker.py:210-275 | Units are b, k, m and g in either case: bytes and 1024, 1048576 and 1073741824 of them |
| Dimensions.OtherUnitsFail | ansible/module_utils/kolla_container_worker.py:210-275 | Any other letter is an error |
| Dimensions.SameIsAnEquivalence | ansible/module_utils/kolla_container_worker.py:210-275 | Being found the same is an equivalence |
| Dimensions.LeadingZeroDiffers | ansible/module_utils/kolla_container_worker.py:249-275 | A unitless leading zero makes equal amounts differ |
| FernetRotation.Generate | ansible/roles/keystone/files/fernet_rotate_cron_generator.py:39-94 | The three loops end and produce exactly the host's schedule; no jobs for a host beyond the number of hosts; an error exactly for intervals over a week |
| FernetRotation.FiresAtItsTime | ansible/roles/keystone/files/fernet_rotate_cron_generator.py:65-92 | The minute at which crond runs each job, in every branch: the one meant for it, except in the weekly branch, where it is another one or none unless hour of the day and minute of the hour are equal; the entry is in range exactly when it runs at all |
| FernetRotation.EveryJobIsFaithful | ansible/roles/keystone/files/fernet_rotate_cron_generator.py:65-92 | All jobs fire exactly at the minutes meant for them exactly when Faithful(n, t), which is always so in the daily and hourly branches |
| FernetRotation.JobTimesApart | ansible/roles/keystone/files/fernet_rotate_cron_generator.py:48-92 | The minutes meant for all jobs of all hosts, over all periods, are pairwise at least T apart, for all T and N |
| FernetRotation.JobTimesFollow | ansible/roles/keystone/files/fernet_rotate_cron_generator.py:48-92 | After each of them another follows in less than 2T, also across the end of a period |
| FernetRotation.HostFiresInItsSlots | ansible/roles/keystone/files/fernet_rotate_cron_generator.py:48-56 | A host rotates exactly at the starts of its own slots |
| FernetRotation.OverRotationIsVisible | ansible/roles/keystone/files/fernet_rotate_cron_generator.py:48-92 | For all T and N, as crond runs the jobs: rotations are always at least T minutes apart, and never two hosts' in the same minute, exactly when the minutes of any two slots of one period, and of the next, are at least T apart |
| FernetRotation.OneHostKeepsApart | ansible/roles/keystone/files/fernet_rotate_cron_generator.py:55-73 | No two slots of one host ever fire in the same minute, in the weekly branch either |
| FernetRotation.NeverOverRotates | ansible/roles/keystone/files/fernet_rotate_cron_generator.py:48-54 | And they are so whenever all jobs run at the minutes meant for them |
| FernetRotation.NeverUnderRotates | ansible/roles/keystone/files/fernet_rotate_cron_generator.py:48-54 | After each rotation the next host's follows T minutes later, or host 0's in less than 2T |
| FernetRotation.RoundsWithinADay | ansible/roles/keystone/files/fernet_rotate_cron_generator.py:48-92 | Whenever T times N is at most 1440: rotations are at least T minutes apart, every host has a job, and its job k runs exactly at minute T * (i + k * N) of each hour if T times N is at most 60, and of each day if not |
| FernetRotation.JobForEachTurn | ansible/roles/keystone/files/fernet_rotate_cron_generator.py:48-92 | For all T and N: host i has a job k exactly when slot i + k * N ends within the hour, the day or the week, by T times N |
| FernetRotation.EntriesNameWhatTheyMust | ansible/roles/keystone/files/fernet_rotate_cron_generator.py:65-92 | An entry names an hour exactly when T times N is over 60, and a day of the week exactly when it is over 1440 |
| FernetRotation.RotationsRepeat | ansible/roles/keystone/files/fernet_rotate_cron_generator.py:48-92 | What crond runs repeats with a period of 60, 1440 or 10080 minutes, by T times N |
| FernetRotation.SlotOwner | ansible/roles/keystone/files/fernet_rotate_cron_generator.py:55-92 | Slot m is the job number m div N of host m mod N |
| FernetRotation.WhoRotates | ansible/roles/keystone/files/fernet_rotate_cron_generator.py:75-92 | In the daily and hourly branches every host has a job |
| FernetRotation.JobsFillTheSlots | ansible/roles/keystone/files/fernet_rotate_cron_generator.py:55-92 | The hosts' jobs add up to the number of whole slots in the period |
| FernetRotation.WeeklyCollision | ansible/roles/keystone/files/fernet_rotate_cron_generator.py:65-73 | An interval of 780 minutes on two hosts puts both into one minute |
| IniMerge.CollectMeans | ansible/action_plugins/merge_configs.py:80-109 | Reading one source collects, for each section and key in the order of their first occurrence, all its assignments |
| IniMerge.LastSourceWins | ansible/action_plugins/merge_configs.py:91-101 | Merging sources keeps, for each section and key in the order of their first occurrence over all sources, all assignments of the last source that has any |
| IniMerge.OverlayConfigIsAssociative | ansible/action_plugins/merge_configs.py:96-101 | Merging is associative |
| IniMerge.OverlayConfigIsIdempotent | ansible/action_plugins/merge_configs.py:96-101 | Merging a configuration over itself changes nothing |
| IniMerge.OverlayOnNothing | ansible/action_plugins/merge_configs.py:74-76 | The first source becomes the configuration |
| IniText.ReadWrite | ansible/action_plugins/merge_configs.py:111-142 | Reading the printed text reports the printed headers and assignments again, with either whitespace setting |
| IniText.OneKeyPrinted | ansible/action_plugins/merge_configs.py:111-142 | How a value looks: nothing after the equals sign for an empty one, further lines under the first, with or without whitespace around the equals sign |
| IniText.RoundTrip | ansible/action_plugins/merge_configs.py:80-142 | Parsing what was printed restores the configuration exactly when the section of keys without a section is absent, or comes first and is not empty |
| IniText.MergeRoundTrip | ansible/action_plugins/merge_configs.py:80-142 | For merged sources: exactly when, if any source begins with keys without a section, the first source that is not empty does |
| IniText.MergedOrphans | ansible/action_plugins/merge_configs.py:80-109 | The same condition on the sources, as one on the merged configuration |
| IniText.SingleSourceRoundTrip | ansible/action_plugins/merge_configs.py:80-142 | A single source always survives |
| IniText.LaterOrphansAreLost | ansible/action_plugins/merge_configs.py:138-142 | Two sources for which the round trip fails |
| IniParser.OverrideConfigParser.NewSection | ansible/action_plugins/merge_configs.py:103-109 | Opens or resumes the section, in the parser's own dictionaries |
| IniParser.OverrideConfigParser.Assignment | ansible/action_plugins/merge_configs.py:80-89 | Adds the value to the list of its key, in place or as a new list |
| IniParser.OverrideConfigParser.ReadEvents | ansible/action_plugins/merge_configs.py:91-94 | Reads a source into lists that did not exist before |
| IniParser.OverrideConfigParser.MergeRead | ansible/action_plugins/merge_configs.py:96-101 | The nested loops over sections and keys are the overlay |
| IniParser.OverrideConfigParser.Parse | ansible/action_plugins/merge_configs.py:91-101 | Lays what the source defines over the earlier sources, without changing any list that existed before |
| IniParser.OverrideConfigParser.Write | ansible/action_plugins/merge_configs.py:111-142 | The nested loops print exactly the text that ReadWrite is about |
| IniParser.OverrideConfigParser.WriteValue | ansible/action_plugins/merge_configs.py:113-132 | The lines of one value: none, one, or the further ones indented under the first |
| IniParser.MergeConfigs | ansible/action_plugins/merge_configs.py:179-188 | The whole plugin: the printed text of the merged sources |
| YamlMerge.MergeIsAssociative | ansible/action_plugins/merge_yaml.py:122-130 | For trees of any depth, with and without list extension: merging b and then c over a fails when b clashes with a, and is otherwise merging the premerged b and c over a, failures included; so the two differ exactly when premerging hides a clash |
| YamlMerge.MergeFails | ansible/action_plugins/merge_yaml.py:173-191 | A merge fails exactly when the documents clash, which can be seen before it: under some path of dictionaries, a dictionary that is not empty over what is none, or, extending, what is no list over a list |
| YamlMerge.PremergingHidesAClash | ansible/action_plugins/merge_yaml.py:173-191 | Three documents for which premerging succeeds and merging one after the other does not |
| YamlMerge.EmptyIsLeftIdentity | ansible/action_plugins/merge_yaml.py:122-130 | Merging over nothing gives the document |
| YamlMerge.EmptyIsRightIdentity | ansible/action_plugins/merge_yaml.py:173-191 | Merging nothing changes nothing |
| YamlMerge.EmptyOverAnything | ansible/action_plugins/merge_yaml.py:175-177 | Merging an empty dictionary over a value: an identity over anything, a scalar included |
| YamlMerge.MergeIsIdempotent | ansible/action_plugins/merge_yaml.py:173-191 | Without list extension, merging the same document again changes nothing |
| YamlMerge.BatchesMerge | ansible/action_plugins/merge_yaml.py:128-130 | Merging a list of sources is merging its first part and then the merge of the rest, when the first part merges |
| YamlMerge.LastSourceWins | ansible/action_plugins/merge_yaml.py:122-130 | Under every path the merge of any sources has the last one's value, if that is no dictionary, or, extending, the list that was there with the last one's after it |
| YamlMerge.UpdateWins | ansible/action_plugins/merge_yaml.py:173-191 | The same of one merge |
| YamlMerge.OthersStay | ansible/action_plugins/merge_yaml.py:173-191 | And what the update says nothing about stays |
| YamlLists.KindsMerge | ansible/action_plugins/merge_yaml.py:173-191 | Whether a merge succeeds, and where its result has scalars, lists and dictionaries, does not depend on what the lists hold |
| YamlLists.PlaceAfter | ansible/action_plugins/merge_yaml.py:173-191 | What a merge with list extension puts at any path: the list that was there, extended by the update's, or the update's own |
| YamlLists.AppendedAt | ansible/action_plugins/merge_yaml.py:188 | The in-place merge appends to the list at a path at least what is meant for that path, and just that exactly when nothing is meant for another path that has the same list |
| YamlLists.RightExactlyIfHarmless | ansible/action_plugins/merge_yaml.py:173-191 | One merge in place gives the merge of the documents exactly when no list that something is appended to is kept at a second path |
| YamlLists.RunIsRight | ansible/action_plugins/merge_yaml.py:122-130 | Any number of merges in place give the merge of all documents exactly when no path is harmed: none keeps to the end a list that grew, in any of the merges, by what was meant for another path |
| YamlLists.AllRight | ansible/action_plugins/merge_yaml.py:122-130 | Without list extension they always do |
| YamlLists.StoredOnceIsHarmless | ansible/action_plugins/merge_yaml.py:105 | Sources in which no list is stored twice harm no path |
| YamlLists.AliasIsHarmed | ansible/action_plugins/merge_yaml.py:188 | A list stored under two keys, and a source for the first: harm is done exactly when that source has anything to append |
| YamlObjects.UpdateNestedConf | ansible/action_plugins/merge_yaml.py:173-191 | On objects in memory, with lists stored any number of times: succeeds exactly as planned, keeps list objects where they are, makes each extension exactly once and changes no other list, changes only the output's own dictionaries, and stores no dictionary of the source |
| YamlObjects.MergeInPlace | ansible/action_plugins/merge_yaml.py:173-191 | One merge: succeeds exactly when the documents merge; the result stands for their merge exactly when that is harmless or no list is extended |
| YamlObjects.MergeSources | ansible/action_plugins/merge_yaml.py:122-130 | The fold over any sources: succeeds exactly when the documents merge; the result, in dictionaries that are new, stands for their merge exactly when no path is harmed or no list is extended; no dictionary of a source changes |
| YamlObjects.MergeAliased | ansible/action_plugins/merge_yaml.py:122-130 | Two sources, of which the first has an alias: the result is not the merge of the documents exactly when the second has anything to append |
| YamlObjects.UpdateLeaf | ansible/action_plugins/merge_yaml.py:178-190 | A list is extended in place, or the value is stored by reference |
| DatabaseShards.DatabaseShardsInfo | kolla_ansible/database_shards.py:76-131 | Succeeds exactly when every host can be grouped, otherwise with the problem of the first that cannot; shards in order of their first hosts, each with its hosts in order, and the users of each from its first host only |
| DatabaseShards.ShardUsers | kolla_ansible/database_shards.py:98-127 | Root user, then backup user if enabled, or the first variable that is missing |
| DatabaseShards.EachShardHasItsUsers | kolla_ansible/database_shards.py:95-127 | The users of each shard are its root user and, if backups are enabled, its backup user, by the variables of its first host; there are no others |
| DatabaseShards.QuotedOrNot | kolla_ansible/database_shards.py:82-97 | A shard id written as a number and one written as a text are the same shard exactly when the text is that number |
| DatabaseShards.ShardsPartitionHosts | kolla_ansible/database_shards.py:82-131 | The result is a partition: every host in the list of its shard, and the sizes add up to the number of hosts |
| DatabaseShards.SizesAddUp | kolla_ansible/database_shards.py:95-129 | The sizes of the groups add up, for any list of shards that covers the hosts |
| VaultPasswords.WritePwd | kolla_ansible/cmd/writepwd.py:48-69 | Under the path of each non-empty string s the store then holds just {"password": s}, under that of a non-empty dictionary just that; the paths of null and of empty strings, lists and dictionaries are left alone. Writes, in order, to exactly the paths whose value the store does not have yet, and to no other; stops at the first value that Vault refuses |
| VaultPasswords.ReadPwd | kolla_ansible/cmd/readpwd.py:48-63 | Reads back every key of the file, in order |
| VaultPasswords.StoredAt | kolla_ansible/cmd/writepwd.py:48-69 | Writing affects exactly the paths of the keys with a value; all else in the store is as before |
| VaultPasswords.ReadsBack | kolla_ansible/cmd/readpwd.py:48-63 | What is so held is read back as itself: a non-empty string, and a non-empty dictionary without an entry "password" |
| VaultPasswords.RoundTrip | kolla_ansible/cmd/readpwd.py:48-63 | Whatever the store held, a key reads back as it was written exactly when its value survives: a non-empty string, a non-empty dictionary without an entry "password", or a value not written that the store already gives |
| VaultPasswords.SecondWriteIsIdle | kolla_ansible/cmd/writepwd.py:64-69 | After a write no key is stale, and paths of no key are as before |
| VaultPasswords.WriteTwiceThenRead | kolla_ansible/cmd/writepwd.py:48-69 | The programs in sequence: the same file comes back exactly when all its values survive; the first write goes to the stale paths, the second to none |

## Left out

- The docker, podman, dbus and hvac clients: `Host.Host` and `VaultPasswords.Vault` stand for them. An engine call may fail with or without its effect; a pull may fail after the image has arrived, a creation after the container exists, a removal after it is gone, a write of the unit file half-way. Nothing else touches the host while a worker runs, and an image id identifies an image.
- Host.Host: a reliable systemd is taken to agree with the engine about the state of a container, and a reliable engine to keep a started container running until it is waited for. `Host.exitsWith`, any function, gives the code with which a container exits.
- The comparisons of the podman worker, and whether its containers converge after creation: the comparison is any function, so what is proved holds for all of them. `prepare_container_args` and `parse_volumes` of the podman worker are part of "the engine takes the parameters".
- Drift.DriftIsDetected: the engine is taken to leave limits that were not requested at empty defaults, and an environment that is read back to have no equals sign in its names. The two sets of parameters are compared on one image; another local image is a difference by `DockerCompare.SameNeedsImage`.
- DockerCompare.Compare: a missing soft or hard resource limit, labels of an image that are null, and network mode, tty and log options, which are never compared.
- ContainerSpec.RepositoryTag: stands for parse_repository_tag of docker's client library, which is not part of the repository: what follows the last "@", or else the last colon if no slash comes after it.
- Podman's status "stopped", which stands for exited here, and states of a container other than created, running, paused, restarting and exited.
- Systemd.SystemdWorker: a worker without a container name, which has no unit.
- The variable KOLLA_SERVICE_NAME that creating a container leaves in the worker's parameters: no comparison follows it within an action.
- FernetRotation.NeverUnderRotates: stated for schedules whose entries are faithful, because in the others a job may fire at another minute or never; FernetRotation.JobTimesFollow holds without it.
- FernetRotation.Generate: intervals and numbers of hosts below one, for which the loops do not end.
- IniText.Read: stands for the base parser of oslo.config, which is not part of the repository, on well-formed lines: sections with a name, names and values without edge blanks, no colon or equals sign in keys, no quotes and no comments.
- YamlObjects.UpdateNestedConf: what the output holds after a failed merge; the items of the source are taken in any order. Keys that are not strings, and the contents of list elements.
- VaultPasswords.WritePwd: values that are neither strings nor dictionaries are taken to be refused by Vault.
- Decimal.ParseInt: blanks, underscores and digits other than ASCII, which Python's int() accepts.
- Ansible's bool filter on enable_mariabackup, taken as applied; host variables of other types than those in `DatabaseShards.HostVars`.
- Jinja templates, the copy action, temporary files, file modes, TLS options, registry login, shlex (a command is given as its words), JSON output and log messages.
- Generating and merging passwords, service filters, address formatting, the other filters, playbooks, shell scripts and documentation: their claims are short or rest on libraries.
