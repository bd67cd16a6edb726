# Portoshim in Dafny

Portoshim is the CRI runtime that turns Kubernetes calls into calls on a Porto container store.
This project models its hard parts and proves properties of them for all inputs, all runs and
all interleavings. `dafny verify dfyconfig.toml` checks everything.

| files | what they are about |
|---|---|
| `GoStrings`, `GoPaths`, `GoSort` | the Go library functions the code relies on: split, join, cut, fields, `filepath.Clean`, `Dir`, `Base`, `Join`, `sort.Slice` |
| `Resolve`, `CdiMounts` | symlink resolution inside a container root, and the linking of CDI mounts |
| `CdiDevices`, `CdiHooks` | CDI specs, device resolution, the schedule of hooks |
| `Base64`, `Labels`, `ExecEnv`, `Ids` | the codecs: labels, the exec environment, ids with prefix and alias |
| `Network` | the net property, and the arguments of CNI ADD and DEL |
| `Mounts` | the volume list of a container |
| `Logshim`, `PortForward` | the two concurrent programs, as state machines |
| `Porto`, `Daemon` | the container store: what a call may do, and an implementation that may fail at any call |
| `Listing` | ListContainers with its filters, and ContainerStatus as a reading of the store |
| `Handlers` | each CRI handler as a sequence of Porto calls and outside steps: the next call, and where the answer leads |
| `Lifecycle`, `LifecycleRecords`, `LifecycleTasks`, `LifecycleSafety` | all calls in flight at once, with faults, state changes, disappearing containers and restarts; the invariant and its proof |
| `LifecycleLaws`, `Race` | what follows in every run, and the runs that show where a law needs its exception |
| `Paths`, `EndToEnd`, `Shim` | one call from beginning to end; a container from request to list; and the handlers as imperative code on a class, proved to be runs of the machine |

How the lifecycle is modelled. A Porto id is the sequence of its segments; `Ids` relates segments
to the texts that the Go code takes apart. A record has labels, a state, a net property, an
environment, a creation time and an instance number that tells apart records which had the same
id at different times. Every call to Porto or to CNI may fail, before it took effect or after: what
Porto does and what the shim hears are two things (`Lifecycle.Heard`), and a lost answer is heard as
a failure.
A record is "stopped" when it is made and after a Stop, with all below it, and in a running state
after a Start or an update that starts it; from then on Porto may change its state by itself.
A handler is a list of program points; `Want` gives the call it makes at a point and `Resume` the
point that the answer leads to. `Lifecycle.Step` lets any call in flight take its next step, a new
call begin, Porto change a state or take a container away, or the shim restart and forget every
call. `Shim.Portoshim` has the handlers as methods that call Porto step by step; each method is
proved to take exactly the steps of its handler, and its whole history to be a run of the machine,
so every law about runs holds for it.

A privileged container is two records, `pod/cnt` and `pod/cnt/privileged`, shown as one id. The
centre of the invariant (`Listing.AliasInv`, `Lifecycle.Inv`) is that the second exists only below
a record that carries the label `priv`; it is what makes list, status and reaping agree.

Findings, stated as the code has them:

- When RemovePodSandbox destroys a pod on a netns, Stop, CNI DEL and the removal of the netns came
  before it in the same call if and only if RunPodSandbox did not have its last update of the pod
  ahead when the net property was read; otherwise there is no CNI DEL at all
  (`LifecycleLaws.DetachedBeforeDestroyed`; `Race.RaceSkipsDel` has the run).
- A failing RunPodSandbox or CreateContainer leaves no record of its own if and only if its Create
  was not done, or its cleanup was done or had nothing left to do
  (`LifecycleLaws.FailureIsContained`). A Create that is done without an answer is not cleaned up
  (`Race.LostAnswerLeavesPod`).
- ContainerStatus takes an exited container away without reporting the exit if and only if the
  answer to its Destroy is lost (`LifecycleLaws.StatusReportsOrNothing`).
- CNI DEL gets the arguments of CNI ADD if and only if the sandbox config's own
  `io.kubernetes.pod.*` labels agree with its metadata (`Network.DelGetsAddArgs`).
- The sentinel split of the exec environment equals the scan that reads `\;` as a literal `;` if and
  only if the text does not have both an escape and the sentinel character
  (`ExecEnv.SentinelSplitIsScan`). The printed environment is read back if and only if no name holds
  a `=`, no entry but the last ends in a backslash, and the entries do not hold both a `;` and the
  sentinel (`ExecEnv.ExecEnvRoundTrip`).
- A pod id in the place of a container id lists the containers of the pod, although no container has
  that id; the filtered list is the list filtered if and only if the pod shows no container
  (`Listing.PodIdAsContainerId`, `Listing.PodIdDiffers`).
- Every container has a status, and it is listed if and only if its labels are Portoshim's and, when
  they hold `priv` with any value, its helper is there (`Listing.ListedExactly`). So a privileged
  container is not listed before it is started, and a container with another value of `priv` than
  "true" is never listed (`EndToEnd.OtherMarkIsNeverListed`).

## Model

| member | source | states |
|---|---|---|
| Resolve.ResolveInRoot | cmd/portoshim/cdi.go:195-229 | the loop with its growing worklist ends (budget of symlinks, then length of the worklist) and computes the bounded walk |
| Resolve.ResolvesExactly | cmd/portoshim/cdi.go:195-229 | success with a text if and only if the unbounded small-step resolution ends there with at most 40 symlinks |
| Resolve.TooManyExactly | cmd/portoshim/cdi.go:216-218 | the "too many" error if and only if a 41st symlink is met |
| Resolve.ReadFailedExactly | cmd/portoshim/cdi.go:219-222 | a read error if and only if a symlink within the budget cannot be read |
| Resolve.CycleIsError | cmd/portoshim/cdi.go:211-227 | every symlink cycle that is met is an error |
| Resolve.ResolvesCanonical | cmd/portoshim/cdi.go:198-228 | a result has only names as components and no prefix of it is a symlink |
| Resolve.CanonicalFixed | cmd/portoshim/cdi.go:198-228 | a canonical path is a fixed point, reached without following a symlink |
| Resolve.ResolvesComposes | cmd/portoshim/cdi.go:198-228 | p/q resolves to r if and only if p resolves to some c and c/q to r, and the numbers of symlinks add up |
| Resolve.NoSymlinksIsClean | cmd/portoshim/cdi.go:198-228 | in a root without symlinks resolution is lexical cleaning of the rooted path |
| Resolve.LinkIsFollowed | cmd/portoshim/cdi.go:219-227 | in any root, a path through a symlink in a resolved directory resolves to what it resolves to with the target in the place of the symlink, from the root if the target is absolute, with one symlink less |
| Resolve.UnreadableEnds | cmd/portoshim/cdi.go:219-222 | a path through a symlink that cannot be read resolves to nothing |
| Resolve.ComponentsMean | cmd/portoshim/cdi.go:200-215 | in any root, behind a resolved directory, `..` is the parent, an empty component and `.` are the directory, and a name that is no symlink is the path of that name |
| CdiMounts.CdiMountTarget | cmd/portoshim/cdi.go:239-249 | the target: the resolved parent with the cleaned base name, skipped when a symlink is there |
| CdiMounts.TargetFixed | cmd/portoshim/cdi.go:231-249 | every target is a fixed point of resolveInRoot and no symlink |
| CdiMounts.TargetExactly | cmd/portoshim/cdi.go:239-249 | for every path below the root: the target is the last component of the cleaned path in what the directory before it resolves to within 40 symlinks; skipped if and only if a symlink is there, failed if and only if the directory does not resolve |
| CdiMounts.TargetRooted | cmd/portoshim/cdi.go:239-249 | a relative path is meant from the root |
| CdiMounts.TargetWithoutLinks | cmd/portoshim/cdi.go:239-249 | without symlinks a mount goes where its cleaned path says |
| CdiMounts.LinkCDIMounts | cmd/portoshim/cdi.go:253-288 | the calls made to Porto, on success, on a resolution error, and on a failing create or link |
| CdiMounts.JobsAreWinners | cmd/portoshim/cdi.go:255-268 | the mounts that are linked are those with no earlier mount at the same target, in their order |
| CdiMounts.JobsGoodPlaces | cmd/portoshim/cdi.go:255-268 | the targets are pairwise distinct fixed points of resolveInRoot |
| CdiMounts.CallsBalanced | cmd/portoshim/cdi.go:269-286 | on every path each created volume gets exactly one unlink from its creator, right after its link or failed link and before anything else |
| CdiMounts.CallsSay | cmd/portoshim/cdi.go:269-286 | every link call is for one of the mounts, at its target, right after the volume that binds its host path, both read-only if the mount is; nothing is made after a failure |
| CdiMounts.CallsLink | cmd/portoshim/cdi.go:253-288 | all mounts that win their place are linked, or those before the failure |
| CdiHooks.RunCDIHooks | cmd/portoshim/cdi.go:298-346 | on success exactly the schedule ran; on failure the prefix of it that ends in the failing hook |
| CdiHooks.ScheduleStable | cmd/portoshim/cdi.go:291-346 | the schedule has every hook of a supported stage once, ordered by stage and within a stage as listed, and no other hook |
| CdiHooks.StableOrderUnique | cmd/portoshim/cdi.go:291-346 | there is only one such order |
| CdiDevices.CdiEdits.Apply | cmd/portoshim/cdi.go:107-143 | the edits of a spec come behind what was there, with defaults filled in and malformed variables dropped |
| CdiDevices.ConvertedSays | cmd/portoshim/cdi.go:107-143 | the edits field by field: the paths and the `ro` option of every mount, the paths and permissions of every device with their defaults, the variables that have a value cut at their first `=`, the hooks, all in order |
| CdiDevices.LoadCDISpecs | cmd/portoshim/cdi.go:75-105 | fails if and only if a directory cannot be listed or a spec in it cannot be used; otherwise gives the specs by kind |
| CdiDevices.LastWins | cmd/portoshim/cdi.go:73-105 | a kind is described by its last spec in the order of directories and files |
| CdiDevices.KnownKinds | cmd/portoshim/cdi.go:73-105 | the kinds known are those of the specs |
| CdiDevices.LaterOverrides | cmd/portoshim/cdi.go:73-105 | a later directory overrides the earlier ones and a later file those before it; a directory that does not describe a kind leaves it |
| CdiDevices.SpecFilesAre | cmd/portoshim/cdi.go:84-88 | spec files are those whose names end in `.yaml` or `.json` |
| CdiDevices.RequestMeans | cmd/portoshim/cdi.go:164-181 | a request is known if and only if the kind before its first `=` has a spec with a device of the name after it, and stands for the first such device; one without `=` never |
| CdiDevices.DistinctInOrder | cmd/portoshim/cdi.go:157-163 | requests are kept in the order in which they first come |
| CdiDevices.ResolveCDIDevices | cmd/portoshim/cdi.go:145-190 | succeeds if and only if nothing is requested or the specs load and every name is well formed and found; the edits are those of the schedule over first occurrences |
| CdiDevices.ScheduleOwners | cmd/portoshim/cdi.go:158-188 | the devices of the schedule are the requested ones in order |
| CdiDevices.ScheduleShared | cmd/portoshim/cdi.go:158-188 | the shared edits of a requested kind come exactly once and before the edits of any of its devices; those of other kinds never |
| CdiDevices.DuplicatesDoNotMatter | cmd/portoshim/cdi.go:158-163 | removing duplicate requests changes neither success nor the edits |
| CdiDevices.CdiRequestedDevices | cmd/portoshim/cdi.go:53-71 | the devices named by the annotations, in the order of the sorted keys |
| CdiDevices.ListingUnique | cmd/portoshim/cdi.go:54-60 | the order does not depend on how Go ranges over the map |
| CdiDevices.DevicesAsWritten | cmd/portoshim/cdi.go:62-70 | names written into annotations with commas and any spaces between them are what is requested, in the order of the keys |
| Base64.DecodeEncode | cmd/portoshim/runtime_mapper.go:542-553 | unpadded base64 (sections 3.2 and 4 of RFC 4648) is read back, for every byte string |
| Base64.SextetsAreBits | cmd/portoshim/runtime_mapper.go:542-553 | the sextets are the bits of the octets, highest first, and the unused bits of the last one are zero (section 3.5 of RFC 4648) |
| Base64.DigitsOfTable | cmd/portoshim/runtime_mapper.go:542-553 | the digits are those of table 1 of RFC 4648 |
| Labels.ConvertToPortoLabels | cmd/portoshim/runtime_mapper.go:588-599 | both maps in one, keys tagged |
| Labels.PortoLabelsSize | cmd/portoshim/runtime_mapper.go:588-599 | the encoded map has as many entries as the two maps together |
| Labels.ConvertFromPortoLabels | cmd/portoshim/runtime_mapper.go:601-623 | the loop over the printed text; None is the panic |
| Labels.PanicsExactly | cmd/portoshim/runtime_mapper.go:611-613 | it panics if and only if some `;` segment has no `:` |
| Labels.LabelsRoundTrip | cmd/portoshim/runtime_mapper.go:542-623 | for all maps over byte strings, any order and any spaces of the printed text, with the engine entry: parsing gives back exactly both maps |
| Labels.EntriesSay | cmd/portoshim/runtime_mapper.go:555-599 | the encoded map entry by entry: `LABEL.` and `ANNOTATION.` with the encoded keys, the engine, and no others |
| ExecEnv.PrepareExecEnv | cmd/portoshim/runtime_mapper.go:368-383 | the variables of the two-branch split; without both escape and sentinel those of the one-pass scan |
| ExecEnv.EnvToVars | cmd/portoshim/runtime_mapper.go:308-325 | the loop gives each entry cut at its first `=`, and drops what has none |
| ExecEnv.SentinelSplitIsScan | cmd/portoshim/runtime_mapper.go:368-383 | split and scan agree if and only if escape and sentinel do not both occur |
| ExecEnv.PrintedRoundTrip | cmd/portoshim/runtime_mapper.go:368-383 | escape-join then scan gives the same names and values if and only if no name holds a `=` and no entry but the last ends in a backslash |
| ExecEnv.ExecEnvRoundTrip | cmd/portoshim/runtime_mapper.go:308-383 | the same through the sentinel split, if and only if moreover the entries do not hold both a `;` and the sentinel |
| Ids.PodOrContainer | cmd/portoshim/runtime_mapper.go:164-205 | without a parent the tests on texts are tests on the number of segments, and the alias is stripped as on segments |
| Ids.AcceptedIsWellFormed | cmd/portoshim/runtime_mapper.go:164-187 | every text that passes for a pod or a container is the text of non-empty segments |
| Ids.AliasInverse | cmd/portoshim/runtime_mapper.go:2054-2062 | looking for the alias and stripping it are inverse on containers |
| Ids.HelperPath | cmd/portoshim/privileged.go:113-115 | the path that createPrivCnt joins is the same alias |
| Ids.TextPrefix | cmd/portoshim/runtime_mapper.go:1924-1933 | the textual test of filterContainerIDs is the prefix order of segments |
| Ids.CreatedIsNotPrivileged | cmd/portoshim/runtime_mapper.go:112-119 | no generated id is the helper's segment, and none is longer than 63 bytes |
| Ids.CreatedDiffer | cmd/portoshim/runtime_mapper.go:112-119 | another random number is another id, and the id begins with the name, cut at 58 bytes |
| Ids.PrefixRoundTrip | cmd/portoshim/runtime_mapper.go:1184-1209 | the parent's prefix that is added is the one that is removed, and the tests see through it |
| Ids.RawIdUntouched | cmd/portoshim/runtime_mapper.go:1203-1209 | a raw id is left alone if and only if it does not begin with the parent's text |
| Network.ParsePropertiesNetNS | cmd/portoshim/runtime_mapper.go:979-992 | the three loops find the word behind the first requested word of the first option that has one |
| Network.NetTextRead | cmd/portoshim/runtime_mapper.go:979-992 | the netns name is read back from the printed option |
| Network.DelGetsAddArgs | cmd/portoshim/runtime_mapper.go:625-653 | DEL gets the container id, name, namespace, uid, annotations and netns of ADD if and only if the config's own labels agree with its metadata; with the netns gone, the same without the path, again if and only if |
| Mounts.PrepareContainerMounts | cmd/portoshim/runtime_mapper.go:478-539 | the volumes, counted by their fields: the prior ones, one for every mount whose cleaned target is not exactly `/dev` or `/sys`, and the one for the logshim; sorted by target; the mounts are cleaned in place |
| Mounts.KeptCounts | cmd/portoshim/runtime_mapper.go:465-539 | each of them has the container, the cleaned container path as target, the cleaned host path as storage, backend bind, and the mount's read-only flag on volume and link |
| Mounts.LogshimKept | cmd/portoshim/runtime_mapper.go:478-539 | the logshim mount is always among them |
| Mounts.AncestorsFirst | cmd/portoshim/runtime_mapper.go:535-537 | a mount comes after all mounts at its strict ancestors |
| Logshim.StreamLoop | cmd/logshim/main.go:32-58 | the loop hands over the chunks of the input |
| Logshim.ChunksLaws | cmd/logshim/main.go:32-58 | the chunks concatenate to the input; each but the last ends in its only newline or is 16384 bytes without one |
| Logshim.OutputIsWholeRecords | cmd/logshim/main.go:24-58 | in every interleaving the output is whole records and at most one partial record of the holder of the mutex |
| Logshim.StreamsArePreserved | cmd/logshim/main.go:24-58 | per stream the chunks handed over are a prefix of the input, the whole input at its end, and all of them are written |
| Logshim.NoDeadlock | cmd/logshim/main.go:24-58 | as long as a loop has not returned some loop has a step that is not a failing write |
| PortForward.NilMeansAllDelivered | cmd/portoshim/portforward.go:142-173 | nil is returned only after every byte the pod sent before closing has reached the client |
| PortForward.CleanClientEndDoesNotEnd | cmd/portoshim/portforward.go:142-173 | a clean end of the client alone never ends the pump |
| PortForward.NeverBlocks | cmd/portoshim/portforward.go:142-173 | no goroutine ever blocks on its result channel |
| PortForward.PrefixesArrive | cmd/portoshim/portforward.go:142-173 | in both directions what arrives is a prefix of what was sent |
| PortForward.PumpCanEnd | cmd/portoshim/portforward.go:142-173 | once the pod side has reported, the select can return its result |
| Listing.ListLoop | cmd/portoshim/runtime_mapper.go:1975-2046 | the loop over the ids shows what the entry rule shows, in order |
| Listing.FilterContainerIDs | cmd/portoshim/runtime_mapper.go:1924-1933 | the in-place compaction equals the pure filter |
| Listing.FilterCommutes | cmd/portoshim/runtime_mapper.go:1936-2046 | filtered by a container id of two segments or more, a pod id or both, the list is the unfiltered list filtered: same containers, same order, helpers with the labels of their parents |
| Listing.PodIdAsContainerId | cmd/portoshim/runtime_mapper.go:1947-1956 | with a pod id as container id, and any pod filter beside it, the list is that of the pod; it is the unfiltered list filtered if and only if that list shows no container of the pod |
| Listing.PodIdDiffers | cmd/portoshim/runtime_mapper.go:1947-1956 | a store, for every pod and container name, on which the two differ |
| Listing.ListedAgreesWithStatus | cmd/portoshim/runtime_mapper.go:1975-2128 | what is listed resolves back to the same record, with the same state, labels, annotations, image and time |
| Listing.ListedExactly | cmd/portoshim/runtime_mapper.go:1975-2014 | every container has a status, and is listed if and only if its labels are Portoshim's, it has its helper if it has the label `priv`, and the filter selects what the status says |
| Listing.AnswerExactly | cmd/portoshim/runtime_mapper.go:1936-2050 | an answer has a container if and only if it should be listed and the filter lets its status through, and has it as the status says |
| Listing.ListedDistinct | cmd/portoshim/runtime_mapper.go:1975-2046 | no id is listed twice |
| Listing.StatusSays | cmd/portoshim/runtime_mapper.go:2092-2128 | a status has id and pod, the state and time of the helper or else of the container, and the labels, annotations and image of the container; CREATED, RUNNING and EXITED go with Porto's words as the table of states says |
| Porto.CallKeepsTree | cmd/portoshim/runtime_mapper.go:1883-1905 | whatever a call does, every record keeps its parent |
| Daemon.Perform | cmd/portoshim/runtime_mapper.go:1287-1328 | the calls as they are specified have an implementation, faults included |
| LifecycleSafety.RunsAreSafe | cmd/portoshim/runtime_mapper.go:1211-2140 | the invariant holds in every state of every run |
| LifecycleLaws.HelperHasMarkedParent | cmd/portoshim/privileged.go:113-160 | in every run a helper exists only below a container that is there and carries the label `priv` |
| LifecycleLaws.ListIsSound | cmd/portoshim/runtime_mapper.go:1975-2046 | in every run a list has pairwise distinct ids, agrees with the status on the same store, and has no container whose CreateContainer has not completed its final update |
| LifecycleLaws.FailureIsContained | cmd/portoshim/runtime_mapper.go:1287-1326 | in every run, no step of RunPodSandbox or CreateContainer touches a record older than the call or adds one but its own; an error leaves no record if and only if Create was not done, and a cleanup leaves none if and only if it was done or the record was gone |
| LifecycleLaws.StatusReportsOrNothing | cmd/portoshim/runtime_mapper.go:2070-2140 | a step of ContainerStatus leaves the store as it is, or takes away an exited container with its helper; it reports the exit if and only if it hears of that |
| LifecycleLaws.ExitReportedOnce | cmd/portoshim/runtime_mapper.go:2070-2140 | in every run no instance is reported twice, and none is in the store after its report |
| LifecycleLaws.DetachedBeforeDestroyed | cmd/portoshim/runtime_mapper.go:1405-1454 | when RemovePodSandbox destroys a record on a netns, Stop, CNI DEL and the removal of the netns succeeded before in the same call if and only if RunPodSandbox did not have its last update ahead when the property was read; otherwise only the read and Stop came before |
| LifecycleLaws.RemovalStep | cmd/portoshim/runtime_mapper.go:1417-1443 | every step before Destroy, failing or not, keeps all records with their labels and net properties |
| LifecycleLaws.RetryCompletes | cmd/portoshim/runtime_mapper.go:1405-1454 | from every reachable state a removal in which nothing fails succeeds within nine steps and the pod is gone; on a pod that is gone it makes one read and no CNI call |
| LifecycleLaws.DelUndoesAdd | cmd/portoshim/runtime_mapper.go:1361-1397 | in every run every CNI DEL undoes the CNI ADD of the RunPodSandbox call that made the pod, with or without the netns still there, if and only if its config agrees with itself |
| Race.RaceSkipsDel | cmd/portoshim/runtime_mapper.go:1417-1446 | for every netns request there is a run in which a removal overlaps RunPodSandbox and destroys the pod on its netns without CNI DEL |
| Race.LostAnswerLeavesPod | cmd/portoshim/runtime_mapper.go:1287-1291 | for every request there is a run in which RunPodSandbox ends in an error and its record stays |
| Paths.CreationOutcome | cmd/portoshim/runtime_mapper.go:1287-1326 | with no other call in between: all records that were found are kept, and the new one is there after success, after an error whose Create was done all the same, and after a cleanup that was not done; otherwise the set of records is as it was found |
| Paths.HonestLeaves | cmd/portoshim/runtime_mapper.go:1287-1326 | with no answer lost the new record is there if and only if the call succeeded or its cleanup failed |
| Paths.RemovalOutcome | cmd/portoshim/runtime_mapper.go:1405-1454 | whatever fails, the pod is kept with labels and net property until its Destroy; with no failure the call succeeds; at most nine steps |
| Paths.RemovalGoesOn | cmd/portoshim/runtime_mapper.go:1405-1454 | at each point there is a next step that does not fail |
| Paths.StatusOutcome | cmd/portoshim/runtime_mapper.go:2082-2140 | with no failure the report is what the store says; a report of an exit takes the container away, any other end changes nothing unless the answer to Destroy was lost |
| Paths.ListedThenReported | cmd/portoshim/runtime_mapper.go:2027-2128 | what is listed is what ContainerStatus on the same store reports |
| Paths.StartOutcome | cmd/portoshim/runtime_mapper.go:1799-1850 | nothing but states changes, except that a marked container gets its helper; with no failure it has one, with the environment of its parent |
| Paths.StartRuns | cmd/portoshim/runtime_mapper.go:1799-1850 | success means that the container was started and runs, or the helper that stands for it, and both if the helper is new; with no failure it succeeds if and only if the container is there |
| Paths.ListOutcome | cmd/portoshim/runtime_mapper.go:1936-2050 | the list that the handler gives is an answer of Listing.ListContainers on the store, which it leaves alone; with no failure there is one |
| EndToEnd.LabelsOfRequest | cmd/portoshim/runtime_mapper.go:690-720 | the labels carry id and image of the request, and the mark if and only if the request is privileged or its own labels say so |
| EndToEnd.ContainerLabelsSay | cmd/portoshim/runtime_mapper.go:690-720 | the labels of a container key by key: those of the request, the name unless it has one, attempt, log path, id, image, and the mark and command of a privileged one |
| EndToEnd.KeyTexts | cmd/portoshim/runtime_mapper.go:695-710 | the keys and the mark, as texts |
| EndToEnd.PodLabelsSay | cmd/portoshim/runtime_mapper.go:625-653 | the labels of a pod key by key, and that they are what is stored |
| EndToEnd.PodRuns | cmd/portoshim/runtime_mapper.go:1211-1331 | after success the pod runs, with its labels and the net property that names its netns |
| EndToEnd.RunSteps | cmd/portoshim/runtime_mapper.go:1211-1331 | the steps of a RunPodSandbox that succeeds, in order, none left out and none twice |
| EndToEnd.AddSays | cmd/portoshim/runtime_mapper.go:994-1092 | CNI ADD is told namespace, name, uid and annotations of the config, the id of the pod, and the path of the netns whose name is stored for DEL |
| EndToEnd.CreateSteps | cmd/portoshim/runtime_mapper.go:1587-1797 | the steps of a CreateContainer that succeeds, in order, none left out and none twice |
| EndToEnd.RemovalSteps | cmd/portoshim/runtime_mapper.go:1405-1454 | the steps of a RemovePodSandbox that succeeds, in order, none left out and none twice |
| EndToEnd.CreateFailsFor | cmd/portoshim/runtime_mapper.go:1720-1792 | CreateContainer cleans up if and only if CDI, its last update, or the command of a container that is not privileged has failed |
| EndToEnd.HelperFound | cmd/portoshim/privileged.go:122-130 | a helper that is found is left as it is if and only if it is in one of three states |
| EndToEnd.AnswerAsAsked | cmd/portoshim/runtime_mapper.go:1936-2050 | an answer of ListContainers has a container, as it was asked for, if and only if the filter lets it through and its helper is there when its labels hold `priv` |
| EndToEnd.PlainIsListed | cmd/portoshim/runtime_mapper.go:1587-1797 | after CreateContainer the answer of ListContainers has a container that is not privileged, as CREATED, with labels, annotations and image of the request, if and only if it matches the filter |
| EndToEnd.PlainRuns | cmd/portoshim/runtime_mapper.go:1799-2046 | after a StartContainer without failure the answer has it as RUNNING, if and only if it matches the filter |
| EndToEnd.StatusFollowsStart | cmd/portoshim/runtime_mapper.go:2082-2140 | ContainerStatus without failure says CREATED after CreateContainer and RUNNING after StartContainer, privileged or not, with everything as asked for |
| EndToEnd.PrivilegedIsListed | cmd/portoshim/runtime_mapper.go:1799-2046 | a marked one is in no answer after CreateContainer; after a StartContainer without failure it is, as RUNNING, with labels, annotations and image of the request, if and only if it matches the filter |
| EndToEnd.OtherMarkIsNeverListed | cmd/portoshim/runtime_mapper.go:1988-1992 | one that is not privileged and has another value of `priv` than "true" is in no answer, started or not, whatever fails, while its status is as asked for |
| Shim.Portoshim.Do | cmd/portoshim/runtime_mapper.go:1287-1291 | one call, whose answer may get lost: the step of the handler, and a step of the machine |
| Shim.Portoshim.RunPodSandbox | cmd/portoshim/runtime_mapper.go:1211-1331 | takes the steps of the handler; leaves the store as CreationOutcome says; success leaves the pod as PodRuns says and took the steps of RunSteps; with no answer lost, a failure that is cleaned up leaves the set of records as it was |
| Shim.Portoshim.PreparePodNetwork | cmd/portoshim/runtime_mapper.go:1004-1092 | CNI load, netns and ADD in this order, or the first failure |
| Shim.Portoshim.CreateContainer | cmd/portoshim/runtime_mapper.go:1587-1797 | takes the steps of the handler; leaves the store as CreationOutcome says; success leaves the container stopped, with the labels of the request, and took the steps of CreateSteps; with no answer lost, a failure that is cleaned up leaves the set of records as it was |
| Shim.Portoshim.StartContainer | cmd/portoshim/runtime_mapper.go:1799-1850 | takes the steps of the handler; leaves the store as StartOutcome says, and what was started running as StartRuns says |
| Shim.Portoshim.CreatePrivCnt | cmd/portoshim/privileged.go:113-160 | takes the steps of the handler from the look for the helper to its last update |
| Shim.Portoshim.ContainerStatus | cmd/portoshim/runtime_mapper.go:2082-2140 | takes the steps of the handler; result and store as StatusOutcome says |
| Shim.Portoshim.RemoveContainer | cmd/portoshim/runtime_mapper.go:1878-1921 | success takes the container and all below it away; otherwise the store is as it was or without the container |
| Shim.Portoshim.RemovePodSandbox | cmd/portoshim/runtime_mapper.go:1405-1454 | takes the steps of the handler; success took the steps of RemovalSteps; with no failure it succeeds and the pod is gone; on a pod that is gone one read |
| Shim.Portoshim.RemoveNetNS | cmd/portoshim/runtime_mapper.go:1373-1403 | DEL with arguments from the stored labels and net property, then the removal of the netns; success only if all succeeded |
| Shim.Portoshim.ListContainers | cmd/portoshim/runtime_mapper.go:1936-2050 | takes the steps of the handler with the in-place filter; the answer is one of Listing.ListContainers, distinct, and agrees with the status; with no failure there is one |

## Left out

- The white space of `strings.TrimSpace` and `strings.Fields` is the ASCII one; a Go string is a sequence of bytes, and Unicode spaces in label or net texts are not modelled.
- A parent container: the machine is without one, as the code's comment on the alias says; `Ids` and `Network` prove the prefix on its own. getParentCnt gives one segment.
- LifecycleLaws.FailureIsContained: RunPodSandbox that fails after CNI ADD destroys its record without CNI DEL, as the code does; only the records of Porto are restored.
- LifecycleLaws.ListIsSound: with other calls in between, ids and properties are read at two moments, so what comes in between may be missing from the list; that nothing is missing is stated for a call on its own (Listing.AnswerExactly, Paths.ListOutcome).
- createID draws a random id: a call does not succeed in creating an id that another call in flight has already created or is addressing; calls that follow each other are not restricted. A pod name has no slash, and CreateContainer names a pod.
- L3 pods in the machine: they have no netns name, so their network steps would only add a mode without DEL.
- Steps in a row that touch no record and only return on failure are one step: pull and status of the image, directories, the command, the log path, the resolution of CDI devices before Create, mounts and hooks after it. What they compute is modelled in `CdiDevices`, `CdiMounts`, `CdiHooks` and `Mounts`.
- ExecSync is in the machine with the record that it creates and destroys, without waiting, exit code and output; StopContainer and StopPodSandbox are among the state changes of Porto.
- The body of CNI plugins, hook processes with their timeouts, JSON encoding, and the Porto daemon beyond the calls used: steps that succeed or fail.
- The copies of secrets made for mounts, with their waiting and retries: the host path is opaque.
- The image of a root volume that no label names is a parameter.
- Forwarding between API versions, gRPC setup, configuration, logging, streaming, image and registry wrappers, stats, resource conversion, resolv.conf and property reflection: thin code with nothing hard to state.
- ListPodSandbox and PodSandboxStatus: field copying over the same codec.
