/** What the handlers promise, in every run. */
module LifecycleLaws {
  import opened GoStrings
  import opened Labels
  import opened Network
  import opened Ids
  import opened Porto
  import opened Listing
  import opened Handlers
  import opened Lifecycle
  import opened LifecycleRecords
  import opened LifecycleTasks
  import opened LifecycleSafety
  import opened Paths

  // ---- the alias of privileged containers

  /** Main result: a helper exists only below a container that carries the label. */
  lemma HelperHasMarkedParent(c: Config, run: seq<Sys>, i: nat, id: Id)
    requires IsRun(c, run) && i < |run| && id in run[i].store && Privileged(id)
    ensures |id| == 3 && ParentOf(id) in run[i].store && IsPriv(run[i].store[ParentOf(id)])
  {
    hide IsRun, IsPriv, RecOk, TaskOk;
    RunsAreSafe(c, run, i);
    assert HelperOk(run[i].store, id);
  }

  /** Call t answers with this list. */
  ghost predicate Lists(c: Config, s: Sys, t: nat, done: Reply, reply: Reply, s': Sys, cs: seq<Container>) {
    CallStep(c, s, t, done, reply, s') && s.tasks[t].pc.Ls? && s'.tasks[t].pc == Done(Listed(cs))
  }

  /** The status agrees, and CreateContainer came to its end. */
  ghost predicate ShownRight(c: Config, s: Sys, shown: Container) {
    && shown.id != [] && StatusOf(s.store, shown.id, c.vol) == Some(shown)
    && shown.id in s.store && s.store[shown.id].inst in s.completed
  }

  lemma ShownIsCompleted(c: Config, s: Sys, id: Id, f: Filter)
    requires Records(c, s) && id != [] && EntryOf(s.store, id, f, c.vol).Shown?
    ensures Cri(id) in s.store && |Cri(id)| == 2 && s.store[Cri(id)].inst in s.completed
  {
    hide FromPortoLabels, HasNetns, Attached, Prints, RunLabels, History, Unique;
    EmptyLabels();
    assert HelperOk(s.store, id) && RecOk(c, s, Cri(id));
  }

  lemma ListReads(c: Config, s: Sys, t: nat, done: Reply, reply: Reply, s': Sys, cs: seq<Container>)
    requires Lists(c, s, t, done, reply, s', cs) && TaskOk(c, s, s.tasks[t])
    ensures var task := s.tasks[t];
            && task.pc.ls.LsProps? && reply.Many? && Within(reply.recs, s.store) && NoEmptyId(task.pc.ls.ids)
            && Distinct(task.pc.ls.ids) && Entries(reply.recs, task.pc.ls.ids, task.pc.f, c.vol) == Some(cs)
  {
    hide Entries, Gone, Knows, FilterIds, ResumeRun, ResumeCreate, ResumeStart, ResumeStatus, ResumeRemovePod,
      WantRun, WantCreate, WantStart, WantStatus, WantRemovePod, Alone, IsListing, NoEmptyId, Distinct;
  }

  /** Main result: in every run with faults, ListContainers answers pairwise distinct ids, the
      status of each on the same store resolves to the same record and says the same, and a
      container whose CreateContainer has not completed its final update is not among them. */
  lemma ListIsSound(c: Config, run: seq<Sys>, i: nat, t: nat, done: Reply, reply: Reply, cs: seq<Container>)
    requires IsRun(c, run) && i + 1 < |run| && Lists(c, run[i], t, done, reply, run[i + 1], cs)
    ensures DistinctIds(cs)
    ensures forall j :: 0 <= j < |cs| ==> ShownRight(c, run[i], cs[j])
  {
    hide IsRun, Records, TaskOk, Call, Want, Advanced, Alone, EntryOf, Within, AliasInv, Distinct, NoEmptyId,
      DistinctIds, ShownRight;
    RunsAreSafe(c, run, i);
    ListReads(c, run[i], t, done, reply, run[i + 1], cs);
    var task, store := run[i].tasks[t], run[i].store;
    RecordsAlias(c, run[i]);
    ListedDistinct(store, reply.recs, task.pc.ls.ids, task.pc.f, c.vol);
    forall j | 0 <= j < |cs| ensures ShownRight(c, run[i], cs[j]) {
      var id := ShownFrom(reply.recs, task.pc.ls.ids, task.pc.f, c.vol, j);
      ShownWithin(reply.recs, store, id, task.pc.f, c.vol);
      ShownIsRight(c, run[i], id, task.pc.f, cs[j]);
    }
  }

  lemma RecordsAlias(c: Config, s: Sys)
    requires Records(c, s)
    ensures AliasInv(s.store)
  {
  }

  lemma ShownIsRight(c: Config, s: Sys, id: Id, f: Filter, shown: Container)
    requires Records(c, s) && id != [] && EntryOf(s.store, id, f, c.vol) == Shown(shown)
    ensures ShownRight(c, s, shown)
  {
    hide Records, EntryOf, AliasInv, StatusOf;
    RecordsAlias(c, s);
    ShownIsCompleted(c, s, id, f);
    EntryShape(s.store, id, f, c.vol);
    ListedAgreesWithStatus(s.store, id, f, c.vol);
  }

  // ---- calls that fail

  /** Records made before a call began stay as they are. */
  ghost predicate KeepsOlder(store: Store, born: nat, store': Store) {
    forall x <- store :: store[x].inst < born ==> x in store' && SameRecord(store[x], store'[x])
  }

  /** Everything below a record is younger. */
  lemma {:induction false} BelowIsYounger(c: Config, s: Sys, id: Id, x: Id)
    requires Records(c, s) && x in s.store && id <= x && id != []
    ensures id in s.store && s.store[id].inst <= s.store[x].inst
    decreases |x|
  {
    hide AliasInv, History, HasNetns, Attached, Prints, RunLabels;
    assert RecOk(c, s, x);
    if id == x {
    } else {
      assert id <= ParentOf(x);
      BelowIsYounger(c, s, id, ParentOf(x));
    }
  }

  lemma CleanupKeepsOlder(c: Config, s: Sys, id: Id, born: nat)
    requires Records(c, s) && id != [] && (id in s.store ==> born <= s.store[id].inst)
    ensures KeepsOlder(s.store, born, Without(s.store, id))
  {
    hide Records;
    forall x | x in s.store && s.store[x].inst < born ensures !(id <= x) {
      if id <= x { BelowIsYounger(c, s, id, x); }
    }
  }

  /** What one step of RunPodSandbox or CreateContainer may do: nothing that was there when the
      call began is touched, and nothing but its own record is added. A call that ends in an
      error leaves no record if and only if its Create was not done; one that ends after its
      cleanup, if and only if the Destroy was done or the record was gone before. */
  ghost predicate Contained(task: Task, done: Reply, store: Store, store': Store, task': Task) {
    && KeepsOlder(store, task.born, store')
    && (forall x <- store' :: x in store || (x == Subject(task.pc) && done.Created? && task.born <= store'[x].inst))
    && (task'.pc == Done(Error) ==> Fresh(task.pc) && (Still(store, store') <==> !done.Created?))
    && (task'.pc.Done? && task'.pc.result.FailedAfter? ==>
          && task.born <= task'.pc.result.inst && (task'.pc.result.cleaned ==> done.Ok?)
          && (NoInstance(store', task'.pc.result.inst) <==> done.Ok? || Subject(task.pc) !in store))
  }

  /** Main result. */
  lemma FailureIsContained(c: Config, run: seq<Sys>, i: nat, t: nat, done: Reply, reply: Reply)
    requires IsRun(c, run) && i + 1 < |run| && CallStep(c, run[i], t, done, reply, run[i + 1])
    requires run[i].tasks[t].pc.Run? || run[i].tasks[t].pc.Cr?
    ensures Contained(run[i].tasks[t], done, run[i].store, run[i + 1].store, run[i + 1].tasks[t])
  {
    hide IsRun, Inv, Call, Want, Advanced, Alone, Contained;
    RunsAreSafe(c, run, i);
    StepIsContained(c, run[i], t, done, reply, run[i + 1]);
  }

  lemma StepIsContained(c: Config, s: Sys, t: nat, done: Reply, reply: Reply, s': Sys)
    requires Inv(c, s) && CallStep(c, s, t, done, reply, s') && (s.tasks[t].pc.Run? || s.tasks[t].pc.Cr?)
    ensures Contained(s.tasks[t], done, s.store, s'.store, s'.tasks[t])
  {
    hide Records, Call, TaskOk, Homed, Want, Resume, Alone, KeepsOlder, NoInstance, Still, Fresh, Subject;
    StepKeepsOlder(c, s, t, done, reply, s');
    StepAddsOwn(c, s, s.tasks[t], done, s');
    if s'.tasks[t].pc == Done(Error) { StepEnds(c, s, s.tasks[t], done, reply, s'); }
    if s'.tasks[t].pc.Done? && s'.tasks[t].pc.result.FailedAfter? { CleanupEnds(c, s, s.tasks[t], done, reply, s'); }
  }

  lemma CleanupFlow(c: Config, pc: Pc, reply: Reply)
    requires (pc.Run? || pc.Cr?) && Resume(c, pc, reply).Done? && Resume(c, pc, reply).result.FailedAfter?
    ensures Creating(pc) && Want(c, pc) == Destroy(Subject(pc)) && Resume(c, pc, reply).result == FailedAfter(Subject(pc), Made(pc), reply.Ok?)
  {
    hide RunLabels, CreateLabels, ResumeStart, ResumeStatus, ResumeRemovePod, ResumeList, AliasOf, StoredNet,
      PodAddArgs;
  }

  lemma CleanupEnds(c: Config, s: Sys, task: Task, done: Reply, reply: Reply, s': Sys)
    requires (task.pc.Run? || task.pc.Cr?) && TaskOk(c, s, task) && Homed(task, s.store) && Heard(done, reply)
    requires Call(Want(c, task.pc), s.store, s.next, done, s'.store, s'.next)
    requires Resume(c, task.pc, reply).Done? && Resume(c, task.pc, reply).result.FailedAfter?
    ensures var end := Resume(c, task.pc, reply).result;
            && task.born <= end.inst && (end.cleaned ==> done.Ok?)
            && (NoInstance(s'.store, end.inst) <==> done.Ok? || Subject(task.pc) !in s.store)
  {
    hide Want, Resume, Subject, Creating, LabelsText, IsListing, NewRec, UpdatedRec, Placed, RunPromise, Prints,
      RunLabels, HasNetns;
    CleanupFlow(c, task.pc, reply);
    var id := Subject(task.pc);
    assert id in s.store && !done.Ok? ==> s'.store == s.store && s'.store[id].inst == Made(task.pc);
  }

  lemma StepAddsOwn(c: Config, s: Sys, task: Task, done: Reply, s': Sys)
    requires (task.pc.Run? || task.pc.Cr?) && TaskOk(c, s, task)
    requires Call(Want(c, task.pc), s.store, s.next, done, s'.store, s'.next)
    ensures forall x <- s'.store :: x in s.store || (x == Subject(task.pc) && done.Created? && task.born <= s'.store[x].inst)
  {
    hide RunLabels, CreateLabels, RunPromise, Knows, Gone, LabelsText, IsListing;
  }

  lemma ErrorFlow(c: Config, pc: Pc, reply: Reply)
    requires (pc.Run? || pc.Cr?) && Resume(c, pc, reply) == Done(Error)
    ensures Fresh(pc) && !Want(c, pc).Destroy? && (Want(c, pc).Create? ==> !reply.Created?)
    ensures Want(c, pc).Update? ==> Want(c, pc).labels.None? && Want(c, pc).net.None?
  {
    hide RunLabels, CreateLabels, ResumeStart, ResumeStatus, ResumeRemovePod, ResumeList, AliasOf, StoredNet,
      PodAddArgs;
  }

  lemma StepEnds(c: Config, s: Sys, task: Task, done: Reply, reply: Reply, s': Sys)
    requires (task.pc.Run? || task.pc.Cr?) && Resume(c, task.pc, reply) == Done(Error)
    requires Call(Want(c, task.pc), s.store, s.next, done, s'.store, s'.next)
    ensures Fresh(task.pc) && (Still(s.store, s'.store) <==> !done.Created?)
  {
    hide Want, Resume, Fresh, LabelsText, IsListing, SameButState;
    ErrorFlow(c, task.pc, reply);
    OnlyCreateCreates(Want(c, task.pc), s.store, s.next, done, s'.store, s'.next);
    if !done.Created? {
      QuietCall(Want(c, task.pc), s.store, s.next, done, s'.store, s'.next);
    }
  }

  lemma StepKeepsOlder(c: Config, s: Sys, t: nat, done: Reply, reply: Reply, s': Sys)
    requires Inv(c, s) && CallStep(c, s, t, done, reply, s') && (s.tasks[t].pc.Run? || s.tasks[t].pc.Cr?)
    ensures KeepsOlder(s.store, s.tasks[t].born, s'.store)
  {
    hide Records, TaskOk, Homed, Want, Resume, Alone, LabelsText;
    var task := s.tasks[t];
    var op := Want(c, task.pc);
    if !Loud(op, done) {
      QuietCall(op, s.store, s.next, done, s'.store, s'.next);
    } else if op.Destroy? {
      OwnTarget(c, s, task);
      CleanupKeepsOlder(c, s, op.id, task.born);
    } else if op.Update? {
      OwnTarget(c, s, task);
    }
  }

  lemma OwnTarget(c: Config, s: Sys, task: Task)
    requires (task.pc.Run? || task.pc.Cr?) && TaskOk(c, s, task)
    ensures var op := Want(c, task.pc);
            op.Destroy? || (op.Update? && (op.labels.Some? || op.net.Some?)) ==>
              op.id != [] && (op.id in s.store ==> task.born <= s.store[op.id].inst)
  {
    hide RunLabels, CreateLabels, RunPromise, Gone, LabelsText, Prints, StoredNet;
  }

  // ---- exits

  predicate ReportsExit(pc': Pc) {
    pc'.Done? && pc'.result.Reported? && pc'.result.c.state == EXITED
  }

  /** What one step of ContainerStatus may do: nothing, or the Destroy of an exited container with
      all below it. It reports the exit, and counts the instance as reported, if and only if it
      hears of the Destroy. */
  ghost predicate ReportsOrNothing(s: Sys, pc: Pc, done: Reply, reply: Reply, s': Sys, pc': Pc)
    requires pc.Ss?
  {
    && (ReportsExit(pc') <==> pc.ss.SsDestroy? && reply.Ok?)
    && if pc.ss.SsDestroy? && done.Ok? then
         && pc.id in s.store && s'.store == Without(s.store, pc.id) && pc.id !in s'.store && AliasOf(pc.id) !in s'.store
         && s'.reported == if ReportsExit(pc') then s.reported + [s.store[pc.id].inst] else s.reported
       else s'.store == s.store && s'.reported == s.reported
  }

  lemma StatusStep(c: Config, s: Sys, t: nat, done: Reply, reply: Reply, s': Sys)
    requires Inv(c, s) && CallStep(c, s, t, done, reply, s') && s.tasks[t].pc.Ss?
    ensures ReportsOrNothing(s, s.tasks[t].pc, done, reply, s', s'.tasks[t].pc)
  {
    hide Records, Alone, Pairs, Homed, TaskOk, Call, Want, Resume, ReportsExit;
    StatusMoves(c, s, s.tasks[t], done, reply, s');
    StatusExited(c, s, s.tasks[t]);
    StatusSays(c, s.tasks[t].pc, reply);
  }

  lemma StatusMoves(c: Config, s: Sys, task: Task, done: Reply, reply: Reply, s': Sys)
    requires task.pc.Ss? && TaskOk(c, s, task) && Call(Want(c, task.pc), s.store, s.next, done, s'.store, s'.next)
    ensures if task.pc.ss.SsDestroy? && done.Ok? then
              && task.pc.id in s.store && s.store[task.pc.id].inst == task.pc.ss.inst && s'.store == Without(s.store, task.pc.id)
              && task.pc.id !in s'.store && AliasOf(task.pc.id) !in s'.store
            else s'.store == s.store
  {
    hide Gone, WantRun, WantCreate, WantStart, WantRemovePod, WantList, LabelsText, IsListing, NewRec, UpdatedRec,
      Placed;
  }

  lemma StatusSays(c: Config, pc: Pc, reply: Reply)
    requires pc.Ss? && (pc.ss.SsDestroy? ==> pc.ss.c.state == EXITED)
    ensures ReportsExit(Resume(c, pc, reply)) <==> pc.ss.SsDestroy? && reply.Ok?
  {
    hide Conclude, ResumeRun, ResumeCreate, ResumeStart, ResumeRemovePod, ResumeList;
    if reply.Found? {
      if pc.ss.SsProps? {
        ConcludedAlive(c, pc.id, pc.ss.target, reply.rec, reply.rec.labels, reply.rec.inst);
      } else if pc.ss.SsLabels? {
        ConcludedAlive(c, pc.id, pc.ss.target, pc.ss.rec, reply.rec.labels, reply.rec.inst);
      }
    }
  }

  lemma StatusExited(c: Config, s: Sys, task: Task)
    requires task.pc.Ss? && TaskOk(c, s, task)
    ensures task.pc.ss.SsDestroy? ==> task.pc.ss.c.state == EXITED
  {
    hide Gone, Knows;
  }

  lemma ConcludedAlive(c: Config, id: Id, target: Id, rec: Rec, labels: string, inst: nat)
    ensures var pc := Conclude(c, id, target, rec, labels, inst);
            pc.Done? && pc.result.Reported? ==> pc.result.c.state != EXITED
  {
    hide ImageOf, FromPortoLabels;
  }

  lemma {:induction false} ReportedGrows(c: Config, run: seq<Sys>, i: nat, j: nat)
    requires IsRun(c, run) && i <= j < |run|
    ensures run[i].reported <= run[j].reported
  {
    hide Step, Inv;
    if i < j {
      ReportedGrows(c, run, i, j - 1);
      StepReports(c, run[j - 1], run[j]);
    }
  }

  lemma StepReports(c: Config, s: Sys, s': Sys)
    requires Step(c, s, s')
    ensures s.reported <= s'.reported
  {
    hide Call, Want, Resume, Alone, Begins;
  }

  /** Main result: no instance is reported twice, and none is in the store once it has been
      reported; so an exit is reported successfully at most once. */
  lemma ExitReportedOnce(c: Config, run: seq<Sys>, i: nat, j: nat)
    requires IsRun(c, run) && i <= j < |run|
    ensures forall a, b :: 0 <= a < b < |run[j].reported| ==> run[j].reported[a] != run[j].reported[b]
    ensures forall k <- run[i].reported :: NoInstance(run[j].store, k)
  {
    hide IsRun, TaskOk, HasNetns, Attached, Prints, RunLabels, AliasInv;
    RunsAreSafe(c, run, j);
    ReportedGrows(c, run, i, j);
    forall k, x | k in run[i].reported && x in run[j].store ensures run[j].store[x].inst != k {
      assert RecOk(c, run[j], x);
    }
  }

  lemma StatusReportsOrNothing(c: Config, run: seq<Sys>, i: nat, t: nat, done: Reply, reply: Reply)
    requires IsRun(c, run) && i + 1 < |run| && CallStep(c, run[i], t, done, reply, run[i + 1]) && run[i].tasks[t].pc.Ss?
    ensures ReportsOrNothing(run[i], run[i].tasks[t].pc, done, reply, run[i + 1], run[i + 1].tasks[t].pc)
  {
    hide IsRun, Inv, Call, Want, Advanced, Alone, ReportsOrNothing;
    RunsAreSafe(c, run, i);
    StatusStep(c, run[i], t, done, reply, run[i + 1]);
  }

  // ---- the removal of pods

  /** Stop, CNI DEL and the removal of the netns succeeded in this call, in this order. */
  ghost predicate Detached(c: Config, pod: string, info: PodInfo, trace: seq<Event>) {
    && |trace| == 7 && trace[0].op == Get([pod]) && trace[1].op == Get([pod])
    && trace[2] == Event(Stop([pod]), Ok) && trace[3] == Event(Outside(CniLoad), Ok)
    && trace[4].op == Outside(NetnsClosed) && trace[4].reply.Closed? && DelDone(c, pod, info, trace[4].reply.closed, trace[5])
    && trace[6] == Event(Outside(NetnsRemove), Ok)
  }

  /** Only a read and Stop came before: no CNI DEL. */
  ghost predicate Unplugged(pod: string, trace: seq<Event>) {
    |trace| == 2 && trace[0].op == Get([pod]) && trace[1] == Event(Stop([pod]), Ok)
  }

  /** Main result: when RemovePodSandbox destroys a record on a netns, all that came before it in
      the same call if and only if RunPodSandbox did not have its last update on the pod ahead
      when the net property was read; otherwise there was no CNI DEL at all. */
  lemma DetachedBeforeDestroyed(c: Config, run: seq<Sys>, i: nat, t: nat, done: Reply, reply: Reply)
    requires IsRun(c, run) && i + 1 < |run| && CallStep(c, run[i], t, done, reply, run[i + 1]) && run[i].tasks[t].pc.Rp?
    requires var pod := [run[i].tasks[t].pc.pod];
             pod in run[i].store && pod !in run[i + 1].store && HasNetns(run[i].store[pod].net)
    ensures var task := run[i].tasks[t];
            var pc := task.pc;
            && pc.rp.RpDestroy? && pc.rp.info.inst == run[i].store[[pc.pod]].inst
            && (Detached(c, pc.pod, pc.rp.info, task.trace) <==> !task.racing)
            && (!task.racing ==> pc.rp.info.net == run[i].store[[pc.pod]].net)
            && (task.racing ==> Unplugged(pc.pod, task.trace))
  {
    hide IsRun, Records, Call, Want, Resume, TaskOk, Homed, Alone, HasNetns, Detached, Unplugged;
    RunsAreSafe(c, run, i);
    var task := run[i].tasks[t];
    RemovalStep(c, run[i], task.pc, done, run[i + 1]);
    DestroyIsTold(c, run[i], task);
  }

  lemma DestroyIsTold(c: Config, s: Sys, task: Task)
    requires task.pc.Rp? && task.pc.rp.RpDestroy? && TaskOk(c, s, task)
    requires [task.pc.pod] in s.store && HasNetns(s.store[[task.pc.pod]].net)
    ensures var pc := task.pc;
            && pc.rp.info.inst == s.store[[pc.pod]].inst
            && (Detached(c, pc.pod, pc.rp.info, task.trace) <==> !task.racing)
            && (!task.racing ==> pc.rp.info.net == s.store[[pc.pod]].net)
            && (task.racing ==> Unplugged(pc.pod, task.trace))
  {
    hide HasNetns, Prints, RunLabels, Attached, DelDone, RunPromise;
  }

  /** A step of RemovePodSandbox other than its Destroy keeps every record with its labels and
      its net property, whether it fails or not. */
  lemma RemovalStep(c: Config, s: Sys, pc: Pc, reply: Reply, s': Sys)
    requires pc.Rp? && Call(Want(c, pc), s.store, s.next, reply, s'.store, s'.next)
    ensures Still(s.store, s'.store) || (pc.rp.RpDestroy? && reply.Ok? && s'.store == Without(s.store, [pc.pod]))
  {
    hide LabelsText, IsListing, WantRun, WantCreate, WantStart, WantStatus, WantList;
    if !(pc.rp.RpDestroy? && reply.Ok?) {
      QuietCall(Want(c, pc), s.store, s.next, reply, s'.store, s'.next);
    }
  }

  /** Main result: in whatever state faults and restarts have left the store, a RemovePodSandbox
      call in which nothing fails ends in success within nine steps, and the pod is gone. */
  lemma RetryCompletes(c: Config, run: seq<Sys>, i: nat, pod: string, moves: seq<Move>, pc: Pc, store: Store, next: nat)
    requires IsRun(c, run) && i < |run|
    requires Follows(c, run[i].store, run[i].next, Rp(pod, RpNet), moves, pc, store, next) && NoFault(moves)
    ensures |moves| + Rank(pc) <= 9
    ensures pc.Done? ==> pc.result.Success? && [pod] !in store && ([pod] !in run[i].store ==> |moves| == 1)
  {
    hide IsRun, Follows, RecOk, TaskOk, FromPortoLabels, NoFault;
    RunsAreSafe(c, run, i);
    RemovalOutcome(c, run[i].store, run[i].next, pod, moves, pc, store, next);
  }

  // ---- CNI DEL

  /** This DEL got the arguments of the ADD of the pod's own RunPodSandbox, or, if the netns is
      gone, the same without the path, if and only if the config agrees with itself. */
  ghost predicate UndoesAdd(c: Config, ran: Ran, closed: bool, args: CniArgs) {
    && Event(Outside(CniAdd(PodAddArgs(c, ran.r))), Ok) in ran.trace
    && (args == (if closed then PodAddArgs(c, ran.r).(netns := "") else PodAddArgs(c, ran.r)) <==> Agrees(ran.r.cfg))
  }

  lemma DelOfRun(c: Config, ran: Ran, pod: string, i: PodInfo, closed: bool, args: CniArgs)
    requires Attached(c, ran, pod, i.net) && Prints(i.labels, RunLabels(ran.r))
    requires DelArgs(pod, i.labels, i.net, c.netnsDir, closed) == Some(args)
    ensures UndoesAdd(c, ran, closed, args)
  {
    hide Prints, WithEngine, PodLabels, DelArgs, StoredNet, Agrees, IsNetnsName;
    var r := ran.r;
    DelGetsAddArgs("", [pod], r.cfg, r.text, r.image, c.netnsDir, r.mode.name, i.labels);
    AddIsAdd(c, r, r.mode.name);
  }

  lemma AddIsAdd(c: Config, r: RunReq, name: string)
    requires GoodRun(r) && r.mode == Netns(name)
    ensures Text([r.pod]) == r.pod && WellFormed([r.pod])
    ensures AddArgs("", [r.pod], r.cfg, c.netnsDir, name) == PodAddArgs(c, r)
  {
    JoinSingle(r.pod);
  }

  /** Main result: in every run, every CNI DEL undoes the CNI ADD of the RunPodSandbox call
      that made the pod. */
  lemma DelUndoesAdd(c: Config, run: seq<Sys>, i: nat, t: nat)
    requires IsRun(c, run) && i < |run| && t in run[i].tasks && run[i].tasks[t].pc.Rp? && run[i].tasks[t].pc.rp.RpDel?
    ensures var task := run[i].tasks[t];
            var info := task.pc.rp.info;
            && ([task.pc.pod] in run[i].store ==> run[i].store[[task.pc.pod]].inst == info.inst)
            && info.inst in run[i].runs && |task.trace| == 5 && task.trace[4].reply.Closed?
            && UndoesAdd(c, run[i].runs[info.inst], task.trace[4].reply.closed, task.pc.rp.args)
  {
    hide IsRun, Records, UndoesAdd, HasNetns, Attached, Prints, RunLabels, DelArgs, RunPromise, StartPromise,
      StatusPromise;
    RunsAreSafe(c, run, i);
    var task := run[i].tasks[t];
    assert TaskOk(c, run[i], task);
    DelOfRun(c, run[i].runs[task.pc.rp.info.inst], task.pc.pod, task.pc.rp.info, task.trace[4].reply.closed, task.pc.rp.args);
  }
}
