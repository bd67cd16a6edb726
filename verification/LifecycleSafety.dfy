/** The invariant holds in every reachable state. */
module LifecycleSafety {
  import opened GoStrings
  import opened Labels
  import opened Network
  import opened Ids
  import opened Porto
  import opened Listing
  import opened Handlers
  import opened Lifecycle
  import opened LifecycleRecords
  import opened LifecycleTasks

  ghost predicate OthersOk(c: Config, s: Sys, t: nat, s': Sys) {
    forall u <- s.tasks :: u != t ==> TaskOk(c, s', s.tasks[u])
  }

  /** Calls that change nothing of interest. */
  lemma QuietStep(c: Config, s: Sys, t: nat, done: Reply, reply: Reply, s': Sys)
    requires Inv(c, s) && CallStep(c, s, t, done, reply, s') && !Loud(Want(c, s.tasks[t].pc), done)
    ensures Records(c, s') && OthersOk(c, s, t, s')
  {
    hide Resume, Records, RecOk, TaskOk, Pairs, Call, Alone, CreateLabels;
    QuietCall(Want(c, s.tasks[t].pc), s.store, s.next, done, s'.store, s'.next);
    QuietHistory(c, s, s.tasks[t], done);
    StillRecords(c, s, s');
    forall u | u in s.tasks && u != t ensures TaskOk(c, s', s.tasks[u]) {
      Undisturbed(c, s, s.tasks[u], s');
    }
  }

  lemma QuietHistory(c: Config, s: Sys, task: Task, reply: Reply)
    requires !task.pc.Done? && !Loud(Want(c, task.pc), reply)
    ensures Completed(s, task.pc, reply) == s.completed && Runs(s, task, reply) == s.runs && ReportedBy(s, task.pc, reply) == s.reported
  {
    hide CreateLabels, RunLabels, StoredNet, AliasOf, Cri;
  }

  lemma DestroyStep(c: Config, s: Sys, t: nat, done: Reply, reply: Reply, s': Sys)
    requires Inv(c, s) && CallStep(c, s, t, done, reply, s') && Want(c, s.tasks[t].pc).Destroy? && done.Ok?
    ensures Records(c, s') && OthersOk(c, s, t, s')
  {
    hide Resume, Want, Records, RecOk, TaskOk, Pairs, Alone;
    var id := Want(c, s.tasks[t].pc).id;
    DestroyHistory(c, s, t, done, reply, s');
    WithoutRecords(c, s, id, s');
    forall u | u in s.tasks && u != t ensures TaskOk(c, s', s.tasks[u]) {
      Undisturbed(c, s, s.tasks[u], s');
    }
  }

  /** ContainerStatus destroys the instance that it read. */
  lemma DestroyHistory(c: Config, s: Sys, t: nat, done: Reply, reply: Reply, s': Sys)
    requires CallStep(c, s, t, done, reply, s') && Want(c, s.tasks[t].pc).Destroy? && done.Ok? && TaskOk(c, s, s.tasks[t])
    ensures s'.completed == s.completed && s'.runs == s.runs
    ensures var id := Want(c, s.tasks[t].pc).id;
            s'.reported == s.reported || (id in s.store && s'.reported == s.reported + [s.store[id].inst])
  {
    hide Resume, CreateLabels, RunLabels, StoredNet, Told, PodRead, RunPromise, Gone, IsPriv, HasNetns, Prints;
  }

  lemma PrintedIsReadable(r: Rec, labels: map<GoString, GoString>, annotations: map<GoString, GoString>)
    requires Prints(r.labels, WithEngine(labels, annotations))
    ensures Readable(r)
  {
    hide Prints, WithEngine, FromPortoLabels;
    LabelsRoundTrip(r.labels, labels, annotations);
  }

  /** What a handler creates: its own record, or a helper. */
  lemma CreatesWhat(c: Config, pc: Pc)
    requires !pc.Done? && Want(c, pc).Create?
    ensures || (pc.Run? && Draws(pc) && Want(c, pc) == Create([pc.r.pod], Some(RunLabels(pc.r)), false))
            || (!pc.Run? && Draws(pc) && Want(c, pc) == Create(Subject(pc), None, pc.Ex?))
            || (!Draws(pc) && pc.St? && pc.st.StCreate? && Want(c, pc) == Create(pc.st.target + [PRIVILEGED], None, false))
  {
    hide RunLabels, CreateLabels, AliasOf, StoredNet, PodAddArgs, Cri;
  }

  lemma CreatesNoHistory(s: Sys, task: Task, done: Reply)
    requires done.Created?
    ensures Completed(s, task.pc, done) == s.completed && Runs(s, task, done) == s.runs && ReportedBy(s, task.pc, done) == s.reported
  {
  }

  /** Its labels, if it is not a helper: those of a pod, or none. */
  lemma DrawnLabels(c: Config, s: Sys, task: Task, id: Id, r: Rec)
    requires Draws(task.pc) && TaskOk(c, s, task) && id == Subject(task.pc)
    requires (task.pc.Run? && Prints(r.labels, RunLabels(task.pc.r))) || (!task.pc.Run? && r.labels == "")
    ensures Readable(r) && !Privileged(id) && (|id| >= 2 ==> r.labels == "")
  {
    hide FromPortoLabels, Prints, WithEngine, PodLabels, RunPromise, Gone, Knows;
    EmptyLabels();
    SubjectIsNoHelper(c, task, s.runs, s.next);
    if task.pc.Run? {
      var q := task.pc.r;
      PrintedIsReadable(r, PodLabels(q.cfg, q.text, q.image), q.cfg.annotations);
    }
  }

  /** A helper comes below a container that is marked. */
  lemma HelperParent(c: Config, s: Sys, task: Task)
    requires task.pc.St? && task.pc.st.StCreate? && TaskOk(c, s, task)
    ensures var id := task.pc.st.target + [PRIVILEGED];
            |id| == 3 && Privileged(id) && (ParentOf(id) in s.store ==> IsPriv(s.store[ParentOf(id)]))
  {
    hide IsPriv, Gone;
    assert ParentOf(task.pc.st.target + [PRIVILEGED]) == task.pc.st.target;
  }

  lemma Creates(c: Config, s: Sys, task: Task, done: Reply, s': Sys)
    requires !task.pc.Done? && TaskOk(c, s, task) && done.Created?
    requires Call(Want(c, task.pc), s.store, s.next, done, s'.store, s'.next)
    ensures Want(c, task.pc).Create?
    ensures var id := Want(c, task.pc).id;
            && id in s'.store && Readable(s'.store[id]) && (|id| >= 2 ==> s'.store[id].labels == "")
            && (Privileged(id) ==> |id| == 3 && ParentOf(id) in s.store && IsPriv(s.store[ParentOf(id)]))
            && (Privileged(id) || (Draws(task.pc) && id == Subject(task.pc)))
            && Completed(s, task.pc, done) == s.completed && Runs(s, task, done) == s.runs && ReportedBy(s, task.pc, done) == s.reported
  {
    hide Want, FromPortoLabels, Prints, RunLabels, IsListing, SameButState, TaskOk, IsPriv, Draws, Completed, Runs,
      ReportedBy, Privileged;
    OnlyCreateCreates(Want(c, task.pc), s.store, s.next, done, s'.store, s'.next);
    CreatesWhat(c, task.pc);
    CreatesNoHistory(s, task, done);
    EmptyLabels();
    var id := Want(c, task.pc).id;
    if Draws(task.pc) {
      DrawnLabels(c, s, task, id, s'.store[id]);
    } else {
      HelperParent(c, s, task);
    }
  }

  lemma CreateStep(c: Config, s: Sys, t: nat, done: Reply, reply: Reply, s': Sys)
    requires Inv(c, s) && CallStep(c, s, t, done, reply, s') && done.Created?
    ensures Records(c, s') && OthersOk(c, s, t, s')
  {
    hide Resume, Want, Records, RecOk, TaskOk, Pairs, IsPriv, Readable, Privileged, LabelsText, Subject, Draws, Fresh;
    Creates(c, s, s.tasks[t], done, s');
    var id := Want(c, s.tasks[t].pc).id;
    CreateRecords(c, s, id, s');
    forall u | u in s.tasks && u != t ensures TaskOk(c, s', s.tasks[u]) {
      var pc := s.tasks[u].pc;
      if Fresh(pc) || pc.Done? {
        if Subject(pc) in s'.store { Idle(s.tasks[u], s'.store[Subject(pc)]); }
      } else {
        NoHelperSubject(c, s, s.tasks[u]);
      }
      Undisturbed(c, s, s.tasks[u], s');
    }
  }

  lemma NoHelperSubject(c: Config, s: Sys, u: Task)
    requires TaskOk(c, s, u)
    ensures !Privileged(Subject(u.pc))
  {
    SubjectIsNoHelper(c, u, s.runs, s.next);
  }

  /** An update that changes something is the final update of CreateContainer or, with a
      netns, of RunPodSandbox. */
  lemma Updates(c: Config, pc: Pc)
    requires !pc.Done? && Want(c, pc).Update? && (Want(c, pc).labels.Some? || Want(c, pc).net.Some?)
    ensures || (pc.Cr? && pc.cr.CrUpdate? && Want(c, pc) == Update(CntId(pc.q), Some(CreateLabels(pc.q)), None, false))
            || (pc.Run? && pc.run.RunUpdate? && pc.r.mode.Netns?
                && Want(c, pc) == Update([pc.r.pod], None, Some(StoredNet(c.netnsDir, pc.r.mode.name)), true))
  {
    hide CreateLabels, RunLabels, StoredNet, AliasOf, Cri, PodAddArgs;
  }

  lemma LabelsStep(c: Config, s: Sys, t: nat, done: Reply, reply: Reply, s': Sys)
    requires Inv(c, s) && CallStep(c, s, t, done, reply, s') && s.tasks[t].pc.Cr? && s.tasks[t].pc.cr.CrUpdate? && done.Ok?
    requires Want(c, s.tasks[t].pc) == Update(CntId(s.tasks[t].pc.q), Some(CreateLabels(s.tasks[t].pc.q)), None, false)
    ensures Records(c, s') && OthersOk(c, s, t, s')
  {
    hide Resume, Want, Records, RecOk, TaskOk, Prints, WithEngine, ContainerLabels, FromPortoLabels, Alone;
    var task := s.tasks[t];
    var id, q := CntId(task.pc.q), task.pc.q;
    CreatingKnows(c, s, task);
    PrintedIsReadable(s'.store[id], ContainerLabels(q), q.annotations);
    LabelsRecords(c, s, id, s');
    forall u | u in s.tasks && u != t ensures TaskOk(c, s', s.tasks[u]) {
      assert Apart(task, s.tasks[u]);
      if Subject(s.tasks[u].pc) == id {
        OtherKnows(c, s, s.tasks[u]);
        LabelsKnown(task, s.tasks[u], s.store[id], s'.store[id]);
      }
      Undisturbed(c, s, s.tasks[u], s');
    }
  }

  lemma CreatingKnows(c: Config, s: Sys, task: Task)
    requires TaskOk(c, s, task) && task.pc.Cr? && task.pc.cr.CrUpdate?
    ensures var id := CntId(task.pc.q);
            GoodCreate(task.pc.q) && |id| >= 2 && !Privileged(id) && Creating(task.pc) && Subject(task.pc) == id
            && (id in s.store ==> s.store[id].inst == task.pc.cr.k && s.store[id].labels == "")
  {
  }

  lemma OtherKnows(c: Config, s: Sys, u: Task)
    requires TaskOk(c, s, u) && Subject(u.pc) in s.store
    ensures Knows(u, s.store[Subject(u.pc)]) && (u.pc.St? || u.pc.Ss? ==> |u.pc.id| == 2)
  {
    hide Knows, Subject, RunPromise, RemovalPromise;
  }

  lemma NetStep(c: Config, s: Sys, t: nat, done: Reply, reply: Reply, s': Sys)
    requires Inv(c, s) && CallStep(c, s, t, done, reply, s') && s.tasks[t].pc.Run? && s.tasks[t].pc.run.RunUpdate? && done.Ok?
    requires s.tasks[t].pc.r.mode.Netns?
    requires Want(c, s.tasks[t].pc) == Update([s.tasks[t].pc.r.pod], None, Some(StoredNet(c.netnsDir, s.tasks[t].pc.r.mode.name)), true)
    ensures Records(c, s') && OthersOk(c, s, t, s')
  {
    hide Resume, Want, Records, RecOk, TaskOk, Prints, RunLabels, StoredNet, Alone, Attached;
    var task := s.tasks[t];
    var id := [task.pc.r.pod];
    RunningKnows(c, s, task);
    NetRecords(c, s, id, Ran(task.pc.r, task.trace), s');
    forall u | u in s.tasks && u != t ensures TaskOk(c, s', s.tasks[u]) {
      assert Apart(task, s.tasks[u]);
      if Subject(s.tasks[u].pc) == id {
        OtherKnows(c, s, s.tasks[u]);
        NetKnown(task, s.tasks[u], s.store[id], s'.store[id]);
      }
      Undisturbed(c, s, s.tasks[u], s');
    }
  }

  lemma RunningKnows(c: Config, s: Sys, task: Task)
    requires TaskOk(c, s, task) && task.pc.Run? && task.pc.run.RunUpdate? && task.pc.r.mode.Netns?
    ensures var r, id := task.pc.r, [task.pc.r.pod];
            Opening(task.pc) && Subject(task.pc) == id
            && Attached(c, Ran(r, task.trace), r.pod, StoredNet(c.netnsDir, r.mode.name))
            && (id in s.store ==> s.store[id].inst == task.pc.run.k && s.store[id].net == INHERITED && Prints(s.store[id].labels, RunLabels(r)))
  {
    hide StoredNet, Prints, RunLabels;
  }

  // ---- every step

  lemma CallKeepsInv(c: Config, s: Sys, t: nat, done: Reply, reply: Reply, s': Sys)
    requires Inv(c, s) && CallStep(c, s, t, done, reply, s')
    ensures Inv(c, s')
  {
    hide Resume, Want, Records, TaskOk, Pairs, Alone, Call;
    var op := Want(c, s.tasks[t].pc);
    if !Loud(op, done) {
      QuietStep(c, s, t, done, reply, s');
    } else if op.Create? {
      CreateStep(c, s, t, done, reply, s');
    } else if op.Destroy? {
      DestroyStep(c, s, t, done, reply, s');
    } else {
      Updates(c, s.tasks[t].pc);
      if s.tasks[t].pc.Cr? { LabelsStep(c, s, t, done, reply, s'); } else { NetStep(c, s, t, done, reply, s'); }
    }
    PairsKept(c, s, t, done, reply, s');
    OwnKept(c, s, t, done, reply, s');
    HomesKept(c, s, t, done, reply, s');
    assert forall u <- s'.tasks :: u != t ==> s'.tasks[u] == s.tasks[u];
  }

  lemma HomesKept(c: Config, s: Sys, t: nat, done: Reply, reply: Reply, s': Sys)
    requires Inv(c, s) && CallStep(c, s, t, done, reply, s')
    ensures forall u <- s'.tasks :: Homed(s'.tasks[u], s'.store)
  {
    hide Resume, Want, Records, TaskOk, Homed, Pairs, Alone, Call;
    CallOlder(Want(c, s.tasks[t].pc), s.store, s.next, done, s'.store, s'.next);
    forall u | u in s'.tasks ensures Homed(s'.tasks[u], s'.store) {
      if u == t {
        HomedOwn(c, s, s.tasks[t], done, reply, s', s'.tasks[t]);
      } else {
        HomedElsewhere(c, s, s.tasks[u], s'.store);
      }
    }
  }

  /** While RunPodSandbox has its last update ahead, the pod is on no netns. */
  lemma NoNetnsYet(c: Config, s: Sys, t: nat, id: Id)
    requires UnderCreation(s, t, id) && id in s.store && forall u <- s.tasks :: TaskOk(c, s, s.tasks[u])
    ensures !HasNetns(s.store[id].net)
  {
    hide HasNetns, Prints, RunLabels, Promise, Gone;
    InheritedHasNoNetns();
    var u :| u in s.tasks && u != t && Opening(s.tasks[u].pc) && Subject(s.tasks[u].pc) == id;
    assert TaskOk(c, s, s.tasks[u]);
  }

  lemma OwnKept(c: Config, s: Sys, t: nat, done: Reply, reply: Reply, s': Sys)
    requires Records(c, s) && CallStep(c, s, t, done, reply, s') && forall u <- s.tasks :: TaskOk(c, s, s.tasks[u])
    requires Records(c, s')
    ensures TaskOk(c, s', s'.tasks[t])
  {
    hide Resume, Want, Records, TaskOk, Call, Runs, UnderCreation, Takes, HasNetns, Subject, Draws;
    var task, task' := s.tasks[t], s'.tasks[t];
    if UnderCreation(s, t, Subject(task.pc)) && Subject(task.pc) in s.store { NoNetnsYet(c, s, t, Subject(task.pc)); }
    if reply == done {
      HonestKept(c, s, task, reply, s', task');
    } else if Takes(Want(c, task.pc), done) {
      NoEmptyRecord(c, s');
      LostOwn(c, s, task, done, s', task');
    } else {
      NotTaken(c, s, task, done, s');
      NoRuns(s, task);
      HonestKept(c, s, task, Fault, s', task');
    }
  }

  lemma NoRuns(s: Sys, task: Task)
    ensures Runs(s, task, Fault) == s.runs
  {
  }

  lemma NoEmptyRecord(c: Config, s: Sys)
    requires Records(c, s)
    ensures [] !in s.store
  {
    hide RecOk;
    assert [] in s.store ==> Placed(s.store, []);
  }

  lemma HonestKept(c: Config, s: Sys, task: Task, reply: Reply, s': Sys, task': Task)
    requires Records(c, s) && OwnStep(c, s, task, reply, s', task')
    ensures TaskOk(c, s', task')
  {
    hide Records, OwnStep, TaskOk;
    NotDone(c, s, task, reply, s', task');
    match task.pc {
      case Run(_, _) => OwnRun(c, s, task, reply, s', task');
      case Cr(_, at) =>
        if CrMade(at) { OwnCreate(c, s, task, reply, s', task'); } else { OwnCreateFirst(c, s, task, reply, s', task'); }
      case St(_, _) => OwnStart(c, s, task, reply, s', task');
      case Ss(_, _) => OwnStatus(c, s, task, reply, s', task');
      case Rp(_, at) =>
        if at.RpNet? { OwnRemoveFirst(c, s, task, reply, s', task'); } else { OwnRemovePod(c, s, task, reply, s', task'); }
      case _ => OwnOther(c, s, task, reply, s', task');
    }
  }

  lemma NotDone(c: Config, s: Sys, task: Task, reply: Reply, s': Sys, task': Task)
    requires OwnStep(c, s, task, reply, s', task')
    ensures !task.pc.Done?
  {
    hide TaskOk, Call, Want, Resume, Runs;
  }

  lemma BeginKeepsInv(c: Config, s: Sys, t: nat, pc: Pc, s': Sys)
    requires Inv(c, s) && BeginStep(s, t, pc, s')
    ensures Inv(c, s')
  {
    hide Records, RecOk, TaskOk, Begins;
    var task := s'.tasks[t];
    BeginOk(c, s, pc);
    StillRecords(c, s, s');
    forall u | u in s.tasks ensures TaskOk(c, s', s.tasks[u]) {
      Undisturbed(c, s, s.tasks[u], s');
    }
    forall u | u in s.tasks ensures Apart(task, s'.tasks[u]) && Apart(s'.tasks[u], task) {
    }
    TaskAnywhere(c, s, task, s');
  }

  lemma BeginOk(c: Config, s: Sys, pc: Pc)
    requires Begins(pc)
    ensures TaskOk(c, s, Task(pc, [], s.next, false)) && !Creating(pc) && !Opening(pc) && !Removing(pc)
  {
  }

  lemma TaskAnywhere(c: Config, s: Sys, task: Task, s': Sys)
    requires TaskOk(c, s, task) && s' == s.(tasks := s'.tasks)
    ensures TaskOk(c, s', task)
  {
  }

  lemma PortoKeepsInv(c: Config, s: Sys, s': Sys)
    requires Inv(c, s) && PortoStep(s, s')
    ensures Inv(c, s')
  {
    hide Records, RecOk, TaskOk;
    if SameButState(s.store, s'.store) {
      StillRecords(c, s, s');
    } else {
      var id :| s'.store == Without(s.store, id);
      WithoutRecords(c, s, id, s');
    }
    forall u | u in s.tasks ensures TaskOk(c, s', s.tasks[u]) && Homed(s.tasks[u], s'.store) {
      Undisturbed(c, s, s.tasks[u], s');
      HomedElsewhere(c, s, s.tasks[u], s'.store);
    }
  }

  lemma RestartKeepsInv(c: Config, s: Sys, s': Sys)
    requires Inv(c, s) && RestartStep(s, s')
    ensures Inv(c, s')
  {
    hide Records, RecOk, TaskOk;
    StillRecords(c, s, s');
  }

  lemma StepKeepsInv(c: Config, s: Sys, s': Sys)
    requires Inv(c, s) && Step(c, s, s')
    ensures Inv(c, s')
  {
    hide Inv, BeginStep, CallStep, PortoStep, RestartStep;
    if t, pc :| BeginStep(s, t, pc, s') {
      BeginKeepsInv(c, s, t, pc, s');
    } else if t, done, reply :| CallStep(c, s, t, done, reply, s') {
      CallKeepsInv(c, s, t, done, reply, s');
    } else if PortoStep(s, s') {
      PortoKeepsInv(c, s, s');
    } else {
      RestartKeepsInv(c, s, s');
    }
  }

  /** Main result: the invariant holds in every state of every run. */
  lemma {:induction false} RunsAreSafe(c: Config, run: seq<Sys>, i: nat)
    requires IsRun(c, run) && i < |run|
    ensures Inv(c, run[i])
  {
    hide Inv, Step;
    if i == 0 {
      InitialInv(c);
    } else {
      RunsAreSafe(c, run, i - 1);
      StepKeepsInv(c, run[i - 1], run[i]);
    }
  }

  lemma InitialInv(c: Config)
    ensures Inv(c, INITIAL)
  {
  }
}
