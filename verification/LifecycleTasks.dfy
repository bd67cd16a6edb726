/** What a step does to the invariant on the calls in flight. */
module LifecycleTasks {
  import opened GoStrings
  import opened Labels
  import opened Network
  import opened Ids
  import opened Porto
  import opened Listing
  import opened Handlers
  import opened Lifecycle
  import opened LifecycleRecords

  // ---- the other calls

  ghost predicate RunsKept(runs: map<nat, Ran>, runs': map<nat, Ran>) {
    forall k <- runs :: k in runs' && runs'[k] == runs[k]
  }

  /** Records that were there before, and new instances. */
  ghost predicate Older(store: Store, next: nat, store': Store) {
    forall x <- store' :: store'[x].inst >= next || (x in store && store[x].inst == store'[x].inst)
  }

  /** A call stays right when its own record does, or when it still knows the record. */
  lemma Undisturbed(c: Config, s: Sys, u: Task, s': Sys)
    requires TaskOk(c, s, u) && s.next <= s'.next && RunsKept(s.runs, s'.runs) && Older(s.store, s.next, s'.store)
    requires Subject(u.pc) in s'.store ==>
               || Knows(u, s'.store[Subject(u.pc)])
               || (Subject(u.pc) in s.store && SameRecord(s.store[Subject(u.pc)], s'.store[Subject(u.pc)]))
    ensures TaskOk(c, s', u)
  {
    hide Subject, Prints, RunLabels, HasNetns, FromPortoLabels, Told, Attached, RunPromise, StartPromise,
      StatusPromise, GoodCreate;
  }

  lemma Idle(u: Task, r: Rec)
    requires Fresh(u.pc) || u.pc.Done?
    ensures Knows(u, r)
  {
  }

  /** The labels come to a record that no other call relies on. */
  lemma LabelsKnown(t: Task, u: Task, r: Rec, r': Rec)
    requires t.pc.Cr? && Creating(t.pc) && GoodCreate(t.pc.q) && Apart(t, u) && Subject(u.pc) == Subject(t.pc)
    requires Knows(u, r) && r.labels == "" && r'.inst == r.inst
    ensures Knows(u, r')
  {
    hide Prints, RunLabels, FromPortoLabels, HasNetns;
    EmptyLabels();
  }

  /** The netns comes to a record that no other call relies on. */
  lemma NetKnown(t: Task, u: Task, r: Rec, r': Rec)
    requires Opening(t.pc) && Apart(t, u) && Subject(u.pc) == Subject(t.pc)
    requires u.pc.St? || u.pc.Ss? ==> |u.pc.id| == 2
    requires Knows(u, r) && r.net == INHERITED && r'.inst == r.inst && r'.labels == r.labels
    ensures Knows(u, r')
  {
    hide Prints, RunLabels, FromPortoLabels, HasNetns;
    InheritedHasNoNetns();
  }

  // ---- where calls go

  lemma Flow(c: Config, pc: Pc, reply: Reply)
    requires !pc.Done?
    ensures Creating(Resume(c, pc, reply)) ==> (Creating(pc) || (Draws(pc) && reply.Created?)) && Subject(Resume(c, pc, reply)) == Subject(pc)
    ensures Opening(Resume(c, pc, reply)) ==> Opening(pc) || (Draws(pc) && reply.Created?)
    ensures Removing(Resume(c, pc, reply)) ==> (Removing(pc) || pc == Rp(pc.pod, RpNet)) && Subject(Resume(c, pc, reply)) == Subject(pc)
  {
    hide Entries, FilterIds, Report, IsPriv, Readable, DelArgs, HasNetns, AliasOf, Privileged;
  }

  lemma PairsKept(c: Config, s: Sys, t: nat, done: Reply, reply: Reply, s': Sys)
    requires Pairs(s.tasks) && CallStep(c, s, t, done, reply, s')
    ensures Pairs(s'.tasks)
  {
    hide Resume, Want, Subject, Call, Creating, Opening, Removing, Completed, Runs, ReportedBy;
    var task, task' := s.tasks[t], s'.tasks[t];
    forall u | u in s'.tasks && u != t ensures Apart(s'.tasks[u], task') && Apart(task', s'.tasks[u]) {
      ApartKept(c, s, t, done, reply, s', u);
    }
    assert forall u <- s'.tasks :: u != t ==> s'.tasks[u] == s.tasks[u];
  }

  lemma AtWork(pc: Pc)
    requires Creating(pc) || Removing(pc)
    ensures !pc.Done? && !Fresh(pc)
  {
  }

  lemma ApartKept(c: Config, s: Sys, t: nat, done: Reply, reply: Reply, s': Sys, u: nat)
    requires Pairs(s.tasks) && CallStep(c, s, t, done, reply, s') && u in s.tasks && u != t
    ensures Apart(s.tasks[u], s'.tasks[t]) && Apart(s'.tasks[t], s.tasks[u])
  {
    hide Resume, Want, Subject, Call, Creating, Opening, Removing, Completed, Runs, ReportedBy, Draws, Fresh;
    var task, task' := s.tasks[t], s'.tasks[t];
    Flow(c, task.pc, reply);
    assert Apart(s.tasks[u], task) && Apart(task, s.tasks[u]);
    if Creating(s.tasks[u].pc) || Removing(s.tasks[u].pc) { AtWork(s.tasks[u].pc); }
    if Opening(task'.pc) { OpeningIsCreating(task'.pc); }
  }

  lemma OpeningIsCreating(pc: Pc)
    requires Opening(pc)
    ensures Creating(pc)
  {
  }

  lemma SubjectIsNoHelper(c: Config, task: Task, runs: map<nat, Ran>, next: nat)
    requires Promise(c, task, runs, next)
    ensures !Privileged(Subject(task.pc))
  {
    hide RunPromise, RemovalPromise;
  }

  // ---- the call itself

  /** What t has after the step. */
  ghost predicate OwnStep(c: Config, s: Sys, task: Task, reply: Reply, s': Sys, task': Task) {
    && !task.pc.Done? && TaskOk(c, s, task)
    && Call(Want(c, task.pc), s.store, s.next, reply, s'.store, s'.next)
    && task'.pc == Resume(c, task.pc, reply) && task'.trace == task.trace + [Event(Want(c, task.pc), reply)] && task'.born == task.born
    && (!(task.pc.Rp? && task.pc.rp.RpNet?) ==> task'.racing == task.racing)
    && (task.pc.Rp? && task'.racing && Subject(task.pc) in s.store && task.pc.rp.RpNet? ==> !HasNetns(s.store[Subject(task.pc)].net))
    && s'.runs == Runs(s, task, reply)
  }

  lemma OwnRun(c: Config, s: Sys, task: Task, reply: Reply, s': Sys, task': Task)
    requires Records(c, s) && OwnStep(c, s, task, reply, s', task') && task.pc.Run?
    ensures TaskOk(c, s', task')
  {
    hide IsUp, AllStopped, RunLabels, Prints, RecOk, AliasInv, History, IsListing, Placed, SameButState, StartPromise,
      StatusPromise, RemovalPromise, IsPriv, HasNetns, RunNet, PodAddArgs, ResumeCreate, WantCreate, ResumeStart,
      WantStart, ResumeStatus, WantStatus, ResumeRemovePod, WantRemovePod, ResumeList, WantList, GoodRun;
  }

  /** Up to the Create. */
  lemma OwnCreateFirst(c: Config, s: Sys, task: Task, reply: Reply, s': Sys, task': Task)
    requires Records(c, s) && OwnStep(c, s, task, reply, s', task') && task.pc.Cr? && !CrMade(task.pc.cr)
    ensures TaskOk(c, s', task')
  {
    hide IsUp, AllStopped, CreateLabels, RecOk, AliasInv, History, IsListing, Placed, SameButState, RunPromise,
      StartPromise, StatusPromise, RemovalPromise, IsPriv, HasNetns, Prints, ResumeRun, WantRun, ResumeStart,
      WantStart, ResumeStatus, WantStatus, ResumeRemovePod, WantRemovePod, ResumeList, WantList, GoodCreate, CntId,
      AliasOf;
  }

  lemma OwnCreate(c: Config, s: Sys, task: Task, reply: Reply, s': Sys, task': Task)
    requires Records(c, s) && OwnStep(c, s, task, reply, s', task') && task.pc.Cr? && CrMade(task.pc.cr)
    ensures TaskOk(c, s', task')
  {
    hide IsUp, AllStopped, CreateLabels, RecOk, AliasInv, History, IsListing, Placed, SameButState, RunPromise,
      StartPromise, StatusPromise, RemovalPromise, IsPriv, HasNetns, Prints, ResumeRun, WantRun, ResumeStart,
      WantStart, ResumeStatus, WantStatus, ResumeRemovePod, WantRemovePod, ResumeList, WantList, GoodCreate, CntId,
      AliasOf;
  }

  /** Only a record that is marked leads to the helper, and only its own name does. */
  lemma OwnStart(c: Config, s: Sys, task: Task, reply: Reply, s': Sys, task': Task)
    requires Records(c, s) && OwnStep(c, s, task, reply, s', task') && task.pc.St?
    ensures TaskOk(c, s', task')
  {
    hide IsUp, AllStopped, IsPriv, Readable, LabelsText, UpdatedRec, IsListing, NewRec, Placed, RunPromise,
      StatusPromise, RemovalPromise, AliasInv, Unique, RecOk, History, AliasOf, HelperThere, ResumeRun, WantRun,
      ResumeCreate, WantCreate, ResumeStatus, WantStatus, ResumeRemovePod, WantRemovePod, ResumeList, WantList;
    if AliasOf(task.pc.id) in s.store { HelperIsNotMarked(s.store, task.pc.id); }
  }

  lemma Concluded(c: Config, id: Id, target: Id, rec: Rec, labels: string, inst: nat)
    ensures var pc := Conclude(c, id, target, rec, labels, inst);
            || (pc.Done? && !pc.result.FailedAfter?)
            || (pc.Ss? && pc.id == id && pc.ss.SsDestroy? && pc.ss.target == target && pc.ss.inst == inst && pc.ss.c.state == EXITED)
  {
    hide ImageOf, FromPortoLabels;
  }

  lemma OwnStatus(c: Config, s: Sys, task: Task, reply: Reply, s': Sys, task': Task)
    requires Records(c, s) && OwnStep(c, s, task, reply, s', task') && task.pc.Ss?
    ensures TaskOk(c, s', task')
  {
    hide IsUp, AllStopped, Conclude, AliasInv, Unique, RecOk, History, ResumeRun, WantRun, ResumeCreate, WantCreate,
      ResumeStart, WantStart, ResumeRemovePod, WantRemovePod, ResumeList, WantList;
    var at := task.pc.ss;
    if at.SsProps? && reply.Found? {
      Concluded(c, task.pc.id, at.target, reply.rec, reply.rec.labels, reply.rec.inst);
    } else if at.SsLabels? && reply.Found? {
      Concluded(c, task.pc.id, at.target, at.rec, reply.rec.labels, reply.rec.inst);
    }
  }

  lemma ToldNext(c: Config, pod: string, at: RpAt, trace: seq<Event>, reply: Reply, at': RpAt)
    requires ResumeRemovePod(c, pod, at, reply) == Rp(pod, at') && !at.RpRoot? && !at'.RpRoot?
    requires if at.RpNet? then trace == [] else Told(c, pod, at, trace)
    ensures !at'.RpNet? && Told(c, pod, at', trace + [Event(WantRemovePod(pod, at), reply)])
  {
    hide HasNetns, DelArgs, Readable;
  }

  /** The net property is read. */
  lemma OwnRemoveFirst(c: Config, s: Sys, task: Task, reply: Reply, s': Sys, task': Task)
    requires Records(c, s) && OwnStep(c, s, task, reply, s', task') && task.pc.Rp? && task.pc.rp.RpNet?
    ensures TaskOk(c, s', task')
  {
    hide IsUp, AllStopped, Readable, AliasInv, Unique, History, LabelsText, UpdatedRec, IsListing, NewRec, Placed,
      SameButState, Without, RunPromise, StartPromise, StatusPromise, HasNetns, Attached, Prints, RunLabels, DelArgs,
      Told, ResumeRun, WantRun, ResumeCreate, WantCreate, ResumeStart, WantStart, ResumeStatus, WantStatus,
      ResumeList, WantList;
    if [task.pc.pod] in s.store { assert RecOk(c, s, [task.pc.pod]); }
    if task'.pc.Rp? {
      ToldNext(c, task.pc.pod, task.pc.rp, task.trace, reply, task'.pc.rp);
    }
  }

  lemma OwnRemovePod(c: Config, s: Sys, task: Task, reply: Reply, s': Sys, task': Task)
    requires Records(c, s) && OwnStep(c, s, task, reply, s', task') && task.pc.Rp? && !task.pc.rp.RpNet?
    ensures TaskOk(c, s', task')
  {
    hide IsUp, AllStopped, Readable, AliasInv, Unique, History, LabelsText, UpdatedRec, IsListing, NewRec, Placed,
      RunPromise, StartPromise, StatusPromise, HasNetns, Attached, Prints, RunLabels, DelArgs, Told, ResumeRun,
      WantRun, ResumeCreate, WantCreate, ResumeStart, WantStart, ResumeStatus, WantStatus, ResumeList, WantList;
    if [task.pc.pod] in s.store { assert RecOk(c, s, [task.pc.pod]); }
    if task'.pc.Rp? && !task'.pc.rp.RpRoot? {
      ToldNext(c, task.pc.pod, task.pc.rp, task.trace, reply, task'.pc.rp);
    }
  }

  lemma {:induction false} KeepDistinct(ids: seq<Id>, target: Id)
    requires Distinct(ids)
    ensures Distinct(Keep(ids, target)) && forall id <- Keep(ids, target) :: id in ids
  {
    if ids != [] {
      var n := |ids| - 1;
      KeepDistinct(ids[..n], target);
      assert ids[n] !in ids[..n];
    }
  }

  lemma FilterIdsDistinct(ids: seq<Id>, f: Filter)
    requires Distinct(ids)
    ensures Distinct(FilterIds(ids, f))
  {
    hide Distinct, Keep;
    if f.id.Some? { KeepDistinct(ids, f.id.value); }
    if f.pod.Some? { KeepDistinct(if f.id.Some? then Keep(ids, f.id.value) else ids, [f.pod.value]); }
  }

  lemma OwnOther(c: Config, s: Sys, task: Task, reply: Reply, s': Sys, task': Task)
    requires Records(c, s) && OwnStep(c, s, task, reply, s', task') && (task.pc.Rc? || task.pc.Ls? || task.pc.Ex?)
    ensures TaskOk(c, s', task')
  {
    hide IsUp, AllStopped, LabelsText, UpdatedRec, Placed, RunPromise, StartPromise, StatusPromise, RemovalPromise,
      Distinct, AliasInv, History, RecOk, Entries, FilterIds, ResumeRun, WantRun, ResumeCreate, WantCreate,
      ResumeStart, WantStart, ResumeStatus, WantStatus, ResumeRemovePod, WantRemovePod;
    if task.pc.Ls? && reply.Listing? && Distinct(reply.ids) { FilterIdsDistinct(reply.ids, task.pc.f); }
  }

  // ---- answers that are lost

  /** The call did something. */
  predicate Takes(op: Op, done: Reply) {
    || (op.Create? && done.Created?)
    || ((op.Update? || op.SetEnv? || op.Start? || op.Stop? || op.Destroy?) && done.Ok?)
  }

  /** A call that took no effect might as well have failed. */
  lemma NotTaken(c: Config, s: Sys, task: Task, done: Reply, s': Sys)
    requires !task.pc.Done? && Call(Want(c, task.pc), s.store, s.next, done, s'.store, s'.next) && !Takes(Want(c, task.pc), done)
    ensures Call(Want(c, task.pc), s.store, s.next, Fault, s'.store, s'.next) && Runs(s, task, done) == s.runs
  {
    hide LabelsText, IsListing, NewRec, UpdatedRec, Placed, RunLabels, CreateLabels, PodAddArgs, StoredNet, AliasOf,
      Cri, WantStart, WantStatus, WantList, WantCreate;
  }

  /** A lost answer ends the call, or takes it to its cleanup. */
  lemma LostFlow(c: Config, pc: Pc, done: Reply)
    requires !pc.Done? && Takes(Want(c, pc), done)
    ensures var pc' := Resume(c, pc, Fault);
            || (pc'.Done? && !pc'.result.FailedAfter?)
            || (pc'.Done? && Creating(pc) && pc'.result == FailedAfter(Subject(pc), Made(pc), false))
            || (pc.Run? && Creating(pc) && pc' == Run(pc.r, RunCleanup(Made(pc))))
            || (pc.Cr? && Creating(pc) && pc' == Cr(pc.q, CrCleanup(Made(pc))))
  {
    hide RunLabels, CreateLabels, PodAddArgs, StoredNet, AliasOf, Cri, Entries, FilterIds, IsPriv, Readable, DelArgs,
      HasNetns, Conclude, HelperThere, Privileged;
  }

  /** Calls keep the instance of the record that a handler created. */
  lemma SameInstance(op: Op, store: Store, next: nat, done: Reply, store': Store, next': nat, id: Id)
    requires Call(op, store, next, done, store', next') && id in store' && !done.Created?
    ensures id in store && store'[id].inst == store[id].inst
    ensures next' == next
  {
    hide LabelsText, IsListing, NewRec;
  }

  lemma NextGrows(op: Op, store: Store, next: nat, done: Reply, store': Store, next': nat)
    requires Call(op, store, next, done, store', next')
    ensures next <= next'
  {
    hide LabelsText, IsListing, NewRec, UpdatedRec, Placed, SameButState;
  }

  lemma CreatingCreatesNot(c: Config, pc: Pc)
    requires Creating(pc)
    ensures !Want(c, pc).Create?
  {
    hide RunLabels, CreateLabels, PodAddArgs, StoredNet;
  }

  lemma OnlyCreateCreates(op: Op, store: Store, next: nat, done: Reply, store': Store, next': nat)
    requires Call(op, store, next, done, store', next')
    ensures done.Created? ==> op.Create?
  {
    hide LabelsText, IsListing, NewRec, UpdatedRec, Placed, SameButState;
  }

  lemma LostOwn(c: Config, s: Sys, task: Task, done: Reply, s': Sys, task': Task)
    requires !task.pc.Done? && TaskOk(c, s, task) && Takes(Want(c, task.pc), done)
    requires Call(Want(c, task.pc), s.store, s.next, done, s'.store, s'.next)
    requires task'.pc == Resume(c, task.pc, Fault) && task'.born == task.born && [] !in s'.store
    ensures TaskOk(c, s', task')
  {
    hide Want, Resume, Call, Takes, RunPromise, StartPromise, StatusPromise, RemovalPromise, HasNetns, Prints,
      RunLabels, IsPriv;
    LostFlow(c, task.pc, done);
    NextGrows(Want(c, task.pc), s.store, s.next, done, s'.store, s'.next);
    if Creating(task'.pc) {
      CreatingCreatesNot(c, task.pc);
      OnlyCreateCreates(Want(c, task.pc), s.store, s.next, done, s'.store, s'.next);
      if Subject(task'.pc) in s'.store {
        SameInstance(Want(c, task.pc), s.store, s.next, done, s'.store, s'.next, Subject(task'.pc));
      }
      if task.pc.Run? { CleanupPromise(c, task, task'); }
    }
  }

  lemma CleanupPromise(c: Config, task: Task, task': Task)
    requires task.pc.Run? && task'.pc.Run? && task'.pc.r == task.pc.r && task'.pc.run.RunCleanup?
    requires RunPromise(c, task.pc.r, task.pc.run, task.trace)
    ensures RunPromise(c, task'.pc.r, task'.pc.run, task'.trace)
  {
    hide PodAddArgs;
  }

  // ---- where instances are

  lemma CallOlder(op: Op, store: Store, next: nat, done: Reply, store': Store, next': nat)
    requires Call(op, store, next, done, store', next')
    ensures Older(store, next, store')
  {
    hide LabelsText, IsListing, Placed;
  }

  lemma HomedElsewhere(c: Config, s: Sys, u: Task, store': Store)
    requires TaskOk(c, s, u) && Homed(u, s.store) && Older(s.store, s.next, store')
    ensures Homed(u, store')
  {
    hide Subject, Knows, Gone, RunPromise, StartPromise, StatusPromise, RemovalPromise, HasNetns;
  }

  lemma MadeKept(c: Config, pc: Pc, reply: Reply)
    requires !pc.Done? && Creating(Resume(c, pc, reply))
    ensures if Creating(pc) then Made(Resume(c, pc, reply)) == Made(pc) else reply.Created? && Made(Resume(c, pc, reply)) == reply.inst
    ensures !Creating(pc) ==> Want(c, pc).Create? && Want(c, pc).id == Subject(pc)
  {
    hide Entries, FilterIds, Report, IsPriv, Readable, DelArgs, HasNetns, AliasOf, Privileged, RunLabels,
      CreateLabels, PodAddArgs, StoredNet;
  }

  lemma HomedOwn(c: Config, s: Sys, task: Task, done: Reply, reply: Reply, s': Sys, task': Task)
    requires Records(c, s) && !task.pc.Done? && TaskOk(c, s, task) && Homed(task, s.store) && Heard(done, reply)
    requires Call(Want(c, task.pc), s.store, s.next, done, s'.store, s'.next) && task'.pc == Resume(c, task.pc, reply)
    ensures Homed(task', s'.store)
  {
    hide Want, Resume, Call, TaskOk, Subject, Creating, Records;
    CallOlder(Want(c, task.pc), s.store, s.next, done, s'.store, s'.next);
    if Creating(task'.pc) {
      MadeKept(c, task.pc, reply);
      Flow(c, task.pc, reply);
      if Creating(task.pc) {
        HomedElsewhere(c, s, task, s'.store);
      } else {
        CreatedHere(Want(c, task.pc), s.store, s.next, done, s'.store, s'.next);
        AllBelowNext(c, s);
      }
    }
  }

  lemma AllBelowNext(c: Config, s: Sys)
    requires Records(c, s)
    ensures forall x <- s.store :: s.store[x].inst < s.next
  {
    hide AliasInv, History, Unique, HasNetns, Attached, Prints, RunLabels;
    forall x | x in s.store ensures s.store[x].inst < s.next { assert RecOk(c, s, x); }
  }

  lemma CreatedHere(op: Op, store: Store, next: nat, done: Reply, store': Store, next': nat)
    requires Call(op, store, next, done, store', next') && op.Create? && done.Created?
    ensures done.inst == next && op.id in store' && store' == store[op.id := store'[op.id]]
  {
    hide LabelsText;
  }
}
