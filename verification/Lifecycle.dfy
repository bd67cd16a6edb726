/** The handlers at work together: every call in flight takes its steps at its own time, any
    call to Porto may fail, before or after it took effect, containers change state and
    disappear, and the shim restarts.

    completed, runs and reported are the history that the results are stated with.
 */
module Lifecycle {
  import opened GoStrings
  import opened Labels
  import opened Network
  import opened Ids
  import opened Porto
  import opened Listing
  import opened Handlers

  datatype Event = Event(op: Op, reply: Reply)

  /** A call in flight: where it is, what it did, the next instance when it began; racing tells
      that RemovePodSandbox read the net property while RunPodSandbox had its last update ahead. */
  datatype Task = Task(pc: Pc, trace: seq<Event>, born: nat, racing: bool)

  /** A RunPodSandbox call that came to its end. */
  datatype Ran = Ran(r: RunReq, trace: seq<Event>)

  datatype Sys = Sys(
    store: Store, next: nat, tasks: map<nat, Task>, completed: set<nat>, runs: map<nat, Ran>, reported: seq<nat>)

  const INITIAL := Sys(map[], 0, map[], {}, map[], [])

  // ---- the steps

  predicate GoodRun(r: RunReq) {
    IsSegment(r.pod) && r.text == r.pod && (r.mode.Netns? ==> IsNetnsName(r.mode.name))
  }

  predicate GoodCreate(q: CreateReq) {
    q.podId != [] && q.cid != PRIVILEGED && q.text == Text(CntId(q))
  }

  /** Where a call may begin. createID gives segments that are not the helper's. */
  ghost predicate Begins(pc: Pc) {
    match pc
    case Run(r, at) => GoodRun(r) && at == RunImage
    case Cr(q, at) => GoodCreate(q) && at == CrPrepare
    case Ex(id, e, at) => id != [] && e != PRIVILEGED && at == ExEnv
    case Ls(_, at) => at == LsIds
    case _ => exists id :: pc in {BeginStart(id), BeginStatus(id), BeginRemove(id), BeginRemovePod(id)}
  }

  /** No other call is at work on the id. */
  ghost predicate Alone(s: Sys, t: nat)
    requires t in s.tasks
  {
    forall u <- s.tasks :: u != t && !s.tasks[u].pc.Done? && !Fresh(s.tasks[u].pc)
      ==> Subject(s.tasks[u].pc) != Subject(s.tasks[t].pc)
  }

  ghost predicate UnderCreation(s: Sys, t: nat, id: Id) {
    exists u <- s.tasks :: u != t && Opening(s.tasks[u].pc) && Subject(s.tasks[u].pc) == id
  }

  ghost function Advanced(c: Config, s: Sys, t: nat, reply: Reply): Task
    requires t in s.tasks && !s.tasks[t].pc.Done?
  {
    var task := s.tasks[t];
    Task(Resume(c, task.pc, reply), task.trace + [Event(Want(c, task.pc), reply)], task.born,
         if task.pc.Rp? && task.pc.rp.RpNet? then UnderCreation(s, t, Subject(task.pc)) else task.racing)
  }

  function Completed(s: Sys, pc: Pc, done: Reply): set<nat> {
    if pc.Cr? && pc.cr.CrUpdate? && done.Ok? then s.completed + {pc.cr.k} else s.completed
  }

  function Runs(s: Sys, task: Task, done: Reply): map<nat, Ran> {
    if task.pc.Run? && task.pc.run.RunUpdate? && done.Ok? && task.pc.r.mode.Netns?
    then s.runs[task.pc.run.k := Ran(task.pc.r, task.trace)]
    else s.runs
  }

  function ReportedBy(s: Sys, pc: Pc, reply: Reply): seq<nat> {
    if pc.Ss? && pc.ss.SsDestroy? && reply.Ok? then s.reported + [pc.ss.inst] else s.reported
  }

  /** The shim hears what was done, or it hears of a failure. */
  predicate Heard(done: Reply, reply: Reply) {
    reply == done || reply == Fault
  }

  /** One step of call t: Porto does the one thing and answers the other. */
  ghost predicate CallStep(c: Config, s: Sys, t: nat, done: Reply, reply: Reply, s': Sys) {
    && t in s.tasks && !s.tasks[t].pc.Done? && Heard(done, reply)
    && Call(Want(c, s.tasks[t].pc), s.store, s.next, done, s'.store, s'.next)
    && (Draws(s.tasks[t].pc) && done.Created? ==> Alone(s, t))
    && s'.tasks == s.tasks[t := Advanced(c, s, t, reply)]
    && s'.completed == Completed(s, s.tasks[t].pc, done)
    && s'.runs == Runs(s, s.tasks[t], done)
    && s'.reported == ReportedBy(s, s.tasks[t].pc, reply)
  }

  ghost predicate BeginStep(s: Sys, t: nat, pc: Pc, s': Sys) {
    t !in s.tasks && Begins(pc) && s' == s.(tasks := s.tasks[t := Task(pc, [], s.next, false)])
  }

  /** Containers change state, and Porto takes away a container by itself. */
  ghost predicate PortoStep(s: Sys, s': Sys) {
    && s' == s.(store := s'.store)
    && (SameButState(s.store, s'.store) || exists id :: s'.store == Without(s.store, id))
  }

  ghost predicate RestartStep(s: Sys, s': Sys) {
    s' == s.(tasks := map[])
  }

  ghost predicate Step(c: Config, s: Sys, s': Sys) {
    || (exists t, pc :: BeginStep(s, t, pc, s'))
    || (exists t, done, reply :: CallStep(c, s, t, done, reply, s'))
    || PortoStep(s, s')
    || RestartStep(s, s')
  }

  ghost predicate IsRun(c: Config, run: seq<Sys>) {
    && run != [] && run[0] == INITIAL
    && forall i :: 0 < i < |run| ==> Step(c, run[i - 1], run[i])
  }

  // ---- the invariant: records

  /** What a record with a netns owes to the RunPodSandbox call that made it. */
  ghost predicate Attached(c: Config, ran: Ran, pod: string, net: string) {
    && GoodRun(ran.r) && ran.r.mode.Netns? && ran.r.pod == pod
    && net == StoredNet(c.netnsDir, ran.r.mode.name)
    && Event(Outside(CniAdd(PodAddArgs(c, ran.r))), Ok) in ran.trace
  }

  ghost predicate RecOk(c: Config, s: Sys, id: Id)
    requires id in s.store
  {
    var r := s.store[id];
    && r.inst < s.next && r.inst !in s.reported
    && (|id| >= 2 ==> r.labels == "" || r.inst in s.completed)
    && (|id| >= 2 ==> ParentOf(id) in s.store && s.store[ParentOf(id)].inst < r.inst)
    && (HasNetns(r.net) ==> r.inst in s.runs)
    && (r.inst in s.runs ==> |id| == 1 && Attached(c, s.runs[r.inst], id[0], r.net) && Prints(r.labels, RunLabels(s.runs[r.inst].r)))
  }

  ghost predicate Unique(store: Store) {
    forall x <- store, y <- store :: store[x].inst == store[y].inst ==> x == y
  }

  ghost predicate History(s: Sys) {
    && (forall k <- s.completed :: k < s.next)
    && (forall k <- s.runs :: k < s.next)
    && (forall i :: 0 <= i < |s.reported| ==> s.reported[i] < s.next)
    && (forall i, j :: 0 <= i < j < |s.reported| ==> s.reported[i] != s.reported[j])
  }

  ghost predicate Records(c: Config, s: Sys) {
    && AliasInv(s.store) && Unique(s.store) && History(s)
    && forall id <- s.store :: RecOk(c, s, id)
  }

  // ---- the invariant: calls in flight

  /** How many steps a removal has done. */
  function Steps(at: RpAt): nat {
    match at
    case RpNet => 0
    case RpLabels(_) => 1
    case RpStop(i) => if HasNetns(i.net) then 2 else 1
    case RpLoad(_) => 3
    case RpClosed(_) => 4
    case RpDel(_, _) => 5
    case RpNetns(_) => 6
    case RpDestroy(i) => if HasNetns(i.net) then 7 else 2
    case RpRoot => 0
  }

  /** What a removal has done so far; each of it succeeded. */
  ghost predicate Told(c: Config, pod: string, at: RpAt, trace: seq<Event>)
    requires !at.RpNet? && !at.RpRoot?
  {
    && |trace| == Steps(at) && trace != [] && trace[0].op == Get([pod])
    && (forall j :: 0 <= j < |trace| ==> !trace[j].reply.Fault? && !trace[j].reply.NotExist?)
    && if HasNetns(at.info.net) then
         && (|trace| > 1 ==> trace[1].op == Get([pod]))
         && (|trace| > 2 ==> trace[2] == Event(Stop([pod]), Ok))
         && (|trace| > 3 ==> trace[3] == Event(Outside(CniLoad), Ok))
         && (|trace| > 4 ==> trace[4].op == Outside(NetnsClosed) && trace[4].reply.Closed?)
         && (at.RpDel? ==> DelArgs(pod, at.info.labels, at.info.net, c.netnsDir, trace[4].reply.closed) == Some(at.args))
         && (|trace| > 5 ==> DelDone(c, pod, at.info, trace[4].reply.closed, trace[5]))
         && (|trace| > 6 ==> trace[6] == Event(Outside(NetnsRemove), Ok))
       else
         && !at.RpLabels? && |trace| <= 2
         && (|trace| > 1 ==> trace[1] == Event(Stop([pod]), Ok))
  }

  ghost predicate DelDone(c: Config, pod: string, i: PodInfo, closed: bool, e: Event) {
    && e.reply == Ok && e.op.Outside? && e.op.step.CniDel?
    && DelArgs(pod, i.labels, i.net, c.netnsDir, closed) == Some(e.op.step.del)
  }

  /** What a removal has read. */
  ghost predicate PodRead(c: Config, pod: string, at: RpAt, runs: map<nat, Ran>)
    requires !at.RpNet? && !at.RpRoot?
  {
    HasNetns(at.info.net) ==>
      && at.info.inst in runs && Attached(c, runs[at.info.inst], pod, at.info.net)
      && (!at.RpLabels? ==> Prints(at.info.labels, RunLabels(runs[at.info.inst].r)))
  }

  ghost predicate RunPromise(c: Config, r: RunReq, at: RunAt, trace: seq<Event>) {
    && GoodRun(r)
    && (at.RunUpdate? && r.mode.Netns? ==> Event(Outside(CniAdd(PodAddArgs(c, r))), Ok) in trace)
  }

  ghost predicate StartPromise(id: Id, at: StAt) {
    && |id| == 2
    && (!at.StAlias? && !at.StPlain? ==> at.target == id || (at.target == AliasOf(id) && (at.StStart? || at.StLabels?)))
  }

  ghost predicate StatusPromise(id: Id, at: SsAt) {
    && |id| == 2
    && (!at.SsAlias? && !at.SsPlain? ==> at.target == id || at.target == AliasOf(id))
    && (at.SsLabels? ==> at.target == AliasOf(id))
    && (at.SsDestroy? ==> at.c.state == EXITED)
  }

  ghost predicate RemovalPromise(c: Config, pod: string, at: RpAt, trace: seq<Event>, runs: map<nat, Ran>) {
    if at.RpNet? then trace == []
    else at.RpRoot? || (Told(c, pod, at, trace) && PodRead(c, pod, at, runs))
  }

  /** What a call knows whatever the others do. */
  ghost predicate Promise(c: Config, task: Task, runs: map<nat, Ran>, next: nat) {
    && task.born <= next
    && (Creating(task.pc) ==> task.born <= Made(task.pc) < next)
    && (Removing(task.pc) && task.racing ==> !HasNetns(task.pc.rp.info.net))
    && match task.pc
       case Run(r, at) => RunPromise(c, r, at, task.trace)
       case Cr(q, _) => GoodCreate(q)
       case St(id, at) => StartPromise(id, at)
       case Ss(id, at) => StatusPromise(id, at)
       case Rp(pod, at) => RemovalPromise(c, pod, at, task.trace, runs)
       case Rc(id, _) => |id| == 2
       case Ls(_, at) => at.LsProps? ==> Distinct(at.ids)
       case Ex(id, e, _) => id != [] && e != PRIVILEGED
       case Done(result) => result.FailedAfter? ==> task.born <= result.inst < next
  }

  /** What a call knows of the record it is about. */
  ghost predicate Knows(task: Task, rec: Rec) {
    && (Creating(task.pc) ==> rec.inst == Made(task.pc))
    && match task.pc
       case Run(r, _) => Opening(task.pc) ==> rec.net == INHERITED && Prints(rec.labels, RunLabels(r))
       case Cr(_, at) => CrMade(at) && !at.CrCleanup? ==> rec.labels == ""
       case St(_, _) => Helping(task.pc) ==> IsPriv(rec)
       case Ss(_, at) => at.SsDestroy? ==> rec.inst == at.inst
       case Rp(_, at) =>
         Removing(task.pc) ==> rec.inst == at.info.inst && (HasNetns(at.info.net) || !task.racing ==> rec.net == at.info.net)
       case _ => true
  }

  /** A cleaned-up failure leaves nothing behind. */
  ghost predicate Gone(task: Task, store: Store) {
    task.pc.Done? && task.pc.result.FailedAfter? && task.pc.result.cleaned ==> NoInstance(store, task.pc.result.inst)
  }

  ghost predicate NoInstance(store: Store, k: nat) {
    forall x <- store :: store[x].inst != k
  }

  ghost predicate TaskOk(c: Config, s: Sys, task: Task) {
    && Promise(c, task, s.runs, s.next)
    && (Subject(task.pc) in s.store ==> Knows(task, s.store[Subject(task.pc)]))
    && Gone(task, s.store)
  }

  /** Two calls do not create the same id, and RunPodSandbox does not come to its last update
      on a pod whose net property has been read for good. */
  predicate Apart(t: Task, u: Task) {
    (Creating(t.pc) && Creating(u.pc)) || (Opening(t.pc) && Removing(u.pc) && !u.racing) ==> Subject(t.pc) != Subject(u.pc)
  }

  ghost predicate Pairs(tasks: map<nat, Task>) {
    forall t <- tasks, u <- tasks :: t != u ==> Apart(tasks[t], tasks[u])
  }

  /** The instance that a call created is nowhere else. */
  ghost predicate Homed(task: Task, store: Store) {
    Creating(task.pc) ==> forall x <- store :: store[x].inst == Made(task.pc) ==> x == Subject(task.pc)
  }

  ghost predicate Inv(c: Config, s: Sys) {
    && Records(c, s)
    && Pairs(s.tasks)
    && (forall t <- s.tasks :: TaskOk(c, s, s.tasks[t]))
    && (forall t <- s.tasks :: Homed(s.tasks[t], s.store))
  }
}
