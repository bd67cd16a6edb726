/** The handlers as Portoshim writes them (cmd/portoshim/runtime_mapper.go,
    cmd/portoshim/privileged.go): code that calls Porto step by step. Each method is proved to
    take the steps of its handler and no others, and so to keep what Paths and LifecycleLaws
    say about them.
 */
module Shim {
  import opened GoStrings
  import GoPaths
  import opened Labels
  import opened Network
  import opened Ids
  import opened Porto
  import opened Listing
  import opened Handlers
  import opened Lifecycle
  import opened LifecycleRecords
  import opened LifecycleTasks
  import opened LifecycleSafety
  import opened Paths
  import opened EndToEnd
  import Daemon

  // ---- calls one after the other are a run of the machine

  /** Task t is at pc, and no other task is in flight. */
  ghost predicate AtWork(s: Sys, t: nat, pc: Pc) {
    && (forall u <- s.tasks :: u <= t && (u != t ==> s.tasks[u].pc.Done?))
    && (if t in s.tasks then s.tasks[t].pc == pc else pc.Done?)
  }

  ghost predicate OnRun(c: Config, run: seq<Sys>, t: nat, pc: Pc, store: Store, next: nat) {
    && IsRun(c, run) && AtWork(run[|run| - 1], t, pc)
    && run[|run| - 1].store == store && run[|run| - 1].next == next
  }

  lemma Extend(c: Config, run: seq<Sys>, s: Sys)
    requires IsRun(c, run) && Step(c, run[|run| - 1], s)
    ensures IsRun(c, run + [s])
  {
    hide Step;
    var longer := run + [s];
    forall i | 0 < i < |longer| ensures Step(c, longer[i - 1], longer[i]) {
      if i < |run| { assert Step(c, run[i - 1], run[i]); }
    }
  }

  lemma NextCall(c: Config, run: seq<Sys>, t: nat, pc: Pc, store: Store, next: nat, first: Pc) returns (s: Sys)
    requires OnRun(c, run, t, pc, store, next) && pc.Done? && Begins(first)
    ensures OnRun(c, run + [s], t + 1, first, store, next)
  {
    hide Begins, CallStep, PortoStep, RestartStep;
    var last := run[|run| - 1];
    s := last.(tasks := last.tasks[t + 1 := Task(first, [], last.next, false)]);
    assert BeginStep(last, t + 1, first, s);
    Extend(c, run, s);
  }

  lemma Take(c: Config, s: Sys, t: nat, done: Reply, reply: Reply, store': Store, next': nat) returns (s': Sys)
    requires t in s.tasks && !s.tasks[t].pc.Done? && Call(Want(c, s.tasks[t].pc), s.store, s.next, done, store', next')
    requires (Draws(s.tasks[t].pc) && done.Created? ==> Alone(s, t)) && Heard(done, reply)
    ensures CallStep(c, s, t, done, reply, s') && Step(c, s, s')
    ensures s'.store == store' && s'.next == next' && s'.tasks == s.tasks[t := Advanced(c, s, t, reply)]
  {
    hide Begins, BeginStep, PortoStep, RestartStep, Want, Resume, Call, Alone, Draws;
    s' := Sys(store', next', s.tasks[t := Advanced(c, s, t, reply)], Completed(s, s.tasks[t].pc, done),
              Runs(s, s.tasks[t], done), ReportedBy(s, s.tasks[t].pc, reply));
    assert CallStep(c, s, t, done, reply, s');
  }

  lemma NextStep(c: Config, run: seq<Sys>, t: nat, pc: Pc, store: Store, next: nat, done: Reply, reply: Reply, store': Store, next': nat)
    returns (s: Sys)
    requires OnRun(c, run, t, pc, store, next) && !pc.Done? && Call(Want(c, pc), store, next, done, store', next') && Heard(done, reply)
    ensures OnRun(c, run + [s], t, Resume(c, pc, reply), store', next')
  {
    hide Step, CallStep, Want, Resume, Call, Subject, Fresh, Draws;
    s := Take(c, run[|run| - 1], t, done, reply, store', next');
    Extend(c, run, s);
  }

  lemma RunsKeepAlias(c: Config, run: seq<Sys>, t: nat, pc: Pc, store: Store, next: nat)
    requires OnRun(c, run, t, pc, store, next)
    ensures AliasInv(store) && IsTree(store)
  {
    hide Step, RecOk, TaskOk;
    RunsAreSafe(c, run, |run| - 1);
  }

  lemma RequestsBegin(id: Id)
    ensures Begins(BeginStart(id)) && Begins(BeginStatus(id)) && Begins(BeginRemove(id)) && Begins(BeginRemovePod(id))
  {
  }

  lemma RunBegins(r: RunReq)
    requires GoodRun(r)
    ensures Begins(Run(r, RunImage))
  {
  }

  lemma CreateBegins(q: CreateReq)
    requires GoodCreate(q)
    ensures Begins(Cr(q, CrPrepare))
  {
  }

  lemma CreationKeys(store0: Store, id: Id, has: bool, pc: Pc, store: Store)
    requires CreationSoFar(store0, id, has, pc, store) && !has
    ensures store.Keys == store0.Keys
  {
    hide OfCreation;
  }

  lemma DestroyCall(id: Id, store: Store, next: nat, reply: Reply, store': Store, next': nat)
    requires Call(Destroy(id), store, next, reply, store', next')
    ensures if reply.Ok? then id in store && store' == Without(store, id) else store' == store
  {
    hide LabelsText, IsListing, NewRec, UpdatedRec, Placed;
  }

  /** What removeNetNS hands to the plugin, from the config it was given. */
  function ArgsOfDel(pod: string, netns: string, config: Parsed, closed: bool, dir: string): CniArgs {
    CniArgs(pod, if closed then "" else GoPaths.JoinPath(dir, netns), Network.Get(config.labels, POD_NAMESPACE),
            Network.Get(config.labels, POD_NAME), Network.Get(config.labels, POD_UID), config.annotations)
  }

  lemma ArgsAreDelArgs(pod: string, info: PodInfo, netns: string, config: Parsed, closed: bool, dir: string)
    requires netns == NetNS(info.net, ["netns"]) && FromPortoLabels(info.labels) == Some(config)
    ensures DelArgs(pod, info.labels, info.net, dir, closed) == Some(ArgsOfDel(pod, netns, config, closed, dir))
  {
    hide NetNS, FromPortoLabels;
  }

  class Portoshim {
    const c: Config
    var store: Store
    var next: nat

    // The call at hand: where it began, what it did, and where it is.
    ghost var store0: Store
    ghost var next0: nat
    ghost var pc0: Pc
    ghost var moves: seq<Move>
    ghost var pc: Pc

    // All calls so far, as a run of the machine.
    ghost var run: seq<Sys>
    ghost var t: nat

    ghost predicate Valid()
      reads this
    {
      && Follows(c, store0, next0, pc0, moves, pc, store, next)
      && OnRun(c, run, t, pc, store, next)
    }

    /** Nothing is in flight. */
    ghost predicate Idle()
      reads this
    {
      Valid() && pc.Done?
    }

    constructor (c: Config)
      ensures Idle() && this.c == c && store == map[]
    {
      this.c, store, next := c, map[], 0;
      store0, next0, pc0, moves, pc := map[], 0, Done(Success), [], Done(Success);
      run, t := [INITIAL], 0;
    }

    ghost method Begin(first: Pc)
      requires Idle() && Begins(first)
      modifies this`store0, this`next0, this`pc0, this`moves, this`pc, this`run, this`t
      ensures Valid() && store0 == store && next0 == next && pc0 == first == pc && moves == []
      ensures AliasInv(store) && IsTree(store)
    {
      hide Begins, OnRun, AliasInv, IsTree;
      RunsKeepAlias(c, run, t, pc, store, next);
      var s := NextCall(c, run, t, pc, store, next, first);
      store0, next0, pc0, moves, pc := store, next, first, [], first;
      run, t := run + [s], t + 1;
    }

    /** One call to Porto or to something outside. The answer may get lost on its way. */
    method Do(op: Op) returns (reply: Reply)
      requires Valid() && !pc.Done? && op == Want(c, pc)
      modifies this`store, this`next, this`moves, this`pc, this`run
      ensures Valid() && pc == Resume(c, old(pc), reply)
      ensures moves != [] && Heard(moves[|moves| - 1].done, reply)
      ensures Call(op, old(store), old(next), moves[|moves| - 1].done, store, next)
    {
      hide Want, Resume, Call, OnRun, Follows;
      ghost var pc1, store1, next1 := pc, store, next;
      reply, store, next := Daemon.Perform(op, store, next);
      ghost var done := reply;
      var lost: bool := *;
      if lost { reply := Fault; }
      ghost var s := NextStep(c, run, t, pc, store1, next1, done, reply, store, next);
      FollowsOn(c, store0, next0, pc0, moves, pc, store1, next1, done, reply, store, next);
      run := run + [s];
      moves := moves + [Move(pc1, store1, next1, done, reply)];
      pc := Resume(c, pc, reply);
    }

    method RemovePodSandbox(id: Id) returns (result: Result)
      requires Idle()
      modifies this
      ensures Idle() && pc == Done(result) && pc0 == BeginRemovePod(id) && store0 == old(store)
      ensures |id| != 1 ==> store == old(store) && result == Error
      ensures |id| == 1 ==> Removed(old(store), id[0], NoFault(moves), Done(result), store) && |moves| <= 9
      ensures |id| == 1 && id !in old(store) ==> |moves| == 1
      ensures |id| == 1 && NoFault(moves) ==> result == Success && id !in store
      ensures |id| == 1 && result.Success? ==> RemoveAll(id[0], Ops(c, moves))
    {
      hide RemoveAll, Ops, IsTree, AliasInv, Call, NetNS, FromPortoLabels, Removed, OnRun, Begins, Follows, NoFault,
        Want, Resume;
      RequestsBegin(id);
      Begin(BeginRemovePod(id));
      if |id| != 1 { return Error; }
      assert id == [id[0]];
      result := RemovePod(id[0]);
      RemovalOutcome(c, store0, next0, id[0], moves, pc, store, next);
      RemovalSucceeds(store0, id[0], result, store);
      RemovalSteps(c, store0, next0, id[0], moves, pc, store, next);
    }

    method RemovePod(pod: string) returns (result: Result)
      requires Valid() && pc == Rp(pod, RpNet)
      modifies this`store, this`next, this`moves, this`pc, this`run
      ensures Valid() && pc == Done(result)
    {
      hide Call, NetNS, FromPortoLabels, OnRun, Begins, Follows, DelArgs, WantRun, WantCreate, WantStart, WantStatus,
        WantList, ResumeRun, ResumeCreate, ResumeStart, ResumeStatus, ResumeList;
      var net := Do(Get([pod]));
      if net.NotExist? { return Success; }
      if !net.Found? { return Error; }
      var netns := ParsePropertiesNetNS(net.rec.net, ["netns"]);
      var config := Parsed(map[], map[]);
      if netns != "" {
        var props := Do(Get([pod]));
        if !props.Found? { return Error; }
        var parsed := ConvertFromPortoLabels(props.rec.labels);
        if parsed.None? { return Panicked; }
        config := parsed.value;
      }
      result := StopAndDestroy(pod, pc.rp.info, netns, config);
    }

    // The record outlives its network: it is the only place where the DEL arguments are.
    method StopAndDestroy(pod: string, ghost info: PodInfo, netns: string, config: Parsed) returns (result: Result)
      requires Valid() && pc == Rp(pod, RpStop(info)) && netns == NetNS(info.net, ["netns"])
      requires netns != "" ==> FromPortoLabels(info.labels) == Some(config)
      modifies this`store, this`next, this`moves, this`pc, this`run
      ensures Valid() && pc == Done(result)
    {
      hide Call, NetNS, FromPortoLabels, OnRun, Begins, Follows, DelArgs, WantRun, WantCreate, WantStart, WantStatus,
        WantList, ResumeRun, ResumeCreate, ResumeStart, ResumeStatus, ResumeList;
      var stopped := Do(Stop([pod]));
      if !stopped.Ok? { return Error; }
      if netns != "" {
        result := RemoveNetNS(pod, info, netns, config);
        if !result.Success? { return; }
      }
      var destroyed := Do(Destroy([pod]));
      if !destroyed.Ok? { return Error; }
      var removed := Do(Outside(RemoveRoot));
      result := if removed.Ok? then Success else Error;
    }

    method RemoveNetNS(pod: string, ghost info: PodInfo, netns: string, config: Parsed) returns (result: Result)
      requires Valid() && pc == Rp(pod, RpLoad(info)) && netns == NetNS(info.net, ["netns"]) && FromPortoLabels(info.labels) == Some(config)
      modifies this`store, this`next, this`moves, this`pc, this`run
      ensures Valid() && pc == if result.Success? then Rp(pod, RpDestroy(info)) else Done(result)
    {
      hide Call, DelArgs, ArgsOfDel, HasNetns, NetNS, FromPortoLabels, OnRun, Begins, Follows, WantRun, WantCreate, WantStart, WantStatus, WantList,
        ResumeRun, ResumeCreate, ResumeStart, ResumeStatus, ResumeList;
      var loaded := Do(Outside(CniLoad));
      if !loaded.Ok? { return Error; }
      var closed := Do(Outside(NetnsClosed));
      if !closed.Closed? { return Error; }
      var args := ArgsOfDel(pod, netns, config, closed.closed, c.netnsDir);
      ArgsAreDelArgs(pod, info, netns, config, closed.closed, c.netnsDir);
      var deleted := Do(Outside(CniDel(args)));
      if !deleted.Ok? { return Error; }
      var removed := Do(Outside(NetnsRemove));
      result := if removed.Ok? then Success else Error;
    }

    method RunPodSandbox(r: RunReq) returns (result: Result)
      requires Idle() && GoodRun(r)
      modifies this
      ensures Idle() && pc == Done(result) && pc0 == Run(r, RunImage) && store0 == old(store)
      ensures CreationSoFar(old(store), [r.pod], Leaves(c, moves, pc), pc, store)
      ensures result.Success? ==> PodAsAsked(c, r, store) && RunAll(c, r, Ops(c, moves))
      ensures Honest(moves) && (result.Error? || (result.FailedAfter? && result.cleaned)) ==> store.Keys == old(store).Keys
    {
      hide IsTree, Call, OnRun, Begins, Follows, CreationSoFar, Leaves, Honest, PodAsAsked, RunAll, Ops, RunOps, RunLabels, RunNet, WantCreate, WantStart, WantStatus,
        WantRemovePod, WantList, ResumeCreate, ResumeStart, ResumeStatus, ResumeRemovePod, ResumeList;
      RunBegins(r);
      Begin(Run(r, RunImage));
      result := RunPod(r);
      PodRuns(c, store0, next0, r, moves, pc, store, next);
      RunSteps(c, store0, next0, r, moves, pc, store, next);
      CreationOutcome(c, store0, next0, pc0, moves, pc, store, next);
      if Honest(moves) { HonestLeaves(c, store0, next0, pc0, moves, pc, store, next); }
      if !Leaves(c, moves, pc) { CreationKeys(store0, Subject(pc0), false, pc, store); }
    }

    method RunPod(r: RunReq) returns (result: Result)
      requires Valid() && pc == Run(r, RunImage)
      modifies this`store, this`next, this`moves, this`pc, this`run
      ensures Valid() && pc == Done(result)
    {
      hide Call, OnRun, Begins, Follows, RunLabels, RunNet, WantCreate, WantStart, WantStatus, WantRemovePod,
        WantList, ResumeCreate, ResumeStart, ResumeStatus, ResumeRemovePod, ResumeList;
      var image := Do(Outside(Image));
      if !image.Ok? { return Error; }
      var root := Do(Outside(Directories));
      if !root.Ok? { return Error; }
      var made := Do(Create([r.pod], Some(RunLabels(r)), false));
      if !made.Created? { return Error; }
      var command := Do(Outside(Command));
      if command.Ok? {
        var network := PreparePodNetwork(r, made.inst);
        if network {
          var updated := Do(Update([r.pod], None, RunNet(c, r), true));
          if updated.Ok? { return Success; }
        }
      }
      var cleaned := Do(Destroy([r.pod]));
      result := FailedAfter([r.pod], made.inst, cleaned.Ok?);
    }

    method PreparePodNetwork(r: RunReq, ghost k: nat) returns (ok: bool)
      requires Valid() && pc == Run(r, if r.mode.Netns? then RunLoad(k) else RunUpdate(k))
      modifies this`store, this`next, this`moves, this`pc, this`run
      ensures Valid() && pc == Run(r, if ok then RunUpdate(k) else RunCleanup(k))
    {
      hide Call, OnRun, Begins, Follows, RunLabels, RunNet, WantCreate, WantStart, WantStatus, WantRemovePod,
        WantList, ResumeCreate, ResumeStart, ResumeStatus, ResumeRemovePod, ResumeList;
      if r.mode.Host? { return true; }
      var loaded := Do(Outside(CniLoad));
      if !loaded.Ok? { return false; }
      var made := Do(Outside(NewNetns));
      if !made.Ok? { return false; }
      var added := Do(Outside(CniAdd(PodAddArgs(c, r))));
      ok := added.Ok?;
    }

    method CreateContainer(q: CreateReq) returns (result: Result)
      requires Idle() && GoodCreate(q)
      modifies this
      ensures Idle() && pc == Done(result) && pc0 == Cr(q, CrPrepare) && store0 == old(store)
      ensures CreationSoFar(old(store), CntId(q), Leaves(c, moves, pc), pc, store)
      ensures result.Success? ==> CntId(q) in store && Prints(store[CntId(q)].labels, CreateLabels(q)) && store[CntId(q)].state == "stopped"
      ensures result.Success? ==> CreateAll(q, Ops(c, moves))
      ensures Honest(moves) && (result.Error? || (result.FailedAfter? && result.cleaned)) ==> store.Keys == old(store).Keys
    {
      hide IsTree, Call, OnRun, Begins, Follows, CreationSoFar, Leaves, Honest, CreateAll, Ops, CrOps, Prints, CreateLabels, WantRun, WantStart, WantStatus,
        WantRemovePod, WantList, ResumeRun, ResumeStart, ResumeStatus, ResumeRemovePod, ResumeList;
      CreateBegins(q);
      Begin(Cr(q, CrPrepare));
      result := PrepareContainer(q);
      CreatedAsAsked(c, store0, next0, q, moves, pc, store, next);
      CreateSteps(c, store0, next0, q, moves, pc, store, next);
      CreationOutcome(c, store0, next0, pc0, moves, pc, store, next);
      if Honest(moves) { HonestLeaves(c, store0, next0, pc0, moves, pc, store, next); }
      if !Leaves(c, moves, pc) { CreationKeys(store0, Subject(pc0), false, pc, store); }
    }

    method PrepareContainer(q: CreateReq) returns (result: Result)
      requires Valid() && pc == Cr(q, CrPrepare)
      modifies this`store, this`next, this`moves, this`pc, this`run
      ensures Valid() && pc == Done(result)
    {
      hide Call, OnRun, Begins, Follows, CreateLabels, WantRun, WantStart, WantStatus, WantRemovePod, WantList,
        ResumeRun, ResumeStart, ResumeStatus, ResumeRemovePod, ResumeList;
      var prepared := Do(Outside(Prepare));
      if !prepared.Ok? { return Error; }
      var sandbox := AliasOf(q.podId);
      var alias := Do(Get(sandbox));
      if !alias.Found? {
        sandbox := q.podId;
        var _ := Do(Get(sandbox));
      }
      var updated := Do(Update(sandbox, None, None, false));
      if !updated.Ok? { return Error; }
      var made := Do(Create(CntId(q), None, false));
      if !made.Created? { return Error; }
      result := FinishContainer(q, made.inst);
    }

    method FinishContainer(q: CreateReq, k: nat) returns (result: Result)
      requires Valid() && pc == Cr(q, if q.cdi then CrCdi(k) else CrCommand(k))
      modifies this`store, this`next, this`moves, this`pc, this`run
      ensures Valid() && pc == Done(result)
    {
      hide Call, OnRun, Begins, Follows, CreateLabels, WantRun, WantStart, WantStatus, WantRemovePod, WantList,
        ResumeRun, ResumeStart, ResumeStatus, ResumeRemovePod, ResumeList;
      var ok := true;
      if q.cdi {
        var cdi := Do(Outside(CdiStep));
        ok := cdi.Ok?;
      }
      if ok {
        var command := Do(Outside(Command));
        if command.Ok? || q.privileged {
          var updated := Do(Update(CntId(q), Some(CreateLabels(q)), None, false));
          if updated.Ok? { return Success; }
        }
      }
      var cleaned := Do(Destroy(CntId(q)));
      result := FailedAfter(CntId(q), k, cleaned.Ok?);
    }

    method StartContainer(id: Id) returns (result: Result)
      requires Idle()
      modifies this
      ensures Idle() && pc == Done(result) && pc0 == BeginStart(id) && store0 == old(store)
      ensures |id| != 2 ==> store == old(store) && result == Error
      ensures |id| == 2 ==> StartDone(old(store), id, NoFault(moves), result, store) && Up(old(store), id, NoFault(moves), result, store)
    {
      hide AliasInv, Call, OnRun, Begins, Follows, StartDone, Up, WantRun, WantCreate, WantStatus, WantRemovePod,
        WantList, ResumeRun, ResumeCreate, ResumeStatus, ResumeRemovePod, ResumeList, IsPriv, Readable;
      RequestsBegin(id);
      Begin(BeginStart(id));
      if |id| != 2 { return Error; }
      result := StartResolved(id);
      StartOutcome(c, store0, next0, id, moves, pc, store, next);
      StartRuns(c, store0, next0, id, moves, pc, store, next);
    }

    method StartResolved(id: Id) returns (result: Result)
      requires Valid() && pc == St(id, StAlias)
      modifies this`store, this`next, this`moves, this`pc, this`run
      ensures Valid() && pc == Done(result)
    {
      hide Call, OnRun, Begins, Follows, FromPortoLabels, AliasOf, WantRun, WantCreate, WantStatus, WantRemovePod,
        WantList, ResumeRun, ResumeCreate, ResumeStatus, ResumeRemovePod, ResumeList;
      var target := AliasOf(id);
      var alias := Do(Get(target));
      if !alias.Found? {
        target := id;
        var _ := Do(Get(target));
      }
      var started := Do(Start(target));
      if !started.Ok? { return Error; }
      var props := Do(Get(target));
      if !props.Found? { return Success; }
      var parsed := ConvertFromPortoLabels(props.rec.labels);
      if parsed.None? { return Panicked; }
      if PRIV in parsed.value.labels && parsed.value.labels[PRIV] == "true" {
        result := CreatePrivCnt(id, target);
      } else {
        result := Success;
      }
    }

    method CreatePrivCnt(ghost id: Id, parent: Id) returns (result: Result)
      requires Valid() && pc == St(id, StHelper(parent))
      modifies this`store, this`next, this`moves, this`pc, this`run
      ensures Valid() && pc == Done(result)
    {
      hide Call, OnRun, Begins, Follows, WantRun, WantCreate, WantStatus, WantRemovePod, WantList, ResumeRun,
        ResumeCreate, ResumeStatus, ResumeRemovePod, ResumeList, IsPriv, Readable, HelperThere;
      var helper := parent + [PRIVILEGED];
      var there := Do(Get(helper));
      if there.Found? && HelperThere(there.rec.state) { return Success; }
      var made := Do(Create(helper, None, false));
      if !made.Created? { return Error; }
      result := ConfigureHelper(id, parent, helper);
    }

    // The helper starts with the variables that were set on its parent.
    method ConfigureHelper(ghost id: Id, parent: Id, helper: Id) returns (result: Result)
      requires Valid() && pc == St(id, StEnv(parent)) && helper == parent + [PRIVILEGED]
      modifies this`store, this`next, this`moves, this`pc, this`run
      ensures Valid() && pc == Done(result)
    {
      hide Call, OnRun, Begins, Follows, WantRun, WantCreate, WantStatus, WantRemovePod, WantList, ResumeRun,
        ResumeCreate, ResumeStatus, ResumeRemovePod, ResumeList, IsPriv, Readable, HelperThere;
      var props := Do(Get(parent));
      if !props.Found? { return Error; }
      var set_ := Do(SetEnv(helper, props.rec.env));
      if !set_.Ok? { return Error; }
      var updated := Do(Update(helper, None, None, true));
      result := if updated.Ok? then Success else Error;
    }

    method ContainerStatus(id: Id) returns (result: Result)
      requires Idle()
      modifies this
      ensures Idle() && pc == Done(result) && pc0 == BeginStatus(id) && store0 == old(store)
      ensures |id| != 2 ==> store == old(store) && result == Error
      ensures |id| == 2 ==> StatusDone(c, old(store), id, Honest(moves), NoFault(moves), result, store)
    {
      hide Call, OnRun, Begins, Follows, StatusDone, WantRun, WantCreate, WantStart, WantRemovePod, WantList,
        ResumeRun, ResumeCreate, ResumeStart, ResumeRemovePod, ResumeList;
      RequestsBegin(id);
      Begin(BeginStatus(id));
      if |id| != 2 { return Error; }
      result := StatusResolved(id);
      StatusOutcome(c, store0, next0, id, moves, pc, store, next);
    }

    method StatusResolved(id: Id) returns (result: Result)
      requires Valid() && pc == Ss(id, SsAlias) && |id| == 2
      modifies this`store, this`next, this`moves, this`pc, this`run
      ensures Valid() && pc == Done(result)
    {
      hide Call, OnRun, Begins, Follows, FromPortoLabels, ImageOf, ConvertState, AliasOf, WantRun, WantCreate,
        WantStart, WantRemovePod, WantList, ResumeRun, ResumeCreate, ResumeStart, ResumeRemovePod, ResumeList;
      var target := AliasOf(id);
      var alias := Do(Get(target));
      if !alias.Found? {
        target := id;
        var _ := Do(Get(target));
      }
      var props := Do(Get(target));
      if !props.Found? { return Error; }
      var labels, inst := props.rec.labels, props.rec.inst;
      if Privileged(target) {
        var metadata := Do(Get(Cri(target)));
        if !metadata.Found? { return Error; }
        labels, inst := metadata.rec.labels, metadata.rec.inst;
      }
      var p := ConvertFromPortoLabels(labels);
      if p.None? { return Panicked; }
      var status := Container(id, id[0], p.value.labels, p.value.annotations, ImageOf(c.vol, target, p.value.labels),
                              ConvertState(props.rec.state), props.rec.created);
      if props.rec.state == "dead" {
        var destroyed := Do(Destroy(Cri(target)));
        if !destroyed.Ok? { return Error; }
      }
      result := Reported(status);
    }

    method RemoveContainer(id: Id) returns (result: Result)
      requires Idle()
      modifies this
      ensures Idle() && pc == Done(result) && pc0 == BeginRemove(id) && store0 == old(store)
      ensures result.Success? ==> |id| == 2 && id in old(store)
      ensures store == old(store) || (|id| == 2 && store == Without(old(store), id))
      ensures result.Success? ==> store == Without(old(store), id)
    {
      hide Call, OnRun, Begins, Follows, Without, WantRun, WantCreate, WantStart, WantStatus, WantRemovePod, WantList,
        ResumeRun, ResumeCreate, ResumeStart, ResumeStatus, ResumeRemovePod, ResumeList;
      RequestsBegin(id);
      Begin(BeginRemove(id));
      if |id| != 2 { return Error; }
      ghost var next1 := next;
      var destroyed := Do(Destroy(id));
      DestroyCall(id, old(store), next1, moves[|moves| - 1].done, store, next);
      if !destroyed.Ok? { return Error; }
      ghost var store2, next2 := store, next;
      var removed := Do(Outside(RemoveRoot));
      OutsideCall(RemoveRoot, store2, next2, moves[|moves| - 1].done, store, next);
      result := if removed.Ok? then Success else Error;
    }

    /** Porto's answer is filtered in place. */
    method Filtered(ids: seq<Id>, target: Id) returns (kept: seq<Id>)
      ensures kept == Keep(ids, target)
    {
      var slice := new Id[|ids|](i requires 0 <= i < |ids| => ids[i]);
      assert slice[..] == ids;
      var n := FilterContainerIDs(slice, target);
      kept := slice[..n];
    }

    method ListContainers(f: Filter) returns (result: Result)
      requires Idle()
      modifies this
      ensures Idle() && pc == Done(result) && pc0 == Ls(f, LsIds) && store == old(store)
      ensures result.Listed? ==> AnswerOf(store, f, c.vol, result.cs) && DistinctIds(result.cs)
      ensures result.Listed? ==> forall j :: 0 <= j < |result.cs| ==> StatusAgrees(store, result.cs[j], c.vol)
      ensures NoFault(moves) ==> result.Listed?
    {
      hide AliasInv, IsTree, OnRun, Follows, AnswerOf, StatusAgrees, DistinctIds, Call, Want, Resume;
      Begin(Ls(f, LsIds));
      result := ListResolved(f);
      ListOutcome(c, store0, next0, f, moves, pc, store, next);
      if result.Listed? { AnswerIsSound(store, f, c.vol, result.cs); }
    }

    method ListResolved(f: Filter) returns (result: Result)
      requires Valid() && pc == Ls(f, LsIds) && IsTree(store)
      modifies this`store, this`next, this`moves, this`pc, this`run
      ensures Valid() && pc == Done(result)
    {
      hide IsTree, IsListing, OnRun, Follows, Entries, FilterIds, NoEmptyId, WantRun, WantCreate, WantStart, WantStatus,
        WantRemovePod, ResumeRun, ResumeCreate, ResumeStart, ResumeStatus, ResumeRemovePod, LabelsText, MaskOf;
      var listed := Do(ListIds(MaskOf(f)));
      if !listed.Listing? { return Error; }
      var ids := FilteredBy(listed.ids, f);
      assert ListedIds(store, f, ids);
      FilteredNonEmpty(store, f, ids);
      var props := Do(GetMany(ids));
      if !props.Many? { return Error; }
      var cs := ListLoop(props.recs, ids, f, c.vol);
      result := if cs.None? then Panicked else Listed(cs.value);
    }

    method FilteredBy(ids: seq<Id>, f: Filter) returns (kept: seq<Id>)
      ensures kept == FilterIds(ids, f)
    {
      kept := ids;
      if f.id.Some? { kept := Filtered(kept, f.id.value); }
      if f.pod.Some? { kept := Filtered(kept, [f.pod.value]); }
    }
  }
}
