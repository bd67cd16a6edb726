/** One call from its beginning to its end with no other call in between: what the handlers
    promise their caller. */
module Paths {
  import opened GoStrings
  import opened Labels
  import opened Network
  import opened Ids
  import opened Porto
  import opened Listing
  import opened Handlers
  import opened LifecycleRecords
  import Lifecycle

  /** The store and the point before a step, what was done, and the answer. */
  datatype Move = Move(pc: Pc, store: Store, next: nat, done: Reply, reply: Reply)

  /** The moves lead from the first point and store to the last. */
  ghost predicate Follows(c: Config, store0: Store, next0: nat, pc0: Pc, moves: seq<Move>, pc: Pc, store: Store, next: nat)
    decreases |moves|
  {
    if moves == [] then pc == pc0 && store == store0 && next == next0
    else
      var n := |moves| - 1;
      && Follows(c, store0, next0, pc0, moves[..n], moves[n].pc, moves[n].store, moves[n].next)
      && !moves[n].pc.Done? && Lifecycle.Heard(moves[n].done, moves[n].reply) && pc == Resume(c, moves[n].pc, moves[n].reply)
      && Call(Want(c, moves[n].pc), moves[n].store, moves[n].next, moves[n].done, store, next)
  }

  lemma FollowsOn(c: Config, store0: Store, next0: nat, pc0: Pc, moves: seq<Move>, pc: Pc, store: Store, next: nat,
                  done: Reply, reply: Reply, store': Store, next': nat)
    requires Follows(c, store0, next0, pc0, moves, pc, store, next) && !pc.Done? && Lifecycle.Heard(done, reply)
    requires Call(Want(c, pc), store, next, done, store', next')
    ensures Follows(c, store0, next0, pc0, moves + [Move(pc, store, next, done, reply)], Resume(c, pc, reply), store', next')
  {
    hide Call, Want, Resume;
    assert (moves + [Move(pc, store, next, done, reply)])[..|moves|] == moves;
  }

  ghost predicate NoFault(moves: seq<Move>) {
    forall i :: 0 <= i < |moves| ==> !moves[i].reply.Fault?
  }

  /** No answer was lost: what failed was not done. */
  ghost predicate Honest(moves: seq<Move>) {
    forall i :: 0 <= i < |moves| ==> moves[i].reply == moves[i].done
  }

  // ---- RunPodSandbox and CreateContainer

  ghost predicate Kept(store0: Store, store: Store) {
    forall x <- store0 :: x in store && SameRecord(store0[x], store[x])
  }

  predicate OfCreation(pc: Pc, id: Id) {
    if pc.Done? then pc.result.Success? || pc.result.Error? || pc.result.FailedAfter? else (pc.Run? || pc.Cr?) && Subject(pc) == id
  }

  /** What RunPodSandbox or CreateContainer has done to the store: everything else is as it was;
      has tells whether its own record is there. */
  ghost predicate CreationSoFar(store0: Store, id: Id, has: bool, pc: Pc, store: Store) {
    && Kept(store0, store) && id != [] && OfCreation(pc, id)
    && (if has then id !in store0 && store.Keys == store0.Keys + {id} else store.Keys == store0.Keys)
    && (!pc.Done? ==> (has <==> Creating(pc)))
  }

  /** The record is there after this step. */
  predicate HasAfter(op: Op, has: bool, done: Reply) {
    (has || (op.Create? && done.Created?)) && !(op.Destroy? && done.Ok?)
  }

  lemma CreationFlow(c: Config, id: Id, pc: Pc, done: Reply, reply: Reply)
    requires OfCreation(pc, id) && !pc.Done? && Lifecycle.Heard(done, reply)
    ensures OfCreation(Resume(c, pc, reply), id)
    ensures !Resume(c, pc, reply).Done? ==> (Creating(Resume(c, pc, reply)) <==> HasAfter(Want(c, pc), Creating(pc), done))
    ensures Want(c, pc).Create? ==> !Creating(pc)
    ensures Loud(Want(c, pc), done) ==> Want(c, pc).id == id && (Want(c, pc).Create? || Creating(pc))
  {
    hide RunLabels, CreateLabels, AliasOf, StoredNet, PodAddArgs, ResumeStart, ResumeStatus, ResumeRemovePod,
      ResumeList, WantStart, WantStatus;
  }

  lemma CreationStep(c: Config, store0: Store, id: Id, pc: Pc, store: Store, next: nat, done: Reply, reply: Reply, store': Store, next': nat)
    requires CreationSoFar(store0, id, Creating(pc), pc, store) && IsTree(store0) && !pc.Done? && Lifecycle.Heard(done, reply)
    requires Call(Want(c, pc), store, next, done, store', next')
    ensures CreationSoFar(store0, id, HasAfter(Want(c, pc), Creating(pc), done), Resume(c, pc, reply), store')
  {
    hide IsTree, Creating, OfCreation, Want, Resume, LabelsText, IsListing, SameButState;
    CreationFlow(c, id, pc, done, reply);
    var op := Want(c, pc);
    if !Loud(op, done) {
      QuietCall(op, store, next, done, store', next');
    } else if op.Destroy? {
      OnlyItself(store0, id, store);
    }
  }

  /** Nothing is below a record that was not there in the beginning. */
  lemma OnlyItself(store0: Store, id: Id, store: Store)
    requires IsTree(store0) && id != [] && id !in store0 && Kept(store0, store) && store.Keys == store0.Keys + {id}
    ensures Without(store, id).Keys == store0.Keys
  {
    forall x | x in store0 ensures !(id <= x) {
      if id <= x { NothingBelow(store0, id, x); }
    }
  }

  lemma {:induction false} NothingBelow(store0: Store, id: Id, x: Id)
    requires IsTree(store0) && x in store0 && id <= x && id != []
    ensures id in store0
    decreases |x|
  {
    if id != x {
      assert Placed(store0, x) && id <= ParentOf(x);
      NothingBelow(store0, id, ParentOf(x));
    }
  }

  /** Its own record is there: while the handler works on it, after success, after an error when
      Create was done all the same, and after a cleanup that was not done. */
  ghost predicate Leaves(c: Config, moves: seq<Move>, pc: Pc) {
    if !pc.Done? || moves == [] then Creating(pc)
    else
      var m := moves[|moves| - 1];
      match pc.result
      case Success => true
      case Error => !m.pc.Done? && Want(c, m.pc).Create? && m.done.Created?
      case _ => !m.done.Ok?
  }

  lemma CreationEnds(c: Config, pc: Pc, done: Reply, reply: Reply)
    requires (pc.Run? || pc.Cr?) && Lifecycle.Heard(done, reply) && Resume(c, pc, reply).Done?
    ensures HasAfter(Want(c, pc), Creating(pc), done) <==>
            match Resume(c, pc, reply).result
            case Success => true
            case Error => Want(c, pc).Create? && done.Created?
            case _ => !done.Ok?
  {
    hide RunLabels, CreateLabels, AliasOf, StoredNet, PodAddArgs, ResumeStart, ResumeStatus, ResumeRemovePod,
      ResumeList, WantStart, WantStatus;
  }

  /** With no answer lost, an error comes without a record, and the answer to the cleanup tells
      whether it was done. */
  lemma HonestLeaves(c: Config, store0: Store, next0: nat, pc0: Pc, moves: seq<Move>, pc: Pc, store: Store, next: nat)
    requires Follows(c, store0, next0, pc0, moves, pc, store, next) && (pc0.Run? || pc0.Cr?) && Fresh(pc0)
    requires Honest(moves) && IsTree(store0) && Subject(pc0) != [] && pc.Done?
    ensures Leaves(c, moves, pc) <==> pc.result.Success? || (pc.result.FailedAfter? && !pc.result.cleaned)
  {
    hide Call, IsTree, RunLabels, CreateLabels, AliasOf, StoredNet, PodAddArgs, ResumeStart, ResumeStatus, ResumeRemovePod,
      ResumeList, WantStart, WantStatus;
    var n := |moves| - 1;
    var m := moves[n];
    CreationOutcome(c, store0, next0, pc0, moves[..n], m.pc, m.store, m.next);
  }

  /** Main result: RunPodSandbox and CreateContainer keep every record that they find, and leave
      the set of records as they found it if and only if they fail and neither a Create whose
      answer was lost nor a cleanup that was not done is left over. */
  lemma {:induction false} CreationOutcome(c: Config, store0: Store, next0: nat, pc0: Pc, moves: seq<Move>, pc: Pc, store: Store, next: nat)
    requires Follows(c, store0, next0, pc0, moves, pc, store, next) && IsTree(store0)
    requires pc0.Run? || pc0.Cr?
    requires Fresh(pc0) && Subject(pc0) != []
    ensures CreationSoFar(store0, Subject(pc0), Leaves(c, moves, pc), pc, store)
  {
    hide Want, Resume, Call, IsTree, HasAfter;
    if moves != [] {
      var n := |moves| - 1;
      var m := moves[n];
      CreationOutcome(c, store0, next0, pc0, moves[..n], m.pc, m.store, m.next);
      CreationStep(c, store0, Subject(pc0), m.pc, m.store, m.next, m.done, m.reply, store, next);
      if pc.Done? { CreationEnds(c, m.pc, m.done, m.reply); }
    }
  }

  // ---- RemovePodSandbox

  /** Steps that are left at most. */
  function Rank(pc: Pc): nat {
    if !pc.Rp? then 0
    else match pc.rp
      case RpNet => 9
      case RpLabels(_) => 8
      case RpStop(_) => 7
      case RpLoad(_) => 6
      case RpClosed(_) => 5
      case RpDel(_, _) => 4
      case RpNetns(_) => 3
      case RpDestroy(_) => 2
      case RpRoot => 1
  }

  predicate LabelsRead(at: RpAt) {
    (at.RpStop? && HasNetns(at.info.net)) || at.RpLoad? || at.RpClosed? ==> FromPortoLabels(at.info.labels).Some?
  }

  /** Where a removal is and what it has done to the store; quiet: no call has failed. */
  ghost predicate Removed(store0: Store, pod: string, quiet: bool, pc: Pc, store: Store) {
    if pc.Rp? then
      && pc.pod == pod && LabelsRead(pc.rp)
      && if pc.rp.RpNet? then store == store0
         else [pod] in store0 && if pc.rp.RpRoot? then Still(Without(store0, [pod]), store) else Still(store0, store)
    else
      && pc.Done?
      && (pc.result.Success? ==> Still(Without(store0, [pod]), store))
      && (Still(store0, store) || Still(Without(store0, [pod]), store))
      && (quiet && ([pod] in store0 ==> Readable(store0[[pod]])) ==> pc.result.Success?)
  }

  lemma AbsentPod(store: Store, pod: string)
    requires IsTree(store) && [pod] !in store
    ensures Without(store, [pod]) == store
  {
    forall x | x in store ensures !([pod] <= x) {
      if [pod] <= x { NothingBelow(store, [pod], x); }
    }
  }

  lemma RankDrops(c: Config, pod: string, at: RpAt, reply: Reply)
    ensures Rank(ResumeRemovePod(c, pod, at, reply)) < Rank(Rp(pod, at))
  {
    hide HasNetns, FromPortoLabels;
  }

  lemma RemovedFirst(c: Config, store0: Store, pod: string, next: nat, done: Reply, reply: Reply, store': Store, next': nat)
    requires IsTree(store0) && Call(Get([pod]), store0, next, done, store', next') && Lifecycle.Heard(done, reply)
    ensures Removed(store0, pod, !reply.Fault?, ResumeRemovePod(c, pod, RpNet, reply), store')
  {
    hide IsTree, HasNetns, FromPortoLabels;
    if [pod] !in store0 { AbsentPod(store0, pod); }
  }

  /** What a step does to the store, and the answer when nothing fails. */
  lemma RemovalCall(store0: Store, pod: string, at: RpAt, store: Store, next: nat, reply: Reply, store': Store, next': nat)
    requires [pod] in store0 && Still(store0, store) && !at.RpRoot?
    requires Call(WantRemovePod(pod, at), store, next, reply, store', next')
    ensures Still(if at.RpDestroy? && reply.Ok? then Without(store0, [pod]) else store0, store')
    ensures !reply.Fault? && at.RpLabels? ==> reply.Found? && reply.rec.labels == store0[[pod]].labels
    ensures !reply.Fault? && at.RpClosed? ==> reply.Closed?
    ensures !reply.Fault? && !at.RpNet? && !at.RpLabels? && !at.RpClosed? ==> reply.Ok?
  {
    hide LabelsText, IsListing, NewRec, UpdatedRec, Placed;
  }

  lemma RemovedStep(c: Config, store0: Store, pod: string, quiet: bool, at: RpAt, store: Store, next: nat, done: Reply, reply: Reply, store': Store, next': nat)
    requires Removed(store0, pod, quiet, Rp(pod, at), store) && !at.RpNet? && Lifecycle.Heard(done, reply)
    requires Call(WantRemovePod(pod, at), store, next, done, store', next')
    ensures Removed(store0, pod, quiet && !reply.Fault?, ResumeRemovePod(c, pod, at, reply), store')
  {
    hide HasNetns, FromPortoLabels, Still, Call, Without;
    if at.RpRoot? {
      OutsideCall(RemoveRoot, store, next, done, store', next');
    } else {
      RemovalCall(store0, pod, at, store, next, done, store', next');
    }
  }

  lemma OutsideCall(step: Outside, store: Store, next: nat, reply: Reply, store': Store, next': nat)
    requires Call(Outside(step), store, next, reply, store', next') && !step.NetnsClosed?
    ensures store' == store && (reply.Ok? || reply.Fault?)
  {
    hide LabelsText, IsListing, NewRec, UpdatedRec, Placed;
  }

  /** Main result: whatever fails, every other record is kept, and so is the pod with its labels
      and its net property until its Destroy; a call in which nothing fails comes to its end
      after at most nine steps and takes the pod away; and on a pod that is gone the call
      succeeds after one read, without a CNI call. */
  lemma {:induction false} RemovalOutcome(c: Config, store0: Store, next0: nat, pod: string, moves: seq<Move>, pc: Pc, store: Store, next: nat)
    requires Follows(c, store0, next0, Rp(pod, RpNet), moves, pc, store, next) && IsTree(store0)
    ensures Removed(store0, pod, NoFault(moves), pc, store) && |moves| + Rank(pc) <= 9
    ensures [pod] !in store0 && pc.Done? ==> |moves| == 1
  {
    hide IsTree, Call, Removed, Want, Resume, WantRemovePod, ResumeRemovePod, Rank;
    if moves == [] {
      RemovalBegins(store0, pod);
    } else {
      var n := |moves| - 1;
      var m := moves[n];
      RemovalOutcome(c, store0, next0, pod, moves[..n], m.pc, m.store, m.next);
      RemovedShape(store0, pod, NoFault(moves[..n]), m.pc, m.store);
      RemovalIs(c, pod, m.pc.rp, m.reply);
      RankDrops(c, pod, m.pc.rp, m.reply);
      if m.pc.rp.RpNet? {
        RemovedFirst(c, store0, pod, next0, m.done, m.reply, store, next);
      } else {
        RemovedStep(c, store0, pod, NoFault(moves[..n]), m.pc.rp, m.store, m.next, m.done, m.reply, store, next);
      }
      assert NoFault(moves) <==> NoFault(moves[..n]) && !m.reply.Fault?;
    }
  }

  lemma RemovalSucceeds(store0: Store, pod: string, result: Result, store: Store)
    requires AliasInv(store0)
    ensures Removed(store0, pod, true, Done(result), store) ==> result == Success && [pod] !in store
  {
    hide FromPortoLabels;
  }

  lemma RemovalIs(c: Config, pod: string, at: RpAt, reply: Reply)
    ensures Want(c, Rp(pod, at)) == WantRemovePod(pod, at) && Resume(c, Rp(pod, at), reply) == ResumeRemovePod(c, pod, at, reply)
  {
    hide WantRemovePod, ResumeRemovePod;
  }

  lemma RemovalBegins(store0: Store, pod: string)
    ensures Removed(store0, pod, true, Rp(pod, RpNet), store0) && Rank(Rp(pod, RpNet)) == 9
  {
  }

  lemma RemovedShape(store0: Store, pod: string, quiet: bool, pc: Pc, store: Store)
    requires Removed(store0, pod, quiet, pc, store) && !pc.Done?
    ensures pc.Rp? && pc.pod == pod && (Rank(pc) == 9 <==> pc.rp.RpNet?) && ([pod] !in store0 ==> pc.rp.RpNet?)
    ensures pc.rp.RpNet? ==> store == store0 && WantRemovePod(pod, pc.rp) == Get([pod])
  {
  }

  /** There is always a next step that does not fail. */
  lemma RemovalGoesOn(c: Config, pod: string, at: RpAt, store: Store, next: nat)
    returns (reply: Reply, store': Store)
    ensures Call(WantRemovePod(pod, at), store, next, reply, store', next) && !reply.Fault?
  {
    hide LabelsText, IsListing, NewRec, UpdatedRec;
    match WantRemovePod(pod, at) {
      case Get(id) => reply, store' := if id in store then Found(store[id]) else NotExist, store;
      case Stop(id) =>
        reply := if id in store then Ok else NotExist;
        store' := if id in store then map x | x in store :: if id <= x then store[x].(state := "stopped") else store[x] else store;
      case Destroy(id) => reply, store' := if id in store then Ok else NotExist, if id in store then Without(store, id) else store;
      case Outside(step) => reply, store' := if step.NetnsClosed? then Closed(true) else Ok, store;
    }
  }

  // ---- ContainerStatus

  /** Where a status call is; with no failure so far it reads what StatusOf reads. */
  ghost predicate StatusSoFar(c: Config, store0: Store, id: Id, honest: bool, quiet: bool, pc: Pc, store: Store) {
    && |id| == 2
    && if pc.Ss? then pc.id == id && store == store0 && StatusAt(c, store0, id, quiet, pc.ss)
       else pc.Done? && StatusDone(c, store0, id, honest, quiet, pc.result, store)
  }

  ghost predicate StatusAt(c: Config, store0: Store, id: Id, quiet: bool, at: SsAt)
    requires |id| == 2
  {
    match at
    case SsAlias => true
    case SsPlain => quiet ==> AliasOf(id) !in store0
    case SsProps(target) => target in [id, AliasOf(id)] && (quiet ==> target == FullName(store0, id))
    case SsLabels(target, rec) => target == AliasOf(id) && (quiet ==> target in store0 && rec == store0[target])
    case SsDestroy(target, _, shown) =>
      shown.state == EXITED && Cri(target) == id && (quiet ==> id in store0 && StatusOf(store0, id, c.vol) == Some(shown))
  }

  ghost predicate StatusDone(c: Config, store0: Store, id: Id, honest: bool, quiet: bool, result: Result, store: Store)
    requires |id| == 2
  {
    && (if result.Reported? && result.c.state == EXITED then id in store0 && store == Without(store0, id)
        else store == store0 || (!honest && result.Error? && id in store0 && store == Without(store0, id)))
    && (quiet ==> StatusOf(store0, id, c.vol) == if result.Reported? then Some(result.c) else None)
  }

  lemma StatusConcludes(c: Config, store0: Store, id: Id, honest: bool, quiet: bool, target: Id, rec: Rec, labels: string, inst: nat)
    requires |id| == 2 && target in [id, AliasOf(id)]
    requires quiet ==> target == FullName(store0, id) && id in store0 && target in store0 && rec == store0[target] && labels == store0[id].labels
    ensures StatusSoFar(c, store0, id, honest, quiet, Conclude(c, id, target, rec, labels, inst), store0)
  {
    hide FromPortoLabels, ImageOf;
    assert Cri(AliasOf(id)) == id;
  }

  /** The name. */
  lemma StatusNameStep(c: Config, store0: Store, id: Id, honest: bool, quiet: bool, at: SsAt, next: nat, done: Reply, reply: Reply, store': Store, next': nat)
    requires |id| == 2 && StatusAt(c, store0, id, quiet, at) && Lifecycle.Heard(done, reply) && (at.SsAlias? || at.SsPlain?)
    requires Call(WantStatus(id, at), store0, next, done, store', next')
    ensures StatusSoFar(c, store0, id, honest && reply == done, quiet && !reply.Fault?, ResumeStatus(c, id, at, reply), store')
  {
    hide StatusOf, Conclude, LabelsText, IsListing, NewRec, UpdatedRec, Placed, Without, SameButState, AllStopped, StatusDone;
  }

  /** The properties, and the labels of the parent. */
  lemma StatusReadStep(c: Config, store0: Store, id: Id, honest: bool, quiet: bool, at: SsAt, next: nat, done: Reply, reply: Reply, store': Store, next': nat)
    requires |id| == 2 && StatusAt(c, store0, id, quiet, at) && Lifecycle.Heard(done, reply) && (at.SsProps? || at.SsLabels?)
    requires Call(WantStatus(id, at), store0, next, done, store', next')
    ensures StatusSoFar(c, store0, id, honest && reply == done, quiet && !reply.Fault?, ResumeStatus(c, id, at, reply), store')
  {
    hide FromPortoLabels, ImageOf, Conclude, Report, LabelsText, IsListing, NewRec, UpdatedRec, Placed, Without,
      SameButState, AllStopped;
    assert Cri(AliasOf(id)) == id;
    if reply.Found? && at.SsProps? && !Privileged(at.target) {
      StatusConcludes(c, store0, id, honest, quiet, at.target, reply.rec, reply.rec.labels, reply.rec.inst);
    } else if reply.Found? && at.SsLabels? {
      StatusConcludes(c, store0, id, honest, quiet, at.target, at.rec, reply.rec.labels, reply.rec.inst);
    }
  }

  lemma StatusReapStep(c: Config, store0: Store, id: Id, honest: bool, quiet: bool, at: SsAt, next: nat, done: Reply, reply: Reply, store': Store, next': nat)
    requires |id| == 2 && StatusAt(c, store0, id, quiet, at) && Lifecycle.Heard(done, reply) && at.SsDestroy?
    requires Call(WantStatus(id, at), store0, next, done, store', next')
    ensures StatusSoFar(c, store0, id, honest && reply == done, quiet && !reply.Fault?, ResumeStatus(c, id, at, reply), store')
  {
    hide StatusOf, Conclude, LabelsText, IsListing, NewRec, UpdatedRec, Placed, Without, SameButState, AllStopped, AliasOf;
  }

  /** Main result: ContainerStatus in which nothing fails reports what StatusOf reads; a report
      of an exit takes the container and all below it away, and any other end leaves the store
      as it was, unless the answer to its Destroy was lost. */
  lemma {:induction false} StatusOutcome(c: Config, store0: Store, next0: nat, id: Id, moves: seq<Move>, pc: Pc, store: Store, next: nat)
    requires |id| == 2 && Follows(c, store0, next0, Ss(id, SsAlias), moves, pc, store, next)
    ensures StatusSoFar(c, store0, id, Honest(moves), NoFault(moves), pc, store)
  {
    hide Call, WantStatus, ResumeStatus, StatusAt, StatusDone;
    if moves == [] {
      StatusBegins(c, store0, id);
    } else {
      var n := |moves| - 1;
      var m := moves[n];
      StatusOutcome(c, store0, next0, id, moves[..n], m.pc, m.store, m.next);
      if m.pc.ss.SsAlias? || m.pc.ss.SsPlain? {
        StatusNameStep(c, store0, id, Honest(moves[..n]), NoFault(moves[..n]), m.pc.ss, m.next, m.done, m.reply, store, next);
      } else if m.pc.ss.SsDestroy? {
        StatusReapStep(c, store0, id, Honest(moves[..n]), NoFault(moves[..n]), m.pc.ss, m.next, m.done, m.reply, store, next);
      } else {
        StatusReadStep(c, store0, id, Honest(moves[..n]), NoFault(moves[..n]), m.pc.ss, m.next, m.done, m.reply, store, next);
      }
      assert Honest(moves) <==> Honest(moves[..n]) && m.reply == m.done;
      assert NoFault(moves) <==> NoFault(moves[..n]) && !m.reply.Fault?;
    }
  }

  /** What is listed is what a status call on the same store reports, if nothing fails. */
  lemma ListedThenReported(c: Config, store: Store, next: nat, shown: Container, moves: seq<Move>, result: Result, store': Store, next': nat)
    requires StatusAgrees(store, shown, c.vol) && |shown.id| == 2 && NoFault(moves)
    requires Follows(c, store, next, Ss(shown.id, SsAlias), moves, Done(result), store', next')
    ensures result == Reported(shown)
  {
    hide Follows, StatusOf;
    StatusOutcome(c, store, next, shown.id, moves, Done(result), store', next');
  }

  lemma StatusBegins(c: Config, store0: Store, id: Id)
    requires |id| == 2
    ensures StatusAt(c, store0, id, true, SsAlias)
  {
  }

  // ---- StartContainer

  /** Records keep everything but their state. */
  ghost predicate KeptEnv(store0: Store, store: Store) {
    forall x <- store0 :: x in store && SameRecord(store0[x], store[x]) && store[x].env == store0[x].env
  }

  ghost predicate Unhelped(store0: Store, store: Store) {
    KeptEnv(store0, store) && store.Keys == store0.Keys
  }

  /** The helper has come, below a container that is marked. */
  ghost predicate Helped(store0: Store, id: Id, store: Store) {
    && AliasOf(id) !in store0 && id in store0 && IsPriv(store0[id])
    && KeptEnv(store0, store) && store.Keys == store0.Keys + {AliasOf(id)}
  }

  ghost predicate NeedsHelper(store0: Store, id: Id) {
    id in store0 && IsPriv(store0[id]) && AliasOf(id) !in store0
  }

  ghost predicate StartAt(store0: Store, id: Id, quiet: bool, at: StAt, store: Store) {
    match at
    case StAlias => Unhelped(store0, store)
    case StPlain => Unhelped(store0, store) && (quiet ==> AliasOf(id) !in store0)
    case StStart(target) => Unhelped(store0, store) && target in [id, AliasOf(id)] && (quiet ==> target == FullName(store0, id))
    case StLabels(target) => Unhelped(store0, store) && target in [id, AliasOf(id)] && (quiet ==> target == FullName(store0, id))
    case StHelper(target) => Unhelped(store0, store) && target == id && id in store0 && IsPriv(store0[id]) && (quiet ==> AliasOf(id) !in store0)
    case StCreate(target) => Unhelped(store0, store) && target == id && id in store0 && IsPriv(store0[id]) && (quiet ==> AliasOf(id) !in store0)
    case StEnv(target) => target == id && Helped(store0, id, store)
    case StSetEnv(target, env) => target == id && Helped(store0, id, store) && env == store0[id].env
    case StUpdate(target) => target == id && Helped(store0, id, store) && store[AliasOf(id)].env == store0[id].env
  }

  ghost predicate StartDone(store0: Store, id: Id, quiet: bool, result: Result, store: Store) {
    && (Unhelped(store0, store) || Helped(store0, id, store))
    && (result.Success? && Helped(store0, id, store) ==> store[AliasOf(id)].env == store0[id].env)
    && (quiet && NeedsHelper(store0, id) ==> result.Success? && Helped(store0, id, store))
  }

  ghost predicate StartSoFar(store0: Store, id: Id, quiet: bool, pc: Pc, store: Store) {
    if pc.St? then pc.id == id && StartAt(store0, id, quiet, pc.st, store)
    else pc.Done? && StartDone(store0, id, quiet, pc.result, store)
  }

  lemma AllReadable(store: Store, id: Id)
    requires AliasInv(store) && id in store
    ensures Readable(store[id])
  {
  }

  lemma SameMark(r: Rec, r': Rec)
    requires SameRecord(r, r')
    ensures IsPriv(r') == IsPriv(r) && Readable(r') == Readable(r)
  {
  }

  /** The name. */
  lemma NameStep(store0: Store, id: Id, quiet: bool, at: StAt, store: Store, next: nat, done: Reply, reply: Reply, store': Store, next': nat)
    requires |id| == 2 && StartAt(store0, id, quiet, at, store) && (at.StAlias? || at.StPlain?)
    requires Call(WantStart(id, at), store, next, done, store', next') && Lifecycle.Heard(done, reply)
    ensures StartSoFar(store0, id, quiet && !reply.Fault?, ResumeStart(id, at, reply), store')
  {
    hide IsPriv, Readable, AliasOf, HelperThere, LabelsText, IsListing, NewRec, UpdatedRec, Placed, Without,
      SameButState;
  }

  lemma StartStep(store0: Store, id: Id, quiet: bool, at: StAt, store: Store, next: nat, done: Reply, reply: Reply, store': Store, next': nat)
    requires |id| == 2 && StartAt(store0, id, quiet, at, store) && at.StStart?
    requires Call(WantStart(id, at), store, next, done, store', next') && Lifecycle.Heard(done, reply)
    ensures StartSoFar(store0, id, quiet && !reply.Fault?, ResumeStart(id, at, reply), store')
  {
    hide IsPriv, Readable, HelperThere, LabelsText, IsListing, NewRec, UpdatedRec, Placed, Without;
  }

  lemma LabelsStep(store0: Store, id: Id, quiet: bool, at: StAt, store: Store, next: nat, done: Reply, reply: Reply, store': Store, next': nat)
    requires |id| == 2 && AliasInv(store0) && StartAt(store0, id, quiet, at, store) && at.StLabels?
    requires Call(WantStart(id, at), store, next, done, store', next') && Lifecycle.Heard(done, reply)
    ensures StartSoFar(store0, id, quiet && !reply.Fault?, ResumeStart(id, at, reply), store')
  {
    hide AliasInv, IsPriv, Readable, AliasOf, HelperThere, LabelsText, IsListing, NewRec, UpdatedRec, Placed, Without,
      SameButState;
    if at.target in store0 {
      AllReadable(store0, at.target);
      SameMark(store0[at.target], store[at.target]);
      if at.target == AliasOf(id) { HelperIsNotMarked(store0, id); }
    }
  }

  /** createPrivCnt, up to the Create. */
  lemma HelperStep(store0: Store, id: Id, quiet: bool, at: StAt, store: Store, next: nat, done: Reply, reply: Reply, store': Store, next': nat)
    requires |id| == 2 && StartAt(store0, id, quiet, at, store) && (at.StHelper? || at.StCreate?)
    requires Call(WantStart(id, at), store, next, done, store', next') && Lifecycle.Heard(done, reply)
    ensures StartSoFar(store0, id, quiet && !reply.Fault?, ResumeStart(id, at, reply), store')
  {
    hide IsPriv, Readable, HelperThere, LabelsText, IsListing, SameButState, Without;
  }

  lemma AliasOfContainer(id: Id)
    requires |id| == 2
    ensures AliasOf(id) == id + [PRIVILEGED]
  {
  }

  /** createPrivCnt, after the Create. */
  lemma EnvStep(store0: Store, id: Id, quiet: bool, at: StAt, store: Store, next: nat, done: Reply, reply: Reply, store': Store, next': nat)
    requires |id| == 2 && StartAt(store0, id, quiet, at, store) && (at.StEnv? || at.StSetEnv? || at.StUpdate?)
    requires Call(WantStart(id, at), store, next, done, store', next') && Lifecycle.Heard(done, reply)
    ensures StartSoFar(store0, id, quiet && !reply.Fault?, ResumeStart(id, at, reply), store')
  {
    hide IsPriv, Readable, HelperThere, LabelsText, IsListing, SameButState, Without, NewRec, Placed, AliasOf,
      Unhelped, NeedsHelper;
    AliasOfContainer(id);
  }

  /** Main result: StartContainer changes nothing but states, except that a marked container
      gets its helper; and if nothing fails, a marked container without a helper has one
      afterwards, with the environment of its parent. */
  lemma {:induction false} StartOutcome(c: Config, store0: Store, next0: nat, id: Id, moves: seq<Move>, pc: Pc, store: Store, next: nat)
    requires |id| == 2 && AliasInv(store0) && Follows(c, store0, next0, St(id, StAlias), moves, pc, store, next)
    ensures StartSoFar(store0, id, NoFault(moves), pc, store)
  {
    hide AliasInv, Call, WantStart, ResumeStart, StartAt, StartDone;
    if moves == [] {
      StartBegins(store0, id);
    } else {
      var n := |moves| - 1;
      var m := moves[n];
      StartOutcome(c, store0, next0, id, moves[..n], m.pc, m.store, m.next);
      var at, quiet := m.pc.st, NoFault(moves[..n]);
      if at.StAlias? || at.StPlain? {
        NameStep(store0, id, quiet, at, m.store, m.next, m.done, m.reply, store, next);
      } else if at.StLabels? {
        LabelsStep(store0, id, quiet, at, m.store, m.next, m.done, m.reply, store, next);
      } else if at.StStart? {
        StartStep(store0, id, quiet, at, m.store, m.next, m.done, m.reply, store, next);
      } else if at.StEnv? || at.StSetEnv? || at.StUpdate? {
        EnvStep(store0, id, quiet, at, m.store, m.next, m.done, m.reply, store, next);
      } else {
        HelperStep(store0, id, quiet, at, m.store, m.next, m.done, m.reply, store, next);
      }
      assert NoFault(moves) <==> quiet && !m.reply.Fault?;
    }
  }

  // ---- and the container runs

  ghost predicate UpAt(store: Store, id: Id) {
    id in store && IsUp(store[id].state)
  }

  /** What has been started so far. */
  ghost predicate UpSoFar(store0: Store, id: Id, quiet: bool, pc: Pc, store: Store) {
    if pc.Done? then Up(store0, id, quiet, pc.result, store)
    else pc.St? && (!pc.st.StAlias? && !pc.st.StPlain? && !pc.st.StStart? ==> UpAt(store, pc.st.target))
  }

  /** Success means that the container or its helper was started and runs; both of them if the
      helper is new. With no failure the call succeeds if the container is there, and what stands
      for it runs. */
  ghost predicate Up(store0: Store, id: Id, quiet: bool, result: Result, store: Store) {
    && (result.Success? ==> UpAt(store, id) || UpAt(store, AliasOf(id)))
    && (result.Success? && Helped(store0, id, store) ==> UpAt(store, id) && UpAt(store, AliasOf(id)))
    && (quiet ==> (result.Success? <==> id in store0))
    && (quiet && result.Success? ==> UpAt(store, FullName(store, id)))
  }

  lemma UpName(store0: Store, id: Id, quiet: bool, at: StAt, store: Store, next: nat, done: Reply, reply: Reply, store': Store, next': nat)
    requires |id| == 2 && AliasInv(store0) && StartAt(store0, id, quiet, at, store) && (at.StAlias? || at.StPlain? || at.StStart?)
    requires Call(WantStart(id, at), store, next, done, store', next') && Lifecycle.Heard(done, reply)
    ensures UpSoFar(store0, id, quiet && !reply.Fault?, ResumeStart(id, at, reply), store')
  {
    hide AliasInv, IsPriv, Readable, HelperThere, LabelsText, IsListing, NewRec, UpdatedRec, Placed, Without,
      Helped, KeptEnv, Unhelped, IsUp;
    UnhelpedKeys(store0, store);
    ParentThere(store0, id);
  }

  lemma UnhelpedKeys(store0: Store, store: Store)
    ensures Unhelped(store0, store) ==> store.Keys == store0.Keys
  {
  }

  lemma ParentThere(store: Store, id: Id)
    requires AliasInv(store) && |id| == 2
    ensures AliasOf(id) in store ==> id in store
  {
    assert Cri(AliasOf(id)) == id;
  }

  lemma UpLabels(store0: Store, id: Id, quiet: bool, at: StAt, store: Store, next: nat, done: Reply, reply: Reply, store': Store, next': nat)
    requires |id| == 2 && AliasInv(store0) && StartAt(store0, id, quiet, at, store) && at.StLabels? && UpAt(store, at.target)
    requires Call(WantStart(id, at), store, next, done, store', next') && Lifecycle.Heard(done, reply)
    ensures UpSoFar(store0, id, quiet && !reply.Fault?, ResumeStart(id, at, reply), store')
  {
    hide AliasInv, IsPriv, Readable, HelperThere, LabelsText, IsListing, NewRec, UpdatedRec, Placed, Without, SameButState,
      KeptEnv, IsUp;
    UnhelpedKeys(store0, store);
    ParentThere(store0, id);
    if at.target in store0 {
      AllReadable(store0, at.target);
      if Unhelped(store0, store) { SameThere(store0, store, at.target); }
    }
  }

  lemma SameThere(store0: Store, store: Store, id: Id)
    requires Unhelped(store0, store) && id in store0
    ensures id in store && (Readable(store[id]) <==> Readable(store0[id]))
  {
    hide FromPortoLabels;
  }

  lemma UpHelper(store0: Store, id: Id, quiet: bool, at: StAt, store: Store, next: nat, done: Reply, reply: Reply, store': Store, next': nat)
    requires |id| == 2 && IsTree(store0) && StartAt(store0, id, quiet, at, store) && (at.StHelper? || at.StCreate?) && UpAt(store, id)
    requires Call(WantStart(id, at), store, next, done, store', next') && Lifecycle.Heard(done, reply)
    ensures UpSoFar(store0, id, quiet && !reply.Fault?, ResumeStart(id, at, reply), store')
  {
    hide IsTree, IsPriv, Readable, HelperThere, LabelsText, IsListing, UpdatedRec, Without, SameButState, KeptEnv, IsUp;
    UnhelpedKeys(store0, store);
  }

  lemma UpEnv(store0: Store, id: Id, quiet: bool, at: StAt, store: Store, next: nat, done: Reply, reply: Reply, store': Store, next': nat)
    requires |id| == 2 && StartAt(store0, id, quiet, at, store) && (at.StEnv? || at.StSetEnv? || at.StUpdate?) && UpAt(store, id)
    requires Call(WantStart(id, at), store, next, done, store', next') && Lifecycle.Heard(done, reply)
    ensures UpSoFar(store0, id, quiet && !reply.Fault?, ResumeStart(id, at, reply), store')
  {
    hide IsPriv, Readable, HelperThere, LabelsText, IsListing, NewRec, Placed, Without, SameButState, KeptEnv, IsUp,
      AliasOf;
    AliasOfContainer(id);
    HelpedKeys(store0, id, store);
  }

  lemma HelpedKeys(store0: Store, id: Id, store: Store)
    ensures Helped(store0, id, store) ==> id in store0 && id in store && AliasOf(id) in store
  {
    hide IsPriv;
  }

  /** Main result: a StartContainer that succeeds has started the container, or the helper that
      stands for it, and it runs; with no failure it succeeds if and only if the container is
      there. */
  lemma {:induction false} StartRuns(c: Config, store0: Store, next0: nat, id: Id, moves: seq<Move>, pc: Pc, store: Store, next: nat)
    requires |id| == 2 && AliasInv(store0) && Follows(c, store0, next0, St(id, StAlias), moves, pc, store, next)
    ensures UpSoFar(store0, id, NoFault(moves), pc, store)
  {
    hide AliasInv, Call, WantStart, ResumeStart, StartAt, StartDone, UpAt, Up;
    if moves != [] {
      var n := |moves| - 1;
      var m := moves[n];
      StartRuns(c, store0, next0, id, moves[..n], m.pc, m.store, m.next);
      var at, quiet := m.pc.st, NoFault(moves[..n]);
      StartOutcome(c, store0, next0, id, moves[..n], m.pc, m.store, m.next);
      StartTarget(store0, id, quiet, at, m.store);
      if at.StAlias? || at.StPlain? || at.StStart? {
        UpName(store0, id, quiet, at, m.store, m.next, m.done, m.reply, store, next);
      } else if at.StLabels? {
        UpLabels(store0, id, quiet, at, m.store, m.next, m.done, m.reply, store, next);
      } else if at.StEnv? || at.StSetEnv? || at.StUpdate? {
        UpEnv(store0, id, quiet, at, m.store, m.next, m.done, m.reply, store, next);
      } else {
        TreeOf(store0);
        UpHelper(store0, id, quiet, at, m.store, m.next, m.done, m.reply, store, next);
      }
      assert NoFault(moves) <==> quiet && !m.reply.Fault?;
    }
  }

  lemma TreeOf(store: Store)
    requires AliasInv(store)
    ensures IsTree(store)
  {
  }

  lemma StartTarget(store0: Store, id: Id, quiet: bool, at: StAt, store: Store)
    requires StartAt(store0, id, quiet, at, store)
    ensures !at.StAlias? && !at.StPlain? && !at.StStart? && !at.StLabels? ==> at.target == id
  {
    hide Unhelped, Helped, IsPriv;
  }

  lemma StartBegins(store0: Store, id: Id)
    ensures StartAt(store0, id, true, StAlias, store0)
  {
  }

  // ---- ListContainers

  lemma {:induction false} SomeOrder(keys: set<Id>) returns (ids: seq<Id>)
    ensures Distinct(ids) && forall x :: x in ids <==> x in keys
  {
    if keys == {} {
      ids := [];
    } else {
      var id :| id in keys;
      var rest := SomeOrder(keys - {id});
      ids := rest + [id];
    }
  }

  lemma {:induction false} MaskedAll(ids: seq<Id>, under: Id)
    requires forall i :: 0 <= i < |ids| ==> under == [] || under < ids[i]
    ensures Masked(ids, under) == ids
  {
    if ids != [] { MaskedAll(ids[..|ids| - 1], under); }
  }

  lemma {:induction false} MaskedBefore(ids: seq<Id>, rest: seq<Id>, under: Id)
    requires under != [] && forall i :: 0 <= i < |rest| ==> !(under < rest[i])
    ensures Masked(ids + rest, under) == Masked(ids, under)
  {
    if rest == [] {
      assert ids + rest == ids;
    } else {
      var n := |rest| - 1;
      assert (ids + rest)[..|ids| + n] == ids + rest[..n] && (ids + rest)[|ids| + n] == rest[n];
      MaskedBefore(ids, rest[..n], under);
    }
  }

  /** What Porto lists under a mask is what it keeps of a list of the whole store. */
  lemma WholeListing(store: Store, listed: seq<Id>, under: Id) returns (ids: seq<Id>)
    requires IsListing(listed, store, under)
    ensures IsListing(ids, store, []) && Masked(ids, under) == listed
  {
    forall i | 0 <= i < |listed| ensures under == [] || under < listed[i] { assert listed[i] in listed; }
    MaskedAll(listed, under);
    if under == [] { return listed; }
    var rest := SomeOrder(set x | x in store && x !in listed);
    forall i | 0 <= i < |rest| ensures !(under < rest[i]) { assert rest[i] in rest; }
    MaskedBefore(listed, rest, under);
    ids := listed + rest;
    forall i, j | 0 <= i < j < |ids| ensures ids[i] != ids[j] {
      if i < |listed| <= j { assert ids[i] in listed && ids[j] in rest; }
    }
  }

  ghost predicate ListedIds(store: Store, f: Filter, ids: seq<Id>) {
    exists listed :: IsListing(listed, store, MaskOf(f)) && ids == FilterIds(listed, f)
  }

  /** Where a list call is: the store does not change, and a list is an answer in the sense of
      Listing; with no failure there is one. */
  ghost predicate ListSoFar(c: Config, store0: Store, f: Filter, quiet: bool, pc: Pc, store: Store) {
    && store == store0
    && if pc.Ls? then pc.f == f && (pc.ls.LsProps? ==> ListedIds(store0, f, pc.ls.ids))
       else pc.Done? && (pc.result.Listed? ==> AnswerOf(store0, f, c.vol, pc.result.cs)) && (quiet ==> pc.result.Listed?)
  }

  lemma ListAnswers(store: Store, f: Filter, vol: Id -> string, ids: seq<Id>, cs: seq<Container>)
    requires IsTree(store) && ListedIds(store, f, ids) && NoEmptyId(ids) && Entries(Restrict(store, ids), ids, f, vol) == Some(cs)
    ensures AnswerOf(store, f, vol, cs)
  {
    hide Entries, Keep, Masked, Restrict;
    var listed :| IsListing(listed, store, MaskOf(f)) && ids == FilterIds(listed, f);
    var all := WholeListing(store, listed, MaskOf(f));
    assert Response(all, f) == ids;
    forall i | 0 <= i < |all| ensures all[i] != [] { assert all[i] in all && Placed(store, all[i]); }
    assert NoEmptyId(all);
  }

  /** What is listed and filtered has no empty id. */
  lemma FilteredNonEmpty(store: Store, f: Filter, ids: seq<Id>)
    requires IsTree(store) && ListedIds(store, f, ids)
    ensures NoEmptyId(ids)
  {
    hide Keep;
    var listed :| IsListing(listed, store, MaskOf(f)) && ids == FilterIds(listed, f);
    if f.id.Some? { KeepWithin(listed, f.id.value); }
    if f.pod.Some? { KeepWithin(if f.id.Some? then Keep(listed, f.id.value) else listed, [f.pod.value]); }
    forall i | 0 <= i < |ids| ensures ids[i] != [] { assert ids[i] in listed && Placed(store, ids[i]); }
  }

  lemma {:induction false} KeepWithin(ids: seq<Id>, target: Id)
    ensures forall id <- Keep(ids, target) :: id in ids
  {
    if ids != [] { KeepWithin(ids[..|ids| - 1], target); }
  }

  lemma RestrictRead(store: Store, ids: seq<Id>)
    requires AliasInv(store)
    ensures AllRead(Restrict(store, ids)) && IsTree(store)
  {
  }

  lemma ListStep(c: Config, store0: Store, f: Filter, quiet: bool, at: LsAt, next: nat, done: Reply, reply: Reply, store': Store, next': nat)
    requires AliasInv(store0) && ListSoFar(c, store0, f, quiet, Ls(f, at), store0)
    requires Call(WantList(f, at), store0, next, done, store', next') && Lifecycle.Heard(done, reply)
    ensures ListSoFar(c, store0, f, quiet && !reply.Fault?, ResumeList(c, f, at, reply), store')
  {
    hide AliasInv, Entries, FilterIds, AnswerOf, IsTree, AllRead, LabelsText, NewRec, UpdatedRec, Placed, IsListing,
      MaskOf, NoEmptyId;
    if at.LsIds? && reply.Listing? {
      assert ListedIds(store0, f, FilterIds(reply.ids, f));
    } else if at.LsProps? && reply.Many? {
      RestrictRead(store0, at.ids);
      FilteredNonEmpty(store0, f, at.ids);
      assert reply.recs == Restrict(store0, at.ids);
      NoPanic(reply.recs, at.ids, f, c.vol);
      ListAnswers(store0, f, c.vol, at.ids, Entries(reply.recs, at.ids, f, c.vol).value);
    }
  }

  /** Main result: a list that the handler gives is an answer of ListContainers on the store,
      which it leaves alone, and a call in which nothing fails gives one. So FilterCommutes,
      PodIdAsContainerId and AnswerExactly speak of the handler. */
  lemma {:induction false} ListOutcome(c: Config, store0: Store, next0: nat, f: Filter, moves: seq<Move>, pc: Pc, store: Store, next: nat)
    requires AliasInv(store0) && Follows(c, store0, next0, Ls(f, LsIds), moves, pc, store, next)
    ensures ListSoFar(c, store0, f, NoFault(moves), pc, store)
  {
    hide AliasInv, Call, WantList, ResumeList, AnswerOf, ListedIds;
    if moves != [] {
      var n := |moves| - 1;
      var m := moves[n];
      ListOutcome(c, store0, next0, f, moves[..n], m.pc, m.store, m.next);
      ListStep(c, store0, f, NoFault(moves[..n]), m.pc.ls, m.next, m.done, m.reply, store, next);
      assert NoFault(moves) <==> NoFault(moves[..n]) && !m.reply.Fault?;
    }
  }
}
