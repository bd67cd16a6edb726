/** The handlers of the runtime service as sequences of Porto calls and outside steps
    (cmd/portoshim/runtime_mapper.go, cmd/portoshim/privileged.go): for each point of a
    handler the call it makes next (Want) and where the answer takes it (Resume).

    Steps in a row that touch no record and that only return on failure are taken together
    (Prepare, Command, CdiStep).
 */
module Handlers {
  import opened GoStrings
  import GoPaths
  import opened Labels
  import opened Network
  import opened Ids
  import opened Porto
  import opened Listing

  /** Fixed while the shim runs. */
  datatype Config = Config(netnsDir: string, vol: Id -> string)

  datatype NetMode = Host | Netns(name: string)

  /** RunPodSandbox; the pod id is fresh from createID, and text is the id as text. */
  datatype RunReq = RunReq(pod: string, text: GoString, cfg: PodConfig, image: GoString, mode: NetMode)

  /** CreateContainer; cid is fresh from createID. */
  datatype CreateReq = CreateReq(
    podId: Id, cid: string, text: GoString, labels: map<GoString, GoString>, annotations: map<GoString, GoString>,
    name: GoString, attempt: GoString, logPath: GoString, image: GoString, privileged: bool, privCmd: GoString, cdi: bool)

  const CONTAINER_NAME: GoString := "io.kubernetes." + "container.name"
  const LOG_PATH: GoString := "io.kubernetes." + "container.logpath"
  const TRUE: GoString := "true"
  const PRIV_CMD: GoString := "privCmd"

  /** preparePodLabels, encoded for Porto. */
  function RunLabels(r: RunReq): Labels {
    WithEngine(PodLabels(r.cfg, r.text, r.image), r.cfg.annotations)
  }

  /** prepareContainerLabels. */
  function ContainerLabels(q: CreateReq): map<GoString, GoString> {
    var l := WithDefault(q.labels, CONTAINER_NAME, q.name)
             [ATTEMPT := q.attempt][LOG_PATH := q.logPath][CONTAINER_ID := q.text][CONTAINER_IMAGE := q.image];
    if q.privileged then l[PRIV := TRUE][PRIV_CMD := q.privCmd] else l
  }

  function CreateLabels(q: CreateReq): Labels {
    WithEngine(ContainerLabels(q), q.annotations)
  }

  function RunNet(c: Config, r: RunReq): Option<string> {
    match r.mode
    case Host => None
    case Netns(name) => Some(StoredNet(c.netnsDir, name))
  }

  // ---- the points of the handlers

  /** What RemovePodSandbox has read. */
  datatype PodInfo = PodInfo(net: string, inst: nat, labels: string)

  /** FailedAfter: an error after a record was created; cleaned tells whether its Destroy
      succeeded. */
  datatype Result =
    | Success | Error | Panicked
    | FailedAfter(failed: Id, inst: nat, cleaned: bool)
    | Reported(c: Container)
    | Listed(cs: seq<Container>)

  // k is the instance that the handler created, target the resolved name.
  datatype RunAt =
    | RunImage | RunDirs | RunCreate
    | RunCommand(k: nat) | RunLoad(k: nat) | RunNetns(k: nat) | RunAdd(k: nat) | RunUpdate(k: nat) | RunCleanup(k: nat)

  datatype CrAt =
    | CrPrepare | CrAlias | CrPlain | CrSandbox(target: Id) | CrCreate
    | CrCdi(k: nat) | CrCommand(k: nat) | CrUpdate(k: nat) | CrCleanup(k: nat)

  datatype StAt =
    | StAlias | StPlain | StStart(target: Id) | StLabels(target: Id)
    | StHelper(target: Id) | StCreate(target: Id) | StEnv(target: Id) | StSetEnv(target: Id, env: string) | StUpdate(target: Id)

  datatype SsAt = SsAlias | SsPlain | SsProps(target: Id) | SsLabels(target: Id, rec: Rec) | SsDestroy(target: Id, inst: nat, c: Container)

  datatype RpAt =
    | RpNet | RpLabels(info: PodInfo) | RpStop(info: PodInfo) | RpLoad(info: PodInfo) | RpClosed(info: PodInfo)
    | RpDel(info: PodInfo, args: CniArgs) | RpNetns(info: PodInfo) | RpDestroy(info: PodInfo) | RpRoot

  datatype RcAt = RcDestroy | RcRoot

  datatype LsAt = LsIds | LsProps(ids: seq<Id>)

  datatype ExAt = ExEnv | ExCreate | ExDestroy(k: nat)

  /** A call: its handler, what it is about, and its point. */
  datatype Pc =
    | Run(r: RunReq, run: RunAt)          // RunPodSandbox
    | Cr(q: CreateReq, cr: CrAt)          // CreateContainer
    | St(id: Id, st: StAt)                // StartContainer and createPrivCnt
    | Ss(id: Id, ss: SsAt)                // ContainerStatus and destroyDead
    | Rp(pod: string, rp: RpAt)           // RemovePodSandbox and removeNetNS
    | Rc(id: Id, rc: RcAt)                // RemoveContainer
    | Ls(f: Filter, ls: LsAt)             // ListContainers
    | Ex(id: Id, e: string, ex: ExAt)     // ExecSync
    | Done(result: Result)

  // ---- where the handlers begin

  function BeginStart(id: Id): Pc {
    if |id| == 2 then St(id, StAlias) else Done(Error)
  }

  function BeginStatus(id: Id): Pc {
    if |id| == 2 then Ss(id, SsAlias) else Done(Error)
  }

  function BeginRemove(id: Id): Pc {
    if |id| == 2 then Rc(id, RcDestroy) else Done(Error)
  }

  function BeginRemovePod(id: Id): Pc {
    if |id| == 1 then Rp(id[0], RpNet) else Done(Error)
  }

  function CntId(q: CreateReq): Id {
    q.podId + [q.cid]
  }

  /** The id a call is about. */
  function Subject(pc: Pc): Id {
    match pc
    case Run(r, _) => [r.pod]
    case Cr(q, _) => CntId(q)
    case St(id, _) => id
    case Ss(id, _) => id
    case Rp(pod, _) => [pod]
    case Rc(id, _) => id
    case Ls(_, _) => []
    case Ex(id, e, _) => id + [e]
    case Done(_) => []
  }

  predicate RunMade(at: RunAt) {
    !at.RunImage? && !at.RunDirs? && !at.RunCreate?
  }

  predicate CrMade(at: CrAt) {
    at.CrCdi? || at.CrCommand? || at.CrUpdate? || at.CrCleanup?
  }

  /** A record with a random id is created here. */
  predicate Draws(pc: Pc) {
    match pc
    case Run(_, at) => at.RunCreate?
    case Cr(_, at) => at.CrCreate?
    case Ex(_, _, at) => at.ExCreate?
    case _ => false
  }

  /** The handler has created its record and has not finished with it. */
  predicate Creating(pc: Pc) {
    match pc
    case Run(_, at) => RunMade(at)
    case Cr(_, at) => CrMade(at)
    case Ex(_, _, at) => at.ExDestroy?
    case _ => false
  }

  /** RunPodSandbox has created its record and can still come to its last update. */
  predicate Opening(pc: Pc) {
    pc.Run? && RunMade(pc.run) && !pc.run.RunCleanup?
  }

  function Made(pc: Pc): nat
    requires Creating(pc)
  {
    match pc
    case Run(_, at) => at.k
    case Cr(_, at) => at.k
    case Ex(_, _, at) => at.k
  }

  /** The call has drawn its id and has created nothing yet. */
  predicate Fresh(pc: Pc) {
    (pc.Run? || pc.Cr? || pc.Ex?) && !Creating(pc)
  }

  /** RemovePodSandbox has read the net property and has not destroyed the pod. */
  predicate Removing(pc: Pc) {
    pc.Rp? && !pc.rp.RpNet? && !pc.rp.RpRoot?
  }

  /** StartContainer has seen the label `priv`. */
  predicate Helping(pc: Pc) {
    pc.St? && (pc.st.StHelper? || pc.st.StCreate? || pc.st.StEnv? || pc.st.StSetEnv? || pc.st.StUpdate?)
  }

  // ---- the next call, and where the answer leads

  function Want(c: Config, pc: Pc): Op
    requires !pc.Done?
  {
    match pc
    case Run(r, at) => WantRun(c, r, at)
    case Cr(q, at) => WantCreate(q, at)
    case St(id, at) => WantStart(id, at)
    case Ss(id, at) => WantStatus(id, at)
    case Rp(pod, at) => WantRemovePod(pod, at)
    case Rc(id, at) => WantRemove(id, at)
    case Ls(f, at) => WantList(f, at)
    case Ex(id, e, at) => WantExec(id, e, at)
  }

  function Resume(c: Config, pc: Pc, reply: Reply): Pc
    requires !pc.Done?
  {
    match pc
    case Run(r, at) => ResumeRun(r, at, reply)
    case Cr(q, at) => ResumeCreate(q, at, reply)
    case St(id, at) => ResumeStart(id, at, reply)
    case Ss(id, at) => ResumeStatus(c, id, at, reply)
    case Rp(pod, at) => ResumeRemovePod(c, pod, at, reply)
    case Rc(id, at) => ResumeRemove(id, at, reply)
    case Ls(f, at) => ResumeList(c, f, at, reply)
    case Ex(id, e, at) => ResumeExec(id, e, at, reply)
  }

  // ---- RunPodSandbox

  /** The arguments of CNI ADD in preparePodNetwork. */
  function PodAddArgs(c: Config, r: RunReq): CniArgs {
    CniArgs(r.pod, if r.mode.Netns? then GoPaths.JoinPath(c.netnsDir, r.mode.name) else "",
            r.cfg.ns, r.cfg.name, r.cfg.uid, r.cfg.annotations)
  }

  function WantRun(c: Config, r: RunReq, at: RunAt): Op {
    match at
    case RunImage => Outside(Image)
    case RunDirs => Outside(Directories)
    case RunCreate => Create([r.pod], Some(RunLabels(r)), false)
    case RunCommand(_) => Outside(Command)
    case RunLoad(_) => Outside(CniLoad)
    case RunNetns(_) => Outside(NewNetns)
    case RunAdd(_) => Outside(CniAdd(PodAddArgs(c, r)))
    case RunUpdate(_) => Update([r.pod], None, RunNet(c, r), true)
    case RunCleanup(_) => Destroy([r.pod])
  }

  function ResumeRun(r: RunReq, at: RunAt, reply: Reply): Pc {
    match at
    case RunImage => if reply.Ok? then Run(r, RunDirs) else Done(Error)
    case RunDirs => if reply.Ok? then Run(r, RunCreate) else Done(Error)
    case RunCreate => if reply.Created? then Run(r, RunCommand(reply.inst)) else Done(Error)
    case RunCommand(k) => Run(r, if !reply.Ok? then RunCleanup(k) else if r.mode.Netns? then RunLoad(k) else RunUpdate(k))
    case RunLoad(k) => Run(r, if reply.Ok? then RunNetns(k) else RunCleanup(k))
    case RunNetns(k) => Run(r, if reply.Ok? then RunAdd(k) else RunCleanup(k))
    case RunAdd(k) => Run(r, if reply.Ok? then RunUpdate(k) else RunCleanup(k))
    case RunUpdate(k) => if reply.Ok? then Done(Success) else Run(r, RunCleanup(k))
    case RunCleanup(k) => Done(FailedAfter([r.pod], k, reply.Ok?))
  }

  // ---- CreateContainer

  function WantCreate(q: CreateReq, at: CrAt): Op {
    match at
    case CrPrepare => Outside(Prepare)
    case CrAlias => Get(AliasOf(q.podId))
    case CrPlain => Get(q.podId)
    case CrSandbox(target) => Update(target, None, None, false)
    case CrCreate => Create(CntId(q), None, false)
    case CrCdi(_) => Outside(CdiStep)
    case CrCommand(_) => Outside(Command)
    case CrUpdate(_) => Update(CntId(q), Some(CreateLabels(q)), None, false)
    case CrCleanup(_) => Destroy(CntId(q))
  }

  function ResumeCreate(q: CreateReq, at: CrAt, reply: Reply): Pc {
    match at
    case CrPrepare => if reply.Ok? then Cr(q, CrAlias) else Done(Error)
    case CrAlias => Cr(q, if reply.Found? then CrSandbox(AliasOf(q.podId)) else CrPlain)
    case CrPlain => Cr(q, CrSandbox(q.podId))
    case CrSandbox(_) => if reply.Ok? then Cr(q, CrCreate) else Done(Error)
    case CrCreate => if !reply.Created? then Done(Error) else Cr(q, if q.cdi then CrCdi(reply.inst) else CrCommand(reply.inst))
    case CrCdi(k) => Cr(q, if reply.Ok? then CrCommand(k) else CrCleanup(k))
    case CrCommand(k) => Cr(q, if reply.Ok? || q.privileged then CrUpdate(k) else CrCleanup(k))
    case CrUpdate(k) => if reply.Ok? then Done(Success) else Cr(q, CrCleanup(k))
    case CrCleanup(k) => Done(FailedAfter(CntId(q), k, reply.Ok?))
  }

  // ---- StartContainer and createPrivCnt

  function WantStart(id: Id, at: StAt): Op {
    match at
    case StAlias => Get(AliasOf(id))
    case StPlain => Get(id)
    case StStart(target) => Start(target)
    case StLabels(target) => Get(target)
    case StHelper(target) => Get(target + [PRIVILEGED])
    case StCreate(target) => Create(target + [PRIVILEGED], None, false)
    case StEnv(target) => Get(target)
    case StSetEnv(target, env) => SetEnv(target + [PRIVILEGED], env)
    case StUpdate(target) => Update(target + [PRIVILEGED], None, None, true)
  }

  /** createPrivCnt leaves a helper in these states alone. */
  predicate HelperThere(state: string) {
    state in ["meta", "running", "stopped"]
  }

  function ResumeStart(id: Id, at: StAt, reply: Reply): Pc {
    match at
    case StAlias => St(id, if reply.Found? then StStart(AliasOf(id)) else StPlain)
    case StPlain => St(id, StStart(id))
    case StStart(target) => if reply.Ok? then St(id, StLabels(target)) else Done(Error)
    case StLabels(target) =>
      if !reply.Found? then Done(Success)
      else if !Readable(reply.rec) then Done(Panicked)
      else if IsPriv(reply.rec) then St(id, StHelper(target)) else Done(Success)
    case StHelper(target) =>
      if reply.Found? && HelperThere(reply.rec.state) then Done(Success) else St(id, StCreate(target))
    case StCreate(target) => if reply.Created? then St(id, StEnv(target)) else Done(Error)
    case StEnv(target) => if reply.Found? then St(id, StSetEnv(target, reply.rec.env)) else Done(Error)
    case StSetEnv(target, env) => if reply.Ok? then St(id, StUpdate(target)) else Done(Error)
    case StUpdate(_) => if reply.Ok? then Done(Success) else Done(Error)
  }

  // ---- ContainerStatus and destroyDead

  function WantStatus(id: Id, at: SsAt): Op {
    match at
    case SsAlias => Get(AliasOf(id))
    case SsPlain => Get(id)
    case SsProps(target) => Get(target)
    case SsLabels(target, _) => Get(Cri(target))
    case SsDestroy(target, _, _) => Destroy(Cri(target))
  }

  /** Everything is read: report, and reap what is dead. */
  function Conclude(c: Config, id: Id, target: Id, rec: Rec, labels: string, inst: nat): Pc {
    if id == [] then Done(Error)
    else match Report(id, target, rec, labels, c.vol)
      case None => Done(Panicked)
      case Some(status) => if rec.state == "dead" then Ss(id, SsDestroy(target, inst, status)) else Done(Reported(status))
  }

  function ResumeStatus(c: Config, id: Id, at: SsAt, reply: Reply): Pc {
    match at
    case SsAlias => Ss(id, if reply.Found? then SsProps(AliasOf(id)) else SsPlain)
    case SsPlain => Ss(id, SsProps(id))
    case SsProps(target) =>
      if !reply.Found? then Done(Error)
      else if Privileged(target) then Ss(id, SsLabels(target, reply.rec))
      else Conclude(c, id, target, reply.rec, reply.rec.labels, reply.rec.inst)
    case SsLabels(target, rec) =>
      if !reply.Found? then Done(Error) else Conclude(c, id, target, rec, reply.rec.labels, reply.rec.inst)
    case SsDestroy(_, _, status) => if reply.Ok? then Done(Reported(status)) else Done(Error)
  }

  // ---- RemovePodSandbox and removeNetNS

  /** The pod is on a netns of its own. */
  predicate HasNetns(net: string) {
    NetNS(net, ["netns"]) != ""
  }

  function WantRemovePod(pod: string, at: RpAt): Op {
    match at
    case RpNet => Get([pod])
    case RpLabels(_) => Get([pod])
    case RpStop(_) => Stop([pod])
    case RpLoad(_) => Outside(CniLoad)
    case RpClosed(_) => Outside(NetnsClosed)
    case RpDel(_, args) => Outside(CniDel(args))
    case RpNetns(_) => Outside(NetnsRemove)
    case RpDestroy(_) => Destroy([pod])
    case RpRoot => Outside(RemoveRoot)
  }

  function ResumeRemovePod(c: Config, pod: string, at: RpAt, reply: Reply): Pc {
    match at
    case RpNet =>
      if reply.NotExist? then Done(Success)
      else if !reply.Found? then Done(Error)
      else
        var info := PodInfo(reply.rec.net, reply.rec.inst, "");
        Rp(pod, if HasNetns(reply.rec.net) then RpLabels(info) else RpStop(info))
    case RpLabels(i) =>
      if !reply.Found? then Done(Error)
      else if !Readable(reply.rec) then Done(Panicked)
      else Rp(pod, RpStop(i.(labels := reply.rec.labels)))
    case RpStop(i) => if !reply.Ok? then Done(Error) else Rp(pod, if HasNetns(i.net) then RpLoad(i) else RpDestroy(i))
    case RpLoad(i) => if reply.Ok? then Rp(pod, RpClosed(i)) else Done(Error)
    case RpClosed(i) =>
      if !reply.Closed? then Done(Error)
      else (match DelArgs(pod, i.labels, i.net, c.netnsDir, reply.closed)
            case None => Done(Panicked)
            case Some(args) => Rp(pod, RpDel(i, args)))
    case RpDel(i, _) => if reply.Ok? then Rp(pod, RpNetns(i)) else Done(Error)
    case RpNetns(i) => if reply.Ok? then Rp(pod, RpDestroy(i)) else Done(Error)
    case RpDestroy(_) => if reply.Ok? then Rp(pod, RpRoot) else Done(Error)
    case RpRoot => if reply.Ok? then Done(Success) else Done(Error)
  }

  // ---- RemoveContainer

  function WantRemove(id: Id, at: RcAt): Op {
    match at
    case RcDestroy => Destroy(id)
    case RcRoot => Outside(RemoveRoot)
  }

  function ResumeRemove(id: Id, at: RcAt, reply: Reply): Pc {
    match at
    case RcDestroy => if reply.Ok? then Rc(id, RcRoot) else Done(Error)
    case RcRoot => if reply.Ok? then Done(Success) else Done(Error)
  }

  // ---- ListContainers

  function FilterIds(ids: seq<Id>, f: Filter): seq<Id> {
    var byId := if f.id.Some? then Keep(ids, f.id.value) else ids;
    if f.pod.Some? then Keep(byId, [f.pod.value]) else byId
  }

  function WantList(f: Filter, at: LsAt): Op {
    match at
    case LsIds => ListIds(MaskOf(f))
    case LsProps(ids) => GetMany(ids)
  }

  function ResumeList(c: Config, f: Filter, at: LsAt, reply: Reply): Pc {
    match at
    case LsIds => if reply.Listing? then Ls(f, LsProps(FilterIds(reply.ids, f))) else Done(Error)
    case LsProps(ids) =>
      if !reply.Many? || !NoEmptyId(ids) then Done(Error)
      else (match Entries(reply.recs, ids, f, c.vol)
            case None => Done(Panicked)
            case Some(cs) => Done(Listed(cs)))
  }

  // ---- ExecSync

  function WantExec(id: Id, e: string, at: ExAt): Op {
    match at
    case ExEnv => Get(id)
    case ExCreate => Create(id + [e], None, true)
    case ExDestroy(_) => Destroy(id + [e])
  }

  function ResumeExec(id: Id, e: string, at: ExAt, reply: Reply): Pc {
    match at
    case ExEnv => if reply.Found? then Ex(id, e, ExCreate) else Done(Error)
    case ExCreate => if reply.Created? then Ex(id, e, ExDestroy(reply.inst)) else Done(Error)
    case ExDestroy(_) => Done(Success)
  }
}
