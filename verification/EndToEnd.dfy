/** From CreateContainer over StartContainer to ListContainers: a container comes out of the
    list as it was asked for. */
module EndToEnd {
  import opened GoStrings
  import GoPaths
  import opened Labels
  import opened Network
  import opened Ids
  import opened Porto
  import opened Listing
  import opened Handlers
  import opened LifecycleRecords
  import opened Paths
  import opened Lifecycle

  // ---- the labels of a container

  lemma ContainerKeysDiffer()
    ensures PRIV !in [CONTAINER_NAME, ATTEMPT, LOG_PATH, CONTAINER_ID, CONTAINER_IMAGE, PRIV_CMD]
    ensures CONTAINER_ID != CONTAINER_IMAGE && PRIV_CMD !in [CONTAINER_ID, CONTAINER_IMAGE]
  {
    assert |PRIV| == 4 && |CONTAINER_NAME| == 28 && |ATTEMPT| == 7 && |LOG_PATH| == 31 && |CONTAINER_ID| == 22
           && |CONTAINER_IMAGE| == 25 && |PRIV_CMD| == 7 && PRIV_CMD[0] == 'p';
  }

  /** A container is marked exactly when it was asked for as privileged, or when the request's
      own labels say so. */
  predicate Marks(q: CreateReq) {
    q.privileged || (PRIV in q.labels && q.labels[PRIV] == TRUE)
  }

  lemma LabelsOfRequest(q: CreateReq)
    ensures var l := ContainerLabels(q);
            && CONTAINER_ID in l && l[CONTAINER_ID] == q.text && CONTAINER_IMAGE in l && l[CONTAINER_IMAGE] == q.image
            && (Marks(q) <==> PRIV in l && l[PRIV] == TRUE) && (PRIV in l <==> q.privileged || PRIV in q.labels)
  {
    hide Text, CntId;
    ContainerKeysDiffer();
  }

  lemma KeyTexts()
    ensures PRIV == "priv" && PRIV_CMD == "privCmd" && TRUE == "true" && ATTEMPT == "attempt"
    ensures CONTAINER_ID == "portoshim.container.id" && CONTAINER_IMAGE == "portoshim.container.image"
    ensures CONTAINER_NAME == "io.kubernetes.container.name" && LOG_PATH == "io.kubernetes.container.logpath"
  {
  }

  /** The labels of a request, key by key. */
  predicate CarriesRequest(q: CreateReq, l: Labels) {
    && ATTEMPT in l && l[ATTEMPT] == q.attempt && LOG_PATH in l && l[LOG_PATH] == q.logPath
    && CONTAINER_ID in l && l[CONTAINER_ID] == q.text && CONTAINER_IMAGE in l && l[CONTAINER_IMAGE] == q.image
    && (q.privileged ==> PRIV in l && l[PRIV] == "true" && PRIV_CMD in l && l[PRIV_CMD] == q.privCmd)
    && (CONTAINER_NAME !in q.labels ==> if q.name == "" then CONTAINER_NAME !in l else CONTAINER_NAME in l && l[CONTAINER_NAME] == q.name)
    && (forall k <- q.labels :: !Own(q, k) ==> k in l && l[k] == q.labels[k])
    && (forall k <- l :: k in q.labels || Own(q, k) || k == CONTAINER_NAME)
  }

  /** Keys that Portoshim sets whatever the request says. */
  predicate Own(q: CreateReq, k: string) {
    k in [ATTEMPT, LOG_PATH, CONTAINER_ID, CONTAINER_IMAGE] || (q.privileged && k in [PRIV, PRIV_CMD])
  }

  lemma OtherKeysDiffer()
    ensures ATTEMPT !in [CONTAINER_NAME, LOG_PATH, CONTAINER_ID, CONTAINER_IMAGE, PRIV_CMD]
    ensures LOG_PATH !in [CONTAINER_NAME, CONTAINER_ID, CONTAINER_IMAGE, PRIV_CMD]
    ensures CONTAINER_NAME !in [CONTAINER_ID, CONTAINER_IMAGE, PRIV_CMD]
  {
    assert |CONTAINER_NAME| == 28 && |ATTEMPT| == 7 && |LOG_PATH| == 31 && |CONTAINER_ID| == 22
           && |CONTAINER_IMAGE| == 25 && |PRIV_CMD| == 7 && PRIV_CMD[0] == 'p' && ATTEMPT[0] == 'a';
  }

  /** Main result: the labels that a container gets: those of the request, the name unless the
      request has one, and Portoshim's own. */
  lemma ContainerLabelsSay(q: CreateReq)
    ensures CarriesRequest(q, ContainerLabels(q))
  {
    ContainerKeysDiffer();
    OtherKeysDiffer();
    TrueText();
  }

  lemma TrueText()
    ensures TRUE == "true"
  {
  }

  lemma RecordOfRequest(q: CreateReq, rec: Rec)
    requires Prints(rec.labels, CreateLabels(q))
    ensures FromPortoLabels(rec.labels) == Some(Parsed(ContainerLabels(q), q.annotations))
    ensures IsPriv(rec) <==> Marks(q)
  {
    hide Prints, WithEngine, FromPortoLabels, ContainerLabels;
    LabelsRoundTrip(rec.labels, ContainerLabels(q), q.annotations);
    LabelsOfRequest(q);
  }

  // ---- CreateContainer

  predicate ForRequest(q: CreateReq, pc: Pc) {
    pc.Done? || (pc.Cr? && pc.q == q)
  }

  lemma RequestKept(c: Config, q: CreateReq, pc: Pc, reply: Reply)
    requires ForRequest(q, pc) && !pc.Done?
    ensures ForRequest(q, Resume(c, pc, reply))
    ensures Resume(c, pc, reply) == Done(Success) ==> Creating(pc) && reply.Ok? && Want(c, pc) == Update(CntId(q), Some(CreateLabels(q)), None, false)
  {
    hide CreateLabels, CntId, AliasOf, ResumeRun, ResumeStart, ResumeStatus, ResumeRemovePod, ResumeList, WantRun,
      WantStart, WantStatus, WantRemovePod, WantList;
  }

  lemma UpdateGivesLabels(id: Id, labels: Labels, store: Store, next: nat, store': Store, next': nat)
    requires Call(Update(id, Some(labels), None, false), store, next, Ok, store', next')
    ensures id in store && id in store' && Prints(store'[id].labels, labels) && store'[id].state == store[id].state
  {
    hide Prints, IsListing, NewRec;
  }

  /** Between its Create and its last update nothing of CreateContainer starts the container. */
  lemma StaysStopped(c: Config, q: CreateReq, pc: Pc, store: Store, next: nat, done: Reply, reply: Reply, store': Store, next': nat)
    requires pc.Cr? && pc.q == q && Heard(done, reply) && Creating(Resume(c, pc, reply))
    requires Creating(pc) ==> CntId(q) in store && store[CntId(q)].state == "stopped"
    requires Call(Want(c, pc), store, next, done, store', next')
    ensures CntId(q) in store' && store'[CntId(q)].state == "stopped"
  {
    hide CreateLabels, CntId, LabelsText, IsListing, IsUp, AliasOf, ResumeRun, ResumeStart, ResumeStatus, ResumeRemovePod, ResumeList,
      WantRun, WantStart, WantStatus, WantRemovePod, WantList;
  }

  lemma {:induction false} CreatedAsAsked(c: Config, store0: Store, next0: nat, q: CreateReq, moves: seq<Move>, pc: Pc, store: Store, next: nat)
    requires Follows(c, store0, next0, Cr(q, CrPrepare), moves, pc, store, next)
    ensures ForRequest(q, pc)
    ensures Creating(pc) ==> CntId(q) in store && store[CntId(q)].state == "stopped"
    ensures pc == Done(Success) ==> CntId(q) in store && Prints(store[CntId(q)].labels, CreateLabels(q)) && store[CntId(q)].state == "stopped"
  {
    hide Want, Resume, Call, CntId, CreateLabels, Prints, Creating;
    NotCreating(q);
    if moves != [] {
      var n := |moves| - 1;
      var m := moves[n];
      CreatedAsAsked(c, store0, next0, q, moves[..n], m.pc, m.store, m.next);
      RequestKept(c, q, m.pc, m.reply);
      if Creating(pc) {
        CreatingIsCr(q, pc);
        StaysStopped(c, q, m.pc, m.store, m.next, m.done, m.reply, store, next);
      }
      if pc == Done(Success) {
        UpdateGivesLabels(CntId(q), CreateLabels(q), m.store, m.next, store, next);
      }
    }
  }

  lemma NotCreating(q: CreateReq)
    ensures !Creating(Cr(q, CrPrepare)) && !Creating(Done(Success))
  {
  }

  lemma CreatingIsCr(q: CreateReq, pc: Pc)
    requires Creating(pc)
    ensures !pc.Done?
  {
  }

  /** What the list says of a container asked for with q. */
  function Asked(q: CreateReq, rec: Rec): Container
    requires q.podId != []
  {
    Container(CntId(q), q.podId[0], ContainerLabels(q), q.annotations, q.image, ConvertState(rec.state), rec.created)
  }

  // ---- ListContainers

  /** A call of ListContainers on this store that answers cs. */
  ghost predicate Answers(c: Config, store: Store, next: nat, f: Filter, moves: seq<Move>, cs: seq<Container>, store': Store, next': nat) {
    Follows(c, store, next, Ls(f, LsIds), moves, Done(Listed(cs)), store', next')
  }

  ghost predicate NotIn(cs: seq<Container>, id: Id) {
    forall i :: 0 <= i < |cs| ==> cs[i].id != id
  }

  predicate Deep(f: Filter) {
    f.id.Some? ==> |f.id.value| >= 2
  }

  lemma ReportAsAsked(q: CreateReq, full: Id, rec: Rec, labels: string, vol: Id -> string)
    requires |q.podId| == 1 && FromPortoLabels(labels) == Some(Parsed(ContainerLabels(q), q.annotations))
    ensures Report(CntId(q), full, rec, labels, vol) == Some(Asked(q, rec))
  {
    hide FromPortoLabels, ContainerLabels, ConvertState;
    LabelsOfRequest(q);
    assert CntId(q)[0] == q.podId[0];
  }

  lemma StatusIsReport(store: Store, id: Id, vol: Id -> string)
    requires AliasInv(store) && id in store && |id| == 2
    ensures FullName(store, id) in store && Readable(store[id])
    ensures StatusOf(store, id, vol) == Report(id, FullName(store, id), store[FullName(store, id)], store[id].labels, vol)
  {
    hide FromPortoLabels, Report;
    assert Cri(AliasOf(id)) == id;
  }

  /** The record that stands for a container. */
  function Standing(q: CreateReq, store: Store): Rec
    requires CntId(q) in store
  {
    store[FullName(store, CntId(q))]
  }

  /** The status of a container asked for with q. */
  function Showing(q: CreateReq, store: Store): Container
    requires q.podId != [] && CntId(q) in store
  {
    Asked(q, Standing(q, store))
  }

  lemma StatusAsAsked(c: Config, q: CreateReq, store: Store)
    requires AliasInv(store) && |q.podId| == 1 && CntId(q) in store && Prints(store[CntId(q)].labels, CreateLabels(q))
    ensures StatusOf(store, CntId(q), c.vol) == Some(Showing(q, store)) && Readable(store[CntId(q)])
    ensures Listable(store, CntId(q)) <==> (q.privileged || PRIV in q.labels ==> AliasOf(CntId(q)) in store)
  {
    hide AliasInv, StatusOf, Report, FromPortoLabels, Prints, CreateLabels, ContainerLabels, ConvertState, AliasOf,
      FullName, IsPriv;
    var id := CntId(q);
    RecordOfRequest(q, store[id]);
    LabelsOfRequest(q);
    StatusIsReport(store, id, c.vol);
    ReportAsAsked(q, FullName(store, id), store[FullName(store, id)], store[id].labels, c.vol);
  }

  /** What ContainerStatus answers when nothing fails. */
  lemma StatusAnswers(c: Config, q: CreateReq, store: Store, next: nat, moves: seq<Move>, result: Result, store': Store, next': nat)
    requires AliasInv(store) && |q.podId| == 1 && CntId(q) in store && Prints(store[CntId(q)].labels, CreateLabels(q))
    requires Follows(c, store, next, Ss(CntId(q), SsAlias), moves, Done(result), store', next') && NoFault(moves)
    ensures result == Reported(Showing(q, store)) && Says(result.c.state, Standing(q, store).state)
  {
    hide AliasInv, Follows, StatusOf, Listable, Readable, Prints, CreateLabels, ContainerLabels, AliasOf, NoFault, Says;
    StatusAsAsked(c, q, store);
    StatusOutcome(c, store, next, CntId(q), moves, Done(result), store', next');
    ConvertedSays(Standing(q, store).state);
  }

  /** Main result: a container is in an answer, as it was asked for, if and only if the filter
      lets it through and, when its labels hold `priv`, its helper is there. */
  lemma AnswerAsAsked(c: Config, q: CreateReq, store: Store, next: nat, f: Filter, moves: seq<Move>, cs: seq<Container>, store': Store, next': nat)
    requires AliasInv(store) && |q.podId| == 1 && CntId(q) in store && Prints(store[CntId(q)].labels, CreateLabels(q))
    requires Answers(c, store, next, f, moves, cs, store', next') && Deep(f)
    ensures var shown := Showing(q, store);
            && (shown in cs <==> !NotIn(cs, CntId(q)))
            && (shown in cs <==>
                 && (q.privileged || PRIV in q.labels ==> AliasOf(CntId(q)) in store)
                 && LetsThrough(f, shown))
  {
    hide AliasInv, Follows, AnswerOf, StatusOf, Listable, LetsThrough, Readable, Prints, CreateLabels,
      ContainerLabels, AliasOf, Showing, NoFault;
    var id, shown := CntId(q), Showing(q, store);
    ShowingId(q, store);
    StatusAsAsked(c, q, store);
    ListOutcome(c, store, next, f, moves, Done(Listed(cs)), store', next');
    AnswerExactly(store, f, c.vol, cs, shown);
    forall i | 0 <= i < |cs| && cs[i].id == id ensures cs[i] == shown {
      AnswerExactly(store, f, c.vol, cs, cs[i]);
    }
  }

  lemma ShowingId(q: CreateReq, store: Store)
    requires q.podId != [] && CntId(q) in store
    ensures Showing(q, store).id == CntId(q)
  {
    hide ContainerLabels, AliasOf;
  }

  /** Main result: a container that is not privileged is listed after CreateContainer, with the
      labels, annotations and image of the request, by every filter that it matches. */
  lemma PlainIsListed(c: Config, store0: Store, next0: nat, q: CreateReq, moves: seq<Move>, store: Store, next: nat,
                      f: Filter, list: seq<Move>, cs: seq<Container>, store': Store, next': nat)
    requires AliasInv(store) && |q.podId| == 1 && !q.privileged && PRIV !in q.labels
    requires Follows(c, store0, next0, Cr(q, CrPrepare), moves, Done(Success), store, next)
    requires Answers(c, store, next, f, list, cs, store', next') && Deep(f)
    ensures CntId(q) in store
    ensures var shown := Asked(q, store[CntId(q)]);
            shown.state == CREATED && (shown in cs <==> LetsThrough(f, shown))
  {
    hide AliasInv, Follows, LetsThrough, Prints, CreateLabels, ContainerLabels, Answers, IsPriv;
    CreatedAsAsked(c, store0, next0, q, moves, Done(Success), store, next);
    ConvertedSays(store[CntId(q)].state);
    RecordOfRequest(q, store[CntId(q)]);
    UnmarkedHasNoHelper(store, CntId(q));
    AnswerAsAsked(c, q, store, next, f, list, cs, store', next');
  }

  lemma UnmarkedHasNoHelper(store: Store, id: Id)
    requires AliasInv(store) && |id| == 2 && id in store && !IsPriv(store[id])
    ensures AliasOf(id) !in store
  {
    hide IsPriv;
    assert Cri(AliasOf(id)) == id;
  }

  /** CreateContainer, then StartContainer. */
  ghost predicate Started(c: Config, q: CreateReq, store0: Store, next0: nat, create: seq<Move>, store1: Store, next1: nat,
                          start: seq<Move>, result: Result, store2: Store, next2: nat) {
    && IsTree(store0) && AliasInv(store1) && AliasInv(store2) && |q.podId| == 1
    && Follows(c, store0, next0, Cr(q, CrPrepare), create, Done(Success), store1, next1)
    && Follows(c, store1, next1, St(CntId(q), StAlias), start, Done(result), store2, next2)
  }

  lemma StartedRecords(c: Config, q: CreateReq, store0: Store, next0: nat, create: seq<Move>, store1: Store, next1: nat,
                       start: seq<Move>, result: Result, store2: Store, next2: nat)
    requires Started(c, q, store0, next0, create, store1, next1, start, result, store2, next2)
    ensures var id := CntId(q);
            && id in store1 && Prints(store1[id].labels, CreateLabels(q)) && AliasOf(id) !in store1
            && id in store2 && store2[id].labels == store1[id].labels
            && StartDone(store1, id, NoFault(start), result, store2) && (IsPriv(store1[id]) <==> Marks(q))
            && store1[id].state == "stopped" && Up(store1, id, NoFault(start), result, store2)
  {
    hide AliasInv, Follows, Prints, CreateLabels, ContainerLabels, IsPriv, IsTree, NoFault, Marks;
    var id := CntId(q);
    CreatedAsAsked(c, store0, next0, q, create, Done(Success), store1, next1);
    CreationOutcome(c, store0, next0, Cr(q, CrPrepare), create, Done(Success), store1, next1);
    SuccessLeaves(c, store0, next0, Cr(q, CrPrepare), create, store1, next1);
    NoHelperYet(store0, id, store1);
    RecordOfRequest(q, store1[id]);
    StartOutcome(c, store1, next1, id, start, Done(result), store2, next2);
    StartRuns(c, store1, next1, id, start, Done(result), store2, next2);
  }

  lemma UpIsRunning(rec: Rec)
    requires IsUp(rec.state)
    ensures ConvertState(rec.state) == RUNNING
  {
  }

  /** Main result: a marked container is not listed after CreateContainer; after a
      StartContainer in which nothing fails it is, with the labels, annotations and image of the
      request and the state of its helper, by every filter that it matches. */
  lemma PrivilegedIsListed(c: Config, q: CreateReq, store0: Store, next0: nat, create: seq<Move>, store1: Store, next1: nat,
                           start: seq<Move>, result: Result, store2: Store, next2: nat,
                           f: Filter, list1: seq<Move>, cs1: seq<Container>, s1: Store, n1: nat,
                           list2: seq<Move>, cs2: seq<Container>, s2: Store, n2: nat)
    requires Started(c, q, store0, next0, create, store1, next1, start, result, store2, next2) && NoFault(start) && Marks(q)
    requires Answers(c, store1, next1, f, list1, cs1, s1, n1) && Answers(c, store2, next2, f, list2, cs2, s2, n2) && Deep(f)
    ensures NotIn(cs1, CntId(q)) && result == Success && AliasOf(CntId(q)) in store2
    ensures var shown := Asked(q, store2[AliasOf(CntId(q))]);
            shown.state == RUNNING && (shown in cs2 <==> LetsThrough(f, shown))
  {
    hide AliasInv, Follows, LetsThrough, Prints, CreateLabels, ContainerLabels, Answers, IsPriv, NotIn, NoFault, IsTree,
      IsUp, ConvertState;
    StartedRecords(c, q, store0, next0, create, store1, next1, start, result, store2, next2);
    AnswerAsAsked(c, q, store1, next1, f, list1, cs1, s1, n1);
    AnswerAsAsked(c, q, store2, next2, f, list2, cs2, s2, n2);
    UpIsRunning(store2[AliasOf(CntId(q))]);
  }

  /** Main result: after CreateContainer ContainerStatus says that the container is created; after
      a StartContainer in which nothing fails, that it runs, privileged or not; and it says what
      was asked for. */
  lemma StatusFollowsStart(c: Config, q: CreateReq, store0: Store, next0: nat, create: seq<Move>, store1: Store, next1: nat,
                           start: seq<Move>, result: Result, store2: Store, next2: nat,
                           status1: seq<Move>, r1: Result, s1: Store, n1: nat, status2: seq<Move>, r2: Result, s2: Store, n2: nat)
    requires Started(c, q, store0, next0, create, store1, next1, start, result, store2, next2) && NoFault(start)
    requires Follows(c, store1, next1, Ss(CntId(q), SsAlias), status1, Done(r1), s1, n1) && NoFault(status1)
    requires Follows(c, store2, next2, Ss(CntId(q), SsAlias), status2, Done(r2), s2, n2) && NoFault(status2)
    ensures CntId(q) in store1 && r1 == Reported(Asked(q, store1[CntId(q)])) && r1.c.state == CREATED
    ensures CntId(q) in store2 && result == Success && r2 == Reported(Showing(q, store2)) && r2.c.state == RUNNING
  {
    hide AliasInv, Follows, LetsThrough, Prints, CreateLabels, ContainerLabels, Answers, IsPriv, NotIn, NoFault, IsTree,
      IsUp, ConvertState, StartDone;
    StartedRecords(c, q, store0, next0, create, store1, next1, start, result, store2, next2);
    StatusAnswers(c, q, store1, next1, status1, r1, s1, n1);
    StatusAnswers(c, q, store2, next2, status2, r2, s2, n2);
    UpIsRunning(store2[FullName(store2, CntId(q))]);
  }

  /** Main result: a container that is not privileged is listed as running after a StartContainer
      in which nothing fails. */
  lemma PlainRuns(c: Config, q: CreateReq, store0: Store, next0: nat, create: seq<Move>, store1: Store, next1: nat,
                  start: seq<Move>, result: Result, store2: Store, next2: nat,
                  f: Filter, list: seq<Move>, cs: seq<Container>, s: Store, n: nat)
    requires Started(c, q, store0, next0, create, store1, next1, start, result, store2, next2) && NoFault(start)
    requires !q.privileged && PRIV !in q.labels && Answers(c, store2, next2, f, list, cs, s, n) && Deep(f)
    ensures result == Success && CntId(q) in store2
    ensures var shown := Asked(q, store2[CntId(q)]);
            shown.state == RUNNING && (shown in cs <==> LetsThrough(f, shown))
  {
    hide AliasInv, Follows, LetsThrough, Prints, CreateLabels, ContainerLabels, Answers, IsPriv, NotIn, NoFault, IsTree,
      IsUp, ConvertState;
    StartedRecords(c, q, store0, next0, create, store1, next1, start, result, store2, next2);
    RecordOfRequest(q, store2[CntId(q)]);
    UnmarkedHasNoHelper(store2, CntId(q));
    AnswerAsAsked(c, q, store2, next2, f, list, cs, s, n);
    UpIsRunning(store2[CntId(q)]);
  }

  /** Main result: a container with a label `priv` of another value than "true" that is not
      privileged gets no helper, so it is never listed, started or not, whatever fails; its
      status is reported all the same. */
  lemma OtherMarkIsNeverListed(c: Config, q: CreateReq, store0: Store, next0: nat, create: seq<Move>, store1: Store, next1: nat,
                               start: seq<Move>, result: Result, store2: Store, next2: nat,
                               f: Filter, list1: seq<Move>, cs1: seq<Container>, s1: Store, n1: nat,
                               list2: seq<Move>, cs2: seq<Container>, s2: Store, n2: nat)
    requires Started(c, q, store0, next0, create, store1, next1, start, result, store2, next2) && !Marks(q) && PRIV in q.labels
    requires Answers(c, store1, next1, f, list1, cs1, s1, n1) && Answers(c, store2, next2, f, list2, cs2, s2, n2) && Deep(f)
    ensures NotIn(cs1, CntId(q)) && NotIn(cs2, CntId(q))
    ensures CntId(q) in store2 && StatusOf(store2, CntId(q), c.vol) == Some(Asked(q, store2[CntId(q)]))
  {
    hide AliasInv, Follows, LetsThrough, Prints, CreateLabels, ContainerLabels, Answers, IsPriv, NotIn, NoFault,
      IsTree, Listable;
    StartedRecords(c, q, store0, next0, create, store1, next1, start, result, store2, next2);
    AnswerAsAsked(c, q, store1, next1, f, list1, cs1, s1, n1);
    AnswerAsAsked(c, q, store2, next2, f, list2, cs2, s2, n2);
    StatusAsAsked(c, q, store2);
  }

  lemma SuccessLeaves(c: Config, store0: Store, next0: nat, pc0: Pc, moves: seq<Move>, store: Store, next: nat)
    requires Follows(c, store0, next0, pc0, moves, Done(Success), store, next) && !pc0.Done?
    ensures Leaves(c, moves, Done(Success))
  {
    hide Call, Want, Resume;
  }

  lemma NoHelperYet(store0: Store, id: Id, store1: Store)
    requires IsTree(store0) && |id| == 2 && id !in store0 && store1.Keys == store0.Keys + {id}
    ensures AliasOf(id) !in store1
  {
    assert ParentOf(AliasOf(id)) == id;
  }

  // ---- RunPodSandbox

  /** The record of a pod while RunPodSandbox works on it. */
  ghost predicate PodSoFar(c: Config, r: RunReq, pc: Pc, store: Store) {
    var id := [r.pod];
    if pc.Done? then pc.result.Success? ==> PodAsAsked(c, r, store)
    else pc.Run? && pc.r == r && (Opening(pc) ==> id in store && store[id].net == INHERITED && Prints(store[id].labels, RunLabels(r)))
  }

  /** It runs, with its labels, on its netns or on the network of its host. */
  ghost predicate PodAsAsked(c: Config, r: RunReq, store: Store) {
    && [r.pod] in store && IsUp(store[[r.pod]].state) && Prints(store[[r.pod]].labels, RunLabels(r))
    && store[[r.pod]].net == match r.mode { case Host => INHERITED case Netns(name) => StoredNet(c.netnsDir, name) }
  }

  lemma PodStep(c: Config, r: RunReq, pc: Pc, store: Store, next: nat, done: Reply, reply: Reply, store': Store, next': nat)
    requires PodSoFar(c, r, pc, store) && !pc.Done? && Heard(done, reply)
    requires Call(Want(c, pc), store, next, done, store', next')
    ensures PodSoFar(c, r, Resume(c, pc, reply), store')
  {
    hide RunLabels, Prints, IsListing, IsUp, StoredNet, PodAddArgs, ResumeCreate, ResumeStart, ResumeStatus, ResumeRemovePod,
      ResumeList, WantCreate, WantStart, WantStatus, WantRemovePod, WantList, SameButState, Placed;
  }

  /** Main result: after a RunPodSandbox that succeeds the pod runs, with the labels of its config
      and the net property that names its netns. */
  lemma {:induction false} PodRuns(c: Config, store0: Store, next0: nat, r: RunReq, moves: seq<Move>, pc: Pc, store: Store, next: nat)
    requires Follows(c, store0, next0, Run(r, RunImage), moves, pc, store, next)
    ensures PodSoFar(c, r, pc, store)
  {
    hide Want, Resume, Call, PodAsAsked, RunLabels, Prints;
    if moves != [] {
      var n := |moves| - 1;
      var m := moves[n];
      PodRuns(c, store0, next0, r, moves[..n], m.pc, m.store, m.next);
      PodStep(c, r, m.pc, m.store, m.next, m.done, m.reply, store, next);
    }
  }

  /** The labels of a pod, key by key. */
  predicate CarriesPod(cfg: PodConfig, id: string, image: string, l: Labels) {
    && ATTEMPT in l && l[ATTEMPT] == cfg.attempt && POD_ID in l && l[POD_ID] == id && POD_IMAGE in l && l[POD_IMAGE] == image
    && Defaulted(cfg.labels, l, POD_NAME, cfg.name) && Defaulted(cfg.labels, l, POD_UID, cfg.uid) && Defaulted(cfg.labels, l, POD_NAMESPACE, cfg.ns)
    && (forall k <- cfg.labels :: k !in [ATTEMPT, POD_ID, POD_IMAGE] ==> k in l && l[k] == cfg.labels[k])
    && (forall k <- l :: k in cfg.labels || k in [ATTEMPT, POD_ID, POD_IMAGE, POD_NAME, POD_UID, POD_NAMESPACE])
  }

  /** The metadata stands in for a label that the config does not have. */
  predicate Defaulted(own: Labels, l: Labels, key: string, value: string) {
    key !in own ==> if value == "" then key !in l else key in l && l[key] == value
  }

  /** Main result: the labels that a pod gets: those of its config, its metadata unless the
      config's labels say it, and Portoshim's own; and they are what is stored. */
  lemma PodLabelsSay(r: RunReq, text: string)
    requires Prints(text, RunLabels(r))
    ensures CarriesPod(r.cfg, r.text, r.image, PodLabels(r.cfg, r.text, r.image))
    ensures FromPortoLabels(text) == Some(Parsed(PodLabels(r.cfg, r.text, r.image), r.cfg.annotations))
  {
    hide FromPortoLabels, Prints, WithEngine;
    LabelsRoundTrip(text, PodLabels(r.cfg, r.text, r.image), r.cfg.annotations);
    KeysDiffer();
    PodKeysDiffer();
  }

  lemma PodKeysDiffer()
    ensures POD_NAME == "io.kubernetes.pod.name" && POD_UID == "io.kubernetes.pod.uid" && POD_NAMESPACE == "io.kubernetes.pod.namespace"
    ensures POD_ID == "portoshim.pod.id" && POD_IMAGE == "portoshim.pod.image"
    ensures POD_ID != POD_IMAGE && ATTEMPT !in [POD_ID, POD_IMAGE]
  {
    assert |POD_ID| == 16 && |POD_IMAGE| == 19 && |ATTEMPT| == 7;
  }

  // ---- the steps of a call that succeeds, in their order

  ghost function Ops(c: Config, moves: seq<Move>): seq<Op> {
    seq(|moves|, i requires 0 <= i < |moves| => if moves[i].pc.Done? then Outside(Command) else Want(c, moves[i].pc))
  }

  lemma OpsSnoc(c: Config, moves: seq<Move>)
    requires moves != [] && !moves[|moves| - 1].pc.Done?
    ensures Ops(c, moves) == Ops(c, moves[..|moves| - 1]) + [Want(c, moves[|moves| - 1].pc)]
  {
    hide Want;
  }

  lemma OpsNone(c: Config)
    ensures Ops(c, []) == []
  {
  }

  /** What RunPodSandbox has done before a point. */
  function RunOps(c: Config, r: RunReq, at: RunAt): seq<Op> {
    var image, root := [Outside(Image)], [Outside(Image), Outside(Directories)];
    var made := root + [Create([r.pod], Some(RunLabels(r)), false)];
    var command := made + [Outside(Command)];
    match at
    case RunImage => []
    case RunDirs => image
    case RunCreate => root
    case RunCommand(_) => made
    case RunLoad(_) => command
    case RunNetns(_) => command + [Outside(CniLoad)]
    case RunAdd(_) => command + [Outside(CniLoad), Outside(NewNetns)]
    case RunUpdate(_) =>
      if r.mode.Netns? then command + [Outside(CniLoad), Outside(NewNetns), Outside(CniAdd(PodAddArgs(c, r)))] else command
    case RunCleanup(_) => []
  }

  predicate Wired(r: RunReq, at: RunAt) {
    at.RunLoad? || at.RunNetns? || at.RunAdd? ==> r.mode.Netns?
  }

  ghost predicate RunTold(c: Config, r: RunReq, pc: Pc, ops: seq<Op>) {
    if pc.Done? then pc.result.Success? ==> RunAll(c, r, ops)
    else pc.Run? && pc.r == r && Wired(r, pc.run) && (!pc.run.RunCleanup? ==> ops == RunOps(c, r, pc.run))
  }

  /** Image, root, Create, command, on a netns of its own CNI load, a new netns and ADD, and the
      update that starts the pod. */
  ghost predicate RunAll(c: Config, r: RunReq, ops: seq<Op>) {
    var create, id := Create([r.pod], Some(RunLabels(r)), false), [r.pod];
    match r.mode
    case Host => ops == [Outside(Image), Outside(Directories), create, Outside(Command), Update(id, None, None, true)]
    case Netns(name) =>
      ops == [Outside(Image), Outside(Directories), create, Outside(Command),
              Outside(CniLoad), Outside(NewNetns), Outside(CniAdd(PodAddArgs(c, r))),
              Update(id, None, Some(StoredNet(c.netnsDir, name)), true)]
  }

  lemma RunToldStep(c: Config, r: RunReq, at: RunAt, reply: Reply)
    requires Wired(r, at)
    ensures RunTold(c, r, ResumeRun(r, at, reply), RunOps(c, r, at) + [WantRun(c, r, at)])
    ensures at.RunCleanup? ==> !(ResumeRun(r, at, reply).Done? && ResumeRun(r, at, reply).result.Success?)
  {
    hide RunLabels, PodAddArgs, StoredNet;
    var pc, ops := ResumeRun(r, at, reply), RunOps(c, r, at) + [WantRun(c, r, at)];
    if pc.Run? && !pc.run.RunCleanup? {
      assert RunOps(c, r, pc.run) == ops;
    } else if pc == Done(Success) {
      var create, id := Create([r.pod], Some(RunLabels(r)), false), [r.pod];
      if r.mode.Host? {
        assert ops == [Outside(Image), Outside(Directories), create, Outside(Command), Update(id, None, None, true)];
      } else {
        assert ops == [Outside(Image), Outside(Directories), create, Outside(Command),
                       Outside(CniLoad), Outside(NewNetns), Outside(CniAdd(PodAddArgs(c, r))),
                       Update(id, None, Some(StoredNet(c.netnsDir, r.mode.name)), true)];
      }
    }
  }

  /** Main result: the steps of a RunPodSandbox that succeeds, none left out and none twice. */
  lemma {:induction false} RunSteps(c: Config, store0: Store, next0: nat, r: RunReq, moves: seq<Move>, pc: Pc, store: Store, next: nat)
    requires Follows(c, store0, next0, Run(r, RunImage), moves, pc, store, next)
    ensures RunTold(c, r, pc, Ops(c, moves))
  {
    hide Call, RunAll, RunOps, WantRun, ResumeRun, Ops;
    if moves == [] {
      OpsNone(c);
      RunOpsNone(c, r);
    } else {
      var n := |moves| - 1;
      var m := moves[n];
      RunSteps(c, store0, next0, r, moves[..n], m.pc, m.store, m.next);
      OpsSnoc(c, moves);
      RunToldStep(c, r, m.pc.run, m.reply);
      RunCleanupFails(r, m.pc.run, m.reply);
    }
  }

  lemma RunCleanupFails(r: RunReq, at: RunAt, reply: Reply)
    ensures at.RunCleanup? ==> ResumeRun(r, at, reply).Done? && ResumeRun(r, at, reply).result.FailedAfter?
  {
  }

  lemma RunOpsNone(c: Config, r: RunReq)
    ensures RunOps(c, r, RunImage) == []
  {
    hide RunLabels, PodAddArgs;
  }

  /** What CreateContainer has done before a point, when sandbox is the name of the pod. */
  function CrOps(q: CreateReq, sandbox: Id, at: CrAt): seq<Op> {
    var named := [Outside(Prepare), Get(AliasOf(q.podId))] + if sandbox == q.podId then [Get(q.podId)] else [];
    var made := named + [Update(sandbox, None, None, false), Create(CntId(q), None, false)];
    match at
    case CrPrepare => []
    case CrAlias => [Outside(Prepare)]
    case CrPlain => [Outside(Prepare), Get(AliasOf(q.podId))]
    case CrSandbox(_) => named
    case CrCreate => named + [Update(sandbox, None, None, false)]
    case CrCdi(_) => made
    case CrCommand(_) => if q.cdi then made + [Outside(CdiStep)] else made
    case CrUpdate(_) => (if q.cdi then made + [Outside(CdiStep)] else made) + [Outside(Command)]
    case CrCleanup(_) => []
  }

  /** Preparation, the name of the pod, its devices, Create, CDI mounts and hooks if there are
      any, the command, and the update with the labels. */
  ghost predicate CreateAll(q: CreateReq, ops: seq<Op>) {
    exists sandbox :: sandbox in [AliasOf(q.podId), q.podId] &&
      ops == [Outside(Prepare), Get(AliasOf(q.podId))] + (if sandbox == q.podId then [Get(q.podId)] else [])
           + [Update(sandbox, None, None, false), Create(CntId(q), None, false)]
           + (if q.cdi then [Outside(CdiStep)] else [])
           + [Outside(Command), Update(CntId(q), Some(CreateLabels(q)), None, false)]
  }

  ghost predicate CrAtPoint(q: CreateReq, at: CrAt, ops: seq<Op>) {
    exists sandbox :: sandbox in [AliasOf(q.podId), q.podId] && ops == CrOps(q, sandbox, at)
      && (at.CrSandbox? ==> at.target == sandbox) && (at.CrCdi? ==> q.cdi)
  }

  ghost predicate CreateTold(q: CreateReq, pc: Pc, ops: seq<Op>) {
    if pc.Done? then pc.result.Success? ==> CreateAll(q, ops)
    else pc.Cr? && pc.q == q && (!pc.cr.CrCleanup? ==> CrAtPoint(q, pc.cr, ops))
  }

  lemma CrEarly(q: CreateReq, sandbox: Id, at: CrAt, reply: Reply)
    requires at.CrPrepare? || at.CrAlias? || at.CrPlain?
    ensures CreateTold(q, ResumeCreate(q, at, reply), CrOps(q, sandbox, at) + [WantCreate(q, at)])
  {
    hide CreateLabels, CntId;
    AliasIsOther(q.podId);
    var pc := ResumeCreate(q, at, reply);
    if pc.Cr? {
      var name := if pc.cr.CrSandbox? then pc.cr.target else q.podId;
      assert CrOps(q, name, pc.cr) == CrOps(q, sandbox, at) + [WantCreate(q, at)];
    }
  }

  lemma AliasIsOther(id: Id)
    ensures AliasOf(id) != id
  {
  }

  lemma CrLate(q: CreateReq, sandbox: Id, at: CrAt, reply: Reply)
    requires !(at.CrPrepare? || at.CrAlias? || at.CrPlain? || at.CrCleanup?) && sandbox in [AliasOf(q.podId), q.podId]
    requires (at.CrSandbox? ==> at.target == sandbox) && (at.CrCdi? ==> q.cdi)
    ensures CreateTold(q, ResumeCreate(q, at, reply), CrOps(q, sandbox, at) + [WantCreate(q, at)])
  {
    hide CreateLabels, CntId, AliasOf;
    var pc, ops := ResumeCreate(q, at, reply), CrOps(q, sandbox, at) + [WantCreate(q, at)];
    if pc.Cr? && !pc.cr.CrCleanup? {
      assert CrOps(q, sandbox, pc.cr) == ops;
    } else if pc == Done(Success) {
      assert ops == [Outside(Prepare), Get(AliasOf(q.podId))] + (if sandbox == q.podId then [Get(q.podId)] else [])
           + [Update(sandbox, None, None, false), Create(CntId(q), None, false)]
           + (if q.cdi then [Outside(CdiStep)] else [])
           + [Outside(Command), Update(CntId(q), Some(CreateLabels(q)), None, false)];
    }
  }

  /** Main result: the steps of a CreateContainer that succeeds, none left out and none twice. */
  lemma {:induction false} CreateSteps(c: Config, store0: Store, next0: nat, q: CreateReq, moves: seq<Move>, pc: Pc, store: Store, next: nat)
    requires Follows(c, store0, next0, Cr(q, CrPrepare), moves, pc, store, next)
    ensures CreateTold(q, pc, Ops(c, moves))
  {
    hide Call, CreateAll, CrOps, WantCreate, ResumeCreate, Ops, AliasOf;
    if moves == [] {
      OpsNone(c);
      CrOpsNone(q);
    } else {
      var n := |moves| - 1;
      var m := moves[n];
      CreateSteps(c, store0, next0, q, moves[..n], m.pc, m.store, m.next);
      OpsSnoc(c, moves);
      CleanupEndsCall(q, m.pc.cr, m.reply);
      if !m.pc.cr.CrCleanup? {
        var sandbox :| sandbox in [AliasOf(q.podId), q.podId] && Ops(c, moves[..n]) == CrOps(q, sandbox, m.pc.cr)
                       && (m.pc.cr.CrSandbox? ==> m.pc.cr.target == sandbox) && (m.pc.cr.CrCdi? ==> q.cdi);
        if m.pc.cr.CrPrepare? || m.pc.cr.CrAlias? || m.pc.cr.CrPlain? {
          CrEarly(q, sandbox, m.pc.cr, m.reply);
        } else {
          CrLate(q, sandbox, m.pc.cr, m.reply);
        }
      }
    }
  }

  lemma CrOpsNone(q: CreateReq)
    ensures CrAtPoint(q, CrPrepare, [])
  {
    hide CreateLabels, CntId, AliasOf;
    assert CrOps(q, q.podId, CrPrepare) == [] && q.podId in [AliasOf(q.podId), q.podId];
  }

  /** What RemovePodSandbox has done before a point, on a pod with or without a netns. */
  function RpOps(pod: string, netns: bool, args: CniArgs, at: RpAt): seq<Op> {
    var read := if netns then [Get([pod]), Get([pod])] else [Get([pod])];
    var gone := if netns then [Outside(CniLoad), Outside(NetnsClosed), Outside(CniDel(args)), Outside(NetnsRemove)] else [];
    match at
    case RpNet => []
    case RpLabels(_) => [Get([pod])]
    case RpStop(_) => read
    case RpLoad(_) => read + [Stop([pod])]
    case RpClosed(_) => read + [Stop([pod]), Outside(CniLoad)]
    case RpDel(_, _) => read + [Stop([pod]), Outside(CniLoad), Outside(NetnsClosed)]
    case RpNetns(_) => read + [Stop([pod]), Outside(CniLoad), Outside(NetnsClosed), Outside(CniDel(args))]
    case RpDestroy(_) => read + [Stop([pod])] + gone
    case RpRoot => read + [Stop([pod])] + gone + [Destroy([pod])]
  }

  predicate RpPoint(netns: bool, args: CniArgs, at: RpAt) {
    && (!at.RpNet? && !at.RpRoot? ==> netns == HasNetns(at.info.net))
    && (at.RpLabels? || at.RpLoad? || at.RpClosed? || at.RpDel? || at.RpNetns? ==> netns)
    && (at.RpDel? ==> at.args == args)
  }

  /** The pod is gone already; or what it says is read, it is stopped, a netns of its own is
      detached and removed, and the pod is destroyed with its root. */
  ghost predicate RemoveAll(pod: string, ops: seq<Op>) {
    || ops == [Get([pod])]
    || ops == [Get([pod]), Stop([pod]), Destroy([pod]), Outside(RemoveRoot)]
    || exists args :: ops == Detaching(pod, args)
  }

  function Detaching(pod: string, args: CniArgs): seq<Op> {
    [Get([pod]), Get([pod]), Stop([pod]),
     Outside(CniLoad), Outside(NetnsClosed), Outside(CniDel(args)), Outside(NetnsRemove),
     Destroy([pod]), Outside(RemoveRoot)]
  }

  ghost predicate RpAtPoint(pod: string, at: RpAt, ops: seq<Op>) {
    exists netns, args :: RpPoint(netns, args, at) && ops == RpOps(pod, netns, args, at)
  }

  ghost predicate RemoveTold(pod: string, pc: Pc, ops: seq<Op>) {
    if pc.Done? then pc.result.Success? ==> RemoveAll(pod, ops)
    else pc.Rp? && pc.pod == pod && RpAtPoint(pod, pc.rp, ops)
  }

  lemma RpNextPoint(c: Config, pod: string, netns: bool, args: CniArgs, at: RpAt, reply: Reply, at': RpAt)
    requires RpPoint(netns, args, at) && ResumeRemovePod(c, pod, at, reply) == Rp(pod, at')
    ensures RpAtPoint(pod, at', RpOps(pod, netns, args, at) + [WantRemovePod(pod, at)])
  {
    hide HasNetns, Readable, DelArgs;
    var netns' := if at.RpNet? then HasNetns(at'.info.net) else netns;
    var args' := if at'.RpDel? then at'.args else args;
    assert RpPoint(netns', args', at');
    assert RpOps(pod, netns', args', at') == RpOps(pod, netns, args, at) + [WantRemovePod(pod, at)];
  }

  lemma RpLastPoint(c: Config, pod: string, netns: bool, args: CniArgs, at: RpAt, reply: Reply)
    requires RpPoint(netns, args, at) && ResumeRemovePod(c, pod, at, reply) == Done(Success)
    ensures RemoveAll(pod, RpOps(pod, netns, args, at) + [WantRemovePod(pod, at)])
  {
    hide HasNetns, Readable, DelArgs;
    var ops := RpOps(pod, netns, args, at) + [WantRemovePod(pod, at)];
    if at.RpRoot? {
      if netns {
        assert ops == Detaching(pod, args);
      } else {
        assert ops == [Get([pod]), Stop([pod]), Destroy([pod]), Outside(RemoveRoot)];
      }
    } else {
      assert ops == [Get([pod])];
    }
  }

  lemma RpShape(c: Config, pod: string, at: RpAt, reply: Reply)
    ensures var pc := ResumeRemovePod(c, pod, at, reply); pc.Done? || (pc.Rp? && pc.pod == pod)
  {
    hide HasNetns, Readable, DelArgs;
  }

  /** Main result: the steps of a RemovePodSandbox that succeeds, none left out and none twice. */
  lemma {:induction false} RemovalSteps(c: Config, store0: Store, next0: nat, pod: string, moves: seq<Move>, pc: Pc, store: Store, next: nat)
    requires Follows(c, store0, next0, Rp(pod, RpNet), moves, pc, store, next)
    ensures RemoveTold(pod, pc, Ops(c, moves))
  {
    hide Call, RemoveAll, RpOps, RpPoint, WantRemovePod, ResumeRemovePod, Ops;
    if moves == [] {
      OpsNone(c);
      RpOpsNone(pod);
    } else {
      var n := |moves| - 1;
      var m := moves[n];
      RemovalSteps(c, store0, next0, pod, moves[..n], m.pc, m.store, m.next);
      OpsSnoc(c, moves);
      var netns, args :| RpPoint(netns, args, m.pc.rp) && Ops(c, moves[..n]) == RpOps(pod, netns, args, m.pc.rp);
      RpShape(c, pod, m.pc.rp, m.reply);
      if pc.Rp? {
        RpNextPoint(c, pod, netns, args, m.pc.rp, m.reply, pc.rp);
      } else if pc == Done(Success) {
        RpLastPoint(c, pod, netns, args, m.pc.rp, m.reply);
      }
    }
  }

  lemma RpOpsNone(pod: string)
    ensures RpAtPoint(pod, RpNet, [])
  {
    var args := CniArgs("", "", "", "", "", map[]);
    assert RpPoint(false, args, RpNet) && RpOps(pod, false, args, RpNet) == [];
  }

  // ---- why calls end as they do

  /** A step after the Create that CreateContainer does not survive: the command of a privileged
      container is not one. */
  ghost predicate Fatal(m: Move) {
    && m.pc.Cr? && !m.reply.Ok?
    && (m.pc.cr.CrCdi? || m.pc.cr.CrUpdate? || (m.pc.cr.CrCommand? && !m.pc.q.privileged))
  }

  lemma FailureFlow(q: CreateReq, at: CrAt, reply: Reply)
    ensures ResumeCreate(q, at, reply).Cr? && ResumeCreate(q, at, reply).cr.CrCleanup? ==>
              !reply.Ok? && (at.CrCdi? || at.CrUpdate? || (at.CrCommand? && !q.privileged))
    ensures ResumeCreate(q, at, reply).Done? && ResumeCreate(q, at, reply).result.FailedAfter? ==> at.CrCleanup?
    ensures !reply.Ok? && (at.CrCdi? || at.CrUpdate? || (at.CrCommand? && !q.privileged)) ==> ResumeCreate(q, at, reply).Cr? && ResumeCreate(q, at, reply).cr.CrCleanup?
  {
    hide CntId, AliasOf;
  }

  /** Main result: CreateContainer cleans up after its Create if and only if CDI, its last update,
      or the command of a container that is not privileged has failed. */
  lemma {:induction false} CreateFailsFor(c: Config, store0: Store, next0: nat, q: CreateReq, moves: seq<Move>, pc: Pc, store: Store, next: nat)
    requires Follows(c, store0, next0, Cr(q, CrPrepare), moves, pc, store, next)
    ensures ForRequest(q, pc)
    ensures (exists i :: 0 <= i < |moves| && Fatal(moves[i])) <==>
            (pc.Cr? && pc.cr.CrCleanup?) || (pc.Done? && pc.result.FailedAfter?)
  {
    hide Call, Want, ResumeCreate, Fatal;
    if moves != [] {
      var n := |moves| - 1;
      var m := moves[n];
      CreateFailsFor(c, store0, next0, q, moves[..n], m.pc, m.store, m.next);
      FailureFlow(q, m.pc.cr, m.reply);
      CleanupEndsCall(q, m.pc.cr, m.reply);
      FatalMove(q, m);
      assert forall i :: 0 <= i < n ==> moves[..n][i] == moves[i];
    }
  }

  lemma FatalMove(q: CreateReq, m: Move)
    requires m.pc.Cr? && m.pc.q == q
    ensures Fatal(m) <==> !m.reply.Ok? && (m.pc.cr.CrCdi? || m.pc.cr.CrUpdate? || (m.pc.cr.CrCommand? && !q.privileged))
  {
  }

  lemma CleanupEndsCall(q: CreateReq, at: CrAt, reply: Reply)
    ensures at.CrCleanup? ==> ResumeCreate(q, at, reply).Done? && ResumeCreate(q, at, reply).result.FailedAfter?
    ensures ResumeCreate(q, at, reply).Done? || (ResumeCreate(q, at, reply).Cr? && ResumeCreate(q, at, reply).q == q)
  {
    hide CntId, AliasOf;
  }

  /** Main result: a helper that is found is left as it is if and only if Porto has it in one of
      three states; in any other, createPrivCnt goes on to create it. */
  lemma HelperFound(c: Config, store0: Store, next0: nat, id: Id, moves: seq<Move>, pc: Pc, store: Store, next: nat)
    requires Follows(c, store0, next0, St(id, StAlias), moves, pc, store, next) && moves != []
    requires moves[|moves| - 1].pc.St? && moves[|moves| - 1].pc.st.StHelper? && moves[|moves| - 1].reply.Found?
    ensures var word := moves[|moves| - 1].reply.rec.state;
            if word == "meta" || word == "running" || word == "stopped" then pc == Done(Success) else pc.St? && pc.st.StCreate?
  {
    hide Call, WantStart, AliasOf;
  }

  // ---- what CNI is told

  /** convertToCNILabels: the labels of a call to the plugin, by their names. */
  function CniLabels(args: CniArgs): Labels {
    map["K8S_POD_NAMESPACE" := args.podNamespace, "K8S_POD_NAME" := args.podName,
        "K8S_POD_INFRA_CONTAINER_ID" := args.containerId, "K8S_POD_UID" := args.podUid, "IgnoreUnknown" := "1"]
  }

  lemma CniKeysDiffer()
    ensures "K8S_POD_NAMESPACE" !in ["K8S_POD_NAME", "K8S_POD_INFRA_CONTAINER_ID", "K8S_POD_UID", "IgnoreUnknown"]
    ensures "K8S_POD_NAME" !in ["K8S_POD_INFRA_CONTAINER_ID", "K8S_POD_UID", "IgnoreUnknown"]
    ensures "K8S_POD_INFRA_CONTAINER_ID" !in ["K8S_POD_UID", "IgnoreUnknown"] && "K8S_POD_UID" != "IgnoreUnknown"
  {
    assert |"K8S_POD_NAMESPACE"| == 17 && |"K8S_POD_NAME"| == 12 && |"K8S_POD_INFRA_CONTAINER_ID"| == 26
           && |"K8S_POD_UID"| == 11 && |"IgnoreUnknown"| == 13;
  }

  /** Main result: CNI ADD is told the metadata and annotations of the config, the pod's id, and
      the path of the netns whose name is stored for DEL. */
  lemma AddSays(c: Config, r: RunReq)
    requires r.mode.Netns? && IsNetnsName(r.mode.name)
    ensures var args := PodAddArgs(c, r);
            && CniLabels(args)["K8S_POD_NAMESPACE"] == r.cfg.ns && CniLabels(args)["K8S_POD_NAME"] == r.cfg.name
            && CniLabels(args)["K8S_POD_UID"] == r.cfg.uid && CniLabels(args)["K8S_POD_INFRA_CONTAINER_ID"] == r.pod
            && args.annotations == r.cfg.annotations && GoPaths.Base(args.netns) == r.mode.name
            && StoredNet(c.netnsDir, r.mode.name) == "netns " + r.mode.name
  {
    hide GoPaths.Base, GoPaths.JoinPath;
    CniKeysDiffer();
    BaseOfJoin(c.netnsDir, r.mode.name);
  }
}
