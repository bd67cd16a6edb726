/** Porto as Portoshim sees it: a store of container records, and calls that may fail.

    Ids are segments (see Ids). A record lives below the record of its parent; Destroy takes
    the whole subtree. Portoshim runs without a parent container of its own here.
 */
module Porto {
  import opened GoStrings
  import opened Labels
  import opened Network
  import opened Ids

  /** inst tells apart records that had the same id at different times. */
  datatype Rec = Rec(labels: string, state: string, net: string, env: string, created: int, inst: nat)

  type Store = map<Id, Rec>

  /** Steps outside Porto. They change no record; each may fail. */
  datatype Outside =
    | Image | Directories | Prepare | Command | CdiStep | RemoveRoot
    | CniLoad | NewNetns | CniAdd(args: CniArgs)
    | NetnsClosed | CniDel(del: CniArgs) | NetnsRemove

  datatype Op =
    | Get(id: Id)
    | GetMany(ids: seq<Id>)
    | ListIds(under: Id)  // [] lists everything, otherwise the mask `under/***`
    | Create(id: Id, labels: Option<Labels>, start: bool)
    | Update(id: Id, labels: Option<Labels>, net: Option<string>, start: bool)
    | SetEnv(id: Id, env: string)
    | Start(id: Id)
    | Stop(id: Id)
    | Destroy(id: Id)
    | Outside(step: Outside)

  datatype Reply =
    | Ok
    | Fault
    | NotExist
    | Found(rec: Rec)
    | Many(recs: Store)
    | Listing(ids: seq<Id>)
    | Created(inst: nat)
    | Closed(closed: bool)

  const INHERITED := "inherited"

  function ParentOf(id: Id): Id
    requires id != []
  {
    id[..|id| - 1]
  }

  predicate Placed(store: Store, id: Id) {
    id != [] && (|id| == 1 || ParentOf(id) in store)
  }

  /** Every record has its parent. */
  ghost predicate IsTree(store: Store) {
    forall id <- store :: Placed(store, id)
  }

  function Without(store: Store, id: Id): Store {
    map x | x in store && !(id <= x) :: store[x]
  }

  /** The label map as Porto prints it; no labels print as nothing. */
  ghost predicate LabelsText(text: string, labels: Option<Labels>) {
    match labels
    case None => text == ""
    case Some(m) => Prints(text, m)
  }

  /** States come and go; nothing else does. */
  ghost predicate SameButState(store: Store, store': Store) {
    && store'.Keys == store.Keys
    && forall id <- store :: store'[id] == store[id].(state := store'[id].state)
  }

  ghost predicate Distinct(ids: seq<Id>) {
    forall i, j :: 0 <= i < j < |ids| ==> ids[i] != ids[j]
  }

  /** A container stops with all below it. */
  ghost predicate AllStopped(store: Store, id: Id) {
    forall x <- store :: id <= x ==> store[x].state == "stopped"
  }

  ghost predicate IsListing(ids: seq<Id>, store: Store, under: Id) {
    && Distinct(ids)
    && (forall id :: id in ids <==> id in store && (under == [] || under < id))
  }

  /** The states in which Porto runs a container; it is in one of them when it was started, and
      "stopped" before it is started and after it was stopped. */
  predicate IsUp(state: string) {
    state in ["starting", "running", "meta"]
  }

  ghost predicate NewRec(r: Rec, labels: Option<Labels>, start: bool, inst: nat) {
    && r.inst == inst && r.net == INHERITED && LabelsText(r.labels, labels)
    && if start then IsUp(r.state) else r.state == "stopped"
  }

  ghost predicate UpdatedRec(r: Rec, labels: Option<Labels>, net: Option<string>, start: bool, r': Rec) {
    && r'.inst == r.inst && r'.created == r.created && r'.env == r.env
    && (if labels.None? then r'.labels == r.labels else LabelsText(r'.labels, labels))
    && r'.net == (if net.None? then r.net else net.value)
    && (if start then IsUp(r'.state) else r'.state == r.state)
  }

  /** One call. A failing call changes nothing. next is the instance that the next record gets. */
  ghost predicate Call(op: Op, store: Store, next: nat, reply: Reply, store': Store, next': nat) {
    || (reply == Fault && store' == store && next' == next)
    || (match op
        case Get(id) => reply == (if id in store then Found(store[id]) else NotExist) && store' == store && next' == next
        case GetMany(ids) => reply == Many(map id | id in ids && id in store :: store[id]) && store' == store && next' == next
        case ListIds(under) => reply.Listing? && IsListing(reply.ids, store, under) && store' == store && next' == next
        case Create(id, labels, start) =>
          && id !in store && Placed(store, id) && reply == Created(next) && next' == next + 1
          && id in store' && store' == store[id := store'[id]] && NewRec(store'[id], labels, start, next)
        case Update(id, labels, net, start) =>
          && next' == next
          && if id in store then reply == Ok && id in store' && store' == store[id := store'[id]] && UpdatedRec(store[id], labels, net, start, store'[id])
             else reply == NotExist && store' == store
        case SetEnv(id, env) =>
          && next' == next
          && if id in store then reply == Ok && store' == store[id := store[id].(env := env)] else reply == NotExist && store' == store
        case Start(id) => next' == next && if id in store then reply == Ok && SameButState(store, store') && IsUp(store'[id].state) else reply == NotExist && store' == store
        case Stop(id) => next' == next && if id in store then reply == Ok && SameButState(store, store') && AllStopped(store', id) else reply == NotExist && store' == store
        case Destroy(id) => next' == next && if id in store then reply == Ok && store' == Without(store, id) else reply == NotExist && store' == store
        case Outside(step) => (if step.NetnsClosed? then reply.Closed? else reply == Ok) && store' == store && next' == next)
  }

  lemma BelowParent(id: Id, x: Id)
    requires x != []
    ensures id <= ParentOf(x) ==> id <= x
  {
  }

  lemma CallKeepsTree(op: Op, store: Store, next: nat, reply: Reply, store': Store, next': nat)
    requires IsTree(store) && Call(op, store, next, reply, store', next')
    ensures IsTree(store')
  {
    if op.Destroy? && reply.Ok? {
      forall x | x in store' ensures Placed(store', x) {
        BelowParent(op.id, x);
      }
    } else {
      assert store.Keys <= store'.Keys;
    }
  }
}
