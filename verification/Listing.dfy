/** ListContainers with its filters, and ContainerStatus as a reading of the store
    (cmd/portoshim/runtime_mapper.go).

    A privileged container is two records, `pod/cnt` and `pod/cnt/privileged`, shown to the
    kubelet as the one id `pod/cnt`. The list shows the helper with the labels of its parent;
    the status looks for the helper first.
 */
module Listing {
  import opened GoStrings
  import opened Labels
  import opened Network
  import opened Ids
  import opened Porto

  const PRIV: GoString := "priv"
  const CONTAINER_ID: GoString := "portoshim.container.id"
  const CONTAINER_IMAGE: GoString := "portoshim.container.image"

  // ---- what the kubelet is shown

  datatype CriState = CREATED | RUNNING | EXITED | UNKNOWN

  function ConvertState(state: string): CriState {
    if state == "stopped" then CREATED
    else if state in ["paused", "starting", "running", "stopping", "respawning", "meta"] then RUNNING
    else if state == "dead" then EXITED
    else UNKNOWN
  }

  datatype Container = Container(
    id: Id, podId: string, labels: Labels, annotations: Labels, image: string, state: CriState, created: int)

  /** vol stands for the image of the root volume, asked for when no label names it. */
  function ImageOf(vol: Id -> string, id: Id, labels: Labels): string {
    if CONTAINER_IMAGE in labels then labels[CONTAINER_IMAGE]
    else if labels == map[] then ""
    else vol(id)
  }

  datatype Filter = Filter(id: Option<Id>, pod: Option<string>, state: Option<CriState>, selector: Labels)

  const NO_FILTER := Filter(None, None, None, map[])

  predicate Selected(f: Filter, state: CriState, labels: Labels) {
    && (f.state.Some? ==> f.state.value == state)
    && forall k <- f.selector :: k in labels && labels[k] == f.selector[k]
  }

  datatype Entry = Skip | Panic | Shown(c: Container)

  /** One turn of the loop of ListContainers. */
  function EntryOf(recs: Store, id: Id, f: Filter, vol: Id -> string): Entry
    requires id != []
  {
    if |Cri(id)| != 2 || id !in recs then Skip
    else match FromPortoLabels(recs[id].labels)
      case None => Panic
      case Some(own) =>
        if PRIV in own.labels then Skip  // its helper is shown instead
        else if !Privileged(id) then Show(recs, id, own, f, vol)
        else if Cri(id) !in recs then Skip
        else match FromPortoLabels(recs[Cri(id)].labels)
          case None => Panic
          case Some(parent) => Show(recs, id, parent, f, vol)
  }

  function Show(recs: Store, id: Id, p: Parsed, f: Filter, vol: Id -> string): Entry
    requires id in recs && id != []
  {
    var state := ConvertState(recs[id].state);
    if CONTAINER_ID !in p.labels && POD_NAMESPACE !in p.labels then Skip  // not ours
    else if !Selected(f, state, p.labels) then Skip
    else Shown(Container(Cri(id), id[0], p.labels, p.annotations, ImageOf(vol, id, p.labels), state, recs[id].created))
  }

  predicate NoEmptyId(ids: seq<Id>) {
    forall i :: 0 <= i < |ids| ==> ids[i] != []
  }

  /** The whole loop; None is a panic on labels that do not parse. */
  function Entries(recs: Store, ids: seq<Id>, f: Filter, vol: Id -> string): Option<seq<Container>>
    requires NoEmptyId(ids)
  {
    if ids == [] then Some([])
    else
      var n := |ids| - 1;
      match Entries(recs, ids[..n], f, vol)
      case None => None
      case Some(before) =>
        match EntryOf(recs, ids[n], f, vol)
        case Skip => Some(before)
        case Panic => None
        case Shown(c) => Some(before + [c])
  }

  method ListLoop(recs: Store, ids: seq<Id>, f: Filter, vol: Id -> string) returns (r: Option<seq<Container>>)
    requires NoEmptyId(ids)
    ensures r == Entries(recs, ids, f, vol)
  {
    hide EntryOf;
    var containers: seq<Container> := [];
    for i := 0 to |ids|
      invariant Entries(recs, ids[..i], f, vol) == Some(containers)
    {
      assert ids[..i + 1][..i] == ids[..i];
      match EntryOf(recs, ids[i], f, vol) {
        case Skip =>
        case Panic =>
          PanicPropagates(recs, ids, i + 1, f, vol);
          return None;
        case Shown(c) => containers := containers + [c];
      }
    }
    assert ids[..|ids|] == ids;
    r := Some(containers);
  }

  lemma {:induction false} PanicPropagates(recs: Store, ids: seq<Id>, i: nat, f: Filter, vol: Id -> string)
    requires NoEmptyId(ids) && i <= |ids| && Entries(recs, ids[..i], f, vol).None?
    ensures Entries(recs, ids, f, vol).None?
    decreases |ids| - i
  {
    hide EntryOf;
    if i == |ids| {
      assert ids[..i] == ids;
    } else {
      assert ids[..i + 1][..i] == ids[..i];
      PanicPropagates(recs, ids, i + 1, f, vol);
    }
  }

  // ---- the filters

  function Keep(ids: seq<Id>, target: Id): seq<Id> {
    if ids == [] then []
    else
      var n := |ids| - 1;
      Keep(ids[..n], target) + if target <= ids[n] then [ids[n]] else []
  }

  /** filterContainerIDs writes the ids it keeps to the front of the same slice. */
  method FilterContainerIDs(ids: array<Id>, target: Id) returns (n: nat)
    modifies ids
    ensures n <= ids.Length && ids[..n] == Keep(old(ids[..]), target)
  {
    n := 0;
    ghost var was := ids[..];
    for i := 0 to ids.Length
      invariant n <= i && ids[..n] == Keep(was[..i], target)
      invariant forall j :: i <= j < ids.Length ==> ids[j] == was[j]
    {
      assert was[..i + 1][..i] == was[..i];
      if target <= ids[i] {
        ids[n] := ids[i];
        n := n + 1;
      }
    }
    assert was[..ids.Length] == was;
  }

  // What Porto lists for the mask `pod/***`: the strict descendants, in the order of the
  // whole list.
  function Masked(ids: seq<Id>, under: Id): seq<Id> {
    if ids == [] then []
    else
      var n := |ids| - 1;
      Masked(ids[..n], under) + if under == [] || under < ids[n] then [ids[n]] else []
  }

  function MaskOf(f: Filter): Id {
    if f.id.Some? && f.id.value != [] then [f.id.value[0]] else if f.pod.Some? then [f.pod.value] else []
  }

  function Response(ids: seq<Id>, f: Filter): seq<Id> {
    var listed := Masked(ids, MaskOf(f));
    var byId := if f.id.Some? then Keep(listed, f.id.value) else listed;
    if f.pod.Some? then Keep(byId, [f.pod.value]) else byId
  }

  function Restrict(store: Store, ids: seq<Id>): Store {
    map id | id in ids && id in store :: store[id]
  }

  /** ListContainers with a filter, on a store that lists its ids in this order. */
  function ListContainers(store: Store, ids: seq<Id>, f: Filter, vol: Id -> string): Option<seq<Container>>
    requires NoEmptyId(ids)
  {
    ResponseNonEmpty(ids, f);
    Entries(Restrict(store, Response(ids, f)), Response(ids, f), f, vol)
  }

  predicate Matches(c: Container, f: Filter) {
    && (f.id.Some? ==> c.id == f.id.value)
    && (f.pod.Some? ==> c.podId == f.pod.value)
  }

  function Matching(cs: seq<Container>, f: Filter): seq<Container> {
    if cs == [] then []
    else
      var n := |cs| - 1;
      Matching(cs[..n], f) + if Matches(cs[n], f) then [cs[n]] else []
  }

  /** Which ids a filter lets through. */
  predicate Passes(id: Id, f: Filter) {
    && (MaskOf(f) == [] || MaskOf(f) < id)
    && (f.id.Some? ==> f.id.value <= id)
    && (f.pod.Some? ==> [f.pod.value] <= id)
  }

  function Passing(ids: seq<Id>, f: Filter): seq<Id> {
    if ids == [] then []
    else
      var n := |ids| - 1;
      Passing(ids[..n], f) + if Passes(ids[n], f) then [ids[n]] else []
  }

  lemma KeepSnoc(ids: seq<Id>, id: Id, target: Id)
    ensures Keep(ids + [id], target) == Keep(ids, target) + if target <= id then [id] else []
  {
    assert (ids + [id])[..|ids|] == ids;
  }

  lemma ResponseSnoc(ids: seq<Id>, id: Id, f: Filter)
    ensures Response(ids + [id], f) == Response(ids, f) + if Passes(id, f) then [id] else []
  {
    assert (ids + [id])[..|ids|] == ids;
    var listed := Masked(ids, MaskOf(f));
    var under := MaskOf(f);
    assert Masked(ids + [id], under) == listed + if under == [] || under < id then [id] else [];
    assert listed + [] == listed;
    hide Masked;
    if f.id.Some? { KeepSnoc(listed, id, f.id.value); }
    var byId := if f.id.Some? then Keep(listed, f.id.value) else listed;
    assert byId + [] == byId;
    if f.pod.Some? { KeepSnoc(byId, id, [f.pod.value]); }
    var all := if f.pod.Some? then Keep(byId, [f.pod.value]) else byId;
    assert all + [] == all;
  }

  lemma {:induction false} ResponseIsPassing(ids: seq<Id>, f: Filter)
    ensures Response(ids, f) == Passing(ids, f)
  {
    hide Response, Passes;
    if ids == [] {
      ResponseEmpty(f);
    } else {
      var n := |ids| - 1;
      ResponseIsPassing(ids[..n], f);
      ResponseSnoc(ids[..n], ids[n], f);
      assert ids[..n] + [ids[n]] == ids;
    }
  }

  lemma ResponseEmpty(f: Filter)
    ensures Response([], f) == []
  {
  }

  lemma {:induction false} PassingMembers(ids: seq<Id>, f: Filter)
    ensures forall id :: id in Passing(ids, f) <==> id in ids && Passes(id, f)
  {
    hide Passes;
    if ids != [] {
      PassingMembers(ids[..|ids| - 1], f);
      assert ids == ids[..|ids| - 1] + [ids[|ids| - 1]];
    }
  }

  lemma MemberNonEmpty(ids: seq<Id>, id: Id)
    requires NoEmptyId(ids) && id in ids
    ensures id != []
  {
  }

  lemma ResponseNonEmpty(ids: seq<Id>, f: Filter)
    requires NoEmptyId(ids)
    ensures NoEmptyId(Response(ids, f))
  {
    hide Response;
    ResponseIsPassing(ids, f);
    PassingMembers(ids, f);
    forall i | 0 <= i < |Response(ids, f)| ensures Response(ids, f)[i] != [] {
      assert Response(ids, f)[i] in Passing(ids, f);
      MemberNonEmpty(ids, Response(ids, f)[i]);
    }
  }

  /** A helper comes through a filter together with its parent. */
  lemma PassesWithParent(id: Id, f: Filter)
    requires |Cri(id)| == 2 && Passes(id, f) && (f.id.Some? ==> |f.id.value| == 2)
    ensures Passes(Cri(id), f)
  {
  }

  /** The filter on ids is the filter on what is shown. */
  lemma PassesIsMatches(id: Id, f: Filter, c: Container)
    requires f.id.Some? ==> |f.id.value| == 2
    requires |Cri(id)| == 2 && c.id == Cri(id) && c.podId == id[0]
    ensures Passes(id, f) <==> Matches(c, f)
  {
    if f.id.Some? {
      assert f.id.value <= id <==> f.id.value == Cri(id) by {
        assert id[..2] == Cri(id);
      }
    }
    if f.pod.Some? {
      assert [f.pod.value] <= id <==> f.pod.value == id[0];
    }
  }

  /** Properties of the ids that came through give the same entry as those of all ids. */
  lemma SameEntry(store: Store, ids: seq<Id>, id: Id, f: Filter, vol: Id -> string)
    requires NoEmptyId(ids) && (f.id.Some? ==> |f.id.value| == 2)
    requires id in ids && Passes(id, f)
    requires forall x :: x in ids <==> x in store
    requires id != []
    ensures EntryOf(Restrict(store, Response(ids, f)), id, f, vol) == EntryOf(store, id, f, vol)
  {
    hide Response, Show, Passes;
    ResponseIsPassing(ids, f);
    PassingMembers(ids, f);
    var recs := Restrict(store, Response(ids, f));
    assert id in recs && recs[id] == store[id];
    if |Cri(id)| == 2 {
      PassesWithParent(id, f);
      assert Cri(id) in recs <==> Cri(id) in store;
      SameShow(recs, store, id, f, vol);
    }
  }

  lemma SameShow(recs: Store, store: Store, id: Id, f: Filter, vol: Id -> string)
    requires id in recs && id in store && recs[id] == store[id] && id != []
    ensures forall p :: Show(recs, id, p, f, vol) == Show(store, id, p, f, vol)
  {
  }

  /** One more id, on both sides. */
  lemma FilteredStep(store: Store, ids: seq<Id>, id: Id, f: Filter, vol: Id -> string, pass: seq<Id>, before: seq<Container>)
    requires NoEmptyId(ids) && (f.id.Some? ==> |f.id.value| == 2) && id in ids && id != []
    requires forall x :: x in ids <==> x in store
    requires NoEmptyId(pass) && Entries(Restrict(store, Response(ids, f)), pass, f, vol) == Some(Matching(before, f))
    requires !EntryOf(store, id, f, vol).Panic?
    ensures var pass' := pass + if Passes(id, f) then [id] else [];
            var e := EntryOf(store, id, f, vol);
            NoEmptyId(pass') &&
            Entries(Restrict(store, Response(ids, f)), pass', f, vol) == Some(Matching(before + (if e.Shown? then [e.c] else []), f))
  {
    hide Response, EntryOf, Passes, Matches, Restrict;
    var e := EntryOf(store, id, f, vol);
    EntryShape(store, id, f, vol);
    assert pass + [] == pass && before + [] == before;
    if Passes(id, f) {
      SameEntry(store, ids, id, f, vol);
      assert (pass + [id])[..|pass|] == pass;
    }
    if e.Shown? {
      PassesIsMatches(id, f, e.c);
      assert (before + [e.c])[..|before|] == before;
      assert Matching(before, f) + [] == Matching(before, f);
      assert Matching(before + [e.c], f) == Matching(before, f) + if Matches(e.c, f) then [e.c] else [];
    }
  }

  lemma {:induction false} FilteredPrefix(store: Store, ids: seq<Id>, n: nat, f: Filter, vol: Id -> string)
    requires NoEmptyId(ids) && n <= |ids| && (f.id.Some? ==> |f.id.value| == 2)
    requires forall x :: x in ids <==> x in store
    requires Entries(store, ids, f, vol).Some?
    ensures NoEmptyId(Passing(ids[..n], f)) && Entries(store, ids[..n], f, vol).Some?
    ensures Entries(Restrict(store, Response(ids, f)), Passing(ids[..n], f), f, vol)
         == Some(Matching(Entries(store, ids[..n], f, vol).value, f))
  {
    hide Response, EntryOf, Passes, Matches, Restrict;
    if Entries(store, ids[..n], f, vol).None? {
      PanicPropagates(store, ids, n, f, vol);
    }
    if n == 0 {
      assert ids[..n] == [] && Passing(ids[..n], f) == [];
      assert Entries(store, ids[..n], f, vol).value == [] && Matching([], f) == [];
      assert Entries(Restrict(store, Response(ids, f)), Passing(ids[..n], f), f, vol) == Some([]);
    } else {
      FilteredPrefix(store, ids, n - 1, f, vol);
      var id := ids[n - 1];
      assert ids[..n][..n - 1] == ids[..n - 1] && ids[..n][n - 1] == id && id in ids;
      FilteredStep(store, ids, id, f, vol, Passing(ids[..n - 1], f), Entries(store, ids[..n - 1], f, vol).value);
      assert Entries(store, ids[..n - 1], f, vol).value + [] == Entries(store, ids[..n - 1], f, vol).value;
    }
  }

  lemma EntryShape(recs: Store, id: Id, f: Filter, vol: Id -> string)
    requires id != []
    ensures var e := EntryOf(recs, id, f, vol);
            e.Shown? ==> id in recs && |Cri(id)| == 2 && e.c.id == Cri(id) && e.c.podId == id[0]
  {
  }

  /** Helpers with the labels of their parents come through together with them. */
  lemma FilterCommutesTwo(store: Store, ids: seq<Id>, f: Filter, vol: Id -> string)
    requires NoEmptyId(ids) && (f.id.Some? ==> |f.id.value| == 2)
    requires forall x :: x in ids <==> x in store
    requires ListContainers(store, ids, Anywhere(f), vol).Some?
    ensures ListContainers(store, ids, f, vol) == Some(Matching(ListContainers(store, ids, Anywhere(f), vol).value, f))
  {
    hide Response, Entries, EntryOf, Passes, Restrict;
    Unfiltered(store, ids, f, vol);
    FilteredPrefix(store, ids, |ids|, f, vol);
    assert ids[..|ids|] == ids;
    ResponseIsPassing(ids, f);
  }

  lemma {:induction false} EverythingPasses(ids: seq<Id>, g: Filter)
    requires g.id.None? && g.pod.None?
    ensures Passing(ids, g) == ids
  {
    if ids != [] {
      EverythingPasses(ids[..|ids| - 1], g);
      assert ids == ids[..|ids| - 1] + [ids[|ids| - 1]];
    }
  }

  lemma RestrictAll(store: Store, ids: seq<Id>)
    requires forall x :: x in ids <==> x in store
    ensures Restrict(store, ids) == store
  {
  }

  /** The loop itself does not look at the id and the pod of the filter. */
  lemma {:induction false} EntriesIgnorePlace(store: Store, ids: seq<Id>, f: Filter, vol: Id -> string)
    requires NoEmptyId(ids)
    ensures Entries(store, ids, f, vol) == Entries(store, ids, Anywhere(f), vol)
  {
    if ids != [] {
      EntriesIgnorePlace(store, ids[..|ids| - 1], f, vol);
      EntryIgnoresPlace(store, ids[|ids| - 1], f, vol);
    }
  }

  lemma EntryIgnoresPlace(store: Store, id: Id, f: Filter, vol: Id -> string)
    requires id != []
    ensures EntryOf(store, id, f, vol) == EntryOf(store, id, Anywhere(f), vol)
  {
  }

  /** An id of three segments or more lets no parent through, so nothing is shown. */
  lemma DeepEntry(store: Store, ids: seq<Id>, id: Id, f: Filter, vol: Id -> string)
    requires NoEmptyId(ids) && f.id.Some? && |f.id.value| >= 3 && id in ids && id != [] && Passes(id, f)
    requires forall x :: x in ids <==> x in store
    requires !EntryOf(store, id, f, vol).Panic?
    ensures EntryOf(Restrict(store, Response(ids, f)), id, f, vol) == Skip
  {
    hide Response, Show, FromPortoLabels;
    ResponseIsPassing(ids, f);
    PassingMembers(ids, f);
    var recs := Restrict(store, Response(ids, f));
    assert id in recs && recs[id] == store[id];
    assert |Cri(id)| == 2 ==> Cri(id) !in recs;
  }

  lemma {:induction false} DeepEntries(store: Store, ids: seq<Id>, n: nat, f: Filter, vol: Id -> string)
    requires NoEmptyId(ids) && n <= |ids| && f.id.Some? && |f.id.value| >= 3
    requires forall x :: x in ids <==> x in store
    requires Entries(store, ids, f, vol).Some?
    ensures NoEmptyId(Passing(ids[..n], f))
    ensures Entries(Restrict(store, Response(ids, f)), Passing(ids[..n], f), f, vol) == Some([])
  {
    hide Response, EntryOf, Passes, Restrict;
    if n == 0 {
      assert ids[..n] == [] && Passing(ids[..n], f) == [];
    } else {
      DeepEntries(store, ids, n - 1, f, vol);
      var id, pass := ids[n - 1], Passing(ids[..n - 1], f);
      assert ids[..n][..n - 1] == ids[..n - 1] && ids[..n][n - 1] == id && id in ids;
      assert pass + [] == pass;
      if Passes(id, f) {
        if Entries(store, ids[..n], f, vol).None? { PanicPropagates(store, ids, n, f, vol); }
        DeepEntry(store, ids, id, f, vol);
        assert (pass + [id])[..|pass|] == pass;
      }
    }
  }

  function Anywhere(f: Filter): Filter {
    f.(id := None, pod := None)
  }

  /** The unfiltered list is the loop over the whole store. */
  lemma Unfiltered(store: Store, ids: seq<Id>, f: Filter, vol: Id -> string)
    requires NoEmptyId(ids) && forall x :: x in ids <==> x in store
    ensures ListContainers(store, ids, Anywhere(f), vol) == Entries(store, ids, f, vol)
  {
    hide Response, Entries, Restrict;
    EverythingPasses(ids, Anywhere(f));
    ResponseIsPassing(ids, Anywhere(f));
    RestrictAll(store, ids);
    EntriesIgnorePlace(store, ids, f, vol);
  }

  /** Main result: with a container id of two segments or more, a pod id, or both, the filtered
      list is the unfiltered list, filtered: same containers, same order, helpers with the
      labels of their parents included. */
  lemma FilterCommutes(store: Store, ids: seq<Id>, f: Filter, vol: Id -> string)
    requires NoEmptyId(ids) && (f.id.Some? ==> |f.id.value| >= 2)
    requires forall x :: x in ids <==> x in store
    requires ListContainers(store, ids, Anywhere(f), vol).Some?
    ensures ListContainers(store, ids, f, vol) == Some(Matching(ListContainers(store, ids, Anywhere(f), vol).value, f))
  {
    hide Response, Entries, Restrict;
    if f.id.Some? && |f.id.value| > 2 {
      Unfiltered(store, ids, f, vol);
      NothingMatches(store, ids, f, vol, f);
      DeepEntries(store, ids, |ids|, f, vol);
      assert ids[..|ids|] == ids;
      ResponseIsPassing(ids, f);
    } else {
      FilterCommutesTwo(store, ids, f, vol);
    }
  }

  lemma {:induction false} NothingMatches(recs: Store, ids: seq<Id>, g: Filter, vol: Id -> string, f: Filter)
    requires NoEmptyId(ids) && f.id.Some? && |f.id.value| != 2 && Entries(recs, ids, g, vol).Some?
    ensures Matching(Entries(recs, ids, g, vol).value, f) == []
  {
    hide EntryOf;
    if ids != [] {
      var n := |ids| - 1;
      NothingMatches(recs, ids[..n], g, vol, f);
      EntryShape(recs, ids[n], g, vol);
      var before := Entries(recs, ids[..n], g, vol).value;
      var e := EntryOf(recs, ids[n], g, vol);
      if e.Shown? { assert (before + [e.c])[..|before|] == before; }
    }
  }

  // ---- the id of a pod as container id

  /** The pod that such a filter asks for; another pod beside it asks for nothing. */
  predicate InPod(c: Container, f: Filter)
    requires f.id.Some? && |f.id.value| == 1
  {
    c.podId == f.id.value[0] && (f.pod.Some? ==> f.pod.value == f.id.value[0])
  }

  function OfPod(cs: seq<Container>, f: Filter): seq<Container>
    requires f.id.Some? && |f.id.value| == 1
  {
    if cs == [] then []
    else
      var n := |cs| - 1;
      OfPod(cs[..n], f) + if InPod(cs[n], f) then [cs[n]] else []
  }

  lemma {:induction false} OfPodEmpty(cs: seq<Container>, f: Filter)
    requires f.id.Some? && |f.id.value| == 1
    ensures OfPod(cs, f) == [] <==> forall i :: 0 <= i < |cs| ==> !InPod(cs[i], f)
  {
    if cs != [] {
      var n := |cs| - 1;
      OfPodEmpty(cs[..n], f);
      assert forall i :: 0 <= i < n ==> cs[..n][i] == cs[i];
    }
  }

  lemma {:induction false} OfPodIsMatching(cs: seq<Container>, f: Filter, h: Filter)
    requires f.id.Some? && |f.id.value| == 1 && h.id.None? && h.pod == Some(f.id.value[0]) && (f.pod.None? || f.pod == h.pod)
    ensures OfPod(cs, f) == Matching(cs, h)
  {
    if cs != [] { OfPodIsMatching(cs[..|cs| - 1], f, h); }
  }

  /** Main result: the id of a pod in the place of a container id lists the containers of the
      pod, although no container has that id. So the filtered list is the list filtered if and
      only if the list shows no container of the pod. */
  lemma PodIdAsContainerId(store: Store, ids: seq<Id>, f: Filter, vol: Id -> string)
    requires NoEmptyId(ids) && f.id.Some? && |f.id.value| == 1
    requires forall x :: x in ids <==> x in store
    requires ListContainers(store, ids, Anywhere(f), vol).Some?
    ensures var all := ListContainers(store, ids, Anywhere(f), vol).value;
            && ListContainers(store, ids, f, vol) == Some(OfPod(all, f))
            && (ListContainers(store, ids, f, vol) == Some(Matching(all, f)) <==> forall i :: 0 <= i < |all| ==> !InPod(all[i], f))
  {
    hide EntryOf, Response, Restrict, Entries, InPod;
    var all, pod := ListContainers(store, ids, Anywhere(f), vol).value, f.id.value[0];
    Unfiltered(store, ids, f, vol);
    NothingMatches(store, ids, f, vol, f);
    OfPodEmpty(all, f);
    if f.pod.None? || f.pod.value == pod {
      AsPod(store, ids, f, vol);
    } else {
      OtherPod(store, ids, f, vol);
      NotInPod(all, f);
    }
  }

  lemma NotInPod(cs: seq<Container>, f: Filter)
    requires f.id.Some? && |f.id.value| == 1 && f.pod.Some? && f.pod.value != f.id.value[0]
    ensures forall i :: 0 <= i < |cs| ==> !InPod(cs[i], f)
  {
  }

  lemma OtherPod(store: Store, ids: seq<Id>, f: Filter, vol: Id -> string)
    requires NoEmptyId(ids) && f.id.Some? && |f.id.value| == 1 && f.pod.Some? && f.pod.value != f.id.value[0]
    ensures ListContainers(store, ids, f, vol) == Some([])
  {
    hide Response, EntryOf, Restrict;
    ResponseIsPassing(ids, f);
    NonePasses(ids, f);
  }

  lemma {:induction false} NonePasses(ids: seq<Id>, f: Filter)
    requires f.id.Some? && |f.id.value| == 1 && f.pod.Some? && f.pod.value != f.id.value[0]
    ensures Passing(ids, f) == []
  {
    if ids != [] {
      NonePasses(ids[..|ids| - 1], f);
      var id := ids[|ids| - 1];
      if f.id.value <= id { assert id[0] == f.id.value[0] && !([f.pod.value] <= id); }
    }
  }

  lemma AsPod(store: Store, ids: seq<Id>, f: Filter, vol: Id -> string)
    requires NoEmptyId(ids) && f.id.Some? && |f.id.value| == 1 && (f.pod.None? || f.pod.value == f.id.value[0])
    requires forall x :: x in ids <==> x in store
    requires ListContainers(store, ids, Anywhere(f), vol).Some?
    ensures ListContainers(store, ids, f, vol) == Some(OfPod(ListContainers(store, ids, Anywhere(f), vol).value, f))
  {
    hide EntryOf, Response, Restrict, Entries;
    var h := f.(id := None, pod := Some(f.id.value[0]));
    assert Anywhere(h) == Anywhere(f);
    FilterCommutes(store, ids, h, vol);
    OfPodIsMatching(ListContainers(store, ids, Anywhere(f), vol).value, f, h);
    ResponseIsPassing(ids, f);
    ResponseIsPassing(ids, h);
    SamePassing(ids, f, h);
    var recs := Restrict(store, Response(ids, f));
    ResponseNonEmpty(ids, f);
    EntriesIgnorePlace(recs, Response(ids, f), f, vol);
    EntriesIgnorePlace(recs, Response(ids, f), h, vol);
  }

  lemma {:induction false} SamePassing(ids: seq<Id>, f: Filter, h: Filter)
    requires f.id.Some? && |f.id.value| == 1 && (f.pod.None? || f.pod == h.pod) && h.id.None? && h.pod == Some(f.id.value[0])
    ensures Passing(ids, f) == Passing(ids, h)
  {
    if ids != [] {
      SamePassing(ids[..|ids| - 1], f, h);
      assert f.id.value == [f.id.value[0]] == MaskOf(f) == MaskOf(h);
    }
  }

  // ---- status

  function AliasOf(id: Id): Id {
    if |id| == 1 then [".", id[0], PRIVILEGED] else id + [PRIVILEGED]
  }

  /** generateFullContainerName when no call fails. */
  function FullName(store: Store, id: Id): Id {
    if AliasOf(id) in store then AliasOf(id) else id
  }

  /** What ContainerStatus reports for the record it resolved. */
  function Report(id: Id, full: Id, rec: Rec, labels: string, vol: Id -> string): Option<Container>
    requires id != []
  {
    match FromPortoLabels(labels)
    case None => None
    case Some(p) => Some(Container(id, id[0], p.labels, p.annotations, ImageOf(vol, full, p.labels), ConvertState(rec.state), rec.created))
  }

  function StatusOf(store: Store, id: Id, vol: Id -> string): Option<Container>
    requires id != []
  {
    var full := FullName(store, id);
    if full !in store then None
    else if !Privileged(full) then Report(id, full, store[full], store[full].labels, vol)
    else if Cri(full) !in store then None
    else Report(id, full, store[full], store[Cri(full)].labels, vol)
  }

  // ---- the two agree on stores that keep the alias invariant

  predicate Readable(r: Rec) {
    FromPortoLabels(r.labels).Some?
  }

  /** The record carries the label that makes StartContainer create the helper. */
  predicate IsPriv(r: Rec) {
    Readable(r) && PRIV in FromPortoLabels(r.labels).value.labels && FromPortoLabels(r.labels).value.labels[PRIV] == "true"
  }

  /** A helper has no labels, and its parent is there and marked. */
  ghost predicate HelperOk(store: Store, id: Id) {
    Privileged(id) ==> |id| == 3 && id in store && store[id].labels == "" && Cri(id) in store && IsPriv(store[Cri(id)])
  }

  ghost predicate AliasInv(store: Store) {
    && IsTree(store)
    && forall id <- store :: Readable(store[id]) && HelperOk(store, id)
  }

  /** Main result: for what is listed, the status on the same store resolves the alias back to
      the same record and reports the same state, labels, annotations, image and time. */
  lemma ListedAgreesWithStatus(store: Store, id: Id, f: Filter, vol: Id -> string)
    requires AliasInv(store) && id != [] && EntryOf(store, id, f, vol).Shown?
    ensures FullName(store, Cri(id)) == id
    ensures StatusOf(store, Cri(id), vol) == Some(EntryOf(store, id, f, vol).c)
  {
    hide FromPortoLabels, ImageOf, ConvertState, Selected;
    EmptyLabels();
    assert HelperOk(store, id);
    if Privileged(id) {
      assert AliasOf(Cri(id)) == id;
    } else {
      var alias := AliasOf(id);
      assert Cri(alias) == id;
      assert alias in store ==> HelperOk(store, alias);
    }
  }

  lemma {:induction false} ShownFrom(store: Store, ids: seq<Id>, f: Filter, vol: Id -> string, k: nat) returns (id: Id)
    requires NoEmptyId(ids) && Entries(store, ids, f, vol).Some? && k < |Entries(store, ids, f, vol).value|
    ensures id in ids && id != [] && EntryOf(store, id, f, vol) == Shown(Entries(store, ids, f, vol).value[k])
  {
    hide EntryOf;
    var n := |ids| - 1;
    var before := Entries(store, ids[..n], f, vol).value;
    if k < |before| {
      id := ShownFrom(store, ids[..n], f, vol, k);
      assert id in ids;
    } else {
      id := ids[n];
    }
  }

  ghost predicate DistinctIds(cs: seq<Container>) {
    forall i, j :: 0 <= i < j < |cs| ==> cs[i].id != cs[j].id
  }

  /** The properties that were found of the ids asked for. */
  ghost predicate Within(recs: Store, store: Store) {
    forall id <- recs :: id in store && recs[id] == store[id]
  }

  lemma ShownWithin(recs: Store, store: Store, id: Id, f: Filter, vol: Id -> string)
    requires Within(recs, store) && id != [] && EntryOf(recs, id, f, vol).Shown?
    ensures EntryOf(store, id, f, vol) == EntryOf(recs, id, f, vol)
  {
    hide Show, FromPortoLabels;
    SameShow(recs, store, id, f, vol);
  }

  /** Main result: no id is listed twice. */
  lemma {:induction false} ListedDistinct(store: Store, recs: Store, ids: seq<Id>, f: Filter, vol: Id -> string)
    requires AliasInv(store) && Within(recs, store) && NoEmptyId(ids) && Entries(recs, ids, f, vol).Some? && Distinct(ids)
    ensures DistinctIds(Entries(recs, ids, f, vol).value)
  {
    hide EntryOf, AliasInv, Within;
    if ids != [] {
      var n := |ids| - 1;
      ListedDistinct(store, recs, ids[..n], f, vol);
      var before, e := Entries(recs, ids[..n], f, vol).value, EntryOf(recs, ids[n], f, vol);
      if e.Shown? {
        forall k | 0 <= k < |before| ensures before[k].id != e.c.id {
          var id := ShownFrom(recs, ids[..n], f, vol, k);
          OneIdOneRecord(store, recs, id, ids[n], f, vol);
          assert id != ids[n] by { var m :| 0 <= m < n && ids[..n][m] == id; assert ids[m] != ids[n]; }
        }
      }
    }
  }

  lemma OneIdOneRecord(store: Store, recs: Store, x: Id, y: Id, f: Filter, vol: Id -> string)
    requires AliasInv(store) && Within(recs, store) && x != [] && y != []
    requires EntryOf(recs, x, f, vol).Shown? && EntryOf(recs, y, f, vol).Shown?
    ensures EntryOf(recs, x, f, vol).c.id == EntryOf(recs, y, f, vol).c.id ==> x == y
  {
    hide EntryOf, AliasInv, Within;
    ShownWithin(recs, store, x, f, vol);
    ShownWithin(recs, store, y, f, vol);
    EntryShape(recs, x, f, vol);
    EntryShape(recs, y, f, vol);
    ListedAgreesWithStatus(store, x, f, vol);
    ListedAgreesWithStatus(store, y, f, vol);
  }

  ghost predicate StatusAgrees(store: Store, shown: Container, vol: Id -> string) {
    shown.id != [] && shown.id in store && StatusOf(store, shown.id, vol) == Some(shown)
  }

  lemma {:induction false} ListedAgree(store: Store, recs: Store, ids: seq<Id>, f: Filter, vol: Id -> string, cs: seq<Container>)
    requires AliasInv(store) && Within(recs, store) && NoEmptyId(ids) && Entries(recs, ids, f, vol) == Some(cs)
    ensures forall j :: 0 <= j < |cs| ==> StatusAgrees(store, cs[j], vol)
  {
    hide EntryOf, AliasInv, Within, StatusOf;
    forall j | 0 <= j < |cs| ensures StatusAgrees(store, cs[j], vol) {
      var id := ShownFrom(recs, ids, f, vol, j);
      ShownWithin(recs, store, id, f, vol);
      EntryShape(store, id, f, vol);
      ListedAgreesWithStatus(store, id, f, vol);
      ShownHasRecord(store, id, f, vol);
    }
  }

  lemma ShownHasRecord(store: Store, id: Id, f: Filter, vol: Id -> string)
    requires AliasInv(store) && id != [] && EntryOf(store, id, f, vol).Shown?
    ensures Cri(id) in store
  {
    hide FromPortoLabels, Show;
  }

  // ---- and everything that should be listed is

  lemma {:induction false} ShownIsListed(recs: Store, ids: seq<Id>, f: Filter, vol: Id -> string, id: Id)
    requires NoEmptyId(ids) && Entries(recs, ids, f, vol).Some? && id in ids && id != [] && EntryOf(recs, id, f, vol).Shown?
    ensures EntryOf(recs, id, f, vol).c in Entries(recs, ids, f, vol).value
  {
    hide EntryOf;
    var n := |ids| - 1;
    if id != ids[n] {
      assert id in ids[..n];
      ShownIsListed(recs, ids[..n], f, vol, id);
    }
  }

  /** The labels are Portoshim's, and a container with the label `priv`, whatever its value, has
      its helper. A caller can read this off the labels and the store. */
  predicate Listable(store: Store, id: Id)
    requires id in store && Readable(store[id])
  {
    var l := FromPortoLabels(store[id].labels).value.labels;
    (CONTAINER_ID in l || POD_NAMESPACE in l) && (PRIV in l ==> AliasOf(id) in store)
  }

  lemma StatusExists(store: Store, id: Id, vol: Id -> string)
    requires AliasInv(store) && id in store && |id| == 2
    ensures Readable(store[id]) && StatusOf(store, id, vol).Some?
    ensures StatusOf(store, id, vol).value.labels == FromPortoLabels(store[id].labels).value.labels
  {
    hide FromPortoLabels, ImageOf, ConvertState;
    assert Cri(AliasOf(id)) == id;
    if AliasOf(id) in store { assert HelperOk(store, AliasOf(id)); }
  }

  lemma EmptyLabels()
    ensures FromPortoLabels("") == Some(Parsed(map[], map[]))
  {
  }

  /** One record stands for a container in the list, and it is shown exactly then. */
  lemma FullNameShown(store: Store, id: Id, f: Filter, vol: Id -> string)
    requires AliasInv(store) && id in store && |id| == 2
    ensures Readable(store[id]) && StatusOf(store, id, vol).Some?
    ensures var status := StatusOf(store, id, vol).value;
            FullName(store, id) in store && FullName(store, id) != [] && Cri(FullName(store, id)) == id
            && (EntryOf(store, FullName(store, id), f, vol).Shown? <==> Listable(store, id) && Selected(f, status.state, status.labels))
  {
    hide FromPortoLabels, ImageOf, ConvertState, Selected;
    StatusExists(store, id, vol);
    EmptyLabels();
    var alias := AliasOf(id);
    assert Cri(alias) == id && Cri(id) == id;
    if alias in store { assert HelperOk(store, alias); }
  }

  // ---- what is said of a container

  /** The state that goes with Porto's word for it. */
  predicate Says(state: CriState, word: string) {
    && (state == CREATED <==> word == "stopped")
    && (state == RUNNING <==> word == "paused" || word == "starting" || word == "running" || word == "stopping" || word == "respawning" || word == "meta")
    && (state == EXITED <==> word == "dead")
  }

  lemma ConvertedSays(word: string)
    ensures Says(ConvertState(word), word)
  {
  }

  /** Main result: a status has the id, the pod, the state and the time of the record that stands
      for the container, its helper if it has one, and the labels, annotations and image of the
      container itself. */
  lemma StatusSays(store: Store, id: Id, vol: Id -> string)
    requires AliasInv(store) && id in store && |id| == 2
    ensures StatusOf(store, id, vol).Some? && Readable(store[id])
    ensures var shown := StatusOf(store, id, vol).value;
            var rec := if id + ["privileged"] in store then store[id + ["privileged"]] else store[id];
            var own := FromPortoLabels(store[id].labels).value;
            && shown.id == id && shown.podId == id[0] && Says(shown.state, rec.state) && shown.created == rec.created
            && shown.labels == own.labels && shown.annotations == own.annotations
            && (CONTAINER_IMAGE in own.labels ==> shown.image == own.labels[CONTAINER_IMAGE])
  {
    hide FromPortoLabels, ConvertState;
    StatusExists(store, id, vol);
    assert AliasOf(id) == id + ["privileged"] && Cri(AliasOf(id)) == id;
    ConvertedSays(store[FullName(store, id)].state);
  }

  /** What a filter asks of a container, by the fields of the container alone. */
  predicate LetsThrough(f: Filter, shown: Container) {
    && (f.id.Some? ==> shown.id == f.id.value)
    && (f.pod.Some? ==> shown.podId == f.pod.value)
    && (f.state.Some? ==> shown.state == f.state.value)
    && (forall k <- f.selector :: k in shown.labels && shown.labels[k] == f.selector[k])
  }

  lemma ThroughIs(f: Filter, shown: Container)
    ensures LetsThrough(f, shown) <==> Selected(f, shown.state, shown.labels) && Matches(shown, f)
    ensures LetsThrough(Anywhere(f), shown) <==> Selected(f, shown.state, shown.labels)
  {
  }

  ghost predicate ShownAs(store: Store, id: Id, f: Filter, vol: Id -> string) {
    exists x :: x in store && x != [] && Cri(x) == id && EntryOf(store, x, f, vol).Shown?
  }

  /** Main result: every container has a status, and it is listed if and only if its labels are
      Portoshim's, it has its helper if it has the label `priv`, and the filter selects what the
      status says. */
  lemma ListedExactly(store: Store, id: Id, f: Filter, vol: Id -> string)
    requires AliasInv(store) && id in store && |id| == 2
    ensures Readable(store[id]) && StatusOf(store, id, vol).Some?
    ensures var status := StatusOf(store, id, vol).value;
            ShownAs(store, id, f, vol) <==> Listable(store, id) && LetsThrough(Anywhere(f), status)
  {
    hide AliasInv, EntryOf, StatusOf, Listable, Selected, Readable, LetsThrough;
    FullNameShown(store, id, f, vol);
    ThroughIs(f, StatusOf(store, id, vol).value);
    if ShownAs(store, id, f, vol) {
      var x :| x in store && x != [] && Cri(x) == id && EntryOf(store, x, f, vol).Shown?;
      ListedAgreesWithStatus(store, x, f, vol);
    }
  }

  // ---- the whole answer

  /** An answer of ListContainers, for some order in which Porto lists the store. */
  ghost predicate AnswerOf(store: Store, f: Filter, vol: Id -> string, cs: seq<Container>) {
    exists ids :: NoEmptyId(ids) && IsListing(ids, store, []) && ListContainers(store, ids, f, vol) == Some(cs)
  }

  ghost predicate AllRead(recs: Store) {
    forall id <- recs :: Readable(recs[id])
  }

  lemma {:induction false} NoPanic(store: Store, ids: seq<Id>, f: Filter, vol: Id -> string)
    requires AllRead(store) && NoEmptyId(ids)
    ensures Entries(store, ids, f, vol).Some?
  {
    hide AllRead, EntryOf;
    if ids != [] {
      NoPanic(store, ids[..|ids| - 1], f, vol);
      NoPanicAt(store, ids[|ids| - 1], f, vol);
    }
  }

  lemma AliasRead(store: Store)
    requires AliasInv(store)
    ensures AllRead(store)
  {
  }

  lemma NoPanicAt(store: Store, id: Id, f: Filter, vol: Id -> string)
    requires AllRead(store) && id != []
    ensures !EntryOf(store, id, f, vol).Panic?
  {
    hide FromPortoLabels, Show;
    SomeShow(store, id, f, vol);
    assert Cri(id) in store ==> Readable(store[Cri(id)]);
  }

  lemma SomeShow(store: Store, id: Id, f: Filter, vol: Id -> string)
    requires id != []
    ensures id in store ==> forall p :: !Show(store, id, p, f, vol).Panic?
  {
  }

  lemma {:induction false} MatchingMembers(cs: seq<Container>, f: Filter)
    ensures forall c :: c in Matching(cs, f) <==> c in cs && Matches(c, f)
  {
    hide Matches;
    if cs != [] {
      MatchingMembers(cs[..|cs| - 1], f);
      assert cs == cs[..|cs| - 1] + [cs[|cs| - 1]];
    }
  }

  /** Main result: an answer has a container if and only if it should be listed and the filter
      lets its status through, and it has it as the status says. */
  lemma AnswerExactly(store: Store, f: Filter, vol: Id -> string, cs: seq<Container>, shown: Container)
    requires AliasInv(store) && AnswerOf(store, f, vol, cs) && (f.id.Some? ==> |f.id.value| >= 2)
    ensures shown in cs <==>
            && |shown.id| == 2 && shown.id in store && Readable(store[shown.id]) && Listable(store, shown.id)
            && StatusOf(store, shown.id, vol) == Some(shown) && LetsThrough(f, shown)
  {
    hide AliasInv, EntryOf, StatusOf, Listable, Selected, LetsThrough, Readable, Matches, Entries, ListContainers,
      Distinct;
    ThroughIs(f, shown);
    var ids :| NoEmptyId(ids) && IsListing(ids, store, []) && ListContainers(store, ids, f, vol) == Some(cs);
    AliasRead(store);
    NoPanic(store, ids, f, vol);
    Unfiltered(store, ids, f, vol);
    FilterCommutes(store, ids, f, vol);
    var all := Entries(store, ids, f, vol).value;
    MatchingMembers(all, f);
    AllExactly(store, ids, f, vol, all, shown);
  }

  lemma AllExactly(store: Store, ids: seq<Id>, f: Filter, vol: Id -> string, all: seq<Container>, shown: Container)
    requires AliasInv(store) && NoEmptyId(ids) && (forall x :: x in ids <==> x in store) && Entries(store, ids, f, vol) == Some(all)
    ensures shown in all <==>
            && |shown.id| == 2 && shown.id in store && Readable(store[shown.id]) && Listable(store, shown.id)
            && StatusOf(store, shown.id, vol) == Some(shown) && Selected(f, shown.state, shown.labels)
  {
    hide AliasInv, EntryOf, StatusOf, Listable, Selected, Readable, Entries, FullName;
    if shown in all {
      var k :| 0 <= k < |all| && all[k] == shown;
      var x := ShownFrom(store, ids, f, vol, k);
      EntryShape(store, x, f, vol);
      ListedAgreesWithStatus(store, x, f, vol);
      ShownHasRecord(store, x, f, vol);
    }
    if |shown.id| == 2 && shown.id in store {
      FullNameShown(store, shown.id, f, vol);
      var x := FullName(store, shown.id);
      if EntryOf(store, x, f, vol).Shown? {
        ShownIsListed(store, ids, f, vol, x);
        ListedAgreesWithStatus(store, x, f, vol);
      }
    }
  }

  lemma {:induction false} PassingDistinct(ids: seq<Id>, f: Filter)
    requires Distinct(ids)
    ensures Distinct(Passing(ids, f))
  {
    hide Passes;
    if ids != [] {
      var n := |ids| - 1;
      PassingDistinct(ids[..n], f);
      PassingMembers(ids[..n], f);
      assert ids[n] !in ids[..n];
    }
  }

  /** Whatever the filter, an answer has no id twice and agrees with the status. */
  lemma AnswerIsSound(store: Store, f: Filter, vol: Id -> string, cs: seq<Container>)
    requires AliasInv(store) && AnswerOf(store, f, vol, cs)
    ensures DistinctIds(cs) && forall j :: 0 <= j < |cs| ==> StatusAgrees(store, cs[j], vol)
  {
    hide AliasInv, Entries, Response, StatusAgrees, Distinct, DistinctIds, NoEmptyId;
    var ids :| NoEmptyId(ids) && IsListing(ids, store, []) && ListContainers(store, ids, f, vol) == Some(cs);
    var recs := Restrict(store, Response(ids, f));
    ResponseNonEmpty(ids, f);
    ResponseIsPassing(ids, f);
    PassingDistinct(ids, f);
    ListedDistinct(store, recs, Response(ids, f), f, vol);
    ListedAgree(store, recs, Response(ids, f), f, vol, cs);
  }

  // ---- a list that a pod id filters wrongly

  /** A pod with one container, listed with the pod's id as container id: the answer has the
      container, while no container has that id. */
  lemma PodIdDiffers(pod: string, cnt: string, vol: Id -> string) returns (store: Store, ids: seq<Id>, f: Filter)
    requires cnt != PRIVILEGED
    ensures AliasInv(store) && NoEmptyId(ids) && IsListing(ids, store, []) && f.id == Some([pod]) && f.pod.None?
    ensures ListContainers(store, ids, Anywhere(f), vol).Some?
    ensures ListContainers(store, ids, f, vol) != Some(Matching(ListContainers(store, ids, Anywhere(f), vol).value, f))
  {
    hide FromPortoLabels, Prints, WithEngine, Entries, ListContainers, EntryOf;
    var labels: map<GoString, GoString> := map[CONTAINER_ID := ""];
    var text := SomeText(WithEngine(labels, map[]));
    LabelsRoundTrip(text, labels, map[]);
    EmptyLabels();
    var p, c := [pod], [pod, cnt];
    store := map[p := Rec("", "running", "", "", 0, 0), c := Rec(text, "running", "", "", 0, 1)];
    ids := [p, c];
    f := NO_FILTER.(id := Some(p));
    assert ids[0] == p && ids[1] == c && p != c && ParentOf(c) == p;
    assert AliasInv(store);
    NoPanic(store, ids, f, vol);
    Unfiltered(store, ids, f, vol);
    PodIdAsContainerId(store, ids, f, vol);
    OneShown(store, c, labels, f, vol);
    ShownIsListed(store, ids, f, vol, c);
    var shown := EntryOf(store, c, f, vol).c;
    assert InPod(shown, f);
  }

  lemma OneShown(store: Store, id: Id, labels: Labels, f: Filter, vol: Id -> string)
    requires |id| == 2 && id in store && FromPortoLabels(store[id].labels) == Some(Parsed(labels, map[]))
    requires CONTAINER_ID in labels && PRIV !in labels && Selected(f, ConvertState(store[id].state), labels)
    ensures EntryOf(store, id, f, vol).Shown? && EntryOf(store, id, f, vol).c.podId == id[0]
  {
  }
}
