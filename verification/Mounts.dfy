/** The volumes of a container: prepareContainerMounts (cmd/portoshim/runtime_mapper.go).
    The host path that a secret is copied to is not part of this model.
 */
module Mounts {
  import opened GoStrings
  import opened GoPaths
  import opened GoSort

  /** A CRI mount; its paths are cleaned in place. */
  class Mount {
    var containerPath: string
    var hostPath: string
    const readonly: bool

    constructor (containerPath: string, hostPath: string, readonly: bool)
      ensures this.containerPath == containerPath && this.hostPath == hostPath && this.readonly == readonly
    {
      this.containerPath, this.hostPath, this.readonly := containerPath, hostPath, readonly;
    }
  }

  /** A volume and its one link: the container, the place in it, and whether that is read-only. */
  datatype VolumeSpec = VolumeSpec(
    container: string, target: string, linkReadonly: bool, backend: string, storage: string, readonly: bool)

  /** The slice of volumes that the caller passes by reference. */
  class VolumeList {
    var items: seq<VolumeSpec>

    constructor (items: seq<VolumeSpec>)
      ensures this.items == items
    {
      this.items := items;
    }
  }

  /** What a mount says, as a value. */
  datatype MountValue = MountValue(containerPath: string, hostPath: string, readonly: bool)

  function ValueOf(m: Mount): MountValue
    reads m
  {
    MountValue(m.containerPath, m.hostPath, m.readonly)
  }

  function Cleaned(v: MountValue): MountValue {
    MountValue(Clean(v.containerPath), Clean(v.hostPath), v.readonly)
  }

  const EXCLUDED := ["/dev", "/sys"]
  const LOGSHIM := "/usr/sbin/logshim"
  const LOGSHIM_MOUNT := MountValue(LOGSHIM, LOGSHIM, true)

  function SpecOf(id: string, v: MountValue): VolumeSpec {
    VolumeSpec(id, v.containerPath, v.readonly, "bind", v.hostPath, v.readonly)
  }

  /** One volume for every mount whose cleaned target is not a root that Porto manages. */
  function Kept(id: string, values: seq<MountValue>): seq<VolumeSpec> {
    if values == [] then []
    else
      var v := Cleaned(values[|values| - 1]);
      Kept(id, values[..|values| - 1]) + if v.containerPath in EXCLUDED then [] else [SpecOf(id, v)]
  }

  function TargetOf(v: VolumeSpec): string {
    v.target
  }

  /** The values of the mounts, read at once. */
  function Values(mounts: seq<Mount>): (r: seq<MountValue>)
    reads mounts
    ensures |r| == |mounts|
    ensures forall i :: 0 <= i < |r| ==> r[i] == ValueOf(mounts[i])
  {
    seq(|mounts|, i requires 0 <= i < |mounts| reads mounts => ValueOf(mounts[i]))
  }

  lemma CleanedTwice(v: MountValue)
    ensures Cleaned(Cleaned(v)) == Cleaned(v)
  {
    CleanIdempotent(v.containerPath);
    CleanIdempotent(v.hostPath);
  }

  method PrepareContainerMounts(id: string, volumes: VolumeList, mounts: seq<Mount>)
    modifies volumes, mounts
    ensures forall i :: 0 <= i < |mounts| ==> ValueOf(mounts[i]) == Cleaned(old(ValueOf(mounts[i])))
    ensures multiset(volumes.items) ==
            multiset(old(volumes.items)) + multiset(Kept(id, old(Values(mounts)) + [LOGSHIM_MOUNT]))
    ensures forall x :: multiset(volumes.items)[x] ==
              multiset(old(volumes.items))[x] + CountFor(id, old(Values(mounts)), x) + if ForLogshim(id, x) then 1 else 0
    ensures SortedBy(TargetOf, volumes.items)
  {
    hide Clean, Kept, SortedBy, SpecOf;
    ghost var prior := volumes.items;
    var logshim := new Mount(LOGSHIM, LOGSHIM, true);
    var all := mounts + [logshim];
    ghost var was := Values(all);
    assert was == old(Values(mounts)) + [LOGSHIM_MOUNT];
    KeptNone(id);
    for i := 0 to |all|
      invariant volumes.items == prior + Kept(id, was[..i])
      invariant forall j :: 0 <= j < |all| ==> ValueOf(all[j]) == was[j] || ValueOf(all[j]) == Cleaned(was[j])
      invariant forall j :: 0 <= j < i ==> ValueOf(all[j]) == Cleaned(was[j])
    {
      CleanedTwice(was[i]);
      var m := all[i];
      m.containerPath := Clean(m.containerPath);
      m.hostPath := Clean(m.hostPath);
      KeptNext(id, was, i);
      if m.containerPath in EXCLUDED {
        continue;
      }
      volumes.items := volumes.items + [SpecOf(id, ValueOf(m))];
    }
    assert was[..|all|] == was;
    assert forall j :: 0 <= j < |mounts| ==> mounts[j] == all[j] && was[j] == old(Values(mounts))[j];
    var sorted := SortSlice(TargetOf, volumes.items);
    volumes.items := sorted;
    forall x
      ensures multiset(Kept(id, was))[x] == CountFor(id, old(Values(mounts)), x) + if ForLogshim(id, x) then 1 else 0
    {
      KeptCounts(id, old(Values(mounts)), x);
    }
  }

  // ---- which volumes these are

  /** The volume binds the host path of the mount at its path in the container, both cleaned,
      and is read-only if the mount is. Mounts at exactly /dev and /sys get none. */
  predicate IsFor(id: string, v: MountValue, x: VolumeSpec) {
    && x.container == id && x.target == Clean(v.containerPath) && x.storage == Clean(v.hostPath)
    && x.backend == "bind" && x.readonly == v.readonly && x.linkReadonly == v.readonly
    && Clean(v.containerPath) != "/dev" && Clean(v.containerPath) != "/sys"
  }

  predicate ForLogshim(id: string, x: VolumeSpec) {
    && x.container == id && x.target == "/usr/sbin/logshim" && x.storage == "/usr/sbin/logshim"
    && x.backend == "bind" && x.readonly && x.linkReadonly
  }

  /** For how many of the mounts it is. */
  function CountFor(id: string, values: seq<MountValue>, x: VolumeSpec): nat {
    if values == [] then 0
    else CountFor(id, values[..|values| - 1], x) + if IsFor(id, values[|values| - 1], x) then 1 else 0
  }

  lemma CountOne(id: string, v: MountValue, x: VolumeSpec)
    ensures multiset(if Cleaned(v).containerPath in EXCLUDED then [] else [SpecOf(id, Cleaned(v))])[x]
         == if IsFor(id, v, x) then 1 else 0
  {
    hide Clean;
  }

  lemma {:induction false} KeptCount(id: string, values: seq<MountValue>, x: VolumeSpec)
    ensures multiset(Kept(id, values))[x] == CountFor(id, values, x)
  {
    hide Clean, IsFor, SpecOf;
    if values != [] {
      var n := |values| - 1;
      KeptCount(id, values[..n], x);
      CountOne(id, values[n], x);
    }
  }

  /** Main result: the volumes of the mounts, counted by their fields. */
  lemma KeptCounts(id: string, values: seq<MountValue>, x: VolumeSpec)
    ensures multiset(Kept(id, values + [LOGSHIM_MOUNT]))[x]
         == CountFor(id, values, x) + if ForLogshim(id, x) then 1 else 0
  {
    hide Kept, IsFor, SpecOf;
    LogshimKept(id, values);
    KeptCount(id, values, x);
    LogshimSpec(id, x);
  }

  lemma LogshimSpec(id: string, x: VolumeSpec)
    ensures x == SpecOf(id, LOGSHIM_MOUNT) <==> ForLogshim(id, x)
  {
  }

  lemma KeptNone(id: string)
    ensures Kept(id, []) == []
  {
  }

  lemma KeptNext(id: string, values: seq<MountValue>, i: nat)
    requires i < |values|
    ensures Kept(id, values[..i + 1]) ==
            Kept(id, values[..i]) + if Cleaned(values[i]).containerPath in EXCLUDED then [] else [SpecOf(id, Cleaned(values[i]))]
  {
    hide Clean;
    assert values[..i + 1][..i] == values[..i];
  }

  /** The logshim binary is always mounted. */
  lemma LogshimKept(id: string, values: seq<MountValue>)
    ensures Kept(id, values + [LOGSHIM_MOUNT]) == Kept(id, values) + [SpecOf(id, LOGSHIM_MOUNT)]
  {
    hide Kept, Clean;
    LogshimClean();
    var all := values + [LOGSHIM_MOUNT];
    KeptNext(id, all, |values|);
    assert all[..|values|] == values && all[..|values| + 1] == all;
  }

  lemma LogshimClean()
    ensures Clean(LOGSHIM) == LOGSHIM && LOGSHIM !in EXCLUDED
  {
    hide Clean;
    LogshimText();
    CleanRender(["usr", "sbin", "logshim"]);
    assert LOGSHIM[1] == 'u' && EXCLUDED[0][1] == 'd' && EXCLUDED[1][1] == 's';
  }

  lemma LogshimText()
    ensures Render(["usr", "sbin", "logshim"]) == LOGSHIM && AllNames(["usr", "sbin", "logshim"])
  {
    var names := ["usr", "sbin", "logshim"];
    assert Join(["sbin", "logshim"], '/') == "sbin/logshim" by { assert ["sbin", "logshim"][1..] == ["logshim"]; }
    assert Join(names, '/') == "usr/sbin/logshim" by { assert names[1..] == ["sbin", "logshim"]; }
  }

  // ---- the order of the volumes

  /** a is the text of a directory above b. */
  ghost predicate StrictAncestor(a: string, b: string) {
    exists p: seq<string>, q: seq<string> :: AllNames(p + q) && q != [] && a == Render(p) && b == Render(p + q)
  }

  lemma RenderPrefix(p: seq<string>, q: seq<string>)
    requires q != [] && AllNames(p + q)
    ensures Render(p) <= Render(p + q) && |Render(p)| < |Render(p + q)|
  {
    if p == [] {
      assert p + q == q;
      assert q[0] == (p + q)[0];
    } else {
      JoinConcat(p, q, '/');
    }
  }

  /** Main result: in the sorted list a mount comes after all mounts at its strict ancestors,
      so that no mount is hidden by one made later above it. */
  lemma AncestorsFirst(items: seq<VolumeSpec>, i: nat, j: nat)
    requires SortedBy(TargetOf, items) && i < |items| && j < |items|
    requires StrictAncestor(items[i].target, items[j].target)
    ensures i < j
  {
    hide Join, Leq;
    var a, b := items[i].target, items[j].target;
    var p, q :| AllNames(p + q) && q != [] && a == Render(p) && b == Render(p + q);
    RenderPrefix(p, q);
    PrefixLeq(a, b);
    if j < i {
      assert Leq(TargetOf(items[j]), TargetOf(items[i]));
      LeqAntisymmetric(a, b);
    }
  }
}
