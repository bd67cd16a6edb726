/** From the CDI annotations of a container to its edits: cdiRequestedDevices, loadCDISpecs,
    resolveCDIDevices and apply (cmd/portoshim/cdi.go).
 */
module CdiDevices {
  import opened GoStrings
  import opened GoSort
  import CdiHooks
  import CdiMounts

  type Hook = CdiHooks.Hook
  type Mount = CdiMounts.Mount

  // ---- the parts of a spec file, and what a container gets from them

  datatype DeviceNode = DeviceNode(path: string, hostPath: string, permissions: string)
  datatype SpecMount = SpecMount(hostPath: string, containerPath: string, options: seq<string>)
  datatype ContainerEdits = ContainerEdits(env: seq<string>, nodes: seq<DeviceNode>, mounts: seq<SpecMount>, hooks: seq<Hook>)
  datatype Device = Device(name: string, edits: ContainerEdits)
  datatype Spec = Spec(kind: string, devices: seq<Device>, edits: ContainerEdits)

  datatype KeyValue = KeyValue(key: string, value: string)
  datatype CriDevice = CriDevice(containerPath: string, hostPath: string, permissions: string)

  datatype Edits = Edits(envs: seq<KeyValue>, devices: seq<CriDevice>, mounts: seq<Mount>, hooks: seq<Hook>) {
    function Plus(e: Edits): Edits {
      Edits(envs + e.envs, devices + e.devices, mounts + e.mounts, hooks + e.hooks)
    }
  }

  const NO_EDITS := Edits([], [], [], [])

  function EnvsOf(env: seq<string>): seq<KeyValue> {
    if env == [] then []
    else EnvsOf(env[..|env| - 1]) + match Cut(env[|env| - 1], '=')
         case None => []
         case Some((k, v)) => [KeyValue(k, v)]
  }

  function DeviceOf(d: DeviceNode): CriDevice {
    CriDevice(d.path, if d.hostPath == "" then d.path else d.hostPath, if d.permissions == "" then "rwm" else d.permissions)
  }

  function MountOf(m: SpecMount): Mount {
    CdiMounts.Mount(m.containerPath, m.hostPath, "ro" in m.options)
  }

  function DevicesOfNodes(nodes: seq<DeviceNode>): seq<CriDevice> {
    seq(|nodes|, i requires 0 <= i < |nodes| => DeviceOf(nodes[i]))
  }

  function MountsOf(mounts: seq<SpecMount>): seq<Mount> {
    seq(|mounts|, i requires 0 <= i < |mounts| => MountOf(mounts[i]))
  }

  function Converted(e: ContainerEdits): Edits {
    Edits(EnvsOf(e.env), DevicesOfNodes(e.nodes), MountsOf(e.mounts), e.hooks)
  }

  // ---- what the parts of an edit become, field by field

  /** The variables that have a value, as texts. */
  function WithValue(env: seq<string>): seq<string> {
    if env == [] then []
    else WithValue(env[..|env| - 1]) + if '=' in env[|env| - 1] then [env[|env| - 1]] else []
  }

  function EnvTexts(envs: seq<KeyValue>): (t: seq<string>)
    ensures |t| == |envs|
  {
    seq(|envs|, i requires 0 <= i < |envs| => envs[i].key + "=" + envs[i].value)
  }

  lemma {:induction false} EnvsSay(env: seq<string>)
    ensures EnvTexts(EnvsOf(env)) == WithValue(env)
    ensures forall i :: 0 <= i < |EnvsOf(env)| ==> '=' !in EnvsOf(env)[i].key
  {
    if env != [] {
      EnvsSay(env[..|env| - 1]);
    }
  }

  ghost predicate MountSays(m: SpecMount, r: Mount) {
    && r.containerPath == m.containerPath && r.hostPath == m.hostPath
    && (r.readonly <==> exists j :: 0 <= j < |m.options| && m.options[j] == "ro")
  }

  predicate DeviceSays(d: DeviceNode, r: CriDevice) {
    && r.containerPath == d.path
    && r.hostPath == (if d.hostPath != "" then d.hostPath else d.path)
    && r.permissions == (if d.permissions != "" then d.permissions else "rwm")
  }

  /** Main result: every mount keeps its two paths and is read-only if and only if an option says
      so, every device keeps its paths and permissions or gets its own path and all permissions,
      a variable with a value is cut at its first `=`, one without is left out, and all come in
      their order. */
  lemma ConvertedSays(e: ContainerEdits)
    ensures var r := Converted(e);
            && |r.mounts| == |e.mounts| && (forall i :: 0 <= i < |e.mounts| ==> MountSays(e.mounts[i], r.mounts[i]))
            && |r.devices| == |e.nodes| && (forall i :: 0 <= i < |e.nodes| ==> DeviceSays(e.nodes[i], r.devices[i]))
            && EnvTexts(r.envs) == WithValue(e.env) && (forall i :: 0 <= i < |r.envs| ==> '=' !in r.envs[i].key)
            && r.hooks == e.hooks
  {
    EnvsSay(e.env);
    hide EnvsOf, EnvTexts, WithValue;
  }

  /** The edits of a container, collected in place. */
  class CdiEdits {
    var envs: seq<KeyValue>
    var devices: seq<CriDevice>
    var mounts: seq<Mount>
    var hooks: seq<Hook>

    constructor ()
      ensures View() == NO_EDITS
    {
      envs, devices, mounts, hooks := [], [], [], [];
    }

    function View(): Edits
      reads this
    {
      Edits(envs, devices, mounts, hooks)
    }

    method Apply(edits: ContainerEdits)
      modifies this
      ensures View() == old(View()).Plus(Converted(edits))
    {
      hide EnvsOf, DevicesOfNodes, MountsOf;
      ApplyEnv(edits.env);
      ApplyNodes(edits.nodes);
      ApplyMounts(edits.mounts);
      hooks := hooks + edits.hooks;
    }

    method ApplyEnv(env: seq<string>)
      modifies this`envs
      ensures envs == old(envs) + EnvsOf(env)
    {
      for i := 0 to |env|
        invariant envs == old(envs) + EnvsOf(env[..i])
      {
        assert env[..i + 1][..i] == env[..i];
        match Cut(env[i], '=') {
          case None =>
          case Some((k, v)) => envs := envs + [KeyValue(k, v)];
        }
      }
      assert env[..|env|] == env;
    }

    method ApplyNodes(nodes: seq<DeviceNode>)
      modifies this`devices
      ensures devices == old(devices) + DevicesOfNodes(nodes)
    {
      for i := 0 to |nodes|
        invariant devices == old(devices) + DevicesOfNodes(nodes)[..i]
      {
        var d := nodes[i];
        var hostPath := d.hostPath;
        if hostPath == "" {
          hostPath := d.path;
        }
        var permissions := d.permissions;
        if permissions == "" {
          permissions := "rwm";
        }
        devices := devices + [CriDevice(d.path, hostPath, permissions)];
      }
    }

    method ApplyMounts(specMounts: seq<SpecMount>)
      modifies this`mounts
      ensures mounts == old(mounts) + MountsOf(specMounts)
    {
      for i := 0 to |specMounts|
        invariant mounts == old(mounts) + MountsOf(specMounts)[..i]
      {
        var m := specMounts[i];
        var readonly := false;
        for j := 0 to |m.options|
          invariant readonly <==> "ro" in m.options[..j]
        {
          if m.options[j] == "ro" {
            readonly := true;
          }
        }
        assert m.options[..|m.options|] == m.options;
        mounts := mounts + [CdiMounts.Mount(m.containerPath, m.hostPath, readonly)];
      }
    }
  }

  // ---- spec files

  datatype FileContent = NoRead | BadYaml | Parsed(spec: Spec)
  datatype File = File(name: string, isDir: bool, content: FileContent)
  datatype Listing = Missing | NoList | Files(files: seq<File>)

  /** filepath.Ext of a file name: from the last dot on. */
  function Ext(name: string): string {
    if name == "" then ""
    else
      var n := |name| - 1;
      if name[n] == '.' then "." else
      var e := Ext(name[..n]);
      if e == "" then "" else e + [name[n]]
  }

  predicate IsSpecFile(f: File) {
    !f.isDir && (Ext(f.name) == ".yaml" || Ext(f.name) == ".json")
  }

  predicate GoodFile(f: File) {
    f.content.Parsed? && f.content.spec.kind != ""
  }

  predicate GoodListing(l: Listing) {
    l.Missing? || (l.Files? && forall f <- l.files :: IsSpecFile(f) ==> GoodFile(f))
  }

  /** The specs of all directories, in the order of reading. */
  function SpecsIn(files: seq<File>): seq<Spec> {
    if files == [] then []
    else
      var f := files[|files| - 1];
      SpecsIn(files[..|files| - 1]) + if IsSpecFile(f) && GoodFile(f) then [f.content.spec] else []
  }

  function AllSpecs(dirs: seq<Listing>): seq<Spec> {
    if dirs == [] then []
    else
      var l := dirs[|dirs| - 1];
      AllSpecs(dirs[..|dirs| - 1]) + if l.Files? then SpecsIn(l.files) else []
  }

  /** A later spec of a kind overrides an earlier one. */
  function ByKind(specs: seq<Spec>): (m: map<string, Spec>)
    ensures forall k <- m :: m[k].kind == k
  {
    if specs == [] then map[]
    else
      var s := specs[|specs| - 1];
      ByKind(specs[..|specs| - 1])[s.kind := s]
  }

  lemma ByKindSnoc(specs: seq<Spec>, s: Spec)
    ensures ByKind(specs + [s]) == ByKind(specs)[s.kind := s]
  {
    assert (specs + [s])[..|specs|] == specs;
  }

  method LoadCDISpecs(dirs: seq<Listing>) returns (r: Option<map<string, Spec>>)
    ensures r.Some? <==> forall l <- dirs :: GoodListing(l)
    ensures r.Some? ==> r.value == ByKind(AllSpecs(dirs))
  {
    hide Ext, IsSpecFile, ByKind;
    var specs: map<string, Spec> := map[];
    EmptyKinds();
    for d := 0 to |dirs|
      invariant forall i :: 0 <= i < d ==> GoodListing(dirs[i])
      invariant specs == ByKind(AllSpecs(dirs[..d]))
    {
      assert dirs[..d + 1][..d] == dirs[..d];
      if dirs[d].Missing? {
        assert AllSpecs(dirs[..d]) + [] == AllSpecs(dirs[..d]);
        continue;
      }
      if dirs[d].NoList? {
        assert dirs[d] in dirs;
        return None;
      }
      var files := dirs[d].files;
      ghost var before := AllSpecs(dirs[..d]);
      assert before + SpecsIn([]) == before;
      for i := 0 to |files|
        invariant forall j :: 0 <= j < i ==> IsSpecFile(files[j]) ==> GoodFile(files[j])
        invariant specs == ByKind(before + SpecsIn(files[..i]))
      {
        assert files[..i + 1][..i] == files[..i];
        var f := files[i];
        if !IsSpecFile(f) {
          assert SpecsIn(files[..i]) + [] == SpecsIn(files[..i]);
          continue;
        }
        if !GoodFile(f) {
          assert f in files && !GoodListing(dirs[d]) && dirs[d] in dirs;
          return None;
        }
        ByKindSnoc(before + SpecsIn(files[..i]), f.content.spec);
        assert before + SpecsIn(files[..i]) + [f.content.spec] == before + (SpecsIn(files[..i]) + [f.content.spec]);
        specs := specs[f.content.spec.kind := f.content.spec];
      }
      assert files[..|files|] == files;
    }
    assert dirs[..|dirs|] == dirs;
    r := Some(specs);
  }

  lemma EmptyKinds()
    ensures ByKind([]) == map[]
  {
  }

  /** Main result about overriding: a kind is described by its last spec. */
  lemma {:induction false} LastWins(specs: seq<Spec>, kind: string, i: nat)
    requires i < |specs| && specs[i].kind == kind && forall j :: i < j < |specs| ==> specs[j].kind != kind
    ensures kind in ByKind(specs) && ByKind(specs)[kind] == specs[i]
  {
    var n := |specs| - 1;
    if i < n { LastWins(specs[..n], kind, i); }
  }

  lemma {:induction false} KnownKinds(specs: seq<Spec>, kind: string)
    ensures kind in ByKind(specs) <==> exists i :: 0 <= i < |specs| && specs[i].kind == kind
  {
    if specs != [] {
      var n := |specs| - 1;
      KnownKinds(specs[..n], kind);
      assert forall i :: 0 <= i < n ==> specs[..n][i] == specs[i];
    }
  }

  // ---- resolving requested devices

  predicate HasDevice(devices: seq<Device>, name: string) {
    exists d <- devices :: d.name == name
  }

  /** The first device with the name. */
  function FindDevice(devices: seq<Device>, name: string): (d: Device)
    requires HasDevice(devices, name)
    ensures d in devices && d.name == name
  {
    if devices[0].name == name then devices[0]
    else
      assert HasDevice(devices[1..], name) by {
        var d :| d in devices && d.name == name;
        assert d in devices[1..];
      }
      FindDevice(devices[1..], name)
  }

  predicate WellFormed(q: string) {
    '=' in q
  }

  function KindOf(q: string): string
    requires WellFormed(q)
  {
    Cut(q, '=').value.0
  }

  function NameOf(q: string): string
    requires WellFormed(q)
  {
    Cut(q, '=').value.1
  }

  /** The name is well formed, its kind is known and has the device. */
  predicate Known(specs: map<string, Spec>, q: string) {
    WellFormed(q) && KindOf(q) in specs && HasDevice(specs[KindOf(q)].devices, NameOf(q))
  }

  /** Which edits are applied: those shared by a kind, or those of one device. */
  datatype Origin = Shared(kind: string) | Own(q: string)

  function EditsOf(specs: map<string, Spec>, o: Origin): Edits {
    match o
    case Shared(kind) => if kind in specs then Converted(specs[kind].edits) else NO_EDITS
    case Own(q) =>
      if Known(specs, q) then Converted(FindDevice(specs[KindOf(q)].devices, NameOf(q)).edits) else NO_EDITS
  }

  function Total(specs: map<string, Spec>, origins: seq<Origin>): Edits {
    if origins == [] then NO_EDITS
    else Total(specs, origins[..|origins| - 1]).Plus(EditsOf(specs, origins[|origins| - 1]))
  }

  /** The first occurrences, in order. */
  function Distinct(names: seq<string>): (r: seq<string>)
    ensures forall q :: q in r <==> q in names
  {
    if names == [] then []
    else
      var before, q := names[..|names| - 1], names[|names| - 1];
      assert names == before + [q];
      if q in before then Distinct(before) else Distinct(before) + [q]
  }

  predicate KindSeen(names: seq<string>, kind: string) {
    exists q <- names :: WellFormed(q) && KindOf(q) == kind
  }

  /** The declarative order of the edits: each device in turn, and before the first device
      of a kind the shared edits of the kind. */
  function Schedule(names: seq<string>): seq<Origin> {
    if names == [] then []
    else
      var before, q := names[..|names| - 1], names[|names| - 1];
      Schedule(before)
      + (if WellFormed(q) && !KindSeen(before, KindOf(q)) then [Shared(KindOf(q))] else [])
      + [Own(q)]
  }

  lemma TotalSnoc(specs: map<string, Spec>, origins: seq<Origin>, o: Origin)
    ensures Total(specs, origins + [o]) == Total(specs, origins).Plus(EditsOf(specs, o))
  {
    assert (origins + [o])[..|origins|] == origins;
  }

  method Lookup(spec: Spec, name: string) returns (d: Option<Device>)
    ensures d.Some? <==> HasDevice(spec.devices, name)
    ensures d.Some? ==> d.value == FindDevice(spec.devices, name)
  {
    for i := 0 to |spec.devices|
      invariant forall j :: 0 <= j < i ==> spec.devices[j].name != name
    {
      if spec.devices[i].name == name {
        FirstMatch(spec.devices, name, i);
        return Some(spec.devices[i]);
      }
    }
    d := None;
  }

  lemma {:induction false} FirstMatch(devices: seq<Device>, name: string, i: nat)
    requires i < |devices| && devices[i].name == name
    requires forall j :: 0 <= j < i ==> devices[j].name != name
    ensures HasDevice(devices, name) && FindDevice(devices, name) == devices[i]
  {
    assert devices[i] in devices;
    if i > 0 { FirstMatch(devices[1..], name, i - 1); }
  }

  /** The specs are loaded only when something is requested; None is a failed load. */
  method ResolveCDIDevices(requested: seq<string>, dirs: seq<Listing>) returns (edits: CdiEdits?)
    ensures edits != null <==> requested == [] || ((forall l <- dirs :: GoodListing(l)) && forall q <- requested :: Known(ByKind(AllSpecs(dirs)), q))
    ensures edits != null ==> fresh(edits) && edits.View() == Total(ByKind(AllSpecs(dirs)), Schedule(Distinct(requested)))
  {
    hide Converted, Cut, ByKind, AllSpecs, Total, Schedule, GoodListing, HasDevice, FindDevice, Distinct, KindSeen;
    edits := new CdiEdits();
    ghost var specs' := ByKind(AllSpecs(dirs));
    NothingYet(specs');
    if |requested| == 0 {
      return;
    }
    var loaded := LoadCDISpecs(dirs);
    if loaded.None? {
      return null;
    }
    var specs := loaded.value;
    var appliedSpecs: set<string>, seen: set<string> := {}, {};
    for i := 0 to |requested|
      invariant edits != null && fresh(edits)
      invariant forall j :: 0 <= j < i ==> Known(specs, requested[j])
      invariant forall q :: q in seen <==> q in requested[..i]
      invariant forall k :: k in appliedSpecs <==> KindSeen(Distinct(requested[..i]), k)
      invariant edits.View() == Total(specs, Schedule(Distinct(requested[..i])))
    {
      var qualified := requested[i];
      assert requested[..i + 1] == requested[..i] + [qualified];
      DistinctSnoc(requested[..i], qualified);
      if qualified in seen {
        continue;
      }
      seen := seen + {qualified};
      ghost var names := Distinct(requested[..i]);
      var kv := Cut(qualified, '=');
      if kv.None? || kv.value.0 !in specs {
        assert qualified in requested && !Known(specs, qualified);
        return null;
      }
      KindsKeyed(AllSpecs(dirs), kv.value.0);
      var spec := specs[kv.value.0];
      var device := Lookup(spec, kv.value.1);
      if device.None? {
        assert qualified in requested && !Known(specs, qualified);
        return null;
      }
      ScheduleStep(specs, names, qualified);
      KindSeenSnoc(names, qualified);
      if spec.kind !in appliedSpecs {
        appliedSpecs := appliedSpecs + {spec.kind};
        edits.Apply(spec.edits);
      }
      edits.Apply(device.value.edits);
    }
    assert requested[..|requested|] == requested;
  }

  lemma NothingYet(specs: map<string, Spec>)
    ensures Total(specs, Schedule(Distinct([]))) == NO_EDITS
    ensures forall k :: !KindSeen(Distinct([]), k)
  {
  }

  lemma KindsKeyed(specs: seq<Spec>, kind: string)
    requires kind in ByKind(specs)
    ensures ByKind(specs)[kind].kind == kind
  {
  }

  lemma DistinctSnoc(names: seq<string>, q: string)
    ensures Distinct(names + [q]) == if q in names then Distinct(names) else Distinct(names) + [q]
  {
    assert (names + [q])[..|names|] == names;
  }

  lemma KindSeenSnoc(names: seq<string>, q: string)
    requires WellFormed(q)
    ensures forall k :: KindSeen(names + [q], k) <==> KindSeen(names, k) || k == KindOf(q)
  {
    hide Cut;
    forall k ensures KindSeen(names + [q], k) <==> KindSeen(names, k) || k == KindOf(q) {
      assert forall x :: x in names + [q] <==> x in names || x == q;
    }
  }

  /** One more device adds its edits, behind those of its kind if the kind is new. */
  lemma ScheduleStep(specs: map<string, Spec>, names: seq<string>, q: string)
    requires Known(specs, q)
    ensures var sum := Total(specs, Schedule(names));
            var spec := specs[KindOf(q)];
            var own := Converted(FindDevice(spec.devices, NameOf(q)).edits);
            Total(specs, Schedule(names + [q])) ==
            if KindSeen(names, KindOf(q)) then sum.Plus(own) else sum.Plus(Converted(spec.edits)).Plus(own)
  {
    hide Converted, Cut, HasDevice, FindDevice, KindSeen, Total;
    assert (names + [q])[..|names|] == names;
    var s := Schedule(names);
    if KindSeen(names, KindOf(q)) {
      assert s + [] + [Own(q)] == s + [Own(q)];
      TotalSnoc(specs, s, Own(q));
    } else {
      TotalSnoc(specs, s, Shared(KindOf(q)));
      TotalSnoc(specs, s + [Shared(KindOf(q))], Own(q));
    }
  }

  // ---- what the schedule is

  /** The devices of the schedule, without the shared edits. */
  function Owners(origins: seq<Origin>): seq<string> {
    if origins == [] then []
    else
      var o := origins[|origins| - 1];
      Owners(origins[..|origins| - 1]) + if o.Own? then [o.q] else []
  }

  lemma OwnersSnoc(origins: seq<Origin>, o: Origin)
    ensures Owners(origins + [o]) == Owners(origins) + if o.Own? then [o.q] else []
  {
    assert (origins + [o])[..|origins|] == origins;
  }

  lemma {:induction false} ScheduleOwners(names: seq<string>)
    ensures Owners(Schedule(names)) == names
  {
    hide Cut, Owners;
    if names == [] {
      OwnersEmpty();
    } else {
      var before, q := names[..|names| - 1], names[|names| - 1];
      ScheduleOwners(before);
      assert names == before + [q];
      var s := Schedule(before);
      assert s + [] == s;
      if WellFormed(q) {
        OwnersSnoc(s, Shared(KindOf(q)));
        OwnersSnoc(s + [Shared(KindOf(q))], Own(q));
      }
      OwnersSnoc(s, Own(q));
    }
  }

  lemma OwnersEmpty()
    ensures Owners([]) == []
  {
  }

  /** At k the shared edits of the kind come, and there only; every device of the kind
      comes later. */
  ghost predicate SharedOnceFirst(origins: seq<Origin>, kind: string) {
    exists k :: SharedOnceFirstAt(origins, kind, k)
  }

  ghost predicate SharedOnceFirstAt(origins: seq<Origin>, kind: string, k: int) {
    && 0 <= k < |origins| && origins[k] == Shared(kind)
    && (forall j :: 0 <= j < |origins| && origins[j] == Shared(kind) ==> j == k)
    && (forall j :: 0 <= j < |origins| && origins[j].Own? && WellFormed(origins[j].q) && KindOf(origins[j].q) == kind ==> k < j)
  }

  /** Main result: the shared edits of a requested kind are applied exactly once, before
      the edits of any of its devices, and no others are applied. */
  lemma {:induction false} ScheduleShared(names: seq<string>, kind: string)
    ensures KindSeen(names, kind) ==> SharedOnceFirst(Schedule(names), kind)
    ensures !KindSeen(names, kind) ==> Shared(kind) !in Schedule(names)
    ensures forall i :: 0 <= i < |Schedule(names)| && Schedule(names)[i].Own? ==> Schedule(names)[i].q in names
  {
    hide Cut, KindSeen;
    if names == [] {
      NoKinds(kind);
    } else {
      var before, q := names[..|names| - 1], names[|names| - 1];
      ScheduleShared(before, kind);
      assert names == before + [q];
      KindSeenTail(before, q, kind);
      var s := Schedule(before);
      if KindSeen(before, kind) {
        var k :| SharedOnceFirstAt(s, kind, k);
        assert SharedOnceFirstAt(Schedule(names), kind, k);
      } else if WellFormed(q) && KindOf(q) == kind {
        OwnKinds(before, kind, s);
        assert SharedOnceFirstAt(Schedule(names), kind, |s|);
      }
    }
  }

  lemma NoKinds(kind: string)
    ensures !KindSeen([], kind)
  {
  }

  lemma KindSeenTail(before: seq<string>, q: string, kind: string)
    ensures KindSeen(before + [q], kind) <==> KindSeen(before, kind) || (WellFormed(q) && KindOf(q) == kind)
  {
    hide Cut;
    assert forall x :: x in before + [q] <==> x in before || x == q;
  }

  lemma OwnKinds(names: seq<string>, kind: string, s: seq<Origin>)
    requires !KindSeen(names, kind) && Shared(kind) !in s
    requires forall i :: 0 <= i < |s| && s[i].Own? ==> s[i].q in names
    ensures forall j :: 0 <= j < |s| ==> s[j] != Shared(kind) && !(s[j].Own? && WellFormed(s[j].q) && KindOf(s[j].q) == kind)
  {
    hide Cut;
  }

  lemma {:induction false} DistinctIdempotent(names: seq<string>)
    ensures Distinct(Distinct(names)) == Distinct(names)
    ensures forall i, j :: 0 <= i < j < |Distinct(names)| ==> Distinct(names)[i] != Distinct(names)[j]
  {
    if names != [] {
      var before, q := names[..|names| - 1], names[|names| - 1];
      DistinctIdempotent(before);
      if q !in before { DistinctSnoc(Distinct(before), q); }
    }
  }

  /** Main result: asking for a device twice is asking for it once. */
  lemma DuplicatesDoNotMatter(specs: map<string, Spec>, requested: seq<string>)
    ensures Total(specs, Schedule(Distinct(Distinct(requested)))) == Total(specs, Schedule(Distinct(requested)))
    ensures (forall q <- Distinct(requested) :: Known(specs, q)) <==> (forall q <- requested :: Known(specs, q))
  {
    hide Distinct;
    DistinctIdempotent(requested);
    DistinctMembers(requested);
  }

  lemma DistinctMembers(names: seq<string>)
    ensures forall q :: q in Distinct(names) <==> q in names
  {
  }

  // ---- requested devices

  const ANNOTATION_PREFIX := "cdi.k8s.io/"

  function Trimmed(parts: seq<string>): seq<string> {
    if parts == [] then []
    else
      var d := TrimSpace(parts[|parts| - 1]);
      Trimmed(parts[..|parts| - 1]) + if d != "" then [d] else []
  }

  function DevicesOf(annotations: map<string, string>, keys: seq<string>): seq<string>
    requires forall i :: 0 <= i < |keys| ==> keys[i] in annotations
  {
    if keys == [] then []
    else
      var n := |keys| - 1;
      DevicesOf(annotations, keys[..n]) + Trimmed(Split(annotations[keys[n]], ','))
  }

  /** A name that survives the comma and the trimming. */
  predicate IsDeviceName(name: string) {
    name != "" && ',' !in name && !IsSpace(name[0]) && !IsSpace(name[|name| - 1])
  }

  /** The text lists the names, with commas between them and any spaces around them. */
  ghost predicate Written(text: string, names: seq<string>) {
    exists parts :: |parts| == |names| > 0 && text == Join(parts, ',') && forall i :: 0 <= i < |parts| ==> Padded(parts[i], names[i])
  }

  ghost predicate Padded(part: string, name: string) {
    exists left, right :: AllSpace(left) && AllSpace(right) && part == left + name + right
  }

  lemma PaddedTrims(part: string, name: string)
    requires Padded(part, name) && IsDeviceName(name)
    ensures TrimSpace(part) == name && ',' !in part
  {
    hide TrimSpace;
    var left, right :| AllSpace(left) && AllSpace(right) && part == left + name + right;
    TrimPadded(left, name, right);
  }

  lemma {:induction false} TrimmedNames(parts: seq<string>, names: seq<string>)
    requires |parts| == |names| && forall i :: 0 <= i < |parts| ==> Padded(parts[i], names[i]) && IsDeviceName(names[i])
    ensures Trimmed(parts) == names && forall i :: 0 <= i < |parts| ==> ',' !in parts[i]
  {
    hide TrimSpace, Padded, IsDeviceName;
    if parts != [] {
      var n := |parts| - 1;
      TrimmedNames(parts[..n], names[..n]);
      PaddedTrims(parts[n], names[n]);
      assert forall i :: 0 <= i < n ==> parts[..n][i] == parts[i];
      NameNonEmpty(names[n]);
      assert names == names[..n] + [names[n]];
    }
  }

  lemma NameNonEmpty(name: string)
    requires IsDeviceName(name)
    ensures name != ""
  {
  }

  /** Main result: what is written into the CDI annotations is what is requested: the names of
      all of them, in the order of their keys. */
  lemma {:induction false} DevicesAsWritten(annotations: map<string, string>, keys: seq<string>, names: seq<seq<string>>)
    requires |keys| == |names| && forall i :: 0 <= i < |keys| ==> keys[i] in annotations && Written(annotations[keys[i]], names[i])
    requires forall i :: 0 <= i < |names| ==> forall j :: 0 <= j < |names[i]| ==> IsDeviceName(names[i][j])
    ensures DevicesOf(annotations, keys) == Concat(names)
  {
    hide Trimmed, Split, Padded, IsDeviceName;
    if keys != [] {
      var n := |keys| - 1;
      DevicesAsWritten(annotations, keys[..n], names[..n]);
      var text := annotations[keys[n]];
      var parts :| |parts| == |names[n]| > 0 && text == Join(parts, ',') && forall i :: 0 <= i < |parts| ==> Padded(parts[i], names[n][i]);
      TrimmedNames(parts, names[n]);
      SplitJoin(parts, ',');
    }
  }

  function Concat(names: seq<seq<string>>): seq<string> {
    if names == [] then [] else Concat(names[..|names| - 1]) + names[|names| - 1]
  }

  /** The CDI keys in their order. */
  ghost predicate ListsKeys(keys: seq<string>, annotations: map<string, string>) {
    && (forall i :: 0 <= i < |keys| ==> keys[i] in annotations)
    && multiset(keys) == multiset(CdiKeys(annotations.Keys))
    && SortedBy((k: string) => k, keys)
  }

  /** Main result: the answer does not depend on the order in which Go ranges over the map. */
  lemma ListingUnique(keys: seq<string>, keys': seq<string>, annotations: map<string, string>)
    requires ListsKeys(keys, annotations) && ListsKeys(keys', annotations)
    ensures keys == keys'
  {
    hide HasPrefix;
    var id := (k: string) => k;
    forall i, j | 0 <= i < j < |keys| ensures keys[i] != keys[j] {
      if keys[i] == keys[j] { TwiceInMultiset(keys, i, j); }
    }
    assert DistinctBy(id, keys);
    SortedUnique(id, keys, keys');
  }

  lemma TwiceInMultiset(keys: seq<string>, i: nat, j: nat)
    requires i < j < |keys| && keys[i] == keys[j]
    ensures multiset(keys)[keys[i]] >= 2
  {
    assert keys == keys[..j] + [keys[j]] + keys[j + 1..];
    assert keys[i] == keys[..j][i];
    assert keys[i] in multiset(keys[..j]);
  }

  ghost function CdiKeys(keys: set<string>): set<string> {
    set k | k in keys && HasPrefix(k, ANNOTATION_PREFIX)
  }

  method CollectKeys(annotations: map<string, string>) returns (keys: seq<string>)
    ensures multiset(keys) == multiset(CdiKeys(annotations.Keys))
  {
    hide HasPrefix;
    keys := [];
    var todo := annotations.Keys;
    while todo != {}
      invariant todo <= annotations.Keys
      invariant multiset(keys) == multiset(CdiKeys(annotations.Keys - todo))
      decreases todo
    {
      var k :| k in todo;
      ghost var was := CdiKeys(annotations.Keys - todo);
      todo := todo - {k};
      ghost var now := CdiKeys(annotations.Keys - todo);
      if HasPrefix(k, ANNOTATION_PREFIX) {
        keys := keys + [k];
        assert k !in was && now == was + {k};
      } else {
        assert now == was;
      }
    }
    assert annotations.Keys - {} == annotations.Keys;
  }

  method TrimmedParts(parts: seq<string>) returns (devices: seq<string>)
    ensures devices == Trimmed(parts)
  {
    hide TrimSpace;
    devices := [];
    for j := 0 to |parts|
      invariant devices == Trimmed(parts[..j])
    {
      assert parts[..j + 1][..j] == parts[..j];
      var d := TrimSpace(parts[j]);
      if d != "" {
        devices := devices + [d];
      }
    }
    assert parts[..|parts|] == parts;
  }

  method CdiRequestedDevices(annotations: map<string, string>) returns (devices: seq<string>)
    ensures exists sorted :: ListsKeys(sorted, annotations) && devices == DevicesOf(annotations, sorted)
  {
    hide Trimmed, Split, HasPrefix;
    var keys := CollectKeys(annotations);
    var ordered := SortSlice((k: string) => k, keys);
    forall i | 0 <= i < |ordered| ensures ordered[i] in annotations { assert ordered[i] in multiset(ordered); }
    assert ListsKeys(ordered, annotations);
    devices := [];
    for i := 0 to |ordered|
      invariant devices == DevicesOf(annotations, ordered[..i])
    {
      assert ordered[..i + 1][..i] == ordered[..i];
      var more := TrimmedParts(Split(annotations[ordered[i]], ','));
      devices := devices + more;
    }
    assert ordered[..|ordered|] == ordered;
  }

  // ---- names, spec files and their order

  /** Main result: a request is a kind and a name with `=` between them; it is known if and only
      if the kind has a spec with a device of that name, and stands for the first such device. */
  lemma RequestMeans(specs: map<string, Spec>, kind: string, name: string)
    requires '=' !in kind
    ensures Known(specs, kind + "=" + name) <==> kind in specs && HasDevice(specs[kind].devices, name)
    ensures forall i :: kind in specs && 0 <= i < |specs[kind].devices| && specs[kind].devices[i].name == name
              && (forall j :: 0 <= j < i ==> specs[kind].devices[j].name != name)
              ==> EditsOf(specs, Own(kind + "=" + name)) == Converted(specs[kind].devices[i].edits)
    ensures kind in specs ==> EditsOf(specs, Shared(kind)) == Converted(specs[kind].edits)
    ensures forall q :: '=' !in q ==> !Known(specs, q)
  {
    hide Converted;
    CutConcat(kind, '=', name);
    if kind in specs {
      forall i | 0 <= i < |specs[kind].devices| && specs[kind].devices[i].name == name
                 && (forall j :: 0 <= j < i ==> specs[kind].devices[j].name != name)
        ensures EditsOf(specs, Own(kind + "=" + name)) == Converted(specs[kind].devices[i].edits)
      {
        FirstMatch(specs[kind].devices, name, i);
      }
    }
  }

  /** a was asked for before b was first. */
  ghost predicate FirstBefore(names: seq<string>, a: string, b: string) {
    exists k :: 0 <= k < |names| && names[k] == a && b !in names[..k + 1]
  }

  lemma FirstBeforeSnoc(names: seq<string>, q: string, a: string, b: string)
    requires FirstBefore(names, a, b)
    ensures FirstBefore(names + [q], a, b)
  {
    var k :| 0 <= k < |names| && names[k] == a && b !in names[..k + 1];
    assert (names + [q])[..k + 1] == names[..k + 1];
  }

  /** Main result: the requests are kept in the order in which they first come. */
  lemma {:induction false} DistinctInOrder(names: seq<string>)
    ensures forall i, j :: 0 <= i < j < |Distinct(names)| ==> FirstBefore(names, Distinct(names)[i], Distinct(names)[j])
  {
    hide FirstBefore;
    if names != [] {
      var n := |names| - 1;
      var before, q := names[..n], names[n];
      assert names == before + [q];
      DistinctInOrder(before);
      forall i, j | 0 <= i < j < |Distinct(names)| ensures FirstBefore(names, Distinct(names)[i], Distinct(names)[j]) {
        if j < |Distinct(before)| {
          FirstBeforeSnoc(before, q, Distinct(before)[i], Distinct(before)[j]);
        } else {
          NewIsLast(before, q, Distinct(before)[i]);
        }
      }
    }
  }

  lemma NewIsLast(before: seq<string>, q: string, a: string)
    requires q !in before && a in before
    ensures FirstBefore(before + [q], a, q)
  {
    var k :| 0 <= k < |before| && before[k] == a;
    assert (before + [q])[k] == a && (before + [q])[..k + 1] == before[..k + 1];
  }

  lemma {:induction false} ExtSuffix(name: string, e: string)
    requires e != "" && '.' !in e
    ensures Ext(name) == "." + e <==> "." + e == EndOf(name, |e| + 1)
    decreases |e|
  {
    hide EndOf;
    if name == "" {
      EndShort(name, |e| + 1);
    } else {
      var n, m := |name| - 1, |e| - 1;
      var front := e[..m];
      assert e == front + [e[m]] && e[m] in e;
      if front == "" { ExtEmpty(name[..n]); } else { ExtSuffix(name[..n], front); }
      assert Ext(name[..n]) == "." + front <==> "." + front == EndOf(name[..n], |e|);
      EndSnoc(name, |e| + 1);
      SnocEqual("." + front, e[m], EndOf(name[..n], |e|), name[n]);
      assert "." + e == "." + front + [e[m]];
      ExtSnoc(name, front, e[m]);
    }
  }

  lemma EndShort(s: string, k: nat)
    ensures |EndOf(s, k)| <= |s|
  {
  }

  lemma SnocEqual(a: string, x: char, b: string, y: char)
    ensures a + [x] == b + [y] <==> a == b && x == y
  {
    assert (a + [x])[..|a|] == a && (b + [y])[..|b|] == b;
    assert (a + [x])[|a|] == x && (b + [y])[|b|] == y;
  }

  lemma ExtSnoc(name: string, front: string, x: char)
    requires name != "" && x != '.'
    ensures Ext(name) == "." + front + [x] <==> Ext(name[..|name| - 1]) == "." + front && name[|name| - 1] == x
  {
    var n := |name| - 1;
    SnocEqual("." + front, x, Ext(name[..n]), name[n]);
    if name[n] == '.' {
      assert ("." + front + [x])[|front| + 1] == x;
    }
  }

  /** The last k characters, or all of them. */
  function EndOf(s: string, k: nat): string {
    if |s| <= k then s else s[|s| - k..]
  }

  lemma EndSnoc(s: string, k: nat)
    requires s != "" && k > 0
    ensures EndOf(s, k) == EndOf(s[..|s| - 1], k - 1) + [s[|s| - 1]]
  {
  }

  lemma ExtEmpty(name: string)
    ensures Ext(name) == "." <==> EndOf(name, 1) == "."
  {
    if name != "" {
      var n := |name| - 1;
      assert EndOf(name, 1) == [name[n]];
    }
  }

  /** Main result: spec files are the files whose names end in `.yaml` or `.json`. */
  lemma SpecFilesAre(f: File)
    ensures IsSpecFile(f) <==> !f.isDir && (EndOf(f.name, 5) == ".yaml" || EndOf(f.name, 5) == ".json")
  {
    hide Ext, EndOf;
    ExtSuffix(f.name, "yaml");
    ExtSuffix(f.name, "json");
    assert "." + "yaml" == ".yaml" && "." + "json" == ".json";
  }

  /** The file at i is the last that describes the kind. */
  ghost predicate LastOfKind(files: seq<File>, kind: string, i: nat) {
    && i < |files| && IsSpecFile(files[i]) && GoodFile(files[i]) && files[i].content.spec.kind == kind
    && forall j :: i < j < |files| ==> !Describes(files[j], kind)
  }

  predicate Describes(f: File, kind: string) {
    IsSpecFile(f) && GoodFile(f) && f.content.spec.kind == kind
  }

  lemma {:induction false} ByKindConcat(a: seq<Spec>, b: seq<Spec>)
    ensures ByKind(a + b) == ByKind(a) + ByKind(b)
  {
    hide ByKind;
    if b == [] {
      EmptyKinds();
      assert a + b == a;
    } else {
      var n := |b| - 1;
      ByKindConcat(a, b[..n]);
      assert a + b == a + b[..n] + [b[n]] && b == b[..n] + [b[n]];
      ByKindSnoc(a + b[..n], b[n]);
      ByKindSnoc(b[..n], b[n]);
      PutLast(ByKind(a), ByKind(b[..n]), b[n].kind, b[n]);
    }
  }

  lemma PutLast(x: map<string, Spec>, y: map<string, Spec>, k: string, v: Spec)
    ensures (x + y)[k := v] == x + y[k := v]
  {
  }

  lemma {:induction false} FilesByKind(files: seq<File>, kind: string)
    ensures kind !in ByKind(SpecsIn(files)) <==> forall j :: 0 <= j < |files| ==> !Describes(files[j], kind)
    ensures forall i: nat :: LastOfKind(files, kind, i) ==> kind in ByKind(SpecsIn(files)) && ByKind(SpecsIn(files))[kind] == files[i].content.spec
  {
    hide IsSpecFile;
    if files == [] {
      EmptyKinds();
    } else {
      var n := |files| - 1;
      var f := files[n];
      FilesByKind(files[..n], kind);
      if IsSpecFile(f) && GoodFile(f) { ByKindSnoc(SpecsIn(files[..n]), f.content.spec); } else {
        assert SpecsIn(files) == SpecsIn(files[..n]) + [] == SpecsIn(files[..n]);
      }
      assert forall j :: 0 <= j < n ==> files[..n][j] == files[j];
      forall i: nat | LastOfKind(files, kind, i)
        ensures kind in ByKind(SpecsIn(files)) && ByKind(SpecsIn(files))[kind] == files[i].content.spec
      {
        if i < n { assert !Describes(f, kind) && LastOfKind(files[..n], kind, i); }
      }
    }
  }

  /** Main result: a later directory overrides the earlier ones, and in a directory a later file
      the earlier ones; a directory that does not describe a kind leaves it as it was. */
  lemma LaterOverrides(dirs: seq<Listing>, l: Listing, kind: string)
    ensures forall i: nat :: l.Files? && LastOfKind(l.files, kind, i) ==>
              kind in ByKind(AllSpecs(dirs + [l])) && ByKind(AllSpecs(dirs + [l]))[kind] == l.files[i].content.spec
    ensures (l.Files? ==> forall j :: 0 <= j < |l.files| ==> !Describes(l.files[j], kind)) ==>
              && (kind in ByKind(AllSpecs(dirs + [l])) <==> kind in ByKind(AllSpecs(dirs)))
              && (kind in ByKind(AllSpecs(dirs)) ==> ByKind(AllSpecs(dirs + [l]))[kind] == ByKind(AllSpecs(dirs))[kind])
  {
    hide IsSpecFile, Describes, LastOfKind, ByKind;
    assert (dirs + [l])[..|dirs|] == dirs;
    if l.Files? {
      ByKindConcat(AllSpecs(dirs), SpecsIn(l.files));
      FilesByKind(l.files, kind);
    } else {
      assert AllSpecs(dirs) + [] == AllSpecs(dirs);
    }
  }
}
