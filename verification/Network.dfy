/** What a CNI plugin is told when a pod is attached and when it is detached
    (cmd/portoshim/runtime_mapper.go). Between the two the shim keeps nothing in memory: the
    arguments of DEL come from the labels and the net property that Porto stores for the pod.
 */
module Network {
  import opened GoStrings
  import opened GoPaths
  import opened Labels
  import Ids

  // ---- the net property

  /** The word behind the first requested word that is followed by another. */
  function AfterWord(words: seq<string>, requested: seq<string>): string {
    if |words| < 2 then ""
    else if words[0] in requested then words[1]
    else AfterWord(words[1..], requested)
  }

  function FirstNet(props: seq<string>, requested: seq<string>): string {
    if props == [] then ""
    else
      var n := AfterWord(Fields(props[0]), requested);
      if n != "" then n else FirstNet(props[1..], requested)
  }

  function NetNS(props: string, requested: seq<string>): string {
    FirstNet(Split(props, ';'), requested)
  }

  lemma {:induction false} FieldsNonEmpty(s: string)
    ensures forall i :: 0 <= i < |Fields(s)| ==> Fields(s)[i] != ""
    decreases |s|
  {
    if s != "" {
      if IsSpace(s[0]) {
        FieldsNonEmpty(s[1..]);
      } else {
        var n := WordLength(s);
        FieldsNonEmpty(s[n..]);
        assert Fields(s) == [s[..n]] + Fields(s[n..]);
      }
    }
  }

  method ParsePropertiesNetNS(props: string, requested: seq<string>) returns (r: string)
    ensures r == NetNS(props, requested)
  {
    hide Split, Fields;
    var list := Split(props, ';');
    assert list[0..] == list;
    for i := 0 to |list|
      invariant FirstNet(list, requested) == FirstNet(list[i..], requested)
    {
      var words := Fields(list[i]);
      FieldsNonEmpty(list[i]);
      assert list[i..][1..] == list[i + 1..] && words[0..] == words;
      for k := 0 to |words|
        invariant AfterWord(words, requested) == AfterWord(words[k..], requested)
      {
        assert words[k..][1..] == words[k + 1..];
        for q := 0 to |requested|
          invariant forall j :: 0 <= j < q ==> words[k] != requested[j] || k + 1 >= |words|
        {
          if words[k] == requested[q] && |words| > k + 1 {
            assert AfterWord(words, requested) == words[k + 1];
            return words[k + 1];
          }
        }
      }
    }
    r := "";
  }

  /** What Porto prints for the single option of a netns pod. */
  function NetText(name: string): string {
    "netns " + name
  }

  predicate IsNetnsName(name: string) {
    IsName(name) && forall c <- name :: !IsSpace(c) && c != ';'
  }

  lemma NetTextRead(name: string)
    requires IsNetnsName(name)
    ensures NetNS(NetText(name), ["netns"]) == name
  {
    var text := NetText(name);
    assert text == "netns" + " " + name;
    assert ';' !in text by {
      assert forall i :: 0 <= i < |text| ==> i < 6 || text[i] == name[i - 6];
    }
    SplitOne(text, ';');
    FieldsOfTwo("netns", name);
    assert [text][0] == text;
  }

  lemma FieldsWord(w: string, rest: string)
    requires w != "" && (forall c <- w :: !IsSpace(c)) && (rest == "" || IsSpace(rest[0]))
    ensures Fields(w + rest) == [w] + Fields(rest)
  {
    var s := w + rest;
    assert w[0] in w && s[0] == w[0];
    WordLengthExact(w, rest);
    assert s[..|w|] == w && s[|w|..] == rest;
  }

  lemma FieldsSpace(s: string)
    ensures Fields(" " + s) == Fields(s)
  {
    assert (" " + s)[1..] == s;
  }

  lemma FieldsOfTwo(a: string, b: string)
    requires a != "" && b != ""
    requires (forall c <- a :: !IsSpace(c)) && (forall c <- b :: !IsSpace(c))
    ensures Fields(a + " " + b) == [a, b]
  {
    hide Fields, WordLength;
    FieldsWord(a, " " + b);
    FieldsSpace(b);
    FieldsWord(b, "");
    assert b + "" == b && a + " " + b == a + (" " + b);
    FieldsNone();
  }

  lemma FieldsNone()
    ensures Fields("") == []
  {
  }

  // ---- the sandbox config

  const POD_NAME: GoString := "io.kubernetes.pod.name"
  const POD_UID: GoString := "io.kubernetes.pod.uid"
  const POD_NAMESPACE: GoString := "io.kubernetes." + "pod.namespace"
  const ATTEMPT: GoString := "attempt"
  const POD_ID: GoString := "portoshim.pod.id"
  const POD_IMAGE: GoString := "portoshim.pod.image"

  datatype PodConfig = PodConfig(
    name: GoString, uid: GoString, ns: GoString, attempt: GoString,
    labels: map<GoString, GoString>, annotations: map<GoString, GoString>)

  function WithDefault(labels: map<GoString, GoString>, key: GoString, value: GoString): map<GoString, GoString> {
    if key in labels || value == "" then labels else labels[key := value]
  }

  /** preparePodLabels; the id is the one with the parent's prefix. */
  function PodLabels(cfg: PodConfig, id: GoString, image: GoString): map<GoString, GoString> {
    var l1 := WithDefault(cfg.labels, POD_NAME, cfg.name);
    var l2 := WithDefault(l1, POD_UID, cfg.uid);
    var l3 := WithDefault(l2, POD_NAMESPACE, cfg.ns);
    l3[ATTEMPT := cfg.attempt][POD_ID := id][POD_IMAGE := image]
  }

  function Get(labels: Labels, key: string): string {
    if key in labels then labels[key] else ""
  }

  // ---- the arguments of the plugin

  datatype CniArgs = CniArgs(
    containerId: string, netns: string, podNamespace: string, podName: string, podUid: string, annotations: Labels)

  /** Setup in preparePodNetwork, in netns mode. */
  function AddArgs(parent: string, id: Ids.Id, cfg: PodConfig, netnsDir: string, netns: string): CniArgs
    requires parent == "" || Ids.IsSegment(parent)
    requires Ids.WellFormed(id)
  {
    var portoid := Ids.AddPortoPrefix(parent, Ids.Text(id));
    assert portoid != parent || parent == "" by {
      if parent != "" { Ids.TextTwo(parent, Ids.Text(id)); assert parent[0] in parent; }
    }
    CniArgs(Ids.RemovePortoPrefix(parent, portoid), JoinPath(netnsDir, netns), cfg.ns, cfg.name, cfg.uid, cfg.annotations)
  }

  /** The net option that preparePodNetwork stores. */
  function StoredNet(netnsDir: string, netns: string): string {
    NetText(Base(JoinPath(netnsDir, netns)))
  }

  /** Remove in removeNetNS, from what Porto stores; the path is empty when the netns is gone. */
  function DelArgs(id: string, labelsText: string, netText: string, netnsDir: string, closed: bool): Option<CniArgs> {
    match FromPortoLabels(labelsText)
    case None => None
    case Some(p) =>
      var path := if closed then "" else JoinPath(netnsDir, NetNS(netText, ["netns"]));
      Some(CniArgs(id, path, Get(p.labels, POD_NAMESPACE), Get(p.labels, POD_NAME), Get(p.labels, POD_UID), p.annotations))
  }

  /** The config's own labels say nothing else than its metadata. A caller can check this. */
  predicate Agrees(cfg: PodConfig) {
    && (POD_NAME in cfg.labels ==> cfg.labels[POD_NAME] == cfg.name)
    && (POD_UID in cfg.labels ==> cfg.labels[POD_UID] == cfg.uid)
    && (POD_NAMESPACE in cfg.labels ==> cfg.labels[POD_NAMESPACE] == cfg.ns)
  }

  lemma KeysDiffer()
    ensures |{POD_NAME, POD_UID, POD_NAMESPACE, ATTEMPT, POD_ID, POD_IMAGE}| == 6
    ensures ATTEMPT !in [POD_NAME, POD_UID, POD_NAMESPACE] && POD_ID !in [POD_NAME, POD_UID, POD_NAMESPACE]
    ensures POD_IMAGE !in [POD_NAME, POD_UID, POD_NAMESPACE]
    ensures POD_NAME != POD_UID && POD_UID != POD_NAMESPACE && POD_NAMESPACE != POD_NAME
  {
    assert |POD_NAME| == 22 && |POD_UID| == 21 && |POD_NAMESPACE| == 27 && |ATTEMPT| == 7 && |POD_ID| == 16 && |POD_IMAGE| == 19;
  }

  lemma MetadataFromLabels(cfg: PodConfig, id: GoString, image: GoString)
    ensures var l := PodLabels(cfg, id, image);
            && Get(l, POD_NAME) == (if POD_NAME in cfg.labels then cfg.labels[POD_NAME] else cfg.name)
            && Get(l, POD_UID) == (if POD_UID in cfg.labels then cfg.labels[POD_UID] else cfg.uid)
            && Get(l, POD_NAMESPACE) == (if POD_NAMESPACE in cfg.labels then cfg.labels[POD_NAMESPACE] else cfg.ns)
  {
    KeysDiffer();
  }

  lemma BaseOfJoin(dir: string, name: string)
    requires IsName(name)
    ensures Base(JoinPath(dir, name)) == name
  {
    hide Clean, Split, DirPart;
    if dir == "" {
      CleanName(name);
      BaseOfName("", name);
      assert "" + name == name;
    } else {
      var prefix := CleanJoin(dir, name);
      BaseOfName(prefix, name);
    }
  }

  lemma CleanName(name: string)
    requires IsName(name)
    ensures Clean(name) == name
  {
    SplitOne(name, '/');
    assert name[0] in name;
    assert PushAll(false, [], [name]) == [name];
  }

  lemma CleanJoin(dir: string, name: string) returns (prefix: string)
    requires dir != "" && IsName(name)
    ensures Clean(dir + "/" + name) == prefix + name && (prefix == "" || prefix[|prefix| - 1] == '/')
  {
    hide Split, Join;
    var s, rooted := dir + "/" + name, IsAbs(dir);
    assert IsAbs(s) == rooted;
    SplitConcat(dir, '/', name);
    SplitOne(name, '/');
    PushAllConcat(rooted, [], Split(dir, '/'), [name]);
    var stack := PushAll(rooted, [], Split(dir, '/'));
    assert PushAll(rooted, stack, [name]) == stack + [name];
    var top := if rooted then "/" else "";
    assert Clean(s) == top + Join(stack + [name], '/');
    if stack == [] {
      assert stack + [name] == [name];
      Ids.JoinSingle(name);
      return top;
    }
    JoinSnoc(stack, name, '/');
    prefix := top + Join(stack, '/') + "/";
    assert top + (Join(stack, '/') + "/" + name) == prefix + name;
  }

  /** Main result: whatever the order and spaces of the printed labels, DEL gets the arguments
      of ADD exactly when the config's own labels agree with its metadata. The container id
      goes through the prefix, the metadata and annotations through the label codec, and the
      netns name through the net property. (Section 2, Execution Protocol, of the CNI
      specification asks for this.) */
  lemma DelGetsAddArgs(parent: string, id: Ids.Id, cfg: PodConfig, portoid: GoString, image: GoString,
                       netnsDir: string, netns: string, labelsText: string)
    requires parent == "" || Ids.IsSegment(parent)
    requires Ids.WellFormed(id) && IsNetnsName(netns)
    requires Prints(labelsText, WithEngine(PodLabels(cfg, portoid, image), cfg.annotations))
    ensures (DelArgs(Ids.Text(id), labelsText, StoredNet(netnsDir, netns), netnsDir, false)
             == Some(AddArgs(parent, id, cfg, netnsDir, netns))) <==> Agrees(cfg)
    ensures (DelArgs(Ids.Text(id), labelsText, StoredNet(netnsDir, netns), netnsDir, true)
             == Some(AddArgs(parent, id, cfg, netnsDir, netns).(netns := ""))) <==> Agrees(cfg)
  {
    hide FromPortoLabels, Prints, WithEngine, NetNS, Base, JoinPath, Ids.AddPortoPrefix, Ids.Text, NetText;
    LabelsRoundTrip(labelsText, PodLabels(cfg, portoid, image), cfg.annotations);
    MetadataFromLabels(cfg, portoid, image);
    BaseOfJoin(netnsDir, netns);
    NetTextRead(netns);
    CniId(parent, id);
  }

  lemma CniId(parent: string, id: Ids.Id)
    requires parent == "" || Ids.IsSegment(parent)
    requires Ids.WellFormed(id)
    ensures var portoid := Ids.AddPortoPrefix(parent, Ids.Text(id));
            && (portoid != parent || parent == "")
            && Ids.RemovePortoPrefix(parent, portoid) == Ids.Text(id)
  {
    if parent != "" {
      Ids.PrefixRoundTrip(parent, id);
      Ids.TextTwo(parent, Ids.Text(id));
      assert parent[0] in parent;
    }
  }
}
