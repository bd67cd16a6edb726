/** Labels and annotations of a sandbox or container as Porto labels:
    convertToPortoLabels and convertFromPortoLabels (cmd/portoshim/runtime_mapper.go).

    Both maps go into one Porto label map, keys and values in base64. Porto prints the map
    as `key:value;key:value` text, in an order and with spaces of its own choice.
 */
module Labels {
  import opened GoStrings
  import Base64

  type GoString = s: string | IsByteString(s)
  type Labels = map<string, string>

  datatype Parsed = Parsed(labels: Labels, annotations: Labels)

  const LABEL := "LABEL"
  const ANNOTATION := "ANNOTATION"
  const ENGINE_KEY := "INFRA.engine"
  const ENGINE := "k8s"

  // ---- encoding

  function EncodeLabel(src: string, prefix: string): string {
    if prefix != "" then prefix + "." + Base64.Encode(src) else Base64.Encode(src)
  }

  function DecodeLabel(src: string, prefix: string): string {
    var dst := if prefix != "" then TrimPrefix(src, prefix + ".") else src;
    match Base64.Decode(dst)
    case Some(s) => s
    case None => dst
  }

  lemma DecodeEncodeLabel(s: GoString, prefix: string)
    ensures DecodeLabel(EncodeLabel(s, prefix), prefix) == s
  {
    Base64.DecodeEncode(s);
    assert (prefix + "." + Base64.Encode(s))[|prefix + "."|..] == Base64.Encode(s);
  }

  lemma EncodeLabelInjective(prefix: string)
    ensures forall s: GoString, s': GoString :: EncodeLabel(s, prefix) == EncodeLabel(s', prefix) ==> s == s'
  {
    forall s: GoString, s': GoString | EncodeLabel(s, prefix) == EncodeLabel(s', prefix) ensures s == s' {
      DecodeEncodeLabel(s, prefix);
      DecodeEncodeLabel(s', prefix);
    }
  }

  /** One map with its keys tagged by the prefix. */
  function Tagged(m: map<GoString, GoString>, prefix: string): Labels {
    EncodeLabelInjective(prefix);
    map k | k in m :: EncodeLabel(k, prefix) := EncodeLabel(m[k], "")
  }

  function PortoLabels(labels: map<GoString, GoString>, annotations: map<GoString, GoString>): Labels {
    Tagged(labels, LABEL) + Tagged(annotations, ANNOTATION)
  }

  lemma TaggedAdd(m: map<GoString, GoString>, k: GoString, v: GoString, prefix: string)
    ensures Tagged(m[k := v], prefix) == Tagged(m, prefix)[EncodeLabel(k, prefix) := EncodeLabel(v, "")]
  {
    hide EncodeLabel;
    EncodeLabelInjective(prefix);
  }

  /** Go ranges over a map in an arbitrary order. */
  method AddTagged(portoLabels: Labels, m: map<GoString, GoString>, prefix: string) returns (r: Labels)
    ensures r == portoLabels + Tagged(m, prefix)
  {
    hide EncodeLabel, Tagged;
    r := portoLabels;
    ghost var done: map<GoString, GoString> := map[];
    var todo := m.Keys;
    assert Tagged(done, prefix) == map[] by { TaggedEmpty(prefix); }
    while todo != {}
      invariant todo <= m.Keys && done == m - todo
      invariant r == portoLabels + Tagged(done, prefix)
      decreases todo
    {
      var k :| k in todo;
      r := r[EncodeLabel(k, prefix) := EncodeLabel(m[k], "")];
      TaggedAdd(done, k, m[k], prefix);
      done := done[k := m[k]];
      todo := todo - {k};
    }
    assert done == m;
  }

  lemma TaggedEmpty(prefix: string)
    ensures Tagged(map[], prefix) == map[]
  {
    hide EncodeLabel;
  }

  method ConvertToPortoLabels(labels: map<GoString, GoString>, annotations: map<GoString, GoString>)
    returns (portoLabels: Labels)
    ensures portoLabels == PortoLabels(labels, annotations)
  {
    hide Tagged;
    portoLabels := AddTagged(map[], labels, LABEL);
    assert map[] + Tagged(labels, LABEL) == Tagged(labels, LABEL);
    portoLabels := AddTagged(portoLabels, annotations, ANNOTATION);
  }

  lemma TagsDisjoint(k: string, k': string)
    ensures EncodeLabel(k, LABEL) != EncodeLabel(k', ANNOTATION)
    ensures EncodeLabel(k, LABEL) != ENGINE_KEY && EncodeLabel(k', ANNOTATION) != ENGINE_KEY
    ensures HasPrefix(EncodeLabel(k, LABEL), LABEL) && !HasPrefix(EncodeLabel(k', ANNOTATION), LABEL)
    ensures HasPrefix(EncodeLabel(k', ANNOTATION), ANNOTATION)
    ensures !HasPrefix(ENGINE_KEY, LABEL) && !HasPrefix(ENGINE_KEY, ANNOTATION)
  {
    assert EncodeLabel(k, LABEL)[0] == 'L' && EncodeLabel(k', ANNOTATION)[0] == 'A';
    assert LABEL[0] == 'L' && ENGINE_KEY[0] == 'I' && ANNOTATION[0] == 'A';
    assert EncodeLabel(k', ANNOTATION) == ANNOTATION + ("." + Base64.Encode(k'));
    assert EncodeLabel(k, LABEL) == LABEL + ("." + Base64.Encode(k));
  }

  lemma TaggedKey(m: map<GoString, GoString>, prefix: string, key: string)
    ensures key in Tagged(m, prefix) <==> exists k :: k in m && key == EncodeLabel(k, prefix)
    ensures forall k :: k in m && key == EncodeLabel(k, prefix) ==> Tagged(m, prefix)[key] == EncodeLabel(m[k], "")
  {
    hide EncodeLabel;
    EncodeLabelInjective(prefix);
  }

  lemma {:induction false} TaggedSize(m: map<GoString, GoString>, prefix: string)
    ensures |Tagged(m, prefix)| == |m|
    decreases |m|
  {
    hide EncodeLabel, Tagged;
    if m == map[] {
      TaggedEmpty(prefix);
    } else {
      var k :| k in m;
      var m' := m - {k};
      TaggedSize(m', prefix);
      assert m == m'[k := m[k]];
      TaggedAdd(m', k, m[k], prefix);
      TaggedKey(m', prefix, EncodeLabel(k, prefix));
      EncodeLabelInjective(prefix);
    }
  }

  lemma TagsApart(labels: map<GoString, GoString>, annotations: map<GoString, GoString>)
    ensures Tagged(labels, LABEL).Keys !! Tagged(annotations, ANNOTATION).Keys
    ensures ENGINE_KEY !in PortoLabels(labels, annotations)
  {
    hide EncodeLabel, Tagged;
    forall key | key in Tagged(labels, LABEL) ensures key !in Tagged(annotations, ANNOTATION) && key != ENGINE_KEY {
      TaggedKey(labels, LABEL, key);
      TaggedKey(annotations, ANNOTATION, key);
      var k :| k in labels && key == EncodeLabel(k, LABEL);
      forall k': GoString ensures key != EncodeLabel(k', ANNOTATION) { TagsDisjoint(k, k'); }
      TagsDisjoint(k, k);
    }
    TaggedKey(annotations, ANNOTATION, ENGINE_KEY);
    forall k: GoString ensures EncodeLabel(k, ANNOTATION) != ENGINE_KEY { TagsDisjoint(k, k); }
  }

  /** Nothing is merged: one Porto label for every label and annotation. */
  lemma PortoLabelsSize(labels: map<GoString, GoString>, annotations: map<GoString, GoString>)
    ensures |PortoLabels(labels, annotations)| == |labels| + |annotations|
  {
    hide Tagged;
    TaggedSize(labels, LABEL);
    TaggedSize(annotations, ANNOTATION);
    TagsApart(labels, annotations);
    var l, a := Tagged(labels, LABEL), Tagged(annotations, ANNOTATION);
    assert (l + a).Keys == l.Keys + a.Keys;
    assert |l.Keys| == |l| && |a.Keys| == |a| && |(l + a).Keys| == |l + a|;
  }

  // ---- decoding

  /** One `key:value` pair; None when indexing the missing value panics. */
  function AddPair(acc: Parsed, pair: string): Option<Parsed> {
    var fields := Split(pair, ':');
    if |fields| < 2 then None
    else
      var key, value := TrimSpace(fields[0]), TrimSpace(fields[1]);
      Some(AddEntry(acc, key, value))
  }

  function AddEntry(acc: Parsed, key: string, value: string): Parsed {
    if HasPrefix(key, LABEL) then
      acc.(labels := acc.labels[DecodeLabel(key, LABEL) := DecodeLabel(value, "")])
    else if HasPrefix(key, ANNOTATION) then
      acc.(annotations := acc.annotations[DecodeLabel(key, ANNOTATION) := DecodeLabel(value, "")])
    else acc
  }

  /** The pairs from left to right. */
  function AddPairs(pairs: seq<string>): Option<Parsed> {
    if pairs == [] then Some(Parsed(map[], map[]))
    else match AddPairs(pairs[..|pairs| - 1])
      case None => None
      case Some(acc) => AddPair(acc, pairs[|pairs| - 1])
  }

  /** convertFromPortoLabels; None is the panic. */
  function FromPortoLabels(text: string): Option<Parsed> {
    if text == "" then Some(Parsed(map[], map[])) else AddPairs(Split(text, ';'))
  }

  method ConvertFromPortoLabels(text: string) returns (r: Option<Parsed>)
    ensures r == FromPortoLabels(text)
    ensures r.None? <==> text != "" && exists pair <- Split(text, ';') :: ':' !in pair
  {
    if text == "" {
      return Some(Parsed(map[], map[]));
    }
    var pairs := Split(text, ';');
    PanicsExactly(pairs);
    var acc := Parsed(map[], map[]);
    for i := 0 to |pairs|
      invariant AddPairs(pairs[..i]) == Some(acc)
    {
      assert pairs[..i + 1][..i] == pairs[..i];
      match AddPair(acc, pairs[i]) {
        case None =>
          PanicsExactly(pairs[..i + 1]);
          var bad :| bad in pairs[..i + 1] && ':' !in bad;
          assert bad in pairs;
          return None;
        case Some(next) => acc := next;
      }
    }
    assert pairs[..|pairs|] == pairs;
    r := Some(acc);
  }

  lemma {:induction false} PanicsExactly(pairs: seq<string>)
    ensures AddPairs(pairs).None? <==> exists pair <- pairs :: ':' !in pair
  {
    if pairs != [] {
      var n := |pairs| - 1;
      PanicsExactly(pairs[..n]);
      SplitCount(pairs[n], ':');
      assert forall p <- pairs :: p in pairs[..n] || p == pairs[n];
    }
  }

  // ---- the text that Porto prints

  /** An entry with the spaces around its key and its value. */
  datatype Entry = Entry(key: string, value: string, a: string, b: string, c: string, d: string) {
    function Text(): string {
      a + key + b + ":" + c + value + d
    }

    predicate Spaced() {
      AllSpace(a) && AllSpace(b) && AllSpace(c) && AllSpace(d)
    }
  }

  function Texts(entries: seq<Entry>): (t: seq<string>)
    ensures |t| == |entries|
    ensures forall i :: 0 <= i < |t| ==> t[i] == entries[i].Text()
  {
    seq(|entries|, i requires 0 <= i < |entries| => entries[i].Text())
  }

  /** The entries list the map, each key once, in any order. */
  ghost predicate Lists(entries: seq<Entry>, m: Labels) {
    && (forall i, j :: 0 <= i < j < |entries| ==> entries[i].key != entries[j].key)
    && (forall e <- entries :: e.Spaced() && e.key in m && m[e.key] == e.value)
    && (forall k <- m.Keys :: exists e <- entries :: e.key == k)
  }

  ghost predicate Prints(text: string, m: Labels) {
    exists entries :: Lists(entries, m) && text == Join(Texts(entries), ';')
  }

  /** A key or value that survives splitting and trimming. */
  predicate Plain(s: string) {
    forall i :: 0 <= i < |s| ==> !IsSpace(s[i]) && s[i] != ':' && s[i] != ';'
  }

  lemma EncodedPlain(s: string, prefix: string)
    requires Plain(prefix)
    ensures Plain(EncodeLabel(s, prefix))
  {
  }

  lemma AddEntryText(acc: Parsed, e: Entry)
    requires e.Spaced() && Plain(e.key) && Plain(e.value)
    ensures AddPair(acc, e.Text()) == Some(AddEntry(acc, e.key, e.value))
    ensures ';' !in e.Text()
  {
    var left, right := e.a + e.key + e.b, e.c + e.value + e.d;
    assert e.Text() == left + [':'] + right;
    assert ':' !in left && ':' !in right && ';' !in left && ';' !in right by {
      assert forall c <- left :: c in e.a || c in e.key || c in e.b;
      assert forall c <- right :: c in e.c || c in e.value || c in e.d;
    }
    SplitConcat(left, ':', right);
    SplitOne(left, ':');
    SplitOne(right, ':');
    TrimPadded(e.a, e.key, e.b);
    TrimPadded(e.c, e.value, e.d);
  }

  function AddEntries(entries: seq<Entry>): Parsed {
    if entries == [] then Parsed(map[], map[])
    else
      var n := |entries| - 1;
      AddEntry(AddEntries(entries[..n]), entries[n].key, entries[n].value)
  }

  lemma {:induction false} AddPairsTexts(entries: seq<Entry>)
    requires forall e <- entries :: e.Spaced() && Plain(e.key) && Plain(e.value)
    ensures AddPairs(Texts(entries)) == Some(AddEntries(entries))
    ensures forall t <- Texts(entries) :: ';' !in t
  {
    hide AddPair, AddEntry, Plain;
    if entries != [] {
      var n := |entries| - 1;
      AddPairsTexts(entries[..n]);
      assert Texts(entries)[..n] == Texts(entries[..n]);
      AddEntryText(AddEntries(entries[..n]), entries[n]);
      assert forall t <- Texts(entries) :: t in Texts(entries[..n]) || t == entries[n].Text();
    }
  }

  // ---- the round trip

  /** What the entry of an encoded map stands for. */
  ghost predicate Encodes(e: Entry, labels: map<GoString, GoString>, annotations: map<GoString, GoString>) {
    || (exists k: GoString :: IsLabelEntry(e, k, labels))
    || (exists k: GoString :: IsAnnotationEntry(e, k, annotations))
    || e.key == ENGINE_KEY
  }

  ghost predicate IsLabelEntry(e: Entry, k: GoString, labels: map<GoString, GoString>) {
    k in labels && e.key == EncodeLabel(k, LABEL) && e.value == EncodeLabel(labels[k], "")
  }

  ghost predicate IsAnnotationEntry(e: Entry, k: GoString, annotations: map<GoString, GoString>) {
    k in annotations && e.key == EncodeLabel(k, ANNOTATION) && e.value == EncodeLabel(annotations[k], "")
  }

  lemma AddLabelEntry(acc: Parsed, e: Entry, k: GoString, labels: map<GoString, GoString>)
    requires IsLabelEntry(e, k, labels)
    ensures AddEntry(acc, e.key, e.value) == acc.(labels := acc.labels[k := labels[k]])
  {
    TagsDisjoint(k, k);
    DecodeEncodeLabel(k, LABEL);
    DecodeEncodeLabel(labels[k], "");
  }

  lemma AddAnnotationEntry(acc: Parsed, e: Entry, k: GoString, annotations: map<GoString, GoString>)
    requires IsAnnotationEntry(e, k, annotations)
    ensures AddEntry(acc, e.key, e.value) == acc.(annotations := acc.annotations[k := annotations[k]])
  {
    TagsDisjoint(k, k);
    DecodeEncodeLabel(k, ANNOTATION);
    DecodeEncodeLabel(annotations[k], "");
  }

  /** Reading encoded entries yields parts of the two maps, and every key that is listed. */
  lemma {:induction false} AddEntriesDecodes(
    entries: seq<Entry>, labels: map<GoString, GoString>, annotations: map<GoString, GoString>)
    requires forall e <- entries :: Encodes(e, labels, annotations)
    ensures var p := AddEntries(entries);
            && (forall k <- p.labels.Keys :: k in labels && p.labels[k] == labels[k])
            && (forall k <- p.annotations.Keys :: k in annotations && p.annotations[k] == annotations[k])
    ensures forall e: Entry, k: GoString :: e in entries && IsLabelEntry(e, k, labels) ==> k in AddEntries(entries).labels
    ensures forall e: Entry, k: GoString :: e in entries && IsAnnotationEntry(e, k, annotations) ==> k in AddEntries(entries).annotations
  {
    if entries != [] {
      var n := |entries| - 1;
      var e, acc := entries[n], AddEntries(entries[..n]);
      AddEntriesDecodes(entries[..n], labels, annotations);
      assert Encodes(e, labels, annotations);
      TagsDisjoint("", "");
      forall k: GoString | IsLabelEntry(e, k, labels)
        ensures AddEntry(acc, e.key, e.value) == acc.(labels := acc.labels[k := labels[k]]) { AddLabelEntry(acc, e, k, labels); }
      forall k: GoString | IsAnnotationEntry(e, k, annotations)
        ensures AddEntry(acc, e.key, e.value) == acc.(annotations := acc.annotations[k := annotations[k]]) { AddAnnotationEntry(acc, e, k, annotations); }
      assert forall x <- entries :: x in entries[..n] || x == e;
    }
  }

  function WithEngine(labels: map<GoString, GoString>, annotations: map<GoString, GoString>): Labels {
    PortoLabels(labels, annotations)[ENGINE_KEY := ENGINE]
  }

  lemma EntryEncodes(e: Entry, labels: map<GoString, GoString>, annotations: map<GoString, GoString>)
    requires e.key in WithEngine(labels, annotations) && e.value == WithEngine(labels, annotations)[e.key]
    ensures Encodes(e, labels, annotations) && Plain(e.key) && Plain(e.value)
  {
    hide EncodeLabel, Tagged;
    assert Plain(LABEL) && Plain(ANNOTATION) && Plain(ENGINE_KEY) && Plain(ENGINE) && Plain("");
    TaggedKey(annotations, ANNOTATION, e.key);
    TaggedKey(labels, LABEL, e.key);
    if e.key == ENGINE_KEY {
    } else if e.key in Tagged(annotations, ANNOTATION) {
      var k :| k in annotations && e.key == EncodeLabel(k, ANNOTATION);
      assert IsAnnotationEntry(e, k, annotations);
      EncodedPlain(k, ANNOTATION);
      EncodedPlain(annotations[k], "");
    } else {
      var k :| k in labels && e.key == EncodeLabel(k, LABEL);
      assert IsLabelEntry(e, k, labels);
      EncodedPlain(k, LABEL);
      EncodedPlain(labels[k], "");
    }
  }

  lemma LabelListed(entries: seq<Entry>, k: GoString, labels: map<GoString, GoString>, annotations: map<GoString, GoString>)
    requires Lists(entries, WithEngine(labels, annotations)) && k in labels
    ensures exists e <- entries :: IsLabelEntry(e, k, labels)
  {
    hide EncodeLabel, Tagged;
    var key := EncodeLabel(k, LABEL);
    TagsApart(labels, annotations);
    TaggedKey(labels, LABEL, key);
    assert key in WithEngine(labels, annotations).Keys;
    var e :| e in entries && e.key == key;
    assert IsLabelEntry(e, k, labels);
  }

  lemma AnnotationListed(entries: seq<Entry>, k: GoString, labels: map<GoString, GoString>, annotations: map<GoString, GoString>)
    requires Lists(entries, WithEngine(labels, annotations)) && k in annotations
    ensures exists e <- entries :: IsAnnotationEntry(e, k, annotations)
  {
    hide EncodeLabel, Tagged;
    var key := EncodeLabel(k, ANNOTATION);
    TagsApart(labels, annotations);
    TaggedKey(annotations, ANNOTATION, key);
    assert key in WithEngine(labels, annotations).Keys;
    var e :| e in entries && e.key == key;
    assert IsAnnotationEntry(e, k, annotations);
  }

  /** Main result: whatever the order and the spaces of the printed text, both maps come
      back exactly, and the engine entry is left out. */
  lemma LabelsRoundTrip(text: string, labels: map<GoString, GoString>, annotations: map<GoString, GoString>)
    requires Prints(text, WithEngine(labels, annotations))
    ensures FromPortoLabels(text) == Some(Parsed(labels, annotations))
  {
    hide AddPairs, AddEntries, Split, Join, Plain, Encodes, PortoLabels, IsLabelEntry, IsAnnotationEntry;
    var m := WithEngine(labels, annotations);
    var entries :| Lists(entries, m) && text == Join(Texts(entries), ';');
    forall e | e in entries ensures Encodes(e, labels, annotations) && Plain(e.key) && Plain(e.value) {
      EntryEncodes(e, labels, annotations);
    }
    AddEntriesDecodes(entries, labels, annotations);
    var p := AddEntries(entries);
    forall k | k in labels ensures k in p.labels { LabelListed(entries, k, labels, annotations); }
    forall k | k in annotations ensures k in p.annotations { AnnotationListed(entries, k, labels, annotations); }
    assert p.labels == labels && p.annotations == annotations;
    AddPairsTexts(entries);
    assert ENGINE_KEY in m.Keys && entries != [];
    SplitJoin(Texts(entries), ';');
    NotEmpty(entries);
  }

  lemma NotEmpty(entries: seq<Entry>)
    requires entries != []
    ensures Join(Texts(entries), ';') != ""
  {
    var t := Texts(entries);
    assert t[0][|entries[0].a + entries[0].key + entries[0].b|] == ':';
  }

  lemma ListsMore(entries: seq<Entry>, m: Labels, rest: set<string>, k: string)
    requires k in rest && rest <= m.Keys && Lists(entries, map x | x in m && x !in rest :: m[x])
    ensures Lists(entries + [Entry(k, m[k], "", "", "", "")], map x | x in m && x !in rest - {k} :: m[x])
  {
    var e := Entry(k, m[k], "", "", "", "");
    var before := map x | x in m && x !in rest :: m[x];
    assert e.Spaced();
    forall i | 0 <= i < |entries| ensures entries[i].key != k { assert entries[i] in entries; }
    forall x | x in m && x !in rest - {k} ensures exists d <- entries + [e] :: d.key == x {
      if x == k {
        assert e in entries + [e];
      } else {
        assert x in before.Keys;
        var d :| d in entries && d.key == x;
        assert d in entries + [e];
      }
    }
  }

  /** Every label map can be printed. */
  lemma {:induction false} SomePrint(m: Labels, rest: set<string>) returns (entries: seq<Entry>)
    requires rest <= m.Keys
    ensures Lists(entries, map k | k in m && k !in rest :: m[k])
    decreases m.Keys - rest
  {
    if rest == m.Keys {
      entries := [];
    } else {
      var k :| k in m && k !in rest;
      entries := SomePrint(m, rest + {k});
      ListsMore(entries, m, rest + {k}, k);
      entries := entries + [Entry(k, m[k], "", "", "", "")];
      assert rest + {k} - {k} == rest;
    }
  }

  lemma SomeText(m: Labels) returns (text: string)
    ensures Prints(text, m)
  {
    var none: set<string> := {};
    var entries := SomePrint(m, none);
    assert (map k | k in m && k !in none :: m[k]) == m;
    assert Lists(entries, m);
    text := Join(Texts(entries), ';');
  }

  // ---- the encoded map, entry by entry

  lemma LabelTexts(k: string)
    ensures EncodeLabel(k, LABEL) == "LABEL." + Base64.Encode(k)
    ensures EncodeLabel(k, ANNOTATION) == "ANNOTATION." + Base64.Encode(k)
    ensures EncodeLabel(k, "") == Base64.Encode(k) && ENGINE_KEY == "INFRA.engine" && ENGINE == "k8s"
  {
    hide Base64.Encode;
    assert LABEL + "." == "LABEL." && ANNOTATION + "." == "ANNOTATION.";
  }

  ghost predicate HasEntry(m: Labels, key: string, value: string) {
    key in m && m[key] == value
  }

  lemma LabelEntry(labels: map<GoString, GoString>, annotations: map<GoString, GoString>, k: GoString)
    ensures k in labels ==> HasEntry(WithEngine(labels, annotations), "LABEL." + Base64.Encode(k), Base64.Encode(labels[k]))
    ensures k in annotations ==> HasEntry(WithEngine(labels, annotations), "ANNOTATION." + Base64.Encode(k), Base64.Encode(annotations[k]))
  {
    hide EncodeLabel, Tagged, Base64.Encode;
    LabelTexts(k);
    TagsDisjoint(k, k);
    TagsApart(labels, annotations);
    TaggedKey(labels, LABEL, EncodeLabel(k, LABEL));
    TaggedKey(annotations, ANNOTATION, EncodeLabel(k, ANNOTATION));
    if k in labels { LabelTexts(labels[k]); }
    if k in annotations { LabelTexts(annotations[k]); }
  }

  /** Main result: each label and each annotation has an entry with its kind in front of the
      encoded key, the engine has one, and there are no others. */
  lemma EntriesSay(labels: map<GoString, GoString>, annotations: map<GoString, GoString>)
    ensures var m := WithEngine(labels, annotations);
            && (forall k <- labels :: HasEntry(m, "LABEL." + Base64.Encode(k), Base64.Encode(labels[k])))
            && (forall k <- annotations :: HasEntry(m, "ANNOTATION." + Base64.Encode(k), Base64.Encode(annotations[k])))
            && HasEntry(m, "INFRA.engine", "k8s") && |m| == |labels| + |annotations| + 1
  {
    hide EncodeLabel, Tagged, PortoLabels, Base64.Encode;
    LabelTexts("");
    PortoLabelsSize(labels, annotations);
    TagsApart(labels, annotations);
    forall k | k in labels { LabelEntry(labels, annotations, k); }
    forall k | k in annotations { LabelEntry(labels, annotations, k); }
    var p := PortoLabels(labels, annotations);
    assert p[ENGINE_KEY := ENGINE].Keys == p.Keys + {ENGINE_KEY};
    assert |p.Keys| == |p| && |p[ENGINE_KEY := ENGINE].Keys| == |p[ENGINE_KEY := ENGINE]|;
  }
}
