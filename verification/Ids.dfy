/** Container ids (cmd/portoshim/runtime_mapper.go): the texts that Portoshim takes apart and
    puts together, and the segments they stand for.
 */
module Ids {
  import opened GoStrings
  import opened GoPaths

  const PRIVILEGED := "privileged"

  /** A Porto id as its segments: pod, container, helper. */
  type Id = seq<string>

  predicate IsSegment(s: string) {
    s != "" && '/' !in s
  }

  predicate WellFormed(id: Id) {
    id != [] && forall i :: 0 <= i < |id| ==> IsSegment(id[i])
  }

  function Text(id: Id): string {
    Join(id, '/')
  }

  // ---- the functions on texts

  function Hex(d: nat): char
    requires d < 16
  {
    if d < 10 then ('0' as int + d) as char else ('a' as int + d - 10) as char
  }

  /** createID; r is the random number. */
  function CreateID(name: string, r: nat): string
    requires r < 65536
  {
    var n := if |name| < 58 then |name| else 58;
    name[..n] + "-" + [Hex(r / 4096), Hex(r / 256 % 16), Hex(r / 16 % 16), Hex(r % 16)]
  }

  predicate CheckSlashCount(slashCount: nat, id: string, parent: string) {
    var n := if parent != "" && HasPrefix(id, parent) then slashCount + Count(parent, '/') + 1 else slashCount;
    (forall part <- Split(id, '/') :: part != "") && Count(id, '/') == n
  }

  predicate IsPod(id: string, parent: string) {
    CheckSlashCount(0, id, parent)
  }

  predicate IsContainer(id: string, parent: string) {
    CheckSlashCount(1, id, parent)
  }

  predicate IsPrivilegedContainer(id: string) {
    var parts := Split(id, '/');
    |parts| >= 3 && parts[|parts| - 1] == PRIVILEGED
  }

  function ToContainerCriID(id: string): string {
    var parts := Split(id, '/');
    if IsPrivilegedContainer(id) then Join(parts[..|parts| - 1], '/') else id
  }

  /** The alias that generateFullContainerName looks for first. */
  function PrivilegedName(id: string): string {
    Join([Dir(id), Base(id), PRIVILEGED], '/')
  }

  /** The test of filterContainerIDs. */
  predicate SelfOrBelow(id: string, target: string) {
    id == target || HasPrefix(id, target + "/")
  }

  function AddPortoPrefix(parent: string, id: string): string {
    if parent != "" then TrimPrefix(Join([parent, id], '/'), "/") else id
  }

  /** The slice panics on the parent itself. */
  function RemovePortoPrefix(parent: string, id: string): string
    requires id != parent || parent == ""
  {
    if parent != "" && HasPrefix(id, parent) then id[|parent| + 1..] else id
  }

  // ---- the same on segments

  predicate Privileged(id: Id) {
    |id| >= 3 && id[|id| - 1] == PRIVILEGED
  }

  function Cri(id: Id): Id {
    if Privileged(id) then id[..|id| - 1] else id
  }

  lemma SplitText(id: Id)
    requires WellFormed(id)
    ensures Split(Text(id), '/') == id && Count(Text(id), '/') == |id| - 1
  {
    SplitJoin(id, '/');
    SplitCount(Text(id), '/');
  }

  /** Main result: without a parent, the tests on texts are tests on the number of segments. */
  lemma PodOrContainer(id: Id)
    requires WellFormed(id)
    ensures IsPod(Text(id), "") <==> |id| == 1
    ensures IsContainer(Text(id), "") <==> |id| == 2
    ensures IsPrivilegedContainer(Text(id)) <==> Privileged(id)
    ensures ToContainerCriID(Text(id)) == Text(Cri(id))
  {
    SplitText(id);
  }

  /** Every text that passes for a container or a pod is the text of well-formed segments. */
  lemma AcceptedIsWellFormed(s: string, parent: string)
    requires IsPod(s, parent) || IsContainer(s, parent)
    ensures WellFormed(Split(s, '/')) && Text(Split(s, '/')) == s
  {
    JoinSplit(s, '/');
    SplitCount(s, '/');
    forall i | 0 <= i < |Split(s, '/')| ensures IsSegment(Split(s, '/')[i]) {
      assert Split(s, '/')[i] in Split(s, '/');
    }
  }

  /** Hiding the helper segment and looking for the alias are inverse on containers. */
  lemma AliasInverse(pod: string, cnt: string)
    requires IsSegment(pod) && IsSegment(cnt)
    ensures PrivilegedName(Text([pod, cnt])) == Text([pod, cnt, PRIVILEGED])
    ensures ToContainerCriID(PrivilegedName(Text([pod, cnt]))) == Text([pod, cnt])
  {
    hide Dir, Base, IsPrivilegedContainer, ToContainerCriID, IsPod, IsContainer, Join;
    var id := [pod, cnt, PRIVILEGED];
    TextTwo(pod, cnt);
    DirBaseOfTwo(pod, cnt);
    assert PrivilegedName(Text([pod, cnt])) == Text(id);
    assert '/' !in PRIVILEGED && IsSegment(id[0]) && IsSegment(id[1]) && IsSegment(id[2]);
    assert Cri(id) == [pod, cnt];
    PodOrContainer(id);
    assert ToContainerCriID(Text(id)) == Text([pod, cnt]);
  }

  /** createPrivCnt joins with filepath.Join, which cleans; for ids that are names it builds the
      same alias. */
  lemma HelperPath(pod: string, cnt: string)
    requires IsName(pod) && IsName(cnt)
    ensures JoinPath(Text([pod, cnt]), PRIVILEGED) == Text([pod, cnt, PRIVILEGED])
  {
    hide Dir, Base, Push;
    var id := [pod, cnt, PRIVILEGED];
    assert WellFormed(id) && AllNames(id) by { assert '/' !in PRIVILEGED && |PRIVILEGED| == 10; }
    JoinConcat([pod, cnt], [PRIVILEGED], '/');
    assert [pod, cnt] + [PRIVILEGED] == id;
    JoinSingle(PRIVILEGED);
    SplitText(id);
    PushNames(false, [], id);
    assert [] + id == id;
    TextTwo(pod, cnt);
    assert pod[0] in pod && !IsAbs(Text(id));
  }

  lemma JoinSingle(s: string)
    ensures Join([s], '/') == s
  {
  }

  lemma TextTwo(a: string, b: string)
    ensures Text([a, b]) == a + "/" + b
  {
    var id := [a, b];
    assert id[1..] == [b];
    assert Join(id, '/') == id[0] + "/" + Join(id[1..], '/');
  }

  /** Dir cleans, but a single segment stays what it is, even `..`. */
  lemma DirBaseOfTwo(pod: string, cnt: string)
    requires IsSegment(pod) && IsSegment(cnt)
    ensures Dir(pod + "/" + cnt) == pod && Base(pod + "/" + cnt) == cnt
  {
    var s := pod + "/" + cnt;
    DirPartConcat(pod, cnt);
    assert s[|s| - 1] == cnt[|cnt| - 1] && cnt[|cnt| - 1] in cnt;
    assert StripSlashes(s) == s;
    assert s[|pod + "/"|..] == cnt;
    assert pod[0] in pod && !IsAbs(pod + "/");
    assert pod + "/" == pod + "/" + "";
    SplitConcat(pod, '/', "");
    SplitOne(pod, '/');
    assert Split(pod + "/", '/') == [pod, ""];
    PushAllConcat(false, [], [pod], [""]);
    assert [pod] + [""] == [pod, ""];
    assert PushAll(false, [], [pod]) == Push(false, [], pod);
    assert PushAll(false, Push(false, [], pod), [""]) == Push(false, [], pod);
    if pod == "." {
      assert Clean(pod + "/") == ".";
    } else {
      assert Push(false, [], pod) == [pod];
    }
  }

  lemma {:induction false} TextPrefix(target: Id, id: Id)
    requires WellFormed(target) && WellFormed(id)
    ensures SelfOrBelow(Text(id), Text(target)) <==> target <= id
  {
    SplitText(target);
    SplitText(id);
    if SelfOrBelow(Text(id), Text(target)) && Text(id) != Text(target) {
      var rest := Text(id)[|Text(target)| + 1..];
      assert Text(id) == Text(target) + "/" + rest;
      SplitConcat(Text(target), '/', rest);
    }
    if target <= id {
      if target == id {
      } else {
        var rest := id[|target|..];
        assert id == target + rest;
        JoinConcat(target, rest, '/');
      }
    }
  }

  /** No generated id is taken for the helper, and none grows beyond 63 bytes. */
  lemma CreatedIsNotPrivileged(name: string, r: nat)
    requires r < 65536
    ensures CreateID(name, r) != PRIVILEGED && |CreateID(name, r)| <= 63
    ensures '/' !in name ==> IsSegment(CreateID(name, r))
  {
    var id := CreateID(name, r);
    var n := if |name| < 58 then |name| else 58;
    var hex := [Hex(r / 4096), Hex(r / 256 % 16), Hex(r / 16 % 16), Hex(r % 16)];
    assert id == name[..n] + "-" + hex;
    assert id[n] == '-' && |id| == n + 5;
    assert PRIVILEGED[5] == 'l';
    if '/' !in name {
      assert forall i :: 0 <= i < |id| ==> id[i] != '/';
    }
  }

  function HexDigits(r: nat): seq<char>
    requires r < 65536
  {
    [Hex(r / 4096), Hex(r / 256 % 16), Hex(r / 16 % 16), Hex(r % 16)]
  }

  lemma Nibbles(r: nat)
    requires r < 65536
    ensures r == 4096 * (r / 4096) + 256 * (r / 256 % 16) + 16 * (r / 16 % 16) + r % 16
  {
    assert r / 256 == 16 * (r / 4096) + r / 256 % 16;
    assert r / 16 == 16 * (r / 256) + r / 16 % 16;
    assert r == 16 * (r / 16) + r % 16;
  }

  lemma HexDiffers(d: nat, d': nat)
    requires d < 16 && d' < 16 && Hex(d) == Hex(d')
    ensures d == d'
  {
  }

  lemma DigitsDiffer(r: nat, r': nat)
    requires r < 65536 && r' < 65536 && HexDigits(r) == HexDigits(r')
    ensures r == r'
  {
    hide Hex;
    var x, y := HexDigits(r), HexDigits(r');
    assert x[0] == y[0] && x[1] == y[1] && x[2] == y[2] && x[3] == y[3];
    HexDiffers(r / 4096, r' / 4096);
    HexDiffers(r / 256 % 16, r' / 256 % 16);
    HexDiffers(r / 16 % 16, r' / 16 % 16);
    HexDiffers(r % 16, r' % 16);
    Nibbles(r);
    Nibbles(r');
  }

  /** Another random number is another id, and the id begins with the name, cut at 58 bytes. */
  lemma CreatedDiffer(name: string, r: nat, r': nat)
    requires r < 65536 && r' < 65536
    ensures CreateID(name, r) == CreateID(name, r') ==> r == r'
    ensures name[..if |name| < 58 then |name| else 58] + "-" <= CreateID(name, r)
  {
    hide Hex;
    var n := if |name| < 58 then |name| else 58;
    var id, id', head := CreateID(name, r), CreateID(name, r'), name[..n] + "-";
    assert id == head + HexDigits(r) && id' == head + HexDigits(r');
    if id == id' {
      assert id[|head|..] == HexDigits(r) && id'[|head|..] == HexDigits(r');
      DigitsDiffer(r, r');
    }
  }

  /** Main result: the prefix that is added is the prefix that is removed, and with it an id
      is taken for what it is. */
  lemma PrefixRoundTrip(parent: string, id: Id)
    requires IsSegment(parent) && WellFormed(id)
    ensures AddPortoPrefix(parent, Text(id)) == Text([parent] + id)
    ensures RemovePortoPrefix(parent, AddPortoPrefix(parent, Text(id))) == Text(id)
    ensures IsPod(AddPortoPrefix(parent, Text(id)), parent) <==> |id| == 1
    ensures IsContainer(AddPortoPrefix(parent, Text(id)), parent) <==> |id| == 2
  {
    var s := AddPortoPrefix(parent, Text(id));
    TextTwo(parent, Text(id));
    assert parent[0] in parent;
    JoinConcat([parent], id, '/');
    assert WellFormed([parent] + id);
    SplitText([parent] + id);
    assert HasPrefix(s, parent);
    assert Count(parent, '/') == 0 by { SplitOne(parent, '/'); SplitCount(parent, '/'); }
    assert s[|parent| + 1..] == Text(id);
  }

  /** For a raw id it is the test on the text that decides: the prefix is left alone exactly
      when the id does not begin with the parent's text. */
  lemma RawIdUntouched(parent: string, id: string)
    requires id != parent || parent == ""
    ensures RemovePortoPrefix(parent, id) == id <==> parent == "" || !HasPrefix(id, parent)
  {
    if parent != "" && HasPrefix(id, parent) {
      assert |RemovePortoPrefix(parent, id)| < |id|;
    }
  }
}
