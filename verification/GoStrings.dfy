/** The functions of Go's `strings` package that Portoshim relies on.

    A Go string is a sequence of bytes. Here it is a Dafny `string` in which every
    character stands for one byte, so string literals keep their ASCII meaning.
 */
module GoStrings {

  ghost predicate IsByteString(s: string) {
    forall i :: 0 <= i < |s| ==> s[i] as int < 256
  }

  predicate HasPrefix(s: string, prefix: string) {
    prefix <= s
  }

  function TrimPrefix(s: string, prefix: string): string {
    if prefix <= s then s[|prefix|..] else s
  }

  /** strings.Split with a one-byte separator. */
  function Split(s: string, sep: char): (parts: seq<string>)
    ensures |parts| >= 1
  {
    if s == "" then [""]
    else
      var rest := Split(s[1..], sep);
      if s[0] == sep then [""] + rest else Prepend(s[0], rest)
  }

  function Prepend(c: char, parts: seq<string>): (r: seq<string>)
    requires parts != []
    ensures |r| == |parts|
  {
    [[c] + parts[0]] + parts[1..]
  }

  /** strings.Join with a one-byte separator. */
  function Join(parts: seq<string>, sep: char): string {
    if parts == [] then ""
    else if |parts| == 1 then parts[0]
    else parts[0] + [sep] + Join(parts[1..], sep)
  }

  /** strings.SplitN(s, sep, 2): None when the separator is absent. */
  function Cut(s: string, sep: char): (r: Option<(string, string)>)
    ensures r.Some? <==> sep in s
    ensures r.Some? ==> s == r.value.0 + [sep] + r.value.1 && sep !in r.value.0
  {
    if s == "" then None
    else if s[0] == sep then Some(("", s[1..]))
    else match Cut(s[1..], sep)
      case None => None
      case Some((a, b)) => Some(([s[0]] + a, b))
  }

  /** strings.Contains. */
  predicate Contains(s: string, sub: string) {
    sub <= s || (s != "" && Contains(s[1..], sub))
  }

  /** strings.ReplaceAll: leftmost occurrences that do not overlap. */
  function ReplaceAll(s: string, from: string, to: string): string
    requires from != ""
    decreases |s|
  {
    if s == "" then ""
    else if from <= s then to + ReplaceAll(s[|from|..], from, to)
    else [s[0]] + ReplaceAll(s[1..], from, to)
  }

  /** unicode.IsSpace on ASCII. */
  predicate IsSpace(c: char) {
    c == ' ' || 9 <= c as int <= 13
  }

  predicate AllSpace(s: string) {
    forall c <- s :: IsSpace(c)
  }

  function TrimLeft(s: string): string {
    if s != "" && IsSpace(s[0]) then TrimLeft(s[1..]) else s
  }

  function TrimRight(s: string): string {
    if s != "" && IsSpace(s[|s| - 1]) then TrimRight(s[..|s| - 1]) else s
  }

  function TrimSpace(s: string): string {
    TrimRight(TrimLeft(s))
  }

  /** strings.Fields: the maximal runs of non-space characters. */
  function Fields(s: string): seq<string>
    decreases |s|
  {
    if s == "" then []
    else if IsSpace(s[0]) then Fields(s[1..])
    else
      var n := WordLength(s);
      [s[..n]] + Fields(s[n..])
  }

  function WordLength(s: string): (n: nat)
    ensures n <= |s|
    ensures s != "" && !IsSpace(s[0]) ==> n > 0
  {
    if s == "" || IsSpace(s[0]) then 0 else 1 + WordLength(s[1..])
  }

  datatype Option<+T> = None | Some(value: T)

  // ---- laws

  lemma SplitTail(s: string, sep: char)
    requires s != ""
    ensures s[0] == sep ==> Split(s, sep) == [""] + Split(s[1..], sep)
    ensures s[0] != sep ==> Split(s, sep) == Prepend(s[0], Split(s[1..], sep))
  {
  }

  lemma PrependConcat(c: char, x: seq<string>, y: seq<string>)
    requires x != []
    ensures Prepend(c, x + y) == Prepend(c, x) + y
  {
  }

  /** Splitting a concatenation at a separator splits both halves. */
  lemma {:induction false} SplitConcat(a: string, sep: char, b: string)
    ensures Split(a + [sep] + b, sep) == Split(a, sep) + Split(b, sep)
  {
    var s, y := a + [sep] + b, Split(b, sep);
    SplitTail(s, sep);
    if a == "" {
      assert s[1..] == b;
    } else {
      SplitConcat(a[1..], sep, b);
      SplitTail(a, sep);
      assert s[0] == a[0] && s[1..] == a[1..] + [sep] + b;
      var x := Split(a[1..], sep);
      PrependConcat(a[0], x, y);
      assert [""] + (x + y) == [""] + x + y;
    }
  }

  lemma {:induction false} SplitOne(s: string, sep: char)
    requires sep !in s
    ensures Split(s, sep) == [s]
  {
    if s != "" {
      assert sep !in s[1..] by { assert forall i :: 0 <= i < |s[1..]| ==> s[1..][i] == s[i + 1]; }
      SplitOne(s[1..], sep);
      assert s[0] in s && s == [s[0]] + s[1..];
    }
  }

  /** Splitting undoes joining of separator-free parts. */
  lemma {:induction false} SplitJoin(parts: seq<string>, sep: char)
    requires parts != [] && forall p <- parts :: sep !in p
    ensures Split(Join(parts, sep), sep) == parts
  {
    SplitOne(parts[0], sep);
    if |parts| > 1 {
      SplitJoin(parts[1..], sep);
      SplitConcat(parts[0], sep, Join(parts[1..], sep));
    }
  }

  lemma JoinPrepend(c: char, parts: seq<string>, sep: char)
    requires parts != []
    ensures Join(Prepend(c, parts), sep) == [c] + Join(parts, sep)
  {
    assert Prepend(c, parts)[1..] == parts[1..];
  }

  /** Joining undoes splitting, and no part holds the separator. */
  lemma {:induction false} JoinSplit(s: string, sep: char)
    ensures Join(Split(s, sep), sep) == s
    ensures forall i :: 0 <= i < |Split(s, sep)| ==> sep !in Split(s, sep)[i]
  {
    if s != "" {
      JoinSplit(s[1..], sep);
      var rest := Split(s[1..], sep);
      if s[0] == sep {
        assert ([""] + rest)[1..] == rest;
      } else {
        JoinPrepend(s[0], rest, sep);
      }
    }
  }

  /** The cut point is the first separator. */
  lemma {:induction false} CutConcat(a: string, sep: char, b: string)
    requires sep !in a
    ensures Cut(a + [sep] + b, sep) == Some((a, b))
  {
    var s := a + [sep] + b;
    if a == "" {
      assert s[1..] == b;
    } else {
      assert s[1..] == a[1..] + [sep] + b;
      assert s[0] == a[0] && a[0] in a && a == [a[0]] + a[1..];
      CutConcat(a[1..], sep, b);
    }
  }

  lemma {:induction false} SplitHead(s: string, sep: char)
    ensures Split(s, sep)[0] <= s && sep !in Split(s, sep)[0]
  {
    if s != "" && s[0] != sep { SplitHead(s[1..], sep); }
  }

  lemma {:induction false} TrimLeftPadded(pad: string, s: string)
    requires AllSpace(pad)
    ensures TrimLeft(pad + s) == TrimLeft(s)
  {
    if pad == "" {
      assert pad + s == s;
    } else {
      assert pad[0] in pad && (pad + s)[1..] == pad[1..] + s;
      TrimLeftPadded(pad[1..], s);
    }
  }

  lemma {:induction false} TrimRightPadded(s: string, pad: string)
    requires AllSpace(pad)
    ensures TrimRight(s + pad) == TrimRight(s)
    decreases |pad|
  {
    if pad == "" {
      assert s + pad == s;
    } else {
      var n := |pad| - 1;
      assert pad[n] in pad && (s + pad)[..|s + pad| - 1] == s + pad[..n];
      TrimRightPadded(s, pad[..n]);
    }
  }

  /** Spaces around a text that has none at its ends are trimmed away. */
  lemma TrimPadded(left: string, s: string, right: string)
    requires AllSpace(left) && AllSpace(right)
    requires s == "" || (!IsSpace(s[0]) && !IsSpace(s[|s| - 1]))
    ensures TrimSpace(left + s + right) == s
  {
    assert left + s + right == left + (s + right);
    TrimLeftPadded(left, s + right);
    if s == "" {
      assert s + right == right && right + "" == right;
      TrimLeftPadded(right, "");
    } else {
      TrimRightPadded(s, right);
    }
  }

  lemma {:induction false} WordLengthExact(w: string, rest: string)
    requires forall c <- w :: !IsSpace(c)
    requires rest == "" || IsSpace(rest[0])
    ensures WordLength(w + rest) == |w|
  {
    if w == "" {
      assert w + rest == rest;
    } else {
      assert w[0] in w && (w + rest)[1..] == w[1..] + rest;
      WordLengthExact(w[1..], rest);
    }
  }

  // ---- more laws

  /** strings.Count of one byte. */
  function Count(s: string, c: char): nat {
    if s == "" then 0 else (if s[0] == c then 1 else 0) + Count(s[1..], c)
  }

  lemma {:induction false} SplitCount(s: string, c: char)
    ensures |Split(s, c)| == Count(s, c) + 1
    ensures Count(s, c) > 0 <==> c in s
  {
    if s != "" { SplitCount(s[1..], c); }
  }

  lemma {:induction false} JoinConcat(a: seq<string>, b: seq<string>, sep: char)
    requires a != [] && b != []
    ensures Join(a + b, sep) == Join(a, sep) + [sep] + Join(b, sep)
  {
    if |a| == 1 {
      assert (a + b)[1..] == b;
    } else {
      assert (a + b)[1..] == a[1..] + b;
      JoinConcat(a[1..], b, sep);
    }
  }

  lemma Assoc<T>(x: seq<T>, y: seq<T>, z: seq<T>)
    ensures (x + y) + z == x + (y + z)
  {
  }
}
