/** The environment of an exec container: prepareExecEnv and envToVars
    (cmd/portoshim/runtime_mapper.go).

    Porto prints the environment of a container as `NAME=value;NAME=value`, with a `;`
    inside a value written as `\;`. The shim undoes this with a sentinel character.
 */
module ExecEnv {
  import opened GoStrings

  datatype EnvVar = EnvVar(name: string, value: string)

  /** The four UTF-8 bytes of U+10FFFF. */
  const SENTINEL := "\U{F4}\U{8F}\U{BF}\U{BF}"
  const ESCAPE := "\\;"

  // ---- the code

  function VarsOf(env: seq<string>): (vars: seq<EnvVar>)
    ensures |vars| <= |env|
  {
    if env == [] then []
    else (match Cut(env[0], '=')
      case None => []
      case Some((name, value)) => [EnvVar(name, value)]) + VarsOf(env[1..])
  }

  lemma {:induction false} VarsOfSnoc(env: seq<string>, v: string)
    ensures VarsOf(env + [v]) == VarsOf(env) + VarsOf([v])
  {
    if env != [] {
      VarsOfSnoc(env[1..], v);
      assert (env + [v])[1..] == env[1..] + [v];
    } else {
      assert env + [v] == [v];
    }
  }

  method EnvToVars(env: seq<string>) returns (vars: seq<EnvVar>)
    ensures vars == VarsOf(env)
  {
    vars := [];
    for i := 0 to |env|
      invariant vars == VarsOf(env[..i])
    {
      VarsOfSnoc(env[..i], env[i]);
      assert env[..i + 1] == env[..i] + [env[i]];
      match Cut(env[i], '=') {
        case None =>  // skipped with a warning
        case Some((name, value)) => vars := vars + [EnvVar(name, value)];
      }
    }
    assert env[..|env|] == env;
  }

  function RestoreAll(parts: seq<string>): (r: seq<string>)
    ensures |r| == |parts|
  {
    if parts == [] then [] else [ReplaceAll(parts[0], SENTINEL, ";")] + RestoreAll(parts[1..])
  }

  function Guarded(env: string): string {
    ReplaceAll(env, ESCAPE, SENTINEL)
  }

  /** What the two branches of prepareExecEnv compute. */
  function SentinelSplit(env: string): seq<string> {
    if Contains(env, ESCAPE) then RestoreAll(Split(Guarded(env), ';')) else Split(env, ';')
  }

  lemma {:induction false} RestoreAllAt(parts: seq<string>, i: nat)
    requires i < |parts|
    ensures RestoreAll(parts)[i] == ReplaceAll(parts[i], SENTINEL, ";")
  {
    if i > 0 { RestoreAllAt(parts[1..], i - 1); }
  }

  /** The slice is rewritten element by element in place, then turned into variables. */
  method PrepareExecEnv(env: string) returns (vars: seq<EnvVar>)
    ensures vars == VarsOf(SentinelSplit(env))
    ensures !(Contains(env, ESCAPE) && Contains(env, SENTINEL)) ==> vars == VarsOf(Scan(env))
  {
    var slice;
    if Contains(env, ESCAPE) {
      slice := Split(ReplaceAll(env, ESCAPE, SENTINEL), ';');
      ghost var parts := slice;
      for i := 0 to |slice|
        invariant |slice| == |parts|
        invariant forall j :: 0 <= j < i ==> slice[j] == ReplaceAll(parts[j], SENTINEL, ";")
        invariant forall j :: i <= j < |parts| ==> slice[j] == parts[j]
      {
        slice := slice[i := ReplaceAll(slice[i], SENTINEL, ";")];
      }
      forall i | 0 <= i < |parts| ensures slice[i] == RestoreAll(parts)[i] { RestoreAllAt(parts, i); }
      assert slice == RestoreAll(parts);
    } else {
      slice := Split(env, ';');
    }
    SentinelSplitIsScan(env);
    vars := EnvToVars(slice);
  }

  // ---- the meaning: one pass from left to right

  /** `\;` is a literal `;`, a bare `;` ends an entry, everything else is literal. */
  function Scan(s: string): (parts: seq<string>)
    ensures parts != []
    decreases |s|
  {
    if s == "" then [""]
    else if ESCAPE <= s then Prepend(';', Scan(s[2..]))
    else if s[0] == ';' then [""] + Scan(s[1..])
    else Prepend(s[0], Scan(s[1..]))
  }

  // ---- the sentinel split is the scan, except on texts that hold both the sentinel and `\;`

  function Total(parts: seq<string>): nat {
    if parts == [] then 0 else |parts[0]| + Total(parts[1..])
  }

  lemma TotalPrepend(c: char, parts: seq<string>)
    requires parts != []
    ensures Total(Prepend(c, parts)) == 1 + Total(parts)
  {
    assert Prepend(c, parts)[1..] == parts[1..];
  }

  lemma TotalEmpty(parts: seq<string>)
    ensures Total([""] + parts) == Total(parts)
  {
    assert ([""] + parts)[1..] == parts;
  }

  lemma RestoreEmpty(parts: seq<string>)
    ensures RestoreAll([""] + parts) == [""] + RestoreAll(parts)
  {
    assert ([""] + parts)[1..] == parts;
  }

  /** A byte that does not complete a sentinel survives the way back. */
  lemma RestorePrepend(c: char, parts: seq<string>)
    requires parts != [] && !(SENTINEL <= [c] + parts[0])
    ensures RestoreAll(Prepend(c, parts)) == Prepend(c, RestoreAll(parts))
  {
    assert Prepend(c, parts)[1..] == parts[1..];
    assert ([c] + parts[0])[1..] == parts[0];
    assert RestoreAll(parts)[1..] == RestoreAll(parts[1..]);
  }

  /** A sentinel in front of the first part comes back as one `;`. */
  lemma RestoreSentinel(parts: seq<string>)
    requires parts != []
    ensures RestoreAll([SENTINEL + parts[0]] + parts[1..]) == Prepend(';', RestoreAll(parts))
  {
    var x := SENTINEL + parts[0];
    assert SENTINEL <= x && x[|SENTINEL|..] == parts[0];
    assert ([x] + parts[1..])[1..] == parts[1..];
    assert RestoreAll(parts)[1..] == RestoreAll(parts[1..]);
  }

  /** The guarding pass invents no tail of a sentinel. */
  lemma {:induction false} GuardedPrefix(e: string, w: string)
    requires w <= Guarded(e) && SENTINEL[0] !in w
    ensures w <= e
  {
    if w != "" {
      assert w[0] in w && Guarded(e)[0] == w[0];
      assert !(ESCAPE <= e);
      assert Guarded(e)[1..] == Guarded(e[1..]);
      GuardedPrefix(e[1..], w[1..]);
    }
  }

  lemma NoNewSentinel(e: string)
    requires e != "" && !(SENTINEL <= e) && !(ESCAPE <= e)
    ensures !(SENTINEL <= [e[0]] + Split(Guarded(e[1..]), ';')[0])
  {
    var x := Split(Guarded(e[1..]), ';')[0];
    SplitHead(Guarded(e[1..]), ';');
    if SENTINEL <= [e[0]] + x {
      var w := SENTINEL[1..];
      assert w == ([e[0]] + x)[1..|SENTINEL|] == x[..3];
      GuardedPrefix(e[1..], w);
      assert false;
    }
  }

  lemma SplitSentinel(t: string)
    ensures Split(SENTINEL + t, ';') == [SENTINEL + Split(t, ';')[0]] + Split(t, ';')[1..]
  {
    var s, r := SENTINEL + t, Split(t, ';');
    var s1, s2, s3 := s[1..], s[2..], s[3..];
    assert s1[1..] == s2 && s2[1..] == s3 && s3[1..] == t;
    SplitTail(s3, ';');
    SplitTail(s2, ';');
    SplitTail(s1, ';');
    SplitTail(s, ';');
    assert Split(s, ';')[0] == SENTINEL + r[0];
    assert Split(s, ';')[1..] == r[1..];
  }

  /** On its way through guarding, splitting and restoring, a text loses nothing that the
      scan keeps, except that a sentinel of its own comes back as one `;`. */
  lemma {:induction false} GuardedRoundTrip(env: string)
    ensures var back := RestoreAll(Split(Guarded(env), ';'));
            && Total(back) <= Total(Scan(env))
            && (Contains(env, SENTINEL) ==> Total(back) < Total(Scan(env)))
            && (!Contains(env, SENTINEL) ==> back == Scan(env))
    decreases |env|
  {
    if env == "" {
    } else if ESCAPE <= env {
      var rest := Split(Guarded(env[2..]), ';');
      GuardedRoundTrip(env[2..]);
      SplitSentinel(Guarded(env[2..]));
      RestoreSentinel(rest);
      TotalPrepend(';', RestoreAll(rest));
      TotalPrepend(';', Scan(env[2..]));
      assert env[1..][1..] == env[2..];
      assert Contains(env, SENTINEL) == Contains(env[2..], SENTINEL);
    } else if env[0] == ';' {
      var rest := Split(Guarded(env[1..]), ';');
      GuardedRoundTrip(env[1..]);
      assert Guarded(env)[1..] == Guarded(env[1..]);
      RestoreEmpty(rest);
      TotalEmpty(RestoreAll(rest));
      TotalEmpty(Scan(env[1..]));
    } else if SENTINEL <= env {
      OwnSentinel(env);
    } else {
      var rest := Split(Guarded(env[1..]), ';');
      GuardedRoundTrip(env[1..]);
      assert Guarded(env)[1..] == Guarded(env[1..]);
      NoNewSentinel(env);
      RestorePrepend(env[0], rest);
      TotalPrepend(env[0], RestoreAll(rest));
      TotalPrepend(env[0], Scan(env[1..]));
    }
  }

  lemma StartsWithEscape(s: string)
    ensures ESCAPE <= s <==> |s| >= 2 && s[0] == '\\' && s[1] == ';'
  {
    assert ESCAPE[0] == '\\' && ESCAPE[1] == ';';
  }

  lemma GuardedLiteral(c: char, t: string)
    requires c != '\\'
    ensures Guarded([c] + t) == [c] + Guarded(t)
  {
    assert ([c] + t)[1..] == t;
    StartsWithEscape([c] + t);
  }

  lemma ScanLiteral(c: char, t: string)
    requires c != '\\' && c != ';'
    ensures Total(Scan([c] + t)) == 1 + Total(Scan(t))
  {
    assert ([c] + t)[1..] == t;
    StartsWithEscape([c] + t);
    TotalPrepend(c, Scan(t));
  }

  lemma {:induction false} OwnSentinel(env: string)
    requires SENTINEL <= env
    ensures Contains(env, SENTINEL)
    ensures Total(RestoreAll(Split(Guarded(env), ';'))) < Total(Scan(env))
    decreases |env|, 0
  {
    var e4 := env[4..];
    var e3 := [SENTINEL[3]] + e4;
    var e2 := [SENTINEL[2]] + e3;
    var e1 := [SENTINEL[1]] + e2;
    assert env == [SENTINEL[0]] + e1;
    GuardedRoundTrip(e4);
    GuardedLiteral(SENTINEL[3], e4);
    GuardedLiteral(SENTINEL[2], e3);
    GuardedLiteral(SENTINEL[1], e2);
    GuardedLiteral(SENTINEL[0], e1);
    assert Guarded(env) == SENTINEL + Guarded(e4);
    ScanLiteral(SENTINEL[3], e4);
    ScanLiteral(SENTINEL[2], e3);
    ScanLiteral(SENTINEL[1], e2);
    ScanLiteral(SENTINEL[0], e1);
    var rest := Split(Guarded(e4), ';');
    SplitSentinel(Guarded(e4));
    RestoreSentinel(rest);
    TotalPrepend(';', RestoreAll(rest));
  }

  lemma {:induction false} PlainSplitIsScan(env: string)
    requires !Contains(env, ESCAPE)
    ensures Split(env, ';') == Scan(env)
  {
    if env != "" { PlainSplitIsScan(env[1..]); }
  }

  /** Main result: the sentinel trick is the one-pass scan exactly on the texts that do not
      hold both `\;` and the sentinel itself. */
  lemma SentinelSplitIsScan(env: string)
    ensures SentinelSplit(env) == Scan(env) <==> !(Contains(env, ESCAPE) && Contains(env, SENTINEL))
  {
    if Contains(env, ESCAPE) {
      GuardedRoundTrip(env);
    } else {
      PlainSplitIsScan(env);
    }
  }

  // ---- the inverse: what Porto prints

  function Escaped(s: string): string {
    ReplaceAll(s, ";", ESCAPE)
  }

  function Entry(v: EnvVar): string {
    v.name + "=" + v.value
  }

  /** The entries with `;` escaped, joined by `;`. */
  function Printed(vars: seq<EnvVar>): string {
    if vars == [] then ""
    else if |vars| == 1 then Escaped(Entry(vars[0]))
    else Escaped(Entry(vars[0])) + ";" + Printed(vars[1..])
  }

  predicate EndsInBackslash(s: string) {
    s != "" && s[|s| - 1] == '\\'
  }

  /** A caller can check this before printing. */
  predicate OnlyLastEndsInBackslash(vars: seq<EnvVar>) {
    forall i :: 0 <= i < |vars| - 1 ==> !EndsInBackslash(Entry(vars[i]))
  }

  function PrependText(e: string, parts: seq<string>): seq<string>
    requires parts != []
  {
    [e + parts[0]] + parts[1..]
  }

  lemma PrependPrependText(c: char, e: string, parts: seq<string>)
    requires parts != []
    ensures Prepend(c, PrependText(e, parts)) == PrependText([c] + e, parts)
  {
    assert [c] + (e + parts[0]) == [c] + e + parts[0];
  }

  lemma EscapedTail(e: string)
    requires e != ""
    ensures e[0] == ';' ==> Escaped(e) == ESCAPE + Escaped(e[1..])
    ensures e[0] != ';' ==> Escaped(e) == [e[0]] + Escaped(e[1..])
  {
    assert ";" <= e <==> e[0] == ';';
  }

  lemma ScanChar(c: char, t: string)
    requires c != ';' && (c == '\\' ==> t == "" || t[0] != ';')
    ensures Scan([c] + t) == Prepend(c, Scan(t))
  {
    assert ([c] + t)[1..] == t;
    StartsWithEscape([c] + t);
  }

  lemma ScanEscape(t: string)
    ensures Scan(ESCAPE + t) == Prepend(';', Scan(t))
  {
    assert (ESCAPE + t)[2..] == t;
  }

  lemma EscapedFirst(e: string)
    requires e != ""
    ensures Escaped(e) != "" && Escaped(e)[0] != ';'
  {
    EscapedTail(e);
  }

  lemma ScanEscapedHead(e: string, rest: string)
    requires e != "" && (e == "\\" ==> rest == "" || rest[0] != ';')
    ensures Scan(Escaped(e) + rest) == Prepend(e[0], Scan(Escaped(e[1..]) + rest))
  {
    var t := Escaped(e[1..]) + rest;
    EscapedTail(e);
    if e[0] == ';' {
      ScanEscape(t);
      Assoc(ESCAPE, Escaped(e[1..]), rest);
    } else {
      if e[1..] == "" { assert t == rest && e == [e[0]]; } else { EscapedFirst(e[1..]); }
      ScanChar(e[0], t);
      Assoc([e[0]], Escaped(e[1..]), rest);
    }
  }

  /** An escaped entry is read back whole, unless its last backslash meets a separator. */
  lemma {:induction false} ScanEscaped(e: string, rest: string)
    requires EndsInBackslash(e) ==> rest == "" || rest[0] != ';'
    ensures Scan(Escaped(e) + rest) == PrependText(e, Scan(rest))
  {
    if e == "" {
      assert Escaped(e) + rest == rest && e + Scan(rest)[0] == Scan(rest)[0];
    } else {
      ScanEscaped(e[1..], rest);
      ScanEscapedHead(e, rest);
      PrependPrependText(e[0], e[1..], Scan(rest));
      assert [e[0]] + e[1..] == e;
    }
  }

  lemma {:induction false} EscapedSnoc(e: string, c: char)
    requires c != ';'
    ensures Escaped(e + [c]) == Escaped(e) + [c]
  {
    if e == "" {
      assert e + [c] == [c];
      EscapedTail([c]);
    } else {
      assert (e + [c])[1..] == e[1..] + [c];
      EscapedSnoc(e[1..], c);
      EscapedTail(e + [c]);
      EscapedTail(e);
    }
  }

  /** The separator after an entry that ends in a backslash is swallowed. */
  lemma ScanSwallowed(e: string, rest: string)
    requires EndsInBackslash(e)
    ensures |Scan(Escaped(e) + ";" + rest)| == |Scan(rest)|
  {
    var e' := e[..|e| - 1];
    assert e == e' + "\\";
    EscapedSnoc(e', '\\');
    var tail := ESCAPE + rest;
    assert Escaped(e) + ";" + rest == Escaped(e') + tail;
    ScanEscaped(e', tail);
    assert tail[2..] == rest;
  }

  function Entries(vars: seq<EnvVar>): seq<string> {
    if vars == [] then [] else [Entry(vars[0])] + Entries(vars[1..])
  }

  lemma {:induction false} ScanPrinted(vars: seq<EnvVar>)
    requires vars != []
    ensures |Scan(Printed(vars))| <= |vars|
    ensures OnlyLastEndsInBackslash(vars) ==> Scan(Printed(vars)) == Entries(vars)
    ensures !OnlyLastEndsInBackslash(vars) ==> |Scan(Printed(vars))| < |vars|
  {
    var e := Entry(vars[0]);
    if |vars| == 1 {
      assert Escaped(e) + "" == Escaped(e);
      ScanEscaped(e, "");
      assert e + "" == e;
    } else {
      var rest := Printed(vars[1..]);
      ScanPrinted(vars[1..]);
      assert OnlyLastEndsInBackslash(vars) <==> !EndsInBackslash(e) && OnlyLastEndsInBackslash(vars[1..]) by {
        assert forall i :: 0 <= i < |vars| - 2 ==> vars[1..][i] == vars[i + 1];
        assert forall i :: 1 <= i < |vars| - 1 ==> vars[i] == vars[1..][i - 1];
      }
      if EndsInBackslash(e) {
        ScanSwallowed(e, rest);
      } else {
        assert Escaped(e) + ";" + rest == Escaped(e) + (";" + rest);
        ScanEscaped(e, ";" + rest);
        assert (";" + rest)[1..] == rest;
        assert Scan(";" + rest) == [""] + Scan(rest);
        assert e + "" == e;
      }
    }
  }

  lemma {:induction false} VarsOfEntries(vars: seq<EnvVar>)
    requires Named(vars)
    ensures VarsOf(Entries(vars)) == vars
  {
    if vars != [] {
      VarsOfEntries(vars[1..]);
      CutConcat(vars[0].name, '=', vars[0].value);
    }
  }

  predicate Named(vars: seq<EnvVar>) {
    forall i :: 0 <= i < |vars| ==> '=' !in vars[i].name
  }

  lemma {:induction false} VarsAreNamed(parts: seq<string>)
    ensures Named(VarsOf(parts))
  {
    if parts != [] { VarsAreNamed(parts[1..]); }
  }

  /** Main result: printing then scanning gives the variables back if and only if no name holds
      a `=` and no entry but the last ends in a backslash. */
  lemma PrintedRoundTrip(vars: seq<EnvVar>)
    ensures VarsOf(Scan(Printed(vars))) == vars <==> Named(vars) && OnlyLastEndsInBackslash(vars)
  {
    VarsAreNamed(Scan(Printed(vars)));
    if vars == [] {
      assert VarsOf([""]) == [];
    } else {
      ScanPrinted(vars);
      if Named(vars) { VarsOfEntries(vars); }
    }
  }

  // ---- the sentinel cannot appear by printing

  lemma {:induction false} ContainsConcat(a: string, sep: char, b: string, sub: string)
    requires sub != "" && sep !in sub && Contains(a + [sep] + b, sub)
    ensures Contains(a, sub) || Contains(b, sub)
  {
    var s := a + [sep] + b;
    if sub <= s {
      assert forall i :: 0 <= i < |sub| ==> sub[i] == s[i] && sub[i] in sub;
      assert s[|a|] == sep;
      assert sub <= a;
    } else if a == "" {
      assert s[1..] == b;
    } else {
      assert s[1..] == a[1..] + [sep] + b;
      ContainsConcat(a[1..], sep, b, sub);
    }
  }

  lemma {:induction false} EscapedPrefix(e: string, w: string)
    requires w <= Escaped(e) && ';' !in w && '\\' !in w
    ensures w <= e
  {
    if w != "" {
      assert e != "";
      EscapedTail(e);
      assert w[0] in w && Escaped(e)[0] == w[0];
      assert Escaped(e)[1..] == Escaped(e[1..]);
      EscapedPrefix(e[1..], w[1..]);
    }
  }

  lemma {:induction false} EscapedContains(e: string)
    requires Contains(Escaped(e), SENTINEL)
    ensures Contains(e, SENTINEL)
  {
    if e != "" {
      EscapedTail(e);
      var t := Escaped(e[1..]);
      if SENTINEL <= Escaped(e) {
        EscapedPrefix(e, SENTINEL);
      } else if e[0] == ';' {
        var u := (ESCAPE + t)[1..];
        assert u[0] == ';' && u[1..] == t;
        assert !(SENTINEL <= u);
        EscapedContains(e[1..]);
      } else {
        assert ([e[0]] + t)[1..] == t;
        EscapedContains(e[1..]);
      }
    }
  }

  lemma {:induction false} PrintedContains(vars: seq<EnvVar>)
    requires Contains(Printed(vars), SENTINEL)
    ensures exists v <- vars :: Contains(Entry(v), SENTINEL)
  {
    if |vars| == 1 {
      EscapedContains(Entry(vars[0]));
    } else if vars != [] {
      var e := Escaped(Entry(vars[0]));
      ContainsConcat(e, ';', Printed(vars[1..]), SENTINEL);
      if Contains(e, SENTINEL) {
        EscapedContains(Entry(vars[0]));
        assert vars[0] in vars;
      } else {
        PrintedContains(vars[1..]);
        var v :| v in vars[1..] && Contains(Entry(v), SENTINEL);
        assert v in vars;
      }
    }
  }

  // ---- and what is in an entry is in the printed text

  lemma {:induction false} ContainsLeft(a: string, b: string, sub: string)
    requires Contains(a, sub)
    ensures Contains(a + b, sub)
  {
    if sub <= a {
      assert sub <= a + b;
    } else {
      ContainsLeft(a[1..], b, sub);
      assert (a + b)[1..] == a[1..] + b;
    }
  }

  lemma {:induction false} ContainsRight(a: string, b: string, sub: string)
    requires Contains(b, sub)
    ensures Contains(a + b, sub)
  {
    if a == "" {
      assert a + b == b;
    } else {
      ContainsRight(a[1..], b, sub);
      assert (a + b)[1..] == a[1..] + b;
    }
  }

  lemma {:induction false} PrefixEscaped(e: string, w: string)
    requires w <= e && ';' !in w
    ensures w <= Escaped(e)
  {
    if w != "" {
      assert w[0] in w && w[0] == e[0];
      EscapedTail(e);
      PrefixEscaped(e[1..], w[1..]);
    }
  }

  lemma {:induction false} ContainsEscaped(e: string)
    ensures Contains(e, SENTINEL) ==> Contains(Escaped(e), SENTINEL)
    ensures ';' in e ==> Contains(Escaped(e), ESCAPE)
  {
    if e != "" {
      EscapedTail(e);
      ContainsEscaped(e[1..]);
      var head, t := if e[0] == ';' then ESCAPE else [e[0]], Escaped(e[1..]);
      if Contains(t, SENTINEL) { ContainsRight(head, t, SENTINEL); }
      if Contains(t, ESCAPE) { ContainsRight(head, t, ESCAPE); }
      if SENTINEL <= e { PrefixEscaped(e, SENTINEL); }
      if e[0] == ';' { ContainsLeft(ESCAPE, t, ESCAPE); }
    }
  }

  lemma {:induction false} ContainsPrinted(vars: seq<EnvVar>, v: EnvVar)
    requires v in vars
    ensures Contains(Entry(v), SENTINEL) ==> Contains(Printed(vars), SENTINEL)
    ensures ';' in Entry(v) ==> Contains(Printed(vars), ESCAPE)
  {
    hide Escaped;
    var e := Escaped(Entry(vars[0]));
    ContainsEscaped(Entry(v));
    if |vars| > 1 {
      var rest := Printed(vars[1..]);
      assert Printed(vars) == e + (";" + rest) == e + ";" + rest;
      if v == vars[0] {
        if Contains(e, SENTINEL) { ContainsLeft(e, ";" + rest, SENTINEL); }
        if Contains(e, ESCAPE) { ContainsLeft(e, ";" + rest, ESCAPE); }
      } else {
        ContainsPrinted(vars[1..], v);
        if Contains(rest, SENTINEL) { ContainsRight(e + ";", rest, SENTINEL); }
        if Contains(rest, ESCAPE) { ContainsRight(e + ";", rest, ESCAPE); }
      }
    }
  }

  // ---- without a `;` of their own, entries give no `\;`

  lemma {:induction false} EscapedPlain(e: string)
    requires ';' !in e
    ensures Escaped(e) == e
  {
    if e != "" {
      EscapedTail(e);
      EscapedPlain(e[1..]);
    }
  }

  lemma {:induction false} NoEscapeAcross(e: string, rest: string)
    requires ';' !in e && !EndsInBackslash(e) && Contains(e + ";" + rest, ESCAPE)
    ensures Contains(rest, ESCAPE)
  {
    var s := e + ";" + rest;
    StartsWithEscape(s);
    if e == "" {
      assert s[1..] == rest;
    } else {
      assert e[|e| - 1] != '\\' && e[0] == s[0] && (|e| > 1 ==> s[1] == e[1] && e[1] in e);
      assert s[1..] == e[1..] + ";" + rest;
      NoEscapeAcross(e[1..], rest);
    }
  }

  lemma {:induction false} NoEscapeWithin(e: string)
    requires Contains(e, ESCAPE)
    ensures ';' in e
  {
    StartsWithEscape(e);
    if !(ESCAPE <= e) { NoEscapeWithin(e[1..]); }
  }

  lemma {:induction false} NoSemicolonNoEscape(vars: seq<EnvVar>)
    requires OnlyLastEndsInBackslash(vars) && forall v <- vars :: ';' !in Entry(v)
    ensures !Contains(Printed(vars), ESCAPE)
  {
    hide Escaped;
    if vars != [] {
      assert vars[0] in vars;
      EscapedPlain(Entry(vars[0]));
      if |vars| > 1 {
        assert forall i :: 0 <= i < |vars| - 2 ==> vars[1..][i] == vars[i + 1];
        NoSemicolonNoEscape(vars[1..]);
      }
      if Contains(Printed(vars), ESCAPE) {
        if |vars| == 1 { NoEscapeWithin(Entry(vars[0])); } else { NoEscapeAcross(Entry(vars[0]), Printed(vars[1..])); }
      }
    }
  }

  /** Some entry holds a `;` and some entry holds the sentinel. A caller can check this. */
  ghost predicate Clashes(vars: seq<EnvVar>) {
    (exists v <- vars :: ';' in Entry(v)) && (exists v <- vars :: Contains(Entry(v), SENTINEL))
  }

  lemma ClashesExactly(vars: seq<EnvVar>)
    requires OnlyLastEndsInBackslash(vars)
    ensures Clashes(vars) <==> Contains(Printed(vars), ESCAPE) && Contains(Printed(vars), SENTINEL)
  {
    hide OnlyLastEndsInBackslash, Contains, Printed;
    if Contains(Printed(vars), ESCAPE) && Contains(Printed(vars), SENTINEL) {
      if forall v <- vars :: ';' !in Entry(v) { NoSemicolonNoEscape(vars); }
      PrintedContains(vars);
    }
    forall v | v in vars
      ensures Contains(Entry(v), SENTINEL) ==> Contains(Printed(vars), SENTINEL)
      ensures ';' in Entry(v) ==> Contains(Printed(vars), ESCAPE)
    {
      ContainsPrinted(vars, v);
    }
  }

  // ---- what comes back is not longer and has no more entries

  lemma {:induction false} VarsNotLonger(parts: seq<string>)
    ensures Total(Entries(VarsOf(parts))) <= Total(parts)
  {
    if parts != [] {
      VarsNotLonger(parts[1..]);
      var cut, rest := Cut(parts[0], '='), VarsOf(parts[1..]);
      if cut.Some? {
        var v := EnvVar(cut.value.0, cut.value.1);
        assert Entry(v) == parts[0];
        assert VarsOf(parts) == [v] + rest && ([v] + rest)[1..] == rest;
      } else {
        assert VarsOf(parts) == rest;
      }
    }
  }

  lemma {:induction false} SameCount(env: string)
    ensures |Split(Guarded(env), ';')| == |Scan(env)|
    decreases |env|
  {
    if env == "" {
    } else if ESCAPE <= env {
      SameCount(env[2..]);
      SplitSentinel(Guarded(env[2..]));
    } else {
      SameCount(env[1..]);
      assert Guarded(env)[1..] == Guarded(env[1..]);
    }
  }

  /** Main result for the shim itself: prepareExecEnv reads back what Porto printed if and only
      if no name holds a `=`, no entry but the last ends in a backslash, and the entries do not
      hold both a `;` and the sentinel. */
  lemma ExecEnvRoundTrip(vars: seq<EnvVar>)
    ensures VarsOf(SentinelSplit(Printed(vars))) == vars <==> Named(vars) && OnlyLastEndsInBackslash(vars) && !Clashes(vars)
  {
    hide Named, OnlyLastEndsInBackslash, Clashes, Contains, Scan, Printed, VarsOf, Entries, Total;
    var env := Printed(vars);
    if OnlyLastEndsInBackslash(vars) { ClashesExactly(vars); }
    SentinelSplitIsScan(env);
    PrintedRoundTrip(vars);
    if Contains(env, ESCAPE) && Contains(env, SENTINEL) {
      if OnlyLastEndsInBackslash(vars) { ClashBreaks(vars); } else { SwallowedBreaks(vars); }
    }
  }

  lemma PrintedNothing(vars: seq<EnvVar>)
    requires Contains(Printed(vars), ESCAPE)
    ensures vars != []
  {
  }

  lemma ClashBreaks(vars: seq<EnvVar>)
    requires OnlyLastEndsInBackslash(vars) && Contains(Printed(vars), ESCAPE) && Contains(Printed(vars), SENTINEL)
    ensures VarsOf(SentinelSplit(Printed(vars))) != vars
  {
    hide OnlyLastEndsInBackslash, Contains, Scan, Printed, VarsOf, Entries, Total, RestoreAll;
    PrintedNothing(vars);
    ScanPrinted(vars);
    GuardedRoundTrip(Printed(vars));
    VarsNotLonger(SentinelSplit(Printed(vars)));
  }

  lemma SwallowedBreaks(vars: seq<EnvVar>)
    requires !OnlyLastEndsInBackslash(vars) && Contains(Printed(vars), ESCAPE)
    ensures VarsOf(SentinelSplit(Printed(vars))) != vars
  {
    hide OnlyLastEndsInBackslash, Contains, Scan, Printed;
    PrintedNothing(vars);
    ScanPrinted(vars);
    SameCount(Printed(vars));
  }
}
