/** Resolution of a path inside the root of a container: resolveInRoot
    (cmd/portoshim/cdi.go).

    The meaning of a path is given by single steps that know no bound. The loop of the code
    adds the budget of 40 symlinks; the results below say exactly how the two relate.
 */
module Resolve {
  import opened GoStrings
  import opened GoPaths

  /** What readlink says about a symlink. */
  datatype Link = Target(dest: string) | Unreadable

  /** The symlinks of the root, by their path in the container. They do not change while a
      path is resolved. */
  type Root = map<string, Link>

  datatype Result = Ok(path: string) | TooManySymlinks | ReadFailed

  const MAX_SYMLINKS: nat := 40

  // ---- the meaning

  /** The part that is resolved, and the components that are left. */
  datatype State = State(current: seq<string>, parts: seq<string>)

  datatype Step = Done | Move(next: State) | Expand(next: State) | Stuck

  function StepOf(root: Root, s: State): Step {
    if s.parts == [] then Done
    else
      var part, rest := s.parts[0], s.parts[1..];
      if part == "" || part == "." then Move(State(s.current, rest))
      else if part == ".." then Move(State(Up(s.current), rest))
      else
        var next := s.current + [part];
        if Render(next) !in root then Move(State(next, rest))
        else match root[Render(next)]
          case Unreadable => Stuck
          case Target(dest) => Expand(State(if IsAbs(dest) then [] else s.current, Split(dest, '/') + rest))
  }

  function Up(current: seq<string>): seq<string> {
    if current == [] then [] else current[..|current| - 1]
  }

  /** From s to t in n steps, links of which follow a symlink. */
  ghost predicate Runs(root: Root, s: State, n: nat, links: nat, t: State)
    decreases n
  {
    if n == 0 then links == 0 && s == t
    else match StepOf(root, s)
      case Move(next) => Runs(root, next, n - 1, links, t)
      case Expand(next) => links > 0 && Runs(root, next, n - 1, links - 1, t)
      case _ => false
  }

  function Start(path: string): State {
    State([], Split(path, '/'))
  }

  /** Resolving the path comes to t, through this many symlinks. No bound of any kind. */
  ghost predicate Reaches(root: Root, path: string, links: nat, t: State) {
    exists n: nat :: Runs(root, Start(path), n, links, t)
  }

  /** The path means r. */
  ghost predicate Resolves(root: Root, path: string, links: nat, r: seq<string>) {
    Reaches(root, path, links, State(r, []))
  }

  predicate AtLink(root: Root, s: State) {
    StepOf(root, s).Expand? || StepOf(root, s).Stuck?
  }

  // ---- the code

  /** The loop as a function: lexicographically decreasing in budget and worklist. */
  function Walk(root: Root, s: State, budget: nat): Result
    decreases budget, |s.parts|
  {
    match StepOf(root, s)
    case Done => Ok(Render(s.current))
    case Move(next) => Walk(root, next, budget)
    case Expand(next) => if budget == 0 then TooManySymlinks else Walk(root, next, budget - 1)
    case Stuck => if budget == 0 then TooManySymlinks else ReadFailed
  }

  method ResolveInRoot(root: Root, path: string) returns (r: Result)
    ensures r == Walk(root, Start(path), MAX_SYMLINKS)
  {
    hide Split, Clean, Dir, JoinPath, Render, Walk, Names;
    var symlinks: nat := 0;
    var current := "/";
    var parts := Split(path, '/');
    ghost var s := Start(path);
    StartNames(path);
    while |parts| > 0
      invariant symlinks <= MAX_SYMLINKS
      invariant Names(s) && current == Render(s.current) && parts == s.parts
      invariant Walk(root, s, MAX_SYMLINKS - symlinks) == Walk(root, Start(path), MAX_SYMLINKS)
      decreases MAX_SYMLINKS - symlinks, |parts|
    {
      StepNames(root, s);
      WalkStep(root, s, MAX_SYMLINKS - symlinks);
      var part := parts[0];
      parts := parts[1..];
      if part == "" || part == "." {
        s := State(s.current, parts);
        continue;
      }
      if part == ".." {
        current := Dir(current);
        s := State(Up(s.current), parts);
        continue;
      }
      var next := JoinPath(current, part);
      if next !in root {
        current := next;
        s := State(s.current + [part], parts);
        continue;
      }
      if symlinks + 1 > MAX_SYMLINKS {
        return TooManySymlinks;
      }
      symlinks := symlinks + 1;
      match root[next] {
        case Unreadable =>
          return ReadFailed;
        case Target(dest) =>
          if IsAbs(dest) {
            current := "/";
          }
          parts := Split(dest, '/') + parts;
          s := State(if IsAbs(dest) then [] else s.current, parts);
      }
    }
    WalkStep(root, s, MAX_SYMLINKS - symlinks);
    r := Ok(current);
  }

  /** What the path text functions rely on. */
  predicate Names(s: State) {
    AllNames(s.current) && forall i :: 0 <= i < |s.parts| ==> '/' !in s.parts[i]
  }

  lemma StartNames(path: string)
    ensures Names(Start(path)) && Render([]) == "/"
  {
    JoinSplit(path, '/');
  }

  /** The text functions do what the step says, and the steps keep to names. */
  lemma StepNames(root: Root, s: State)
    requires Names(s) && s.parts != []
    ensures Dir(Render(s.current)) == Render(Up(s.current)) && Render([]) == "/"
    ensures IsName(s.parts[0]) || s.parts[0] in ["", ".", ".."]
    ensures IsName(s.parts[0]) ==> JoinPath(Render(s.current), s.parts[0]) == Render(s.current + [s.parts[0]])
    ensures StepOf(root, s).Move? || StepOf(root, s).Expand? ==> Names(StepOf(root, s).next)
  {
    StartNames("");
    DirRender(s.current);
    hide Render, Dir, JoinPath, Split;
    var part := s.parts[0];
    if IsName(part) {
      JoinRender(s.current, part);
      var next := Render(s.current + [part]);
      if next in root && root[next].Target? { JoinSplit(root[next].dest, '/'); }
    }
  }

  /** The path resolves to itself. */
  ghost predicate Fixed(root: Root, path: string) {
    Walk(root, Start(path), MAX_SYMLINKS) == Ok(path)
  }

  lemma WalkStep(root: Root, s: State, budget: nat)
    ensures Walk(root, s, budget) == match StepOf(root, s)
              case Done => Ok(Render(s.current))
              case Move(next) => Walk(root, next, budget)
              case Expand(next) => if budget == 0 then TooManySymlinks else Walk(root, next, budget - 1)
              case Stuck => if budget == 0 then TooManySymlinks else ReadFailed
  {
  }

  // ---- the loop computes the meaning, cut off at the budget

  /** Running for a while does not change the answer. */
  lemma {:induction false} WalkRuns(root: Root, s: State, n: nat, links: nat, t: State, budget: nat)
    requires Runs(root, s, n, links, t) && links <= budget
    ensures Walk(root, s, budget) == Walk(root, t, budget - links)
    decreases n
  {
    if n > 0 {
      match StepOf(root, s)
      case Move(next) => WalkRuns(root, next, n - 1, links, t, budget);
      case Expand(next) => WalkRuns(root, next, n - 1, links - 1, t, budget - 1);
    }
  }

  /** The run that the loop takes, up to the state where it answers. */
  lemma {:induction false} WalkWitness(root: Root, s: State, budget: nat) returns (n: nat, links: nat, t: State)
    ensures Runs(root, s, n, links, t) && links <= budget
    ensures StepOf(root, t).Done? || (StepOf(root, t).Stuck? && links < budget) || (AtLink(root, t) && links == budget)
    decreases budget, |s.parts|
  {
    match StepOf(root, s)
    case Done => n, links, t := 0, 0, s;
    case Stuck => n, links, t := 0, 0, s;
    case Move(next) =>
      n, links, t := WalkWitness(root, next, budget);
      n := n + 1;
    case Expand(next) =>
      if budget == 0 {
        n, links, t := 0, 0, s;
      } else {
        n, links, t := WalkWitness(root, next, budget - 1);
        n, links := n + 1, links + 1;
      }
  }

  /** Main result: success means that the unbounded resolution ends there with at most 40
      symlinks, and the other way round. */
  lemma ResolvesExactly(root: Root, path: string, text: string)
    ensures Walk(root, Start(path), MAX_SYMLINKS) == Ok(text) <==>
            exists links: nat, r :: links <= 40 && Resolves(root, path, links, r) && text == Render(r)
  {
    var n, links, t := WalkWitness(root, Start(path), MAX_SYMLINKS);
    WalkRuns(root, Start(path), n, links, t, MAX_SYMLINKS);
    if StepOf(root, t).Done? {
      assert t == State(t.current, []);
      assert Resolves(root, path, links, t.current) by { assert Reaches(root, path, links, t); }
    }
    forall links': nat, r | links' <= MAX_SYMLINKS && Resolves(root, path, links', r)
      ensures Walk(root, Start(path), MAX_SYMLINKS) == Ok(Render(r))
    {
      var n' :| Runs(root, Start(path), n', links', State(r, []));
      WalkRuns(root, Start(path), n', links', State(r, []), MAX_SYMLINKS);
    }
  }

  /** Main result: the error is given exactly when a 41st symlink is met. */
  lemma TooManyExactly(root: Root, path: string)
    ensures Walk(root, Start(path), MAX_SYMLINKS) == TooManySymlinks <==>
            exists t :: Reaches(root, path, 40, t) && AtLink(root, t)
  {
    var n, links, t := WalkWitness(root, Start(path), MAX_SYMLINKS);
    WalkRuns(root, Start(path), n, links, t, MAX_SYMLINKS);
    assert Reaches(root, path, links, t);
    forall t' | Reaches(root, path, MAX_SYMLINKS, t') && AtLink(root, t')
      ensures Walk(root, Start(path), MAX_SYMLINKS) == TooManySymlinks
    {
      var n': nat :| Runs(root, Start(path), n', MAX_SYMLINKS, t');
      WalkRuns(root, Start(path), n', MAX_SYMLINKS, t', MAX_SYMLINKS);
      assert Walk(root, t', 0) == TooManySymlinks;
    }
  }

  /** The remaining outcome: a symlink within the budget that cannot be read. */
  lemma ReadFailedExactly(root: Root, path: string)
    ensures Walk(root, Start(path), MAX_SYMLINKS) == ReadFailed <==>
            exists links: nat, t :: links < 40 && Reaches(root, path, links, t) && StepOf(root, t).Stuck?
  {
    var n, links, t := WalkWitness(root, Start(path), MAX_SYMLINKS);
    WalkRuns(root, Start(path), n, links, t, MAX_SYMLINKS);
    assert Reaches(root, path, links, t);
    forall links': nat, t' | links' < MAX_SYMLINKS && Reaches(root, path, links', t') && StepOf(root, t').Stuck?
      ensures Walk(root, Start(path), MAX_SYMLINKS) == ReadFailed
    {
      var n': nat :| Runs(root, Start(path), n', links', t');
      WalkRuns(root, Start(path), n', links', t', MAX_SYMLINKS);
      assert Walk(root, t', MAX_SYMLINKS - links') == ReadFailed;
    }
  }

  // ---- runs compose

  lemma {:induction false} RunsThen(root: Root, s: State, n: nat, links: nat, t: State, n': nat, links': nat, u: State)
    requires Runs(root, s, n, links, t) && Runs(root, t, n', links', u)
    ensures Runs(root, s, n + n', links + links', u)
    decreases n
  {
    if n > 0 {
      match StepOf(root, s)
      case Move(next) => RunsThen(root, next, n - 1, links, t, n', links', u);
      case Expand(next) => RunsThen(root, next, n - 1, links - 1, t, n', links', u);
    }
  }

  /** The steps are deterministic: a run that ends passes through every state that is reached. */
  lemma {:induction false} RunsSuffix(root: Root, s: State, n: nat, links: nat, t: State, n': nat, links': nat, r: seq<string>)
    requires Runs(root, s, n, links, t) && Runs(root, s, n', links', State(r, []))
    ensures n <= n' && links <= links' && Runs(root, t, n' - n, links' - links, State(r, []))
    decreases n
  {
    if n > 0 {
      match StepOf(root, s)
      case Move(next) => RunsSuffix(root, next, n - 1, links, t, n' - 1, links', r);
      case Expand(next) => RunsSuffix(root, next, n - 1, links - 1, t, n' - 1, links' - 1, r);
    }
  }

  function More(s: State, q: seq<string>): State {
    State(s.current, s.parts + q)
  }

  lemma StepMore(root: Root, s: State, q: seq<string>)
    requires s.parts != []
    ensures match StepOf(root, s)
            case Move(next) => StepOf(root, More(s, q)) == Move(More(next, q))
            case Expand(next) => StepOf(root, More(s, q)) == Expand(More(next, q))
            case other => StepOf(root, More(s, q)) == other
  {
    hide Render, Split;
    var rest := s.parts[1..];
    assert (s.parts + q)[0] == s.parts[0] && (s.parts + q)[1..] == rest + q;
    var next := Render(s.current + [s.parts[0]]);
    if next in root && root[next].Target? {
      var d := Split(root[next].dest, '/');
      assert d + (rest + q) == d + rest + q;
    }
  }

  /** Components that come later do not matter until it is their turn. */
  lemma {:induction false} RunsMore(root: Root, s: State, n: nat, links: nat, t: State, q: seq<string>)
    requires Runs(root, s, n, links, t)
    ensures Runs(root, More(s, q), n, links, More(t, q))
    decreases n
  {
    if n > 0 {
      StepMore(root, s, q);
      match StepOf(root, s)
      case Move(next) => RunsMore(root, next, n - 1, links, t, q);
      case Expand(next) => RunsMore(root, next, n - 1, links - 1, t, q);
    }
  }

  /** A run to the end first consumes the first components, then the others. */
  lemma {:induction false} RunsCut(root: Root, s: State, q: seq<string>, n: nat, links: nat, r: seq<string>)
    returns (c: seq<string>, n1: nat, links1: nat)
    requires Runs(root, More(s, q), n, links, State(r, []))
    ensures n1 <= n && links1 <= links
    ensures Runs(root, s, n1, links1, State(c, []))
    ensures Runs(root, State(c, q), n - n1, links - links1, State(r, []))
    decreases n
  {
    hide StepOf;
    if s.parts == [] {
      assert More(s, q) == State(s.current, q) && s == State(s.current, []);
      return s.current, 0, 0;
    }
    StepMore(root, s, q);
    match StepOf(root, s)
    case Move(next) =>
      c, n1, links1 := RunsCut(root, next, q, n - 1, links, r);
      n1 := n1 + 1;
    case Expand(next) =>
      c, n1, links1 := RunsCut(root, next, q, n - 1, links - 1, r);
      n1, links1 := n1 + 1, links1 + 1;
  }

  // ---- results are canonical

  /** Names only, and no prefix is a symlink. */
  ghost predicate Canonical(root: Root, names: seq<string>) {
    && AllNames(names)
    && (forall i :: 0 < i <= |names| ==> Render(names[..i]) !in root)
  }

  lemma CanonicalStep(root: Root, current: seq<string>, part: string)
    requires Canonical(root, current) && IsName(part) && Render(current + [part]) !in root
    ensures Canonical(root, current + [part])
  {
    hide Render, IsName;
    var next := current + [part];
    forall i | 0 < i <= |next| ensures Render(next[..i]) !in root {
      if i <= |current| { assert next[..i] == current[..i]; } else { assert next[..i] == next; }
    }
  }

  lemma CanonicalUp(root: Root, current: seq<string>)
    requires Canonical(root, current)
    ensures Canonical(root, Up(current))
  {
    hide Render;
    var up := Up(current);
    forall i | 0 < i <= |up| ensures Render(up[..i]) !in root { assert up[..i] == current[..i]; }
  }

  ghost predicate Sound(root: Root, s: State) {
    Canonical(root, s.current) && forall i :: 0 <= i < |s.parts| ==> '/' !in s.parts[i]
  }

  lemma StepSound(root: Root, s: State)
    requires Sound(root, s)
    ensures StepOf(root, s).Move? || StepOf(root, s).Expand? ==> Sound(root, StepOf(root, s).next)
  {
    hide Render, Split, Canonical;
    if s.parts != [] {
      var part := s.parts[0];
      CanonicalUp(root, s.current);
      if IsName(part) && Render(s.current + [part]) !in root {
        CanonicalStep(root, s.current, part);
      } else if IsName(part) && root[Render(s.current + [part])].Target? {
        JoinSplit(root[Render(s.current + [part])].dest, '/');
        assert Canonical(root, []) by { assert AllNames([]); CanonicalEmpty(root); }
      }
    }
  }

  lemma CanonicalEmpty(root: Root)
    ensures Canonical(root, [])
  {
  }

  lemma {:induction false} RunsSound(root: Root, s: State, n: nat, links: nat, t: State)
    requires Sound(root, s) && Runs(root, s, n, links, t)
    ensures Sound(root, t)
    decreases n
  {
    if n > 0 {
      StepSound(root, s);
      match StepOf(root, s)
      case Move(next) => RunsSound(root, next, n - 1, links, t);
      case Expand(next) => RunsSound(root, next, n - 1, links - 1, t);
    }
  }

  lemma StartSound(root: Root, path: string)
    ensures Sound(root, Start(path))
  {
    JoinSplit(path, '/');
  }

  /** Main result: what a path resolves to is canonical. */
  lemma ResolvesCanonical(root: Root, path: string, links: nat, r: seq<string>)
    requires Resolves(root, path, links, r)
    ensures Canonical(root, r)
  {
    var n :| Runs(root, Start(path), n, links, State(r, []));
    StartSound(root, path);
    RunsSound(root, Start(path), n, links, State(r, []));
  }

  /** Walking down a canonical path meets no symlink. */
  lemma {:induction false} RunsDown(root: Root, current: seq<string>, names: seq<string>, q: seq<string>)
    requires Canonical(root, current + names)
    ensures Runs(root, State(current, names + q), |names|, 0, State(current + names, q))
    decreases |names|
  {
    hide Render, IsName;
    if names == [] {
      assert names + q == q && current + names == current;
    } else {
      var whole, next, rest := current + names, current + [names[0]], names[1..] + q;
      assert whole[..|current| + 1] == next && whole[|current|] == names[0];
      assert next + names[1..] == whole;
      var s := State(current, names + q);
      assert s.parts[0] == names[0] && s.parts[1..] == rest;
      assert IsName(s.parts[0]) && Render(next) !in root;
      NameSteps(root, s);
      RunsDown(root, next, names[1..], q);
    }
  }

  lemma NameSteps(root: Root, s: State)
    requires s.parts != [] && IsName(s.parts[0]) && Render(s.current + [s.parts[0]]) !in root
    ensures StepOf(root, s) == Move(State(s.current + [s.parts[0]], s.parts[1..]))
  {
  }

  lemma RunsEmpty(root: Root, current: seq<string>, q: seq<string>)
    ensures Runs(root, State(current, [""] + q), 1, 0, State(current, q))
  {
    assert ([""] + q)[1..] == q;
    assert Runs(root, State(current, q), 0, 0, State(current, q));
  }

  /** From the text of a canonical path, followed by more. */
  lemma RunsRender(root: Root, names: seq<string>, q: seq<string>) returns (n: nat)
    requires Canonical(root, names)
    ensures Runs(root, State([], Split(Render(names), '/') + q), n, 0, State(names, q))
  {
    hide Split, Runs, StepOf;
    SplitRender(names);
    var mid := if names == [] then [""] + q else names + q;
    assert Split(Render(names), '/') + q == [""] + mid;
    RunsEmpty(root, [], mid);
    assert [] + names == names;
    var k: nat := if names == [] then 1 else |names|;
    if names == [] { RunsEmpty(root, [], q); } else { RunsDown(root, [], names, q); }
    RunsThen(root, State([], [""] + mid), 1, 0, State([], mid), k, 0, State(names, q));
    n := 1 + k;
  }

  /** Main result: a result is a fixed point, and resolving it again follows no symlink. */
  lemma CanonicalFixed(root: Root, names: seq<string>)
    requires Canonical(root, names)
    ensures Resolves(root, Render(names), 0, names)
    ensures Fixed(root, Render(names))
  {
    hide Split, Render;
    var n := RunsRender(root, names, []);
    assert Split(Render(names), '/') + [] == Split(Render(names), '/');
    assert Runs(root, Start(Render(names)), n, 0, State(names, []));
    ResolvesExactly(root, Render(names), Render(names));
  }

  /** Main result: resolution composes. To resolve p/q is to resolve p to some c and then
      c/q, and the numbers of symlinks add up. */
  lemma ResolvesComposes(root: Root, p: string, q: string, links: nat, r: seq<string>)
    ensures Resolves(root, p + "/" + q, links, r) <==>
            exists c, links1: nat, links2: nat ::
              links == links1 + links2 && Resolves(root, p, links1, c) && Resolves(root, Render(c) + "/" + q, links2, r)
  {
    hide Split, Render, Runs;
    SplitConcat(p, '/', q);
    var qs := Split(q, '/');
    assert Start(p + "/" + q) == More(Start(p), qs);
    if Resolves(root, p + "/" + q, links, r) {
      var n :| Runs(root, Start(p + "/" + q), n, links, State(r, []));
      var c, n1, links1 := RunsCut(root, Start(p), qs, n, links, r);
      assert Resolves(root, p, links1, c);
      ResolvesUnder(root, p, links1, c, q, links - links1, n - n1, r);
    }
    forall c, links1: nat, links2: nat
      | links == links1 + links2 && Resolves(root, p, links1, c) && Resolves(root, Render(c) + "/" + q, links2, r)
      ensures Resolves(root, p + "/" + q, links, r)
    {
      ResolvesOnward(root, p, links1, c, q, links2, r);
    }
  }

  lemma ResolvesUnder(root: Root, p: string, links1: nat, c: seq<string>, q: string, links2: nat, n2: nat, r: seq<string>)
    requires Resolves(root, p, links1, c)
    requires Runs(root, State(c, Split(q, '/')), n2, links2, State(r, []))
    ensures Resolves(root, Render(c) + "/" + q, links2, r)
  {
    hide Split, Render, Runs;
    ResolvesCanonical(root, p, links1, c);
    var n := RunsRender(root, c, Split(q, '/'));
    SplitConcat(Render(c), '/', q);
    RunsThen(root, Start(Render(c) + "/" + q), n, 0, State(c, Split(q, '/')), n2, links2, State(r, []));
  }

  lemma ResolvesOnward(root: Root, p: string, links1: nat, c: seq<string>, q: string, links2: nat, r: seq<string>)
    requires Resolves(root, p, links1, c) && Resolves(root, Render(c) + "/" + q, links2, r)
    ensures Resolves(root, p + "/" + q, links1 + links2, r)
  {
    hide Split, Render, Runs;
    var qs := Split(q, '/');
    ResolvesCanonical(root, p, links1, c);
    SplitConcat(Render(c), '/', q);
    SplitConcat(p, '/', q);
    var n := RunsRender(root, c, qs);
    var n2 :| Runs(root, Start(Render(c) + "/" + q), n2, links2, State(r, []));
    RunsSuffix(root, Start(Render(c) + "/" + q), n, 0, State(c, qs), n2, links2, r);
    var n1 :| Runs(root, Start(p), n1, links1, State(c, []));
    RunsMore(root, Start(p), n1, links1, State(c, []), qs);
    assert More(Start(p), qs) == Start(p + "/" + q) && More(State(c, []), qs) == State(c, qs);
    RunsThen(root, Start(p + "/" + q), n1, links1, State(c, qs), n2 - n, links2, State(r, []));
  }

  // ---- what the components of a path mean

  ghost predicate Ends(root: Root, s: State, links: nat, r: seq<string>) {
    exists m: nat :: Runs(root, s, m, links, State(r, []))
  }

  /** Whatever is reached from s goes through t. */
  lemma Through(root: Root, s: State, n: nat, k: nat, t: State, links: nat, r: seq<string>)
    requires Runs(root, s, n, k, t)
    ensures Ends(root, s, links, r) <==> links >= k && Ends(root, t, links - k, r)
  {
    hide Runs;
    if Ends(root, s, links, r) {
      var m: nat :| Runs(root, s, m, links, State(r, []));
      RunsSuffix(root, s, n, k, t, m, links, r);
      assert Ends(root, t, links - k, r);
    }
    if links >= k && Ends(root, t, links - k, r) {
      var m: nat :| Runs(root, t, m, links - k, State(r, []));
      RunsThen(root, s, n, k, t, m, links - k, State(r, []));
      assert Ends(root, s, links, r);
    }
  }

  /** Down a directory without symlinks, up to the components that follow it. */
  lemma Down(root: Root, dir: seq<string>, q: seq<string>) returns (n: nat)
    requires Canonical(root, dir)
    ensures Runs(root, State([], [""] + dir + q), n, 0, State(dir, q))
  {
    hide Runs, Canonical;
    assert [""] + dir + q == [""] + (dir + q) && [] + dir == dir;
    RunsEmpty(root, [], dir + q);
    RunsDown(root, [], dir, q);
    RunsThen(root, State([], [""] + dir + q), 1, 0, State([], dir + q), |dir|, 0, State(dir, q));
    n := 1 + |dir|;
  }

  /** What a symlink stands for, seen from its directory. */
  function Pointed(dir: seq<string>, dest: string): string {
    if IsAbs(dest) then dest else Render(dir) + "/" + dest
  }

  lemma LinkStep(root: Root, dir: seq<string>, name: string, dest: string, q: seq<string>)
    requires IsName(name) && Render(dir + [name]) in root && root[Render(dir + [name])] == Target(dest)
    ensures Runs(root, State(dir, [name] + q), 1, 1, State(if IsAbs(dest) then [] else dir, Split(dest, '/') + q))
  {
    hide Split, Render;
    var s := State(dir, [name] + q);
    var t := State(if IsAbs(dest) then [] else dir, Split(dest, '/') + q);
    assert s.parts[0] == name && s.parts[1..] == q;
    assert StepOf(root, s) == Expand(t);
    assert Runs(root, t, 0, 0, t);
  }

  /** From the directory of a symlink and from what it stands for, the same is reached; the
      symlink costs one. */
  lemma LinkMeans(root: Root, dir: seq<string>, name: string, dest: string, q: seq<string>, links: nat, r: seq<string>)
    requires Canonical(root, dir) && IsName(name)
    requires Render(dir + [name]) in root && root[Render(dir + [name])] == Target(dest)
    ensures Ends(root, State([], [""] + dir + [name] + q), links, r) <==>
            links > 0 && Ends(root, State([], Split(Pointed(dir, dest), '/') + q), links - 1, r)
  {
    hide Runs, Render, Split, StepOf, Canonical;
    var t := State(if IsAbs(dest) then [] else dir, Split(dest, '/') + q);
    var n := Down(root, dir, [name] + q);
    assert [""] + dir + [name] + q == [""] + dir + ([name] + q);
    LinkStep(root, dir, name, dest, q);
    RunsThen(root, State([], [""] + dir + ([name] + q)), n, 0, State(dir, [name] + q), 1, 1, t);
    Through(root, State([], [""] + dir + [name] + q), n + 1, 1, t, links, r);
    if links > 0 && !IsAbs(dest) {
      var k := RunsRender(root, dir, Split(dest, '/') + q);
      SplitConcat(Render(dir), '/', dest);
      assert Split(Render(dir), '/') + Split(dest, '/') + q == Split(Render(dir), '/') + (Split(dest, '/') + q);
      Through(root, State([], Split(Pointed(dir, dest), '/') + q), k, 0, t, links - 1, r);
    }
  }

  /** Main result: a symlink in a resolved directory is resolved by resolving its target in its
      place, from the root if the target is absolute and from the directory of the symlink
      otherwise, and takes one from the budget; whatever follows it. */
  lemma LinkIsFollowed(root: Root, dir: seq<string>, name: string, dest: string, q: string, links: nat, r: seq<string>)
    requires Canonical(root, dir) && IsName(name)
    requires Render(dir + [name]) in root && root[Render(dir + [name])] == Target(dest)
    ensures Resolves(root, Render(dir + [name]), links, r) <==> links > 0 && Resolves(root, Pointed(dir, dest), links - 1, r)
    ensures Resolves(root, Render(dir + [name]) + "/" + q, links, r) <==>
            links > 0 && Resolves(root, Pointed(dir, dest) + "/" + q, links - 1, r)
  {
    hide Runs, Render, Split, StepOf, Pointed, Canonical;
    CanonicalNames(root, dir);
    SplitRender(dir + [name]);
    assert dir + [name] != [];
    assert [""] + (dir + [name]) == [""] + dir + [name];
    var from, to := Render(dir + [name]), Pointed(dir, dest);
    SplitConcat(from, '/', q);
    SplitConcat(to, '/', q);
    assert Start(from) == State([], [""] + dir + [name]);
    assert Start(from + "/" + q) == State([], [""] + dir + [name] + Split(q, '/'));
    assert Start(to + "/" + q) == State([], Split(to, '/') + Split(q, '/'));
    ResolvesIsEnds(root, from, links, r);
    ResolvesIsEnds(root, from + "/" + q, links, r);
    if links > 0 {
      ResolvesIsEnds(root, to, links - 1, r);
      ResolvesIsEnds(root, to + "/" + q, links - 1, r);
    }
    LinkMeans(root, dir, name, dest, [], links, r);
    LinkMeans(root, dir, name, dest, Split(q, '/'), links, r);
    assert [""] + dir + [name] + [] == [""] + dir + [name];
    assert Split(Pointed(dir, dest), '/') + [] == Split(Pointed(dir, dest), '/');
  }

  lemma ResolvesIsEnds(root: Root, path: string, links: nat, r: seq<string>)
    ensures Resolves(root, path, links, r) <==> Ends(root, Start(path), links, r)
  {
    hide Runs;
  }

  lemma CanonicalNames(root: Root, names: seq<string>)
    requires Canonical(root, names)
    ensures AllNames(names)
  {
  }

  /** A symlink that cannot be read leads nowhere. */
  lemma UnreadableEnds(root: Root, dir: seq<string>, name: string, q: string, links: nat, r: seq<string>)
    requires Canonical(root, dir) && IsName(name) && Render(dir + [name]) in root && root[Render(dir + [name])].Unreadable?
    ensures !Resolves(root, Render(dir + [name]) + "/" + q, links, r)
  {
    hide Runs, Render, Split, Canonical;
    CanonicalNames(root, dir);
    SplitRender(dir + [name]);
    SplitConcat(Render(dir + [name]), '/', q);
    var qs := Split(q, '/');
    var n := Down(root, dir, [name] + qs);
    assert [""] + (dir + [name]) + qs == [""] + dir + ([name] + qs);
    Through(root, State([], [""] + dir + ([name] + qs)), n, 0, State(dir, [name] + qs), links, r);
    forall m: nat | Runs(root, State(dir, [name] + qs), m, links, State(r, [])) ensures false {
      StuckEnds(root, dir, name, qs, m, links, r);
    }
  }

  lemma StuckEnds(root: Root, dir: seq<string>, name: string, q: seq<string>, m: nat, links: nat, r: seq<string>)
    requires IsName(name) && Render(dir + [name]) in root && root[Render(dir + [name])].Unreadable?
    ensures !Runs(root, State(dir, [name] + q), m, links, State(r, []))
  {
    hide Render;
    var s := State(dir, [name] + q);
    assert s.parts[0] == name && StepOf(root, s).Stuck?;
  }

  /** One step that is no symlink, behind a directory. */
  lemma PlainStep(root: Root, dir: seq<string>, part: string, up: seq<string>, q: string, links: nat, r: seq<string>)
    requires Canonical(root, dir) && Canonical(root, up) && '/' !in part
    requires forall rest :: StepOf(root, State(dir, [part] + rest)) == Move(State(up, rest))
    ensures Resolves(root, Render(dir) + "/" + part + "/" + q, links, r) <==> Resolves(root, Render(up) + "/" + q, links, r)
  {
    hide Runs, Render, Split, StepOf, Canonical;
    var qs := Split(q, '/');
    var n := RunsRender(root, dir, [part] + qs);
    var m := RunsRender(root, up, qs);
    SplitConcat(Render(dir) + "/" + part, '/', q);
    SplitConcat(Render(dir), '/', part);
    SplitOne(part, '/');
    SplitConcat(Render(up), '/', q);
    var s, t := Start(Render(dir) + "/" + part + "/" + q), State(up, qs);
    assert Split(Render(dir), '/') + [part] + qs == Split(Render(dir), '/') + ([part] + qs);
    OneMove(root, State(dir, [part] + qs), t);
    RunsThen(root, s, n, 0, State(dir, [part] + qs), 1, 0, t);
    Through(root, s, n + 1, 0, t, links, r);
    Through(root, Start(Render(up) + "/" + q), m, 0, t, links, r);
  }

  lemma OneMove(root: Root, s: State, t: State)
    requires StepOf(root, s) == Move(t)
    ensures Runs(root, s, 1, 0, t)
  {
    assert Runs(root, t, 0, 0, t);
  }

  /** Main result: in any root, behind a resolved directory, `..` is its parent (the root is its
      own), an empty component and `.` are the directory itself, and a name that is no symlink
      is the path of that name. */
  lemma ComponentsMean(root: Root, dir: seq<string>, name: string, q: string, links: nat, r: seq<string>)
    requires Canonical(root, dir) && IsName(name) && Render(dir + [name]) !in root
    ensures Resolves(root, Render(dir) + "/../" + q, links, r) <==>
            Resolves(root, Render(if dir == [] then [] else dir[..|dir| - 1]) + "/" + q, links, r)
    ensures Resolves(root, Render(dir) + "/./" + q, links, r) <==> Resolves(root, Render(dir) + "/" + q, links, r)
    ensures Resolves(root, Render(dir) + "//" + q, links, r) <==> Resolves(root, Render(dir) + "/" + q, links, r)
    ensures Resolves(root, Render(dir) + "/" + name + "/" + q, links, r) <==> Resolves(root, Render(dir + [name]) + "/" + q, links, r)
    ensures Resolves(root, Render(dir) + "/" + name, 0, dir + [name])
  {
    hide Runs, Render, Split, Canonical, Resolves;
    StepsMean(root, dir, name);
    CanonicalUp(root, dir);
    CanonicalStep(root, dir, name);
    PlainStep(root, dir, "..", Up(dir), q, links, r);
    PlainStep(root, dir, ".", dir, q, links, r);
    PlainStep(root, dir, "", dir, q, links, r);
    PlainStep(root, dir, name, dir + [name], q, links, r);
    assert Render(dir) + "/" + ".." + "/" + q == Render(dir) + "/../" + q;
    assert Render(dir) + "/" + "." + "/" + q == Render(dir) + "/./" + q;
    assert Render(dir) + "/" + "" + "/" + q == Render(dir) + "//" + q;
    NameStays(root, dir, name);
  }

  lemma StepsMean(root: Root, dir: seq<string>, name: string)
    requires IsName(name) && Render(dir + [name]) !in root
    ensures forall rest :: StepOf(root, State(dir, [".."] + rest)) == Move(State(Up(dir), rest))
    ensures forall rest :: StepOf(root, State(dir, ["."] + rest)) == Move(State(dir, rest))
    ensures forall rest :: StepOf(root, State(dir, [""] + rest)) == Move(State(dir, rest))
    ensures forall rest :: StepOf(root, State(dir, [name] + rest)) == Move(State(dir + [name], rest))
  {
    hide Render;
    forall part: string, rest: seq<string> ensures ([part] + rest)[0] == part && ([part] + rest)[1..] == rest {
    }
  }

  lemma NameStays(root: Root, dir: seq<string>, name: string)
    requires Canonical(root, dir) && IsName(name) && Render(dir + [name]) !in root
    ensures Resolves(root, Render(dir) + "/" + name, 0, dir + [name])
  {
    hide Runs, Render, Split, Canonical, StepOf;
    var n := RunsRender(root, dir, [name]);
    SplitConcat(Render(dir), '/', name);
    SplitOne(name, '/');
    NameMoves(root, dir, name);
    RunsThen(root, Start(Render(dir) + "/" + name), n, 0, State(dir, [name]), 1, 0, State(dir + [name], []));
    assert Reaches(root, Render(dir) + "/" + name, 0, State(dir + [name], []));
  }

  lemma NameMoves(root: Root, dir: seq<string>, name: string)
    requires IsName(name) && Render(dir + [name]) !in root
    ensures Runs(root, State(dir, [name]), 1, 0, State(dir + [name], []))
  {
    hide Render;
    assert Runs(root, State(dir + [name], []), 0, 0, State(dir + [name], []));
  }

  // ---- cycles

  /** From `loop` back to `loop`, possibly with components added each time around: such a
      resolution never ends, whatever follows. */
  lemma {:induction false} CycleNeverEnds(root: Root, s: State, n: nat, links: nat, extra: seq<string>, q: seq<string>, n': nat, links': nat, r: seq<string>)
    requires n > 0 && Runs(root, s, n, links, More(s, extra))
    ensures !Runs(root, More(s, q), n', links', State(r, []))
    decreases n'
  {
    hide StepOf, Runs;
    if Runs(root, More(s, q), n', links', State(r, [])) {
      RunsMore(root, s, n, links, More(s, extra), q);
      assert More(More(s, extra), q) == More(s, extra + q) by { assert s.parts + extra + q == s.parts + (extra + q); }
      RunsSuffix(root, More(s, q), n, links, More(s, extra + q), n', links', r);
      CycleNeverEnds(root, s, n, links, extra, extra + q, n' - n, links' - links, r);
    }
  }

  /** Main result: every cycle that is met is an error. */
  lemma CycleIsError(root: Root, path: string, n0: nat, links0: nat, s: State, n: nat, links: nat, extra: seq<string>, q: seq<string>)
    requires Runs(root, Start(path), n0, links0, More(s, q))
    requires n > 0 && Runs(root, s, n, links, More(s, extra))
    ensures !Walk(root, Start(path), MAX_SYMLINKS).Ok?
  {
    hide StepOf, Runs, Walk;
    if Walk(root, Start(path), MAX_SYMLINKS).Ok? {
      var text := Walk(root, Start(path), MAX_SYMLINKS).path;
      ResolvesExactly(root, path, text);
      var links': nat, r :| links' <= MAX_SYMLINKS && Resolves(root, path, links', r) && text == Render(r);
      var n': nat :| Runs(root, Start(path), n', links', State(r, []));
      RunsSuffix(root, Start(path), n0, links0, More(s, q), n', links', r);
      CycleNeverEnds(root, s, n, links, extra, q, n' - n0, links' - links0, r);
      assert false;
    }
  }

  // ---- without symlinks

  lemma {:induction false} WalkLexical(s: State, budget: nat)
    requires AllNames(s.current) && forall i :: 0 <= i < |s.parts| ==> '/' !in s.parts[i]
    ensures Walk(map[], s, budget) == Ok(Render(PushAll(true, s.current, s.parts)))
    decreases |s.parts|
  {
    hide Render;
    if s.parts != [] {
      var next := Push(true, s.current, s.parts[0]);
      assert StepOf(map[], s) == Move(State(next, s.parts[1..]));
      WalkLexical(State(next, s.parts[1..]), budget);
    }
  }

  /** Main result: in a root without symlinks resolution is lexical cleaning. */
  lemma NoSymlinksIsClean(path: string)
    ensures Walk(map[], Start(path), MAX_SYMLINKS) == Ok(Clean("/" + path))
  {
    JoinSplit(path, '/');
    WalkLexical(Start(path), MAX_SYMLINKS);
    assert ("/" + path)[1..] == path;
    SplitTail("/" + path, '/');
    PushEmpty(true, [], Split(path, '/'));
  }
}
