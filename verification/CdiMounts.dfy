/** Linking the CDI mounts into a created container: cdiMountTarget and linkCDIMounts
    (cmd/portoshim/cdi.go).
 */
module CdiMounts {
  import opened GoStrings
  import opened GoPaths
  import opened Resolve

  // ---- where a mount goes

  datatype MountTarget = At(target: string) | Skipped | Failed

  function TargetOf(root: Root, path: string): MountTarget {
    var clean := Clean(path);
    match Walk(root, Start(Dir(clean)), MAX_SYMLINKS)
    case Ok(dir) =>
      var target := JoinPath(dir, Base(clean));
      if target in root then Skipped else At(target)
    case _ => Failed
  }

  method CdiMountTarget(root: Root, path: string) returns (t: MountTarget)
    ensures t == TargetOf(root, path)
  {
    var clean := Clean(path);
    var dir := ResolveInRoot(root, Dir(clean));
    match dir {
      case Ok(d) =>
        var target := JoinPath(d, Base(clean));
        t := if target in root then Skipped else At(target);
      case _ => t := Failed;
    }
  }

  lemma {:induction false} AfterDirPart(p: string)
    ensures '/' !in p[|DirPart(p)|..]
    ensures p != "" && p[|p| - 1] != '/' ==> |DirPart(p)| < |p|
  {
    if p != "" && p[|p| - 1] != '/' {
      var n := |p| - 1;
      AfterDirPart(p[..n]);
      assert p[|DirPart(p)|..] == p[..n][|DirPart(p)|..] + [p[n]];
    }
  }

  lemma {:induction false} StripSlashesEnd(p: string)
    ensures var q := StripSlashes(p); q == "" || q[|q| - 1] != '/'
  {
    if p != "" && p[|p| - 1] == '/' { StripSlashesEnd(p[..|p| - 1]); }
  }

  lemma BaseShape(p: string)
    ensures Base(p) == "/" || (Base(p) != "" && '/' !in Base(p))
  {
    if p != "" {
      StripSlashesEnd(p);
      AfterDirPart(StripSlashes(p));
    }
  }

  /** The last component is appended, or it climbs or stays within the resolved directory. */
  lemma JoinBase(root: Root, dir: seq<string>, base: string) returns (names: seq<string>)
    requires Canonical(root, dir)
    requires base == "/" || (base != "" && '/' !in base)
    requires JoinPath(Render(dir), base) !in root
    ensures JoinPath(Render(dir), base) == Render(names) && Canonical(root, names)
  {
    hide Canonical;
    assert AllNames(dir) by { CanonicalNames(root, dir); }
    CleanUnder(dir, base);
    if base == "/" {
      SplitConcat("", '/', "");
      assert "" + "/" + "" == "/";
      assert Split("", '/') == [""] && [""] + [""] == Split("/", '/');
      PushEmpty(true, dir, [""]);
      return dir;
    }
    SplitOne(base, '/');
    assert PushAll(true, dir, [base]) == Push(true, dir, base);
    if base == "." {
      names := dir;
    } else if base == ".." {
      CanonicalUp(root, dir);
      assert dir != [] ==> dir[|dir| - 1] != "..";
      names := Up(dir);
    } else {
      names := dir + [base];
      CanonicalStep(root, dir, base);
    }
  }

  /** Main result: every target is a fixed point of resolveInRoot, so that Porto, which
      does not follow symlinks, links exactly there. */
  lemma TargetFixed(root: Root, path: string)
    requires TargetOf(root, path).At?
    ensures var target := TargetOf(root, path).target;
            target !in root && Fixed(root, target)
  {
    hide Clean, Dir, Base, JoinPath, Walk, Render, Split, Canonical;
    var up := Dir(Clean(path));
    var dir := Walk(root, Start(up), MAX_SYMLINKS).path;
    ResolvesExactly(root, up, dir);
    var links: nat, c :| links <= MAX_SYMLINKS && Resolves(root, up, links, c) && dir == Render(c);
    ResolvesCanonical(root, up, links, c);
    BaseShape(Clean(path));
    var names := JoinBase(root, c, Base(Clean(path)));
    CanonicalFixed(root, names);
  }

  // ---- which place is meant

  /** The directory means c, within the budget. */
  ghost predicate Within(root: Root, dir: string, links: nat, c: seq<string>) {
    links <= 40 && Resolves(root, dir, links, c)
  }

  lemma AbsoluteTarget(root: Root, path: string, names: seq<string>, base: string)
    requires AllNames(names) && IsName(base) && Clean(path) == Render(names + [base])
    ensures forall links: nat, c | Within(root, Render(names), links, c) ::
              TargetOf(root, path) == if Render(c + [base]) in root then Skipped else At(Render(c + [base]))
    ensures TargetOf(root, path).Failed? <==> !exists links: nat, c :: Within(root, Render(names), links, c)
  {
    hide Clean, Dir, Base, JoinPath, Walk, Render, Split, Canonical, Resolves;
    NamesSnoc(names, base);
    DirRender(names + [base]);
    assert (names + [base])[..|names|] == names;
    BaseRender(names, base);
    var dir := Render(names);
    forall links: nat, c | Within(root, dir, links, c)
      ensures TargetOf(root, path) == if Render(c + [base]) in root then Skipped else At(Render(c + [base]))
    {
      ResolvesExactly(root, dir, Render(c));
      ResolvesCanonical(root, dir, links, c);
      CanonicalNames(root, c);
      JoinRender(c, base);
    }
    if !TargetOf(root, path).Failed? {
      ResolvesExactly(root, dir, Walk(root, Start(dir), MAX_SYMLINKS).path);
      var links: nat, c :| links <= MAX_SYMLINKS && Resolves(root, dir, links, c);
      assert Within(root, dir, links, c);
    }
  }

  lemma NamesSnoc(names: seq<string>, base: string)
    requires AllNames(names) && IsName(base)
    ensures AllNames(names + [base]) && names + [base] != []
  {
  }

  lemma BaseRender(names: seq<string>, base: string)
    requires AllNames(names) && IsName(base)
    ensures Base(Render(names + [base])) == base
  {
    hide Base;
    if names == [] {
      assert names + [base] == [base];
      BaseOfName("/", base);
    } else {
      JoinSnoc(names, base, '/');
      assert Render(names + [base]) == Render(names) + "/" + base;
      BaseOfName(Render(names) + "/", base);
    }
  }

  /** The root of the container itself. */
  lemma RootTarget(root: Root, path: string)
    requires Clean(path) == "/"
    ensures TargetOf(root, path) == if "/" in root then Skipped else At("/")
  {
    hide Clean, Dir, JoinPath;
    DirRender([]);
    assert Render([]) == "/" && Base("/") == "/";
    WalkRoot(root, []);
    assert [""] + [] == [""];
    JoinRoot("/");
  }

  lemma JoinRoot(base: string)
    requires base in ["/", ".", ".."]
    ensures JoinPath("/", base) == "/"
  {
    hide Clean;
    CleanUnder([], base);
    assert Render([]) == "/";
    if base == "/" {
      assert Split("/", '/') == ["", ""];
    } else {
      SplitOne(base, '/');
    }
  }

  lemma {:induction false} WalkStrip(root: Root, stack: seq<string>)
    ensures Walk(root, State([], stack), MAX_SYMLINKS) == Walk(root, State([], Strip(stack)), MAX_SYMLINKS)
  {
    hide Walk;
    if stack != [] && stack[0] == ".." {
      WalkStep(root, State([], stack), MAX_SYMLINKS);
      WalkStrip(root, stack[1..]);
    }
  }

  lemma WalkRoot(root: Root, names: seq<string>)
    requires AllNames(names)
    ensures Walk(root, Start(Render(names)), MAX_SYMLINKS) == Walk(root, State([], names), MAX_SYMLINKS)
  {
    hide Walk, Render, Split;
    SplitRender(names);
    WalkStep(root, State([], [""] + names), MAX_SYMLINKS);
    assert ([""] + names)[1..] == names;
    if names == [] {
      WalkStep(root, State([], ["", ""]), MAX_SYMLINKS);
      WalkStep(root, State([], [""]), MAX_SYMLINKS);
      assert ["", ""][1..] == [""] && [""][1..] == [];
    }
  }

  /** A relative path is meant from the root. */
  lemma WalkRelative(root: Root, stack: seq<string>)
    requires RelativeStack(stack)
    ensures Walk(root, Start(if stack == [] then "." else Join(stack, '/')), MAX_SYMLINKS)
         == Walk(root, Start(Render(Strip(stack))), MAX_SYMLINKS)
  {
    hide Walk, Render, Split;
    StripNames(stack);
    WalkRoot(root, Strip(stack));
    if stack == [] {
      SplitOne(".", '/');
      WalkStep(root, State([], ["."]), MAX_SYMLINKS);
      assert ["."][1..] == [];
    } else {
      SplitJoin(stack, '/');
      WalkStrip(root, stack);
    }
  }

  /** A relative path that ends in a name. */
  lemma NameRooted(root: Root, path: string, front: seq<string>, last: string)
    requires RelativeStack(front + [last]) && last != ".."
    requires Clean(path) == Join(front + [last], '/') && Clean("/" + path) == Render(Strip(front + [last]))
    ensures TargetOf(root, path) == TargetOf(root, "/" + path)
  {
    hide Clean, Dir, Base, JoinPath, Walk, Render, Split, Strip, RelativeStack;
    var names := Strip(front);
    LastOf(front, last);
    StripSnoc(front, last);
    RelativeParts(front, last);
    WalkRelative(root, front);
    StripNames(front);
    NamesSnoc(names, last);
    DirRender(names + [last]);
    assert (names + [last])[..|names|] == names;
    BaseRender(names, last);
  }

  lemma LastOf(front: seq<string>, last: string)
    requires RelativeStack(front + [last])
    ensures RelativeStack(front) && (last != ".." ==> IsName(last))
  {
    assert (front + [last])[|front|] == last;
    assert forall i :: 0 <= i < |front| ==> (front + [last])[i] == front[i];
  }

  /** A relative path of nothing but `..`. */
  lemma UpRooted(root: Root, path: string, front: seq<string>)
    requires RelativeStack(front + [".."])
    requires Clean(path) == Join(front + [".."], '/') && Clean("/" + path) == Render(Strip(front + [".."]))
    ensures TargetOf(root, path) == TargetOf(root, "/" + path)
  {
    hide Clean, Dir, Base, JoinPath, Walk, Render, Split, Strip, RelativeStack;
    LastOf(front, "..");
    FrontOfUp(front);
    StripSnoc(front, "..");
    RelativeParts(front, "..");
    RenderEmpty();
    RootTarget(root, "/" + path);
    WalkRelative(root, front);
    WalkRoot(root, []);
    WalkStep(root, State([], []), MAX_SYMLINKS);
    JoinRoot("..");
  }

  lemma TargetRooted(root: Root, path: string)
    ensures TargetOf(root, path) == TargetOf(root, "/" + path)
  {
    hide Clean, Dir, Base, JoinPath, Walk, Render, Split;
    if IsAbs(path) {
      CleanAbsolute(path);
      return;
    }
    var stack := CleanRooted(path);
    if stack == [] {
      RenderEmpty();
      RootTarget(root, "/" + path);
      DirOfDot();
      WalkRelative(root, []);
      WalkRoot(root, []);
      WalkStep(root, State([], []), MAX_SYMLINKS);
      JoinRoot(".");
    } else {
      var front, last := stack[..|stack| - 1], stack[|stack| - 1];
      assert stack == front + [last];
      if last == ".." { UpRooted(root, path, front); } else { NameRooted(root, path, front, last); }
    }
  }

  lemma FrontOfUp(front: seq<string>)
    requires RelativeStack(front + [".."])
    ensures Strip(front) == []
  {
    StripNames(front + [".."]);
    StripSnoc(front, "..");
  }

  lemma RenderEmpty()
    ensures Render([]) == "/"
  {
  }

  lemma DirOfDot()
    ensures Dir(".") == "." && Base(".") == "."
  {
    NoDirPart(".");
    CleanEmpty();
    BaseOfName("", ".");
    assert "" + "." == ".";
  }

  /** Main result: the place of a mount, for every path. Below the root it is the last component
      of the cleaned path in what the directory before it resolves to; the mount is skipped if
      and only if a symlink is there, and fails if and only if that directory does not resolve
      within the budget. */
  lemma TargetExactly(root: Root, path: string, names: seq<string>, base: string)
    requires AllNames(names) && IsName(base) && Clean("/" + path) == Render(names + [base])
    ensures forall links: nat, c | Within(root, Render(names), links, c) ::
              TargetOf(root, path) == if Render(c + [base]) in root then Skipped else At(Render(c + [base]))
    ensures TargetOf(root, path).Failed? <==> !exists links: nat, c :: Within(root, Render(names), links, c)
  {
    hide TargetOf, Render, Clean, Within;
    TargetRooted(root, path);
    AbsoluteTarget(root, "/" + path, names, base);
  }

  /** Every path but one that cleans to the root is of that kind. */
  lemma TargetNames(path: string) returns (all: seq<string>)
    ensures AllNames(all) && Clean("/" + path) == Render(all)
  {
    JoinSplit("/" + path, '/');
    all := PushAll(true, [], Split("/" + path, '/'));
    PushRooted([], Split("/" + path, '/'));
  }

  /** Main result: without symlinks, a mount goes where its path says. */
  lemma TargetWithoutLinks(path: string)
    ensures TargetOf(map[], path) == At(Clean("/" + path))
  {
    hide TargetOf, Render, Clean, Walk;
    var all := TargetNames(path);
    TargetRooted(map[], path);
    if all == [] {
      RenderEmpty();
      RootTarget(map[], "/" + path);
    } else {
      var names, base := all[..|all| - 1], all[|all| - 1];
      assert all == names + [base];
      AbsoluteTarget(map[], "/" + path, names, base);
      NoLinksCanonical(names);
      CanonicalFixed(map[], names);
      assert Within(map[], Render(names), 0, names);
    }
  }

  lemma NoLinksCanonical(names: seq<string>)
    requires AllNames(names)
    ensures Canonical(map[], names)
  {
  }

  // ---- the loop over the mounts

  datatype Mount = Mount(containerPath: string, hostPath: string, readonly: bool)

  datatype Event =
    | CreateFailed(storage: string, readonly: bool)
    | Created(vol: nat, storage: string, readonly: bool)
    | LinkFailed(vol: nat, target: string, readonly: bool)
    | Linked(vol: nat, target: string, readonly: bool)
    | Unlinked(vol: nat)

  /** The volume calls of the Porto API; any call may fail. The outcome of an unlink is
      only logged by the shim. */
  class VolumeApi {
    var calls: seq<Event>
    var next: nat

    constructor ()
      ensures calls == [] && next == 0
    {
      calls, next := [], 0;
    }

    method CreateVolume(storage: string, readonly: bool) returns (ok: bool, vol: nat)
      modifies this
      ensures ok ==> vol == old(next) && next == old(next) + 1 && calls == old(calls) + [Created(vol, storage, readonly)]
      ensures !ok ==> next == old(next) && calls == old(calls) + [CreateFailed(storage, readonly)]
    {
      ok, vol := *, next;
      if ok {
        calls, next := calls + [Created(vol, storage, readonly)], next + 1;
      } else {
        calls := calls + [CreateFailed(storage, readonly)];
      }
    }

    method LinkVolumeTarget(vol: nat, target: string, readonly: bool) returns (ok: bool)
      modifies this`calls
      ensures calls == old(calls) + [if ok then Linked(vol, target, readonly) else LinkFailed(vol, target, readonly)]
    {
      ok := *;
      calls := calls + [if ok then Linked(vol, target, readonly) else LinkFailed(vol, target, readonly)];
    }

    method UnlinkVolume(vol: nat)
      modifies this`calls
      ensures calls == old(calls) + [Unlinked(vol)]
    {
      calls := calls + [Unlinked(vol)];
    }
  }

  /** A mount and the place for it. */
  datatype Job = Job(m: Mount, target: string)

  /** The mounts to link, up to the first that does not resolve: those that are not skipped
      and whose place is not taken by an earlier mount. */
  function Jobs(root: Root, mounts: seq<Mount>, taken: set<string>): seq<Job> {
    if mounts == [] then []
    else
      var rest := mounts[1..];
      match TargetOf(root, mounts[0].containerPath)
      case Failed => []
      case Skipped => Jobs(root, rest, taken)
      case At(target) =>
        if target in taken then Jobs(root, rest, taken)
        else [Job(mounts[0], target)] + Jobs(root, rest, taken + {target})
  }

  predicate AllResolve(root: Root, mounts: seq<Mount>) {
    forall m <- mounts :: !TargetOf(root, m.containerPath).Failed?
  }

  /** How the loop ends: done, at a mount that does not resolve, or at the k-th job. */
  datatype Outcome = Success | ResolveError | CreateError(k: nat) | LinkError(k: nat)

  function VolumeOf(vol: nat, m: Mount): Event {
    Created(vol, m.hostPath, m.readonly)
  }

  function LinkOf(vol: nat, job: Job): Event {
    Linked(vol, job.target, job.m.readonly)
  }

  function BadLinkOf(vol: nat, job: Job): Event {
    LinkFailed(vol, job.target, job.m.readonly)
  }

  /** The calls for jobs that are served. */
  function Served(jobs: seq<Job>, vol: nat): (events: seq<Event>)
    ensures |events| == 3 * |jobs|
  {
    if jobs == [] then []
    else [VolumeOf(vol, jobs[0].m), LinkOf(vol, jobs[0]), Unlinked(vol)] + Served(jobs[1..], vol + 1)
  }

  function Calls(jobs: seq<Job>, vol: nat, outcome: Outcome): seq<Event>
    requires outcome.CreateError? || outcome.LinkError? ==> outcome.k < |jobs|
  {
    match outcome
    case Success => Served(jobs, vol)
    case ResolveError => Served(jobs, vol)
    case CreateError(k) => Served(jobs[..k], vol) + [CreateFailed(jobs[k].m.hostPath, jobs[k].m.readonly)]
    case LinkError(k) =>
      Served(jobs[..k], vol) + [VolumeOf(vol + k, jobs[k].m), BadLinkOf(vol + k, jobs[k]), Unlinked(vol + k)]
  }

  lemma {:induction false} ServedSnoc(jobs: seq<Job>, j: Job, vol: nat)
    ensures Served(jobs + [j], vol) ==
            Served(jobs, vol) + [VolumeOf(vol + |jobs|, j.m), LinkOf(vol + |jobs|, j), Unlinked(vol + |jobs|)]
  {
    if jobs != [] {
      assert (jobs + [j])[1..] == jobs[1..] + [j];
      ServedSnoc(jobs[1..], j, vol + 1);
    } else {
      assert jobs + [j] == [j];
    }
  }

  /** At mount i, with n jobs done and these places taken, the other jobs are still ahead. */
  ghost predicate Ahead(root: Root, mounts: seq<Mount>, i: nat, taken: set<string>, jobs: seq<Job>, n: nat) {
    i <= |mounts| && n <= |jobs| && Jobs(root, mounts[i..], taken) == jobs[n..]
  }

  lemma AheadStart(root: Root, mounts: seq<Mount>)
    ensures Ahead(root, mounts, 0, {}, Jobs(root, mounts, {}), 0)
  {
    hide Jobs;
    assert mounts[0..] == mounts;
    assert Jobs(root, mounts, {})[0..] == Jobs(root, mounts, {});
  }

  lemma AheadStep(root: Root, mounts: seq<Mount>, i: nat, taken: set<string>, jobs: seq<Job>, n: nat)
    requires i < |mounts| && Ahead(root, mounts, i, taken, jobs, n)
    ensures var t := TargetOf(root, mounts[i].containerPath);
            if t.Failed? then n == |jobs|
            else if t.Skipped? || t.target in taken then Ahead(root, mounts, i + 1, taken, jobs, n)
            else
              && n < |jobs| && jobs[n] == Job(mounts[i], t.target)
              && Ahead(root, mounts, i + 1, taken + {t.target}, jobs, n + 1)
  {
    hide TargetOf;
    assert mounts[i..][0] == mounts[i] && mounts[i..][1..] == mounts[i + 1..];
    var t := TargetOf(root, mounts[i].containerPath);
    if t.At? && t.target !in taken {
      assert jobs[n..][0] == jobs[n] && jobs[n..][1..] == jobs[n + 1..];
    }
  }

  lemma AheadEnd(root: Root, mounts: seq<Mount>, taken: set<string>, jobs: seq<Job>, n: nat)
    requires Ahead(root, mounts, |mounts|, taken, jobs, n)
    ensures n == |jobs|
  {
  }

  /** How one job ends. */
  datatype JobEnd = JobDone | NotCreated | NotLinked

  function JobCalls(job: Job, vol: nat, end: JobEnd): seq<Event> {
    match end
    case NotCreated => [CreateFailed(job.m.hostPath, job.m.readonly)]
    case NotLinked => [VolumeOf(vol, job.m), BadLinkOf(vol, job), Unlinked(vol)]
    case JobDone => [VolumeOf(vol, job.m), LinkOf(vol, job), Unlinked(vol)]
  }

  /** The part of the loop body that calls Porto. Creating a volume leaves a link on the shim's
      side, which goes away on both outcomes of the second link. */
  method LinkOne(api: VolumeApi, job: Job) returns (end: JobEnd)
    modifies api
    ensures api.calls == old(api.calls) + JobCalls(job, old(api.next), end)
    ensures api.next == old(api.next) + if end.NotCreated? then 0 else 1
  {
    var created, vol := api.CreateVolume(job.m.hostPath, job.m.readonly);
    if !created {
      return NotCreated;
    }
    var ok := api.LinkVolumeTarget(vol, job.target, job.m.readonly);
    api.UnlinkVolume(vol);
    end := if ok then JobDone else NotLinked;
  }

  /** All calls so far, when n jobs are done. */
  ghost function LogAt(before: seq<Event>, jobs: seq<Job>, vol: nat, n: nat): seq<Event>
    requires n <= |jobs|
  {
    before + Served(jobs[..n], vol)
  }

  lemma LogEnds(before: seq<Event>, jobs: seq<Job>, vol: nat)
    ensures LogAt(before, jobs, vol, 0) == before
    ensures LogAt(before, jobs, vol, |jobs|) == before + Calls(jobs, vol, Success) == before + Calls(jobs, vol, ResolveError)
  {
    assert jobs[..|jobs|] == jobs;
    assert before + [] == before;
  }

  lemma LogStep(before: seq<Event>, jobs: seq<Job>, vol: nat, n: nat, end: JobEnd)
    requires n < |jobs|
    ensures var log := LogAt(before, jobs, vol, n) + JobCalls(jobs[n], vol + n, end);
            && (end.NotCreated? ==> log == before + Calls(jobs, vol, CreateError(n)))
            && (end.NotLinked? ==> log == before + Calls(jobs, vol, LinkError(n)))
            && (end.JobDone? ==> log == LogAt(before, jobs, vol, n + 1))
  {
    hide Served, VolumeOf, LinkOf, BadLinkOf;
    ServedSnoc(jobs[..n], jobs[n], vol);
    assert jobs[..n + 1] == jobs[..n] + [jobs[n]];
  }

  method LinkCDIMounts(api: VolumeApi, root: Root, mounts: seq<Mount>) returns (outcome: Outcome)
    modifies api
    ensures outcome.Success? ==> AllResolve(root, mounts)
    ensures outcome.ResolveError? ==> !AllResolve(root, mounts)
    ensures outcome.CreateError? || outcome.LinkError? ==> outcome.k < |Jobs(root, mounts, {})|
    ensures api.calls == old(api.calls) + Calls(Jobs(root, mounts, {}), old(api.next), outcome)
  {
    hide TargetOf, Jobs, Calls, AllResolve, JobCalls, LogAt, Ahead;
    ghost var jobs, vol, before := Jobs(root, mounts, {}), api.next, api.calls;
    var linked, served := {}, 0;  // served: which job an error is about
    AheadStart(root, mounts);
    LogEnds(before, jobs, vol);
    for i := 0 to |mounts|
      invariant forall j :: 0 <= j < i ==> !TargetOf(root, mounts[j].containerPath).Failed?
      invariant served <= |jobs| && Ahead(root, mounts, i, linked, jobs, served)
      invariant api.next == vol + served && api.calls == LogAt(before, jobs, vol, served)
    {
      AheadStep(root, mounts, i, linked, jobs, served);
      var t := CdiMountTarget(root, mounts[i].containerPath);
      if t.Failed? {
        NotAll(root, mounts, i);
        return ResolveError;
      }
      if t.At? && t.target !in linked {
        linked := linked + {t.target};
        var end := LinkOne(api, Job(mounts[i], t.target));
        LogStep(before, jobs, vol, served, end);
        if end.NotCreated? {
          return CreateError(served);
        }
        if end.NotLinked? {
          return LinkError(served);
        }
        served := served + 1;
      }
    }
    AheadEnd(root, mounts, linked, jobs, served);
    AllOf(root, mounts);
    outcome := Success;
  }

  lemma NotAll(root: Root, mounts: seq<Mount>, i: nat)
    requires i < |mounts| && TargetOf(root, mounts[i].containerPath).Failed?
    ensures !AllResolve(root, mounts)
  {
    hide TargetOf;
  }

  lemma AllOf(root: Root, mounts: seq<Mount>)
    requires forall j :: 0 <= j < |mounts| ==> !TargetOf(root, mounts[j].containerPath).Failed?
    ensures AllResolve(root, mounts)
  {
    hide TargetOf;
  }

  // ---- what the calls mean

  /** The mounts that are linked come first at their place: the job list holds mount i
      exactly when no mount before it fails to resolve or has the same place. */
  ghost predicate Wins(root: Root, mounts: seq<Mount>, i: nat)
    requires i < |mounts|
  {
    && TargetOf(root, mounts[i].containerPath).At?
    && forall j :: 0 <= j < i ==>
         var t := TargetOf(root, mounts[j].containerPath);
         !t.Failed? && t != TargetOf(root, mounts[i].containerPath)
  }

  ghost function WinnerJobs(root: Root, mounts: seq<Mount>, n: nat): seq<Job>
    requires n <= |mounts|
  {
    if n == 0 then []
    else WinnerJobs(root, mounts, n - 1) +
         if Wins(root, mounts, n - 1) then [Job(mounts[n - 1], TargetOf(root, mounts[n - 1].containerPath).target)] else []
  }

  lemma {:induction false} JobsTail(root: Root, mounts: seq<Mount>, i: nat, taken: set<string>, jobs: seq<Job>, n: nat)
    requires i <= |mounts| && n <= |jobs| && Ahead(root, mounts, i, taken, jobs, n)
    requires WinnerJobs(root, mounts, i) == jobs[..n]
    requires forall j :: 0 <= j < i ==> !TargetOf(root, mounts[j].containerPath).Failed?
    requires forall t :: t in taken <==> exists j :: 0 <= j < i && TargetOf(root, mounts[j].containerPath) == At(t)
    ensures WinnerJobs(root, mounts, |mounts|) == jobs
    decreases |mounts| - i
  {
    hide TargetOf, Ahead;
    if i == |mounts| {
      AheadEnd(root, mounts, taken, jobs, n);
      assert jobs[..n] == jobs;
    } else {
      var t := TargetOf(root, mounts[i].containerPath);
      AheadStep(root, mounts, i, taken, jobs, n);
      if t.Failed? {
        NoWinnersAfter(root, mounts, i, |mounts|);
        assert jobs[..n] == jobs;
      } else if t.Skipped? || t.target in taken {
        JobsTail(root, mounts, i + 1, taken, jobs, n);
      } else {
        assert Wins(root, mounts, i);
        assert jobs[..n + 1] == jobs[..n] + [jobs[n]];
        JobsTail(root, mounts, i + 1, taken + {t.target}, jobs, n + 1);
      }
    }
  }

  lemma {:induction false} NoWinnersAfter(root: Root, mounts: seq<Mount>, i: nat, n: nat)
    requires i < n <= |mounts| && TargetOf(root, mounts[i].containerPath).Failed?
    ensures WinnerJobs(root, mounts, n) == WinnerJobs(root, mounts, i)
    decreases n
  {
    hide TargetOf;
    if n > i + 1 { NoWinnersAfter(root, mounts, i, n - 1); }
  }

  /** Main result: the first mount for a place wins, in the order of the mounts. */
  lemma JobsAreWinners(root: Root, mounts: seq<Mount>)
    ensures Jobs(root, mounts, {}) == WinnerJobs(root, mounts, |mounts|)
  {
    hide TargetOf, Jobs, Ahead;
    AheadStart(root, mounts);
    JobsTail(root, mounts, 0, {}, Jobs(root, mounts, {}), 0);
  }

  /** The places are new, pairwise distinct, and fixed points of resolveInRoot. */
  ghost predicate GoodPlaces(root: Root, jobs: seq<Job>, taken: set<string>) {
    && (forall i :: 0 <= i < |jobs| ==> jobs[i].target !in taken && Fixed(root, jobs[i].target))
    && (forall i, j :: 0 <= i < j < |jobs| ==> jobs[i].target != jobs[j].target)
  }

  lemma GoodPlacesCons(root: Root, job: Job, jobs: seq<Job>, taken: set<string>)
    requires job.target !in taken && Fixed(root, job.target) && GoodPlaces(root, jobs, taken + {job.target})
    ensures GoodPlaces(root, [job] + jobs, taken)
  {
    hide Fixed;
    var all := [job] + jobs;
    assert forall i :: 0 < i < |all| ==> all[i] == jobs[i - 1];
  }

  /** Main result: every place that Porto is asked to link at is a fixed point of
      resolveInRoot, and no place is used twice. */
  lemma {:induction false} JobsGoodPlaces(root: Root, mounts: seq<Mount>, taken: set<string>)
    ensures GoodPlaces(root, Jobs(root, mounts, taken), taken)
  {
    hide TargetOf, Fixed;
    if mounts != [] {
      var t := TargetOf(root, mounts[0].containerPath);
      if t.At? && t.target !in taken {
        hide GoodPlaces;
        JobsGoodPlaces(root, mounts[1..], taken + {t.target});
        TargetFixed(root, mounts[0].containerPath);
        GoodPlacesCons(root, Job(mounts[0], t.target), Jobs(root, mounts[1..], taken + {t.target}), taken);
      } else if !t.Failed? {
        JobsGoodPlaces(root, mounts[1..], taken);
      }
    }
  }

  /** Created, linked or not, unlinked: three calls in a row for one volume. */
  ghost predicate Unlinks(calls: seq<Event>) {
    forall i :: 0 <= i < |calls| && calls[i].Created? ==>
      && i + 2 < |calls|
      && (calls[i + 1].Linked? || calls[i + 1].LinkFailed?) && calls[i + 1].vol == calls[i].vol
      && calls[i + 2] == Unlinked(calls[i].vol)
  }

  /** No other call unlinks. */
  ghost predicate UnlinksOnly(calls: seq<Event>) {
    forall i :: 0 <= i < |calls| && calls[i].Unlinked? ==>
      i >= 2 && calls[i - 2].Created? && calls[i - 2].vol == calls[i].vol
  }

  ghost predicate FreshVolumes(calls: seq<Event>) {
    forall i, j :: 0 <= i < j < |calls| && calls[i].Created? && calls[j].Created? ==> calls[i].vol != calls[j].vol
  }

  ghost predicate Balanced(calls: seq<Event>) {
    Unlinks(calls) && UnlinksOnly(calls) && FreshVolumes(calls)
  }

  /** No volume of these calls is older than vol. */
  ghost predicate From(calls: seq<Event>, vol: nat) {
    forall i :: 0 <= i < |calls| && calls[i].Created? ==> calls[i].vol >= vol
  }

  predicate Links(link: Event, vol: nat) {
    (link.Linked? || link.LinkFailed?) && link.vol == vol
  }

  lemma UnlinksCons(vol: nat, m: Mount, link: Event, rest: seq<Event>)
    requires Links(link, vol) && Unlinks(rest) && UnlinksOnly(rest)
    ensures Unlinks([VolumeOf(vol, m), link, Unlinked(vol)] + rest)
    ensures UnlinksOnly([VolumeOf(vol, m), link, Unlinked(vol)] + rest)
  {
    var calls := [VolumeOf(vol, m), link, Unlinked(vol)] + rest;
    assert forall i :: 3 <= i < |calls| ==> calls[i] == rest[i - 3];
  }

  lemma FreshCons(vol: nat, m: Mount, link: Event, rest: seq<Event>)
    requires Links(link, vol) && FreshVolumes(rest) && From(rest, vol + 1)
    ensures FreshVolumes([VolumeOf(vol, m), link, Unlinked(vol)] + rest)
    ensures From([VolumeOf(vol, m), link, Unlinked(vol)] + rest, vol)
  {
    var calls := [VolumeOf(vol, m), link, Unlinked(vol)] + rest;
    assert forall i :: 3 <= i < |calls| ==> calls[i] == rest[i - 3];
  }

  lemma BalancedCons(vol: nat, m: Mount, link: Event, rest: seq<Event>)
    requires Links(link, vol) && Balanced(rest) && From(rest, vol + 1)
    ensures Balanced([VolumeOf(vol, m), link, Unlinked(vol)] + rest)
    ensures From([VolumeOf(vol, m), link, Unlinked(vol)] + rest, vol)
  {
    hide Unlinks, UnlinksOnly, FreshVolumes, From;
    UnlinksCons(vol, m, link, rest);
    FreshCons(vol, m, link, rest);
  }

  lemma {:induction false} ServedBalanced(jobs: seq<Job>, vol: nat, rest: seq<Event>)
    requires Balanced(rest) && From(rest, vol + |jobs|)
    ensures Balanced(Served(jobs, vol) + rest) && From(Served(jobs, vol) + rest, vol)
  {
    hide Balanced, From;
    if jobs == [] {
      assert Served(jobs, vol) + rest == rest;
    } else {
      var tail := Served(jobs[1..], vol + 1) + rest;
      ServedBalanced(jobs[1..], vol + 1, rest);
      BalancedCons(vol, jobs[0].m, LinkOf(vol, jobs[0]), tail);
      assert Served(jobs, vol) + rest == [VolumeOf(vol, jobs[0].m), LinkOf(vol, jobs[0]), Unlinked(vol)] + tail;
    }
  }

  lemma BalancedLast(m: Mount, vol: nat)
    ensures Balanced([CreateFailed(m.hostPath, m.readonly)]) && From([CreateFailed(m.hostPath, m.readonly)], vol)
    ensures Balanced([]) && From([], vol)
  {
  }

  /** Main result: on every path, a link failure included, each created volume gets exactly
      one unlink from its creator, two calls later and before anything else happens. */
  lemma CallsBalanced(jobs: seq<Job>, vol: nat, outcome: Outcome)
    requires outcome.CreateError? || outcome.LinkError? ==> outcome.k < |jobs|
    ensures Balanced(Calls(jobs, vol, outcome))
  {
    hide Balanced, From, Served;
    match outcome {
      case CreateError(k) =>
        BalancedLast(jobs[k].m, vol + k);
        ServedBalanced(jobs[..k], vol, [CreateFailed(jobs[k].m.hostPath, jobs[k].m.readonly)]);
      case LinkError(k) =>
        var link := BadLinkOf(vol + k, jobs[k]);
        BalancedLast(jobs[k].m, vol + k + 1);
        BalancedCons(vol + k, jobs[k].m, link, []);
        assert [VolumeOf(vol + k, jobs[k].m), link, Unlinked(vol + k)] + [] == [VolumeOf(vol + k, jobs[k].m), link, Unlinked(vol + k)];
        ServedBalanced(jobs[..k], vol, [VolumeOf(vol + k, jobs[k].m), link, Unlinked(vol + k)]);
      case _ =>
        BalancedLast(Mount("", "", false), vol + |jobs|);
        ServedBalanced(jobs, vol, []);
        assert Served(jobs, vol) + [] == Served(jobs, vol);
    }
  }

  // ---- what the calls say

  /** A volume binds the host path of a mount, and is linked at the target of that mount; both
      are read-only if the mount is. */
  ghost predicate ForMount(root: Root, m: Mount, volume: Event, link: Event) {
    && volume.Created? && (link.Linked? || link.LinkFailed?)
    && volume.vol == link.vol && volume.storage == m.hostPath && volume.readonly == m.readonly
    && TargetOf(root, m.containerPath) == At(link.target) && link.readonly == m.readonly
  }

  /** Every link is made right after its volume, for one of the mounts, and nothing is made after
      a failure. */
  ghost predicate Says(root: Root, mounts: seq<Mount>, calls: seq<Event>) {
    && (forall i :: 0 <= i < |calls| && (calls[i].Linked? || calls[i].LinkFailed?) ==>
          i > 0 && exists m <- mounts :: ForMount(root, m, calls[i - 1], calls[i]))
    && (forall i, j :: 0 <= i < j < |calls| && (calls[i].CreateFailed? || calls[i].LinkFailed?) ==> calls[j].Unlinked?)
  }

  ghost predicate FromMounts(root: Root, mounts: seq<Mount>, jobs: seq<Job>) {
    forall i :: 0 <= i < |jobs| ==> jobs[i].m in mounts && TargetOf(root, jobs[i].m.containerPath) == At(jobs[i].target)
  }

  lemma {:induction false} JobsFromMounts(root: Root, all: seq<Mount>, mounts: seq<Mount>, taken: set<string>)
    requires forall m <- mounts :: m in all
    ensures FromMounts(root, all, Jobs(root, mounts, taken))
  {
    hide TargetOf;
    if mounts != [] {
      assert mounts[0] in mounts;
      match TargetOf(root, mounts[0].containerPath)
      case Failed =>
      case Skipped => JobsFromMounts(root, all, mounts[1..], taken);
      case At(target) =>
        JobsFromMounts(root, all, mounts[1..], taken);
        JobsFromMounts(root, all, mounts[1..], taken + {target});
    }
  }

  lemma SaysCons(root: Root, mounts: seq<Mount>, vol: nat, job: Job, rest: seq<Event>)
    requires FromMounts(root, mounts, [job]) && Says(root, mounts, rest)
    ensures Says(root, mounts, [VolumeOf(vol, job.m), LinkOf(vol, job), Unlinked(vol)] + rest)
  {
    hide TargetOf;
    var calls := [VolumeOf(vol, job.m), LinkOf(vol, job), Unlinked(vol)] + rest;
    assert [job][0] == job;
    assert ForMount(root, job.m, calls[0], calls[1]);
    forall i | 0 <= i < |calls| && (calls[i].Linked? || calls[i].LinkFailed?)
      ensures i > 0 && exists m <- mounts :: ForMount(root, m, calls[i - 1], calls[i])
    {
      if i >= 3 { assert calls[i] == rest[i - 3] && calls[i - 1] == rest[i - 4]; }
    }
    forall i, j | 0 <= i < j < |calls| && (calls[i].CreateFailed? || calls[i].LinkFailed?) ensures calls[j].Unlinked? {
      assert i >= 3 && calls[i] == rest[i - 3] && calls[j] == rest[j - 3];
    }
  }

  lemma {:induction false} ServedSays(root: Root, mounts: seq<Mount>, jobs: seq<Job>, vol: nat, rest: seq<Event>)
    requires FromMounts(root, mounts, jobs) && Says(root, mounts, rest)
    ensures Says(root, mounts, Served(jobs, vol) + rest)
  {
    hide TargetOf, Says, VolumeOf, LinkOf;
    if jobs == [] {
      assert Served(jobs, vol) + rest == rest;
    } else {
      assert forall i :: 0 <= i < |jobs| - 1 ==> jobs[1..][i] == jobs[i + 1];
      ServedSays(root, mounts, jobs[1..], vol + 1, rest);
      SaysCons(root, mounts, vol, jobs[0], Served(jobs[1..], vol + 1) + rest);
      assert Served(jobs, vol) + rest
          == [VolumeOf(vol, jobs[0].m), LinkOf(vol, jobs[0]), Unlinked(vol)] + (Served(jobs[1..], vol + 1) + rest);
    }
  }

  lemma LastSays(root: Root, mounts: seq<Mount>, vol: nat, job: Job)
    requires FromMounts(root, mounts, [job])
    ensures Says(root, mounts, []) && Says(root, mounts, [CreateFailed(job.m.hostPath, job.m.readonly)])
    ensures Says(root, mounts, [VolumeOf(vol, job.m), BadLinkOf(vol, job), Unlinked(vol)])
  {
    hide TargetOf;
    assert [job][0] == job;
    var calls := [VolumeOf(vol, job.m), BadLinkOf(vol, job), Unlinked(vol)];
    assert ForMount(root, job.m, calls[0], calls[1]);
  }

  /** Main result: every link call is for one of the mounts, at its target, right after the
      volume that binds its host path; and a failure is the end. */
  lemma CallsSay(root: Root, mounts: seq<Mount>, vol: nat, outcome: Outcome)
    requires outcome.CreateError? || outcome.LinkError? ==> outcome.k < |Jobs(root, mounts, {})|
    ensures Says(root, mounts, Calls(Jobs(root, mounts, {}), vol, outcome))
  {
    hide TargetOf, Jobs, Says, Served, VolumeOf, BadLinkOf;
    var jobs := Jobs(root, mounts, {});
    JobsFromMounts(root, mounts, mounts, {});
    match outcome {
      case CreateError(k) =>
        LastSays(root, mounts, vol + k, jobs[k]);
        ServedSays(root, mounts, jobs[..k], vol, [CreateFailed(jobs[k].m.hostPath, jobs[k].m.readonly)]);
      case LinkError(k) =>
        LastSays(root, mounts, vol + k, jobs[k]);
        ServedSays(root, mounts, jobs[..k], vol, [VolumeOf(vol + k, jobs[k].m), BadLinkOf(vol + k, jobs[k]), Unlinked(vol + k)]);
      case _ =>
        NothingSays(root, mounts);
        ServedSays(root, mounts, jobs, vol, []);
        assert Served(jobs, vol) + [] == Served(jobs, vol);
    }
  }

  lemma NothingSays(root: Root, mounts: seq<Mount>)
    ensures Says(root, mounts, [])
  {
  }

  // ---- and which links are made

  /** The targets of the links that succeeded. */
  function LinkedTargets(calls: seq<Event>): seq<string> {
    if calls == [] then []
    else (if calls[0].Linked? then [calls[0].target] else []) + LinkedTargets(calls[1..])
  }

  function Targets(jobs: seq<Job>): seq<string> {
    if jobs == [] then [] else [jobs[0].target] + Targets(jobs[1..])
  }

  lemma ThreeTargets(vol: nat, link: Event, m: Mount, rest: seq<Event>)
    ensures LinkedTargets([VolumeOf(vol, m), link, Unlinked(vol)] + rest)
         == (if link.Linked? then [link.target] else []) + LinkedTargets(rest)
  {
    var c0, c2 := VolumeOf(vol, m), Unlinked(vol);
    assert ([c0, link, c2] + rest)[1..] == [link, c2] + rest && ([link, c2] + rest)[1..] == [c2] + rest && ([c2] + rest)[1..] == rest;
    assert LinkedTargets([c2] + rest) == [] + LinkedTargets(rest) == LinkedTargets(rest);
    assert LinkedTargets([link, c2] + rest) == (if link.Linked? then [link.target] else []) + LinkedTargets(rest);
  }

  lemma {:induction false} ServedTargets(jobs: seq<Job>, vol: nat, rest: seq<Event>)
    ensures LinkedTargets(Served(jobs, vol) + rest) == Targets(jobs) + LinkedTargets(rest)
  {
    hide LinkedTargets, VolumeOf;
    if jobs == [] {
      assert Served(jobs, vol) + rest == rest && [] + LinkedTargets(rest) == LinkedTargets(rest);
    } else {
      var tail := Served(jobs[1..], vol + 1) + rest;
      ServedTargets(jobs[1..], vol + 1, rest);
      ThreeTargets(vol, LinkOf(vol, jobs[0]), jobs[0].m, tail);
      assert Served(jobs, vol) + rest == [VolumeOf(vol, jobs[0].m), LinkOf(vol, jobs[0]), Unlinked(vol)] + tail;
      Assoc([jobs[0].target], Targets(jobs[1..]), LinkedTargets(rest));
    }
  }

  lemma FailureTargets(vol: nat, job: Job)
    ensures LinkedTargets([]) == [] && LinkedTargets([CreateFailed(job.m.hostPath, job.m.readonly)]) == []
    ensures LinkedTargets([VolumeOf(vol, job.m), BadLinkOf(vol, job), Unlinked(vol)]) == []
  {
    ThreeTargets(vol, BadLinkOf(vol, job), job.m, []);
    assert [VolumeOf(vol, job.m), BadLinkOf(vol, job), Unlinked(vol)] + [] == [VolumeOf(vol, job.m), BadLinkOf(vol, job), Unlinked(vol)];
  }

  lemma PartTargets(jobs: seq<Job>, vol: nat, last: seq<Event>)
    requires LinkedTargets(last) == []
    ensures LinkedTargets(Served(jobs, vol) + last) == Targets(jobs)
  {
    hide Served, LinkedTargets, Targets;
    ServedTargets(jobs, vol, last);
    assert Targets(jobs) + [] == Targets(jobs);
  }

  /** The jobs that were served in full. */
  function Finished(jobs: seq<Job>, outcome: Outcome): seq<Job>
    requires outcome.CreateError? || outcome.LinkError? ==> outcome.k < |jobs|
  {
    if outcome.CreateError? || outcome.LinkError? then jobs[..outcome.k] else jobs
  }

  /** Main result: all mounts that win their place are linked, or those before the failure. */
  lemma CallsLink(jobs: seq<Job>, vol: nat, outcome: Outcome)
    requires outcome.CreateError? || outcome.LinkError? ==> outcome.k < |jobs|
    ensures LinkedTargets(Calls(jobs, vol, outcome)) == Targets(Finished(jobs, outcome))
  {
    hide Served, LinkedTargets, Targets, VolumeOf, BadLinkOf;
    var done := Finished(jobs, outcome);
    if outcome.Success? || outcome.ResolveError? {
      NothingLinked();
      PartTargets(done, vol, []);
      assert Served(done, vol) + [] == Served(done, vol);
    } else {
      var job := jobs[outcome.k];
      FailureTargets(vol + outcome.k, job);
      if outcome.CreateError? {
        PartTargets(done, vol, [CreateFailed(job.m.hostPath, job.m.readonly)]);
      } else {
        PartTargets(done, vol, [VolumeOf(vol + outcome.k, job.m), BadLinkOf(vol + outcome.k, job), Unlinked(vol + outcome.k)]);
      }
    }
  }

  lemma NothingLinked()
    ensures LinkedTargets([]) == []
  {
  }
}
