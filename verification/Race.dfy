/** Where two laws need their exceptions. RemovePodSandbox that reads the net property before the
    last update of RunPodSandbox, and destroys after it, skips CNI DEL. And RunPodSandbox whose
    Create is done without an answer leaves its pod behind. */
module Race {
  import opened GoStrings
  import GoPaths
  import opened Labels
  import opened Network
  import opened Ids
  import opened Porto
  import opened Handlers
  import opened Lifecycle
  import opened LifecycleRecords
  import opened Shim

  lemma Answered(c: Config, run: seq<Sys>, t: nat, r: RunReq, at: RunAt, store: Store, next: nat) returns (run': seq<Sys>)
    requires OnRun(c, run, t, Run(r, at), store, next) && WantRun(c, r, at).Outside?
    ensures OnRun(c, run', t, ResumeRun(r, at, Ok), store, next)
  {
    hide OnRun, ResumeRun;
    var s := NextStep(c, run, t, Run(r, at), store, next, Ok, Ok, store, next);
    run' := run + [s];
  }

  /** RunPodSandbox up to its Create. */
  lemma Ready(c: Config, r: RunReq) returns (run: seq<Sys>, one: Store)
    requires GoodRun(r)
    ensures OnRun(c, run, 1, Run(r, RunCreate), map[], 0)
    ensures one.Keys == {[r.pod]} && one[[r.pod]].net == INHERITED && one[[r.pod]].state == "stopped"
    ensures Call(Create([r.pod], Some(RunLabels(r)), false), map[], 0, Created(0), one, 1)
  {
    hide RunLabels, Prints, IsListing, OnRun, Begins;
    var none: Store := map[];
    run := Fresh(c);
    RunBegins(r);
    var s := NextCall(c, run, 0, Done(Success), none, 0, Run(r, RunImage));
    run := Answered(c, run + [s], 1, r, RunImage, none, 0);
    run := Answered(c, run, 1, r, RunDirs, none, 0);
    var text := SomeText(RunLabels(r));
    one := map[[r.pod] := Rec(text, "stopped", INHERITED, "", 0, 0)];
  }

  /** Main result: for every request there is a run in which RunPodSandbox ends in an error and
      its record stays, because the answer to Create was lost. */
  lemma LostAnswerLeavesPod(c: Config, r: RunReq) returns (run: seq<Sys>)
    requires GoodRun(r)
    ensures IsRun(c, run) && run[|run| - 1].store.Keys == {[r.pod]}
    ensures 1 in run[|run| - 1].tasks && run[|run| - 1].tasks[1].pc == Done(Error)
  {
    hide RunLabels, Begins, Step, Call, CallStep;
    var one: Store;
    run, one := Ready(c, r);
    var last := run[|run| - 1];
    var s := Take(c, last, 1, Created(0), Fault, one, 1);
    Extend(c, run, s);
    run := run + [s];
  }

  /** RunPodSandbox up to its last update. */
  lemma Running(c: Config, r: RunReq) returns (run: seq<Sys>, rec: Rec)
    requires GoodRun(r) && r.mode.Netns?
    ensures OnRun(c, run, 1, Run(r, RunUpdate(0)), map[[r.pod] := rec], 1) && rec.net == INHERITED && rec.state == "stopped"
  {
    hide RunLabels, Call, OnRun, Begins;
    var one: Store;
    run, one := Ready(c, r);
    rec := one[[r.pod]];
    assert one == map[[r.pod] := rec];
    var s := NextStep(c, run, 1, Run(r, RunCreate), map[], 0, Created(0), Created(0), one, 1);
    run := Answered(c, run + [s], 1, r, RunCommand(0), one, 1);
    run := Answered(c, run, 1, r, RunLoad(0), one, 1);
    run := Answered(c, run, 1, r, RunNetns(0), one, 1);
    run := Answered(c, run, 1, r, RunAdd(0), one, 1);
  }

  lemma Fresh(c: Config) returns (run: seq<Sys>)
    ensures OnRun(c, run, 0, Done(Success), map[], 0)
  {
    run := [INITIAL];
  }

  /** The pod is destroyed with its netns, and only a read and Stop came before. */
  ghost predicate Skips(c: Config, s: Sys, pod: string, s': Sys) {
    && 2 in s.tasks && s.tasks[2].pc.Rp? && s.tasks[2].pc.pod == pod && s.tasks[2].racing
    && CallStep(c, s, 2, Ok, Ok, s') && [pod] in s.store && HasNetns(s.store[[pod]].net) && [pod] !in s'.store
    && |s.tasks[2].trace| == 2 && s.tasks[2].trace[0].op == Get([pod]) && s.tasks[2].trace[1].op == Stop([pod])
  }

  /** RemovePodSandbox has read and stopped. */
  lemma Stopping(c: Config, r: RunReq) returns (run: seq<Sys>, rec: Rec)
    requires GoodRun(r) && r.mode.Netns?
    ensures IsRun(c, run) && rec.net == INHERITED
    ensures var s := run[|run| - 1];
            && s.store == map[[r.pod] := rec] && 1 in s.tasks && 2 in s.tasks && s.tasks[1].pc == Run(r, RunUpdate(0))
            && s.tasks[2].pc.Rp? && s.tasks[2].pc.pod == r.pod && s.tasks[2].pc.rp.RpDestroy? && s.tasks[2].racing
            && |s.tasks[2].trace| == 2 && s.tasks[2].trace[0].op == Get([r.pod]) && s.tasks[2].trace[1].op == Stop([r.pod])
  {
    hide RunLabels, HasNetns, IsListing, LabelsText, Begins, Step, CallStep, RunNet;
    run, rec := Running(c, r);
    var s0 := run[|run| - 1];
    RequestsBegin([r.pod]);
    var s1 := s0.(tasks := s0.tasks[2 := Task(Rp(r.pod, RpNet), [], s0.next, false)]);
    Arrives(c, s0, 2, Rp(r.pod, RpNet), s1);
    Extend(c, run, s1);
    var s2 := Take(c, s1, 2, Found(rec), Found(rec), s1.store, s1.next);
    assert s1.tasks[1].pc == Run(r, RunUpdate(0)) && Opening(s1.tasks[1].pc) && Subject(s1.tasks[1].pc) == [r.pod];
    assert UnderCreation(s1, 2, [r.pod]);
    InheritedHasNoNetns();
    Extend(c, run + [s1], s2);
    var s3 := Take(c, s2, 2, Ok, Ok, s2.store, s2.next);
    Extend(c, run + [s1] + [s2], s3);
    run := run + [s1] + [s2] + [s3];
  }

  lemma Arrives(c: Config, s: Sys, t: nat, pc: Pc, s': Sys)
    requires BeginStep(s, t, pc, s')
    ensures Step(c, s, s')
  {
    hide CallStep, PortoStep, RestartStep;
  }

  /** Main result: for every RunPodSandbox request with a netns there is a run in which the
      removal destroys the pod on its netns without CNI DEL. */
  lemma RaceSkipsDel(c: Config, r: RunReq) returns (run: seq<Sys>)
    requires GoodRun(r) && r.mode.Netns?
    ensures IsRun(c, run) && |run| >= 2 && Skips(c, run[|run| - 2], r.pod, run[|run| - 1])
  {
    hide RunLabels, HasNetns, IsListing, LabelsText, Begins, Step, CallStep, StoredNet, IsNetnsName;
    var rec: Rec;
    run, rec := Stopping(c, r);
    var s := run[|run| - 1];
    var net := StoredNet(c.netnsDir, r.mode.name);
    var s1 := Take(c, s, 1, Ok, Ok, s.store[[r.pod] := rec.(net := net, state := "running")], s.next);
    StoredHasNetns(c, r.mode.name);
    Extend(c, run, s1);
    var s2 := Take(c, s1, 2, Ok, Ok, Without(s1.store, [r.pod]), s1.next);
    Extend(c, run + [s1], s2);
    run := run + [s1] + [s2];
  }

  lemma StoredHasNetns(c: Config, name: string)
    requires IsNetnsName(name)
    ensures HasNetns(StoredNet(c.netnsDir, name))
  {
    hide NetNS, GoPaths.Base, GoPaths.JoinPath;
    BaseOfJoin(c.netnsDir, name);
    NetTextRead(name);
  }
}
