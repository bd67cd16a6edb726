/** Running the OCI hooks of a created container: runCDIHooks (cmd/portoshim/cdi.go).

    Hooks of the stages in cdiHookStages are run, stage by stage; others are skipped. The
    order of the stages is that of the OCI Runtime Specification (config.md, POSIX-platform
    Hooks).
 */
module CdiHooks {

  datatype Hook = Hook(name: string, path: string, args: seq<string>)

  const STAGES := ["prestart", "createRuntime", "createContainer"]

  /** Whoever executes hooks; a hook may fail. */
  class HookRunner {
    var ran: seq<Hook>

    constructor ()
      ensures ran == []
    {
      ran := [];
    }

    method RunCDIHook(h: Hook) returns (ok: bool)
      modifies this
      ensures ran == old(ran) + [h]
    {
      ran := ran + [h];
      ok := *;
    }
  }

  /** HookFailed(k): the k-th hook of the schedule failed. */
  datatype Outcome = Success | SetupFailed | HookFailed(k: nat)

  predicate InRange(idx: seq<nat>, n: nat) {
    forall k :: 0 <= k < |idx| ==> idx[k] < n
  }

  /** The indices below n of the hooks of one stage, in order. */
  function OfStage(hooks: seq<Hook>, stage: string, n: nat): (idx: seq<nat>)
    requires n <= |hooks|
    ensures InRange(idx, n)
  {
    if n == 0 then []
    else OfStage(hooks, stage, n - 1) + if hooks[n - 1].name == stage then [n - 1] else []
  }

  /** The schedule of the first s stages, as indices into the hooks. */
  function UpTo(hooks: seq<Hook>, s: nat): (idx: seq<nat>)
    requires s <= |STAGES|
    ensures InRange(idx, |hooks|)
  {
    if s == 0 then [] else UpTo(hooks, s - 1) + OfStage(hooks, STAGES[s - 1], |hooks|)
  }

  function Schedule(hooks: seq<Hook>): (idx: seq<nat>)
    ensures InRange(idx, |hooks|)
  {
    UpTo(hooks, |STAGES|)
  }

  function Pick(hooks: seq<Hook>, idx: seq<nat>): (r: seq<Hook>)
    requires InRange(idx, |hooks|)
    ensures |r| == |idx|
    ensures forall k :: 0 <= k < |idx| ==> r[k] == hooks[idx[k]]
  {
    seq(|idx|, k requires 0 <= k < |idx| => hooks[idx[k]])
  }

  /** The part of the schedule that is done at hook n of stage s. */
  ghost function Done(hooks: seq<Hook>, s: nat, n: nat): (idx: seq<nat>)
    requires s < |STAGES| && n <= |hooks|
    ensures InRange(idx, |hooks|)
  {
    UpTo(hooks, s) + OfStage(hooks, STAGES[s], n)
  }

  lemma {:induction false} OfStagePrefix(hooks: seq<Hook>, stage: string, n: nat, m: nat)
    requires n <= m <= |hooks|
    ensures OfStage(hooks, stage, n) <= OfStage(hooks, stage, m)
  {
    if n < m { OfStagePrefix(hooks, stage, n, m - 1); }
  }

  lemma {:induction false} UpToPrefix(hooks: seq<Hook>, s: nat, t: nat)
    requires s <= t <= |STAGES|
    ensures UpTo(hooks, s) <= UpTo(hooks, t)
  {
    if s < t { UpToPrefix(hooks, s, t - 1); }
  }

  lemma DonePrefix(hooks: seq<Hook>, s: nat, n: nat)
    requires s < |STAGES| && n <= |hooks|
    ensures Done(hooks, s, n) <= Schedule(hooks)
    ensures n < |hooks| ==> Done(hooks, s, n + 1) == Done(hooks, s, n) + if hooks[n].name == STAGES[s] then [n] else []
    ensures Done(hooks, s, |hooks|) == UpTo(hooks, s + 1)
    ensures Done(hooks, s, 0) == UpTo(hooks, s)
  {
    hide OfStage;
    OfStagePrefix(hooks, STAGES[s], n, |hooks|);
    UpToPrefix(hooks, s + 1, |STAGES|);
    OfStageEnds(hooks, STAGES[s], n);
    var before := UpTo(hooks, s);
    assert before + [] == before;
    assert UpTo(hooks, s + 1) == before + OfStage(hooks, STAGES[s], |hooks|);
    if n < |hooks| {
      Glue(before, OfStage(hooks, STAGES[s], n), if hooks[n].name == STAGES[s] then [n] else []);
    }
  }

  lemma OfStageEnds(hooks: seq<Hook>, stage: string, n: nat)
    requires n <= |hooks|
    ensures OfStage(hooks, stage, 0) == []
    ensures n < |hooks| ==> OfStage(hooks, stage, n + 1) == OfStage(hooks, stage, n) + if hooks[n].name == stage then [n] else []
  {
  }

  lemma Glue(x: seq<nat>, y: seq<nat>, z: seq<nat>)
    ensures x + (y + z) == (x + y) + z
  {
  }

  lemma PickPrefix(hooks: seq<Hook>, idx: seq<nat>, n: nat)
    requires idx <= Schedule(hooks) && n == |idx| && InRange(idx, |hooks|)
    ensures Pick(hooks, idx) == Pick(hooks, Schedule(hooks))[..n]
  {
    hide Schedule;
  }

  method RunCDIHooks(runner: HookRunner, hooks: seq<Hook>) returns (r: Outcome)
    modifies runner
    ensures r.Success? ==> runner.ran == old(runner.ran) + Pick(hooks, Schedule(hooks))
    ensures r.SetupFailed? ==> hooks != [] && runner.ran == old(runner.ran)
    ensures r.HookFailed? ==>
              && r.k < |Schedule(hooks)|
              && runner.ran == old(runner.ran) + Pick(hooks, Schedule(hooks))[..r.k + 1]
  {
    hide OfStage, UpTo, Done, Schedule;
    if |hooks| == 0 {
      EmptySchedule();
      return Success;
    }
    var bundle: bool := *;  // the temporary bundle and its config.json
    if !bundle {
      return SetupFailed;
    }
    ghost var before := runner.ran;
    var count: nat := 0;
    ghost var done: seq<nat> := [];
    StartSchedule(hooks);
    for s := 0 to |STAGES|
      invariant done == UpTo(hooks, s) && count == |done|
      invariant runner.ran == before + Pick(hooks, done)
    {
      DonePrefix(hooks, s, 0);
      for n := 0 to |hooks|
        invariant done == Done(hooks, s, n) && count == |done|
        invariant runner.ran == before + Pick(hooks, done)
      {
        DonePrefix(hooks, s, n);
        DonePrefix(hooks, s, n + 1);
        if hooks[n].name != STAGES[s] {
          continue;
        }
        var ok := runner.RunCDIHook(hooks[n]);
        assert Pick(hooks, done + [n]) == Pick(hooks, done) + [hooks[n]];
        done := done + [n];
        PickPrefix(hooks, done, count + 1);
        if !ok {
          return HookFailed(count);
        }
        count := count + 1;
      }
      DonePrefix(hooks, s, |hooks|);
    }
    EndSchedule(hooks);
    r := Success;
  }

  lemma EmptySchedule()
    ensures Pick([], Schedule([])) == []
  {
    assert UpTo([], 1) == [];
    assert UpTo([], 2) == [];
  }

  lemma StartSchedule(hooks: seq<Hook>)
    ensures UpTo(hooks, 0) == []
  {
  }

  lemma EndSchedule(hooks: seq<Hook>)
    ensures UpTo(hooks, |STAGES|) == Schedule(hooks)
  {
  }

  // ---- what the schedule is

  predicate Supported(h: Hook) {
    h.name == "prestart" || h.name == "createRuntime" || h.name == "createContainer"
  }

  function StageOf(h: Hook): nat {
    if h.name == "prestart" then 0 else if h.name == "createRuntime" then 1 else 2
  }

  lemma StageNames()
    ensures |STAGES| == 3 && STAGES[0] == "prestart" && STAGES[1] == "createRuntime" && STAGES[2] == "createContainer"
    ensures STAGES[0] != STAGES[1] && STAGES[1] != STAGES[2] && STAGES[0] != STAGES[2]
  {
    assert |STAGES[0]| == 8 && |STAGES[1]| == 13 && |STAGES[2]| == 15;
  }

  lemma StageAt(h: Hook, s: nat)
    requires s < |STAGES| && h.name == STAGES[s]
    ensures StageOf(h) == s && Supported(h)
  {
    StageNames();
  }

  lemma SupportedIsStage(h: Hook)
    ensures Supported(h) <==> exists s :: 0 <= s < |STAGES| && STAGES[s] == h.name
  {
    StageNames();
    if h.name == "prestart" { assert STAGES[0] == h.name; }
    if h.name == "createRuntime" { assert STAGES[1] == h.name; }
    if h.name == "createContainer" { assert STAGES[2] == h.name; }
  }

  /** Hook i runs before hook j: an earlier stage, or the same stage and listed earlier. */
  predicate Before(hooks: seq<Hook>, i: nat, j: nat)
    requires i < |hooks| && j < |hooks|
  {
    StageOf(hooks[i]) < StageOf(hooks[j]) || (StageOf(hooks[i]) == StageOf(hooks[j]) && i < j)
  }

  ghost predicate Ordered(hooks: seq<Hook>, idx: seq<nat>) {
    && InRange(idx, |hooks|)
    && forall a, b :: 0 <= a < b < |idx| ==> Before(hooks, idx[a], idx[b])
  }

  /** The stable ordering by stage of the supported hooks. */
  ghost predicate IsStableOrder(hooks: seq<Hook>, idx: seq<nat>) {
    && Ordered(hooks, idx)
    && forall i: nat :: i in idx <==> i < |hooks| && Supported(hooks[i])
  }

  lemma {:induction false} OfStageMembers(hooks: seq<Hook>, stage: string, n: nat)
    requires n <= |hooks|
    ensures forall i: nat :: i in OfStage(hooks, stage, n) <==> i < n && hooks[i].name == stage
    ensures forall a, b :: 0 <= a < b < |OfStage(hooks, stage, n)| ==> OfStage(hooks, stage, n)[a] < OfStage(hooks, stage, n)[b]
  {
    if n > 0 { OfStageMembers(hooks, stage, n - 1); }
  }

  lemma {:induction false} UpToOrdered(hooks: seq<Hook>, s: nat)
    requires s <= |STAGES|
    ensures Ordered(hooks, UpTo(hooks, s))
    ensures forall i: nat :: i in UpTo(hooks, s) <==> i < |hooks| && exists t :: 0 <= t < s && STAGES[t] == hooks[i].name
  {
    hide OfStage, StageOf, Supported;
    if s > 0 {
      UpToOrdered(hooks, s - 1);
      OfStageMembers(hooks, STAGES[s - 1], |hooks|);
      var before, last := UpTo(hooks, s - 1), OfStage(hooks, STAGES[s - 1], |hooks|);
      forall a | 0 <= a < |before| ensures StageOf(hooks[before[a]]) < s - 1 {
        assert before[a] in before;
        var t :| 0 <= t < s - 1 && STAGES[t] == hooks[before[a]].name;
        StageAt(hooks[before[a]], t);
      }
      forall b | 0 <= b < |last| ensures StageOf(hooks[last[b]]) == s - 1 {
        assert last[b] in last;
        StageAt(hooks[last[b]], s - 1);
      }
    }
  }

  /** Main result: the hooks that run are the supported ones, each once, ordered by stage
      and within a stage as listed. */
  lemma ScheduleStable(hooks: seq<Hook>)
    ensures IsStableOrder(hooks, Schedule(hooks))
  {
    hide UpTo, Supported, Ordered;
    UpToOrdered(hooks, |STAGES|);
    forall h: Hook { SupportedIsStage(h); }
  }

  /** Main result: there is no other such order. */
  lemma StableOrderUnique(hooks: seq<Hook>, x: seq<nat>, y: seq<nat>)
    requires IsStableOrder(hooks, x) && IsStableOrder(hooks, y)
    ensures x == y
  {
    OrderedUnique(hooks, x, y);
  }

  lemma {:induction false} OrderedUnique(hooks: seq<Hook>, x: seq<nat>, y: seq<nat>)
    requires Ordered(hooks, x) && Ordered(hooks, y)
    requires forall i: nat :: i in x <==> i in y
    ensures x == y
    decreases |x|
  {
    if x == [] {
      if y != [] { HasMember(y); }
    } else {
      assert x[0] in y && y != [] && y[0] in x;
      FirstIsLeast(hooks, x, y[0]);
      FirstIsLeast(hooks, y, x[0]);
      var x', y' := x[1..], y[1..];
      forall i: nat ensures i in x' <==> i in y' {
        if i in x' { var k :| 0 <= k < |x'| && x'[k] == i; assert Before(hooks, x[0], x[k + 1]); assert i in y; }
        if i in y' { var k :| 0 <= k < |y'| && y'[k] == i; assert Before(hooks, y[0], y[k + 1]); assert i in x; }
      }
      OrderedTail(hooks, x);
      OrderedTail(hooks, y);
      OrderedUnique(hooks, x', y');
    }
  }

  lemma HasMember(x: seq<nat>)
    requires x != []
    ensures exists i: nat :: i in x
  {
    assert x[0] in x;
  }

  lemma FirstIsLeast(hooks: seq<Hook>, x: seq<nat>, v: nat)
    requires Ordered(hooks, x) && v in x
    ensures x[0] == v || Before(hooks, x[0], v)
  {
  }

  lemma OrderedTail(hooks: seq<Hook>, x: seq<nat>)
    requires Ordered(hooks, x) && x != []
    ensures Ordered(hooks, x[1..])
  {
    assert forall k :: 0 <= k < |x[1..]| ==> x[1..][k] == x[k + 1];
  }
}
