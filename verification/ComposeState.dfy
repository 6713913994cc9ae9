/** What a compose run may do to the state it finds: the relations between its states that its
    steps keep, and what a workspace needs in order to run. */
module ComposeState {
  import opened Objects
  import opened ComposePlan

  // ------------------------------------------------------------------ what a step needs

  /** A workspace whose step runs a command: it has an image and a worktree. */
  predicate HasCommand(ws: Workspace) {
    Legible(ws) && ws.meta.value.image.Some? && ws.meta.value.worktree
  }

  /** Those of `ws` that run a command, in order. */
  function Commands(ws: seq<Workspace>): seq<Workspace> {
    if ws == [] then [] else (if HasCommand(ws[0]) then [ws[0]] else []) + Commands(ws[1..])
  }

  lemma {:induction false} CommandsConcat(a: seq<Workspace>, b: seq<Workspace>)
    ensures Commands(a + b) == Commands(a) + Commands(b)
  {
    if a == [] {
      assert a + b == b;
    } else {
      assert (a + b)[1..] == a[1..] + b;
      CommandsConcat(a[1..], b);
    }
  }

  /** The inputs that have an output to hand on, in order. */
  function WithOutput(inputs: seq<Workspace>): seq<Workspace> {
    if inputs == [] then []
    else
      var last := Last(inputs);
      WithOutput(Init(inputs)) + (if Legible(last) && last.meta.value.output != NoOutput then [last] else [])
  }

  lemma WithOutputStep(inputs: seq<Workspace>, i: nat)
    requires i < |inputs|
    ensures WithOutput(inputs[..i + 1]) == WithOutput(inputs[..i])
      + (if Legible(inputs[i]) && inputs[i].meta.value.output != NoOutput then [inputs[i]] else [])
  {
    assert Init(inputs[..i + 1]) == inputs[..i] && Last(inputs[..i + 1]) == inputs[i];
  }

  /** A call of the runtime to run a command: the outputs that were mounted, how many sidecars there
      were, and the exit code if it ended. */
  datatype Call = Call(mounts: seq<Workspace>, sidecars: nat, code: Result<int>)

  /** The command of `ws` was run with the outputs of its inputs and with its sidecars. */
  predicate Proper(ws: Workspace, call: Call) {
    && HasCommand(ws)
    && call.mounts == WithOutput(ws.inputs)
    && call.sidecars == |ws.meta.value.sidecars|
  }

  /** An image that is there, or can be built from what is there. */
  predicate Available(b: Build, envs: set<Build>) {
    b.Build? && (b in envs || (b.context && forall i :: 0 <= i < |b.bases| ==> Available(b.bases[i], envs)))
  }

  /** Whatever is there now could be built from what was there at first. */
  ghost predicate Derived(envs: set<Build>, first: set<Build>) {
    first <= envs && forall b :: b in envs && b.Build? ==> Available(b, first)
  }

  /** The images of the step and of its sidecars can be had. */
  predicate ImagesAvailable(ws: Workspace, envs: set<Build>)
    requires HasCommand(ws)
  {
    && Available(ws.meta.value.image.value, envs)
    && forall i :: 0 <= i < |ws.meta.value.sidecars| ==> Available(ws.meta.value.sidecars[i].image, envs)
  }

  /** `ws` has no command, or one that ends well in images that can be had. */
  predicate StepWorks(ws: Workspace, envs: set<Build>, exit: Workspace -> int) {
    HasCommand(ws) ==> exit(ws) == 0 && ImagesAvailable(ws, envs)
  }

  /** What `ws` is to hand on is there, or its command makes it. */
  predicate Provides(ws: Workspace, outputs: set<Workspace>) {
    Legible(ws) && (ws.meta.value.output == NoOutput || ws in outputs || HasCommand(ws))
  }

  /** Everything that `ws` asks of the state in which a session starts. */
  predicate Works(ws: Workspace, start: Snapshot, exit: Workspace -> int) {
    && Legible(ws)
    && (forall i :: 0 <= i < |ws.inputs| ==> Provides(ws.inputs[i], start.outputs))
    && StepWorks(ws, start.envs, exit)
  }

  // ------------------------------------------------------------------ images built

  /** The log `log'` extends `log` by images of `from`, each of them once and none of them there
      `before`; `after` is what there is then. */
  ghost predicate Built(log': seq<Build>, log: seq<Build>, before: set<Build>, after: set<Build>, from: set<Build>) {
    && log <= log'
    && Distinct(log'[|log|..])
    && ToSet(log'[|log|..]) <= from
    && ToSet(log'[|log|..]) !! before
    && after == before + ToSet(log'[|log|..])
  }

  lemma BuiltNothing(log: seq<Build>, before: set<Build>, from: set<Build>)
    ensures Built(log, log, before, before, from)
  {
    assert log[|log|..] == [];
  }

  lemma BuiltThen(a: seq<Build>, b: seq<Build>, c: seq<Build>, x: set<Build>, y: set<Build>, z: set<Build>,
                  from: set<Build>, more: set<Build>)
    requires Built(b, a, x, y, from) && Built(c, b, y, z, more)
    ensures Built(c, a, x, z, from + more)
  {
    var p, q := b[|a|..], c[|b|..];
    assert c[|a|..] == p + q;
    assert ToSet(p + q) == ToSet(p) + ToSet(q);
    forall e | e in p ensures e !in q {
      assert e in ToSet(p) && e in y;
    }
    DistinctConcat(p, q);
  }

  lemma BuiltWiden(log': seq<Build>, log: seq<Build>, before: set<Build>, after: set<Build>, from: set<Build>,
                   more: set<Build>)
    requires Built(log', log, before, after, from) && from <= more
    ensures Built(log', log, before, after, more)
  {
  }

  lemma BuiltOne(log: seq<Build>, before: set<Build>, b: Build, from: set<Build>)
    requires b !in before && b in from
    ensures Built(log + [b], log, before, before + {b}, from)
  {
    assert (log + [b])[|log|..] == [b];
    assert ToSet([b]) == {b};
  }

  lemma BuiltOnly(log': seq<Build>, log: seq<Build>, before: set<Build>, after: set<Build>, b: Build)
    requires b.Build? && b !in before && Built(log', log, before, after, Closures(b.bases, |b.bases|))
    ensures b !in after
  {
    NotOwnBase(b, |b.bases|);
  }

  // ------------------------------------------------------------------ what a run may do

  datatype Snapshot = Snapshot(
    success: set<Workspace>,
    outputs: set<Workspace>,
    attempted: set<Workspace>,
    envs: set<Build>,
    live: set<nat>,
    scratch: set<nat>,
    recorded: seq<Workspace>,
    executed: seq<Workspace>,
    calls: map<Workspace, Call>,
    prepared: seq<Build>)

  /** Nothing is executed twice or unattempted, and what is not attempted is as it was at the start. */
  ghost predicate Kept(now: Snapshot, start: Snapshot) {
    && Distinct(now.executed)
    && ToSet(now.executed) <= now.attempted
    && forall w :: w !in now.attempted ==>
      (w in now.success <==> w in start.success) && (w in now.outputs <==> w in start.outputs)
  }

  /** What was run was run properly. A new success has a command that ended with 0, or none; a new
      output was made by a command; and nothing was attempted that could be skipped. */
  ghost predicate Called(now: Snapshot, start: Snapshot) {
    && now.calls.Keys == ToSet(now.executed)
    && (forall w :: w in now.calls ==> Proper(w, now.calls[w]))
    && (forall w :: w in now.success && w !in start.success && HasCommand(w) ==>
      w in now.calls && now.calls[w].code == Ok(0))
    && (forall w :: w in now.outputs && w !in start.outputs ==> HasCommand(w))
    && (forall w :: w in now.attempted ==> !Skippable(w, start.success, start.outputs))
    && Derived(now.envs, start.envs)
  }

  /** What was attempted between `a` and `b` succeeded, and could. */
  ghost predicate Succeeded(a: Snapshot, b: Snapshot) {
    forall w :: w in b.attempted && w !in a.attempted ==> w in b.success
  }

  ghost predicate Worked(a: Snapshot, b: Snapshot, start: Snapshot, exit: Workspace -> int) {
    forall w :: w in b.attempted && w !in a.attempted ==> Works(w, start, exit)
  }

  /** `w` is on record, and what it can hand on is there. */
  ghost predicate Done(w: Workspace, now: Snapshot, start: Snapshot) {
    && w in now.success
    && (Legible(w) && w.meta.value.output != NoOutput && (w in start.outputs || HasCommand(w)) ==> w in now.outputs)
  }

  ghost predicate AllDone(now: Snapshot, start: Snapshot, demand: set<Workspace>) {
    forall w :: w in now.attempted && w in demand ==> Done(w, now, start)
  }

  ghost predicate AllWork(demand: set<Workspace>, start: Snapshot, exit: Workspace -> int) {
    forall w :: w in demand ==> Works(w, start, exit)
  }

  /** From `a` to `b`, only members of `demand` were attempted, only what they use was built, what
      had been attempted before was left alone, and what was started was stopped again. */
  ghost predicate Advances(a: Snapshot, b: Snapshot, demand: set<Workspace>, tidy: bool) {
    && a.attempted <= b.attempted <= a.attempted + demand
    && (forall w :: w in a.attempted ==>
      && (w in b.success <==> w in a.success)
      && (w in b.outputs <==> w in a.outputs)
      && (w in b.executed <==> w in a.executed)
      && (w in b.calls <==> w in a.calls))
    && Built(b.prepared, a.prepared, a.envs, b.envs, JobUses(b.attempted - a.attempted))
    && (tidy ==> b.live == a.live && b.scratch == a.scratch)
  }

  lemma AdvancesNot(a: Snapshot, demand: set<Workspace>, tidy: bool)
    ensures Advances(a, a, demand, tidy)
  {
    BuiltNothing(a.prepared, a.envs, JobUses(a.attempted - a.attempted));
  }

  lemma AdvancesStart(a: Snapshot, ws: Workspace, tidy: bool)
    ensures Advances(a, a.(attempted := a.attempted + {ws}), {ws}, tidy)
  {
    BuiltNothing(a.prepared, a.envs, JobUses(a.attempted + {ws} - a.attempted));
  }

  lemma JobUsesUnion(a: set<Workspace>, b: set<Workspace>)
    ensures JobUses(a + b) == JobUses(a) + JobUses(b)
  {
  }

  lemma AdvancesThen(a: Snapshot, b: Snapshot, c: Snapshot, demand: set<Workspace>, more: set<Workspace>, tidy: bool)
    requires Advances(a, b, demand, tidy) && Advances(b, c, more, tidy)
    ensures Advances(a, c, demand + more, tidy)
  {
    var p, q := b.attempted - a.attempted, c.attempted - b.attempted;
    BuiltThen(a.prepared, b.prepared, c.prepared, a.envs, b.envs, c.envs, JobUses(p), JobUses(q));
    assert c.attempted - a.attempted == p + q;
    JobUsesUnion(p, q);
  }

  /** From `b` to `c` the step of `ws` was taken. */
  ghost predicate Stepped(b: Snapshot, c: Snapshot, ws: Workspace, tidy: bool) {
    && c.attempted == b.attempted
    && b.success <= c.success <= b.success + {ws}
    && (forall w :: w != ws ==> (w in c.outputs <==> w in b.outputs))
    && (if c.executed == b.executed then c.calls == b.calls
        else
          && c.executed == b.executed + [ws] && ws in c.calls && c.calls == b.calls[ws := c.calls[ws]]
          && Proper(ws, c.calls[ws]))
    && (ws in c.success && ws !in b.success && HasCommand(ws) ==>
      c.executed != b.executed && c.calls[ws].code == Ok(0))
    && (!HasCommand(ws) ==> c.outputs == b.outputs)
    && b.envs <= c.envs
    && Built(c.prepared, b.prepared, b.envs, c.envs, Uses(ws))
    && (tidy ==> c.live == b.live && c.scratch == b.scratch)
  }

  lemma AdvancesStep(a: Snapshot, b: Snapshot, c: Snapshot, start: Snapshot, ws: Workspace,
                     demand: set<Workspace>, tidy: bool)
    requires Advances(a, b, demand, tidy) && Kept(b, start) && Stepped(b, c, ws, tidy)
    requires ws in b.attempted - a.attempted && ws !in b.executed
    ensures Advances(a, c, demand, tidy) && Kept(c, start)
  {
    hide Proper, HasCommand;
    var p := b.attempted - a.attempted;
    BuiltThen(a.prepared, b.prepared, c.prepared, a.envs, b.envs, c.envs, JobUses(p), Uses(ws));
    assert JobUses(p) + Uses(ws) == JobUses(p);
    DistinctConcat(b.executed, [ws]);
  }

  /** Whatever the newly attempted take in was attempted too, if a run has to. */
  ghost predicate Tried(before: set<Workspace>, after: set<Workspace>, skip: Workspace -> bool) {
    forall w, x :: w in after - before && w.Workspace? && x in w.inputs && Legible(x) && !skip(x) ==> x in after
  }

  lemma TriedThen(a: set<Workspace>, b: set<Workspace>, c: set<Workspace>, skip: Workspace -> bool)
    requires Tried(a, b, skip) && Tried(b, c, skip) && b <= c
    ensures Tried(a, c, skip)
  {
  }

  /** So far the run and the planner agree: what the planner has seen was attempted or is skipped. */
  ghost predicate InSync(attempted: set<Workspace>, seen: set<Workspace>, skip: Workspace -> bool) {
    attempted <= seen && forall w :: w in seen ==> w in attempted || skip(w)
  }

  lemma {:induction false} DemandNotSkipped(ws: Workspace, skip: Workspace -> bool, w: Workspace)
    requires w in Demand(ws, skip)
    ensures !skip(w)
    decreases ws, 0
  {
    if w != ws {
      InputDemandNotSkipped(ws.inputs, |ws.inputs|, skip, w);
    }
  }

  lemma {:induction false} InputDemandNotSkipped(inputs: seq<Workspace>, n: nat, skip: Workspace -> bool, w: Workspace)
    requires n <= |inputs| && w in InputDemand(inputs, n, skip)
    ensures !skip(w)
    decreases inputs, n
  {
    if w in Demand(inputs[n - 1], skip) {
      DemandNotSkipped(inputs[n - 1], skip, w);
    } else {
      InputDemandNotSkipped(inputs, n - 1, skip, w);
    }
  }

  /** An output that is there and will not be made again. */
  ghost predicate Settled(m: Workspace, now: Snapshot, skip: Workspace -> bool) {
    m in now.outputs && (m in now.attempted || skip(m))
  }

  lemma StaysSettled(m: Workspace, start: Snapshot, a: Snapshot, b: Snapshot, ws: Workspace,
                     skip: Workspace -> bool, tidy: bool)
    requires Settled(m, a, skip) && Kept(a, start) && Kept(b, start) && Advances(a, b, Demand(ws, skip), tidy)
    ensures Settled(m, b, skip)
  {
    if m !in a.attempted && m in b.attempted {
      DemandNotSkipped(ws, skip, m);
    }
  }

  /** With the inputs of `ws` run, only its own step is left. */
  lemma AfterInputs(a: Snapshot, b: Snapshot, start: Snapshot, ws: Workspace, skip: Workspace -> bool, tidy: bool)
    requires ws.Workspace? && !skip(ws) && ws !in a.attempted && Kept(a, start)
    requires Advances(a.(attempted := a.attempted + {ws}), b, InputDemand(ws.inputs, |ws.inputs|, skip), tidy)
    ensures Advances(a, b, Demand(ws, skip), tidy) && ws in b.attempted && ws !in b.executed
  {
    var begun := a.(attempted := a.attempted + {ws});
    var inputs := InputDemand(ws.inputs, |ws.inputs|, skip);
    AdvancesStart(a, ws, tidy);
    AdvancesThen(a, begun, b, {ws}, inputs, tidy);
    assert {ws} + inputs == Demand(ws, skip);
    assert ws in begun.attempted && ws !in begun.executed;
  }

  lemma TriedInputs(a: set<Workspace>, b: set<Workspace>, ws: Workspace, skip: Workspace -> bool)
    requires ws.Workspace? && Tried(a + {ws}, b, skip)
    requires forall x :: x in ws.inputs && Legible(x) && !skip(x) ==> x in b
    ensures Tried(a, b, skip)
  {
  }

  lemma KeptStart(a: Snapshot, start: Snapshot, ws: Workspace)
    requires Kept(a, start)
    ensures Kept(a.(attempted := a.attempted + {ws}), start)
  {
  }

  lemma SessionStart(start: Snapshot, demand: set<Workspace>)
    requires start.attempted == {} && start.executed == [] && start.calls == map[]
    ensures Kept(start, start) && Called(start, start) && AllDone(start, start, demand)
  {
  }

  lemma CalledStart(a: Snapshot, start: Snapshot, ws: Workspace)
    requires Called(a, start) && !Skippable(ws, start.success, start.outputs)
    ensures Called(a.(attempted := a.attempted + {ws}), start)
  {
  }

  lemma CalledStep(b: Snapshot, c: Snapshot, start: Snapshot, ws: Workspace, tidy: bool)
    requires Called(b, start) && Stepped(b, c, ws, tidy) && ws !in b.executed && Derived(c.envs, start.envs)
    ensures Called(c, start)
  {
    hide Proper, HasCommand, Derived, Built, Uses;
    assert ws !in b.calls;
    if c.executed != b.executed {
      assert ToSet(c.executed) == ToSet(b.executed) + {ws};
    }
  }

  /** What was done before stays done. */
  lemma DoneStays(a: Snapshot, b: Snapshot, start: Snapshot, demand: set<Workspace>, all: set<Workspace>, tidy: bool)
    requires Advances(a, b, demand, tidy) && AllDone(a, start, all) && AllDone(b, start, demand)
    ensures AllDone(b, start, all)
  {
    hide HasCommand, Built;
  }

  lemma WorkSubset(some: set<Workspace>, all: set<Workspace>, start: Snapshot, exit: Workspace -> int)
    requires AllWork(all, start, exit) && some <= all
    ensures AllWork(some, start, exit)
  {
  }

  /** Success and soundness add up over consecutive parts of a run. */
  lemma SucceededThen(a: Snapshot, b: Snapshot, c: Snapshot, more: set<Workspace>, tidy: bool)
    requires Succeeded(a, b) && Succeeded(b, c) && Advances(b, c, more, tidy)
    ensures Succeeded(a, c)
  {
    hide Built;
  }

  lemma WorkedThen(a: Snapshot, b: Snapshot, c: Snapshot, start: Snapshot, exit: Workspace -> int)
    requires Worked(a, b, start, exit) && Worked(b, c, start, exit)
    ensures Worked(a, c, start, exit)
  {
    hide Works;
  }

  /** An input whose run succeeded and whose output is there can be handed on. */
  lemma HandsOn(x: Workspace, now: Snapshot, start: Snapshot)
    requires Called(now, start) && Legible(x) && (x.meta.value.output == NoOutput || x in now.outputs)
    ensures Provides(x, start.outputs)
  {
  }

  /** An input that is done or skipped has its output there. */
  lemma OutputThere(x: Workspace, now: Snapshot, start: Snapshot, skip: Workspace -> bool)
    requires skip == SkipRule(false, start.success, start.outputs) && Kept(now, start) && Called(now, start)
    requires Provides(x, start.outputs) && AllDone(now, start, Demand(x, skip)) && (x in now.attempted || skip(x))
    ensures x.meta.value.output != NoOutput ==> x in now.outputs
  {
    hide HasCommand, Proper, Derived;
    if skip(x) {
      assert x !in now.attempted;
    } else {
      assert x in Demand(x, skip);
    }
  }

  /** What is done is skipped the next time. */
  lemma DoneIsSkipped(ws: Workspace, now: Snapshot, start: Snapshot, skip: Workspace -> bool)
    requires skip == SkipRule(false, start.success, start.outputs) && Called(now, start)
    requires ws in now.attempted && Provides(ws, start.outputs) && AllDone(now, start, Demand(ws, skip))
    ensures Skippable(ws, now.success, now.outputs)
  {
    hide HasCommand, Proper, Derived;
    assert ws in Demand(ws, skip);
  }

  /** In a run that is bound to succeed no workspace is met again before it is done. */
  lemma NotDoneYet(ws: Workspace, now: Snapshot, start: Snapshot, skip: Workspace -> bool)
    requires skip == SkipRule(false, start.success, start.outputs) && Called(now, start)
    requires ws in now.attempted && !Skippable(ws, now.success, now.outputs)
    ensures !(Provides(ws, start.outputs) && AllDone(now, start, Demand(ws, skip)))
  {
    if Provides(ws, start.outputs) && AllDone(now, start, Demand(ws, skip)) {
      DoneIsSkipped(ws, now, start, skip);
    }
  }

  lemma {:induction false} DemandShallower(ws: Workspace, skip: Workspace -> bool, w: Workspace)
    requires w in Demand(ws, skip)
    ensures Height(w) <= Height(ws)
    decreases ws, 0
  {
    if w != ws {
      InputDemandShallower(ws.inputs, |ws.inputs|, skip, w);
    }
  }

  lemma {:induction false} InputDemandShallower(inputs: seq<Workspace>, n: nat, skip: Workspace -> bool, w: Workspace)
    requires n <= |inputs| && w in InputDemand(inputs, n, skip)
    ensures Height(w) <= MaxHeight(inputs)
    decreases inputs, n
  {
    if w in Demand(inputs[n - 1], skip) {
      DemandShallower(inputs[n - 1], skip, w);
      assert inputs[n - 1] in inputs;
    } else {
      InputDemandShallower(inputs, n - 1, skip, w);
    }
  }

  /** A workspace is not demanded by its own inputs. */
  lemma NotOwnDemand(ws: Workspace, skip: Workspace -> bool)
    requires ws.Workspace? && !skip(ws)
    ensures Demand(ws, skip) == {ws} + InputDemand(ws.inputs, |ws.inputs|, skip)
    ensures ws !in InputDemand(ws.inputs, |ws.inputs|, skip)
  {
    if ws in InputDemand(ws.inputs, |ws.inputs|, skip) {
      InputDemandShallower(ws.inputs, |ws.inputs|, skip, ws);
    }
  }

  lemma {:induction false} DemandOfInput(inputs: seq<Workspace>, i: nat, n: nat, skip: Workspace -> bool)
    requires i < n <= |inputs|
    ensures Demand(inputs[i], skip) <= InputDemand(inputs, n, skip)
  {
    if i + 1 < n {
      DemandOfInput(inputs, i, n - 1, skip);
    }
  }

  /** With its inputs done, a workspace is done after its own step. */
  lemma DoneAfterStep(a: Snapshot, b: Snapshot, c: Snapshot, start: Snapshot, ws: Workspace, skip: Workspace -> bool,
                      tidy: bool)
    requires ws.Workspace? && !skip(ws) && ws !in a.attempted && Kept(a, start)
    requires Advances(a.(attempted := a.attempted + {ws}), b, InputDemand(ws.inputs, |ws.inputs|, skip), tidy)
    requires AllDone(b, start, InputDemand(ws.inputs, |ws.inputs|, skip)) && Stepped(b, c, ws, tidy)
    requires ws in c.success && (HasCommand(ws) && ws.meta.value.output != NoOutput ==> ws in c.outputs)
    ensures AllDone(c, start, Demand(ws, skip))
  {
    hide Proper, Built, HasCommand;
    NotOwnDemand(ws, skip);
    forall w | w in c.attempted && w in Demand(ws, skip) ensures Done(w, c, start) {
      if w == ws {
        assert ws in b.outputs <==> ws in a.outputs;
      } else {
        assert Done(w, b, start);
      }
    }
  }

  lemma SkipSync(ws: Workspace, now: Snapshot, start: Snapshot, seen: set<Workspace>)
    requires Skippable(ws, now.success, now.outputs) && Kept(now, start)
    ensures var skip := SkipRule(false, start.success, start.outputs);
            && (ws in now.attempted || skip(ws))
            && (InSync(now.attempted, seen, skip) ==>
              && JobPlan(ws, seen, skip).Ok?
              && JobPlan(ws, seen, skip).value.out == []
              && InSync(now.attempted, JobPlan(ws, seen, skip).value.seen, skip))
  {
  }

  lemma RunSync(ws: Workspace, now: Snapshot, start: Snapshot, seen: set<Workspace>)
    requires Legible(ws) && !Skippable(ws, now.success, now.outputs) && ws !in now.attempted && Kept(now, start)
    ensures var skip := SkipRule(false, start.success, start.outputs);
            && !skip(ws)
            && (InSync(now.attempted, seen, skip) ==> ws !in seen && InSync(now.attempted + {ws}, seen + {ws}, skip))
  {
  }

  lemma AllInputs(inputs: seq<Workspace>, i: nat, a: Snapshot, b: Snapshot, skip: Workspace -> bool, tidy: bool)
    requires i <= |inputs| && Advances(a, b, InputDemand(inputs, i, skip), tidy)
    ensures Advances(a, b, InputDemand(inputs, |inputs|, skip), tidy)
  {
    InputDemandGrows(inputs, i, |inputs|, skip);
  }

  /** A run that tried everything attempted the whole plan. */
  lemma AllTried(ws: Workspace, attempted: set<Workspace>, skip: Workspace -> bool)
    requires JobPlan(ws, {}, skip).Ok? && attempted <= Demand(ws, skip)
    requires Tried({}, attempted, skip) && (!skip(ws) ==> ws in attempted)
    ensures attempted == ToSet(JobPlan(ws, {}, skip).value.out)
  {
    var p := JobPlan(ws, {}, skip).value;
    PlanIsDemand(ws, skip);
    JobPlanSound(ws, {}, skip);
    forall w, x | w in attempted && w.Workspace? && x in w.inputs ensures skip(x) || x in attempted {
      assert w in p.out;
      var i :| 0 <= i < |p.out| && p.out[i] == w;
      assert Ready(x, p.out[..i], {}, skip);
      assert w in attempted - {};
    }
    DemandCovered(ws, attempted, skip);
  }

  // ------------------------------------------------------------------ parts of a run

  /** What can be relied on in a runtime. `up`: every call takes effect, and commands end with the
      codes of `exit`. `reliable`: existence queries never fail. `writable`: results can always be
      written. `tidy`: stopping a sidecar and removing a scratch artifact always take effect. */
  datatype Runtime = Runtime(up: bool, exit: Workspace -> int, reliable: bool, writable: bool, tidy: bool)

  /** What can be skipped in a session that starts like this. */
  function SkipFrom(start: Snapshot): Workspace -> bool {
    SkipRule(false, start.success, start.outputs)
  }

  /** What was recorded and executed is what is planned from `seen`. */
  ghost predicate Follows(a: Snapshot, b: Snapshot, plan: Result<Plan>, seen: set<Workspace>, skip: Workspace -> bool) {
    InSync(a.attempted, seen, skip) ==>
      && plan.Ok?
      && b.recorded == a.recorded + plan.value.out
      && b.executed == a.executed + Commands(plan.value.out)
      && InSync(b.attempted, plan.value.seen, skip)
  }

  /** From `a` to `b` a part of a session was run, for the workspaces of `demand` and with `plan` for
      a plan; it succeeded if `ok`. */
  ghost predicate RunPart(a: Snapshot, b: Snapshot, ok: bool, demand: set<Workspace>, plan: Result<Plan>,
                          seen: set<Workspace>, start: Snapshot, rt: Runtime) {
    && Kept(b, start) && Called(b, start) && Advances(a, b, demand, rt.tidy)
    && (rt.reliable ==> Tried(a.attempted, b.attempted, SkipFrom(start)))
    && (ok && rt.writable ==> Follows(a, b, plan, seen, SkipFrom(start)) && Succeeded(a, b))
    && (ok && rt.up ==> Worked(a, b, start, rt.exit))
  }

  lemma PartNone(a: Snapshot, demand: set<Workspace>, plan: Result<Plan>, seen: set<Workspace>, start: Snapshot,
                 rt: Runtime)
    requires Kept(a, start) && Called(a, start)
    ensures RunPart(a, a, false, demand, plan, seen, start, rt)
    ensures plan == Ok(Plan([], seen)) ==> RunPart(a, a, true, demand, plan, seen, start, rt)
  {
    hide Kept, Called, Advances;
    AdvancesNot(a, demand, rt.tidy);
    assert a.recorded + [] == a.recorded && a.executed + [] == a.executed;
  }

  lemma PartFails(a: Snapshot, b: Snapshot, ok: bool, demand: set<Workspace>, plan: Result<Plan>,
                  seen: set<Workspace>, start: Snapshot, rt: Runtime)
    requires RunPart(a, b, ok, demand, plan, seen, start, rt)
    ensures RunPart(a, b, false, demand, plan, seen, start, rt)
  {
  }

  /** A workspace that can be skipped now is planned as nothing. */
  lemma PartSkipped(ws: Workspace, a: Snapshot, seen: set<Workspace>, start: Snapshot, rt: Runtime)
    requires Skippable(ws, a.success, a.outputs) && Kept(a, start) && Called(a, start)
    ensures var skip := SkipFrom(start);
      && (ws in a.attempted || skip(ws))
      && RunPart(a, a, true, Demand(ws, skip), JobPlan(ws, seen, skip), seen, start, rt)
  {
    hide Called, Advances, Demand;
    AdvancesNot(a, Demand(ws, SkipFrom(start)), rt.tidy);
    SkipSync(ws, a, start, seen);
    assert a.recorded + [] == a.recorded && a.executed + [] == a.executed;
  }

  /** One more input was run. */
  lemma PartThen(inputs: seq<Workspace>, i: nat, a: Snapshot, b: Snapshot, c: Snapshot, first: bool, second: bool,
                 seen: set<Workspace>, start: Snapshot, rt: Runtime)
    requires i < |inputs|
    requires var skip := SkipFrom(start);
      var walked := InputPlan(inputs, i, seen, skip);
      var next := if walked.Ok? then walked.value.seen else {};
      && RunPart(a, b, first, InputDemand(inputs, i, skip), walked, seen, start, rt)
      && RunPart(b, c, second, Demand(inputs[i], skip), JobPlan(inputs[i], next, skip), next, start, rt)
    ensures var skip := SkipFrom(start);
      RunPart(a, c, first && second, InputDemand(inputs, i + 1, skip), InputPlan(inputs, i + 1, seen, skip), seen,
              start, rt)
  {
    hide Kept, Called, Advances, Tried, Succeeded, Worked, InSync, Commands, Demand, InputPlan, JobPlan;
    var skip := SkipFrom(start);
    var walked := InputPlan(inputs, i, seen, skip);
    AdvancesThen(a, b, c, InputDemand(inputs, i, skip), Demand(inputs[i], skip), rt.tidy);
    if rt.reliable {
      AdvancesAttempt(b, c, Demand(inputs[i], skip), rt.tidy);
      TriedThen(a.attempted, b.attempted, c.attempted, skip);
    }
    if first && second {
      if rt.writable {
        SucceededThen(a, b, c, Demand(inputs[i], skip), rt.tidy);
        if InSync(a.attempted, seen, skip) {
          InputPlanStep(inputs, i, seen, skip);
          var next := JobPlan(inputs[i], walked.value.seen, skip);
          CommandsConcat(walked.value.out, next.value.out);
        }
      }
      if rt.up {
        WorkedThen(a, b, c, start, rt.exit);
      }
    }
  }

  lemma AdvancesAttempt(a: Snapshot, b: Snapshot, demand: set<Workspace>, tidy: bool)
    requires Advances(a, b, demand, tidy)
    ensures a.attempted <= b.attempted
  {
  }

  /** With only some of the inputs run, the rest does not matter. */
  lemma PartOfInputs(inputs: seq<Workspace>, i: nat, a: Snapshot, b: Snapshot, ok: bool, plan: Result<Plan>,
                     seen: set<Workspace>, start: Snapshot, rt: Runtime)
    requires i <= |inputs| && RunPart(a, b, ok, InputDemand(inputs, i, SkipFrom(start)), plan, seen, start, rt)
    ensures RunPart(a, b, false, InputDemand(inputs, |inputs|, SkipFrom(start)),
                    InputPlan(inputs, |inputs|, seen, SkipFrom(start)), seen, start, rt)
  {
    hide Kept, Called, InputPlan, Advances;
    AllInputs(inputs, i, a, b, SkipFrom(start), rt.tidy);
  }

  /** The inputs of `ws` were run, but not all of them with success. */
  lemma PartStopped(a: Snapshot, b: Snapshot, ok: bool, ws: Workspace, seen: set<Workspace>, start: Snapshot,
                    rt: Runtime)
    requires Legible(ws) && !SkipFrom(start)(ws) && ws !in a.attempted && Kept(a, start)
    requires var begun := a.(attempted := a.attempted + {ws});
      RunPart(begun, b, ok, InputDemand(ws.inputs, |ws.inputs|, SkipFrom(start)),
              InputPlan(ws.inputs, |ws.inputs|, seen + {ws}, SkipFrom(start)), seen + {ws}, start, rt)
    requires rt.reliable ==> forall x :: x in ws.inputs && Legible(x) && !SkipFrom(start)(x) ==> x in b.attempted
    ensures RunPart(a, b, false, Demand(ws, SkipFrom(start)), JobPlan(ws, seen, SkipFrom(start)), seen, start, rt)
    ensures ws in b.attempted && ws !in b.executed
  {
    hide Called, JobPlan, InputPlan, InputDemand, Built, Follows;
    AfterInputs(a, b, start, ws, SkipFrom(start), rt.tidy);
    if rt.reliable {
      TriedInputs(a.attempted, b.attempted, ws, SkipFrom(start));
    }
  }

  /** The inputs of `ws` were run with success, and then its own step was taken. */
  lemma PartEnds(a: Snapshot, b: Snapshot, c: Snapshot, ok: bool, ws: Workspace, seen: set<Workspace>,
                 start: Snapshot, rt: Runtime)
    requires Legible(ws) && !SkipFrom(start)(ws) && ws !in a.attempted && Kept(a, start)
    requires var begun := a.(attempted := a.attempted + {ws});
      RunPart(begun, b, true, InputDemand(ws.inputs, |ws.inputs|, SkipFrom(start)),
              InputPlan(ws.inputs, |ws.inputs|, seen + {ws}, SkipFrom(start)), seen + {ws}, start, rt)
    requires rt.reliable ==> forall x :: x in ws.inputs && Legible(x) && !SkipFrom(start)(x) ==> x in b.attempted
    requires Stepped(b, c, ws, rt.tidy) && Derived(c.envs, start.envs)
    requires ok && rt.writable ==> c.recorded == b.recorded + [ws] && ws in c.success
    requires ok ==> c.executed == b.executed + Commands([ws])
    requires ok ==> forall i :: 0 <= i < |ws.inputs| ==> Provides(ws.inputs[i], start.outputs)
    requires ok && rt.up ==> StepWorks(ws, start.envs, rt.exit)
    requires InSync(a.attempted, seen, SkipFrom(start)) ==>
      ws !in seen && InSync(a.attempted + {ws}, seen + {ws}, SkipFrom(start))
    ensures RunPart(a, c, ok, Demand(ws, SkipFrom(start)), JobPlan(ws, seen, SkipFrom(start)), seen, start, rt)
  {
    hide Kept, Called, Advances, Tried, InSync, InputPlan, InputDemand, Demand, Built, Provides, StepWorks,
         Commands, Succeeded, Worked, Stepped, Derived, JobPlan;
    PartStopped(a, b, true, ws, seen, start, rt);
    AdvancesStep(a, b, c, start, ws, Demand(ws, SkipFrom(start)), rt.tidy);
    CalledStep(b, c, start, ws, rt.tidy);
    assert c.attempted == b.attempted by { SteppedAttempts(b, c, ws, rt.tidy); }
    if ok && rt.writable {
      StepSucceeded(a, b, c, ws, rt.tidy);
      PlanEnds(a, b, c, ws, seen, SkipFrom(start));
    }
    if ok && rt.up {
      StepWorked(a, b, c, ws, start, rt);
    }
  }

  lemma SteppedAttempts(b: Snapshot, c: Snapshot, ws: Workspace, tidy: bool)
    requires Stepped(b, c, ws, tidy)
    ensures c.attempted == b.attempted && b.success <= c.success
  {
  }

  lemma StepSucceeded(a: Snapshot, b: Snapshot, c: Snapshot, ws: Workspace, tidy: bool)
    requires Succeeded(a.(attempted := a.attempted + {ws}), b) && Stepped(b, c, ws, tidy) && ws in c.success
    ensures Succeeded(a, c)
  {
    hide Stepped;
    SteppedAttempts(b, c, ws, tidy);
  }

  lemma StepWorked(a: Snapshot, b: Snapshot, c: Snapshot, ws: Workspace, start: Snapshot, rt: Runtime)
    requires Worked(a.(attempted := a.attempted + {ws}), b, start, rt.exit) && c.attempted == b.attempted
    requires Legible(ws) && (forall i :: 0 <= i < |ws.inputs| ==> Provides(ws.inputs[i], start.outputs))
    requires StepWorks(ws, start.envs, rt.exit)
    ensures Worked(a, c, start, rt.exit)
  {
    hide Provides, StepWorks;
  }

  lemma PlanEnds(a: Snapshot, b: Snapshot, c: Snapshot, ws: Workspace, seen: set<Workspace>, skip: Workspace -> bool)
    requires Legible(ws) && !skip(ws)
    requires Follows(a.(attempted := a.attempted + {ws}), b, InputPlan(ws.inputs, |ws.inputs|, seen + {ws}, skip),
                     seen + {ws}, skip)
    requires InSync(a.attempted, seen, skip) ==> ws !in seen && InSync(a.attempted + {ws}, seen + {ws}, skip)
    requires c.attempted == b.attempted && c.recorded == b.recorded + [ws]
    requires c.executed == b.executed + Commands([ws])
    ensures Follows(a, c, JobPlan(ws, seen, skip), seen, skip)
  {
    hide InSync, InputPlan, Commands;
    if InSync(a.attempted, seen, skip) {
      CommandsConcat(InputPlan(ws.inputs, |ws.inputs|, seen + {ws}, skip).value.out, [ws]);
    }
  }

  // ------------------------------------------------------------------ mounts

  /** `mounts` are outputs of inputs that are there to stay; if `ok`, those of all of the first `i`. */
  ghost predicate Mounted(mounts: seq<Workspace>, inputs: seq<Workspace>, i: nat, ok: bool, now: Snapshot,
                          start: Snapshot)
    requires i <= |inputs|
  {
    && (forall m :: m in mounts ==> Settled(m, now, SkipFrom(start)) && m in inputs)
    && (ok ==> mounts == WithOutput(inputs[..i]))
    && (ok ==> forall k :: 0 <= k < i ==> Provides(inputs[k], start.outputs))
  }

  lemma MountedNone(inputs: seq<Workspace>, now: Snapshot, start: Snapshot)
    ensures Mounted([], inputs, 0, true, now, start)
  {
  }

  /** Running another workspace leaves the mounts in place. */
  lemma MountedStays(mounts: seq<Workspace>, inputs: seq<Workspace>, i: nat, ok: bool, a: Snapshot, b: Snapshot,
                     start: Snapshot, ws: Workspace, tidy: bool)
    requires i <= |inputs| && Mounted(mounts, inputs, i, ok, a, start) && Kept(a, start) && Kept(b, start)
    requires Advances(a, b, Demand(ws, SkipFrom(start)), tidy)
    ensures Mounted(mounts, inputs, i, ok, b, start)
  {
    hide Settled, Kept, Advances, Provides, WithOutput, Demand;
    forall m | m in mounts ensures Settled(m, b, SkipFrom(start)) {
      StaysSettled(m, start, a, b, ws, SkipFrom(start), tidy);
    }
  }

  lemma MountedFails(mounts: seq<Workspace>, inputs: seq<Workspace>, i: nat, n: nat, ok: bool, now: Snapshot,
                     start: Snapshot)
    requires i <= |inputs| && n <= |inputs| && Mounted(mounts, inputs, i, ok, now, start)
    ensures Mounted(mounts, inputs, n, false, now, start)
  {
  }

  /** Input `i` was run; what it hands on, if anything, is there. */
  lemma MountedStep(mounts: seq<Workspace>, inputs: seq<Workspace>, i: nat, ok: bool, now: Snapshot, start: Snapshot)
    requires i < |inputs| && Mounted(mounts, inputs, i, ok, now, start) && Called(now, start)
    requires Legible(inputs[i]) && (inputs[i].meta.value.output == NoOutput || inputs[i] in now.outputs)
    requires inputs[i] in now.attempted || SkipFrom(start)(inputs[i])
    ensures Mounted(if inputs[i].meta.value.output == NoOutput then mounts else mounts + [inputs[i]], inputs, i + 1,
                    ok, now, start)
  {
    hide Called, WithOutput, Provides;
    WithOutputStep(inputs, i);
    HandsOn(inputs[i], now, start);
    assert inputs[i] in inputs;
  }

  lemma MountedAll(mounts: seq<Workspace>, inputs: seq<Workspace>, ok: bool, now: Snapshot, start: Snapshot)
    requires Mounted(mounts, inputs, |inputs|, ok, now, start)
    ensures forall m :: m in mounts ==> m in now.outputs && m in inputs
    ensures ok ==> mounts == WithOutput(inputs)
    ensures ok ==> forall k :: 0 <= k < |inputs| ==> Provides(inputs[k], start.outputs)
  {
    hide WithOutput, Provides;
    assert inputs[..|inputs|] == inputs;
  }

  // ------------------------------------------------------------------ runs that are bound to succeed

  /** Nothing can stop the inputs from being run. */
  ghost predicate BoundInputs(inputs: seq<Workspace>, now: Snapshot, start: Snapshot, rt: Runtime) {
    && rt.up && (forall i :: 0 <= i < |inputs| ==> Provides(inputs[i], start.outputs))
    && AllWork(InputDemand(inputs, |inputs|, SkipFrom(start)), start, rt.exit)
    && AllDone(now, start, InputDemand(inputs, |inputs|, SkipFrom(start)))
  }

  /** Nothing can stop `ws` from being run. */
  ghost predicate Bound(ws: Workspace, now: Snapshot, start: Snapshot, rt: Runtime) {
    && rt.up && Legible(ws) && (ws in now.attempted ==> Provides(ws, start.outputs))
    && AllWork(Demand(ws, SkipFrom(start)), start, rt.exit)
    && AllDone(now, start, Demand(ws, SkipFrom(start)))
  }

  lemma BoundInput(inputs: seq<Workspace>, i: nat, now: Snapshot, start: Snapshot, rt: Runtime)
    requires i < |inputs| && BoundInputs(inputs, now, start, rt)
    ensures Bound(inputs[i], now, start, rt)
  {
    hide Works, Done, Demand, InputDemand;
    DemandOfInput(inputs, i, |inputs|, SkipFrom(start));
    WorkSubset(Demand(inputs[i], SkipFrom(start)), InputDemand(inputs, |inputs|, SkipFrom(start)), start, rt.exit);
  }

  /** ...and the same goes for the inputs after it. */
  lemma BoundOn(inputs: seq<Workspace>, i: nat, a: Snapshot, b: Snapshot, start: Snapshot, rt: Runtime)
    requires i < |inputs| && BoundInputs(inputs, a, start, rt)
    requires Advances(a, b, Demand(inputs[i], SkipFrom(start)), rt.tidy) && Kept(b, start) && Called(b, start)
    requires AllDone(b, start, Demand(inputs[i], SkipFrom(start)))
    requires inputs[i] in b.attempted || SkipFrom(start)(inputs[i])
    ensures BoundInputs(inputs, b, start, rt)
    ensures inputs[i].meta.value.output != NoOutput ==> inputs[i] in b.outputs
  {
    hide Works, Done, Demand, InputDemand, Kept, Called, Advances, AllDone, AllWork;
    DoneStays(a, b, start, Demand(inputs[i], SkipFrom(start)), InputDemand(inputs, |inputs|, SkipFrom(start)), rt.tidy);
    OutputThere(inputs[i], b, start, SkipFrom(start));
  }

  /** Beginning to run `ws`. */
  lemma BoundBegins(a: Snapshot, ws: Workspace, start: Snapshot, rt: Runtime)
    requires Legible(ws) && !SkipFrom(start)(ws) && Bound(ws, a, start, rt)
    ensures BoundInputs(ws.inputs, a.(attempted := a.attempted + {ws}), start, rt)
    ensures StepWorks(ws, start.envs, rt.exit)
  {
    hide HasCommand, StepWorks, Provides;
    NotOwnDemand(ws, SkipFrom(start));
    assert Works(ws, start, rt.exit);
  }

  // ------------------------------------------------------------------ the inputs of a workspace

  /** From `a` to `now` the first `i` inputs were run. */
  ghost predicate InputsRun(a: Snapshot, now: Snapshot, inputs: seq<Workspace>, i: nat, ok: bool,
                            mounts: seq<Workspace>, seen: set<Workspace>, start: Snapshot, rt: Runtime)
    requires i <= |inputs|
  {
    && RunPart(a, now, ok, InputDemand(inputs, i, SkipFrom(start)), InputPlan(inputs, i, seen, SkipFrom(start)), seen,
               start, rt)
    && Mounted(mounts, inputs, i, ok, now, start)
    && (rt.reliable ==>
      forall k :: 0 <= k < i && Legible(inputs[k]) && !SkipFrom(start)(inputs[k]) ==> inputs[k] in now.attempted)
    && (BoundInputs(inputs, a, start, rt) ==> ok && BoundInputs(inputs, now, start, rt))
  }

  lemma NoInputsYet(a: Snapshot, inputs: seq<Workspace>, seen: set<Workspace>, start: Snapshot, rt: Runtime)
    requires Kept(a, start) && Called(a, start)
    ensures InputsRun(a, a, inputs, 0, true, [], seen, start, rt)
  {
    hide RunPart, Mounted, BoundInputs, InputPlan, Kept, Called;
    InputPlanNone(inputs, seen, SkipFrom(start));
    PartNone(a, InputDemand(inputs, 0, SkipFrom(start)), InputPlan(inputs, 0, seen, SkipFrom(start)), seen, start, rt);
    MountedNone(inputs, a, start);
  }

  /** What running input `i` promised. */
  ghost predicate RanOne(b: Snapshot, c: Snapshot, x: Workspace, ran: bool, seen: set<Workspace>, start: Snapshot,
                         rt: Runtime) {
    && RunPart(b, c, ran, Demand(x, SkipFrom(start)), JobPlan(x, seen, SkipFrom(start)), seen, start, rt)
    && (ran ==> Legible(x) && (x in c.attempted || SkipFrom(start)(x)))
    && (rt.reliable && Legible(x) && !SkipFrom(start)(x) ==> x in c.attempted)
    && (Bound(x, b, start, rt) ==> ran && AllDone(c, start, Demand(x, SkipFrom(start))))
  }

  /** The walk of a planner that follows. */
  function SeenBefore(inputs: seq<Workspace>, i: nat, seen: set<Workspace>, skip: Workspace -> bool): set<Workspace>
    requires i <= |inputs|
  {
    var walked := InputPlan(inputs, i, seen, skip);
    if walked.Ok? then walked.value.seen else {}
  }

  /** ...and with its outcome: `there` says whether what it hands on is there. */
  lemma OneMoreInput(a: Snapshot, b: Snapshot, c: Snapshot, inputs: seq<Workspace>, i: nat, ok: bool, ran: bool,
                     mounts: seq<Workspace>, seen: set<Workspace>, start: Snapshot, rt: Runtime)
    requires i < |inputs| && InputsRun(a, b, inputs, i, ok, mounts, seen, start, rt)
    requires RanOne(b, c, inputs[i], ran, SeenBefore(inputs, i, seen, SkipFrom(start)), start, rt)
    ensures var x := inputs[i];
      var there := ran && (x.meta.value.output == NoOutput || x in c.outputs);
      var more := if there && x.meta.value.output != NoOutput then mounts + [x] else mounts;
      && InputsRun(a, c, inputs, i + 1, ok && there, more, seen, start, rt)
      && (!rt.up && !rt.reliable ==> InputsRun(a, c, inputs, |inputs|, false, mounts, seen, start, rt))
  {
    hide RunPart, Mounted, BoundInputs, Bound, InputPlan, JobPlan, Demand, InputDemand, Kept, Called, Advances,
         AllDone;
    var skip, x := SkipFrom(start), inputs[i];
    PartMeans(a, b, ok, InputDemand(inputs, i, skip), InputPlan(inputs, i, seen, skip), seen, start, rt);
    PartMeans(b, c, ran, Demand(x, skip), JobPlan(x, SeenBefore(inputs, i, seen, skip), skip),
              SeenBefore(inputs, i, seen, skip), start, rt);
    PartThen(inputs, i, a, b, c, ok, ran, seen, start, rt);
    AdvancesAttempt(b, c, Demand(x, skip), rt.tidy);
    MountedStays(mounts, inputs, i, ok, b, c, start, x, rt.tidy);
    if BoundInputs(inputs, b, start, rt) {
      BoundInput(inputs, i, b, start, rt);
      BoundOn(inputs, i, b, c, start, rt);
    }
    PartFails(a, c, ok && ran, InputDemand(inputs, i + 1, skip), InputPlan(inputs, i + 1, seen, skip), seen, start, rt);
    MountedFails(mounts, inputs, i, i + 1, ok, c, start);
    if ran && (x.meta.value.output == NoOutput || x in c.outputs) {
      MountedStep(mounts, inputs, i, ok, c, start);
    }
    if !rt.up && !rt.reliable {
      PartOfInputs(inputs, i + 1, a, c, false, InputPlan(inputs, i + 1, seen, skip), seen, start, rt);
      MountedFails(mounts, inputs, i, |inputs|, ok, c, start);
      BoundIsUp(inputs, a, start, rt);
    }
  }

  lemma RanKeeps(b: Snapshot, c: Snapshot, x: Workspace, ran: bool, seen: set<Workspace>, start: Snapshot, rt: Runtime)
    requires RanOne(b, c, x, ran, seen, start, rt)
    ensures Kept(c, start) && Called(c, start) && (ran ==> Legible(x))
  {
    hide Kept, Called, Advances, Follows;
  }

  lemma InputsEnd(a: Snapshot, now: Snapshot, inputs: seq<Workspace>, ok: bool, mounts: seq<Workspace>,
                  seen: set<Workspace>, start: Snapshot, rt: Runtime)
    requires InputsRun(a, now, inputs, |inputs|, ok, mounts, seen, start, rt)
    ensures forall m :: m in mounts ==> m in now.outputs && m in inputs
    ensures ok ==> mounts == WithOutput(inputs)
    ensures ok ==> forall k :: 0 <= k < |inputs| ==> Provides(inputs[k], start.outputs)
    ensures RunPart(a, now, ok, InputDemand(inputs, |inputs|, SkipFrom(start)),
                    InputPlan(inputs, |inputs|, seen, SkipFrom(start)), seen, start, rt)
    ensures rt.reliable ==> forall x :: x in inputs && Legible(x) && !SkipFrom(start)(x) ==> x in now.attempted
    ensures BoundInputs(inputs, a, start, rt) ==> ok && BoundInputs(inputs, now, start, rt)
  {
    hide RunPart, BoundInputs, Mounted, WithOutput, Provides, InputDemand, InputPlan;
    MountedAll(mounts, inputs, ok, now, start);
  }

  lemma BoundIsUp(inputs: seq<Workspace>, now: Snapshot, start: Snapshot, rt: Runtime)
    ensures BoundInputs(inputs, now, start, rt) ==> rt.up
  {
  }

  lemma BoundMeans(ws: Workspace, now: Snapshot, start: Snapshot, rt: Runtime)
    ensures Bound(ws, now, start, rt) ==>
      && rt.up && Legible(ws) && AllDone(now, start, Demand(ws, SkipFrom(start)))
      && (ws in now.attempted ==> Provides(ws, start.outputs))
  {
  }

  /** The inputs of `ws` are done, and its own step succeeded. */
  lemma BoundEnds(a: Snapshot, b: Snapshot, c: Snapshot, ws: Workspace, seen: set<Workspace>, start: Snapshot,
                  rt: Runtime)
    requires Legible(ws) && !SkipFrom(start)(ws) && ws !in a.attempted && Kept(a, start)
    requires var begun := a.(attempted := a.attempted + {ws});
      RunPart(begun, b, true, InputDemand(ws.inputs, |ws.inputs|, SkipFrom(start)),
              InputPlan(ws.inputs, |ws.inputs|, seen + {ws}, SkipFrom(start)), seen + {ws}, start, rt)
    requires BoundInputs(ws.inputs, b, start, rt) && Stepped(b, c, ws, rt.tidy)
    requires ws in c.success && (HasCommand(ws) && ws.meta.value.output != NoOutput ==> ws in c.outputs)
    ensures AllDone(c, start, Demand(ws, SkipFrom(start)))
  {
    hide Stepped, HasCommand, AllDone, Advances, Kept, Called, Demand, InputDemand, InputPlan, Follows;
    DoneAfterStep(a, b, c, start, ws, SkipFrom(start), rt.tidy);
  }

  lemma PartMeans(a: Snapshot, b: Snapshot, ok: bool, demand: set<Workspace>, plan: Result<Plan>,
                  seen: set<Workspace>, start: Snapshot, rt: Runtime)
    requires RunPart(a, b, ok, demand, plan, seen, start, rt)
    ensures Kept(b, start) && Called(b, start) && Advances(a, b, demand, rt.tidy) && Derived(b.envs, start.envs)
  {
  }

  lemma CommandsOne(ws: Workspace)
    ensures Commands([ws]) == if HasCommand(ws) then [ws] else []
  {
  }

  // ------------------------------------------------------------------ whole sessions

  /** What a session may have done, however it ended. */
  lemma SessionLimits(start: Snapshot, now: Snapshot, demand: set<Workspace>, tidy: bool)
    requires start.attempted == {} && start.prepared == []
    requires Kept(now, start) && Called(now, start) && Advances(start, now, demand, tidy)
    ensures Distinct(now.executed) && ToSet(now.executed) <= now.attempted <= demand
    ensures Distinct(now.prepared) && ToSet(now.prepared) <= JobUses(now.attempted) <= JobUses(demand)
    ensures now.calls.Keys == ToSet(now.executed) && forall w :: w in now.calls ==> Proper(w, now.calls[w])
  {
    hide Proper, HasCommand, Uses;
    assert now.prepared[0..] == now.prepared;
    assert now.attempted - {} == now.attempted;
  }

  /** What a session has done according to plan. */
  lemma SessionPlan(start: Snapshot, now: Snapshot, ok: bool, ws: Workspace, rt: Runtime)
    requires start.attempted == {} && start.recorded == [] && start.executed == []
    requires RunPart(start, now, ok, Demand(ws, SkipFrom(start)), JobPlan(ws, {}, SkipFrom(start)), {}, start, rt)
    requires rt.reliable && Legible(ws) && !SkipFrom(start)(ws) ==> ws in now.attempted
    ensures var plan := JobPlan(ws, {}, SkipFrom(start));
      && (ok && rt.writable ==>
        plan.Ok? && now.recorded == plan.value.out && now.executed == Commands(plan.value.out) && Succeeded(start, now))
      && (rt.reliable && plan.Ok? ==>
        now.attempted == ToSet(plan.value.out) && now.attempted == Demand(ws, SkipFrom(start)))
  {
    hide Kept, Called, Demand, Commands, Succeeded, Worked;
    var skip := SkipFrom(start);
    if ok && rt.writable {
      assert InSync(start.attempted, {}, skip);
      assert [] + JobPlan(ws, {}, skip).value.out == JobPlan(ws, {}, skip).value.out;
      assert [] + Commands(JobPlan(ws, {}, skip).value.out) == Commands(JobPlan(ws, {}, skip).value.out);
    }
    if rt.reliable && JobPlan(ws, {}, skip).Ok? {
      AllTried(ws, now.attempted, skip);
      PlanIsDemand(ws, skip);
    }
  }

  /** In a runtime where nothing goes wrong a session succeeds exactly when all that is demanded works. */
  lemma SessionWorks(start: Snapshot, now: Snapshot, ok: bool, ws: Workspace, rt: Runtime)
    requires start.attempted == {} && rt.up && rt.reliable && rt.writable
    requires RunPart(start, now, ok, Demand(ws, SkipFrom(start)), JobPlan(ws, {}, SkipFrom(start)), {}, start, rt)
    requires ok ==> Legible(ws) && now.attempted == Demand(ws, SkipFrom(start))
    requires Bound(ws, start, start, rt) ==> ok
    ensures ok <==> Legible(ws) && AllWork(Demand(ws, SkipFrom(start)), start, rt.exit)
  {
    hide Kept, Called, Demand, Works, Advances, Follows;
  }
}
