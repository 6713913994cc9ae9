/** The compose scheduler: a workspace is run after its inputs, at most once per session, and not at
    all when an earlier success is on record. */
module ComposeRun {
  import opened Objects
  import opened ComposePlan
  import opened ComposeState

  /** The scheduler's state and the runtime behind it: recorded results, artifacts and prepared
      environments, named by the tree they belong to. A runtime call may fail at any time. */
  class Session {
    const runtime: Runtime
    var success: set<Workspace>
    var outputs: set<Workspace>
    var envs: set<Build>
    var attempted: set<Workspace>
    /** Running sidecars and scratch artifacts, by handle; handles from `next` on are unused. */
    var live: set<nat>
    var scratch: set<nat>
    var next: nat
    /** Results written, steps executed and environments prepared, in order; and how each step was
        executed. */
    var recorded: seq<Workspace>
    var executed: seq<Workspace>
    var calls: map<Workspace, Call>
    var prepared: seq<Build>

    ghost function Now(): Snapshot
      reads this
    {
      Snapshot(success, outputs, attempted, envs, live, scratch, recorded, executed, calls, prepared)
    }

    ghost predicate Fresh()
      reads this`live, this`scratch, this`next
    {
      forall h :: h in live || h in scratch ==> h < next
    }

    // ---------------------------------------------------------------- runtime calls

    method ArtifactExists(ws: Workspace) returns (r: Result<bool>)
      ensures r.Ok? ==> (r.value <==> ws in outputs)
      ensures runtime.reliable || runtime.up ==> r.Ok?
    {
      var answers: bool := *;
      r := if runtime.reliable || runtime.up || answers then Ok(ws in outputs) else Err;
    }

    method EnvExists(b: Build) returns (r: Result<bool>)
      ensures r.Ok? ==> (r.value <==> b in envs)
      ensures runtime.up ==> r.Ok?
    {
      var answers: bool := *;
      r := if runtime.up || answers then Ok(b in envs) else Err;
    }

    /** A recipe refers to its bases, so they have to be there. */
    method PrepareEnv(b: Build) returns (ok: bool)
      requires b.Build? && forall i :: 0 <= i < |b.bases| ==> b.bases[i] in envs
      modifies this`envs, this`prepared
      ensures ok ==> envs == old(envs) + {b} && prepared == old(prepared) + [b]
      ensures !ok ==> envs == old(envs) && prepared == old(prepared)
      ensures runtime.up ==> ok
    {
      ok := *;
      ok := runtime.up || ok;
      if ok {
        envs, prepared := envs + {b}, prepared + [b];
      }
    }

    /** Failure can strike before or after the removal. */
    method RecreateOutput(ws: Workspace) returns (ok: bool)
      modifies this`outputs
      ensures forall w :: w != ws ==> (w in outputs <==> w in old(outputs))
      ensures ok ==> ws in outputs
      ensures runtime.up ==> ok
    {
      var removed, created: bool := *, *;
      removed, created := runtime.up || removed, runtime.up || created;
      if removed {
        outputs := outputs - {ws};
      }
      if created {
        outputs := outputs + {ws};
      }
      ok := removed && created;
    }

    method StartSidecarWorker(image: Build) returns (r: Result<nat>)
      requires Fresh() && image in envs
      modifies this`live, this`next
      ensures Fresh() && old(next) <= next
      ensures r.Ok? ==> r.value >= old(next) && live == old(live) + {r.value}
      ensures r.Err? ==> live == old(live)
      ensures runtime.up ==> r.Ok?
    {
      var starts: bool := *;
      if !runtime.up && !starts {
        return Err;
      }
      live := live + {next};
      r := Ok(next);
      next := next + 1;
    }

    method StopSidecars(handles: seq<nat>)
      requires Fresh()
      modifies this`live
      ensures Fresh() && live <= old(live) && old(live) - ToSet(handles) <= live
      ensures runtime.tidy ==> live == old(live) - ToSet(handles)
    {
      for i := 0 to |handles|
        invariant live <= old(live) && old(live) - ToSet(handles) <= live
        invariant runtime.tidy ==> live == old(live) - ToSet(handles[..i])
      {
        var stopped: bool := *;
        if runtime.tidy || stopped {
          live := live - {handles[i]};
        }
        assert ToSet(handles[..i + 1]) == ToSet(handles[..i]) + {handles[i]};
      }
      assert handles[..|handles|] == handles;
    }

    method CreateScratch() returns (r: Result<nat>)
      requires Fresh()
      modifies this`scratch, this`next
      ensures Fresh() && old(next) <= next
      ensures r.Ok? ==> r.value >= old(next) && scratch == old(scratch) + {r.value}
      ensures r.Err? ==> scratch == old(scratch)
      ensures runtime.up ==> r.Ok?
    {
      var created: bool := *;
      if !runtime.up && !created {
        return Err;
      }
      scratch := scratch + {next};
      r := Ok(next);
      next := next + 1;
    }

    method RemoveScratch(h: nat)
      requires Fresh()
      modifies this`scratch
      ensures Fresh() && scratch <= old(scratch)
      ensures runtime.tidy ==> scratch == old(scratch) - {h}
    {
      var removed: bool := *;
      if runtime.tidy || removed {
        scratch := scratch - {h};
      }
    }

    /** Run the step's command in its image, with a snapshot of its worktree, its sidecars running,
        its own output and those of its inputs mounted: all of these have to be there. The result
        says whether it ended, and with which exit code. */
    method Run(ws: Workspace, mounts: seq<Workspace>, snapshot: nat, handles: seq<nat>) returns (r: Result<int>)
      requires HasCommand(ws) && ws.meta.value.image.value in envs
      requires snapshot in scratch && forall h :: h in handles ==> h in live
      requires ws.meta.value.output != NoOutput ==> ws in outputs
      requires forall m :: m in mounts ==> m in outputs
      modifies this`executed, this`calls
      ensures executed == old(executed) + [ws] && calls == old(calls)[ws := Call(mounts, |handles|, r)]
      ensures runtime.up ==> r == Ok(runtime.exit(ws))
    {
      var ends: bool, code: int := *, *;
      r := if runtime.up then Ok(runtime.exit(ws)) else if ends then Ok(code) else Err;
      executed, calls := executed + [ws], calls[ws := Call(mounts, |handles|, r)];
    }

    /** An interrupted write can leave a marker without its contents. */
    method WriteResult(ws: Workspace, ok: bool)
      modifies this`success, this`recorded
      ensures old(success) <= success <= old(success) + {ws}
      ensures recorded == old(recorded) || recorded == old(recorded) + [ws]
      ensures runtime.writable || runtime.up ==> recorded == old(recorded) + [ws] && (ok ==> ws in success)
      ensures !ok ==> success == old(success)
    {
      var whole, begun: bool := *, *;
      whole := runtime.writable || runtime.up || whole;
      if ok && (whole || begun) {
        success := success + {ws};
      }
      if whole {
        recorded := recorded + [ws];
      }
    }

    // ---------------------------------------------------------------- images and sidecars

    /** Build an image and its bases where they are missing; `first` is what there was at the start. */
    method EnsureImage(b: Build, ghost first: set<Build>) returns (ok: bool)
      requires Derived(envs, first)
      modifies this`envs, this`prepared
      ensures Built(prepared, old(prepared), old(envs), envs, Closure(b))
      ensures Derived(envs, first) && old(envs) <= envs
      ensures ok ==> b in envs && Available(b, first)
      ensures runtime.up && Available(b, first) ==> ok
      decreases b
    {
      hide Built;
      BuiltNothing(prepared, envs, Closure(b));
      if b.NotABuild? {
        return false;
      }
      var there := EnvExists(b);
      if there.Err? {
        return false;
      }
      if there.value {
        return true;
      }
      ghost var log, had := prepared, envs;
      BuiltNothing(prepared, envs, Closures(b.bases, 0));
      for i := 0 to |b.bases|
        invariant Built(prepared, log, had, envs, Closures(b.bases, i))
        invariant Derived(envs, first) && had <= envs
        invariant forall k :: 0 <= k < i ==> b.bases[k] in envs && Available(b.bases[k], first)
      {
        ghost var log1, had1 := prepared, envs;
        var built := EnsureImage(b.bases[i], first);
        BuiltThen(log, log1, prepared, had, had1, envs, Closures(b.bases, i), Closure(b.bases[i]));
        if !built {
          ClosuresGrow(b.bases, i + 1, |b.bases|);
          BuiltWiden(prepared, log, had, envs, Closures(b.bases, i + 1), Closure(b));
          return false;
        }
      }
      BuiltOnly(prepared, log, had, envs, b);
      BuiltWiden(prepared, log, had, envs, Closures(b.bases, |b.bases|), Closure(b));
      var readable: bool := *;
      if !b.context || (!runtime.up && !readable) {
        return false;
      }
      ghost var log1, had1 := prepared, envs;
      ok := PrepareEnv(b);
      if ok {
        BuiltOne(log1, had1, b, Closure(b));
        BuiltThen(log, log1, prepared, had, had1, envs, Closure(b), Closure(b));
        assert Closure(b) + Closure(b) == Closure(b);
      }
    }

    /** Start the sidecars of a step; when one fails, those already started are stopped. */
    method StartSidecars(specs: seq<Sidecar>, ghost first: set<Build>) returns (ok: bool, handles: seq<nat>)
      requires Fresh() && Derived(envs, first)
      modifies this`envs, this`prepared, this`live, this`next
      ensures Fresh() && old(next) <= next
      ensures Built(prepared, old(prepared), old(envs), envs, SidecarUses(specs, |specs|))
      ensures Derived(envs, first) && old(envs) <= envs
      ensures ok ==> |handles| == |specs| && live == old(live) + ToSet(handles)
      ensures ok ==> forall h :: h in handles ==> old(next) <= h
      ensures ok ==> forall i :: 0 <= i < |specs| ==> Available(specs[i].image, first)
      ensures !ok && runtime.tidy ==> live == old(live)
      ensures runtime.up && (forall i :: 0 <= i < |specs| ==> Available(specs[i].image, first)) ==> ok
    {
      hide Built, Available, Derived;
      ok, handles := true, [];
      BuiltNothing(prepared, envs, SidecarUses(specs, 0));
      for i := 0 to |specs|
        invariant Fresh() && old(next) <= next && |handles| == i
        invariant Built(prepared, old(prepared), old(envs), envs, SidecarUses(specs, i))
        invariant Derived(envs, first) && old(envs) <= envs
        invariant live == old(live) + ToSet(handles) && forall h :: h in handles ==> old(next) <= h
        invariant forall k :: 0 <= k < i ==> Available(specs[k].image, first)
      {
        ghost var log, had := prepared, envs;
        var built := EnsureImage(specs[i].image, first);
        BuiltThen(old(prepared), log, prepared, old(envs), had, envs, SidecarUses(specs, i), Closure(specs[i].image));
        var credentials: bool := *;
        var worker := Err;
        if built && (runtime.up || credentials) {
          worker := StartSidecarWorker(specs[i].image);
        }
        if worker.Err? {
          StopSidecars(handles);
          SidecarUsesGrow(specs, i + 1, |specs|);
          BuiltWiden(prepared, old(prepared), old(envs), envs, SidecarUses(specs, i + 1), SidecarUses(specs, |specs|));
          ok := false;
          return;
        }
        handles := handles + [worker.value];
      }
    }

    // ---------------------------------------------------------------- one step

    /** What a step leaves alone: everything that belongs to other workspaces. */
    ghost predicate OnlyOwn(ws: Workspace, success0: set<Workspace>, outputs0: set<Workspace>)
      reads this`success, this`outputs
    {
      && success0 <= success <= success0 + {ws}
      && forall w :: w != ws ==> (w in outputs <==> w in outputs0)
    }

    /** How the command of a step was run, if it was: a success is recorded for exit code 0 only. */
    ghost predicate Ran(ws: Workspace, mounts: seq<Workspace>, sidecars: nat, executed0: seq<Workspace>,
                        calls0: map<Workspace, Call>, success0: set<Workspace>)
      reads this`executed, this`calls, this`success
    {
      && (if executed == executed0 then calls == calls0
          else
            && executed == executed0 + [ws] && ws in calls && calls == calls0[ws := calls[ws]]
            && calls[ws].mounts == mounts && calls[ws].sidecars == sidecars)
      && (ws in success && ws !in success0 ==> executed != executed0 && calls[ws].code == Ok(0))
    }

    /** The part of a step between starting its sidecars and stopping them. */
    method Execute(ws: Workspace, mounts: seq<Workspace>, handles: seq<nat>, extract: bool) returns (ok: bool)
      requires HasCommand(ws) && Fresh() && ws.meta.value.image.value in envs
      requires ws !in mounts && (forall m :: m in mounts ==> m in outputs) && forall h :: h in handles ==> h in live
      modifies this`success, this`outputs, this`scratch, this`next, this`recorded, this`executed, this`calls
      ensures Fresh() && old(next) <= next && (runtime.tidy ==> scratch == old(scratch))
      ensures OnlyOwn(ws, old(success), old(outputs))
      ensures Ran(ws, mounts, |handles|, old(executed), old(calls), old(success))
      ensures recorded == old(recorded) || recorded == old(recorded) + [ws]
      ensures ok ==> executed != old(executed) && calls[ws].code == Ok(0)
      ensures ok && ws.meta.value.output != NoOutput ==> ws in outputs
      ensures ok && (runtime.writable || runtime.up) ==> recorded == old(recorded) + [ws] && ws in success
      ensures runtime.up ==> (ok <==> runtime.exit(ws) == 0)
    {
      var archived: bool := *;
      if !runtime.up && !archived {
        return false;
      }
      var snapshot := CreateScratch();
      if snapshot.Err? {
        return false;
      }
      ok := ExecuteIn(ws, mounts, snapshot.value, handles, extract);
      RemoveScratch(snapshot.value);
    }

    method ExecuteIn(ws: Workspace, mounts: seq<Workspace>, snapshot: nat, handles: seq<nat>, extract: bool)
      returns (ok: bool)
      requires HasCommand(ws) && ws.meta.value.image.value in envs && snapshot in scratch
      requires ws !in mounts && (forall m :: m in mounts ==> m in outputs) && forall h :: h in handles ==> h in live
      modifies this`success, this`outputs, this`recorded, this`executed, this`calls
      ensures OnlyOwn(ws, old(success), old(outputs))
      ensures Ran(ws, mounts, |handles|, old(executed), old(calls), old(success))
      ensures recorded == old(recorded) || recorded == old(recorded) + [ws]
      ensures ok ==> executed != old(executed) && calls[ws].code == Ok(0)
      ensures ok && ws.meta.value.output != NoOutput ==> ws in outputs
      ensures ok && (runtime.writable || runtime.up) ==> recorded == old(recorded) + [ws] && ws in success
      ensures runtime.up ==> (ok <==> runtime.exit(ws) == 0)
    {
      var meta := ws.meta.value;
      if meta.output != NoOutput {
        var created := RecreateOutput(ws);
        if !created {
          return false;
        }
      }
      var ended := Run(ws, mounts, snapshot, handles);
      if ended.Err? {
        return false;
      }
      WriteResult(ws, ended.value == 0);
      if meta.output == Workdir && extract {
        var extracted: bool := *;
        if !runtime.up && !extracted {
          return false;
        }
      }
      ok := ended.value == 0;
    }

    /** Get the image of a step and its sidecars ready. */
    method PrepareStep(ws: Workspace, ghost first: set<Build>) returns (ok: bool, handles: seq<nat>)
      requires HasCommand(ws) && Fresh() && Derived(envs, first)
      modifies this`envs, this`prepared, this`live, this`next
      ensures Fresh() && old(next) <= next && Derived(envs, first) && old(envs) <= envs
      ensures Built(prepared, old(prepared), old(envs), envs, Uses(ws))
      ensures ok ==> ws.meta.value.image.value in envs && |handles| == |ws.meta.value.sidecars|
      ensures ok ==> live == old(live) + ToSet(handles) && forall h :: h in handles ==> old(next) <= h
      ensures !ok && runtime.tidy ==> live == old(live)
      ensures ok ==> ImagesAvailable(ws, first)
      ensures runtime.up && ImagesAvailable(ws, first) ==> ok
    {
      hide Built, Closure, SidecarUses, Available, Derived;
      var meta := ws.meta.value;
      handles := [];
      ok := EnsureImage(meta.image.value, first);
      ghost var log, had := prepared, envs;
      BuiltWiden(prepared, old(prepared), old(envs), envs, Closure(meta.image.value), Uses(ws));
      if !ok {
        return;
      }
      if meta.cache.Some? {
        ok := *;
        ok := runtime.up || ok;
        if !ok {
          return;
        }
      }
      ok, handles := StartSidecars(meta.sidecars, first);
      BuiltWiden(prepared, log, had, envs, SidecarUses(meta.sidecars, |meta.sidecars|), Uses(ws));
      BuiltThen(old(prepared), log, prepared, old(envs), had, envs, Uses(ws), Uses(ws));
      assert Uses(ws) + Uses(ws) == Uses(ws);
    }

    /** A whole step, once its inputs are there; `first` are the images there were at the start. */
    method RunStep(ws: Workspace, mounts: seq<Workspace>, extract: bool, ghost first: set<Build>) returns (ok: bool)
      requires Legible(ws) && Fresh() && Derived(envs, first)
      requires mounts == WithOutput(ws.inputs) && ws !in mounts && forall m :: m in mounts ==> m in outputs
      modifies this`success, this`outputs, this`envs, this`live, this`scratch, this`next, this`recorded,
               this`executed, this`calls, this`prepared
      ensures Fresh() && Derived(envs, first)
      ensures Stepped(old(Now()), Now(), ws, runtime.tidy)
      ensures ok && HasCommand(ws) ==> executed == old(executed) + [ws] && calls[ws].code == Ok(0)
      ensures !HasCommand(ws) ==> ok && executed == old(executed)
      ensures ok && HasCommand(ws) && ws.meta.value.output != NoOutput ==> ws in outputs
      ensures ok && (runtime.writable || runtime.up) ==> recorded == old(recorded) + [ws] && ws in success
      ensures runtime.up ==> (ok <==> StepWorks(ws, first, runtime.exit))
    {
      hide Built, Uses, ImagesAvailable, Derived, WithOutput;
      BuiltNothing(prepared, envs, Uses(ws));
      var meta := ws.meta.value;
      if meta.image.None? || !meta.worktree {
        WriteResult(ws, true);
        return true;
      }
      var handles;
      ok, handles := PrepareStep(ws, first);
      if !ok {
        return;
      }
      ok := Execute(ws, mounts, handles, extract);
      StopSidecars(handles);
    }

    // ---------------------------------------------------------------- the scheduler

    /** Run a workspace after its inputs, unless it can be skipped. `start` is the state the session
        began in and `seen` what a planner that mirrors it has walked so far. */
    method RunContainer(ws: Workspace, extract: bool, ghost start: Snapshot, ghost seen: set<Workspace>)
      returns (ok: bool)
      requires Fresh() && Kept(Now(), start) && Called(Now(), start)
      modifies this
      ensures Fresh() && RanOne(old(Now()), Now(), ws, ok, seen, start, runtime)
      decreases ws, 2
    {
      hide RunPart, Bound, JobPlan, Demand, Kept, Called, AllDone, Provides;
      PartNone(Now(), Demand(ws, SkipFrom(start)), JobPlan(ws, seen, SkipFrom(start)), seen, start, runtime);
      BoundMeans(ws, Now(), start, runtime);
      if !Legible(ws) {
        return false;
      }
      if ws in success {
        if ws.meta.value.output == NoOutput {
          PartSkipped(ws, Now(), seen, start, runtime);
          return true;
        }
        var there := ArtifactExists(ws);
        if there.Err? {
          return false;
        }
        if there.value {
          PartSkipped(ws, Now(), seen, start, runtime);
          return true;
        }
      }
      if ws in attempted {
        NotDoneYet(ws, Now(), start, SkipFrom(start));
        return false;
      }
      ok := RunAttempt(ws, extract, start, seen);
    }

    /** Run a workspace that was not attempted before. */
    method RunAttempt(ws: Workspace, extract: bool, ghost start: Snapshot, ghost seen: set<Workspace>)
      returns (ok: bool)
      requires Fresh() && Kept(Now(), start) && Called(Now(), start)
      requires Legible(ws) && ws !in attempted && !Skippable(ws, success, outputs)
      modifies this
      ensures Fresh() && RanOne(old(Now()), Now(), ws, ok, seen, start, runtime)
      decreases ws, 1
    {
      hide RunPart, Bound, BoundInputs, JobPlan, InputPlan, Demand, InputDemand, Kept, Called, AllDone, Stepped,
           Provides, StepWorks, Derived, Commands, HasCommand, InSync, Built;
      ghost var before := Now();
      RunSync(ws, before, start, seen);
      attempted := attempted + {ws};
      assert Now() == before.(attempted := before.attempted + {ws});
      KeptStart(before, start, ws);
      CalledStart(before, start, ws);
      if Bound(ws, before, start, runtime) {
        BoundBegins(before, ws, start, runtime);
      }
      var mounts;
      ok, mounts := RunInputs(ws, extract, start, seen + {ws});
      ghost var ready := Now();
      PartStopped(before, ready, ok, ws, seen, start, runtime);
      if !ok {
        return;
      }
      NotOwnInput(ws);
      PartMeans(before, ready, false, Demand(ws, SkipFrom(start)), JobPlan(ws, seen, SkipFrom(start)), seen, start,
                runtime);
      ok := RunStep(ws, mounts, extract, start.envs);
      CommandsOne(ws);
      SteppedAttempts(ready, Now(), ws, runtime.tidy);
      PartEnds(before, ready, Now(), ok, ws, seen, start, runtime);
      if Bound(ws, before, start, runtime) {
        BoundMeans(ws, before, start, runtime);
        BoundEnds(before, ready, Now(), ws, seen, start, runtime);
      }
    }

    /** Run the inputs of a workspace one after the other, failures notwithstanding; `mounts` are
        the outputs to hand to its step. */
    method RunInputs(ws: Workspace, extract: bool, ghost start: Snapshot, ghost seen: set<Workspace>)
      returns (ok: bool, mounts: seq<Workspace>)
      requires Legible(ws) && Fresh() && Kept(Now(), start) && Called(Now(), start)
      modifies this
      ensures Fresh()
      ensures forall m :: m in mounts ==> m in outputs && m in ws.inputs
      ensures ok ==> mounts == WithOutput(ws.inputs)
      ensures ok ==> forall i :: 0 <= i < |ws.inputs| ==> Provides(ws.inputs[i], start.outputs)
      ensures var skip := SkipFrom(start);
              && RunPart(old(Now()), Now(), ok, InputDemand(ws.inputs, |ws.inputs|, skip),
                         InputPlan(ws.inputs, |ws.inputs|, seen, skip), seen, start, runtime)
              && (runtime.reliable ==> forall x :: x in ws.inputs && Legible(x) && !skip(x) ==> x in attempted)
      ensures BoundInputs(ws.inputs, old(Now()), start, runtime) ==>
                ok && BoundInputs(ws.inputs, Now(), start, runtime)
      decreases ws, 0
    {
      hide RunPart, BoundInputs, Mounted, InputsRun, RanOne, InputPlan, InputDemand, Kept, Called, Provides, WithOutput;
      ghost var begun := Now();
      ok, mounts := true, [];
      NoInputsYet(begun, ws.inputs, seen, start, runtime);
      for i := 0 to |ws.inputs|
        invariant Fresh() && Kept(Now(), start) && Called(Now(), start)
        invariant InputsRun(begun, Now(), ws.inputs, i, ok, mounts, seen, start, runtime)
      {
        var x := ws.inputs[i];
        ghost var before := Now();
        var ran := RunContainer(x, extract, start, SeenBefore(ws.inputs, i, seen, SkipFrom(start)));
        OneMoreInput(begun, before, Now(), ws.inputs, i, ok, ran, mounts, seen, start, runtime);
        RanKeeps(before, Now(), x, ran, SeenBefore(ws.inputs, i, seen, SkipFrom(start)), start, runtime);
        if !ran {
          ok := false;
          continue;
        }
        if x.meta.value.output == NoOutput {
          continue;
        }
        var there := ArtifactExists(x);
        if there.Err? {
          InputsEnd(begun, Now(), ws.inputs, false, mounts, seen, start, runtime);
          return false, mounts;
        }
        if !there.value {
          ok := false;
          continue;
        }
        mounts := mounts + [x];
      }
      InputsEnd(begun, Now(), ws.inputs, ok, mounts, seen, start, runtime);
    }

    /** One invocation: everything that holds of it, however it ends. */
    method RunSession(ws: Workspace, extract: bool) returns (ok: bool)
      requires Fresh() && attempted == {} && recorded == [] && executed == [] && calls == map[] && prepared == []
      modifies this
      ensures var skip := SkipRule(false, old(success), old(outputs));
              && (ok && runtime.writable ==> JobPlan(ws, {}, skip).Ok? && recorded == JobPlan(ws, {}, skip).value.out)
              && Distinct(executed) && ToSet(executed) <= attempted <= Demand(ws, skip)
              && (runtime.reliable && JobPlan(ws, {}, skip).Ok? ==>
                attempted == ToSet(JobPlan(ws, {}, skip).value.out))
              && Distinct(prepared) && ToSet(prepared) <= JobUses(attempted) <= JobUses(Demand(ws, skip))
              && forall w :: w !in attempted ==>
                (w in success <==> w in old(success)) && (w in outputs <==> w in old(outputs))
      // The commands that were run, and how.
      ensures ok && runtime.writable ==> executed == Commands(recorded)
      ensures ok && runtime.writable && runtime.reliable ==> ToSet(recorded) <= success
      ensures calls.Keys == ToSet(executed) && forall w :: w in calls ==> Proper(w, calls[w])
      ensures forall w :: w in success && w !in old(success) && HasCommand(w) ==> w in calls && calls[w].code == Ok(0)
      // When nothing goes wrong in the runtime, the session succeeds exactly when every demanded
      // workspace can be run.
      ensures runtime.up && runtime.reliable && runtime.writable ==>
        var demand := Demand(ws, SkipRule(false, old(success), old(outputs)));
        (ok <==> Legible(ws) && AllWork(demand, old(Now()), runtime.exit))
      ensures runtime.tidy ==> live == old(live) && scratch == old(scratch)
    {
      hide RunPart, Bound, JobPlan, Demand, AllDone, AllWork, Commands, Proper, HasCommand, JobUses, Built, Derived,
           Distinct;
      ghost var start := Now();
      ghost var skip := SkipFrom(start);
      SessionStart(start, Demand(ws, skip));
      ok := RunContainer(ws, extract, start, {});
      PartMeans(start, Now(), ok, Demand(ws, skip), JobPlan(ws, {}, skip), {}, start, runtime);
      SessionLimits(start, Now(), Demand(ws, skip), runtime.tidy);
      SessionPlan(start, Now(), ok, ws, runtime);
      if runtime.up && runtime.reliable && runtime.writable {
        SessionWorks(start, Now(), ok, ws, runtime);
      }
    }
  }

  /** Plan, then run, from the same cache state: the job plan is what a successful run records and
      what any run attempts, and the image plan covers what any run builds. */
  method PlanThenRun(session: Session, ws: Workspace, extract: bool)
    returns (planned: bool, jobs: seq<Workspace>, listed: bool, images: seq<Build>, ok: bool)
    requires session.Fresh() && session.attempted == {}
    requires session.recorded == [] && session.executed == [] && session.calls == map[] && session.prepared == []
    modifies session
    ensures ok && session.runtime.writable && planned ==> session.recorded == jobs && session.executed == Commands(jobs)
    ensures ok && session.runtime.writable && session.runtime.reliable ==> planned
    ensures session.runtime.reliable && planned ==> session.attempted == ToSet(jobs)
    ensures planned ==> Distinct(jobs) && ToSet(session.executed) <= ToSet(jobs)
    ensures Distinct(session.executed)
    ensures listed ==> Distinct(images) && BasesFirst(images) && ToSet(session.prepared) <= ToSet(images)
  {
    var planner := new Planner(false, session.success, session.outputs, session.runtime.reliable);
    planned := planner.CollectJobs(ws);
    jobs := planner.jobs;
    var puller := new Planner(false, session.success, session.outputs, session.runtime.reliable);
    listed := puller.CollectImages(ws);
    images := puller.images;
    ok := session.RunSession(ws, extract);
  }
}
