/** The compose planner: which workspaces, and which images, a run is going to touch. */
module ComposePlan {
  import opened Objects

  // ------------------------------------------------------------------ workspaces and images

  /** An image build tree. Trees are content-addressed, so a tree is its content. `context` says
      whether the build context is there. `NotABuild` is an entry that is no tree id. */
  datatype Build =
    | Build(title: string, bases: seq<Build>, context: bool)
    | NotABuild

  datatype OutputMode = NoOutput | KeepOutput | Workdir

  datatype Sidecar = Sidecar(name: string, image: Build)

  datatype Meta = Meta(
    output: OutputMode,
    cache: Option<string>,
    image: Option<Build>,
    worktree: bool,
    sidecars: seq<Sidecar>)

  /** A workspace tree; `meta` is `None` when its metadata cannot be read. `NotATree` is an input
      entry that is no tree id. */
  datatype Workspace =
    | Workspace(title: string, meta: Option<Meta>, inputs: seq<Workspace>)
    | NotATree

  predicate Legible(ws: Workspace) {
    ws.Workspace? && ws.meta.Some?
  }

  /** A recorded success whose output, if there is one, is still there. */
  predicate Skippable(ws: Workspace, success: set<Workspace>, outputs: set<Workspace>) {
    Legible(ws) && ws in success && (ws.meta.value.output == NoOutput || ws in outputs)
  }

  /** What a planner that sees this cache state leaves out. */
  function SkipRule(ignoreCache: bool, success: set<Workspace>, outputs: set<Workspace>): Workspace -> bool {
    w => !ignoreCache && Skippable(w, success, outputs)
  }

  function Height(ws: Workspace): nat {
    if ws.Workspace? then 1 + MaxHeight(ws.inputs) else 1
  }

  function MaxHeight(ws: seq<Workspace>): (h: nat)
    ensures forall w :: w in ws ==> Height(w) <= h
  {
    if ws == [] then 0
    else
      var rest := MaxHeight(ws[1..]);
      assert forall w :: w in ws ==> w == ws[0] || w in ws[1..];
      if Height(ws[0]) > rest then Height(ws[0]) else rest
  }

  lemma NotOwnInput(ws: Workspace)
    requires ws.Workspace?
    ensures ws !in ws.inputs
  {
    assert forall w :: w in ws.inputs ==> Height(w) <= MaxHeight(ws.inputs);
  }

  // ------------------------------------------------------------------ the job plan

  datatype Plan = Plan(out: seq<Workspace>, seen: set<Workspace>)

  /** The jobs a run of `ws` would touch, inputs first, when `seen` has been walked already. */
  function JobPlan(ws: Workspace, seen: set<Workspace>, skip: Workspace -> bool): Result<Plan>
    decreases ws, 0
  {
    if ws.NotATree? then Err
    else if ws in seen then Ok(Plan([], seen))
    else if ws.meta.None? then Err
    else if skip(ws) then Ok(Plan([], seen + {ws}))
    else
      var below := InputPlan(ws.inputs, |ws.inputs|, seen + {ws}, skip);
      if below.Err? then Err else Ok(Plan(below.value.out + [ws], below.value.seen))
  }

  /** The plan of the first `n` inputs. */
  function InputPlan(inputs: seq<Workspace>, n: nat, seen: set<Workspace>, skip: Workspace -> bool): Result<Plan>
    requires n <= |inputs|
    decreases inputs, n
  {
    if n == 0 then Ok(Plan([], seen))
    else
      var before := InputPlan(inputs, n - 1, seen, skip);
      if before.Err? then Err
      else
        var last := JobPlan(inputs[n - 1], before.value.seen, skip);
        if last.Err? then Err else Ok(Plan(before.value.out + last.value.out, last.value.seen))
  }

  lemma InputPlanNone(inputs: seq<Workspace>, seen: set<Workspace>, skip: Workspace -> bool)
    ensures InputPlan(inputs, 0, seen, skip) == Ok(Plan([], seen))
  {
  }

  lemma InputPlanStep(inputs: seq<Workspace>, n: nat, seen: set<Workspace>, skip: Workspace -> bool)
    requires n < |inputs| && InputPlan(inputs, n, seen, skip).Ok?
    ensures var before := InputPlan(inputs, n, seen, skip).value;
            var last := JobPlan(inputs[n], before.seen, skip);
            && (InputPlan(inputs, n + 1, seen, skip).Ok? <==> last.Ok?)
            && (last.Ok? ==>
                  InputPlan(inputs, n + 1, seen, skip).value == Plan(before.out + last.value.out, last.value.seen))
  {
  }

  /** The plan of some inputs begins the plan of more. */
  lemma {:induction false} PlanBegins(inputs: seq<Workspace>, n: nat, m: nat, seen: set<Workspace>,
                                      skip: Workspace -> bool)
    requires n <= m <= |inputs|
    ensures InputPlan(inputs, m, seen, skip).Ok? ==>
      && InputPlan(inputs, n, seen, skip).Ok?
      && InputPlan(inputs, n, seen, skip).value.out <= InputPlan(inputs, m, seen, skip).value.out
  {
    if n == m {
    } else {
      PlanBegins(inputs, n, m - 1, seen, skip);
    }
  }

  ghost predicate Ready(x: Workspace, done: seq<Workspace>, seen: set<Workspace>, skip: Workspace -> bool) {
    skip(x) || x in seen || x in done
  }

  /** Whatever a job takes in is skipped, or was walked before, or comes earlier. */
  ghost predicate InputsFirst(out: seq<Workspace>, seen: set<Workspace>, skip: Workspace -> bool) {
    forall i :: 0 <= i < |out| ==>
      forall x :: out[i].Workspace? && x in out[i].inputs ==> Ready(x, out[..i], seen, skip)
  }

  /** What a plan says: every job is new, not skipped and listed once, after its inputs. */
  ghost predicate Planned(p: Plan, seen: set<Workspace>, skip: Workspace -> bool, height: nat) {
    && seen <= p.seen
    && (forall w :: w in p.seen ==> Ready(w, p.out, seen, skip))
    && (forall w :: w in p.out ==> w in p.seen && w !in seen && Legible(w) && !skip(w) && Height(w) <= height)
    && Distinct(p.out)
    && InputsFirst(p.out, seen, skip)
  }

  lemma PlannedThen(a: Plan, b: Plan, seen: set<Workspace>, skip: Workspace -> bool, h: nat)
    requires Planned(a, seen, skip, h) && Planned(b, a.seen, skip, h)
    ensures Planned(Plan(a.out + b.out, b.seen), seen, skip, h)
  {
    var out := a.out + b.out;
    DistinctConcat(a.out, b.out);
    forall i, x | 0 <= i < |out| && out[i].Workspace? && x in out[i].inputs ensures Ready(x, out[..i], seen, skip) {
      if i < |a.out| {
        assert out[..i] == a.out[..i];
        assert Ready(x, a.out[..i], seen, skip);
      } else {
        var k := i - |a.out|;
        assert out[i] == b.out[k] && out[..i] == a.out + b.out[..k];
        assert Ready(x, b.out[..k], a.seen, skip);
        assert x in a.seen ==> Ready(x, a.out, seen, skip);
      }
    }
  }

  lemma PlannedTop(below: Plan, ws: Workspace, seen: set<Workspace>, skip: Workspace -> bool)
    requires Legible(ws) && !skip(ws) && ws !in seen
    requires Planned(below, seen + {ws}, skip, MaxHeight(ws.inputs))
    requires forall x :: x in ws.inputs ==> x in below.seen
    ensures Planned(Plan(below.out + [ws], below.seen), seen, skip, Height(ws))
  {
    var out := below.out + [ws];
    assert forall w :: w in below.out ==> w != ws;
    DistinctConcat(below.out, [ws]);
    NotOwnInput(ws);
    forall i, x | 0 <= i < |out| && out[i].Workspace? && x in out[i].inputs ensures Ready(x, out[..i], seen, skip) {
      if i < |below.out| {
        assert out[i] == below.out[i] && out[..i] == below.out[..i];
        assert Ready(x, below.out[..i], seen + {ws}, skip);
        assert below.out[i] in below.out;
        assert Height(x) <= MaxHeight(out[i].inputs);
      } else {
        assert out[..i] == below.out;
        assert Ready(x, below.out, seen + {ws}, skip);
      }
    }
  }

  /** A job plan that succeeds is a plan, and walks what it was asked for. */
  lemma {:induction false} JobPlanSound(ws: Workspace, seen: set<Workspace>, skip: Workspace -> bool)
    requires JobPlan(ws, seen, skip).Ok?
    ensures Planned(JobPlan(ws, seen, skip).value, seen, skip, Height(ws))
    ensures ws in JobPlan(ws, seen, skip).value.seen
    decreases ws, 0
  {
    if ws !in seen && !skip(ws) {
      InputPlanSound(ws.inputs, |ws.inputs|, seen + {ws}, skip);
      PlannedTop(InputPlan(ws.inputs, |ws.inputs|, seen + {ws}, skip).value, ws, seen, skip);
    }
  }

  lemma {:induction false} InputPlanSound(inputs: seq<Workspace>, n: nat, seen: set<Workspace>, skip: Workspace -> bool)
    requires n <= |inputs| && InputPlan(inputs, n, seen, skip).Ok?
    ensures Planned(InputPlan(inputs, n, seen, skip).value, seen, skip, MaxHeight(inputs))
    ensures forall i :: 0 <= i < n ==> inputs[i] in InputPlan(inputs, n, seen, skip).value.seen
    decreases inputs, n
  {
    if n == 0 {
    } else {
      InputPlanSound(inputs, n - 1, seen, skip);
      var before := InputPlan(inputs, n - 1, seen, skip).value;
      JobPlanSound(inputs[n - 1], before.seen, skip);
      assert Height(inputs[n - 1]) <= MaxHeight(inputs);
      PlannedThen(before, JobPlan(inputs[n - 1], before.seen, skip).value, seen, skip, MaxHeight(inputs));
    }
  }

  /** The jobs a run can be asked for at all: those above no skipped workspace. */
  function Demand(ws: Workspace, skip: Workspace -> bool): set<Workspace>
    decreases ws, 0
  {
    if ws.NotATree? || skip(ws) then {} else {ws} + InputDemand(ws.inputs, |ws.inputs|, skip)
  }

  function InputDemand(inputs: seq<Workspace>, n: nat, skip: Workspace -> bool): set<Workspace>
    requires n <= |inputs|
    decreases inputs, n
  {
    if n == 0 then {} else InputDemand(inputs, n - 1, skip) + Demand(inputs[n - 1], skip)
  }

  lemma {:induction false} InputDemandGrows(inputs: seq<Workspace>, n: nat, m: nat, skip: Workspace -> bool)
    requires n <= m <= |inputs|
    ensures InputDemand(inputs, n, skip) <= InputDemand(inputs, m, skip)
  {
    if n == m {
    } else {
      InputDemandGrows(inputs, n, m - 1, skip);
    }
  }

  lemma {:induction false} PlanInDemand(ws: Workspace, seen: set<Workspace>, skip: Workspace -> bool)
    requires JobPlan(ws, seen, skip).Ok?
    ensures ToSet(JobPlan(ws, seen, skip).value.out) <= Demand(ws, skip)
    decreases ws, 0
  {
    if ws !in seen && !skip(ws) {
      InputPlanInDemand(ws.inputs, |ws.inputs|, seen + {ws}, skip);
    }
  }

  lemma {:induction false} InputPlanInDemand(inputs: seq<Workspace>, n: nat, seen: set<Workspace>,
                                             skip: Workspace -> bool)
    requires n <= |inputs| && InputPlan(inputs, n, seen, skip).Ok?
    ensures ToSet(InputPlan(inputs, n, seen, skip).value.out) <= InputDemand(inputs, n, skip)
    decreases inputs, n
  {
    if n == 0 {
    } else {
      InputPlanInDemand(inputs, n - 1, seen, skip);
      PlanInDemand(inputs[n - 1], InputPlan(inputs, n - 1, seen, skip).value.seen, skip);
    }
  }

  lemma {:induction false} DemandCovered(ws: Workspace, jobs: set<Workspace>, skip: Workspace -> bool)
    requires ws.NotATree? || skip(ws) || ws in jobs
    requires forall w, x :: w in jobs && w.Workspace? && x in w.inputs ==> x.NotATree? || skip(x) || x in jobs
    ensures Demand(ws, skip) <= jobs
    decreases ws, 0
  {
    if ws.Workspace? && !skip(ws) {
      InputDemandCovered(ws.inputs, |ws.inputs|, jobs, skip);
    }
  }

  lemma {:induction false} InputDemandCovered(inputs: seq<Workspace>, n: nat, jobs: set<Workspace>,
                                              skip: Workspace -> bool)
    requires n <= |inputs|
    requires forall i :: 0 <= i < n ==> inputs[i].NotATree? || skip(inputs[i]) || inputs[i] in jobs
    requires forall w, x :: w in jobs && w.Workspace? && x in w.inputs ==> x.NotATree? || skip(x) || x in jobs
    ensures InputDemand(inputs, n, skip) <= jobs
    decreases inputs, n
  {
    if n == 0 {
    } else {
      InputDemandCovered(inputs, n - 1, jobs, skip);
      DemandCovered(inputs[n - 1], jobs, skip);
    }
  }

  /** From scratch, the plan lists exactly the demanded jobs. */
  lemma PlanIsDemand(ws: Workspace, skip: Workspace -> bool)
    requires JobPlan(ws, {}, skip).Ok?
    ensures ToSet(JobPlan(ws, {}, skip).value.out) == Demand(ws, skip)
  {
    var p := JobPlan(ws, {}, skip).value;
    PlanInDemand(ws, {}, skip);
    JobPlanSound(ws, {}, skip);
    assert Ready(ws, p.out, {}, skip);
    forall w, x | w in p.out && w.Workspace? && x in w.inputs ensures skip(x) || x in p.out {
      var i :| 0 <= i < |p.out| && p.out[i] == w;
      assert Ready(x, p.out[..i], {}, skip);
    }
    DemandCovered(ws, ToSet(p.out), skip);
  }

  /** Every demanded workspace can be read, and so can the list of its inputs. */
  predicate Plannable(demand: set<Workspace>) {
    forall w :: w in demand ==> Legible(w) && forall i :: 0 <= i < |w.inputs| ==> w.inputs[i].Workspace?
  }

  lemma {:induction false} PlanSucceeds(ws: Workspace, seen: set<Workspace>, skip: Workspace -> bool)
    requires ws.Workspace? && Plannable(Demand(ws, skip)) && forall w :: skip(w) ==> Legible(w)
    ensures JobPlan(ws, seen, skip).Ok?
    decreases ws, 0
  {
    if !skip(ws) {
      assert ws in Demand(ws, skip);
      InputPlanSucceeds(ws.inputs, |ws.inputs|, seen + {ws}, skip);
    }
  }

  lemma {:induction false} InputPlanSucceeds(inputs: seq<Workspace>, n: nat, seen: set<Workspace>,
                                             skip: Workspace -> bool)
    requires n <= |inputs| && (forall i :: 0 <= i < |inputs| ==> inputs[i].Workspace?)
    requires Plannable(InputDemand(inputs, n, skip)) && forall w :: skip(w) ==> Legible(w)
    ensures InputPlan(inputs, n, seen, skip).Ok?
    decreases inputs, n
  {
    if n == 0 {
    } else {
      InputPlanSucceeds(inputs, n - 1, seen, skip);
      PlanSucceeds(inputs[n - 1], InputPlan(inputs, n - 1, seen, skip).value.seen, skip);
    }
  }

  /** From scratch there is a plan exactly when everything that is demanded can be read. */
  lemma PlanExists(ws: Workspace, skip: Workspace -> bool)
    requires forall w :: skip(w) ==> Legible(w)
    ensures JobPlan(ws, {}, skip).Ok? <==> ws.Workspace? && Plannable(Demand(ws, skip))
  {
    if ws.Workspace? && Plannable(Demand(ws, skip)) {
      PlanSucceeds(ws, {}, skip);
    }
    if JobPlan(ws, {}, skip).Ok? {
      var p := JobPlan(ws, {}, skip).value;
      JobPlanSound(ws, {}, skip);
      PlanIsDemand(ws, skip);
      forall w, i | w in Demand(ws, skip) && 0 <= i < |w.inputs| ensures w.inputs[i].Workspace? {
        assert w in p.out;
        var k :| 0 <= k < |p.out| && p.out[k] == w;
        assert w.inputs[i] in w.inputs && Ready(w.inputs[i], p.out[..k], {}, skip);
        assert w.inputs[i] in p.out[..k] ==> w.inputs[i] in p.out;
      }
    }
  }

  // ------------------------------------------------------------------ images

  function ImageHeight(b: Build): nat {
    if b.Build? then 1 + MaxImageHeight(b.bases) else 1
  }

  function MaxImageHeight(bs: seq<Build>): (h: nat)
    ensures forall b :: b in bs ==> ImageHeight(b) <= h
  {
    if bs == [] then 0
    else
      var rest := MaxImageHeight(bs[1..]);
      assert forall b :: b in bs ==> b == bs[0] || b in bs[1..];
      if ImageHeight(bs[0]) > rest then ImageHeight(bs[0]) else rest
  }

  /** An image and everything it is built on. */
  function Closure(b: Build): set<Build>
    decreases b, 0
  {
    if b.NotABuild? then {} else {b} + Closures(b.bases, |b.bases|)
  }

  function Closures(bases: seq<Build>, n: nat): set<Build>
    requires n <= |bases|
    decreases bases, n
  {
    if n == 0 then {} else Closures(bases, n - 1) + Closure(bases[n - 1])
  }

  lemma {:induction false} ClosuresGrow(bases: seq<Build>, n: nat, m: nat)
    requires n <= m <= |bases|
    ensures Closures(bases, n) <= Closures(bases, m)
  {
    if n == m {
    } else {
      ClosuresGrow(bases, n, m - 1);
    }
  }

  lemma {:induction false} ClosureShallower(b: Build, x: Build)
    requires x in Closure(b)
    ensures ImageHeight(x) <= ImageHeight(b)
    decreases b, 0
  {
    if x != b {
      ClosuresShallower(b.bases, |b.bases|, x);
    }
  }

  lemma {:induction false} ClosuresShallower(bases: seq<Build>, n: nat, x: Build)
    requires n <= |bases| && x in Closures(bases, n)
    ensures ImageHeight(x) <= MaxImageHeight(bases)
    decreases bases, n
  {
    if x in Closure(bases[n - 1]) {
      ClosureShallower(bases[n - 1], x);
      assert bases[n - 1] in bases;
    } else {
      ClosuresShallower(bases, n - 1, x);
    }
  }

  lemma NotOwnBase(b: Build, n: nat)
    requires b.Build? && n <= |b.bases|
    ensures b !in Closures(b.bases, n)
  {
    if b in Closures(b.bases, n) {
      ClosuresShallower(b.bases, n, b);
    }
  }

  /** Every base, however deep, is a tree id. */
  predicate Buildable(b: Build) {
    b.Build? && forall i :: 0 <= i < |b.bases| ==> Buildable(b.bases[i])
  }

  /** The image of the workspace and those of its sidecars can be listed. */
  predicate Listable(ws: Workspace) {
    Legible(ws) ==>
      && (ws.meta.value.image.Some? ==> Buildable(ws.meta.value.image.value))
      && forall i :: 0 <= i < |ws.meta.value.sidecars| ==> Buildable(ws.meta.value.sidecars[i].image)
  }

  /** The images a workspace may need: its own and those of its sidecars, with their bases. */
  function Uses(ws: Workspace): set<Build> {
    if !Legible(ws) then {}
    else ImageUses(ws.meta.value) + SidecarUses(ws.meta.value.sidecars, |ws.meta.value.sidecars|)
  }

  function ImageUses(meta: Meta): set<Build> {
    if meta.image.Some? then Closure(meta.image.value) else {}
  }

  function SidecarUses(specs: seq<Sidecar>, n: nat): set<Build>
    requires n <= |specs|
  {
    if n == 0 then {} else SidecarUses(specs, n - 1) + Closure(specs[n - 1].image)
  }

  lemma {:induction false} SidecarUsesGrow(specs: seq<Sidecar>, n: nat, m: nat)
    requires n <= m <= |specs|
    ensures SidecarUses(specs, n) <= SidecarUses(specs, m)
  {
    if n == m {
    } else {
      SidecarUsesGrow(specs, n, m - 1);
    }
  }

  function JobUses(jobs: set<Workspace>): set<Build> {
    set w, b | w in jobs && b in Uses(w) :: b
  }

  lemma JobUsesNone()
    ensures JobUses(ToSet([])) == {}
  {
  }

  lemma JobUsesOne(ws: Workspace)
    ensures JobUses(ToSet([ws])) == Uses(ws)
  {
    assert ToSet([ws]) == {ws};
    assert ws in ToSet([ws]);
  }

  lemma JobUsesConcat(a: seq<Workspace>, b: seq<Workspace>)
    ensures JobUses(ToSet(a + b)) == JobUses(ToSet(a)) + JobUses(ToSet(b))
  {
    assert ToSet(a + b) == ToSet(a) + ToSet(b);
  }

  ghost predicate AllListable(jobs: seq<Workspace>) {
    forall w :: w in jobs ==> Listable(w)
  }

  lemma ListableSet(jobs: seq<Workspace>)
    ensures AllListable(jobs) <==> forall w :: w in ToSet(jobs) ==> Listable(w)
  {
  }

  /** What can be listed for all inputs can be listed for each. */
  lemma ListablePart(inputs: seq<Workspace>, i: nat, seen: set<Workspace>, skip: Workspace -> bool)
    requires i < |inputs| && InputPlan(inputs, i, seen, skip).Ok? && InputPlan(inputs, |inputs|, seen, skip).Ok?
    requires AllListable(InputPlan(inputs, |inputs|, seen, skip).value.out)
    ensures var last := JobPlan(inputs[i], InputPlan(inputs, i, seen, skip).value.seen, skip);
      last.Ok? && AllListable(last.value.out)
  {
    hide InputPlan, JobPlan, Listable;
    InputPlanStep(inputs, i, seen, skip);
    PlanBegins(inputs, i + 1, |inputs|, seen, skip);
    var last := JobPlan(inputs[i], InputPlan(inputs, i, seen, skip).value.seen, skip).value.out;
    forall w | w in last ensures Listable(w) {
      assert w in InputPlan(inputs, i, seen, skip).value.out + last;
      assert w in InputPlan(inputs, |inputs|, seen, skip).value.out;
    }
  }

  ghost predicate BasesFirst(images: seq<Build>) {
    forall i :: 0 <= i < |images| ==>
      images[i].Build? && forall x :: x in images[i].bases ==> x in images[..i]
  }

  lemma {:induction false} ClosureListed(images: seq<Build>, b: Build)
    requires BasesFirst(images) && b in images
    ensures Closure(b) <= ToSet(images)
    decreases b, 0
  {
    var i :| 0 <= i < |images| && images[i] == b;
    assert forall k :: 0 <= k < |b.bases| ==> b.bases[k] in images[..i];
    ClosuresListed(images, b.bases, |b.bases|);
  }

  lemma {:induction false} ClosuresListed(images: seq<Build>, bases: seq<Build>, n: nat)
    requires BasesFirst(images) && n <= |bases|
    requires forall k :: 0 <= k < n ==> bases[k] in images
    ensures Closures(bases, n) <= ToSet(images)
    decreases bases, n
  {
    if n == 0 {
    } else {
      ClosuresListed(images, bases, n - 1);
      ClosureListed(images, bases[n - 1]);
    }
  }

  lemma BasesFirstPush(images: seq<Build>, b: Build)
    requires BasesFirst(images) && Distinct(images) && b.Build? && b !in images
    requires forall k :: 0 <= k < |b.bases| ==> b.bases[k] in images
    ensures BasesFirst(images + [b]) && Distinct(images + [b])
  {
    var more := images + [b];
    DistinctConcat(images, [b]);
    forall i, x | 0 <= i < |more| && x in more[i].bases ensures x in more[..i] {
      if i < |images| {
        assert more[..i] == images[..i];
      } else {
        assert more[..i] == images;
      }
    }
  }

  lemma AllJobs(ws: Workspace, jobs: seq<Workspace>, skip: Workspace -> bool)
    requires InputsFirst(jobs, {}, skip) && ToSet(jobs) == Demand(ws, skip) && Plannable(Demand(ws, skip))
    ensures ws.Workspace? && !skip(ws) ==> ws in jobs
    ensures forall w, x :: w in jobs && w.Workspace? && x in w.inputs ==> x in jobs || skip(x)
  {
    assert ws.Workspace? && !skip(ws) ==> ws in ToSet(jobs);
    forall w, x | w in jobs && w.Workspace? && x in w.inputs ensures x in jobs || skip(x) {
      var k :| 0 <= k < |jobs| && jobs[k] == w;
      assert w in ToSet(jobs) && Ready(x, jobs[..k], {}, skip);
    }
  }

  // ------------------------------------------------------------------ the planner

  /** The state of one planning walk. */
  class Planner {
    const ignoreCache: bool
    const success: set<Workspace>
    const outputs: set<Workspace>
    /** Existence queries never fail. */
    const reliable: bool
    var jobs: seq<Workspace>
    var images: seq<Build>
    var imageSeen: set<Build>
    var seen: set<Workspace>

    constructor (ignoreCache: bool, success: set<Workspace>, outputs: set<Workspace>, reliable: bool)
      ensures this.ignoreCache == ignoreCache && this.success == success
      ensures this.outputs == outputs && this.reliable == reliable
      ensures jobs == [] && images == [] && imageSeen == {} && seen == {}
    {
      this.ignoreCache, this.success, this.outputs, this.reliable := ignoreCache, success, outputs, reliable;
      jobs, images, imageSeen, seen := [], [], {}, {};
    }

    ghost function Skip(): Workspace -> bool {
      SkipRule(ignoreCache, success, outputs)
    }

    ghost predicate Listed()
      reads this`images, this`imageSeen
    {
      && imageSeen == ToSet(images)
      && Distinct(images)
      && BasesFirst(images)
      && forall b :: b in images ==> Buildable(b)
    }

    method IsSkippable(ws: Workspace) returns (r: Result<bool>)
      requires Legible(ws)
      ensures r.Ok? ==> r.value == Skippable(ws, success, outputs)
      ensures reliable ==> r.Ok?
    {
      if ws !in success {
        return Ok(false);
      }
      if ws.meta.value.output == NoOutput {
        return Ok(true);
      }
      var up: bool := *;
      r := if reliable || up then Ok(ws in outputs) else Err;
    }

    method WalkJobs(ws: Workspace) returns (ok: bool)
      modifies this`jobs, this`seen
      ensures ok ==> JobPlan(ws, old(seen), Skip()).Ok?
      ensures ok ==> jobs == old(jobs) + JobPlan(ws, old(seen), Skip()).value.out
      ensures ok ==> seen == JobPlan(ws, old(seen), Skip()).value.seen
      ensures reliable && JobPlan(ws, old(seen), Skip()).Ok? ==> ok
      decreases ws
    {
      hide InputPlan;
      if ws.NotATree? {
        return false;
      }
      if ws in seen {
        return true;
      }
      seen := seen + {ws};
      if ws.meta.None? {
        return false;
      }
      if !ignoreCache {
        var skip := IsSkippable(ws);
        if skip.Err? {
          return false;
        }
        if skip.value {
          return true;
        }
      }
      ghost var jobs0, seen0 := jobs, seen;
      InputPlanNone(ws.inputs, seen0, Skip());
      for i := 0 to |ws.inputs|
        invariant InputPlan(ws.inputs, i, seen0, Skip()).Ok?
        invariant jobs == jobs0 + InputPlan(ws.inputs, i, seen0, Skip()).value.out
        invariant seen == InputPlan(ws.inputs, i, seen0, Skip()).value.seen
      {
        InputPlanStep(ws.inputs, i, seen0, Skip());
        var walked := WalkJobs(ws.inputs[i]);
        if !walked {
          PlanBegins(ws.inputs, i + 1, |ws.inputs|, seen0, Skip());
          return false;
        }
      }
      jobs := jobs + [ws];
      ok := true;
    }

    /** `collect_job_hashes`: the demanded jobs, each once, inputs first. */
    method CollectJobs(ws: Workspace) returns (ok: bool)
      requires jobs == [] && seen == {}
      modifies this`jobs, this`seen
      ensures ok ==> JobPlan(ws, {}, Skip()).Ok? && jobs == JobPlan(ws, {}, Skip()).value.out
      ensures ok ==> Distinct(jobs) && ToSet(jobs) == Demand(ws, Skip()) && InputsFirst(jobs, {}, Skip())
      ensures ok ==> ws.Workspace? && Plannable(Demand(ws, Skip()))
      ensures reliable && ws.Workspace? && Plannable(Demand(ws, Skip())) ==> ok
      ensures reliable && JobPlan(ws, {}, Skip()).Ok? ==> ok
      ensures ok && ignoreCache ==>
        ws in jobs && forall w, x :: w in jobs && w.Workspace? && x in w.inputs ==> x in jobs
    {
      hide JobPlan, InputsFirst, Plannable, Demand, Distinct;
      ok := WalkJobs(ws);
      PlanExists(ws, Skip());
      if ok {
        assert jobs == JobPlan(ws, {}, Skip()).value.out;
        JobPlanSound(ws, {}, Skip());
        PlanIsDemand(ws, Skip());
        AllJobs(ws, jobs, Skip());
      }
    }

    method CollectImage(b: Build) returns (ok: bool)
      requires Listed()
      modifies this`images, this`imageSeen
      ensures Listed() && old(images) <= images
      ensures ok <==> Buildable(b)
      ensures ok ==> imageSeen == old(imageSeen) + Closure(b)
      decreases b
    {
      hide BasesFirst, Distinct;
      if b.NotABuild? {
        return false;
      }
      if b in imageSeen {
        ClosureListed(images, b);
        return true;
      }
      ghost var seen0 := imageSeen;
      for i := 0 to |b.bases|
        invariant Listed() && old(images) <= images
        invariant imageSeen == seen0 + Closures(b.bases, i)
        invariant forall k :: 0 <= k < i ==> Buildable(b.bases[k]) && b.bases[k] in imageSeen
      {
        var collected := CollectImage(b.bases[i]);
        if !collected {
          return false;
        }
      }
      NotOwnBase(b, |b.bases|);
      if b !in imageSeen {
        BasesFirstPush(images, b);
        imageSeen := imageSeen + {b};
        images := images + [b];
      }
      ok := true;
    }

    /** The images of one job: its own, then those of its sidecars. */
    method CollectJobImages(ws: Workspace) returns (ok: bool)
      requires Listed() && Legible(ws)
      modifies this`images, this`imageSeen
      ensures Listed() && old(images) <= images
      ensures ok ==> imageSeen == old(imageSeen) + Uses(ws)
      ensures ok <==> Listable(ws)
    {
      hide Buildable, Listed, Closure;
      var meta := ws.meta.value;
      if meta.image.Some? {
        var collected := CollectImage(meta.image.value);
        if !collected {
          return false;
        }
      }
      for i := 0 to |meta.sidecars|
        invariant Listed() && old(images) <= images
        invariant imageSeen == old(imageSeen) + ImageUses(meta) + SidecarUses(meta.sidecars, i)
        invariant forall k :: 0 <= k < i ==> Buildable(meta.sidecars[k].image)
      {
        var collected := CollectImage(meta.sidecars[i].image);
        if !collected {
          return false;
        }
      }
      ok := true;
    }

    method WalkImages(ws: Workspace) returns (ok: bool)
      requires Listed()
      modifies this`images, this`imageSeen, this`seen
      ensures Listed() && old(images) <= images
      ensures ok ==> JobPlan(ws, old(seen), Skip()).Ok?
      ensures ok ==> seen == JobPlan(ws, old(seen), Skip()).value.seen
      ensures ok ==> imageSeen == old(imageSeen) + JobUses(ToSet(JobPlan(ws, old(seen), Skip()).value.out))
      ensures ok ==> AllListable(JobPlan(ws, old(seen), Skip()).value.out)
      ensures
        reliable && JobPlan(ws, old(seen), Skip()).Ok? && AllListable(JobPlan(ws, old(seen), Skip()).value.out) ==> ok
      decreases ws
    {
      hide InputPlan, JobUses, Listed, Listable;
      JobUsesNone();
      if ws.NotATree? {
        return false;
      }
      if ws in seen {
        return true;
      }
      seen := seen + {ws};
      if ws.meta.None? {
        return false;
      }
      if !ignoreCache {
        var skip := IsSkippable(ws);
        if skip.Err? {
          return false;
        }
        if skip.value {
          return true;
        }
      }
      ghost var had, seen0 := imageSeen, seen;
      InputPlanNone(ws.inputs, seen0, Skip());
      for i := 0 to |ws.inputs|
        invariant Listed() && old(images) <= images
        invariant InputPlan(ws.inputs, i, seen0, Skip()).Ok?
        invariant seen == InputPlan(ws.inputs, i, seen0, Skip()).value.seen
        invariant imageSeen == had + JobUses(ToSet(InputPlan(ws.inputs, i, seen0, Skip()).value.out))
        invariant AllListable(InputPlan(ws.inputs, i, seen0, Skip()).value.out)
      {
        InputPlanStep(ws.inputs, i, seen0, Skip());
        ghost var seen1 := seen;
        var walked := WalkImages(ws.inputs[i]);
        if !walked {
          PlanBegins(ws.inputs, i + 1, |ws.inputs|, seen0, Skip());
          if InputPlan(ws.inputs, |ws.inputs|, seen0, Skip()).Ok? {
            if AllListable(InputPlan(ws.inputs, |ws.inputs|, seen0, Skip()).value.out) {
              ListablePart(ws.inputs, i, seen0, Skip());
            }
          }
          return false;
        }
        JobUsesConcat(InputPlan(ws.inputs, i, seen0, Skip()).value.out, JobPlan(ws.inputs[i], seen1, Skip()).value.out);
      }
      ok := CollectJobImages(ws);
      if ok {
        JobUsesOne(ws);
        JobUsesConcat(InputPlan(ws.inputs, |ws.inputs|, seen0, Skip()).value.out, [ws]);
      }
    }

    /** `collect_image_oids`: what the demanded jobs use, each image once, bases first. */
    method CollectImages(ws: Workspace) returns (ok: bool)
      requires images == [] && imageSeen == {} && seen == {}
      modifies this`images, this`imageSeen, this`seen
      ensures Distinct(images) && BasesFirst(images)
      ensures ok ==> ToSet(images) == JobUses(Demand(ws, Skip()))
      ensures ok ==>
        ws.Workspace? && Plannable(Demand(ws, Skip())) && forall w :: w in Demand(ws, Skip()) ==> Listable(w)
      ensures reliable && ws.Workspace? && Plannable(Demand(ws, Skip())) ==>
        (forall w :: w in Demand(ws, Skip()) ==> Listable(w)) ==> ok
    {
      hide Listable, Plannable;
      ok := WalkImages(ws);
      PlanExists(ws, Skip());
      if JobPlan(ws, {}, Skip()).Ok? {
        PlanIsDemand(ws, Skip());
        ListableSet(JobPlan(ws, {}, Skip()).value.out);
      }
    }
  }
}
