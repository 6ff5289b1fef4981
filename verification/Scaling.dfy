/** Demand-driven sizing: one cell up at a time, one idle cell down after a quiet window. */
module Scaling {
  import opened CellTypes
  import opened CellId
  import opened Membership

  const DEFAULT_STABILIZATION: int := 600
  const DEFAULT_SCALE_DOWN_WINDOW: int := 1800

  datatype Autoscaling = Autoscaling(
    enabled: bool,
    minReplicas: Option<int>,
    maxReplicas: Option<int>,
    scaleDownAuto: bool,
    stabilizationWindow: Option<int>,
    scaleDownWindow: Option<int>)

  datatype Demand = Demand(pending: nat, satisfiable: nat) {
    predicate Absent() {
      pending == 0 && satisfiable == 0
    }
  }

  datatype ScaleInput = ScaleInput(
    replicas: int,
    autoscaling: Option<Autoscaling>,
    liveCells: int,
    demand: Option<Demand>,
    shapeKnown: bool,
    freeGPUs: Option<int>,
    idleCells: seq<string>,
    now: int,
    lastScaleUp: Option<int>,
    lastScaleDown: Option<int>,
    demandFreeSince: Option<int>)

  datatype ScaleReason =
    | Idle | DemandUnknown | ShapeUnknown | DemandUnsatisfiable | AtMaxReplicas | NoFreeGPU
    | Stabilizing | ScaledUp | AtMinReplicas | NoIdleCell | ScaledDown

  datatype ScaleDecision = ScaleDecision(
    desired: int,
    scaledUp: bool,
    scaledDown: bool,
    drainCandidates: seq<string>,
    reason: ScaleReason)

  function Hold(desired: int, reason: ScaleReason): ScaleDecision {
    ScaleDecision(desired, false, false, [], reason)
  }

  function Floor(replicas: int, auto: Autoscaling): int {
    if auto.minReplicas.Some? then auto.minReplicas.value else replicas
  }

  function Ceiling(replicas: int, auto: Autoscaling): int {
    var floor := Floor(replicas, auto);
    Max(floor, if auto.maxReplicas.Some? then auto.maxReplicas.value else floor)
  }

  function Clamp(x: int, lo: int, hi: int): int {
    Min(Max(x, lo), hi)
  }

  function WindowOr(w: Option<int>, fallback: int): (r: int)
    ensures fallback > 0 ==> r > 0
  {
    if w.Some? && w.value > 0 then w.value else fallback
  }

  function UpWindow(auto: Autoscaling): (r: int)
    ensures r > 0
  {
    WindowOr(auto.stabilizationWindow, DEFAULT_STABILIZATION)
  }

  function DownWindow(auto: Autoscaling): (r: int)
    ensures r > 0
  {
    WindowOr(auto.scaleDownWindow, DEFAULT_SCALE_DOWN_WINDOW)
  }

  predicate Within(t: Option<int>, now: int, window: int) {
    t.Some? && now - t.value < window
  }

  function DecideScaleDown(inp: ScaleInput, auto: Autoscaling, base: int, floor: int): ScaleDecision {
    var window := DownWindow(auto);
    if !auto.scaleDownAuto then Hold(base, Idle)
    else if base <= floor then Hold(base, AtMinReplicas)
    else if inp.idleCells == [] then Hold(base, NoIdleCell)
    else if inp.demandFreeSince.None? || inp.now - inp.demandFreeSince.value < window then Hold(base, Stabilizing)
    else if Within(inp.lastScaleDown, inp.now, window) || Within(inp.lastScaleUp, inp.now, window) then
      Hold(base, Stabilizing)
    else ScaleDecision(base - 1, false, true, inp.idleCells, ScaledDown)
  }

  function DecideScale(inp: ScaleInput): ScaleDecision {
    if inp.autoscaling.None? || !inp.autoscaling.value.enabled then Hold(inp.replicas, Idle)
    else
      var auto := inp.autoscaling.value;
      var floor := Floor(inp.replicas, auto);
      var ceiling := Ceiling(inp.replicas, auto);
      var base := Clamp(inp.liveCells, floor, ceiling);
      if inp.demand.None? then Hold(base, DemandUnknown)
      else
        var demand := inp.demand.value;
        if !inp.shapeKnown && demand.satisfiable == 0 && demand.pending > 0 then Hold(base, ShapeUnknown)
        else if demand.satisfiable == 0 && demand.pending > 0 then Hold(base, DemandUnsatisfiable)
        else if demand.satisfiable == 0 then DecideScaleDown(inp, auto, base, floor)
        else if base >= ceiling then Hold(ceiling, AtMaxReplicas)
        else if inp.freeGPUs.Some? && inp.freeGPUs.value <= 0 then Hold(base, NoFreeGPU)
        else if Within(inp.lastScaleUp, inp.now, UpWindow(auto)) then Hold(base, Stabilizing)
        else ScaleDecision(base + 1, true, false, [], ScaledUp)
  }

  predicate Enabled(auto: Option<Autoscaling>) {
    auto.Some? && auto.value.enabled
  }

  /** The target stays between the floor and the ceiling, never moves by more than one from
      what exists there, and moves only with the evidence each direction demands. */
  lemma TargetIsBounded(inp: ScaleInput)
    requires Enabled(inp.autoscaling)
    ensures var auto := inp.autoscaling.value;
            var floor, ceiling := Floor(inp.replicas, auto), Ceiling(inp.replicas, auto);
            var d := DecideScale(inp);
            && floor <= d.desired <= ceiling
            && d.desired == Clamp(inp.liveCells, floor, ceiling)
                            + (if d.scaledUp then 1 else 0) - (if d.scaledDown then 1 else 0)
            && !(d.scaledUp && d.scaledDown)
            && (d.scaledUp ==> inp.demand.Some? && inp.demand.value.satisfiable > 0
                               && !Within(inp.lastScaleUp, inp.now, UpWindow(auto)))
            && (d.scaledDown ==> inp.demand.Some? && inp.demand.value.Absent() && inp.idleCells != []
                                 && inp.demandFreeSince.Some?
                                 && inp.now - inp.demandFreeSince.value >= DownWindow(auto)
                                 && !Within(inp.lastScaleDown, inp.now, DownWindow(auto))
                                 && !Within(inp.lastScaleUp, inp.now, DownWindow(auto)))
  {
  }

  /** The bounds of the target, the baseline in them, and the quiet times, from the spec. */
  datatype Limits = Limits(lo: int, hi: int, base: int, up: int, down: int)

  function LimitsOf(replicas: int, auto: Autoscaling, live: int): Limits {
    var lo := if auto.minReplicas.Some? then auto.minReplicas.value else replicas;
    var most := if auto.maxReplicas.Some? then auto.maxReplicas.value else lo;
    var hi := if most < lo then lo else most;
    Limits(lo, hi, if live < lo then lo else if live > hi then hi else live,
           if auto.stabilizationWindow.Some? && auto.stabilizationWindow.value > 0 then auto.stabilizationWindow.value else 600,
           if auto.scaleDownWindow.Some? && auto.scaleDownWindow.value > 0 then auto.scaleDownWindow.value else 1800)
  }

  /** The decision, exactly. It grows by one if and only if satisfiable demand was read, the baseline is
      below the upper bound, free GPUs are unknown or there are some, and no growth lies within its window.
      It shrinks by one if and only if demand was read as absent, shrinking is automatic, the baseline is
      above the lower bound, some cell is idle, demand has been absent for the window, and no action lies
      within it. Otherwise it stays at the baseline. Without autoscaling it is the replica count. */
  lemma ScalesExactly(inp: ScaleInput)
    ensures !Enabled(inp.autoscaling) ==> DecideScale(inp).desired == inp.replicas && !DecideScale(inp).scaledUp && !DecideScale(inp).scaledDown
    ensures Enabled(inp.autoscaling) ==>
              var auto := inp.autoscaling.value;
              var lim, d := LimitsOf(inp.replicas, auto, inp.liveCells), DecideScale(inp);
              && (d.scaledUp <==>
                    && inp.demand.Some? && inp.demand.value.satisfiable > 0 && lim.base < lim.hi
                    && (inp.freeGPUs.Some? ==> inp.freeGPUs.value > 0)
                    && (inp.lastScaleUp.Some? ==> inp.now - inp.lastScaleUp.value >= lim.up))
              && (d.scaledDown <==>
                    && inp.demand.Some? && inp.demand.value.satisfiable == 0 && inp.demand.value.pending == 0
                    && auto.scaleDownAuto && lim.base > lim.lo && inp.idleCells != []
                    && inp.demandFreeSince.Some? && inp.now - inp.demandFreeSince.value >= lim.down
                    && (inp.lastScaleUp.Some? ==> inp.now - inp.lastScaleUp.value >= lim.down)
                    && (inp.lastScaleDown.Some? ==> inp.now - inp.lastScaleDown.value >= lim.down))
              && d.desired == lim.base + (if d.scaledUp then 1 else if d.scaledDown then -1 else 0)
              && d.drainCandidates == (if d.scaledDown then inp.idleCells else [])
  {
  }

  /** What the decision says for itself is true, and says everything: each reason is given exactly where
      it applies. */
  lemma ReasonsExactly(inp: ScaleInput)
    requires Enabled(inp.autoscaling)
    ensures var lim, d := LimitsOf(inp.replicas, inp.autoscaling.value, inp.liveCells), DecideScale(inp);
            var known := inp.demand.Some?;
            var wanted := known && inp.demand.value.satisfiable > 0;
            var absent := known && inp.demand.value.satisfiable == 0 && inp.demand.value.pending == 0;
            var auto := inp.autoscaling.value.scaleDownAuto;
            && (d.reason == DemandUnknown <==> !known)
            && (d.reason == ShapeUnknown <==> known && !wanted && !absent && !inp.shapeKnown)
            && (d.reason == DemandUnsatisfiable <==> known && !wanted && !absent && inp.shapeKnown)
            && (d.reason == AtMaxReplicas <==> wanted && lim.base == lim.hi)
            && (d.reason == NoFreeGPU <==> wanted && lim.base < lim.hi && inp.freeGPUs.Some? && inp.freeGPUs.value <= 0)
            && (d.reason == ScaledUp <==> d.scaledUp)
            && (d.reason == ScaledDown <==> d.scaledDown)
            && (d.reason == Idle <==> absent && !auto)
            && (d.reason == AtMinReplicas <==> absent && auto && lim.base == lim.lo)
            && (d.reason == NoIdleCell <==> absent && auto && lim.base > lim.lo && inp.idleCells == [])
  {
  }

  /** The two planners composed: an automatic shrink of a pool not above its ceiling drains the
      first idle cell and nothing else. */
  lemma AutomaticShrinkIsIdleOnly(scale: ScaleInput, inp: MembershipInput)
    requires Enabled(scale.autoscaling) && DecideScale(scale).scaledDown
    requires scale.liveCells == LiveCount(inp.cells) <= Ceiling(scale.replicas, scale.autoscaling.value)
    requires inp.desired == DecideScale(scale).desired
    requires inp.drainPreference == DecideScale(scale).drainCandidates && inp.reachable
    requires forall n :: n in scale.idleCells ==> exists c :: c in inp.cells && c.name == n && c.phase == Ready
    ensures scale.idleCells != [] && Plan(inp).drain == [scale.idleCells[0]]
    ensures Plan(inp).create == []
  {
    var pref := scale.idleCells;
    var removable := RemovableNames(inp.cells);
    assert pref[0] in pref;
    var c :| c in inp.cells && c.name == pref[0] && c.phase == Ready;
    assert c.name in removable;
    assert PreferredDrain(pref[1..], removable - {pref[0]}, 0) == [];
    assert PreferredDrain(pref, removable, 1) == [pref[0]];
    var order := HighestIndexes(CandidateIndexes(inp.cells), |CandidateIndexes(inp.cells)|);
    assert HighDrain(order, inp.cells, removable - NameSet([pref[0]]), 0) == [];
  }
}
