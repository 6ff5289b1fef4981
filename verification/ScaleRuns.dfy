/** The autoscaler over whole runs: how far apart its actions are, how many there can be, and
    what the demand readings looked like before every shrink. */
module ScaleRuns {
  import opened CellTypes
  import opened Membership
  import opened Scaling
  import opened Passes
  import opened Runs
  import opened PlanByPhase
  import opened ExactPasses

  /** The limits of the pass, from its spec and the rows it found. */
  function LimitsAt(p: Pass): Limits
    requires p.input.spec.autoscaling.Some?
  {
    LimitsOf(p.input.spec.replicas, p.input.spec.autoscaling.value, |Standing(p.cells)|)
  }

  /** What one pass does with the scaling state it carries. */
  predicate ScaleStep(p: Pass) {
    var inp, auto := p.input, p.input.spec.autoscaling;
    && p.after.lastScaleUp == (if p.scale.scaledUp then Some(inp.now) else p.before.lastScaleUp)
    && p.after.lastScaleDown == (if p.scale.scaledDown then Some(inp.now) else p.before.lastScaleDown)
    && p.after.demandFreeSince == NextDemandFree(p.before.demandFreeSince, DemandRead(inp), inp.now)
    && (p.scale.scaledUp ==> Enabled(auto) && !Within(p.before.lastScaleUp, inp.now, UpWindow(auto.value)))
    && (p.scale.scaledDown ==>
          && Enabled(auto) && DemandRead(inp).Some? && DemandRead(inp).value.Absent()
          && p.before.demandFreeSince.Some?
          && inp.now - p.before.demandFreeSince.value >= DownWindow(auto.value)
          && !Within(p.before.lastScaleDown, inp.now, DownWindow(auto.value))
          && !Within(p.before.lastScaleUp, inp.now, DownWindow(auto.value)))
    && (Enabled(auto) ==>
          Floor(inp.spec.replicas, auto.value) <= p.scale.desired <= Ceiling(inp.spec.replicas, auto.value))
  }

  lemma ScaleStepHolds(p: Pass)
    requires Scales(p) && Finishes(p)
    ensures ScaleStep(p)
  {
    if Enabled(p.input.spec.autoscaling) {
      TargetIsBounded(ScaleFor(p.before, p.input, p.cells, p.idle));
    }
  }

  predicate ScaleChain(run: seq<Pass>) {
    && (forall i :: 0 <= i < |run| ==> ScaleStep(run[i]))
    && (run != [] ==> run[0].before == EMPTY_STATUS)
    && (forall i :: 0 < i < |run| ==> run[i].before == run[i - 1].after && run[i - 1].input.now <= run[i].input.now)
  }

  lemma RunHasScaleChain(pool: string, run: seq<Pass>)
    requires Run(pool, run)
    ensures ScaleChain(run)
  {
    forall i | 0 <= i < |run| ensures ScaleStep(run[i]) {
      LegalAt(run, i);
      ScaleStepHolds(run[i]);
    }
  }

  lemma {:induction false} ClockMonotone(run: seq<Pass>, i: nat, j: nat)
    requires ScaleChain(run) && i <= j < |run|
    ensures run[i].input.now <= run[j].input.now
    decreases j
  {
    if i < j {
      ClockMonotone(run, i, j - 1);
    }
  }

  /** The stamps are never older than any action already taken. */
  lemma {:induction false} StampsRemember(run: seq<Pass>, j: nat, k: nat)
    requires ScaleChain(run) && j <= k < |run|
    ensures run[j].scale.scaledUp ==> run[k].after.lastScaleUp.Some? && run[j].input.now <= run[k].after.lastScaleUp.value
    ensures run[j].scale.scaledDown ==> run[k].after.lastScaleDown.Some? && run[j].input.now <= run[k].after.lastScaleDown.value
    decreases k
  {
    assert ScaleStep(run[k]);
    if j < k {
      StampsRemember(run, j, k - 1);
      ClockMonotone(run, j, k);
    }
  }

  /** Two scale-ups are at least the stabilization window apart, and every scale-down comes at
      least the scale-down window after any earlier action in either direction. */
  lemma ActionsAreApart(pool: string, run: seq<Pass>, j: nat, k: nat)
    requires Run(pool, run) && j < k < |run|
    ensures run[j].scale.scaledUp && run[k].scale.scaledUp ==>
              Enabled(run[k].input.spec.autoscaling)
              && run[k].input.now - run[j].input.now >= LimitsAt(run[k]).up
    ensures (run[j].scale.scaledUp || run[j].scale.scaledDown) && run[k].scale.scaledDown ==>
              Enabled(run[k].input.spec.autoscaling)
              && run[k].input.now - run[j].input.now >= LimitsAt(run[k]).down
  {
    RunHasScaleChain(pool, run);
    StampsRemember(run, j, k - 1);
    assert ScaleStep(run[k]);
  }

  /** The target stays within its bounds in every pass. */
  lemma TargetsStayBounded(pool: string, run: seq<Pass>, k: nat)
    requires Run(pool, run) && k < |run| && Enabled(run[k].input.spec.autoscaling)
    ensures LimitsAt(run[k]).lo <= run[k].scale.desired <= LimitsAt(run[k]).hi
  {
    RunHasScaleChain(pool, run);
  }

  /** The clock of a pass, and whether it scaled up. */
  datatype Tick = Tick(now: int, up: bool)

  function Ticks(run: seq<Pass>): (r: seq<Tick>)
    ensures |r| == |run|
    ensures forall i :: 0 <= i < |run| ==> r[i] == Tick(run[i].input.now, run[i].scale.scaledUp)
  {
    seq(|run|, i requires 0 <= i < |run| => Tick(run[i].input.now, run[i].scale.scaledUp))
  }

  /** Scale-ups among the ticks from `a` up to but not including `b`. */
  function Ups(ticks: seq<Tick>, a: nat, b: nat): nat
    requires a <= b <= |ticks|
    decreases b
  {
    if b == a then 0 else Ups(ticks, a, b - 1) + (if ticks[b - 1].up then 1 else 0)
  }

  predicate Forward(ticks: seq<Tick>) {
    forall i, j :: 0 <= i <= j < |ticks| ==> ticks[i].now <= ticks[j].now
  }

  predicate UpsApart(ticks: seq<Tick>, window: int) {
    forall i, j :: 0 <= i < j < |ticks| && ticks[i].up && ticks[j].up ==> ticks[j].now - ticks[i].now >= window
  }

  lemma {:induction false} RateHistory(ticks: seq<Tick>, a: nat, b: nat, window: int) returns (l: nat)
    requires Forward(ticks) && UpsApart(ticks, window) && a < b <= |ticks| && Ups(ticks, a, b) >= 1
    ensures a <= l < b && ticks[l].up && (Ups(ticks, a, b) - 1) * window <= ticks[l].now - ticks[a].now
    decreases b
  {
    var last := b - 1;
    if !ticks[last].up {
      l := RateHistory(ticks, a, last, window);
    } else if Ups(ticks, a, last) == 0 {
      l := last;
    } else {
      var k := RateHistory(ticks, a, last, window);
      l := last;
      assert (Ups(ticks, a, b) - 1) * window == (Ups(ticks, a, last) - 1) * window + window;
    }
  }

  lemma QuotientBound(n: int, window: int, span: int)
    requires window > 0 && n >= 1 && (n - 1) * window <= span
    ensures n <= span / window + 1
  {
    var q := span / window;
    assert span == q * window + span % window;
    if n - 1 > q {
      LargerMultiple(n - 1, q + 1, window);
    }
  }

  lemma LargerMultiple(x: int, y: int, window: int)
    requires x >= y && window > 0
    ensures x * window >= y * window
  {
  }

  /** The stabilization window is the same in every pass of the stretch that scales. */
  predicate OneWindow(run: seq<Pass>, a: nat, b: nat, window: int)
    requires a <= b <= |run|
  {
    forall i :: a <= i < b && Enabled(run[i].input.spec.autoscaling) ==>
      LimitsAt(run[i]).up == window
  }

  lemma TicksOfStretch(pool: string, run: seq<Pass>, a: nat, b: nat, window: int)
    requires Run(pool, run) && a <= b <= |run| && OneWindow(run, a, b, window)
    ensures Forward(Ticks(run[a..b])) && UpsApart(Ticks(run[a..b]), window)
  {
    RunHasScaleChain(pool, run);
    forall i, j | a <= i <= j < b ensures run[i].input.now <= run[j].input.now {
      ClockMonotone(run, i, j);
    }
    forall i, j | a <= i < j < b && run[i].scale.scaledUp && run[j].scale.scaledUp
      ensures run[j].input.now - run[i].input.now >= window
    {
      ActionsAreApart(pool, run, i, j);
    }
    TicksOfSlice(run, a, b, window);
  }

  lemma TicksOfSlice(run: seq<Pass>, a: nat, b: nat, window: int)
    requires a <= b <= |run| && (forall i, j :: a <= i <= j < b ==> run[i].input.now <= run[j].input.now)
    requires forall i, j :: a <= i < j < b && run[i].scale.scaledUp && run[j].scale.scaledUp ==>
                              run[j].input.now - run[i].input.now >= window
    ensures Forward(Ticks(run[a..b])) && UpsApart(Ticks(run[a..b]), window)
  {
    var ticks := Ticks(run[a..b]);
    assert forall i :: 0 <= i < |ticks| ==> ticks[i] == Tick(run[a + i].input.now, run[a + i].scale.scaledUp);
  }

  /** Over any stretch of passes with one stabilization window, whatever it is outside the stretch, there
      are at most as many scale-ups as windows fit into the time it took, plus one. */
  lemma ScaleUpRate(pool: string, run: seq<Pass>, a: nat, b: nat, window: int)
    requires Run(pool, run) && a < b <= |run| && window > 0 && OneWindow(run, a, b, window)
    ensures Ups(Ticks(run[a..b]), 0, b - a) <= (run[b - 1].input.now - run[a].input.now) / window + 1
  {
    TicksOfStretch(pool, run, a, b, window);
    RateBound(Ticks(run[a..b]), 0, b - a, window);
  }

  lemma RateBound(ticks: seq<Tick>, a: nat, b: nat, window: int)
    requires Forward(ticks) && UpsApart(ticks, window) && a < b <= |ticks| && window > 0
    ensures Ups(ticks, a, b) <= (ticks[b - 1].now - ticks[a].now) / window + 1
  {
    if Ups(ticks, a, b) >= 1 {
      var l := RateHistory(ticks, a, b, window);
      QuotientBound(Ups(ticks, a, b), window, ticks[b - 1].now - ticks[a].now);
    }
  }

  // ----- demand before a shrink

  /** What the pass knows of demand: its reading, if autoscaling is on and the workload cluster answers. */
  function Heard(p: Pass): Option<Demand> {
    if p.input.reachable && p.input.spec.autoscaling.Some? && p.input.spec.autoscaling.value.enabled then p.input.demand else None
  }

  /** Pass `i` read demand as absent, and no pass from `i` to `k` that could read it read anything
      else. */
  predicate QuietSince(run: seq<Pass>, i: nat, k: nat) {
    && i <= k < |run|
    && Heard(run[i]).Some?
    && (forall j :: i <= j <= k && Heard(run[j]).Some? ==> Heard(run[j]).value.pending == 0 && Heard(run[j]).value.satisfiable == 0)
  }

  lemma {:induction false} QuietHistory(run: seq<Pass>, k: nat)
    requires ScaleChain(run) && k < |run| && run[k].after.demandFreeSince.Some?
    ensures exists i: nat :: QuietSince(run, i, k) && run[i].input.now == run[k].after.demandFreeSince.value
    decreases k
  {
    assert ScaleStep(run[k]);
    if run[k].before.demandFreeSince.None? {
      assert QuietSince(run, k, k);
    } else {
      assert k > 0 && run[k].before == run[k - 1].after;
      QuietHistory(run, k - 1);
      var i: nat :| QuietSince(run, i, k - 1) && run[i].input.now == run[k - 1].after.demandFreeSince.value;
      assert QuietSince(run, i, k);
    }
  }

  /** A pass shrinks the pool only after a quiet window: some pass at least the window earlier read
      demand as absent, and every reading that succeeded since then, this pass's included, did too.
      Unreadable passes neither start nor break the window. */
  lemma ShrinkFollowsQuiet(pool: string, run: seq<Pass>, k: nat)
    requires Run(pool, run) && k < |run| && run[k].scale.scaledDown
    ensures Enabled(run[k].input.spec.autoscaling) && Heard(run[k]).Some?
    ensures exists i: nat :: QuietSince(run, i, k)
                        && run[k].input.now - run[i].input.now >= LimitsAt(run[k]).down
  {
    RunHasScaleChain(pool, run);
    ShrinkAfterQuiet(run, k);
  }

  lemma ShrinkAfterQuiet(run: seq<Pass>, k: nat)
    requires ScaleChain(run) && k < |run| && run[k].scale.scaledDown
    ensures Enabled(run[k].input.spec.autoscaling) && Heard(run[k]).Some?
    ensures exists i: nat :: QuietSince(run, i, k)
                             && run[k].input.now - run[i].input.now >= LimitsAt(run[k]).down
  {
    assert ScaleStep(run[k]);
    QuietHistory(run, k - 1);
    var i: nat :| QuietSince(run, i, k - 1) && run[i].input.now == run[k - 1].after.demandFreeSince.value;
    assert QuietSince(run, i, k);
  }

  // ----- scaling, exactly

  /** An earlier pass of the run grew the pool less than the window ago. */
  predicate GrewWithin(run: seq<Pass>, k: nat, window: int)
    requires k < |run|
  {
    exists i :: 0 <= i < k && run[i].scale.scaledUp && run[k].input.now - run[i].input.now < window
  }

  predicate ShrankWithin(run: seq<Pass>, k: nat, window: int)
    requires k < |run|
  {
    exists i :: 0 <= i < k && run[i].scale.scaledDown && run[k].input.now - run[i].input.now < window
  }

  /** Some earlier pass at least the window ago read demand as absent, and none since read any. */
  ghost predicate QuietFor(run: seq<Pass>, k: nat, window: int)
    requires k < |run|
  {
    k > 0 && QuietFrom(run, k - 1, run[k].input.now - window)
  }

  ghost predicate QuietFrom(run: seq<Pass>, k: nat, latest: int) {
    exists i: nat :: QuietSince(run, i, k) && run[i].input.now <= latest
  }

  /** The stamps are the times of actions taken. */
  lemma {:induction false} StampsAreActions(run: seq<Pass>, k: nat)
    requires ScaleChain(run) && k < |run|
    ensures run[k].after.lastScaleUp.Some? ==>
              exists i :: 0 <= i <= k && run[i].scale.scaledUp && run[i].input.now == run[k].after.lastScaleUp.value
    ensures run[k].after.lastScaleDown.Some? ==>
              exists i :: 0 <= i <= k && run[i].scale.scaledDown && run[i].input.now == run[k].after.lastScaleDown.value
    decreases k
  {
    assert ScaleStep(run[k]);
    if k > 0 {
      StampsAreActions(run, k - 1);
    }
  }

  lemma StampsTell(run: seq<Pass>, k: nat, window: int)
    requires ScaleChain(run) && k < |run|
    ensures GrewWithin(run, k, window) <==> Within(run[k].before.lastScaleUp, run[k].input.now, window)
    ensures ShrankWithin(run, k, window) <==> Within(run[k].before.lastScaleDown, run[k].input.now, window)
  {
    if k > 0 {
      StampsAreActions(run, k - 1);
      forall i | 0 <= i < k
        ensures run[i].scale.scaledUp ==> run[k].before.lastScaleUp.Some? && run[i].input.now <= run[k].before.lastScaleUp.value
        ensures run[i].scale.scaledDown ==> run[k].before.lastScaleDown.Some? && run[i].input.now <= run[k].before.lastScaleDown.value
      {
        StampsRemember(run, i, k - 1);
      }
    }
  }

  /** The mark is set through every quiet stretch, and is no later than its first reading. */
  lemma {:induction false} MarkRemembers(run: seq<Pass>, i: nat, k: nat)
    requires ScaleChain(run) && QuietSince(run, i, k)
    ensures run[k].after.demandFreeSince.Some? && run[k].after.demandFreeSince.value <= run[i].input.now
    decreases k
  {
    assert ScaleStep(run[k]);
    if i < k {
      assert QuietSince(run, i, k - 1);
      MarkRemembers(run, i, k - 1);
    } else {
      MarkIsPast(run, k);
    }
  }

  lemma {:induction false} MarkIsPast(run: seq<Pass>, k: nat)
    requires ScaleChain(run) && k < |run|
    ensures run[k].before.demandFreeSince.Some? ==> run[k].before.demandFreeSince.value <= run[k].input.now
    decreases k
  {
    if k > 0 {
      MarkIsPast(run, k - 1);
      assert ScaleStep(run[k - 1]);
    }
  }

  lemma MarkTells(run: seq<Pass>, k: nat, window: int)
    requires ScaleChain(run) && k < |run|
    ensures QuietFor(run, k, window) <==>
            run[k].before.demandFreeSince.Some? && run[k].input.now - run[k].before.demandFreeSince.value >= window
  {
    if k > 0 {
      if run[k].before.demandFreeSince.Some? {
        QuietHistory(run, k - 1);
      }
      forall i: nat | QuietSince(run, i, k - 1)
        ensures run[k].before.demandFreeSince.Some? && run[k].before.demandFreeSince.value <= run[i].input.now
      {
        MarkRemembers(run, i, k - 1);
      }
    }
  }

  /** Growth over runs, exactly: a pass scales up if and only if autoscaling is on, it read satisfiable
      demand, the rows it found leave room below the upper bound, free GPUs are unknown or there are some,
      and no earlier pass scaled up less than the stabilization window ago. */
  lemma ScalesUpExactly(pool: string, run: seq<Pass>, k: nat)
    requires Run(pool, run) && k < |run|
    ensures run[k].scale.scaledUp <==>
            && Heard(run[k]).Some? && Heard(run[k]).value.satisfiable > 0
            && LimitsAt(run[k]).base < LimitsAt(run[k]).hi
            && (run[k].input.freeGPUs.Some? ==> run[k].input.freeGPUs.value > 0)
            && !GrewWithin(run, k, LimitsAt(run[k]).up)
  {
    RunHasScaleChain(pool, run);
    LegalAt(run, k);
    DecidedExactly(run[k]);
    if run[k].input.spec.autoscaling.Some? {
      StampsTell(run, k, LimitsAt(run[k]).up);
    }
  }

  lemma DecidedExactly(p: Pass)
    requires Scales(p)
    ensures p.scale.scaledUp <==>
            && Heard(p).Some? && Heard(p).value.satisfiable > 0 && LimitsAt(p).base < LimitsAt(p).hi
            && (p.input.freeGPUs.Some? ==> p.input.freeGPUs.value > 0)
            && !Within(p.before.lastScaleUp, p.input.now, LimitsAt(p).up)
    ensures p.scale.scaledDown <==>
            && Heard(p).Some? && Heard(p).value.satisfiable == 0 && Heard(p).value.pending == 0
            && p.input.spec.autoscaling.value.scaleDownAuto && LimitsAt(p).base > LimitsAt(p).lo && p.idle != []
            && p.before.demandFreeSince.Some? && p.input.now - p.before.demandFreeSince.value >= LimitsAt(p).down
            && !Within(p.before.lastScaleUp, p.input.now, LimitsAt(p).down)
            && !Within(p.before.lastScaleDown, p.input.now, LimitsAt(p).down)
    ensures p.scale.desired == if !Enabled(p.input.spec.autoscaling) then p.input.spec.replicas
                               else LimitsAt(p).base + (if p.scale.scaledUp then 1 else if p.scale.scaledDown then -1 else 0)
  {
    CountsByPhase(p.cells);
    ScalesExactly(ScaleFor(p.before, p.input, p.cells, p.idle));
  }

  /** The pass found a Ready cell whose allocations it read as none. */
  ghost predicate SomeIdle(p: Pass) {
    exists n :: ReadEmpty(p, n)
  }

  predicate ReadEmpty(p: Pass, n: string) {
    && n in p.seen && p.seen[n].phase == Ready
    && n in p.input.allocations && p.input.allocations[n].consumers == 0 && !p.input.allocations[n].inFlight
  }

  /** Shrinking over runs, exactly: a pass scales down if and only if autoscaling is on and shrinks by
      itself, it read demand as absent, an earlier pass at least the window ago did and none since read
      any, no earlier pass scaled in either direction less than the window ago, the rows it found are above
      the lower bound, and it read some Ready cell as empty. */
  lemma ScalesDownExactly(pool: string, run: seq<Pass>, k: nat)
    requires Run(pool, run) && k < |run|
    ensures run[k].scale.scaledDown <==>
            && Heard(run[k]).Some? && Heard(run[k]).value.satisfiable == 0 && Heard(run[k]).value.pending == 0
            && run[k].input.spec.autoscaling.value.scaleDownAuto
            && LimitsAt(run[k]).base > LimitsAt(run[k]).lo
            && SomeIdle(run[k])
            && QuietFor(run, k, LimitsAt(run[k]).down)
            && !GrewWithin(run, k, LimitsAt(run[k]).down) && !ShrankWithin(run, k, LimitsAt(run[k]).down)
  {
    RunHasScaleChain(pool, run);
    LegalAt(run, k);
    DecidedExactly(run[k]);
    if run[k].input.spec.autoscaling.Some? && Heard(run[k]).Some? && run[k].input.spec.autoscaling.value.scaleDownAuto {
      StampsTell(run, k, LimitsAt(run[k]).down);
      MarkTells(run, k, LimitsAt(run[k]).down);
      IdleAt(pool, run, k);
    }
  }

  /** The target over runs: the replica count, or with autoscaling the rows found, within the bounds, one
      more or one less. */
  lemma TargetsExactly(pool: string, run: seq<Pass>, k: nat)
    requires Run(pool, run) && k < |run|
    ensures run[k].scale.desired ==
            if !(run[k].input.spec.autoscaling.Some? && run[k].input.spec.autoscaling.value.enabled) then run[k].input.spec.replicas
            else LimitsAt(run[k]).base + (if run[k].scale.scaledUp then 1 else if run[k].scale.scaledDown then -1 else 0)
  {
    LegalAt(run, k);
    DecidedExactly(run[k]);
  }

  // ----- an automatic shrink

  /** Over every run: a pass that scales down a pool not above its ceiling starts exactly one drain, of a
      Ready cell whose allocations it read as empty, and creates nothing. */
  lemma ShrinkDrainsOneIdle(pool: string, run: seq<Pass>, k: nat) returns (n: string)
    requires Run(pool, run) && k < |run| && run[k].scale.scaledDown
    requires run[k].input.spec.autoscaling.Some? ==> |Standing(run[k].cells)| <= LimitsAt(run[k]).hi
    ensures Started(run[k]) == {n} && run[k].plan.create == []
    ensures n in run[k].rows && run[k].rows[n].phase == Ready && ReadEmpty(run[k], n)
  {
    LegalAt(run, k);
    CountsByPhase(run[k].cells);
    n := ShrinkStep(run[k]);
    StepAt(pool, run, k);
    ReadEmptyRow(pool, run[k], n);
  }

  lemma ReadEmptyRow(pool: string, p: Pass, n: string)
    requires StepOk(pool, p) && p.input.reachable && n in p.rows && p.rows == p.seen && IsIdle(p.rows[n], p.input.allocations)
    ensures ReadEmpty(p, n)
  {
    NodeIsNamed(pool, p, n);
  }

  lemma IdleAt(pool: string, run: seq<Pass>, k: nat)
    requires Run(pool, run) && k < |run| && run[k].input.reachable && NeedsIdleness(run[k].input.spec)
    ensures run[k].idle != [] <==> SomeIdle(run[k])
  {
    LegalAt(run, k);
    FirstIsNamed(run[k]);
    IdleSome(run[k]);
  }

  lemma IdleSome(p: Pass)
    requires Discovers(p) && p.input.reachable && NeedsIdleness(p.input.spec)
    requires forall n :: n in p.seen && p.seen[n].phase == Ready ==> p.seen[n].nodeName == n
    ensures p.idle != [] <==> SomeIdle(p)
  {
    if p.idle != [] {
      IdleRow(p, p.idle[0]);
      assert ReadEmpty(p, p.idle[0]);
    } else if SomeIdle(p) {
      var n :| ReadEmpty(p, n);
      EmptyIsIdle(p, n);
    }
  }

  lemma EmptyIsIdle(p: Pass, n: string)
    requires Discovers(p) && p.input.reachable && NeedsIdleness(p.input.spec) && ReadEmpty(p, n) && p.seen[n].nodeName == n
    ensures n in p.idle
  {
    IdleListed(p.cells, p.seen, p.input.allocations, n);
  }

  lemma FirstIsNamed(p: Pass)
    requires Discovers(p) && p.input.reachable
    ensures forall n :: n in p.seen && p.seen[n].phase == Ready ==> p.seen[n].nodeName == n
  {
    forall n | n in p.seen && p.seen[n].phase == Ready ensures p.seen[n].nodeName == n {
      NamedInDiscovery(p.input.spec, p.before.rows, p.input.first, p.input.now, n);
    }
  }

  lemma ShrinkStep(p: Pass) returns (n: string)
    requires Legal(p) && p.scale.scaledDown
    requires var spec := p.input.spec; Enabled(spec.autoscaling) ==> LiveCount(p.cells) <= Ceiling(spec.replicas, spec.autoscaling.value)
    ensures Started(p) == {n} && p.plan.create == []
    ensures n in p.rows && p.rows[n].phase == Ready && IsIdle(p.rows[n], p.input.allocations)
  {
    n := ShrinkPlan(p);
    OneKindOfChange(p);
    OnlyStarted(p, n);
    ShrunkRow(p, n);
  }

  lemma OnlyStarted(p: Pass, n: string)
    requires p.plan.drain == [n] && p.rollout.drain.None?
    ensures Started(p) == {n}
  {
    assert NameSet(p.plan.drain) == {n};
  }

  lemma ShrunkRow(p: Pass, n: string)
    requires Discovers(p) && Rediscovers(p) && p.plan.create == [] && n in p.idle
    ensures n in p.rows && p.rows[n].phase == Ready && IsIdle(p.rows[n], p.input.allocations)
  {
    IdleRow(p, n);
  }

  lemma ShrinkPlan(p: Pass) returns (n: string)
    requires Discovers(p) && Scales(p) && Plans(p) && p.scale.scaledDown
    requires var spec := p.input.spec; Enabled(spec.autoscaling) ==> LiveCount(p.cells) <= Ceiling(spec.replicas, spec.autoscaling.value)
    ensures p.plan.drain == [n] && p.plan.create == [] && n in p.idle
  {
    var scale := ScaleFor(p.before, p.input, p.cells, p.idle);
    assert Enabled(scale.autoscaling) && p.input.reachable;
    IdleAreReady(p);
    AutomaticShrinkIsIdleOnly(scale, MembershipFor(p.before, p.input, p.cells, p.scale));
    n := p.idle[0];
  }

  lemma IdleAreReady(p: Pass)
    requires Discovers(p)
    ensures forall n :: n in p.idle ==> exists c :: c in p.cells && c.name == n && c.phase == Ready
  {
    IdleNamesExact(p.cells, p.input.allocations);
    forall n | n in p.idle ensures exists c :: c in p.cells && c.name == n && c.phase == Ready {
      var c :| c in p.cells && IsIdle(c, p.input.allocations) && c.name == n;
    }
  }
}
