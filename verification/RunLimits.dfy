/** The limits of a run: what an outage freezes, when waiting ends in failure, and how an index
    that keeps failing stops the pool. */
module RunLimits {
  import opened CellTypes
  import opened CellId
  import opened Fsm
  import opened Membership
  import opened MembershipProofs
  import opened Discovery
  import opened Passes
  import opened Runs
  import opened RunTheorems

  // ----- outage

  /** A pass that could not reach the workload cluster changes the pool in one way only: it may
      delete an already failed cell. */
  predicate Frozen(p: Pass) {
    && p.plan.create == [] && Started(p) == {} && p.removed == {} && p.reaped == {}
    && (forall n :: n in p.replaced ==> n in p.before.rows && p.before.rows[n].phase == Failed)
  }

  lemma OutagePlansNothing(p: Pass)
    requires Legal(p) && !p.input.reachable
    ensures p.plan.create == [] && p.plan.drain == [] && p.rollout.drain.None?
  {
    CreationIsExact(MembershipFor(p.before, p.input, p.cells, p.scale));
    DrainsAreRemovable(p);
    if p.rollout.drain.Some? {
      RolloutShape(p);
    }
  }

  lemma OutageDeletesNothing(p: Pass)
    requires Rediscovers(p) && Finishes(p) && !p.input.reachable && p.plan.create == []
    ensures p.removed == {} && p.reaped == {}
  {
  }

  /** A cell is never replaced in the pass that finds it failed. */
  lemma ReplacedWasFailed(pool: string, p: Pass, n: string)
    requires StepOk(pool, p) && Marks(p) && n in p.replaced
    requires p.rollout.drain.Some? ==> p.rollout.drain.value in p.rows && p.rows[p.rollout.drain.value].phase == Ready
    ensures n in p.before.rows && p.before.rows[n].phase == Failed
  {
    ReplacedRow(p, n);
    assert RowOk(p.input.spec, n, p.after.rows[n]);
    BackoffGrows(p.after.rows[n].failureCount);
    RowMovesOrHolds(pool, p, n);
  }

  lemma OutageFreezes(pool: string, run: seq<Pass>, k: nat)
    requires Run(pool, run) && k < |run| && !run[k].input.reachable
    ensures Frozen(run[k])
  {
    var p := run[k];
    StepAt(pool, run, k);
    LegalAt(run, k);
    OutagePlansNothing(p);
    OutageDeletesNothing(p);
    EmptyNames();
    forall n | n in p.replaced ensures n in p.before.rows && p.before.rows[n].phase == Failed {
      ReplacedWasFailed(pool, p, n);
    }
  }

  /** The guest behind a row is still listed, under the same UID and not failed. */
  predicate Steady(p: Pass, n: string, uid: string) {
    n in Cells(p.input.spec, Kept(p)) && Kept(p).seen[n].outer.uid == uid && !Kept(p).seen[n].outer.failed
  }

  predicate SameStanding(a: Row, b: Row) {
    a.uid == b.uid && a.phase == b.phase && a.since == b.since && a.readyOnce == b.readyOnce
    && a.failureCount == b.failureCount
  }

  lemma FrozenRow(spec: Spec, rows: map<string, Row>, n: string, index: int, g: GuestReading, now: int)
    requires n in rows && RowOk(spec, n, rows[n]) && g.outer.uid == rows[n].uid && !g.outer.failed
    ensures SameStanding(SeenRow(spec, rows, n, index, g, false, now), rows[n]) || rows[n].phase == Ready
    ensures rows[n].phase == Ready ==>
              var r := SeenRow(spec, rows, n, index, g, false, now);
              SameStanding(r, rows[n].(readyOnce := true))
  {
  }

  lemma FrozenStep(pool: string, p: Pass, n: string)
    requires StepOk(pool, p) && !p.input.reachable && Started(p) == {}
    requires n in p.before.rows && Steady(p, n, p.before.rows[n].uid)
    requires p.before.rows[n].phase == Ready ==> p.before.rows[n].readyOnce
    ensures n in p.after.rows && SameStanding(p.after.rows[n], p.before.rows[n])
  {
    assert RowOk(p.input.spec, n, p.before.rows[n]);
    FrozenRow(p.input.spec, p.before.rows, n, ParseIndex(p.input.spec.pool, n).value, Kept(p).seen[n], p.input.now);
    assert n in p.rows;
  }

  /** Ready rows carry the latch. */
  predicate Latched(rows: map<string, Row>) {
    forall n :: n in rows && rows[n].phase == Ready ==> rows[n].readyOnce
  }

  lemma LatchHolds(pool: string, p: Pass)
    requires StepOk(pool, p)
    ensures Latched(p.after.rows)
  {
    forall n | n in p.after.rows && p.after.rows[n].phase == Ready ensures p.after.rows[n].readyOnce {
      assert p.rows[n].phase == Ready;
      ReadyInDiscovery(p.input.spec, p.before.rows, Kept(p), p.input.reachable, p.input.now, n);
    }
  }

  lemma ReadyInDiscovery(spec: Spec, rows: map<string, Row>, d: Reads, reachable: bool, now: int, n: string)
    requires n in RowsAfter(spec, rows, d, reachable, now) && RowsAfter(spec, rows, d, reachable, now)[n].phase == Ready
    ensures RowsAfter(spec, rows, d, reachable, now)[n].readyOnce
  {
  }

  predicate KeepsStanding(p: Pass, n: string) {
    n in p.before.rows && Steady(p, n, p.before.rows[n].uid) ==>
      n in p.after.rows && SameStanding(p.after.rows[n], p.before.rows[n])
  }

  lemma OutageStep(pool: string, p: Pass, n: string)
    requires StepOk(pool, p) && !p.input.reachable && Started(p) == {} && Latched(p.before.rows)
    ensures KeepsStanding(p, n)
  {
    if n in p.before.rows && Steady(p, n, p.before.rows[n].uid) {
      FrozenStep(pool, p, n);
    }
  }

  lemma LatchedBefore(pool: string, run: seq<Pass>, k: nat)
    requires Run(pool, run) && k < |run|
    ensures Latched(run[k].before.rows)
  {
    StepAt(pool, run, k);
    if k > 0 {
      StepAt(pool, run, k - 1);
      LatchHolds(pool, run[k - 1]);
    }
  }

  lemma {:induction false} StandingHistory(run: seq<Pass>, a: nat, b: nat, n: string)
    requires a < b <= |run| && n in run[a].before.rows
    requires forall i :: a < i < b ==> run[i].before.rows == run[i - 1].after.rows
    requires forall i :: a <= i < b ==> KeepsStanding(run[i], n)
    requires forall i :: a <= i < b ==> Steady(run[i], n, run[a].before.rows[n].uid)
    ensures n in run[b - 1].after.rows && SameStanding(run[b - 1].after.rows[n], run[a].before.rows[n])
    decreases b
  {
    if b - 1 > a {
      StandingHistory(run, a, b - 1, n);
    }
    assert KeepsStanding(run[b - 1], n);
  }

  /** Across any stretch of unreachable passes, the row of a guest that stays listed and does not
      itself fail keeps its phase, its transition time, its latch and its failure count. */
  lemma OutageKeepsRows(pool: string, run: seq<Pass>, a: nat, b: nat, n: string)
    requires Run(pool, run) && a < b <= |run|
    requires forall i :: a <= i < b ==> !run[i].input.reachable
    requires n in run[a].before.rows
    requires forall i :: a <= i < b ==> Steady(run[i], n, run[a].before.rows[n].uid)
    ensures n in run[b - 1].after.rows && SameStanding(run[b - 1].after.rows[n], run[a].before.rows[n])
  {
    forall i | a <= i < b ensures KeepsStanding(run[i], n) {
      StepAt(pool, run, i);
      LatchedBefore(pool, run, i);
      OutageFreezes(pool, run, i);
      OutageStep(pool, run[i], n);
    }
    StandingHistory(run, a, b, n);
  }

  // ----- timeouts

  /** The pass saw the cell waiting in a timed stage. */
  ghost predicate Waits(p: Pass, n: string, stage: Stage) {
    && n in Cells(p.input.spec, Kept(p)) && p.input.reachable
    && Kept(p).seen[n].outer.present && !Kept(p).seen[n].outer.failed
    && StageSeen(p, n) == Some(stage)
  }

  lemma StagePhases(obs: Observation)
    ensures var s := FirstUnmet(Milestones(obs));
            s.Some? ==> s.value.phase in {AllocatingGPU, GuestProvisioning, Booting, Joining, AwaitingGPUCapacity}
  {
    var ms := Milestones(obs);
    var s := FirstUnmet(ms);
    if s.Some? {
      var i :| 0 <= i < |ms| && !ms[i].0 && ms[i].1 == s.value && forall j :: 0 <= j < i ==> ms[j].0;
      assert i == 0 || i == 1 || i == 2 || i == 3;
    }
  }

  lemma FailedExactly(obs: Observation)
    requires Advancing(obs.current) && AdvanceCell(obs).phase == Failed && !obs.outer.failed
    ensures obs.reachable && obs.outer.present
    ensures var s := FirstUnmet(Milestones(obs));
            s.Some? && s.value.budget > 0 && obs.current == s.value.phase && obs.now - obs.lastTransition > s.value.budget
  {
    LadderDecides(obs);
    StagePhases(obs);
  }

  lemma FailsByStage(spec: Spec, rows: map<string, Row>, n: string, index: int, g: GuestReading, reachable: bool, now: int)
    requires n in rows ==> RowOk(spec, n, rows[n])
    requires g.outer.uid != "" && !g.outer.failed
    requires SeenRow(spec, rows, n, index, g, reachable, now).phase == Failed
    requires n in rows ==> rows[n].phase != Failed
    ensures reachable && g.outer.present
    ensures var s := FirstUnmet(Milestones(Observe(spec, BLANK_ROW, g, reachable, now)));
            && s.Some? && s.value.budget > 0
            && n in rows && rows[n].uid == g.outer.uid && rows[n].phase == s.value.phase
            && now - rows[n].since.value > s.value.budget
  {
    var prev := Inherit(Previous(rows, n), g.outer.uid);
    var obs := Observe(spec, prev, g, reachable, now);
    assert Milestones(obs) == Milestones(Observe(spec, BLANK_ROW, g, reachable, now));
    StagePhases(obs);
    FailedExactly(obs);
  }

  /** A healthy guest is failed only by a budget it has used up: every pass since some pass `j`
      wrote the stage's own phase, and pass `k` came more than the budget after pass `j`. */
  predicate OverBudget(run: seq<Pass>, j: nat, k: nat, n: string, stage: Stage)
    requires 0 < k < |run|
  {
    && j < k && HeldSince(run, j, k - 1, n, stage.phase)
    && stage.budget > 0 && run[k].input.now - run[j].input.now > stage.budget
  }

  lemma TimeoutStep(pool: string, p: Pass, n: string)
    requires StepOk(pool, p)
    requires n in Cells(p.input.spec, Kept(p)) && !Kept(p).seen[n].outer.failed
    requires n in p.after.rows && p.after.rows[n].phase == Failed
    requires n in p.before.rows ==> p.before.rows[n].phase != Failed
    ensures StageSeen(p, n).Some?
    ensures var stage := StageSeen(p, n).value;
            && Waits(p, n, stage) && stage.budget > 0
            && n in p.before.rows && p.before.rows[n].phase == stage.phase && p.before.rows[n].since.Some?
            && p.input.now - p.before.rows[n].since.value > stage.budget
  {
    if n in p.before.rows {
      assert RowOk(p.input.spec, n, p.before.rows[n]);
    }
    FailsByStage(p.input.spec, p.before.rows, n, ParseIndex(p.input.spec.pool, n).value, Kept(p).seen[n], p.input.reachable, p.input.now);
    StageAsSeen(pool, p, n);
  }

  lemma TimeoutIsEarned(pool: string, run: seq<Pass>, k: nat, n: string)
    requires Run(pool, run) && k < |run|
    requires n in Cells(run[k].input.spec, Kept(run[k])) && !Kept(run[k]).seen[n].outer.failed
    requires n in run[k].after.rows && run[k].after.rows[n].phase == Failed
    requires n in run[k].before.rows ==> run[k].before.rows[n].phase != Failed
    ensures k > 0 && exists j, stage :: Waits(run[k], n, stage) && OverBudget(run, j, k, n, stage)
  {
    FailedHadPast(pool, run, k, n);
    var j := LastMove(pool, run, k - 1, n);
    var stage := EarnedSince(pool, run, j, k, n);
  }

  lemma FailedHadPast(pool: string, run: seq<Pass>, k: nat, n: string)
    requires Run(pool, run) && k < |run|
    requires n in Cells(run[k].input.spec, Kept(run[k])) && !Kept(run[k]).seen[n].outer.failed
    requires n in run[k].after.rows && run[k].after.rows[n].phase == Failed
    requires n in run[k].before.rows ==> run[k].before.rows[n].phase != Failed
    ensures k > 0 && n in run[k].before.rows && run[k].before.rows == run[k - 1].after.rows && StepOk(pool, run[k])
  {
    StepAt(pool, run, k);
    TimeoutStep(pool, run[k], n);
  }

  lemma EarnedSince(pool: string, run: seq<Pass>, j: nat, k: nat, n: string) returns (stage: Stage)
    requires 0 < k < |run| && StepOk(pool, run[k]) && run[k].before.rows == run[k - 1].after.rows
    requires n in Cells(run[k].input.spec, Kept(run[k])) && !Kept(run[k]).seen[n].outer.failed
    requires n in run[k].after.rows && run[k].after.rows[n].phase == Failed
    requires n in run[k].before.rows && run[k].before.rows[n].phase != Failed
    requires HeldSince(run, j, k - 1, n, run[k - 1].after.rows[n].phase)
    ensures Waits(run[k], n, stage) && OverBudget(run, j, k, n, stage)
  {
    TimeoutStep(pool, run[k], n);
    stage := StageSeen(run[k], n).value;
    HeldNow(run, j, k - 1, n, stage.phase);
  }

  lemma WaitingRow(spec: Spec, rows: map<string, Row>, n: string, index: int, g: GuestReading, now: int, stage: Stage)
    requires n in rows && RowOk(spec, n, rows[n]) && rows[n].uid == g.outer.uid
    requires rows[n].phase == stage.phase && g.outer.present && !g.outer.failed
    requires FirstUnmet(Milestones(Observe(spec, BLANK_ROW, g, true, now))) == Some(stage)
    ensures var r := SeenRow(spec, rows, n, index, g, true, now);
            if stage.budget > 0 && now - rows[n].since.value > stage.budget then
              r.phase == Failed && r.failureCount == rows[n].failureCount + 1
            else r.phase == stage.phase && r.since == rows[n].since
  {
    var prev := Inherit(Previous(rows, n), g.outer.uid);
    var obs := Observe(spec, prev, g, true, now);
    assert Milestones(obs) == Milestones(Observe(spec, BLANK_ROW, g, true, now));
    StagePhases(obs);
    LadderDecides(obs);
  }

  /** The other direction: a cell held in a timed stage since pass `j`, and still seen waiting
      there, is failed by the first pass more than the budget after pass `j`, and by none before. */
  lemma TimeoutFires(pool: string, run: seq<Pass>, j: nat, k: nat, n: string, stage: Stage)
    requires Run(pool, run) && 0 < k < |run|
    requires HeldSince(run, j, k - 1, n, stage.phase) && Waits(run[k], n, stage)
    requires run[k - 1].after.rows[n].uid == Kept(run[k]).seen[n].outer.uid
    ensures n in run[k].after.rows
    ensures run[k].after.rows[n].phase == Failed <==>
            stage.budget > 0 && run[k].input.now - run[j].input.now > stage.budget
    ensures n in Started(run[k]) || run[k].after.rows[n].phase == Failed || HeldSince(run, j, k, n, stage.phase)
  {
    StepAt(pool, run, k);
    HeldNow(run, j, k - 1, n, stage.phase);
    WaitingStep(pool, run[k], n, stage);
    if n !in Started(run[k]) && run[k].after.rows[n].phase != Failed {
      HoldsOn(run, j, k, n, stage.phase);
    }
  }

  lemma WaitingStep(pool: string, p: Pass, n: string, stage: Stage)
    requires StepOk(pool, p) && Waits(p, n, stage)
    requires n in p.before.rows && p.before.rows[n].phase == stage.phase
    requires p.before.rows[n].uid == Kept(p).seen[n].outer.uid
    ensures n in p.after.rows && p.before.rows[n].since.Some?
    ensures p.after.rows[n].phase == Failed <==>
            stage.budget > 0 && p.input.now - p.before.rows[n].since.value > stage.budget
    ensures n in Started(p) || p.after.rows[n].phase == Failed
            || (p.after.rows[n].phase == stage.phase && p.after.rows[n].since == p.before.rows[n].since)
  {
    StageAsSeen(pool, p, n);
    WaitingOnSight(pool, p, n, stage);
  }

  lemma WaitingOnSight(pool: string, p: Pass, n: string, stage: Stage)
    requires StepOk(pool, p) && n in Cells(p.input.spec, Kept(p)) && p.input.reachable
    requires Kept(p).seen[n].outer.present && !Kept(p).seen[n].outer.failed && FirstUnmet(Milestones(Sight(p, n))) == Some(stage)
    requires n in p.before.rows && p.before.rows[n].phase == stage.phase && p.before.rows[n].uid == Kept(p).seen[n].outer.uid
    ensures n in p.after.rows && p.before.rows[n].since.Some?
    ensures p.after.rows[n].phase == Failed <==>
            stage.budget > 0 && p.input.now - p.before.rows[n].since.value > stage.budget
    ensures n in Started(p) || p.after.rows[n].phase == Failed
            || (p.after.rows[n].phase == stage.phase && p.after.rows[n].since == p.before.rows[n].since)
  {
    assert RowOk(p.input.spec, n, p.before.rows[n]);
    WaitingRow(p.input.spec, p.before.rows, n, ParseIndex(p.input.spec.pool, n).value, Kept(p).seen[n], p.input.now, stage);
    StagePhases(Sight(p, n));
    assert n in p.rows;
  }

  // ----- exhaustion

  predicate Exhausted(rows: map<string, Row>, n: string, uid: string) {
    n in rows && rows[n].phase == Failed && rows[n].uid == uid && rows[n].failureCount >= 5
  }

  lemma ExhaustedStays(spec: Spec, rows: map<string, Row>, d: Reads, reachable: bool, now: int, n: string, uid: string)
    requires Exhausted(rows, n, uid) && RowOk(spec, n, rows[n]) && uid != ""
    requires n in Cells(spec, d) && d.seen[n].outer.uid == uid
    ensures Exhausted(RowsAfter(spec, rows, d, reachable, now), n, uid)
  {
  }

  lemma ExhaustedBarsCreation(m: MembershipInput, rows: map<string, Row>, n: string, uid: string)
    requires Lists(m.cells, rows) && Exhausted(rows, n, uid)
    ensures Plan(m).create == []
  {
    assert rows[n] in m.cells;
    CreationIsExact(m);
  }

  /** The outside world leaves the guest alone. */
  predicate StillListed(p: Pass, n: string, uid: string) {
    && n in Cells(p.input.spec, p.input.first) && p.input.first.seen[n].outer.uid == uid
  }

  lemma ExhaustedStep(pool: string, p: Pass, n: string, uid: string)
    requires StepOk(pool, p) && Legal(p) && uid != ""
    requires Exhausted(p.before.rows, n, uid) && StillListed(p, n, uid)
    ensures Exhausted(p.after.rows, n, uid) && p.plan.create == []
    ensures n !in p.replaced && n !in p.removed
  {
    assert RowOk(p.input.spec, n, p.before.rows[n]);
    ExhaustedStays(p.input.spec, p.before.rows, p.input.first, p.input.reachable, p.input.now, n, uid);
    ExhaustedBarsCreation(MembershipFor(p.before, p.input, p.cells, p.scale), p.seen, n, uid);
    assert p.rows == p.seen && n !in Started(p);
    assert p.after.rows[n] == p.rows[n];
    if n in p.replaced {
      if p.rollout.drain.Some? {
        RolloutShape(p);
      }
      ReplacedRow(p, n);
      assert false;
    }
    if n in p.removed {
      RemovedRow(p, n);
      assert false;
    }
  }

  /** Exhaustion is absorbing: once a failed cell with a guest has failed five times, in every
      later pass it is still Failed, the operator never deletes its guest, and the pool creates
      no cell at all. */
  lemma {:induction false} ExhaustionIsAbsorbing(pool: string, run: seq<Pass>, a: nat, k: nat, n: string, uid: string)
    requires Run(pool, run) && a <= k < |run| && uid != ""
    requires Exhausted(run[a].before.rows, n, uid)
    requires forall i :: a <= i <= k ==> StillListed(run[i], n, uid)
    ensures Exhausted(run[k].after.rows, n, uid) && run[k].plan.create == []
    ensures n !in run[k].replaced && n !in run[k].removed
    ensures (forall m :: m in run[k].after.rows ==> Canonical(pool, m)) ==> n !in DeletedGuests(run[k])
    decreases k
  {
    StepAt(pool, run, k);
    LegalAt(run, k);
    if a < k {
      ExhaustionIsAbsorbing(pool, run, a, k - 1, n, uid);
    }
    ExhaustedStep(pool, run[k], n, uid);
    if n in DeletedGuests(run[k]) {
      var m := DeletedFor(pool, run[k], n);
    }
  }

  /** A tombstone persisted without a UID costs a boot: the guest a pass creates for it is shown as
      Failed and, its backoff being long over, deleted by the very pass that created it. */
  lemma TombstoneCondemnsSuccessor(pool: string, run: seq<Pass>, k: nat, n: string)
    requires Run(pool, run) && k < |run|
    requires n in run[k].before.rows && run[k].before.rows[n].phase == Failed && run[k].before.rows[n].uid == ""
    requires n in Cells(run[k].input.spec, Kept(run[k])) && !Kept(run[k]).seen[n].outer.failed
    requires run[k].before.rows[n].failureCount < MAX_FAILURES_PER_INDEX && Usable(run[k].input)
    requires run[k].before.rows[n].since.Some?
    requires run[k].input.now - run[k].before.rows[n].since.value >= BackoffAfter(run[k].before.rows[n].failureCount)
    ensures n in run[k].replaced
    ensures Kept(run[k]).seen[n].outer.name in DeletedGuests(run[k])
    ensures n in run[k].after.rows && run[k].after.rows[n].phase == Failed
            && run[k].after.rows[n].uid == Kept(run[k]).seen[n].outer.uid != ""
  {
    StepAt(pool, run, k);
    LegalAt(run, k);
    SuccessorStep(pool, run[k], n);
  }

  lemma SuccessorStep(pool: string, p: Pass, n: string)
    requires StepOk(pool, p) && Marks(p) && Usable(p.input)
    requires n in p.before.rows && p.before.rows[n].phase == Failed && p.before.rows[n].uid == ""
    requires n in Cells(p.input.spec, Kept(p)) && !Kept(p).seen[n].outer.failed
    requires p.before.rows[n].failureCount < MAX_FAILURES_PER_INDEX
    requires p.before.rows[n].since.Some? && p.input.now - p.before.rows[n].since.value >= BackoffAfter(p.before.rows[n].failureCount)
    ensures n in p.replaced && n in p.after.rows && p.after.rows[n].phase == Failed
    ensures p.after.rows[n].uid == Kept(p).seen[n].outer.uid != ""
    ensures Kept(p).seen[n].outer.name in DeletedGuests(p)
  {
    assert RowOk(p.input.spec, n, p.before.rows[n]);
    SuccessorStartsClean(p.input.spec, p.before.rows, Kept(p), p.input.reachable, p.input.now, n);
    assert n in p.rows && !CanRemove(p.rows[n]) && n !in Started(p);
    assert n !in NameSet(p.plan.drain) && p.marked[n] == p.rows[n];
    Replaceable(p.marked, p.input, n);
  }

  lemma Replaceable(rows: map<string, Row>, inp: PassInput, n: string)
    requires n in rows && ShouldReplace(rows[n], inp.now, Usable(inp))
    ensures n in ToReplace(rows, inp)
  {
  }
}
