/** A run of a pool that scales by itself: it grows for demand and shrinks when demand has been gone for
    the window. */
module TwoCellRuns {
  import opened CellTypes
  import opened CellId
  import opened Membership
  import opened MembershipProofs
  import opened Scaling
  import opened Discovery
  import opened Passes
  import opened Runs
  import opened PlanByPhase
  import opened ExactPasses
  import opened ScaleRuns
  import opened Scenarios
  import opened OneCellRuns

  /** One cell at least and two at most, shrinking by itself, with the windows left to their defaults. */
  function AutoSpec(pool: string): Spec {
    SpecOf(pool, 1).(autoscaling := Some(Autoscaling(true, Some(1), Some(2), true, None, None)))
  }

  function UpGuest(pool: string, index: int, uid: string): GuestReading {
    Guest(Name(pool, index), uid, "hash", NodeUp(uid))
  }

  /** One cell is up, or both are. */
  function One(pool: string): Reads {
    Listed(Name(pool, 0), UpGuest(pool, 0, "u0"))
  }

  function Both(pool: string): Reads {
    var a, b := Name(pool, 0), Name(pool, 1);
    Reads([a, b], map[a := UpGuest(pool, 0, "u0"), b := UpGuest(pool, 1, "u1")], None)
  }

  /** A pass that reads this demand and finds nothing on either Node. */
  function AutoInput(pool: string, now: int, demand: Demand, first: Reads, second: Reads): PassInput {
    var idle := map[Name(pool, 0) := IDLE, Name(pool, 1) := IDLE];
    InputOf(AutoSpec(pool), now, true, first, second).(demand := Some(demand), allocations := idle, drainAllocations := idle)
  }

  lemma AutoNames(pool: string)
    ensures var a, b := Name(pool, 0), Name(pool, 1);
            && a != b && ParseIndex(pool, a) == Some(0) && ParseIndex(pool, b) == Some(1)
            && Cells(AutoSpec(pool), One(pool)) == {a} && Cells(AutoSpec(pool), Both(pool)) == {a, b}
            && ReadsOk(AutoSpec(pool), One(pool)) && ReadsOk(AutoSpec(pool), Both(pool))
  {
    OrdinaryName(pool, pool, 0);
    OrdinaryName(pool, pool, 1);
    OneCell(AutoSpec(pool), Name(pool, 0), UpGuest(pool, 0, "u0"));
  }

  predicate UpRow(r: Row, n: string, index: int, uid: string) {
    r.name == n && r.index == index && r.phase == Ready && r.uid == uid && r.since.Some? && r.hash == "hash" && r.nodeName == n
  }

  predicate BothUp(rows: map<string, Row>, pool: string) {
    var a, b := Name(pool, 0), Name(pool, 1);
    rows.Keys == {a, b} && a != b && UpRow(rows[a], a, 0, "u0") && UpRow(rows[b], b, 1, "u1")
  }

  lemma FindsOne(pool: string, now: int)
    ensures var rows := RowsAfter(AutoSpec(pool), map[], One(pool), true, now);
            rows.Keys == {Name(pool, 0)} && UpRow(rows[Name(pool, 0)], Name(pool, 0), 0, "u0")
  {
    AutoNames(pool);
    OnlySeen(AutoSpec(pool), map[], Name(pool, 0), UpGuest(pool, 0, "u0"), now);
    UpIsReady(AutoSpec(pool), map[], Name(pool, 0), 0, "u0", "hash", now);
  }

  lemma FindsBoth(pool: string, rows: map<string, Row>, now: int)
    requires rows == map[] || BothUp(rows, pool)
    ensures BothUp(RowsAfter(AutoSpec(pool), rows, Both(pool), true, now), pool)
  {
    BothAreSeen(pool, rows, now);
    UpIsReady(AutoSpec(pool), rows, Name(pool, 0), 0, "u0", "hash", now);
    UpIsReady(AutoSpec(pool), rows, Name(pool, 1), 1, "u1", "hash", now);
  }

  lemma BothAreSeen(pool: string, rows: map<string, Row>, now: int)
    requires rows.Keys <= {Name(pool, 0), Name(pool, 1)}
    ensures var after, a, b := RowsAfter(AutoSpec(pool), rows, Both(pool), true, now), Name(pool, 0), Name(pool, 1);
            && a != b && after.Keys == {a, b}
            && after[a] == SeenRow(AutoSpec(pool), rows, a, 0, UpGuest(pool, 0, "u0"), true, now)
            && after[b] == SeenRow(AutoSpec(pool), rows, b, 1, UpGuest(pool, 1, "u1"), true, now)
  {
    AutoNames(pool);
  }

  lemma StandingTwo(cells: seq<Row>, rows: map<string, Row>, pool: string)
    requires Lists(cells, rows) && BothUp(rows, pool)
    ensures |Standing(cells)| == 2
  {
    TwoListed(cells, rows, Name(pool, 0), Name(pool, 1));
    assert Standing(cells) == {0, 1};
  }

  /** One Ready row at index zero. */
  predicate OneStands(cells: seq<Row>) {
    && |cells| == 1 && cells[0].phase == Ready
    && |Standing(cells)| == 1 && OnTheWayUp(cells) == {} && PlanByPhase.Taken(cells) == {0} && Unregistered(cells) == {}
  }

  lemma StandingOne(cells: seq<Row>, rows: map<string, Row>, n: string)
    requires Lists(cells, rows) && rows.Keys == {n} && rows[n].phase == Ready && rows[n].index == 0
    ensures OneStands(cells)
  {
    OneListed(cells, rows, n);
    assert Standing(cells) == {0};
    assert cells[0].index == 0;
    assert PlanByPhase.Taken(cells) == {0};
  }

  /** Nothing is drained where the target is not below the rows that stand. */
  lemma NothingLeaves(pool: string, run: seq<Pass>, k: nat)
    requires Run(pool, run) && k < |run| && run[k].scale.desired >= |Standing(run[k].cells)| && !run[k].input.spec.rolling
    ensures Started(run[k]) == {}
  {
    PassDrainsExactly(pool, run, k);
    PassRollsOutExactly(pool, run, k);
    EmptyNames();
  }

  lemma ReadyStays(pool: string, run: seq<Pass>, k: nat)
    requires Run(pool, run) && k < |run| && Started(run[k]) == {} && BothUp(run[k].rows, pool)
    ensures BothUp(run[k].after.rows, pool)
  {
    StepAt(pool, run, k);
    UpRowsStay(pool, run[k]);
  }

  lemma UpRowsStay(pool: string, p: Pass)
    requires Written(p) && Started(p) == {} && BothUp(p.rows, pool)
    ensures BothUp(p.after.rows, pool)
  {
    assert NameSet(p.plan.drain) <= Started(p) && AsSet(p.rollout.drain) <= Started(p);
    NothingWritten(p);
  }

  // ----- the passes

  /** Demand and one cell: the pool grows by one, and finds both cells up. */
  lemma Grows(pool: string) returns (p: Pass)
    ensures Run(pool, [p]) && Grown(pool, p)
  {
    AutoNames(pool);
    p := Extended(pool, [], AutoInput(pool, 0, Demand(1, 1), One(pool), Both(pool)));
    assert [] + [p] == [p];
    GrowsByOne(pool, [p]);
  }

  lemma GrowsByOne(pool: string, run: seq<Pass>)
    requires Run(pool, run) && |run| == 1 && run[0].input == AutoInput(pool, 0, Demand(1, 1), One(pool), Both(pool))
    ensures Grown(pool, run[0])
  {
    WantsTwo(pool, run);
    CreatesSecond(pool, run);
    FoundBoth(pool, run, 0);
    NothingLeaves(pool, run, 0);
    ReadyStays(pool, run, 0);
  }

  lemma WantsTwo(pool: string, run: seq<Pass>)
    requires Run(pool, run) && |run| == 1 && run[0].input == AutoInput(pool, 0, Demand(1, 1), One(pool), Both(pool))
    ensures run[0].scale.scaledUp && !run[0].scale.scaledDown && run[0].scale.desired == 2 && OneStands(run[0].cells)
  {
    FoundOne(pool, run);
    ScalesUpExactly(pool, run, 0);
    ScalesDownExactly(pool, run, 0);
    TargetsExactly(pool, run, 0);
  }

  lemma FoundOne(pool: string, run: seq<Pass>)
    requires Run(pool, run) && |run| == 1 && run[0].input == AutoInput(pool, 0, Demand(1, 1), One(pool), Both(pool))
    ensures OneStands(run[0].cells)
  {
    StepAt(pool, run, 0);
    LegalAt(run, 0);
    FindsOne(pool, 0);
    StandingOne(run[0].cells, run[0].seen, Name(pool, 0));
  }

  /** The rows the pass keeps are both Ready if its last discovery lists both. */
  lemma FoundBoth(pool: string, run: seq<Pass>, k: nat)
    requires Run(pool, run) && k < |run| && Kept(run[k]) == Both(pool) && run[k].input.spec == AutoSpec(pool) && run[k].input.reachable
    requires run[k].before.rows == map[] || BothUp(run[k].before.rows, pool)
    ensures BothUp(run[k].rows, pool)
  {
    StepAt(pool, run, k);
    FindsBoth(pool, run[k].before.rows, run[k].input.now);
  }

  lemma CreatesSecond(pool: string, run: seq<Pass>)
    requires Run(pool, run) && |run| == 1 && run[0].input.reachable && run[0].input.freeGPUs.None? && run[0].scale.desired == 2
    requires OneStands(run[0].cells)
    ensures run[0].plan.create == [1]
  {
    PassCreatesExactly(pool, run, 0);
    PlanIsTold(pool, run, 0);
    ReadyListed(run[0].cells, run[0].seen);
    assert run[0].cells[0] in run[0].cells;
    RoomForOne(Told(run, 0), |run[0].plan.create|);
    SecondIndex(PlanByPhase.Taken(run[0].cells), run[0].plan.create);
  }

  lemma RoomForOne(inp: MembershipInput, n: nat)
    requires inp.reachable && inp.freeGPUs.None? && inp.desired == 2 && inp.maxCreating == 0 && inp.everReady && OneStands(inp.cells)
    ensures MayCreate(inp) && (Fits(inp, n) && !Fits(inp, n + 1) ==> n == 1)
  {
  }

  lemma SecondIndex(taken: set<int>, create: seq<int>)
    requires |create| == 1 && taken == {0} && FirstFree(taken, create)
    ensures create == [1]
  {
    assert 1 !in taken && create[0] !in taken;
  }

  /** Demand is gone: the pass notes it and holds. */
  lemma Holds(pool: string, before: seq<Pass>) returns (p: Pass)
    requires Run(pool, before) && |before| == 1 && Grown(pool, before[0])
    ensures Run(pool, before + [p]) && Held(pool, p)
  {
    AutoNames(pool);
    p := Extended(pool, before, AutoInput(pool, 1, Demand(0, 0), Both(pool), Both(pool)));
    IsHeld(pool, before + [p]);
  }

  lemma IsHeld(pool: string, run: seq<Pass>)
    requires Run(pool, run) && |run| == 2 && Grown(pool, run[0]) && BothUp(run[1].before.rows, pool)
    requires run[1].input == AutoInput(pool, 1, Demand(0, 0), Both(pool), Both(pool))
    ensures Held(pool, run[1])
  {
    HoldsAtTwo(pool, run);
    HoldsBoth(pool, run);
  }

  /** A pass that has grown, and one that holds with both cells up. */
  predicate Grown(pool: string, p: Pass) {
    && p.input == AutoInput(pool, 0, Demand(1, 1), One(pool), Both(pool))
    && p.scale.scaledUp && !p.scale.scaledDown && p.plan.create == [1] && BothUp(p.after.rows, pool)
  }

  predicate Held(pool: string, p: Pass) {
    && p.input == AutoInput(pool, 1, Demand(0, 0), Both(pool), Both(pool))
    && !p.scale.scaledUp && !p.scale.scaledDown && BothUp(p.after.rows, pool)
  }

  lemma TwoStand(pool: string, run: seq<Pass>, k: nat)
    requires Run(pool, run) && k < |run| && run[k].input.first == Both(pool) && run[k].input.spec == AutoSpec(pool) && run[k].input.reachable
    requires BothUp(run[k].before.rows, pool)
    ensures BothUp(run[k].seen, pool) && |Standing(run[k].cells)| == 2
  {
    LegalAt(run, k);
    FindsBoth(pool, run[k].before.rows, run[k].input.now);
    StandingTwo(run[k].cells, run[k].seen, pool);
  }

  lemma HoldsAtTwo(pool: string, run: seq<Pass>)
    requires Run(pool, run) && |run| == 2 && run[0].input == AutoInput(pool, 0, Demand(1, 1), One(pool), Both(pool))
    requires run[1].input == AutoInput(pool, 1, Demand(0, 0), Both(pool), Both(pool)) && BothUp(run[1].before.rows, pool)
    ensures !run[1].scale.scaledUp && !run[1].scale.scaledDown && run[1].scale.desired == 2 == |Standing(run[1].cells)|
  {
    TwoStand(pool, run, 1);
    ScalesUpExactly(pool, run, 1);
    ScalesDownExactly(pool, run, 1);
    assert Heard(run[0]) == Some(Demand(1, 1));
    TargetsExactly(pool, run, 1);
  }

  lemma HoldsBoth(pool: string, run: seq<Pass>)
    requires Run(pool, run) && |run| == 2 && run[1].input == AutoInput(pool, 1, Demand(0, 0), Both(pool), Both(pool))
    requires BothUp(run[1].before.rows, pool) && run[1].scale.desired == |Standing(run[1].cells)|
    ensures BothUp(run[1].after.rows, pool)
  {
    FoundBoth(pool, run, 1);
    NothingLeaves(pool, run, 1);
    ReadyStays(pool, run, 1);
  }

  /** Half an hour later: the pool shrinks by one, and as nothing is on the Node the guest goes at once. */
  lemma Shrinks(pool: string, before: seq<Pass>) returns (p: Pass)
    requires Run(pool, before) && |before| == 2 && Grown(pool, before[0]) && Held(pool, before[1])
    ensures Run(pool, before + [p]) && p.input.now == 1801 && p.scale.scaledDown
    ensures exists n :: Started(p) == {n} && n in p.removed
  {
    AutoNames(pool);
    p := Extended(pool, before, AutoInput(pool, 1801, Demand(0, 0), Both(pool), Both(pool)));
    ShrinksFromTwo(pool, before + [p]);
    var n := DrainsOne(pool, before + [p]);
  }

  lemma ShrinksFromTwo(pool: string, run: seq<Pass>)
    requires Run(pool, run) && |run| == 3 && Grown(pool, run[0]) && Held(pool, run[1]) && BothUp(run[2].before.rows, pool)
    requires run[2].input == AutoInput(pool, 1801, Demand(0, 0), Both(pool), Both(pool))
    ensures run[2].scale.scaledDown && |Standing(run[2].cells)| == 2 && LimitsAt(run[2]).hi == 2 && BothUp(run[2].seen, pool)
  {
    TwoStand(pool, run, 2);
    ScalesDownExactly(pool, run, 2);
    assert QuietSince(run, 1, 1);
    assert QuietFrom(run, 1, 1);
    assert ScaleRuns.ReadEmpty(run[2], Name(pool, 0));
  }

  lemma DrainsOne(pool: string, run: seq<Pass>) returns (n: string)
    requires Run(pool, run) && |run| == 3 && run[2].scale.scaledDown && BothUp(run[2].seen, pool)
    requires run[2].input == AutoInput(pool, 1801, Demand(0, 0), Both(pool), Both(pool))
    requires |Standing(run[2].cells)| == 2 && LimitsAt(run[2]).hi == 2
    ensures Started(run[2]) == {n} && n in run[2].removed
  {
    n := ShrinkDrainsOneIdle(pool, run, 2);
    StepAt(pool, run, 2);
    StartedDrains(run[2], n);
    PassRemovesExactly(pool, run, 2, n);
  }

  lemma StartedDrains(p: Pass, n: string)
    requires Written(p) && n in Started(p)
    ensures n in p.after.rows && p.after.rows[n].phase == Draining
  {
  }

  /** A pool scales by itself: it grows by a cell for satisfiable demand and, once demand has been absent
      for half an hour, drains an idle cell and deletes its guest. */
  lemma GrowsAndShrinks(pool: string) returns (run: seq<Pass>)
    ensures Run(pool, run) && |run| == 3
    ensures run[0].scale.scaledUp && run[0].plan.create == [1] && run[0].input.now == 0
    ensures !run[1].scale.scaledUp && !run[1].scale.scaledDown && run[1].input.now == 1
    ensures run[2].scale.scaledDown && run[2].input.now == 1801 && exists n :: Started(run[2]) == {n} && n in run[2].removed
  {
    var p := Grows(pool);
    var q := Holds(pool, [p]);
    var r := Shrinks(pool, [p] + [q]);
    run := [p] + [q] + [r];
  }
}
