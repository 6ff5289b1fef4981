/** Runs that exist: every input has a pass, and three runs in which the operator does what nobody
    asked of it. */
module Scenarios {
  import opened CellTypes
  import opened CellId
  import opened Sequences
  import opened Decimal
  import opened Fsm
  import opened Membership
  import opened MembershipProofs
  import opened Scaling
  import opened Rollout
  import opened Discovery
  import opened Passes
  import opened Runs
  import opened RunLimits
  import opened Diagnosis
  import opened Reconciler

  // ----- every input has a pass

  lemma {:induction false} Slot(cells: seq<Row>, index: int) returns (k: nat)
    requires SortedByIndex(cells)
    ensures k <= |cells| && (forall i :: 0 <= i < k ==> cells[i].index <= index) && (k < |cells| ==> index < cells[k].index)
  {
    if cells == [] || cells[|cells| - 1].index <= index {
      k := |cells|;
    } else {
      k := Slot(cells[..|cells| - 1], index);
    }
  }

  lemma {:induction false} Listing(rows: map<string, Row>) returns (cells: seq<Row>)
    requires Keyed(rows)
    ensures Lists(cells, rows)
    decreases |rows|
  {
    cells := [];
    if rows != map[] {
      var n :| n in rows;
      var rest := Listing(rows - {n});
      var k := Slot(rest, rows[n].index);
      cells := rest[..k] + [rows[n]] + rest[k..];
      ListedInsert(rows, n, rest, k, cells);
    }
  }

  lemma ListedInsert(rows: map<string, Row>, n: string, rest: seq<Row>, k: nat, cells: seq<Row>)
    requires Keyed(rows) && n in rows && Lists(rest, rows - {n}) && k <= |rest| && cells == rest[..k] + [rows[n]] + rest[k..]
    requires (forall i :: 0 <= i < k ==> rest[i].index <= rows[n].index) && (k < |rest| ==> rows[n].index < rest[k].index)
    ensures Lists(cells, rows)
  {
    var r := rows[n];
    assert forall d :: d in rest ==> d.name != r.name;
    InsertedAt(r, rest, k, cells);
    InsertedSorted(r, rest, k, cells);
    forall m | m in rows ensures rows[m] in cells {
      assert m != n ==> m in rows - {n} && (rows - {n})[m] in rest;
    }
  }

  lemma RowsAreKeyed(spec: Spec, rows: map<string, Row>)
    requires RowsOk(spec, rows)
    ensures Keyed(rows)
  {
    forall n | n in rows ensures rows[n].name == n {
      assert RowOk(spec, n, rows[n]);
    }
  }

  lemma ListedAfter(spec: Spec, rows: map<string, Row>, d: Reads, reachable: bool, now: int) returns (cells: seq<Row>)
    requires RowsOk(spec, rows) && ReadsOk(spec, d)
    ensures Keyed(RowsAfter(spec, rows, d, reachable, now)) && Lists(cells, RowsAfter(spec, rows, d, reachable, now))
  {
    DiscoveryKeepsRowsOk(spec, rows, d, reachable, now);
    RowsAreKeyed(spec, RowsAfter(spec, rows, d, reachable, now));
    cells := Listing(RowsAfter(spec, rows, d, reachable, now));
  }

  lemma ListedMarked(rows: map<string, Row>, names: set<string>, now: int) returns (cells: seq<Row>)
    requires Keyed(rows)
    ensures Lists(cells, MarkDraining(rows, names, now))
  {
    assert Keyed(MarkDraining(rows, names, now));
    cells := Listing(MarkDraining(rows, names, now));
  }

  /** A pass on any status and any reads. */
  lemma PassFor(before: Status, inp: PassInput) returns (p: Pass)
    requires RowsOk(inp.spec, before.rows) && ReadsOk(inp.spec, inp.first) && ReadsOk(inp.spec, inp.second)
    ensures AllLegal([p]) && p.before == before && p.input == inp
  {
    var spec, now := inp.spec, inp.now;
    var seen := RowsAfter(spec, before.rows, inp.first, inp.reachable, now);
    var cells := ListedAfter(spec, before.rows, inp.first, inp.reachable, now);
    var idle := if NeedsIdleness(spec) && inp.reachable then IdleNames(cells, inp.allocations) else [];
    var scale := DecideScale(ScaleFor(before, inp, cells, idle));
    var plan := Plan(MembershipFor(before, inp, cells, scale));
    var again := RowsAfter(spec, before.rows, inp.second, inp.reachable, now);
    var _ := ListedAfter(spec, before.rows, inp.second, inp.reachable, now);
    var rows := if plan.create == [] then seen else again;
    var marked := MarkDraining(rows, NameSet(plan.drain), now);
    var markedCells := ListedMarked(rows, NameSet(plan.drain), now);
    var rollout := RolloutPlan(RolloutFor(inp, markedCells, idle, scale, plan));
    var drained := MarkDraining(marked, AsSet(rollout.drain), now);
    var reaped := ReapedNodes(spec, before.rows, inp.first, inp.reachable, now);
    var more := if plan.create == [] then {} else ReapedNodes(spec, before.rows, inp.second, inp.reachable, now);
    p := Pass(before, inp, seen, cells, idle, scale, plan, rows, marked, markedCells, ToReplace(marked, inp), rollout,
              ToRemove(drained, inp), reaped + more, StatusAfter(before, inp, scale, AfterDrains(drained, inp)));
    Assemble(p, reaped, more);
  }

  function LastStatus(run: seq<Pass>): Status {
    if run == [] then EMPTY_STATUS else run[|run| - 1].after
  }

  /** Any run goes on, whatever the next pass reads. */
  lemma Extended(pool: string, run: seq<Pass>, inp: PassInput) returns (p: Pass)
    requires Run(pool, run) && inp.spec.pool == pool && ReadsOk(inp.spec, inp.first) && ReadsOk(inp.spec, inp.second)
    requires run != [] ==> run[|run| - 1].input.now <= inp.now
    ensures Run(pool, run + [p]) && p.input == inp && p.before == LastStatus(run)
    ensures StepOk(pool, p)
  {
    LastRowsOk(pool, run, inp.spec);
    p := PassFor(LastStatus(run), inp);
    Extend(pool, run, p);
    LegalAt([p], 0);
    StepHolds(pool, p);
  }

  lemma LastRowsOk(pool: string, run: seq<Pass>, spec: Spec)
    requires Run(pool, run) && spec.pool == pool
    ensures RowsOk(spec, LastStatus(run).rows)
  {
    if run != [] {
      StepAt(pool, run, |run| - 1);
      SamePoolRowsOk(run[|run| - 1].input.spec, spec, run[|run| - 1].after.rows);
    }
  }

  // ----- small listings

  lemma {:induction false} CountAll(cells: seq<Row>)
    ensures CountIf(cells, (c: Row) => true) == |cells|
  {
    if cells != [] {
      CountAll(cells[..|cells| - 1]);
    }
  }

  lemma ListingSize(cells: seq<Row>, rows: map<string, Row>)
    requires Lists(cells, rows)
    ensures |cells| == |rows|
  {
    ListedCount(cells, rows, (c: Row) => true);
    CountAll(cells);
    assert RowsWith(rows, (c: Row) => true) == rows.Keys;
  }

  lemma OneListed(cells: seq<Row>, rows: map<string, Row>, n: string)
    requires Lists(cells, rows) && rows.Keys == {n}
    ensures cells == [rows[n]]
  {
    ListingSize(cells, rows);
    assert |rows.Keys| == 1;
    assert cells[0] in cells;
  }

  lemma TwoListed(cells: seq<Row>, rows: map<string, Row>, a: string, b: string)
    requires Lists(cells, rows) && rows.Keys == {a, b} && a != b && rows[a].index < rows[b].index
    ensures cells == [rows[a], rows[b]]
  {
    ListingSize(cells, rows);
    assert |rows.Keys| == 2;
    assert cells[0] in cells && cells[1] in cells;
    assert cells[0].name != cells[1].name;
  }

  // ----- the setting

  /** A pool of fixed size with a ten-second bootstrap budget. */
  function SpecOf(pool: string, replicas: int): Spec {
    Spec(pool, replicas, None, false, "hash", 1, Some(10), None, false, None)
  }

  /** A pass whose reads are these, before and after a creation. */
  function InputOf(spec: Spec, now: int, reachable: bool, first: Reads, second: Reads): PassInput {
    PassInput(spec, now, reachable, first, second, None, true, None, true, map[], map[], false)
  }

  const NOTHING_LISTED := Reads([], map[], None)

  /** A guest that is up with a GPU. */
  function Up(name: string, uid: string): OuterState {
    OuterState(name, true, true, true, false, NoReason, 1, uid, "hash")
  }

  /** A pool of fixed size that is not over it drains nothing. */
  lemma FixedSizeDrainsNothing(p: Pass)
    requires Discovers(p) && Scales(p) && Plans(p) && RollsOut(p) && p.input.spec.autoscaling.None? && !p.input.spec.rolling && |p.seen| <= p.input.spec.replicas
    ensures Started(p) == {}
  {
    ListingSize(p.cells, p.seen);
    LiveWithin(p.cells);
    assert p.plan.drain == [];
    assert p.rollout.drain.None?;
    EmptyNames();
  }

  lemma {:induction false} LiveWithin(cells: seq<Row>)
    ensures LiveCount(cells) <= |cells|
  {
    if cells != [] {
      LiveWithin(cells[..|cells| - 1]);
    }
  }

  // ----- a tombstone condemns its successor

  function Broken(name: string, uid: string): GuestReading {
    GuestReading(Up(name, uid).(failed := true, reason := Other("broken")), NO_NODE, None, None)
  }

  /** What a failure leaves of a guest that has gone. */
  predicate IsTombstone(rows: map<string, Row>, n: string) {
    FailedOnce(rows, n) && rows[n].uid == ""
  }

  predicate FailedOnce(rows: map<string, Row>, n: string) {
    && rows.Keys == {n} && rows[n].phase == Failed && rows[n].since == Some(0)
    && rows[n].failureCount == 1 && rows[n].reason == Other("broken") && rows[n].index == 0
  }

  function Listed(n: string, g: GuestReading): Reads {
    Reads([n], map[n := g], None)
  }

  lemma OneCell(spec: Spec, n: string, g: GuestReading)
    requires ParseIndex(spec.pool, n).Some?
    ensures Cells(spec, Listed(n, g)) == {n} && Cells(spec, NOTHING_LISTED) == {}
  {
  }

  lemma ReportsFailure(pool: string, p: Pass, n: string)
    requires StepOk(pool, p) && p.before.rows == map[] && ParseIndex(pool, n) == Some(0)
    requires p.input == InputOf(SpecOf(pool, 1), 0, true, Listed(n, Broken(n, "u1")), Listed(n, Broken(n, "u1")))
    ensures FailedOnce(p.after.rows, n)
  {
    OnlySeen(SpecOf(pool, 1), map[], n, Broken(n, "u1"), 0);
    BrokenRow(pool, n);
    FailedRowsStay(pool, p, n);
  }

  lemma OnlySeen(spec: Spec, rows: map<string, Row>, n: string, g: GuestReading, now: int)
    requires ParseIndex(spec.pool, n) == Some(0) && rows.Keys <= {n}
    ensures var after := RowsAfter(spec, rows, Listed(n, g), true, now);
            after.Keys == {n} && after[n] == SeenRow(spec, rows, n, 0, g, true, now)
  {
    OneCell(spec, n, g);
  }

  lemma BrokenRow(pool: string, n: string)
    ensures var r := SeenRow(SpecOf(pool, 1), map[], n, 0, Broken(n, "u1"), true, 0);
            r.phase == Failed && r.since == Some(0) && r.failureCount == 1 && r.reason == Other("broken") && r.index == 0
  {
  }

  lemma LeavesTombstone(pool: string, p: Pass, n: string)
    requires StepOk(pool, p) && ParseIndex(pool, n) == Some(0) && FailedOnce(p.before.rows, n)
    requires p.input == InputOf(SpecOf(pool, 1), 1, false, NOTHING_LISTED, NOTHING_LISTED)
    ensures IsTombstone(p.after.rows, n)
  {
    OneCell(p.input.spec, n, Broken(n, "u1"));
    FailedRowsStay(pool, p, n);
    assert p.after.rows.Keys == p.rows.Keys == {n};
  }

  /** The first pass: a guest reports a failure. */
  lemma FailurePass(pool: string) returns (p: Pass)
    ensures Run(pool, [p]) && p.input.now == 0 && FailedOnce(p.after.rows, Name(pool, 0))
  {
    var n, spec := Name(pool, 0), SpecOf(pool, 1);
    OrdinaryName(pool, pool, 0);
    var first := Listed(n, Broken(n, "u1"));
    OneCell(spec, n, Broken(n, "u1"));
    p := Extended(pool, [], InputOf(spec, 0, true, first, first));
    ReportsFailure(pool, p, n);
    assert [] + [p] == [p];
  }

  /** The second: the guest is gone during an outage. What is left is a tombstone without a UID. */
  lemma OutagePass(pool: string, p: Pass) returns (q: Pass)
    requires Run(pool, [p]) && p.input.now == 0 && FailedOnce(p.after.rows, Name(pool, 0))
    ensures Run(pool, [p] + [q]) && q.input.now == 1 && IsTombstone(q.after.rows, Name(pool, 0))
  {
    OrdinaryName(pool, pool, 0);
    OneCell(SpecOf(pool, 1), Name(pool, 0), Broken(Name(pool, 0), "u1"));
    q := Extended(pool, [p], InputOf(SpecOf(pool, 1), 1, false, NOTHING_LISTED, NOTHING_LISTED));
    LeavesTombstone(pool, q, Name(pool, 0));
  }

  /** The third finds nothing and creates the guest that the tombstone's index names. */
  lemma RefillPass(pool: string, run: seq<Pass>) returns (p: Pass)
    requires Run(pool, run) && |run| == 2 && run[1].input.now == 1 && IsTombstone(run[1].after.rows, Name(pool, 0))
    ensures Run(pool, run + [p]) && p.before.rows == run[1].after.rows && p.plan.create == [0]
    ensures p.input == InputOf(SpecOf(pool, 1), 31, true, NOTHING_LISTED,
                               Listed(Name(pool, 0), GuestReading(Up(Name(pool, 0), "u2"), NO_NODE, None, None)))
  {
    var n := Name(pool, 0);
    var g := GuestReading(Up(n, "u2"), NO_NODE, None, None);
    OrdinaryName(pool, pool, 0);
    OneCell(SpecOf(pool, 1), n, g);
    p := Extended(pool, run, InputOf(SpecOf(pool, 1), 31, true, NOTHING_LISTED, Listed(n, g)));
    LegalAt(run + [p], 2);
    RefillsTombstone(p, n);
  }

  /** A pass that creates a guest, sees it, and deletes it again. */
  lemma CreatedAndCondemned(pool: string) returns (run: seq<Pass>)
    ensures Run(pool, run) && |run| == 3
    ensures var p, n := run[2], Name(pool, 0);
            && p.plan.create == [0] && n in Kept(p).seen && Kept(p).seen[n].outer == Up(n, "u2")
            && n in p.replaced && n in DeletedGuests(p)
  {
    var p := FailurePass(pool);
    var q := OutagePass(pool, p);
    var r := RefillPass(pool, [p] + [q]);
    run := [p] + [q] + [r];
    OrdinaryName(pool, pool, 0);
    Condemned(pool, run, Name(pool, 0));
  }

  lemma Condemned(pool: string, run: seq<Pass>, n: string)
    requires Run(pool, run) && |run| == 3 && IsTombstone(run[2].before.rows, n) && run[2].plan.create != []
    requires ParseIndex(pool, n) == Some(0)
    requires run[2].input == InputOf(SpecOf(pool, 1), 31, true, NOTHING_LISTED, Listed(n, GuestReading(Up(n, "u2"), NO_NODE, None, None)))
    ensures n in run[2].replaced && n in DeletedGuests(run[2])
  {
    OneCell(run[2].input.spec, n, GuestReading(Up(n, "u2"), NO_NODE, None, None));
    assert BackoffAfter(1) == 30;
    TombstoneCondemnsSuccessor(pool, run, 2, n);
  }

  lemma RefillsTombstone(p: Pass, n: string)
    requires Discovers(p) && Scales(p) && Plans(p) && IsTombstone(p.before.rows, n) && ParseIndex(p.input.spec.pool, n) == Some(0)
    requires p.input == InputOf(SpecOf(p.input.spec.pool, 1), 31, true, NOTHING_LISTED, p.input.second)
    ensures p.plan.create == [0]
  {
    assert Cells(p.input.spec, NOTHING_LISTED) == {};
    assert p.seen.Keys == {n};
    OneListed(p.cells, p.seen, n);
    RefillsOne(MembershipFor(p.before, p.input, p.cells, p.scale), p.seen[n]);
  }

  lemma CountOne(r: Row, f: Row -> bool)
    ensures CountIf([r], f) == if f(r) then 1 else 0
  {
    assert [r][..0] == [];
  }

  lemma RefillsOne(m: MembershipInput, r: Row)
    requires m.cells == [r] && m.desired == 1 && m.reachable && m.providerUsable && m.freeGPUs.None? && m.maxCreating == 0
    requires r.phase == Failed && r.uid == "" && r.failureCount == 1 && r.reason == Other("broken")
    ensures Plan(m).create == [0]
  {
    assert [r][..0] == [];
    CountOne(r, CountsLive);
    CountOne(r, CountsInFlight);
    CountOne(r, Suspect);
    assert TotalFailures(m.cells) == TotalFailures([r][..0]) + 1 == 1;
    assert !CreationBarred(m) && CreationBudget(m) == 1;
    CreationIsExact(m);
    assert UsedIndexes(m.cells) == {};
    var create := Plan(m).create;
    assert create[..0] == [];
  }

  // ----- a padded name takes its neighbour

  /** A guest listed under its own name, which is up with its Node, and a second listed name that
      decodes to the same index and has no Node. */
  function Twins(n: string, padded: string): Reads {
    Reads([padded, n],
          map[n := GuestReading(Up(n, "u"), NodeState(true, true, true, Some("u")), Some(true), Some(1)),
              padded := GuestReading(Up(n, "u"), NO_NODE, None, None)], None)
  }

  /** Both names decode to the index, and only the first is the operator's. */
  predicate AreTwins(pool: string, n: string, padded: string, index: int) {
    && n == Name(pool, index) && padded != n
    && ParseIndex(pool, n) == Some(index) && ParseIndex(pool, padded) == Some(index)
  }

  lemma TwinCells(pool: string, n: string, padded: string, index: int)
    requires AreTwins(pool, n, padded, index)
    ensures var spec, d := SpecOf(pool, 2), Twins(n, padded);
            Cells(spec, d) == {n, padded} && ReadsOk(spec, d)
  {
  }

  /** The row of the twin with a Node is Ready, and that of the other waits for one since time zero, or
      has failed at time eleven. */
  predicate TwinRows(rows: map<string, Row>, n: string, padded: string, phase: Phase, since: int, failures: int) {
    && n in rows && padded in rows && rows.Keys == {n, padded}
    && rows[n].phase == Ready && rows[n].uid == "u"
    && rows[padded].phase == phase && rows[padded].since == Some(since) && rows[padded].failureCount == failures
    && rows[padded].uid == "u"
  }

  /** The twin with a Node is Ready at once and stays so. */
  lemma UpTwin(pool: string, rows: map<string, Row>, n: string, index: int, now: int)
    requires n in rows ==> rows[n].phase == Ready && rows[n].uid == "u"
    ensures var g := GuestReading(Up(n, "u"), NodeState(true, true, true, Some("u")), Some(true), Some(1));
            var r := SeenRow(SpecOf(pool, 2), rows, n, index, g, true, now);
            r.phase == Ready && r.uid == "u"
  {
  }

  /** The other waits for its Node, and is failed once past its budget. */
  lemma WaitingTwin(pool: string, rows: map<string, Row>, n: string, padded: string, index: int, now: int)
    requires padded in rows ==> rows[padded].uid == "u" && rows[padded].since.Some? && rows[padded].phase in {Joining, Failed}
    ensures var r := SeenRow(SpecOf(pool, 2), rows, padded, index, GuestReading(Up(n, "u"), NO_NODE, None, None), true, now);
            && r.uid == "u"
            && (padded !in rows ==> r.phase == Joining && r.since == Some(now) && r.failureCount == 0)
            && (padded in rows && rows[padded].phase == Joining && now - rows[padded].since.value > 10 ==>
                  r.phase == Failed && r.since == Some(now) && r.failureCount == rows[padded].failureCount + 1)
            && (padded in rows && rows[padded].phase == Failed ==>
                  r.phase == Failed && r.since == rows[padded].since && r.failureCount == rows[padded].failureCount)
  {
  }

  /** From nothing to waiting, from waiting to failed past the budget, and failed from then on. */
  predicate TwinStep(rows: map<string, Row>, n: string, padded: string, now: int, phase: Phase, since: int, failures: int) {
    || (rows == map[] && now == since == 0 && phase == Joining && failures == 0)
    || (TwinRows(rows, n, padded, Joining, 0, 0) && now == since == 11 && phase == Failed && failures == 1)
    || (TwinRows(rows, n, padded, phase, since, failures) && phase == Failed)
  }

  lemma TwinDiscovery(pool: string, rows: map<string, Row>, n: string, padded: string, index: int, now: int,
                      phase: Phase, since: int, failures: int)
    requires AreTwins(pool, n, padded, index) && TwinStep(rows, n, padded, now, phase, since, failures)
    ensures TwinRows(RowsAfter(SpecOf(pool, 2), rows, Twins(n, padded), true, now), n, padded, phase, since, failures)
  {
    TwinsAreSeen(pool, rows, n, padded, index, now);
    UpTwin(pool, rows, n, index, now);
    WaitingTwin(pool, rows, n, padded, index, now);
  }

  lemma TwinsAreSeen(pool: string, rows: map<string, Row>, n: string, padded: string, index: int, now: int)
    requires AreTwins(pool, n, padded, index) && (rows == map[] || rows.Keys == {n, padded})
    ensures var after, d := RowsAfter(SpecOf(pool, 2), rows, Twins(n, padded), true, now), Twins(n, padded);
            && after.Keys == {n, padded}
            && after[n] == SeenRow(SpecOf(pool, 2), rows, n, index, d.seen[n], true, now)
            && after[padded] == SeenRow(SpecOf(pool, 2), rows, padded, index, d.seen[padded], true, now)
  {
    TwinCells(pool, n, padded, index);
  }

  /** A pass over the twins drains nothing. */
  lemma TwinPass(pool: string, p: Pass, n: string, padded: string, phase: Phase, since: int, failures: int)
    requires Discovers(p) && Scales(p) && Plans(p) && RollsOut(p)
    requires p.input.spec == SpecOf(pool, 2) && TwinRows(p.seen, n, padded, phase, since, failures)
    ensures Started(p) == {}
  {
    AtMostTwo(p.seen, n, padded);
    FixedSizeDrainsNothing(p);
  }

  lemma AtMostTwo(rows: map<string, Row>, a: string, b: string)
    requires rows.Keys == {a, b}
    ensures |rows| <= 2
  {
    assert |rows.Keys| <= 2;
  }

  lemma TwinsWritten(pool: string, p: Pass, n: string, padded: string, phase: Phase, since: int, failures: int)
    requires StepOk(pool, p) && Started(p) == {} && phase != Draining && TwinRows(p.rows, n, padded, phase, since, failures)
    ensures TwinRows(p.after.rows, n, padded, phase, since, failures)
  {
    assert p.after.rows[n] == p.rows[n] && p.after.rows[padded] == p.rows[padded];
  }

  function TwinInput(pool: string, n: string, padded: string, now: int): PassInput {
    InputOf(SpecOf(pool, 2), now, true, Twins(n, padded), Twins(n, padded))
  }

  lemma TwinAfter(pool: string, p: Pass, n: string, padded: string, index: int, phase: Phase, since: int, failures: int)
    requires StepOk(pool, p) && Legal(p) && AreTwins(pool, n, padded, index) && phase != Draining
    requires p.input == TwinInput(pool, n, padded, p.input.now) && TwinStep(p.before.rows, n, padded, p.input.now, phase, since, failures)
    ensures TwinRows(p.rows, n, padded, phase, since, failures) && Started(p) == {}
    ensures TwinRows(p.after.rows, n, padded, phase, since, failures)
  {
    TwinDiscovery(pool, p.before.rows, n, padded, index, p.input.now, phase, since, failures);
    TwinPass(pool, p, n, padded, phase, since, failures);
    TwinsWritten(pool, p, n, padded, phase, since, failures);
  }

  /** The run goes on with one more pass over the twins. */
  lemma NextTwinPass(pool: string, run: seq<Pass>, n: string, padded: string, index: int, now: int,
                     phase: Phase, since: int, failures: int) returns (p: Pass)
    requires Run(pool, run) && AreTwins(pool, n, padded, index) && phase != Draining
    requires run != [] ==> run[|run| - 1].input.now <= now
    requires TwinStep(LastStatus(run).rows, n, padded, now, phase, since, failures)
    ensures Run(pool, run + [p]) && p.input == TwinInput(pool, n, padded, now)
    ensures TwinRows(p.after.rows, n, padded, phase, since, failures)
    ensures TwinRows(p.rows, n, padded, phase, since, failures) && Started(p) == {}
  {
    TwinCells(pool, n, padded, index);
    p := Extended(pool, run, TwinInput(pool, n, padded, now));
    LegalAt(run + [p], |run|);
    TwinAfter(pool, p, n, padded, index, phase, since, failures);
  }

  lemma TwinsFail(pool: string, n: string, padded: string, index: int) returns (run: seq<Pass>)
    requires AreTwins(pool, n, padded, index)
    ensures Run(pool, run) && |run| == 2 && run[1].input.now == 11 && TwinRows(run[1].after.rows, n, padded, Failed, 11, 1)
  {
    var p := TwinsWait(pool, n, padded, index);
    assert TwinStep(p.after.rows, n, padded, 11, Failed, 11, 1);
    var q := NextTwinPass(pool, [p], n, padded, index, 11, Failed, 11, 1);
    run := [p] + [q];
  }

  lemma TwinsWait(pool: string, n: string, padded: string, index: int) returns (p: Pass)
    requires AreTwins(pool, n, padded, index)
    ensures Run(pool, [p]) && p.input.now == 0 && TwinRows(p.after.rows, n, padded, Joining, 0, 0)
  {
    assert TwinStep(map[], n, padded, 0, Joining, 0, 0);
    p := NextTwinPass(pool, [], n, padded, index, 0, Joining, 0, 0);
    assert [] + [p] == [p];
  }

  /** Deletion goes by index: a row under a padded name fails, for its Node never comes, and replacing it
      deletes the guest of its neighbour, whose row is Ready in the same status. */
  lemma PaddedRowDeletesNeighbour(pool: string, index: nat) returns (run: seq<Pass>, padded: string)
    requires index <= MAX_INT32
    ensures Run(pool, run) && |run| == 3
    ensures var p, n := run[2], Name(pool, index);
            && padded in p.replaced && n !in p.replaced && n !in p.removed && n in DeletedGuests(p)
            && n in p.after.rows && p.after.rows[n].phase == Ready
  {
    var n := Name(pool, index);
    padded := pool + "-" + ("0" + Digits(index));
    OrdinaryName(pool, pool, index);
    PaddedNamesCollide(pool, index);
    var before := TwinsFail(pool, n, padded, index);
    var p := NextTwinPass(pool, before, n, padded, index, 41, Failed, 11, 1);
    run := before + [p];
    LastTwinPass(pool, run, n, padded, index);
  }

  lemma LastTwinPass(pool: string, run: seq<Pass>, n: string, padded: string, index: int)
    requires Run(pool, run) && |run| == 3 && AreTwins(pool, n, padded, index) && Started(run[2]) == {}
    requires run[2].input == TwinInput(pool, n, padded, 41) && TwinRows(run[2].rows, n, padded, Failed, 11, 1)
    ensures var p := run[2]; padded in p.replaced && n !in p.replaced && n !in p.removed && n in DeletedGuests(p)
  {
    StepAt(pool, run, 2);
    LegalAt(run, 2);
    NeighbourGoes(pool, run[2], n, padded, index);
  }

  lemma NeighbourGoes(pool: string, p: Pass, n: string, padded: string, index: int)
    requires StepOk(pool, p) && Marks(p) && Finishes(p) && AreTwins(pool, n, padded, index) && Started(p) == {}
    requires p.input == TwinInput(pool, n, padded, 41) && TwinRows(p.rows, n, padded, Failed, 11, 1)
    ensures padded in p.replaced && n !in p.replaced && n !in p.removed && n in DeletedGuests(p)
  {
    assert BackoffAfter(1) == 30;
    assert NameSet(p.plan.drain) <= Started(p) && AsSet(p.rollout.drain) <= Started(p);
    UnmarkedRows(p.rows, NameSet(p.plan.drain), p.input.now);
    Replaceable(p.marked, p.input, padded);
    assert RowOk(p.input.spec, padded, p.rows[padded]);
    UnmarkedRows(p.marked, AsSet(p.rollout.drain), p.input.now);
  }

  lemma UnmarkedRows(rows: map<string, Row>, names: set<string>, now: int)
    requires names == {}
    ensures MarkDraining(rows, names, now) == rows
  {
  }

  // ----- an outage disarms the credential guard

  /** Two guests that are up and never register. */
  function Pair(a: string, b: string): Reads {
    Reads([a, b], map[a := GuestReading(Up(a, "u0"), NO_NODE, None, None), b := GuestReading(Up(b, "u1"), NO_NODE, None, None)], None)
  }

  function PairInput(pool: string, now: int, reachable: bool): PassInput {
    var d := Pair(Name(pool, 0), Name(pool, 1));
    InputOf(SpecOf(pool, 3), now, reachable, d, d)
  }

  lemma PairCells(pool: string)
    ensures var a, b := Name(pool, 0), Name(pool, 1);
            && ParseIndex(pool, a) == Some(0) && ParseIndex(pool, b) == Some(1) && a != b
            && Cells(SpecOf(pool, 3), Pair(a, b)) == {a, b} && ReadsOk(SpecOf(pool, 3), Pair(a, b))
  {
    OrdinaryName(pool, pool, 0);
    OrdinaryName(pool, pool, 1);
  }

  predicate NeverUp(r: Row, index: int, uid: string, phase: Phase, since: int, failures: int, reason: Reason) {
    && r.index == index && r.uid == uid && r.phase == phase && r.since == Some(since) && r.failureCount == failures
    && r.reason == reason && !r.readyOnce
  }

  predicate PairRows(rows: map<string, Row>, a: string, b: string, phase: Phase, since: int, failures: int, reason: Reason) {
    && rows.Keys == {a, b}
    && NeverUp(rows[a], 0, "u0", phase, since, failures, reason) && NeverUp(rows[b], 1, "u1", phase, since, failures, reason)
  }

  /** One guest that never registers: waiting from time zero, failed at time eleven, its reason lost to
      an outage and not found again. */
  predicate NeverUpStep(was: Option<(Phase, int, int, Reason)>, reachable: bool, now: int, phase: Phase, since: int, failures: int, reason: Reason) {
    || (was.None? && reachable && now == since == 0 && phase == Joining && failures == 0 && reason == NodeNeverRegistered)
    || (was == Some((Joining, 0, 0, NodeNeverRegistered)) && reachable && now == since == 11 && phase == Failed && failures == 1
        && reason == NodeNeverRegistered)
    || (was == Some((Failed, 11, 1, NodeNeverRegistered)) && !reachable && phase == Failed && since == 11 && failures == 1
        && reason == Unreachable)
    || (was == Some((Failed, 11, 1, Unreachable)) && reachable && phase == Failed && since == 11 && failures == 1
        && reason == Unreachable)
  }

  lemma NeverUpSeen(pool: string, rows: map<string, Row>, n: string, index: int, uid: string, was: Option<(Phase, int, int, Reason)>,
                    reachable: bool, now: int, phase: Phase, since: int, failures: int, reason: Reason)
    requires NeverUpStep(was, reachable, now, phase, since, failures, reason) && uid != ""
    requires was.None? ==> n !in rows
    requires was.Some? ==> n in rows && NeverUp(rows[n], index, uid, was.value.0, was.value.1, was.value.2, was.value.3)
    ensures NeverUp(SeenRow(SpecOf(pool, 3), rows, n, index, GuestReading(Up(n, uid), NO_NODE, None, None), reachable, now),
                    index, uid, phase, since, failures, reason)
  {
  }

  /** The rows of the pair before a pass. */
  predicate PairWas(rows: map<string, Row>, a: string, b: string, was: Option<(Phase, int, int, Reason)>) {
    if was.None? then rows == map[] else PairRows(rows, a, b, was.value.0, was.value.1, was.value.2, was.value.3)
  }

  lemma PairSeen(pool: string, rows: map<string, Row>, was: Option<(Phase, int, int, Reason)>, reachable: bool, now: int,
                 phase: Phase, since: int, failures: int, reason: Reason)
    requires NeverUpStep(was, reachable, now, phase, since, failures, reason) && PairWas(rows, Name(pool, 0), Name(pool, 1), was)
    ensures var a, b := Name(pool, 0), Name(pool, 1);
            PairRows(RowsAfter(SpecOf(pool, 3), rows, Pair(a, b), reachable, now), a, b, phase, since, failures, reason)
  {
    var a, b := Name(pool, 0), Name(pool, 1);
    PairIsSeen(pool, rows, reachable, now);
    NeverUpSeen(pool, rows, a, 0, "u0", was, reachable, now, phase, since, failures, reason);
    NeverUpSeen(pool, rows, b, 1, "u1", was, reachable, now, phase, since, failures, reason);
  }

  lemma PairIsSeen(pool: string, rows: map<string, Row>, reachable: bool, now: int)
    requires rows == map[] || rows.Keys == {Name(pool, 0), Name(pool, 1)}
    ensures var a, b := Name(pool, 0), Name(pool, 1);
            var after := RowsAfter(SpecOf(pool, 3), rows, Pair(a, b), reachable, now);
            && after.Keys == {a, b}
            && after[a] == SeenRow(SpecOf(pool, 3), rows, a, 0, GuestReading(Up(a, "u0"), NO_NODE, None, None), reachable, now)
            && after[b] == SeenRow(SpecOf(pool, 3), rows, b, 1, GuestReading(Up(b, "u1"), NO_NODE, None, None), reachable, now)
  {
    PairCells(pool);
  }

  lemma PairDrainsNothing(pool: string, p: Pass, phase: Phase, since: int, failures: int, reason: Reason)
    requires Discovers(p) && Scales(p) && Plans(p) && RollsOut(p) && p.input.spec == SpecOf(pool, 3)
    requires PairRows(p.seen, Name(pool, 0), Name(pool, 1), phase, since, failures, reason)
    ensures Started(p) == {}
  {
    AtMostTwo(p.seen, Name(pool, 0), Name(pool, 1));
    FixedSizeDrainsNothing(p);
  }

  lemma PairAfter(pool: string, p: Pass, was: Option<(Phase, int, int, Reason)>, phase: Phase, since: int, failures: int, reason: Reason)
    requires StepOk(pool, p) && Legal(p) && phase != Draining
    requires p.input == PairInput(pool, p.input.now, p.input.reachable)
    requires PairWas(p.before.rows, Name(pool, 0), Name(pool, 1), was)
    requires NeverUpStep(was, p.input.reachable, p.input.now, phase, since, failures, reason)
    ensures PairRows(p.seen, Name(pool, 0), Name(pool, 1), phase, since, failures, reason)
    ensures PairRows(p.after.rows, Name(pool, 0), Name(pool, 1), phase, since, failures, reason)
  {
    PairSeen(pool, p.before.rows, was, p.input.reachable, p.input.now, phase, since, failures, reason);
    PairDrainsNothing(pool, p, phase, since, failures, reason);
    PairWritten(pool, p, phase, since, failures, reason);
  }

  lemma PairWritten(pool: string, p: Pass, phase: Phase, since: int, failures: int, reason: Reason)
    requires StepOk(pool, p) && Started(p) == {} && phase != Draining
    requires PairRows(p.rows, Name(pool, 0), Name(pool, 1), phase, since, failures, reason)
    ensures PairRows(p.after.rows, Name(pool, 0), Name(pool, 1), phase, since, failures, reason)
  {
    var a, b := Name(pool, 0), Name(pool, 1);
    assert p.after.rows[a] == p.rows[a] && p.after.rows[b] == p.rows[b];
  }

  /** Two failed cells that never registered bar a third; two that failed for a reason an outage wrote
      do not. */
  lemma PairPlan(m: MembershipInput, ra: Row, rb: Row, reason: Reason)
    requires m.cells == [ra, rb] && m.desired == 3 && m.reachable && m.providerUsable && m.freeGPUs.None? && m.maxCreating == 0
    requires NeverUp(ra, 0, "u0", Failed, 11, 1, reason) && NeverUp(rb, 1, "u1", Failed, 11, 1, reason)
    ensures reason == NodeNeverRegistered ==> Plan(m).create == []
    ensures reason == Unreachable ==> Plan(m).create == [2]
  {
    CountTwo(ra, rb, CountsLive);
    CountTwo(ra, rb, CountsInFlight);
    CountTwo(ra, rb, Suspect);
    assert [ra, rb][..1] == [ra] && [ra][..0] == [];
    assert TotalFailures(m.cells) == TotalFailures([ra]) + 1 == 2;
    assert UsedIndexes(m.cells) == {0, 1} by {
      assert ra in m.cells && rb in m.cells;
    }
    CreationIsExact(m);
    if reason == Unreachable {
      assert !CreationBarred(m) && CreationBudget(m) == 1;
      NextFree(UsedIndexes(m.cells), Plan(m).create);
    }
  }

  lemma NextFree(used: set<int>, create: seq<int>)
    requires used == {0, 1} && |create| == 1 && SmallestFree(used, create)
    ensures create == [2]
  {
    assert create[..0] == [];
    assert create[0] !in used && 2 !in used;
  }

  lemma CountTwo(a: Row, b: Row, f: Row -> bool)
    ensures CountIf([a, b], f) == (if f(a) then 1 else 0) + (if f(b) then 1 else 0)
  {
    assert [a, b][..1] == [a];
    CountOne(a, f);
  }

  lemma PairPlanned(pool: string, p: Pass, reason: Reason)
    requires Discovers(p) && Scales(p) && Plans(p) && p.input == PairInput(pool, p.input.now, true)
    requires PairRows(p.seen, Name(pool, 0), Name(pool, 1), Failed, 11, 1, reason)
    ensures reason == NodeNeverRegistered ==> p.plan.create == []
    ensures reason == Unreachable ==> p.plan.create == [2]
  {
    var a, b := Name(pool, 0), Name(pool, 1);
    PairCells(pool);
    TwoListed(p.cells, p.seen, a, b);
    PairPlan(MembershipFor(p.before, p.input, p.cells, p.scale), p.seen[a], p.seen[b], reason);
  }

  lemma NextPairPass(pool: string, run: seq<Pass>, now: int, reachable: bool, was: Option<(Phase, int, int, Reason)>,
                     phase: Phase, since: int, failures: int, reason: Reason) returns (p: Pass)
    requires Run(pool, run) && phase != Draining && (run != [] ==> run[|run| - 1].input.now <= now)
    requires PairWas(LastStatus(run).rows, Name(pool, 0), Name(pool, 1), was)
    requires NeverUpStep(was, reachable, now, phase, since, failures, reason)
    ensures Run(pool, run + [p]) && p.input == PairInput(pool, now, reachable)
    ensures PairRows(p.after.rows, Name(pool, 0), Name(pool, 1), phase, since, failures, reason)
    ensures phase == Failed && reachable && reason == NodeNeverRegistered ==> p.plan.create == []
    ensures phase == Failed && reachable && reason == Unreachable ==> p.plan.create == [2]
  {
    PairCells(pool);
    p := Extended(pool, run, PairInput(pool, now, reachable));
    LegalAt(run + [p], |run|);
    PairOutcome(pool, p, was, phase, since, failures, reason);
  }

  lemma PairOutcome(pool: string, p: Pass, was: Option<(Phase, int, int, Reason)>, phase: Phase, since: int, failures: int, reason: Reason)
    requires StepOk(pool, p) && Legal(p) && phase != Draining
    requires p.input == PairInput(pool, p.input.now, p.input.reachable)
    requires PairWas(p.before.rows, Name(pool, 0), Name(pool, 1), was)
    requires NeverUpStep(was, p.input.reachable, p.input.now, phase, since, failures, reason)
    ensures PairRows(p.after.rows, Name(pool, 0), Name(pool, 1), phase, since, failures, reason)
    ensures phase == Failed && p.input.reachable && reason == NodeNeverRegistered ==> p.plan.create == []
    ensures phase == Failed && p.input.reachable && reason == Unreachable ==> p.plan.create == [2]
  {
    PairAfter(pool, p, was, phase, since, failures, reason);
    if phase == Failed && p.input.reachable {
      PairPlanned(pool, p, reason);
    }
  }

  lemma PairWaits(pool: string) returns (p: Pass)
    ensures Run(pool, [p]) && p.input.now == 0
    ensures PairRows(p.after.rows, Name(pool, 0), Name(pool, 1), Joining, 0, 0, NodeNeverRegistered)
  {
    p := NextPairPass(pool, [], 0, true, None, Joining, 0, 0, NodeNeverRegistered);
    assert [] + [p] == [p];
  }

  /** Two cells fail to register, and the suspect credential bars the third. */
  lemma PairFails(pool: string) returns (run: seq<Pass>)
    ensures Run(pool, run) && |run| == 2 && run[1].input.now == 11 && run[1].plan.create == []
    ensures PairRows(run[1].after.rows, Name(pool, 0), Name(pool, 1), Failed, 11, 1, NodeNeverRegistered)
  {
    var p := PairWaits(pool);
    var q := NextPairPass(pool, [p], 11, true, Some((Joining, 0, 0, NodeNeverRegistered)), Failed, 11, 1, NodeNeverRegistered);
    run := [p] + [q];
  }

  /** One pass of outage later nothing bars it: the next pass creates another cell with the credential
      that has just failed twice. */
  lemma GuardDisarmedByOutage(pool: string) returns (run: seq<Pass>)
    ensures Run(pool, run) && |run| == 4
    ensures run[1].plan.create == [] && |Suspects(run[1].after.rows)| == 2
    ensures !run[2].input.reachable && Suspects(run[2].after.rows) == {}
    ensures run[3].plan.create == [2]
  {
    var before := PairFails(pool);
    var p := NextPairPass(pool, before, 12, false, Some((Failed, 11, 1, NodeNeverRegistered)), Failed, 11, 1, Unreachable);
    var q := NextPairPass(pool, before + [p], 13, true, Some((Failed, 11, 1, Unreachable)), Failed, 11, 1, Unreachable);
    run := before + [p] + [q];
    PairSuspects(pool, before[1].after.rows, NodeNeverRegistered);
    PairSuspects(pool, p.after.rows, Unreachable);
  }

  lemma PairSuspects(pool: string, rows: map<string, Row>, reason: Reason)
    requires PairRows(rows, Name(pool, 0), Name(pool, 1), Failed, 11, 1, reason)
    ensures reason == NodeNeverRegistered ==> |Suspects(rows)| == 2
    ensures reason == Unreachable ==> Suspects(rows) == {}
  {
    PairCells(pool);
    if reason == NodeNeverRegistered {
      assert Suspects(rows) == {Name(pool, 0), Name(pool, 1)};
    }
  }
}
