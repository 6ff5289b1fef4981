/** What a pass of any run does, told from what it reads and from the rows it finds: when it creates, when
    it replaces a failed cell, and when it starts a rollout drain. */
module ExactPasses {
  import opened CellTypes
  import opened CellId
  import opened Fsm
  import opened Membership
  import opened MembershipProofs
  import opened Rollout
  import opened Discovery
  import opened Passes
  import opened Runs
  import opened RunTheorems
  import opened PlanByPhase

  // ----- creation

  /** Some cell has been Ready: one is now, the published condition says so, or one was after the pass
      before. */
  ghost predicate EverUp(run: seq<Pass>, k: nat)
    requires k < |run|
  {
    || HasReady(run[k].seen)
    || run[k].input.readyCondition
    || (k > 0 && HasReady(run[k - 1].after.rows))
  }

  predicate HasReady(rows: map<string, Row>) {
    exists n :: n in rows && rows[n].phase == Ready
  }

  /** What the planner is told: no limit of its own on cells in creation, and a provider that is usable
      only while the workload cluster answers. */
  ghost function Told(run: seq<Pass>, k: nat): MembershipInput
    requires k < |run|
  {
    var inp := run[k].input;
    MembershipInput(run[k].scale.desired, run[k].cells, inp.now, inp.freeGPUs, 0, inp.reachable, EverUp(run, k),
                    inp.reachable && inp.providerReady, run[k].scale.drainCandidates)
  }

  lemma ReadyListed(cells: seq<Row>, rows: map<string, Row>)
    requires Lists(cells, rows)
    ensures (exists c :: c in cells && c.phase == Ready) <==> HasReady(rows)
  {
    if c :| c in cells && c.phase == Ready {
      assert rows[c.name].phase == Ready;
    }
  }

  lemma AnyReadyBefore(pool: string, run: seq<Pass>, k: nat)
    requires Run(pool, run) && k < |run|
    ensures run[k].before.anyReady <==> k > 0 && HasReady(run[k - 1].after.rows)
  {
    if k > 0 {
      LegalAt(run, k - 1);
    }
  }

  lemma PlanIsTold(pool: string, run: seq<Pass>, k: nat)
    requires Run(pool, run) && k < |run|
    ensures run[k].plan == Plan(Told(run, k)) && Lists(run[k].cells, run[k].seen)
  {
    LegalAt(run, k);
    ReadyListed(run[k].cells, run[k].seen);
    AnyReadyBefore(pool, run, k);
  }

  /** Creation over runs, exactly: a pass creates cells if and only if the workload cluster answers, the
      pool is below its target, fewer than two cells are on their way up, free GPUs are unknown or there
      are some, a cell has been Ready or fewer than three have failed, fewer than two failed without
      registering, and no failed row is past help; then it creates as many as fit, at the first free
      indexes. */
  lemma PassCreatesExactly(pool: string, run: seq<Pass>, k: nat)
    requires Run(pool, run) && k < |run|
    ensures run[k].plan.create != [] <==> MayCreate(Told(run, k))
    ensures run[k].plan.create != [] ==> Fits(Told(run, k), |run[k].plan.create|) && !Fits(Told(run, k), |run[k].plan.create| + 1)
    ensures FirstFree(PlanByPhase.Taken(run[k].cells), run[k].plan.create)
  {
    PlanIsTold(pool, run, k);
    CreationByPhase(Told(run, k));
  }

  /** Scale-down over runs: a pass drains for size if and only if the workload cluster answers and the
      pool is above its target with a cell that may leave. */
  lemma PassDrainsExactly(pool: string, run: seq<Pass>, k: nat)
    requires Run(pool, run) && k < |run|
    ensures var p := run[k];
            && (p.plan.drain != [] <==> p.input.reachable && p.scale.desired < |Standing(p.cells)| && Leavers(p.cells) != {})
            && Victims(p.cells, p.scale.drainCandidates, p.plan.drain)
  {
    PlanIsTold(pool, run, k);
    DrainByPhase(Told(run, k));
  }

  // ----- replacement

  /** Pass `i` is the last up to pass `k` that listed the cell; since then its row is a tombstone. */
  predicate LastListed(run: seq<Pass>, i: nat, k: nat, n: string) {
    && i <= k < |run|
    && n in Cells(run[i].input.spec, Kept(run[i])) && n in run[i].after.rows
    && (forall j :: i < j <= k ==> n !in Cells(run[j].input.spec, Kept(run[j])) && n in run[j].after.rows)
  }

  /** The pass read the cell's Node as Ready. */
  predicate ReadNodeReady(p: Pass, n: string)
    requires n in Cells(p.input.spec, Kept(p))
  {
    p.input.reachable && Kept(p).seen[n].node.ready
  }

  /** The devices the pass read on the cell's Node; none where there was no Ready Node to ask about, or no
      answer. */
  function DevicesRead(p: Pass, n: string): int
    requires n in Cells(p.input.spec, Kept(p))
  {
    var g := Kept(p).seen[n];
    if p.input.reachable && g.node.present && g.node.ready && g.devices.Some? then g.devices.value else 0
  }

  /** What the row says of the Node is what the last pass that listed the cell read; of the devices only
      what this pass read. */
  ghost predicate TellsReading(run: seq<Pass>, k: nat, n: string)
    requires k < |run| && n in run[k].after.rows
  {
    var r, p := run[k].after.rows[n], run[k];
    && (exists i: nat :: LastListed(run, i, k, n) && (r.nodeReady <==> ReadNodeReady(run[i], n)))
    && r.capacityDevices == if n in Cells(p.input.spec, Kept(p)) then DevicesRead(p, n) else 0
  }

  /** One pass: a listed cell's row tells this pass's reading, a tombstone the row's before. */
  predicate TellsOrKeeps(p: Pass, n: string)
    requires n in p.after.rows
  {
    var r := p.after.rows[n];
    if n in Cells(p.input.spec, Kept(p)) then
      (r.nodeReady <==> ReadNodeReady(p, n)) && r.capacityDevices == DevicesRead(p, n)
    else n in p.before.rows && r.nodeReady == p.before.rows[n].nodeReady && r.capacityDevices == 0
  }

  lemma RowTellsOrKeeps(pool: string, p: Pass, n: string)
    requires StepOk(pool, p) && n in p.after.rows
    ensures TellsOrKeeps(p, n)
  {
    DiscoveredTells(p.input.spec, p.before.rows, Kept(p), p.input.reachable, p.input.now, n);
    assert p.after.rows[n].nodeReady == p.rows[n].nodeReady && p.after.rows[n].capacityDevices == p.rows[n].capacityDevices;
  }

  lemma DiscoveredTells(spec: Spec, rows: map<string, Row>, d: Reads, reachable: bool, now: int, n: string)
    requires n in RowsAfter(spec, rows, d, reachable, now)
    ensures var r := RowsAfter(spec, rows, d, reachable, now)[n];
            if n in Cells(spec, d) then
              && (r.nodeReady <==> reachable && d.seen[n].node.ready)
              && r.capacityDevices == (if reachable && d.seen[n].node.present && d.seen[n].node.ready && d.seen[n].devices.Some?
                                       then d.seen[n].devices.value else 0)
            else n in rows && r.nodeReady == rows[n].nodeReady && r.capacityDevices == 0
  {
  }

  lemma {:induction false} ReadingHistory(run: seq<Pass>, k: nat, n: string)
    requires Linked(run) && k < |run| && n in run[k].after.rows
    requires forall i, m :: 0 <= i < |run| && m in run[i].after.rows ==> TellsOrKeeps(run[i], m)
    ensures TellsReading(run, k, n)
    decreases k
  {
    assert TellsOrKeeps(run[k], n);
    if n in Cells(run[k].input.spec, Kept(run[k])) {
      assert LastListed(run, k, k, n);
    } else {
      assert k > 0 && run[k].before.rows == run[k - 1].after.rows;
      ReadingHistory(run, k - 1, n);
      ReadingCarried(run, k, n);
    }
  }

  lemma ReadingCarried(run: seq<Pass>, k: nat, n: string)
    requires 0 < k < |run| && n in run[k - 1].after.rows && TellsReading(run, k - 1, n)
    requires n in run[k].after.rows && n !in Cells(run[k].input.spec, Kept(run[k]))
    requires run[k].after.rows[n].nodeReady == run[k - 1].after.rows[n].nodeReady && run[k].after.rows[n].capacityDevices == 0
    ensures TellsReading(run, k, n)
  {
    var i: nat :| LastListed(run, i, k - 1, n) && (run[k - 1].after.rows[n].nodeReady <==> ReadNodeReady(run[i], n));
    assert LastListed(run, i, k, n);
  }

  /** Over all runs a row's Node flag is what the last pass that listed the cell read, and its device
      count what this pass read of a listed cell, and nothing for a tombstone. */
  lemma RowsTellReadings(pool: string, run: seq<Pass>, k: nat, n: string)
    requires Run(pool, run) && k < |run| && n in run[k].after.rows
    ensures TellsReading(run, k, n)
  {
    RunHasSteps(pool, run);
    forall i, m | 0 <= i < |run| && m in run[i].after.rows ensures TellsOrKeeps(run[i], m) {
      RowTellsOrKeeps(pool, run[i], m);
    }
    ReadingHistory(run, k, n);
  }

  /** The fault is in the workload cluster: the provider is not usable, the last pass that listed the cell
      read its Node as Ready, and this pass reads no device of it. */
  ghost predicate FaultElsewhere(run: seq<Pass>, k: nat, n: string)
    requires k < |run|
  {
    var p := run[k];
    && !(p.input.reachable && p.input.providerReady)
    && (exists i: nat :: LastListed(run, i, k, n) && ReadNodeReady(run[i], n))
    && (n in Cells(p.input.spec, Kept(p)) ==> DevicesRead(p, n) == 0)
  }

  /** Replacement over runs, exactly: a pass replaces a row if and only if it is Failed, has failed fewer
      than five times, failed 30, 60, 120 or 240 seconds ago by its count, and the fault is not in the
      workload cluster, as the passes read it. */
  lemma PassReplacesExactly(pool: string, run: seq<Pass>, k: nat, n: string)
    requires Run(pool, run) && k < |run| && n in run[k].after.rows
    ensures var r := run[k].after.rows[n];
            n in run[k].replaced <==>
            && r.phase == Failed && r.since.Some? && Waited(r.failureCount, run[k].input.now - r.since.value)
            && !FaultElsewhere(run, k, n)
  {
    RowsTellReadings(pool, run, k, n);
    OneLastListed(run, k, n);
    ReplacedExactly(pool, run, k, n);
    BackoffTable(run[k].after.rows[n].failureCount);
  }

  lemma OneLastListed(run: seq<Pass>, k: nat, n: string)
    ensures forall i: nat, j: nat :: LastListed(run, i, k, n) && LastListed(run, j, k, n) ==> i == j
  {
  }

  lemma ReplacedExactly(pool: string, run: seq<Pass>, k: nat, n: string)
    requires Run(pool, run) && k < |run| && n in run[k].after.rows
    ensures var p, r := run[k], run[k].after.rows[n];
            && r.since.Some? && (r.phase == Failed ==> r.failureCount >= 1)
            && (n in p.replaced <==>
                && r.phase == Failed && r.failureCount < 5 && p.input.now - r.since.value >= BackoffAfter(r.failureCount)
                && !(!(p.input.reachable && p.input.providerReady) && r.nodeReady && r.capacityDevices == 0))
  {
    StepAt(pool, run, k);
    LegalAt(run, k);
    var p := run[k];
    assert RowOk(p.input.spec, n, p.after.rows[n]);
    if n in p.replaced {
      ReplacedAt(pool, run, k, n);
    } else {
      NotReplaced(p, n);
    }
  }

  lemma NotReplaced(p: Pass, n: string)
    requires Marks(p) && Written(p) && n in p.after.rows && n !in p.replaced
    ensures !ShouldReplace(p.after.rows[n], p.input.now, Usable(p.input))
  {
  }

  /** A pool-wide fault bars every creation: a failed cell with a Ready Node and no device as this pass
      reads them, or a tombstone whose Node was Ready when it was last listed, while the provider is not
      usable. */
  lemma FaultBarsCreation(pool: string, run: seq<Pass>, k: nat, n: string)
    requires Run(pool, run) && k < |run| && n in run[k].seen && run[k].seen[n].phase == Failed && !run[k].input.providerReady
    requires var p, d := run[k], run[k].input.first;
             if n in Cells(p.input.spec, d) then
               d.seen[n].node.ready && (d.seen[n].node.present && d.seen[n].devices.Some? ==> d.seen[n].devices.value == 0)
             else n in p.before.rows && p.before.rows[n].nodeReady
    ensures run[k].plan.create == []
  {
    PlanIsTold(pool, run, k);
    LegalAt(run, k);
    CreationByPhase(Told(run, k));
    if run[k].input.reachable {
      DiscoveredTells(run[k].input.spec, run[k].before.rows, run[k].input.first, true, run[k].input.now, n);
      SomePastHelp(run[k], n);
    }
  }

  lemma SomePastHelp(p: Pass, n: string)
    requires Lists(p.cells, p.seen) && n in p.seen && PastHelp(p.seen[n], false)
    ensures exists i :: 0 <= i < |p.cells| && PastHelp(p.cells[i], false)
  {
    assert p.seen[n] in p.cells;
    var i :| 0 <= i < |p.cells| && p.cells[i] == p.seen[n];
  }

  // ----- rolling update

  /** A Ready row of another template whose allocations were read as none. */
  predicate ReadyToRoll(p: Pass, n: string) {
    && n in p.rows && p.rows[n].phase == Ready
    && p.rows[n].hash != "" && p.rows[n].hash != p.input.spec.templateHash
    && n in p.input.allocations && p.input.allocations[n].consumers == 0 && !p.input.allocations[n].inFlight
  }

  /** Nothing else is going on: every row is Ready or Failed, and those with a guest are as many as the
      target. */
  predicate Settled(p: Pass) {
    && p.plan.create == [] && p.plan.drain == []
    && (forall n :: n in p.rows ==> p.rows[n].phase == Ready || p.rows[n].phase == Failed)
    && |set n | n in p.rows && !(p.rows[n].phase == Failed && p.rows[n].uid == "")| == p.scale.desired
  }

  /** A rollout over runs, exactly: a pass starts a rollout drain if and only if the pool rolls updates
      out, the workload cluster answers, nothing else is going on, and a Ready cell of another template
      was read as empty; it drains such a cell, the one with the lowest index. */
  lemma PassRollsOutExactly(pool: string, run: seq<Pass>, k: nat)
    requires Run(pool, run) && k < |run|
    ensures var p := run[k];
            && (p.rollout.drain.Some? <==>
                p.input.spec.rolling && p.input.reachable && Settled(p) && exists n :: ReadyToRoll(p, n))
            && (p.rollout.drain.Some? ==>
                  && ReadyToRoll(p, p.rollout.drain.value)
                  && forall n :: ReadyToRoll(p, n) ==> p.rows[p.rollout.drain.value].index <= p.rows[n].index)
  {
    StepAt(pool, run, k);
    LegalAt(run, k);
    if run[k].rollout.drain.Some? {
      RolledOut(pool, run[k]);
    } else if run[k].input.spec.rolling && run[k].input.reachable && Settled(run[k]) && exists n :: ReadyToRoll(run[k], n) {
      var n :| ReadyToRoll(run[k], n);
      MustRollOut(pool, run[k], n);
    }
  }

  /** A Ready cell's row names its Node after the cell while the workload cluster answers. */
  lemma NodeIsNamed(pool: string, p: Pass, n: string)
    requires StepOk(pool, p) && p.input.reachable && n in p.rows && p.rows[n].phase == Ready
    ensures p.rows[n].nodeName == n
  {
    NamedInDiscovery(p.input.spec, p.before.rows, Kept(p), p.input.now, n);
  }

  lemma NamedInDiscovery(spec: Spec, rows: map<string, Row>, d: Reads, now: int, n: string)
    requires n in RowsAfter(spec, rows, d, true, now) && RowsAfter(spec, rows, d, true, now)[n].phase == Ready
    ensures RowsAfter(spec, rows, d, true, now)[n].nodeName == n
  {
    if n in Cells(spec, d) {
      NamedWhenReady(spec, rows, n, ParseIndex(spec.pool, n).value, d.seen[n], now);
    }
  }

  lemma NamedWhenReady(spec: Spec, rows: map<string, Row>, n: string, index: int, g: GuestReading, now: int)
    requires SeenRow(spec, rows, n, index, g, true, now).phase == Ready
    ensures SeenRow(spec, rows, n, index, g, true, now).nodeName == n
  {
    ReadyExactly(Observe(spec, Inherit(Previous(rows, n), g.outer.uid), g, true, now));
  }

  lemma LiveSettled(cells: seq<Row>, rows: map<string, Row>)
    requires Lists(cells, rows) && forall n :: n in rows ==> rows[n].phase == Ready || rows[n].phase == Failed
    ensures LiveCount(cells) == |set n | n in rows && !(rows[n].phase == Failed && rows[n].uid == "")|
  {
    ListedCount(cells, rows, CountsLive);
    assert RowsWith(rows, CountsLive) == set n | n in rows && !(rows[n].phase == Failed && rows[n].uid == "");
  }

  lemma NoUnset(pool: string, p: Pass, n: string)
    requires StepOk(pool, p) && n in p.rows
    ensures p.rows[n].phase != Unset
  {
    assert RowOk(p.input.spec, n, p.rows[n]);
  }

  lemma IdleExactly(pool: string, p: Pass, n: string)
    requires StepOk(pool, p) && Discovers(p) && p.rows == p.seen && p.input.reachable && p.input.spec.rolling
    requires n in p.rows && Stale(p.rows[n], p.input.spec.templateHash)
    ensures n in p.idle <==> ReadyToRoll(p, n)
  {
    IdleListed(p.cells, p.seen, p.input.allocations, n);
    if p.rows[n].phase == Ready {
      NodeIsNamed(pool, p, n);
    }
  }

  lemma IdleListed(cells: seq<Row>, rows: map<string, Row>, allocations: map<string, Allocations>, n: string)
    requires Lists(cells, rows) && n in rows
    ensures n in IdleNames(cells, allocations) <==> IsIdle(rows[n], allocations)
  {
    IdleNamesExact(cells, allocations);
    assert rows[n] in cells && rows[n].name == n;
  }

  lemma RolledOut(pool: string, p: Pass)
    requires StepOk(pool, p) && Legal(p) && p.rollout.drain.Some?
    ensures p.input.spec.rolling && p.input.reachable && Settled(p) && ReadyToRoll(p, p.rollout.drain.value)
    ensures forall n :: ReadyToRoll(p, n) ==> p.rows[p.rollout.drain.value].index <= p.rows[n].index
  {
    RolloutShape(p);
    RolledSettled(pool, p);
    RolledIsIdle(pool, p, p.rollout.drain.value);
    RolledLowest(pool, p);
  }

  lemma RolledSettled(pool: string, p: Pass)
    requires StepOk(pool, p) && Marks(p) && RollsOut(p) && p.rollout.drain.Some? && p.marked == p.rows
    requires p.plan.create == [] && p.plan.drain == [] && forall n :: n in p.rows ==> p.rows[n].phase in {Ready, Failed, Unset}
    ensures Settled(p)
  {
    forall n | n in p.rows ensures p.rows[n].phase == Ready || p.rows[n].phase == Failed {
      NoUnset(pool, p, n);
    }
    LiveSettled(p.markedCells, p.rows);
    RolloutStartsExactlyWhen(RolloutFor(p.input, p.markedCells, p.idle, p.scale, p.plan));
  }

  lemma RolledIsIdle(pool: string, p: Pass, n: string)
    requires StepOk(pool, p) && p.input.reachable && n in p.rows && p.rows[n].phase == Ready
    requires Stale(p.rows[n], p.input.spec.templateHash) && IsIdle(p.rows[n], p.input.allocations)
    ensures ReadyToRoll(p, n)
  {
    NodeIsNamed(pool, p, n);
  }

  lemma RolledLowest(pool: string, p: Pass)
    requires StepOk(pool, p) && Discovers(p) && Marks(p) && RollsOut(p) && p.rollout.drain.Some?
    requires p.marked == p.rows == p.seen && p.input.reachable && p.input.spec.rolling
    ensures forall n :: ReadyToRoll(p, n) ==> p.rollout.drain.value in p.rows && p.rows[p.rollout.drain.value].index <= p.rows[n].index
  {
    var i := ChoosesFirst(p.markedCells, p.input.spec.templateHash, p.idle);
    var v := p.markedCells[i];
    assert v in p.markedCells && p.rows[v.name] == v;
    forall n | ReadyToRoll(p, n) ensures v.index <= p.rows[n].index {
      IdleExactly(pool, p, n);
      LaterInList(p.markedCells, p.rows, p.input.spec.templateHash, p.idle, i, n);
    }
  }

  lemma LaterInList(cells: seq<Row>, rows: map<string, Row>, template: string, idle: seq<string>, i: nat, n: string)
    requires Lists(cells, rows) && i < |cells| && n in rows && Stale(rows[n], template) && n in idle
    requires forall j :: 0 <= j < i ==> !(Stale(cells[j], template) && cells[j].name in idle)
    ensures cells[i].index <= rows[n].index
  {
    assert rows[n] in cells && rows[n].name == n;
    var j :| 0 <= j < |cells| && cells[j] == rows[n];
    assert j >= i;
  }

  lemma MustRollOut(pool: string, p: Pass, n: string)
    requires StepOk(pool, p) && Legal(p) && p.input.spec.rolling && p.input.reachable && Settled(p) && ReadyToRoll(p, n)
    ensures p.rollout.drain.Some?
  {
    EmptyNames();
    NoDrainNoMark(p.rows, p.input.now);
    LiveSettled(p.markedCells, p.rows);
    IdleExactly(pool, p, n);
    RollsOutIdle(p, n);
  }

  lemma RollsOutIdle(p: Pass, n: string)
    requires RollsOut(p) && Lists(p.markedCells, p.rows) && p.input.spec.rolling && p.input.reachable && p.plan.create == []
    requires LiveCount(p.markedCells) == p.scale.desired && forall m :: m in p.rows ==> p.rows[m].phase == Ready || p.rows[m].phase == Failed
    requires n in p.rows && n in p.idle && Stale(p.rows[n], p.input.spec.templateHash)
    ensures p.rollout.drain.Some?
  {
    assert p.rows[n] in p.markedCells && p.rows[n].name == n;
    RolloutStartsExactlyWhen(RolloutFor(p.input, p.markedCells, p.idle, p.scale, p.plan));
  }

  // ----- draining

  /** Removal over runs, exactly: a pass removes a row if and only if it is Draining, the workload cluster
      answers, and nothing was read to hold its Node; the row's reason says whether it still waits. */
  lemma PassRemovesExactly(pool: string, run: seq<Pass>, k: nat, n: string)
    requires Run(pool, run) && k < |run| && n in run[k].after.rows
    ensures var p, r := run[k], run[k].after.rows[n];
            && (n in p.removed <==> r.phase == Draining && p.input.reachable && ReadsNone(p.input.drainAllocations, n))
            && (r.phase == Draining ==> r.reason == if n in p.removed then CellDraining else WaitingForAllocations)
  {
    LegalAt(run, k);
    RemovesExactly(run[k], n);
  }

  lemma RemovesExactly(p: Pass, n: string)
    requires Finishes(p) && n in p.after.rows
    ensures var r := p.after.rows[n];
            && (n in p.removed <==> r.phase == Draining && p.input.reachable && ReadsNone(p.input.drainAllocations, n))
            && (r.phase == Draining ==> r.reason == if n in p.removed then CellDraining else WaitingForAllocations)
  {
    assert n in Drained(p);
  }

  // ----- Ready

  /** The row the pass goes on from is one on its way up: there is none, or it is of another guest, or it
      is neither Failed nor leaving. */
  predicate GoesOn(p: Pass, n: string) {
    n in p.before.rows && !NewGuest(p, n) ==> p.before.rows[n].phase !in {Draining, Deleting, Failed}
  }

  /** Ready over runs, exactly: a pass finds a listed cell Ready if and only if it read everything Ready
      promises of a cell on its way up, or could not reach the workload cluster and the row of the same
      guest was Ready. */
  lemma PassFindsReadyExactly(pool: string, run: seq<Pass>, k: nat, n: string)
    requires Run(pool, run) && k < |run| && n in Cells(run[k].input.spec, Kept(run[k]))
    ensures var p := run[k];
            && n in p.rows
            && (p.rows[n].phase == Ready <==>
                || (SeenUp(p, n) && GoesOn(p, n))
                || (!p.input.reachable && !Kept(p).seen[n].outer.failed
                    && n in p.before.rows && !NewGuest(p, n) && p.before.rows[n].phase == Ready))
  {
    StepAt(pool, run, k);
    FindsReady(pool, run[k], n);
  }

  lemma FindsReady(pool: string, p: Pass, n: string)
    requires StepOk(pool, p) && n in Cells(p.input.spec, Kept(p))
    ensures n in p.rows
    ensures p.rows[n].phase == Ready <==>
            || (SeenUp(p, n) && GoesOn(p, n))
            || (!p.input.reachable && !Kept(p).seen[n].outer.failed
                && n in p.before.rows && !NewGuest(p, n) && p.before.rows[n].phase == Ready)
  {
    UpAsSeen(pool, p, n);
    SeenIsReady(p.input.spec, p.before.rows, Kept(p), p.input.reachable, p.input.now, n);
    if n in p.before.rows {
      assert RowOk(p.input.spec, n, p.before.rows[n]);
    }
  }

  lemma SeenIsReady(spec: Spec, rows: map<string, Row>, d: Reads, reachable: bool, now: int, n: string)
    requires ReadsOk(spec, d) && n in Cells(spec, d)
    ensures var other := n in rows && rows[n].uid != "" && rows[n].uid != d.seen[n].outer.uid;
            && n in RowsAfter(spec, rows, d, reachable, now)
            && (RowsAfter(spec, rows, d, reachable, now)[n].phase == Ready <==>
                || (FullyUp(Observe(spec, BLANK_ROW, d.seen[n], reachable, now))
                    && (n in rows && !other ==> rows[n].phase !in {Draining, Deleting, Failed}))
                || (!reachable && !d.seen[n].outer.failed && n in rows && !other && rows[n].phase == Ready))
  {
    var g := d.seen[n];
    ReadyExactly(Observe(spec, Inherit(Previous(rows, n), g.outer.uid), g, reachable, now));
  }

  // ----- reaping

  /** One discovery's readings ask for the Node to go. For a listed cell: its guest is up with a device,
      the cell is on its way up, and the Node is silent and names another guest. For any other name: it is
      listed among the pool's Nodes as silent, and is not that of a failed row below the replica count. */
  predicate AsksToReap(p: Pass, d: Reads, n: string) {
    if n in Cells(p.input.spec, d) then
      var g := d.seen[n];
      && g.outer.present && !g.outer.failed && g.outer.provisioned && g.outer.devices > 0
      && g.node.present && !g.node.kubeletLive && g.node.instance.Some? && g.node.instance.value !in {"", g.outer.uid}
      && (n in p.before.rows && (p.before.rows[n].uid == "" || p.before.rows[n].uid == g.outer.uid) ==>
            p.before.rows[n].phase !in {Draining, Deleting, Failed})
    else
      && d.poolNodes.Some? && n in d.poolNodes.value && !d.poolNodes.value[n]
      && !(n in p.before.rows && p.before.rows[n].phase == Failed && p.before.rows[n].index < p.input.spec.replicas)
  }

  /** Reaping over runs, exactly: a pass deletes a Node if and only if the workload cluster answers and its
      discovery, or the second one of a pass that creates, asks for it. */
  lemma PassReapsExactly(pool: string, run: seq<Pass>, k: nat, n: string)
    requires Run(pool, run) && k < |run|
    ensures var p := run[k];
            n in p.reaped <==>
            p.input.reachable && (AsksToReap(p, p.input.first, n) || (p.plan.create != [] && AsksToReap(p, p.input.second, n)))
  {
    StepAt(pool, run, k);
    LegalAt(run, k);
    ReapedByDiscovery(run[k], run[k].input.first, n);
    ReapedByDiscovery(run[k], run[k].input.second, n);
  }

  lemma ReapedByDiscovery(p: Pass, d: Reads, n: string)
    requires ReadsOk(p.input.spec, d)
    ensures n in ReapedNodes(p.input.spec, p.before.rows, d, p.input.reachable, p.input.now) <==>
            p.input.reachable && AsksToReap(p, d, n)
  {
    if n in Cells(p.input.spec, d) {
      ListedReaps(p.input.spec, p.before.rows, d, p.input.now, n);
      assert n in RowsAfter(p.input.spec, p.before.rows, d, p.input.reachable, p.input.now);
    }
  }

  lemma ListedReaps(spec: Spec, rows: map<string, Row>, d: Reads, now: int, n: string)
    requires ReadsOk(spec, d) && n in Cells(spec, d)
    ensures var g := d.seen[n];
            ReapsStale(spec, rows, d, now, n) <==>
            && g.outer.present && !g.outer.failed && g.outer.provisioned && g.outer.devices > 0
            && g.node.present && !g.node.kubeletLive && g.node.instance.Some? && g.node.instance.value !in {"", g.outer.uid}
            && (n in rows && (rows[n].uid == "" || rows[n].uid == g.outer.uid) ==> rows[n].phase !in {Draining, Deleting, Failed})
  {
    var g := d.seen[n];
    ReapsExactly(Observe(spec, Inherit(Previous(rows, n), g.outer.uid), g, true, now));
  }
}
