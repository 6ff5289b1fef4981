/** Runs of a pool with one cell: a rolling update carried through, a cell replaced under its work, a fresh
    Node reaped, and a tombstone that stops the pool. */
module OneCellRuns {
  import opened CellTypes
  import opened CellId
  import opened Fsm
  import opened Membership
  import opened MembershipProofs
  import opened Rollout
  import opened Discovery
  import opened Passes
  import opened Runs
  import opened RunTheorems
  import opened RolloutRuns
  import opened Nodes
  import opened NodePasses
  import opened PlanByPhase
  import opened ExactPasses
  import opened Scenarios

  // ----- one cell in one pass

  /** A guest that is up, with its Node in some state. */
  function Guest(n: string, uid: string, hash: string, node: NodeState): GuestReading {
    GuestReading(Up(n, uid).(hash := hash), node, Some(true), Some(1))
  }

  function NodeUp(uid: string): NodeState {
    NodeState(true, true, true, Some(uid))
  }

  /** The only row: phase, transition time, guest and template. */
  predicate Only(rows: map<string, Row>, n: string, phase: Phase, since: int, uid: string, hash: string) {
    && rows.Keys == {n} && rows[n].phase == phase && rows[n].since == Some(since)
    && rows[n].uid == uid && rows[n].hash == hash
  }

  lemma OneGuestReads(spec: Spec, n: string, g: GuestReading)
    requires n == Name(spec.pool, 0) && ParseIndex(spec.pool, n) == Some(0) && g.outer.uid != "" && g.outer.name == n
    ensures ReadsOk(spec, Listed(n, g)) && ReadsOk(spec, NOTHING_LISTED)
  {
    OneCell(spec, n, g);
  }

  /** A pool of one cell at its size starts no drain while that cell is of the current template. */
  lemma CurrentStays(pool: string, p: Pass, n: string)
    requires StepOk(pool, p) && Legal(p) && p.input.spec.autoscaling.None? && p.input.spec.replicas == 1
    requires p.seen.Keys <= {n} && p.rows.Keys == {n} && p.rows[n].hash == p.input.spec.templateHash && p.rows[n].phase != Draining
    ensures p.rollout.drain.None? && p.after.rows == p.rows
  {
    NoRollout(p, n);
    NoPlannedDrain(p, n);
    NothingWritten(p);
  }

  lemma NoRollout(p: Pass, n: string)
    requires Discovers(p) && Plans(p) && Rediscovers(p) && Marks(p) && RollsOut(p)
    requires p.rows.Keys == {n} && p.rows[n].hash == p.input.spec.templateHash
    ensures p.rollout.drain.None?
  {
    if p.rollout.drain.Some? {
      RolloutShape(p);
    }
  }

  lemma NoPlannedDrain(p: Pass, n: string)
    requires Discovers(p) && Scales(p) && Plans(p) && p.input.spec.autoscaling.None? && p.input.spec.replicas == 1
    requires p.seen.Keys <= {n}
    ensures p.plan.drain == [] && NameSet(p.plan.drain) == {}
  {
    ListingSize(p.cells, p.seen);
    SubsetSize(p.seen.Keys, {n});
    LiveWithin(p.cells);
    EmptyNames();
  }

  lemma NothingWritten(p: Pass)
    requires Written(p) && NameSet(p.plan.drain) == {} && p.rollout.drain.None?
    requires forall n :: n in p.rows ==> p.rows[n].phase != Draining
    ensures p.after.rows == p.rows
  {
  }

  // ----- a rolling update

  function RollingSpec(pool: string, template: string): Spec {
    SpecOf(pool, 1).(rolling := true, templateHash := template)
  }

  const IDLE := Allocations(0, 0, 0, false)

  /** A pass of a pool with rolling updates that reads its Node as empty. */
  function RollInput(pool: string, template: string, now: int, first: Reads, second: Reads): PassInput {
    InputOf(RollingSpec(pool, template), now, true, first, second).(
      allocations := map[Name(pool, 0) := IDLE], drainAllocations := map[Name(pool, 0) := IDLE])
  }

  /** The guest of the old template. */
  function OldGuest(pool: string): Reads {
    Listed(Name(pool, 0), Guest(Name(pool, 0), "u1", "old", NodeUp("u1")))
  }

  /** The guest of the new one. */
  function NewGuestSeen(pool: string, node: NodeState): Reads {
    Listed(Name(pool, 0), Guest(Name(pool, 0), "u2", "new", node))
  }

  lemma UpIsReady(spec: Spec, rows: map<string, Row>, n: string, index: int, uid: string, hash: string, now: int)
    requires spec.expectedDevices == 1 && uid != ""
    requires n in rows ==> rows[n].uid == uid && rows[n].phase in {Joining, Ready} && rows[n].since.Some?
    ensures var r := SeenRow(spec, rows, n, index, Guest(n, uid, hash, NodeUp(uid)), true, now);
            && r.name == n && r.index == index && r.phase == Ready && r.uid == uid && r.hash == hash && r.nodeName == n
            && r.since == if n in rows && rows[n].phase == Ready then rows[n].since else Some(now)
  {
  }

  /** The first pass: the cell is Ready under the template it was created from. */
  lemma OldIsReady(pool: string) returns (p: Pass)
    ensures Run(pool, [p]) && p.input == RollInput(pool, "old", 0, OldGuest(pool), OldGuest(pool))
    ensures Only(p.after.rows, Name(pool, 0), Ready, 0, "u1", "old")
  {
    var n, spec := Name(pool, 0), RollingSpec(pool, "old");
    OrdinaryName(pool, pool, 0);
    OneGuestReads(spec, n, Guest(n, "u1", "old", NodeUp("u1")));
    p := Extended(pool, [], RollInput(pool, "old", 0, OldGuest(pool), OldGuest(pool)));
    LegalAt([] + [p], 0);
    assert [] + [p] == [p];
    OldReadyPass(pool, p);
  }

  lemma OldReadyPass(pool: string, p: Pass)
    requires StepOk(pool, p) && Legal(p) && p.before.rows == map[] && ParseIndex(pool, Name(pool, 0)) == Some(0)
    requires p.input == RollInput(pool, "old", 0, OldGuest(pool), OldGuest(pool))
    ensures Only(p.after.rows, Name(pool, 0), Ready, 0, "u1", "old")
  {
    var n := Name(pool, 0);
    OnlySeen(p.input.spec, map[], n, Guest(n, "u1", "old", NodeUp("u1")), 0);
    UpIsReady(p.input.spec, map[], n, 0, "u1", "old", 0);
    CurrentStays(pool, p, n);
  }

  lemma PlansNothing(m: MembershipInput, r: Row)
    requires m.cells == [r] && m.desired == 1 && CountsLive(r)
    ensures LiveCount(m.cells) == 1 && Plan(m).create == []
  {
    CountOne(r, CountsLive);
    CreationIsExact(m);
  }

  lemma RollsOne(inp: RolloutInput, r: Row)
    requires inp.cells == [r] && inp.idleCells == [r.name] && inp.rolling && inp.reachable && inp.atDesiredSize
    requires r.phase == Ready && Stale(r, inp.desiredHash)
    ensures RolloutPlan(inp).drain == Some(r.name)
  {
    assert r in inp.cells && r.name in inp.idleCells;
    RolloutStartsExactlyWhen(inp);
  }

  /** A pool of one Ready cell of another template whose Node reads as empty starts to drain it. */
  lemma RollsTheCell(p: Pass, n: string)
    requires Discovers(p) && Scales(p) && Plans(p) && Rediscovers(p) && Marks(p) && RollsOut(p)
    requires p.input.reachable && p.input.spec.rolling && p.input.spec.autoscaling.None? && p.input.spec.replicas == 1
    requires p.seen.Keys == {n} && p.seen[n].name == n && IsIdle(p.seen[n], p.input.allocations)
    requires Stale(p.seen[n], p.input.spec.templateHash)
    ensures p.plan.create == [] && p.marked == p.rows == p.seen && p.rollout.drain == Some(n)
  {
    OneListed(p.cells, p.seen, n);
    QuietPlan(p, n);
    OneListed(p.markedCells, p.marked, n);
    IdleOne(p.seen[n], p.input.allocations);
    RollsOneCell(p, p.seen[n]);
  }

  lemma RollsOneCell(p: Pass, r: Row)
    requires RollsOut(p) && p.markedCells == [r] && p.idle == [r.name] && p.plan.create == []
    requires p.input.reachable && p.input.spec.rolling && LiveCount([r]) == p.scale.desired
    requires r.phase == Ready && Stale(r, p.input.spec.templateHash)
    ensures p.rollout.drain == Some(r.name)
  {
    RollsOne(RolloutFor(p.input, p.markedCells, p.idle, p.scale, p.plan), r);
  }

  /** A pool of one live cell at its size plans nothing. */
  lemma QuietPlan(p: Pass, n: string)
    requires Discovers(p) && Scales(p) && Plans(p) && Rediscovers(p) && Marks(p)
    requires p.input.spec.autoscaling.None? && p.input.spec.replicas == 1
    requires p.seen.Keys == {n} && CountsLive(p.seen[n]) && p.cells == [p.seen[n]]
    ensures p.plan.create == [] && p.marked == p.rows == p.seen && LiveCount([p.seen[n]]) == 1 == p.scale.desired
  {
    PlansNothing(MembershipFor(p.before, p.input, p.cells, p.scale), p.seen[n]);
    NoPlannedDrain(p, n);
    UnmarkedRows(p.rows, NameSet(p.plan.drain), p.input.now);
  }

  lemma IdleOne(r: Row, allocations: map<string, Allocations>)
    requires IsIdle(r, allocations)
    ensures IdleNames([r], allocations) == [r.name]
  {
    assert [r][..0] == [];
  }

  /** The template has changed: the second pass drains the cell and, finding nothing on its Node, deletes
      the guest. */
  lemma OldIsRolled(pool: string, p: Pass) returns (q: Pass)
    requires Run(pool, [p]) && p.input.now == 0 && Only(p.after.rows, Name(pool, 0), Ready, 0, "u1", "old")
    ensures Run(pool, [p] + [q]) && q.input == RollInput(pool, "new", 1, OldGuest(pool), OldGuest(pool))
    ensures q.rollout.drain == Some(Name(pool, 0)) && Name(pool, 0) in DeletedGuests(q) && q.plan.create == []
    ensures Only(q.after.rows, Name(pool, 0), Draining, 1, "u1", "old")
  {
    var n, spec := Name(pool, 0), RollingSpec(pool, "new");
    OrdinaryName(pool, pool, 0);
    OneGuestReads(spec, n, Guest(n, "u1", "old", NodeUp("u1")));
    q := Extended(pool, [p], RollInput(pool, "new", 1, OldGuest(pool), OldGuest(pool)));
    LegalAt([p] + [q], 1);
    RollingPass(pool, q);
  }

  lemma RollingPass(pool: string, p: Pass)
    requires StepOk(pool, p) && Legal(p) && Only(p.before.rows, Name(pool, 0), Ready, 0, "u1", "old")
    requires p.input == RollInput(pool, "new", 1, OldGuest(pool), OldGuest(pool)) && ParseIndex(pool, Name(pool, 0)) == Some(0)
    ensures p.rollout.drain == Some(Name(pool, 0)) && Name(pool, 0) in DeletedGuests(p) && p.plan.create == []
    ensures Only(p.after.rows, Name(pool, 0), Draining, 1, "u1", "old")
  {
    var n := Name(pool, 0);
    OldIsStale(pool, p.before.rows);
    RollsTheCell(p, n);
    DrainedAtOnce(p, n);
  }

  lemma OldIsStale(pool: string, rows: map<string, Row>)
    requires Only(rows, Name(pool, 0), Ready, 0, "u1", "old") && ParseIndex(pool, Name(pool, 0)) == Some(0)
    ensures var n, after := Name(pool, 0), RowsAfter(RollingSpec(pool, "new"), rows, OldGuest(pool), true, 1);
            && after.Keys == {n} && after[n].name == n && after[n].index == 0 && after[n].uid == "u1" && after[n].hash == "old"
            && IsIdle(after[n], map[n := IDLE]) && Stale(after[n], "new")
  {
    var n, spec := Name(pool, 0), RollingSpec(pool, "new");
    OnlySeen(spec, rows, n, Guest(n, "u1", "old", NodeUp("u1")), 1);
    UpIsReady(spec, rows, n, 0, "u1", "old", 1);
  }

  lemma DrainedAtOnce(p: Pass, n: string)
    requires Finishes(p) && p.rollout.drain == Some(n) && p.marked == p.rows && n in p.rows && p.rows.Keys == {n}
    requires p.input.reachable && n in p.input.drainAllocations && p.input.drainAllocations[n].Empty()
    requires n == Name(p.input.spec.pool, p.rows[n].index)
    ensures n in DeletedGuests(p)
    ensures Only(p.after.rows, n, Draining, p.input.now, p.rows[n].uid, p.rows[n].hash)
  {
    var drained := Drained(p);
    assert n in drained && drained[n].phase == Draining;
    assert n in p.removed;
  }

  /** The third pass finds the guest gone and creates one from the new template. */
  lemma NewIsCreated(pool: string, run: seq<Pass>) returns (p: Pass)
    requires Run(pool, run) && |run| == 2 && run[1].input.now == 1 && Only(run[1].after.rows, Name(pool, 0), Draining, 1, "u1", "old")
    ensures Run(pool, run + [p]) && p.input == RollInput(pool, "new", 2, NOTHING_LISTED, NewGuestSeen(pool, NO_NODE))
    ensures p.plan.create == [0] && p.rollout.drain.None? && Only(p.after.rows, Name(pool, 0), Joining, 2, "u2", "new")
  {
    var n, spec := Name(pool, 0), RollingSpec(pool, "new");
    OrdinaryName(pool, pool, 0);
    OneGuestReads(spec, n, Guest(n, "u2", "new", NO_NODE));
    p := Extended(pool, run, RollInput(pool, "new", 2, NOTHING_LISTED, NewGuestSeen(pool, NO_NODE)));
    LegalAt(run + [p], 2);
    CreatingPass(pool, p);
  }

  lemma CreatingPass(pool: string, p: Pass)
    requires StepOk(pool, p) && Legal(p) && Only(p.before.rows, Name(pool, 0), Draining, 1, "u1", "old")
    requires p.input == RollInput(pool, "new", 2, NOTHING_LISTED, NewGuestSeen(pool, NO_NODE)) && ParseIndex(pool, Name(pool, 0)) == Some(0)
    ensures p.plan.create == [0] && p.rollout.drain.None? && Only(p.after.rows, Name(pool, 0), Joining, 2, "u2", "new")
  {
    var n := Name(pool, 0);
    CreatesFirst(pool, p);
    OnlySeen(p.input.spec, p.before.rows, n, Guest(n, "u2", "new", NO_NODE), 2);
    SuccessorJoins(p.input.spec, p.before.rows, n);
    CurrentStays(pool, p, n);
  }

  lemma SuccessorJoins(spec: Spec, rows: map<string, Row>, n: string)
    requires Only(rows, n, Draining, 1, "u1", "old")
    ensures var r := SeenRow(spec, rows, n, 0, Guest(n, "u2", "new", NO_NODE), true, 2);
            r.phase == Joining && r.since == Some(2) && r.uid == "u2" && r.hash == "new"
  {
  }

  lemma CreatesFirst(pool: string, p: Pass)
    requires Discovers(p) && Scales(p) && Plans(p) && Only(p.before.rows, Name(pool, 0), Draining, 1, "u1", "old")
    requires p.input == RollInput(pool, "new", 2, NOTHING_LISTED, NewGuestSeen(pool, NO_NODE))
    ensures p.seen == map[] && p.plan.create == [0]
  {
    assert Cells(p.input.spec, NOTHING_LISTED) == {};
    assert p.seen == map[];
    ListingSize(p.cells, p.seen);
    FillsEmpty(MembershipFor(p.before, p.input, p.cells, p.scale));
  }

  lemma FillsEmpty(m: MembershipInput)
    requires m.cells == [] && m.desired == 1 && m.reachable && m.freeGPUs.None? && m.maxCreating == 0
    ensures Plan(m).create == [0]
  {
    assert !CreationBarred(m) && CreationBudget(m) == 1;
    CreationIsExact(m);
    assert UsedIndexes(m.cells) == {};
    assert Plan(m).create[..0] == [];
  }

  /** The fourth finds it Ready. */
  lemma NewIsReady(pool: string, run: seq<Pass>) returns (p: Pass)
    requires Run(pool, run) && |run| == 3 && run[2].input.now == 2 && Only(run[2].after.rows, Name(pool, 0), Joining, 2, "u2", "new")
    ensures Run(pool, run + [p])
    ensures p.input == RollInput(pool, "new", 3, NewGuestSeen(pool, NodeUp("u2")), NewGuestSeen(pool, NodeUp("u2")))
    ensures p.rollout.drain.None? && Only(p.after.rows, Name(pool, 0), Ready, 3, "u2", "new")
  {
    var n, spec, d := Name(pool, 0), RollingSpec(pool, "new"), NewGuestSeen(pool, NodeUp("u2"));
    OrdinaryName(pool, pool, 0);
    OneGuestReads(spec, n, Guest(n, "u2", "new", NodeUp("u2")));
    p := Extended(pool, run, RollInput(pool, "new", 3, d, d));
    LegalAt(run + [p], 3);
    NewReadyPass(pool, p);
  }

  lemma NewReadyPass(pool: string, p: Pass)
    requires StepOk(pool, p) && Legal(p) && Only(p.before.rows, Name(pool, 0), Joining, 2, "u2", "new")
    requires p.input == RollInput(pool, "new", 3, NewGuestSeen(pool, NodeUp("u2")), NewGuestSeen(pool, NodeUp("u2")))
    requires ParseIndex(pool, Name(pool, 0)) == Some(0)
    ensures p.rollout.drain.None? && Only(p.after.rows, Name(pool, 0), Ready, 3, "u2", "new")
  {
    var n := Name(pool, 0);
    OnlySeen(p.input.spec, p.before.rows, n, Guest(n, "u2", "new", NodeUp("u2")), 3);
    UpIsReady(p.input.spec, p.before.rows, n, 0, "u2", "new", 3);
    CurrentStays(pool, p, n);
  }

  /** The passes of the update, without the record of how each came about. */
  predicate Updated(pool: string, run: seq<Pass>) {
    var n, up := Name(pool, 0), NewGuestSeen(pool, NodeUp("u2"));
    && |run| == 4
    && run[0].input == RollInput(pool, "old", 0, OldGuest(pool), OldGuest(pool)) && Only(run[0].after.rows, n, Ready, 0, "u1", "old")
    && run[1].input == RollInput(pool, "new", 1, OldGuest(pool), OldGuest(pool))
    && run[1].rollout.drain == Some(n) && n in DeletedGuests(run[1]) && run[1].plan.create == []
    && run[2].input == RollInput(pool, "new", 2, NOTHING_LISTED, NewGuestSeen(pool, NO_NODE))
    && run[2].plan.create == [0] && run[2].rollout.drain.None?
    && run[3].input == RollInput(pool, "new", 3, up, up)
    && run[3].rollout.drain.None? && Only(run[3].after.rows, n, Ready, 3, "u2", "new")
  }

  /** A rolling update of a running pool: a Ready cell whose template is then changed is drained once,
      deleted and created anew, and is Ready from the new template two passes later. The bound on
      rollout drains under the new template, one stale guest, is reached. */
  lemma TemplateChangeRollsOut(pool: string) returns (run: seq<Pass>, stale: seq<map<string, string>>)
    ensures Run(pool, run) && Updated(pool, run) && OneTemplate(run, stale, "new", 1, 4)
    ensures RolloutDrains(run, 1, 4) == 1 == |Waiting(stale[1], RowsBefore(run, 1))|
    ensures StaleRows(run[3].after.rows, "new") == {}
  {
    var p := OldIsReady(pool);
    var q := OldIsRolled(pool, p);
    var t := NewIsCreated(pool, [p] + [q]);
    var u := NewIsReady(pool, [p] + [q] + [t]);
    run := [p] + [q] + [t] + [u];
    var n := Name(pool, 0);
    stale := [map[], map[n := "u1"], map[n := "u1"], map[], map[]];
    OrdinaryName(pool, pool, 0);
    UpdateIsOneTemplate(pool, run, stale);
    UpdateDrainsOnce(pool, run);
  }

  lemma UpdateDrainsOnce(pool: string, run: seq<Pass>)
    requires Updated(pool, run)
    ensures RolloutDrains(run, 1, 4) == 1 && StaleRows(run[3].after.rows, "new") == {}
    ensures |Waiting(map[Name(pool, 0) := "u1"], RowsBefore(run, 1))| == 1
  {
    assert RolloutDrains(run, 1, 2) == 1 && RolloutDrains(run, 1, 3) == 1;
    assert Waiting(map[Name(pool, 0) := "u1"], RowsBefore(run, 1)) == {Name(pool, 0)};
  }

  lemma OneStale(spec: Spec, n: string, uid: string, hash: string, node: NodeState, stale: map<string, string>)
    requires ParseIndex(spec.pool, n).Some? && hash != ""
    requires hash != spec.templateHash <==> n in stale && stale[n] == uid
    ensures Honest(stale, spec, Listed(n, Guest(n, uid, hash, node)))
  {
    OneCell(spec, n, Guest(n, uid, hash, node));
  }

  lemma UpdateIsOneTemplate(pool: string, run: seq<Pass>, stale: seq<map<string, string>>)
    requires Updated(pool, run) && ParseIndex(pool, Name(pool, 0)) == Some(0)
    requires var n := Name(pool, 0); stale == [map[], map[n := "u1"], map[n := "u1"], map[], map[]]
    ensures OneTemplate(run, stale, "new", 1, 4)
  {
    UpdateIsHonest(pool, run);
    UpdateSurvivors(pool, run);
  }

  lemma UpdateIsHonest(pool: string, run: seq<Pass>)
    requires Updated(pool, run) && ParseIndex(pool, Name(pool, 0)) == Some(0)
    ensures var was := map[Name(pool, 0) := "u1"];
            HonestPass(run[1], was, "new") && HonestPass(run[2], was, "new") && HonestPass(run[3], map[], "new")
  {
    var n, spec := Name(pool, 0), RollingSpec(pool, "new");
    OneStale(spec, n, "u1", "old", NodeUp("u1"), map[n := "u1"]);
    OneStale(spec, n, "u2", "new", NO_NODE, map[n := "u1"]);
    OneStale(spec, n, "u2", "new", NodeUp("u2"), map[]);
    OneCell(spec, n, Guest(n, "u1", "old", NodeUp("u1")));
  }

  lemma UpdateSurvivors(pool: string, run: seq<Pass>)
    requires Updated(pool, run) && ParseIndex(pool, Name(pool, 0)) == Some(0)
    ensures var was := map[Name(pool, 0) := "u1"];
            Survivors(was, run[1]) == was && Survivors(was, run[2]) == map[] && Survivors(map[], run[3]) == map[]
  {
    var n := Name(pool, 0);
    OneCell(run[1].input.spec, n, Guest(n, "u1", "old", NodeUp("u1")));
    OneCell(run[2].input.spec, n, Guest(n, "u2", "new", NO_NODE));
  }

  // ----- a cell replaced under its work

  const BUSY := Allocations(1, 1, 1, false)

  /** A Node that is there and not Ready, or Ready. */
  function NodeOf(ready: bool): NodeState {
    NodeState(true, ready, true, Some("u"))
  }

  /** A pass of a pool of fixed size in which a pod holds a share of the cell's GPU all along. */
  function WorkInput(pool: string, now: int, ready: bool): PassInput {
    var d := Listed(Name(pool, 0), Guest(Name(pool, 0), "u", "hash", NodeOf(ready)));
    InputOf(SpecOf(pool, 1), now, true, d, d).(drainAllocations := map[Name(pool, 0) := BUSY])
  }

  predicate WorkRow(r: Row, phase: Phase, since: int, failures: int) {
    && r.index == 0 && r.uid == "u" && r.hash == "hash" && r.readyOnce
    && r.phase == phase && r.since == Some(since) && r.failureCount == failures
  }

  predicate WorkRows(rows: map<string, Row>, n: string, phase: Phase, since: int, failures: int) {
    rows.Keys == {n} && WorkRow(rows[n], phase, since, failures)
  }

  /** Ready at zero, its Node not Ready from time one, failed past the budget, and failed from then on. */
  predicate WorkStep(rows: map<string, Row>, n: string, ready: bool, now: int, phase: Phase, since: int, failures: int) {
    || (rows == map[] && ready && now == since == 0 && phase == Ready && failures == 0)
    || (WorkRows(rows, n, Ready, 0, 0) && !ready && now == since == 1 && phase == Joining && failures == 0)
    || (WorkRows(rows, n, Joining, 1, 0) && !ready && now == since == 12 && phase == Failed && failures == 1)
    || (WorkRows(rows, n, Failed, 12, 1) && !ready && phase == Failed && since == 12 && failures == 1)
  }

  lemma WorkSeen(pool: string, rows: map<string, Row>, n: string, ready: bool, now: int, phase: Phase, since: int, failures: int)
    requires WorkStep(rows, n, ready, now, phase, since, failures)
    ensures WorkRow(SeenRow(SpecOf(pool, 1), rows, n, 0, Guest(n, "u", "hash", NodeOf(ready)), true, now), phase, since, failures)
  {
  }

  lemma WorkAfter(pool: string, p: Pass, ready: bool, phase: Phase, since: int, failures: int)
    requires StepOk(pool, p) && Legal(p) && phase != Draining && ParseIndex(pool, Name(pool, 0)) == Some(0)
    requires p.input == WorkInput(pool, p.input.now, ready)
    requires WorkStep(p.before.rows, Name(pool, 0), ready, p.input.now, phase, since, failures)
    ensures p.after.rows == p.rows && WorkRows(p.after.rows, Name(pool, 0), phase, since, failures)
  {
    WorkDiscovered(pool, p.before.rows, ready, p.input.now, phase, since, failures);
    WorkHeld(pool, p, phase, since, failures);
  }

  lemma WorkDiscovered(pool: string, rows: map<string, Row>, ready: bool, now: int, phase: Phase, since: int, failures: int)
    requires ParseIndex(pool, Name(pool, 0)) == Some(0) && WorkStep(rows, Name(pool, 0), ready, now, phase, since, failures)
    ensures var inp := WorkInput(pool, now, ready);
            WorkRows(RowsAfter(inp.spec, rows, inp.first, true, now), Name(pool, 0), phase, since, failures)
  {
    var n := Name(pool, 0);
    OnlySeen(SpecOf(pool, 1), rows, n, Guest(n, "u", "hash", NodeOf(ready)), now);
    WorkSeen(pool, rows, n, ready, now, phase, since, failures);
  }

  lemma WorkHeld(pool: string, p: Pass, phase: Phase, since: int, failures: int)
    requires StepOk(pool, p) && Legal(p) && phase != Draining && p.input.spec == SpecOf(pool, 1)
    requires WorkRows(p.seen, Name(pool, 0), phase, since, failures) && WorkRows(p.rows, Name(pool, 0), phase, since, failures)
    ensures p.after.rows == p.rows
  {
    CurrentStays(pool, p, Name(pool, 0));
  }

  lemma NextWorkPass(pool: string, run: seq<Pass>, ready: bool, now: int, phase: Phase, since: int, failures: int) returns (p: Pass)
    requires Run(pool, run) && (run != [] ==> run[|run| - 1].input.now <= now) && phase != Draining
    requires WorkStep(LastStatus(run).rows, Name(pool, 0), ready, now, phase, since, failures)
    ensures Run(pool, run + [p]) && p.input == WorkInput(pool, now, ready)
    ensures p.after.rows == p.rows && WorkRows(p.after.rows, Name(pool, 0), phase, since, failures)
    ensures phase == Failed && now >= since + 30 ==> Name(pool, 0) in p.replaced && Name(pool, 0) in DeletedGuests(p)
  {
    OrdinaryName(pool, pool, 0);
    OneGuestReads(SpecOf(pool, 1), Name(pool, 0), Guest(Name(pool, 0), "u", "hash", NodeOf(ready)));
    p := Extended(pool, run, WorkInput(pool, now, ready));
    LegalAt(run + [p], |run|);
    WorkAfter(pool, p, ready, phase, since, failures);
    if phase == Failed && now >= since + 30 {
      WorkReplaced(p, Name(pool, 0), since);
    }
  }

  lemma WorkReplaced(p: Pass, n: string, since: int)
    requires Discovers(p) && Scales(p) && Plans(p) && Marks(p) && p.input.spec.autoscaling.None? && p.input.spec.replicas == 1
    requires WorkRows(p.rows, n, Failed, since, 1) && p.seen.Keys <= {n} && Usable(p.input) && p.input.now >= since + 30
    requires n == Name(p.input.spec.pool, 0)
    ensures n in p.replaced && n in DeletedGuests(p)
  {
    assert BackoffAfter(1) == 30;
    NoPlannedDrain(p, n);
    UnmarkedRows(p.rows, NameSet(p.plan.drain), p.input.now);
  }

  /** Replacement reads no allocations: a cell that was Ready and whose Node then stops being Ready is
      failed and, the backoff over, deleted, while its pods hold shares of its GPU in every pass. */
  lemma ReplacedUnderWork(pool: string) returns (run: seq<Pass>)
    ensures Run(pool, run) && |run| == 4
    ensures var n, p := Name(pool, 0), run[3];
            && n in run[0].after.rows && run[0].after.rows[n].phase == Ready
            && n in p.replaced && n in DeletedGuests(p) && Served(run, 3, n)
            && n in p.input.drainAllocations && !p.input.drainAllocations[n].Empty()
  {
    var a := NextWorkPass(pool, [], true, 0, Ready, 0, 0);
    assert [] + [a] == [a];
    var before := WorkFails(pool, a);
    var d := NextWorkPass(pool, before, false, 42, Failed, 12, 1);
    run := before + [d];
    LatchIsHistory(pool, run, 3, Name(pool, 0));
  }

  lemma WorkFails(pool: string, a: Pass) returns (run: seq<Pass>)
    requires Run(pool, [a]) && a.input.now == 0 && WorkRows(a.after.rows, Name(pool, 0), Ready, 0, 0)
    ensures Run(pool, run) && |run| == 3 && run[0] == a && run[2].input.now == 12 && WorkRows(run[2].after.rows, Name(pool, 0), Failed, 12, 1)
  {
    var before := WorkWaits(pool, a);
    var c := NextWorkPass(pool, before, false, 12, Failed, 12, 1);
    run := before + [c];
  }

  lemma WorkWaits(pool: string, a: Pass) returns (run: seq<Pass>)
    requires Run(pool, [a]) && a.input.now == 0 && WorkRows(a.after.rows, Name(pool, 0), Ready, 0, 0)
    ensures Run(pool, run) && |run| == 2 && run[0] == a && run[1].input.now == 1 && WorkRows(run[1].after.rows, Name(pool, 0), Joining, 1, 0)
  {
    var b := NextWorkPass(pool, [a], false, 1, Joining, 1, 0);
    run := [a] + [b];
  }

  // ----- a fresh Node is reaped

  /** A Node that still names the previous guest: its Ready condition is fresh, and its Lease is there
      but has not been renewed yet. */
  function FreshNode(pool: string, now: int): Node {
    Node(map[PoolLabel := pool, InstanceLabel := "u1"], map[], [], false, NeverHeld, [Condition(true, true, Some(now))])
  }

  function FreshReads(pool: string): Reads {
    var n := Name(pool, 0);
    Listed(n, Guest(n, "u2", "hash", NodeState(true, true, false, Some("u1")))).(poolNodes := Some(map[]))
  }

  lemma FreshIsReaped(pool: string, now: int)
    requires ParseIndex(pool, Name(pool, 0)) == Some(0)
    ensures var spec, n, d := SpecOf(pool, 1), Name(pool, 0), FreshReads(pool);
            && ReadsOk(spec, d) && n in Cells(spec, d) && ReapsStale(spec, map[], d, now, n)
            && ReadsFrom(map[n := FreshNode(pool, now)], spec, map[], d, Metadata(map[], map[], []), now)
  {
    var spec, n, d := SpecOf(pool, 1), Name(pool, 0), FreshReads(pool);
    assert Cells(spec, d) == {n};
    ReapsExactly(Observe(spec, Inherit(Previous(map[], n), "u2"), d.seen[n], true, now));
    var nodes := map[n := FreshNode(pool, now)];
    assert TendedNodes(nodes, spec, map[], d, Metadata(map[], map[], []), now, Cells(spec, d)) == map[];
  }

  /** A Lease that was never renewed has no grace: a pass reaps a Node that reported itself Ready at that
      very moment, under a guest that is up. */
  lemma NeverRenewedIsReaped(pool: string, now: int) returns (run: seq<Pass>, s: Snapshots)
    ensures Run(pool, run) && |run| == 1 && run[0].input.now == now && ReadIn(run[0], s) && FreshAndReaped(run[0], s, Name(pool, 0))
  {
    var d := FreshReads(pool);
    OrdinaryName(pool, pool, 0);
    FreshIsReaped(pool, now);
    var p := Extended(pool, [], InputOf(SpecOf(pool, 1), now, true, d, d));
    assert [] + [p] == [p];
    run, s := [p], FreshSnapshots(pool, now);
    LegalAt(run, 0);
    FreshPass(pool, p, now);
  }

  function FreshSnapshots(pool: string, now: int): Snapshots {
    var nodes := map[Name(pool, 0) := FreshNode(pool, now)];
    Snapshots(nodes, nodes, Metadata(map[], map[], []))
  }

  /** The pass reaps a Node whose Ready condition was true at the time of the pass, under a cell whose
      guest is up with a GPU. */
  predicate FreshAndReaped(p: Pass, s: Snapshots, n: string) {
    && n in p.reaped && n in s.first && s.first[n].lease.NeverHeld? && !Silent(s.first[n], p.input.now)
    && IsReady(s.first[n].conditions) && StatusHeartbeat(s.first[n].conditions) == Some(p.input.now)
    && n in Cells(p.input.spec, Kept(p)) && Kept(p).seen[n].outer.running && Kept(p).seen[n].outer.devices > 0
  }

  lemma FreshPass(pool: string, p: Pass, now: int)
    requires Rediscovers(p) && p.before.rows == map[] && ParseIndex(pool, Name(pool, 0)) == Some(0)
    requires p.input == InputOf(SpecOf(pool, 1), now, true, FreshReads(pool), FreshReads(pool))
    ensures ReadIn(p, FreshSnapshots(pool, now)) && FreshAndReaped(p, FreshSnapshots(pool, now), Name(pool, 0))
  {
    FreshIsReaped(pool, now);
  }

  // ----- a tombstone takes the blame

  /** A guest that is up with its GPU advertised, and the same guest once it reports a failure. */
  function Advertising(n: string, failed: bool): GuestReading {
    var g := Guest(n, "u", "hash", NodeUp("u"));
    if failed then g.(outer := g.outer.(failed := true)) else g
  }

  predicate FailedWithGpu(rows: map<string, Row>, n: string) {
    && rows.Keys == {n} && rows[n].phase == Failed && rows[n].index == 0 && rows[n].failureCount == 1
    && rows[n].nodeReady && rows[n].capacityDevices == 1
  }

  lemma AdvertisedThenFailed(pool: string, n: string)
    ensures var r := SeenRow(SpecOf(pool, 1), map[], n, 0, Advertising(n, true), true, 0);
            r.phase == Failed && r.index == 0 && r.failureCount == 1 && r.nodeReady && r.capacityDevices == 1 && r.hash == "hash"
  {
  }

  /** The pass that finds the failure, with the GPU still advertised. */
  lemma FailsAdvertising(pool: string) returns (p: Pass)
    ensures Run(pool, [p]) && p.input.now == 0 && FailedWithGpu(p.after.rows, Name(pool, 0))
    ensures var n := Name(pool, 0); n in Cells(p.input.spec, Kept(p)) && DevicesRead(p, n) == 1
  {
    var n, d := Name(pool, 0), Listed(Name(pool, 0), Advertising(Name(pool, 0), true));
    OrdinaryName(pool, pool, 0);
    OneGuestReads(SpecOf(pool, 1), n, Advertising(n, true));
    p := Extended(pool, [], InputOf(SpecOf(pool, 1), 0, true, d, d));
    LegalAt([] + [p], 0);
    assert [] + [p] == [p];
    OneCell(SpecOf(pool, 1), n, Advertising(n, true));
    FailureIsWritten(pool, p);
  }

  lemma FailureIsWritten(pool: string, p: Pass)
    requires StepOk(pool, p) && Legal(p) && p.before.rows == map[] && ParseIndex(pool, Name(pool, 0)) == Some(0)
    requires var d := Listed(Name(pool, 0), Advertising(Name(pool, 0), true)); p.input == InputOf(SpecOf(pool, 1), 0, true, d, d)
    ensures FailedWithGpu(p.after.rows, Name(pool, 0))
  {
    var n := Name(pool, 0);
    OnlySeen(p.input.spec, map[], n, Advertising(n, true), 0);
    AdvertisedThenFailed(pool, n);
    CurrentStays(pool, p, n);
  }

  /** The tombstone of a cell whose GPU was advertised to the last takes the blame for an unusable
      provider: nothing is created, because its Node is said to have joined without a GPU. */
  lemma TombstoneTakesBlame(pool: string) returns (run: seq<Pass>)
    ensures Run(pool, run) && |run| == 2
    ensures var n := Name(pool, 0); n in Cells(run[0].input.spec, Kept(run[0])) && DevicesRead(run[0], n) == 1
    ensures run[1].input.reachable && run[1].scale.desired == 1 && run[1].plan.create == [] && run[1].plan.reason == FaultNotInTheCell
  {
    var p := FailsAdvertising(pool);
    OrdinaryName(pool, pool, 0);
    OneCell(SpecOf(pool, 1), Name(pool, 0), Advertising(Name(pool, 0), true));
    var q := Extended(pool, [p], InputOf(SpecOf(pool, 1), 1, true, NOTHING_LISTED, NOTHING_LISTED).(providerReady := false));
    run := [p] + [q];
    Blamed(pool, run);
  }

  lemma Blamed(pool: string, run: seq<Pass>)
    requires Run(pool, run) && |run| == 2 && FailedWithGpu(run[1].before.rows, Name(pool, 0)) && ParseIndex(pool, Name(pool, 0)) == Some(0)
    requires run[1].input == InputOf(SpecOf(pool, 1), 1, true, NOTHING_LISTED, NOTHING_LISTED).(providerReady := false)
    ensures run[1].scale.desired == 1 && run[1].plan.create == [] && run[1].plan.reason == FaultNotInTheCell
  {
    var n := Name(pool, 0);
    OnlyTombstone(pool, run);
    FaultBarsCreation(pool, run, 1, n);
    PlanIsTold(pool, run, 1);
    OneListed(run[1].cells, run[1].seen, n);
    BlamesFirst(Told(run, 1));
  }

  lemma OnlyTombstone(pool: string, run: seq<Pass>)
    requires Run(pool, run) && |run| == 2 && FailedWithGpu(run[1].before.rows, Name(pool, 0))
    requires run[1].input == InputOf(SpecOf(pool, 1), 1, true, NOTHING_LISTED, NOTHING_LISTED).(providerReady := false)
    ensures var n, seen := Name(pool, 0), run[1].seen;
            && seen.Keys == {n} && seen[n].phase == Failed && seen[n].uid == "" && seen[n].nodeReady && seen[n].capacityDevices == 0
            && n !in Cells(run[1].input.spec, run[1].input.first) && run[1].scale.desired == 1
  {
    LegalAt(run, 1);
    TombstoneRow(pool, run[1].before.rows);
  }

  lemma TombstoneRow(pool: string, rows: map<string, Row>)
    requires FailedWithGpu(rows, Name(pool, 0))
    ensures var n, seen := Name(pool, 0), RowsAfter(SpecOf(pool, 1), rows, NOTHING_LISTED, true, 1);
            && seen.Keys == {n} && seen[n].phase == Failed && seen[n].uid == "" && seen[n].nodeReady && seen[n].capacityDevices == 0
            && n !in Cells(SpecOf(pool, 1), NOTHING_LISTED)
  {
    assert Cells(SpecOf(pool, 1), NOTHING_LISTED) == {};
  }

  lemma BlamesFirst(inp: MembershipInput)
    requires |inp.cells| == 1 && inp.desired == 1 && !inp.providerUsable
    requires var c := inp.cells[0]; c.phase == Failed && c.uid == "" && c.nodeReady && c.capacityDevices == 0
    ensures Plan(inp).reason == FaultNotInTheCell
  {
    ReasonByPhase(inp);
    assert Standing(inp.cells) == {};
  }
}
