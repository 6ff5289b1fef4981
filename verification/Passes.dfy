/** One reconcile pass as a relation between the status it read and the status it wrote, with
    every intermediate decision on record. */
module Passes {
  import opened CellTypes
  import opened CellId
  import opened Sequences
  import opened Fsm
  import opened Membership
  import opened MembershipProofs
  import opened Scaling
  import opened Rollout
  import opened Discovery

  /** What the pool's status carries from one pass to the next. */
  datatype Status = Status(
    rows: map<string, Row>,
    lastScaleUp: Option<int>,
    lastScaleDown: Option<int>,
    demandFreeSince: Option<int>,
    anyReady: bool)

  const EMPTY_STATUS := Status(map[], None, None, None, false)

  /** Everything one pass reads. `second` is the re-observation after a creation; the allocation
      maps hold the reads that succeeded, first for idleness and later for the drain gate. */
  datatype PassInput = PassInput(
    spec: Spec,
    now: int,
    reachable: bool,
    first: Reads,
    second: Reads,
    freeGPUs: Option<int>,
    providerReady: bool,
    demand: Option<Demand>,
    shapeKnown: bool,
    allocations: map<string, Allocations>,
    drainAllocations: map<string, Allocations>,
    readyCondition: bool)

  /** The pool-wide capacity verdict; false while the workload cluster is unreachable. */
  predicate Usable(inp: PassInput) {
    inp.reachable && inp.providerReady
  }

  function DemandRead(inp: PassInput): Option<Demand> {
    if inp.reachable && Enabled(inp.spec.autoscaling) then inp.demand else None
  }

  predicate NeedsIdleness(spec: Spec) {
    (Enabled(spec.autoscaling) && spec.autoscaling.value.scaleDownAuto) || spec.rolling
  }

  predicate IsIdle(c: Row, allocations: map<string, Allocations>) {
    c.phase == Ready && c.nodeName != "" && c.nodeName in allocations && allocations[c.nodeName].Empty()
  }

  function IdleNames(cells: seq<Row>, allocations: map<string, Allocations>): seq<string> {
    if cells == [] then []
    else IdleNames(cells[..|cells| - 1], allocations) +
         (if IsIdle(cells[|cells| - 1], allocations) then [cells[|cells| - 1].name] else [])
  }

  function ScaleFor(before: Status, inp: PassInput, cells: seq<Row>, idle: seq<string>): ScaleInput {
    ScaleInput(inp.spec.replicas, inp.spec.autoscaling, LiveCount(cells), DemandRead(inp), inp.shapeKnown,
               inp.freeGPUs, idle, inp.now, before.lastScaleUp, before.lastScaleDown, before.demandFreeSince)
  }

  predicate EverReady(before: Status, inp: PassInput, cells: seq<Row>) {
    || (exists c :: c in cells && c.phase == Ready)
    || inp.readyCondition
    || before.anyReady
  }

  function MembershipFor(before: Status, inp: PassInput, cells: seq<Row>, scale: ScaleDecision): MembershipInput {
    MembershipInput(scale.desired, cells, inp.now, inp.freeGPUs, 0, inp.reachable,
                    EverReady(before, inp, cells), Usable(inp), scale.drainCandidates)
  }

  function MarkDraining(rows: map<string, Row>, names: set<string>, now: int): map<string, Row> {
    map n | n in rows :: if n in names then rows[n].(phase := Draining, since := Some(now)) else rows[n]
  }

  function ToReplace(rows: map<string, Row>, inp: PassInput): set<string> {
    set n | n in rows && ShouldReplace(rows[n], inp.now, Usable(inp))
  }

  function RolloutFor(inp: PassInput, cells: seq<Row>, idle: seq<string>, scale: ScaleDecision, plan: MembershipPlan): RolloutInput {
    RolloutInput(inp.spec.rolling, inp.spec.templateHash, cells, idle, inp.reachable,
                 LiveCount(cells) == scale.desired && plan.create == [])
  }

  function AsSet(o: Option<string>): set<string> {
    if o.Some? then {o.value} else {}
  }

  /** The drain gate for one cell: the Node is cordoned and the allocations are read only while
      the workload cluster answers, and an automatic drain never times out. */
  function DrainGate(inp: PassInput, n: string): DrainDecision {
    AdvanceDrain(
      if inp.reachable && n in inp.drainAllocations then Some(inp.drainAllocations[n]) else None,
      false, inp.spec.force, inp.now, inp.now, DurationOr(inp.spec.drainTimeout, DEFAULT_DRAIN_TIMEOUT))
  }

  function AfterDrains(rows: map<string, Row>, inp: PassInput): map<string, Row> {
    map n | n in rows :: if rows[n].phase == Draining then rows[n].(reason := DrainGate(inp, n).reason) else rows[n]
  }

  function ToRemove(rows: map<string, Row>, inp: PassInput): set<string> {
    set n | n in rows && rows[n].phase == Draining && DrainGate(inp, n).proceed
  }

  function NextDemandFree(before: Option<int>, demand: Option<Demand>, now: int): Option<int> {
    if demand.None? then before
    else if demand.value.Absent() then (if before.None? then Some(now) else before)
    else None
  }

  function StatusAfter(before: Status, inp: PassInput, scale: ScaleDecision, rows: map<string, Row>): Status {
    Status(rows,
           if scale.scaledUp then Some(inp.now) else before.lastScaleUp,
           if scale.scaledDown then Some(inp.now) else before.lastScaleDown,
           NextDemandFree(before.demandFreeSince, DemandRead(inp), inp.now),
           exists n :: n in rows && rows[n].phase == Ready)
  }

  /** A pass on record. `seen` is the first discovery, `rows` the discovery the rest of the pass
      works on, `marked` those rows after the membership drains, `replaced` and `removed` the
      rows whose cells are deleted, and `reaped` the Nodes deleted while discovering. */
  datatype Pass = Pass(
    before: Status,
    input: PassInput,
    seen: map<string, Row>,
    cells: seq<Row>,
    idle: seq<string>,
    scale: ScaleDecision,
    plan: MembershipPlan,
    rows: map<string, Row>,
    marked: map<string, Row>,
    markedCells: seq<Row>,
    replaced: set<string>,
    rollout: RolloutDecision,
    removed: set<string>,
    reaped: set<string>,
    after: Status)

  ghost predicate Discovers(p: Pass) {
    var inp, spec := p.input, p.input.spec;
    && p.seen == RowsAfter(spec, p.before.rows, inp.first, inp.reachable, inp.now)
    && Lists(p.cells, p.seen)
    && p.idle == (if NeedsIdleness(spec) && inp.reachable then IdleNames(p.cells, inp.allocations) else [])
  }

  ghost predicate Scales(p: Pass) {
    p.scale == DecideScale(ScaleFor(p.before, p.input, p.cells, p.idle))
  }

  ghost predicate Plans(p: Pass) {
    p.plan == Plan(MembershipFor(p.before, p.input, p.cells, p.scale))
  }

  ghost predicate Rediscovers(p: Pass) {
    var inp, spec := p.input, p.input.spec;
    && p.rows == (if p.plan.create == [] then p.seen
                  else RowsAfter(spec, p.before.rows, inp.second, inp.reachable, inp.now))
    && p.reaped == ReapedNodes(spec, p.before.rows, inp.first, inp.reachable, inp.now)
                   + (if p.plan.create == [] then {}
                      else ReapedNodes(spec, p.before.rows, inp.second, inp.reachable, inp.now))
  }

  ghost predicate Marks(p: Pass) {
    && p.marked == MarkDraining(p.rows, NameSet(p.plan.drain), p.input.now)
    && Lists(p.markedCells, p.marked)
    && p.replaced == ToReplace(p.marked, p.input)
  }

  ghost predicate RollsOut(p: Pass) {
    p.rollout == RolloutPlan(RolloutFor(p.input, p.markedCells, p.idle, p.scale, p.plan))
  }

  /** The rows as the drain loop finds them. */
  function Drained(p: Pass): map<string, Row> {
    MarkDraining(p.marked, AsSet(p.rollout.drain), p.input.now)
  }

  ghost predicate Finishes(p: Pass) {
    && p.removed == ToRemove(Drained(p), p.input)
    && p.after == StatusAfter(p.before, p.input, p.scale, AfterDrains(Drained(p), p.input))
  }

  /** The pass in the order the reconciler runs it. */
  ghost predicate Legal(p: Pass) {
    Discovers(p) && Scales(p) && Plans(p) && Rediscovers(p) && Marks(p) && RollsOut(p) && Finishes(p)
  }

  /** The reads behind the rows the pass keeps. */
  function Kept(p: Pass): Reads {
    if p.plan.create == [] then p.input.first else p.input.second
  }

  /** The guests that deleting the named rows deletes: the ones their indexes name. */
  function GuestsOf(rows: map<string, Row>, names: set<string>, pool: string): set<string> {
    set n | n in names && n in rows :: Name(pool, rows[n].index)
  }

  /** The guests a pass deletes. */
  function DeletedGuests(p: Pass): set<string> {
    GuestsOf(p.rows, p.replaced + p.removed, p.input.spec.pool)
  }

  /** The cells a pass starts draining. */
  function Started(p: Pass): set<string> {
    NameSet(p.plan.drain) + AsSet(p.rollout.drain)
  }

  // ----- counting listed rows

  function NamesWith(cells: seq<Row>, f: Row -> bool): set<string> {
    set c | c in cells && f(c) :: c.name
  }

  function RowsWith(rows: map<string, Row>, f: Row -> bool): set<string> {
    set n | n in rows && f(rows[n])
  }

  lemma LastNameIsNew(cells: seq<Row>)
    requires DistinctNames(cells) && cells != []
    ensures forall c :: c in cells[..|cells| - 1] ==> c.name != cells[|cells| - 1].name
  {
    forall c | c in cells[..|cells| - 1] ensures c.name != cells[|cells| - 1].name {
      var i :| 0 <= i < |cells| - 1 && cells[i] == c;
    }
  }

  lemma NamesNext(front: seq<Row>, last: Row, f: Row -> bool)
    ensures NamesWith(front + [last], f) == NamesWith(front, f) + if f(last) then {last.name} else {}
  {
    assert forall c :: c in front + [last] <==> c in front || c == last;
  }

  lemma {:induction false} NamedCount(cells: seq<Row>, f: Row -> bool)
    requires DistinctNames(cells)
    ensures CountIf(cells, f) == |NamesWith(cells, f)|
  {
    if cells == [] {
      assert NamesWith(cells, f) == {};
    } else {
      var front, last := cells[..|cells| - 1], cells[|cells| - 1];
      NamedCount(front, f);
      LastNameIsNew(cells);
      assert cells == front + [last];
      NamesNext(front, last, f);
    }
  }

  /** Counting listed rows counts the rows. */
  lemma ListedCount(cells: seq<Row>, rows: map<string, Row>, f: Row -> bool)
    requires Lists(cells, rows)
    ensures CountIf(cells, f) == |RowsWith(rows, f)|
  {
    NamedCount(cells, f);
    forall n | n in RowsWith(rows, f) ensures n in NamesWith(cells, f) {
      assert rows[n] in cells;
    }
    assert NamesWith(cells, f) == RowsWith(rows, f);
  }

  // ----- the shape of every pass

  lemma {:induction false} HighDrainOnlyRemovable(order: seq<int>, cells: seq<Row>, removable: set<string>, want: int)
    ensures forall n :: n in HighDrain(order, cells, removable, want) ==> n in removable
    decreases order
  {
    if order != [] && want > 0 {
      var batch := TakeIndex(cells, order[0], removable);
      TakeIndexSound(cells, order[0], removable);
      HighDrainOnlyRemovable(order[1..], cells, removable - NameSet(batch), want - |batch|);
    }
  }

  lemma DrainOnlyRemovable(cells: seq<Row>, pref: seq<string>, want: int)
    ensures forall n :: n in DrainPlan(cells, pref, want) ==> n in RemovableNames(cells)
  {
    DrainsWithin(cells, DownwardOrder(cells), RemovableNames(cells), pref, want);
  }

  lemma DrainsWithin(cells: seq<Row>, order: seq<int>, removable: set<string>, pref: seq<string>, want: int)
    ensures forall n :: n in DrainFrom(cells, order, removable, pref, want) ==> n in removable
  {
    var first := PreferredDrain(pref, removable, want);
    PreferredDrainExact(pref, removable, want);
    HighDrainOnlyRemovable(order, cells, removable - NameSet(first), want - |first|);
    forall n | n in first ensures n in removable {
      assert n in NameSet(first);
    }
  }

  /** A plan drains only in a reachable pass that creates nothing, and only removable cells. */
  lemma PlanDrainsRemovable(m: MembershipInput)
    ensures Plan(m).drain != [] ==> m.reachable && Plan(m).create == []
    ensures forall n :: n in Plan(m).drain ==> n in RemovableNames(m.cells)
  {
    if m.desired < LiveCount(m.cells) && m.reachable {
      DrainOnlyRemovable(m.cells, m.drainPreference, LiveCount(m.cells) - m.desired);
    } else {
      assert Plan(m).drain == [];
    }
  }

  lemma ListedRow(cells: seq<Row>, rows: map<string, Row>, n: string)
    requires Lists(cells, rows) && n in RemovableNames(cells)
    ensures n in rows && CanRemove(rows[n])
  {
    var c :| c in cells && CanRemove(c) && c.name == n;
  }

  /** A membership drain starts only in a reachable pass that creates nothing, on cells that are
      neither failed nor leaving. */
  lemma DrainsAreRemovable(p: Pass)
    requires Discovers(p) && Plans(p) && Rediscovers(p)
    ensures p.plan.drain != [] ==> p.input.reachable && p.plan.create == [] && p.rows == p.seen
    ensures forall n :: n in p.plan.drain ==> n in p.rows && CanRemove(p.rows[n])
  {
    var m := MembershipFor(p.before, p.input, p.cells, p.scale);
    PlanDrainsRemovable(m);
    forall n | n in p.plan.drain ensures n in p.rows && CanRemove(p.rows[n]) {
      ListedRow(p.cells, p.seen, n);
    }
  }

  lemma {:induction false} IdleNamesExact(cells: seq<Row>, allocations: map<string, Allocations>)
    ensures forall n :: n in IdleNames(cells, allocations) <==> exists c :: c in cells && IsIdle(c, allocations) && c.name == n
  {
    if cells != [] {
      var front, last := cells[..|cells| - 1], cells[|cells| - 1];
      IdleNamesExact(front, allocations);
      assert cells == front + [last];
      forall n ensures n in IdleNames(cells, allocations) <==> exists c :: c in cells && IsIdle(c, allocations) && c.name == n {
        if n in IdleNames(front, allocations) {
          var c :| c in front && IsIdle(c, allocations) && c.name == n;
          assert c in cells;
        } else if n in IdleNames(cells, allocations) {
          assert last in cells;
        }
      }
    }
  }

  lemma IdleRow(p: Pass, n: string)
    requires Discovers(p) && n in p.idle
    ensures p.input.reachable && n in p.seen && IsIdle(p.seen[n], p.input.allocations)
  {
    IdleNamesExact(p.cells, p.input.allocations);
    var c :| c in p.cells && IsIdle(c, p.input.allocations) && c.name == n;
  }

  /** A rollout decision on listed rows: every row is settled and the victim is a stale row. */
  lemma RolloutOnRows(r: RolloutInput, rows: map<string, Row>)
    requires Lists(r.cells, rows) && RolloutPlan(r).drain.Some?
    ensures r.rolling && r.reachable && r.atDesiredSize
    ensures forall n :: n in rows ==> !MidFlight(rows[n])
    ensures var n := RolloutPlan(r).drain.value; n in r.idleCells && n in rows && Stale(rows[n], r.desiredHash)
  {
    RolloutStartsExactlyWhen(r);
    var s :| s in r.cells && Stale(s, r.desiredHash) && s.name == RolloutPlan(r).drain.value;
  }

  lemma NoDrainNoMark(rows: map<string, Row>, now: int)
    ensures MarkDraining(rows, {}, now) == rows
  {
  }

  /** A rollout drain starts only when every row is settled, on a stale Ready cell whose
      allocations were read as empty this pass, and only in a pass that neither creates nor
      drains for size. */
  lemma RolloutShape(p: Pass)
    requires Discovers(p) && Plans(p) && Rediscovers(p) && Marks(p) && RollsOut(p)
    requires p.rollout.drain.Some?
    ensures p.input.reachable && p.input.spec.rolling
    ensures p.plan.create == [] && p.plan.drain == [] && p.marked == p.rows == p.seen
    ensures forall n :: n in p.rows ==> p.rows[n].phase in {Ready, Failed, Unset}
    ensures var n := p.rollout.drain.value;
            && n in p.rows && p.rows[n].phase == Ready
            && Stale(p.rows[n], p.input.spec.templateHash)
            && IsIdle(p.rows[n], p.input.allocations)
  {
    RolloutOnRows(RolloutFor(p.input, p.markedCells, p.idle, p.scale, p.plan), p.marked);
    NothingElseStarted(p);
    IdleRow(p, p.rollout.drain.value);
  }

  lemma NothingElseStarted(p: Pass)
    requires Discovers(p) && Plans(p) && Rediscovers(p)
    requires p.marked == MarkDraining(p.rows, NameSet(p.plan.drain), p.input.now)
    requires p.plan.create == [] && forall n :: n in p.marked ==> !MidFlight(p.marked[n])
    ensures p.plan.drain == [] && p.marked == p.rows == p.seen
  {
    DrainsAreRemovable(p);
    if p.plan.drain != [] {
      SomeRowDrains(p.rows, p.plan.drain, p.input.now);
    }
    EmptyNames();
    NoDrainNoMark(p.rows, p.input.now);
  }

  lemma SomeRowDrains(rows: map<string, Row>, drain: seq<string>, now: int)
    requires drain != [] && drain[0] in rows
    ensures exists n :: n in MarkDraining(rows, NameSet(drain), now)
                        && MidFlight(MarkDraining(rows, NameSet(drain), now)[n])
  {
    var marked := MarkDraining(rows, NameSet(drain), now);
    assert drain[0] in NameSet(drain);
    assert MidFlight(marked[drain[0]]);
  }

  /** No pass does more than one of creating, draining for size and draining for a rollout, and
      a rollout drains one cell. */
  lemma OneKindOfChange(p: Pass)
    requires Legal(p)
    ensures p.plan.create != [] ==> p.plan.drain == [] && p.rollout.drain.None?
    ensures p.plan.drain != [] ==> p.plan.create == [] && p.rollout.drain.None?
    ensures p.rollout.drain.Some? ==> Started(p) == {p.rollout.drain.value}
  {
    DrainsAreRemovable(p);
    EmptyNames();
    if p.rollout.drain.Some? {
      RolloutShape(p);
    }
  }

  /** From the discovered row to the written one: the started drains change phase and time, a
      draining row's reason is refreshed, and nothing else moves. */
  predicate Written(p: Pass) {
    && p.after.rows.Keys == p.rows.Keys
    && (forall n :: n in Started(p) ==> n in p.rows && CanRemove(p.rows[n]))
    && (forall n :: n in p.rows ==>
          var r := if n in Started(p) then p.rows[n].(phase := Draining, since := Some(p.input.now)) else p.rows[n];
          p.after.rows[n] == if r.phase == Draining then r.(reason := p.after.rows[n].reason) else r)
  }

  lemma RowsAreWritten(p: Pass)
    requires Legal(p)
    ensures Written(p)
  {
    DrainsAreRemovable(p);
    StartedIsRemovable(p);
    RowsAreMarked(p.rows, p.marked, Drained(p), p.after.rows, NameSet(p.plan.drain), AsSet(p.rollout.drain), p.input);
  }

  lemma StartedIsRemovable(p: Pass)
    requires Discovers(p) && Plans(p) && Rediscovers(p) && Marks(p) && RollsOut(p)
    ensures forall n :: n in Started(p) ==> n in p.rows && CanRemove(p.rows[n])
  {
    DrainsAreRemovable(p);
    if p.rollout.drain.Some? {
      RolloutVictim(p);
    }
    NamesRemovable(p.rows, p.plan.drain, p.rollout.drain);
  }

  lemma RolloutVictim(p: Pass)
    requires Discovers(p) && Plans(p) && Rediscovers(p) && Marks(p) && RollsOut(p) && p.rollout.drain.Some?
    ensures p.rollout.drain.value in p.rows && CanRemove(p.rows[p.rollout.drain.value])
  {
    RolloutShape(p);
  }

  lemma NamesRemovable(rows: map<string, Row>, some: seq<string>, one: Option<string>)
    requires forall n :: n in some ==> n in rows && CanRemove(rows[n])
    requires one.Some? ==> one.value in rows && CanRemove(rows[one.value])
    ensures forall n :: n in NameSet(some) + AsSet(one) ==> n in rows && CanRemove(rows[n])
  {
  }

  lemma RowsAreMarked(rows: map<string, Row>, marked: map<string, Row>, drained: map<string, Row>, after: map<string, Row>,
                      a: set<string>, b: set<string>, inp: PassInput)
    requires marked == MarkDraining(rows, a, inp.now) && drained == MarkDraining(marked, b, inp.now)
    requires after == AfterDrains(drained, inp)
    ensures after.Keys == rows.Keys
    ensures forall n :: n in rows ==>
              var r := if n in a + b then rows[n].(phase := Draining, since := Some(inp.now)) else rows[n];
              after[n] == if r.phase == Draining then r.(reason := after[n].reason) else r
  {
  }
}
