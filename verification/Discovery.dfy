/** How a pass rebuilds the pool's rows from both clusters and from the rows it wrote before. */
module Discovery {
  import opened CellTypes
  import opened CellId
  import opened Fsm
  import opened Scaling

  const DEFAULT_BOOTSTRAP_TIMEOUT: int := 900
  const DEFAULT_CAPACITY_TIMEOUT: int := 300
  const DEFAULT_DRAIN_TIMEOUT: int := 600

  /** The parts of the pool's spec a pass reads. */
  datatype Spec = Spec(
    pool: string,
    replicas: int,
    autoscaling: Option<Autoscaling>,
    rolling: bool,
    templateHash: string,
    expectedDevices: int,
    bootstrapTimeout: Option<int>,
    capacityTimeout: Option<int>,
    force: bool,
    drainTimeout: Option<int>)

  function DurationOr(d: Option<int>, fallback: int): int {
    if d.None? || d.value == 0 then fallback else d.value
  }

  /** What the reads about one listed cell return: the outer state of the guest its index names, and by
      its own name its Node and the provider's
      health and device count for that Node (absent when the read failed). */
  datatype GuestReading = GuestReading(
    outer: OuterState,
    node: NodeState,
    health: Option<bool>,
    devices: Option<int>)

  /** One discovery's reads: the listed guests, what was seen of each, and the liveness of every
      Node carrying the pool's label (absent when the list failed). */
  datatype Reads = Reads(
    listed: seq<string>,
    seen: map<string, GuestReading>,
    poolNodes: Option<map<string, bool>>)

  function Previous(rows: map<string, Row>, name: string): Row {
    if name in rows then rows[name] else BLANK_ROW
  }

  /** A row of another incarnation lends nothing but its failure count. */
  function Inherit(prev: Row, uid: string): Row {
    if prev.uid != "" && uid != "" && prev.uid != uid then
      BLANK_ROW.(name := prev.name, index := prev.index, failureCount := prev.failureCount)
    else prev
  }

  predicate IsStaleNode(instance: Option<string>, want: string) {
    instance.Some? && instance.value != "" && want != "" && instance.value != want
  }

  function Observe(spec: Spec, prev: Row, g: GuestReading, reachable: bool, now: int): Observation {
    var node := if reachable then g.node else NO_NODE;
    var asked := reachable && node.present && node.ready;
    Observation(
      if prev.phase == Unset then Pending else prev.phase,
      if prev.since.Some? then prev.since.value else now,
      now,
      g.outer,
      reachable,
      node,
      node.present && !node.kubeletLive && IsStaleNode(node.instance, g.outer.uid),
      asked && g.health == Some(true),
      if asked && g.devices.Some? then g.devices.value else 0,
      spec.expectedDevices,
      DurationOr(spec.bootstrapTimeout, DEFAULT_BOOTSTRAP_TIMEOUT),
      DurationOr(spec.capacityTimeout, DEFAULT_CAPACITY_TIMEOUT))
  }

  /** Folds a decision into the row, carrying failure count, transition time and latch forward. */
  function CellStatus(prev: Row, name: string, index: int, g: GuestReading, obs: Observation, dec: Decision, now: int): Row {
    var moved := prev.phase != dec.phase || prev.since.None?;
    Row(
      name,
      index,
      dec.phase,
      g.outer.uid,
      g.outer.hash,
      if obs.node.present then name else "",
      obs.node.ready,
      obs.capacityDevices,
      if dec.phase == prev.phase && dec.reason == NoReason then prev.reason else dec.reason,
      prev.failureCount + (if moved && dec.phase == Failed && prev.phase != Failed then 1 else 0),
      prev.readyOnce || dec.phase == Ready,
      if moved then Some(now) else prev.since)
  }

  /** The row a pass writes for a guest it saw. */
  function SeenRow(spec: Spec, rows: map<string, Row>, name: string, index: int, g: GuestReading,
                   reachable: bool, now: int): Row
  {
    var prev := Inherit(Previous(rows, name), g.outer.uid);
    var obs := Observe(spec, prev, g, reachable, now);
    CellStatus(prev, name, index, g, obs, AdvanceCell(obs), now)
  }

  /** What survives of a failed row whose guest is gone. */
  function Tombstone(row: Row): Row {
    row.(uid := "", nodeName := "", capacityDevices := 0)
  }

  predicate KeepsTombstone(spec: Spec, row: Row) {
    row.phase == Failed && row.index < spec.replicas
  }

  /** The listed guests that are cells of this pool. */
  function Cells(spec: Spec, d: Reads): set<string> {
    set n | n in d.listed && n in d.seen && ParseIndex(spec.pool, n).Some?
  }

  function Tombstones(spec: Spec, rows: map<string, Row>, d: Reads): set<string> {
    set n | n in rows && n !in Cells(spec, d) && KeepsTombstone(spec, rows[n])
  }

  /** The rows after discovery: one per cell seen, and the tombstones of failed indexes below
      the replica count. */
  function RowsAfter(spec: Spec, rows: map<string, Row>, d: Reads, reachable: bool, now: int): map<string, Row> {
    map n | n in Cells(spec, d) + Tombstones(spec, rows, d) ::
      if n in Cells(spec, d) then
        SeenRow(spec, rows, n, ParseIndex(spec.pool, n).value, d.seen[n], reachable, now)
      else Tombstone(rows[n])
  }

  /** Object names are unique, and every listed guest was ensured and observed. */
  predicate WellListed(d: Reads) {
    && (forall i, j :: 0 <= i < j < |d.listed| ==> d.listed[i] != d.listed[j])
    && (forall n :: n in d.listed ==> n in d.seen)
  }

  predicate ReapsStale(spec: Spec, rows: map<string, Row>, d: Reads, now: int, n: string)
    requires n in Cells(spec, d)
  {
    AdvanceCell(Observe(spec, Inherit(Previous(rows, n), d.seen[n].outer.uid), d.seen[n], true, now)).reapStaleNode
  }

  /** The Nodes discovery deletes: stale ones of seen cells, and cold pool Nodes with no row. */
  function ReapedNodes(spec: Spec, rows: map<string, Row>, d: Reads, reachable: bool, now: int): set<string> {
    if !reachable then {}
    else
      (set n | n in Cells(spec, d) && ReapsStale(spec, rows, d, now, n))
      + (if d.poolNodes.None? then {}
         else set n | n in d.poolNodes.value && n !in RowsAfter(spec, rows, d, reachable, now) && !d.poolNodes.value[n])
  }

  /** `cells` lists the rows in index order. */
  ghost predicate Lists(cells: seq<Row>, rows: map<string, Row>) {
    && (forall i, j :: 0 <= i < j < |cells| ==> cells[i].index <= cells[j].index)
    && DistinctNames(cells)
    && (forall c :: c in cells ==> c.name in rows && rows[c.name] == c)
    && (forall n :: n in rows ==> rows[n] in cells && rows[n].name == n)
  }

  // ----- one row across one discovery

  /** What a pass remembers about a cell is well formed. */
  predicate RowOk(spec: Spec, n: string, r: Row) {
    && r.name == n
    && r.phase != Unset
    && r.since.Some?
    && (r.phase == Failed ==> r.failureCount >= 1)
    && (r.phase != Failed ==> r.uid != "")
    && r.failureCount >= 0
    && ParseIndex(spec.pool, n) == Some(r.index)
  }

  predicate RowsOk(spec: Spec, rows: map<string, Row>) {
    forall n :: n in rows ==> RowOk(spec, n, rows[n])
  }

  /** Observing a listed cell asks for the guest its index names, creating it if need be, and so finds
      one with a UID. */
  predicate ReadsOk(spec: Spec, d: Reads) {
    forall n :: n in Cells(spec, d) ==>
      d.seen[n].outer.uid != "" && d.seen[n].outer.name == Name(spec.pool, ParseIndex(spec.pool, n).value)
  }

  lemma SeenRowOk(spec: Spec, rows: map<string, Row>, n: string, index: int, g: GuestReading, reachable: bool, now: int)
    requires n in rows ==> RowOk(spec, n, rows[n])
    requires g.outer.uid != "" && ParseIndex(spec.pool, n) == Some(index)
    ensures RowOk(spec, n, SeenRow(spec, rows, n, index, g, reachable, now))
  {
  }

  lemma DiscoveryKeepsRowsOk(spec: Spec, rows: map<string, Row>, d: Reads, reachable: bool, now: int)
    requires RowsOk(spec, rows) && ReadsOk(spec, d)
    ensures RowsOk(spec, RowsAfter(spec, rows, d, reachable, now))
  {
    var after := RowsAfter(spec, rows, d, reachable, now);
    forall n | n in after ensures RowOk(spec, n, after[n]) {
      if n in Cells(spec, d) {
        SeenRowOk(spec, rows, n, ParseIndex(spec.pool, n).value, d.seen[n], reachable, now);
      } else {
        assert RowOk(spec, n, rows[n]);
      }
    }
  }

  /** Accounting of failures: on a row that survives a discovery the count rises by exactly one
      when the cell enters Failed, and otherwise stands, whatever guest is behind the name. */
  lemma FailureCountConserved(spec: Spec, rows: map<string, Row>, d: Reads, reachable: bool, now: int, n: string)
    requires n in rows && RowOk(spec, n, rows[n])
    ensures var after := RowsAfter(spec, rows, d, reachable, now);
            && (n in after ==>
                  var entered := after[n].phase == Failed
                                 && (rows[n].phase != Failed || (n in Cells(spec, d) && rows[n].uid != ""
                                       && d.seen[n].outer.uid != "" && rows[n].uid != d.seen[n].outer.uid));
                  after[n].failureCount == rows[n].failureCount + (if entered then 1 else 0))
            && (n !in after <==> n !in Cells(spec, d) && !(rows[n].phase == Failed && rows[n].index < spec.replicas))
  {
  }

  /** A guest created for a failed index starts clean if and only if the row still records the
      UID of the guest it replaces. A tombstone written back without one lends Failed, with its
      old transition time, to its successor. */
  lemma SuccessorStartsClean(spec: Spec, rows: map<string, Row>, d: Reads, reachable: bool, now: int, n: string)
    requires n in rows && RowOk(spec, n, rows[n]) && rows[n].phase == Failed
    requires n in Cells(spec, d) && d.seen[n].outer.uid != "" && d.seen[n].outer.uid != rows[n].uid
    requires !d.seen[n].outer.failed
    ensures var after := RowsAfter(spec, rows, d, reachable, now);
            && n in after
            && (after[n].phase != Failed <==> rows[n].uid != "")
            && after[n].failureCount == rows[n].failureCount
            && (rows[n].uid == "" ==> after[n].since == rows[n].since)
            && (rows[n].uid != "" ==> after[n].since == Some(now))
  {
  }

  /** One discovery: a row either keeps phase and time, or enters its phase now. */
  lemma DiscoveredMovesOrHolds(spec: Spec, rows: map<string, Row>, d: Reads, reachable: bool, now: int, n: string)
    requires n in RowsAfter(spec, rows, d, reachable, now)
    requires n in rows ==> RowOk(spec, n, rows[n])
    ensures var r := RowsAfter(spec, rows, d, reachable, now)[n];
            || (n in rows && rows[n].phase == r.phase && rows[n].since == r.since)
            || (r.since == Some(now)
                && (n in rows ==> rows[n].phase != r.phase
                                  || (n in Cells(spec, d) && rows[n].uid != "" && rows[n].uid != d.seen[n].outer.uid)))
  {
  }
}
