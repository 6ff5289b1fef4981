/** The Nodes over whole runs: which ones a pass reaps, what it leaves behind, and what the next pass
    makes of it. */
module NodePasses {
  import opened CellTypes
  import opened Discovery
  import opened Passes
  import opened Runs
  import opened RunTheorems
  import opened Nodes

  /** The workload cluster as the pass read it: at its first discovery, and again after a creation. */
  datatype Snapshots = Snapshots(first: map<string, Node>, second: map<string, Node>, declared: Metadata)

  predicate ReadIn(p: Pass, s: Snapshots) {
    && ReadsFrom(s.first, p.input.spec, p.before.rows, p.input.first, s.declared, p.input.now)
    && (p.plan.create != [] ==> ReadsFrom(s.second, p.input.spec, p.before.rows, p.input.second, s.declared, p.input.now))
  }

  /** A Node that a pass of any run reaps was read by it as silent for at least the grace of its
      heartbeat's source, if and only if its Lease is not one that was never renewed. */
  lemma PassReapsOnlySilent(pool: string, run: seq<Pass>, k: nat, s: Snapshots, n: string) returns (node: Node)
    requires Run(pool, run) && k < |run| && ReadIn(run[k], s) && n in run[k].reaped
    ensures (n in s.first && node == s.first[n]) || (run[k].plan.create != [] && n in s.second && node == s.second[n])
    ensures Silent(node, run[k].input.now) <==> !node.lease.NeverHeld?
  {
    LegalAt(run, k);
    node := ReapsOnlyCold(run[k], s, n);
  }

  lemma ReapsOnlyCold(p: Pass, s: Snapshots, n: string) returns (node: Node)
    requires Rediscovers(p) && ReadIn(p, s) && n in p.reaped
    ensures (n in s.first && node == s.first[n]) || (p.plan.create != [] && n in s.second && node == s.second[n])
    ensures Cold(node, p.input.now)
  {
    assert p.input.reachable;
    ReapedWereCold(s.first, p.input.spec, p.before.rows, p.input.first, s.declared, p.input.now);
    if p.plan.create != [] {
      ReapedWereCold(s.second, p.input.spec, p.before.rows, p.input.second, s.declared, p.input.now);
    }
    node := if n in s.first && Cold(s.first[n], p.input.now) then s.first[n] else s.second[n];
  }

  // ----- a live cell's Node

  /** The Node of the cell, if there is one, does not name another guest. */
  predicate Ours(nodes: map<string, Node>, n: string, uid: string) {
    n in nodes ==> !IsStaleNode(Instance(nodes[n]), uid)
  }

  /** Nobody has written the guest label in between: a Node that carries one carries the one that was
      there. The Node itself may go, come back without a label, and fall silent. */
  predicate LabelKept(before: map<string, Node>, after: map<string, Node>, n: string) {
    n in after && Instance(after[n]).Some? ==> n in before && Instance(after[n]) == Instance(before[n])
  }

  lemma OursStays(before: map<string, Node>, after: map<string, Node>, n: string, uid: string)
    requires Ours(before, n, uid) && LabelKept(before, after, n)
    ensures Ours(after, n, uid)
  {
  }

  /** The discovery sees the guest behind the cell. */
  predicate SeesGuest(spec: Spec, d: Reads, n: string, uid: string) {
    ReadsOk(spec, d) && n in Cells(spec, d) && d.seen[n].outer.uid == uid
  }

  /** A discovery that sees the guest spares a Node that is alive or does not name another guest, and
      leaves it labelled with the guest. */
  lemma Spared(nodes: map<string, Node>, spec: Spec, rows: map<string, Row>, d: Reads, declared: Metadata, now: int, n: string, uid: string)
    requires ReadsFrom(nodes, spec, rows, d, declared, now) && SeesGuest(spec, d, n, uid)
    requires Ours(nodes, n, uid) || (n in nodes && !Cold(nodes[n], now))
    ensures n !in ReapedNodes(spec, rows, d, true, now)
    ensures var after := NodesAfter(nodes, spec, rows, d, declared, now);
            Ours(after, n, uid) && (n in nodes ==> n in after && Instance(after[n]) == Some(uid))
  {
    NotReaped(nodes, spec, rows, d, now, n, uid);
    NotTakenAway(spec, rows, d, now, n);
    if n in nodes {
      Labelled(nodes, spec, rows, d, declared, now, n, uid);
    }
  }

  lemma NotTakenAway(spec: Spec, rows: map<string, Row>, d: Reads, now: int, n: string)
    requires n in Cells(spec, d) && !ReapsStale(spec, rows, d, now, n)
    ensures n !in ReapedNodes(spec, rows, d, true, now)
  {
    assert n in RowsAfter(spec, rows, d, true, now);
  }

  lemma NotReaped(nodes: map<string, Node>, spec: Spec, rows: map<string, Row>, d: Reads, now: int, n: string, uid: string)
    requires CellsReadFrom(nodes, spec, d, now) && SeesGuest(spec, d, n, uid)
    requires n in nodes ==> !StaleFor(nodes[n], uid, now)
    ensures !ReapsStale(spec, rows, d, now, n)
  {
    if ReapsStale(spec, rows, d, now, n) {
      ReapIsStale(nodes, spec, rows, d, now, n);
    }
  }

  lemma Labelled(nodes: map<string, Node>, spec: Spec, rows: map<string, Row>, d: Reads, declared: Metadata, now: int, n: string, uid: string)
    requires SeesGuest(spec, d, n, uid) && !ReapsStale(spec, rows, d, now, n) && n in nodes && !StaleFor(nodes[n], uid, now)
    ensures var after := NodesAfter(nodes, spec, rows, d, declared, now);
            n in after && Instance(after[n]) == Some(uid)
  {
    ClaimIsNotStale(nodes[n], spec, n, uid, declared);
    var tended := TendedNodes(nodes, spec, rows, d, declared, now, Cells(spec, d));
    assert n in tended && tended[n] == Claimed(nodes[n], CellMetadata(spec, n, uid, declared));
    assert n in RowsAfter(spec, rows, d, true, now);
  }

  /** The Nodes after the pass's first discovery. */
  function AfterFirst(p: Pass, s: Snapshots): map<string, Node> {
    NodesAfter(s.first, p.input.spec, p.before.rows, p.input.first, s.declared, p.input.now)
  }

  /** The Nodes as the pass leaves them; one that cannot reach the workload cluster leaves them alone. */
  function Left(p: Pass, s: Snapshots): map<string, Node> {
    if !p.input.reachable then s.first
    else if p.plan.create == [] then AfterFirst(p, s)
    else NodesAfter(s.second, p.input.spec, p.before.rows, p.input.second, s.declared, p.input.now)
  }

  /** Every discovery of the pass reads the cluster and sees the guest, and nobody else writes the label
      between the two. */
  predicate GuestStays(p: Pass, s: Snapshots, n: string, uid: string) {
    p.input.reachable ==>
      && ReadIn(p, s) && SeesGuest(p.input.spec, p.input.first, n, uid)
      && (p.plan.create != [] ==> SeesGuest(p.input.spec, p.input.second, n, uid) && LabelKept(AfterFirst(p, s), s.second, n))
  }

  /** The pass does not reap the Node, and leaves it labelled with the guest if it last found it. */
  predicate Spares(p: Pass, s: Snapshots, n: string, uid: string) {
    && n !in p.reaped && Ours(Left(p, s), n, uid)
    && (p.input.reachable && (if p.plan.create == [] then n in s.first else n in s.second) ==>
          n in Left(p, s) && Instance(Left(p, s)[n]) == Some(uid))
  }

  lemma SparedByPass(p: Pass, s: Snapshots, n: string, uid: string)
    requires Rediscovers(p) && GuestStays(p, s, n, uid)
    requires Ours(s.first, n, uid) || (p.input.reachable && n in s.first && !Cold(s.first[n], p.input.now))
    ensures Spares(p, s, n, uid)
  {
    if p.input.reachable {
      Spared(s.first, p.input.spec, p.before.rows, p.input.first, s.declared, p.input.now, n, uid);
      if p.plan.create != [] {
        OursStays(AfterFirst(p, s), s.second, n, uid);
        Spared(s.second, p.input.spec, p.before.rows, p.input.second, s.declared, p.input.now, n, uid);
      }
    }
  }

  /** From pass `a` to pass `b` the cell keeps its guest, and nobody but the operator writes the guest
      label of its Node: `ss[i]` are the Nodes that pass i reads. */
  predicate Undisturbed(run: seq<Pass>, ss: seq<Snapshots>, a: nat, b: nat, n: string, uid: string) {
    && a <= b < |run| && |ss| == |run|
    && (forall i :: a <= i <= b ==> GuestStays(run[i], ss[i], n, uid))
    && (forall i :: a < i <= b ==> LabelKept(Left(run[i - 1], ss[i - 1]), ss[i].first, n))
  }

  /** Reaping never takes a live cell's Node: once a pass has found it alive, under whatever label, that
      pass and every later one of any run spare it, however silent it becomes, and label it with the
      cell's guest, as long as that guest stays and nobody else rewrites the label. */
  lemma AdoptedNodeSurvives(pool: string, run: seq<Pass>, ss: seq<Snapshots>, a: nat, b: nat, n: string, uid: string)
    requires Run(pool, run) && Undisturbed(run, ss, a, b, n, uid)
    requires run[a].input.reachable && n in ss[a].first && !Cold(ss[a].first[n], run[a].input.now)
    ensures Spares(run[b], ss[b], n, uid)
  {
    forall i | a <= i <= b ensures Carries(run[i], ss[i], n, uid) {
      CarriesAt(pool, run, ss, a, b, i, n, uid);
    }
    CarriedOn(run, ss, a, b, n, uid);
  }

  /** The pass spares the Node if it finds it alive, or not naming another guest. */
  predicate Carries(p: Pass, s: Snapshots, n: string, uid: string) {
    Ours(s.first, n, uid) || (p.input.reachable && n in s.first && !Cold(s.first[n], p.input.now)) ==> Spares(p, s, n, uid)
  }

  lemma CarriesAt(pool: string, run: seq<Pass>, ss: seq<Snapshots>, a: nat, b: nat, i: nat, n: string, uid: string)
    requires Run(pool, run) && Undisturbed(run, ss, a, b, n, uid) && a <= i <= b
    ensures Carries(run[i], ss[i], n, uid)
  {
    LegalAt(run, i);
    CarriedByPass(run[i], ss[i], n, uid);
  }

  lemma CarriedByPass(p: Pass, s: Snapshots, n: string, uid: string)
    requires Rediscovers(p) && GuestStays(p, s, n, uid)
    ensures Carries(p, s, n, uid)
  {
    if Ours(s.first, n, uid) || (p.input.reachable && n in s.first && !Cold(s.first[n], p.input.now)) {
      SparedByPass(p, s, n, uid);
    }
  }

  lemma {:induction false} CarriedOn(run: seq<Pass>, ss: seq<Snapshots>, a: nat, b: nat, n: string, uid: string)
    requires a <= b < |run| == |ss| && forall i :: a <= i <= b ==> Carries(run[i], ss[i], n, uid)
    requires forall i :: a < i <= b ==> LabelKept(Left(run[i - 1], ss[i - 1]), ss[i].first, n)
    requires run[a].input.reachable && n in ss[a].first && !Cold(ss[a].first[n], run[a].input.now)
    ensures Spares(run[b], ss[b], n, uid)
    decreases b
  {
    if b > a {
      CarriedOn(run, ss, a, b - 1, n, uid);
      OursStays(Left(run[b - 1], ss[b - 1]), ss[b].first, n, uid);
    }
  }

  /** The sweep converges: in any run a reachable pass takes away every cold Node that carries the
      pool's label and has no row in it. */
  lemma OrphanIsGone(pool: string, run: seq<Pass>, k: nat, s: Snapshots, n: string)
    requires Run(pool, run) && k < |run| && run[k].input.reachable && ReadIn(run[k], s)
    requires n in s.first && Lookup(s.first[n].labels, PoolLabel) == pool && Cold(s.first[n], run[k].input.now)
    requires n !in run[k].seen
    ensures n in run[k].reaped
    ensures n !in NodesAfter(s.first, run[k].input.spec, run[k].before.rows, run[k].input.first, s.declared, run[k].input.now)
  {
    StepAt(pool, run, k);
    LegalAt(run, k);
    OrphanIsReaped(run[k], s, n);
  }

  lemma OrphanIsReaped(p: Pass, s: Snapshots, n: string)
    requires Discovers(p) && Rediscovers(p) && p.input.reachable && ReadIn(p, s) && n !in p.seen
    requires n in s.first && Lookup(s.first[n].labels, PoolLabel) == p.input.spec.pool && Cold(s.first[n], p.input.now)
    ensures n in p.reaped
    ensures n !in NodesAfter(s.first, p.input.spec, p.before.rows, p.input.first, s.declared, p.input.now)
  {
    var spec, rows, d, now := p.input.spec, p.before.rows, p.input.first, p.input.now;
    assert n !in Cells(spec, d);
    var tended := TendedNodes(s.first, spec, rows, d, s.declared, now, Cells(spec, d));
    assert n in tended && tended[n] == s.first[n];
    assert n in OrphansOf(tended, spec.pool, RowsAfter(spec, rows, d, true, now).Keys, now);
    ReapedAreGone(s.first, spec, rows, d, s.declared, now);
  }

  // ----- a claimed Node whose cell has gone

  /** The Node, if there is one, carries the pool's label. */
  predicate InPool(nodes: map<string, Node>, n: string, pool: string) {
    n in nodes ==> Lookup(nodes[n].labels, PoolLabel) == pool
  }

  /** Nobody has created the Node or written its pool label in between. */
  predicate PoolLabelKept(before: map<string, Node>, after: map<string, Node>, n: string) {
    n in after ==> n in before && Lookup(after[n].labels, PoolLabel) == Lookup(before[n].labels, PoolLabel)
  }

  /** Every discovery keeps a Node of the pool in the pool, and takes in the Node it claims. */
  lemma StaysInPool(nodes: map<string, Node>, spec: Spec, rows: map<string, Row>, d: Reads, declared: Metadata, now: int, n: string)
    requires InPool(nodes, n, spec.pool) || (n in Cells(spec, d) && n in nodes && !StaleFor(nodes[n], d.seen[n].outer.uid, now))
    ensures InPool(NodesAfter(nodes, spec, rows, d, declared, now), n, spec.pool)
  {
    if n in nodes && n in Cells(spec, d) {
      ClaimReads(nodes[n], spec, n, d.seen[n].outer.uid, declared);
    }
    TendedStays(nodes, spec, rows, d, declared, now, n);
  }

  lemma TendedStays(nodes: map<string, Node>, spec: Spec, rows: map<string, Row>, d: Reads, declared: Metadata, now: int, n: string)
    ensures var after := NodesAfter(nodes, spec, rows, d, declared, now);
            n in after ==> n in nodes
                           && after[n] == if n in Cells(spec, d) && !StaleFor(nodes[n], d.seen[n].outer.uid, now)
                                          then Claimed(nodes[n], CellMetadata(spec, n, d.seen[n].outer.uid, declared)) else nodes[n]
  {
  }

  /** The pass finds the Node of a listed cell, and it is alive or does not name another guest: it claims
      it. */
  predicate Claims(p: Pass, s: Snapshots, n: string) {
    && p.input.reachable
    && n in Cells(p.input.spec, p.input.first) && n in s.first
    && !StaleFor(s.first[n], p.input.first.seen[n].outer.uid, p.input.now)
  }

  /** The pass reads the cluster, and nobody else writes the pool label between its discoveries. */
  predicate PoolLabelHeld(p: Pass, s: Snapshots, n: string) {
    p.input.reachable ==> ReadIn(p, s) && (p.plan.create != [] ==> PoolLabelKept(AfterFirst(p, s), s.second, n))
  }

  lemma PassKeepsInPool(p: Pass, s: Snapshots, n: string)
    requires PoolLabelHeld(p, s, n) && (InPool(s.first, n, p.input.spec.pool) || Claims(p, s, n))
    ensures InPool(Left(p, s), n, p.input.spec.pool)
  {
    if p.input.reachable {
      StaysInPool(s.first, p.input.spec, p.before.rows, p.input.first, s.declared, p.input.now, n);
      if p.plan.create != [] {
        StaysInPool(s.second, p.input.spec, p.before.rows, p.input.second, s.declared, p.input.now, n);
      }
    }
  }

  /** From pass `a` to pass `b` nobody but the operator writes the pool label of the Node. */
  predicate PoolLabelOurs(run: seq<Pass>, ss: seq<Snapshots>, a: nat, b: nat, n: string) {
    && a <= b < |run| && |ss| == |run|
    && (forall i :: a <= i <= b ==> PoolLabelHeld(run[i], ss[i], n))
    && (forall i :: a < i <= b ==> PoolLabelKept(Left(run[i - 1], ss[i - 1]), ss[i].first, n))
  }

  predicate KeepsInPool(p: Pass, s: Snapshots, n: string, pool: string) {
    InPool(s.first, n, pool) || Claims(p, s, n) ==> InPool(Left(p, s), n, pool)
  }

  lemma AllKeepInPool(pool: string, run: seq<Pass>, ss: seq<Snapshots>, a: nat, b: nat, n: string)
    requires PoolLabelOurs(run, ss, a, b, n) && forall i :: a <= i <= b ==> run[i].input.spec.pool == pool
    ensures forall i :: a <= i <= b ==> KeepsInPool(run[i], ss[i], n, pool)
  {
    forall i | a <= i <= b ensures KeepsInPool(run[i], ss[i], n, pool) {
      if InPool(ss[i].first, n, pool) || Claims(run[i], ss[i], n) {
        PassKeepsInPool(run[i], ss[i], n);
      }
    }
  }

  lemma {:induction false} StaysClaimed(pool: string, run: seq<Pass>, ss: seq<Snapshots>, a: nat, b: nat, n: string)
    requires a < b < |run| == |ss| && Claims(run[a], ss[a], n) && forall i :: a <= i <= b ==> KeepsInPool(run[i], ss[i], n, pool)
    requires forall i :: a < i <= b ==> PoolLabelKept(Left(run[i - 1], ss[i - 1]), ss[i].first, n)
    ensures InPool(ss[b].first, n, pool)
    decreases b
  {
    if b - 1 > a {
      StaysClaimed(pool, run, ss, a, b - 1, n);
    }
    assert KeepsInPool(run[b - 1], ss[b - 1], n, pool);
  }

  /** The operator clears up after itself: a Node that some pass of any run claimed for a cell is gone
      after the first reachable pass that finds its kubelet dead and no row for it, however many passes
      lie between, as long as nobody else writes its pool label. */
  lemma ClaimedIsSwept(pool: string, run: seq<Pass>, ss: seq<Snapshots>, a: nat, b: nat, n: string)
    requires Run(pool, run) && PoolLabelOurs(run, ss, a, b, n) && a < b && Claims(run[a], ss[a], n)
    requires run[b].input.reachable && n in ss[b].first && Cold(ss[b].first[n], run[b].input.now) && n !in run[b].seen
    ensures n in run[b].reaped && n !in AfterFirst(run[b], ss[b])
  {
    forall i | a <= i <= b ensures run[i].input.spec.pool == pool {
      StepAt(pool, run, i);
    }
    AllKeepInPool(pool, run, ss, a, b, n);
    StaysClaimed(pool, run, ss, a, b, n);
    OrphanIsGone(pool, run, b, ss[b], n);
  }

  // ----- Ready and the Node's own word

  /** The Nodes behind the rows that the pass keeps. */
  function NodesRead(p: Pass, s: Snapshots): map<string, Node> {
    if p.plan.create == [] then s.first else s.second
  }

  /** The Node is there and its first Ready condition is true. */
  ghost predicate SaysReady(nodes: map<string, Node>, n: string) {
    n in nodes && exists i :: ReadyAt(nodes[n].conditions, i) && nodes[n].conditions[i].status
  }

  /** A row that shows Ready goes back to a pass at which the Node itself said so: its first Ready
      condition was true. */
  lemma ReadyNodeSaidSo(pool: string, run: seq<Pass>, ss: seq<Snapshots>, k: nat, n: string) returns (j: nat)
    requires Run(pool, run) && k < |run| == |ss| && n in run[k].after.rows && run[k].after.rows[n].phase == Ready
    requires forall i :: 0 <= i < |run| && run[i].input.reachable ==> ReadIn(run[i], ss[i])
    ensures ReadySince(run, j, k, n) && SaysReady(NodesRead(run[j], ss[j]), n)
  {
    ReadyIsJustified(pool, run, k, n);
    j :| ReadySince(run, j, k, n);
    SeenUpSaysReady(run[j], ss[j], n);
  }

  lemma SeenUpSaysReady(p: Pass, s: Snapshots, n: string)
    requires n in Cells(p.input.spec, Kept(p)) && SeenUp(p, n) && ReadIn(p, s)
    ensures SaysReady(NodesRead(p, s), n)
  {
    var nodes := NodesRead(p, s);
    assert Kept(p).seen[n].node == StateOf(nodes, n, p.input.now);
    ReadyExactlyWhen(nodes[n].conditions);
  }
}
