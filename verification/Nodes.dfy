/** Workload Nodes: when a kubelet counts as alive, how a Node is claimed for its cell, and which
    Nodes may be deleted. */
module Nodes {
  import opened CellTypes
  import opened CellId
  import Decimal
  import opened Fsm
  import opened Discovery

  const LEASE_GRACE: int := 90
  const NODE_STATUS_GRACE: int := 360

  /** Label keys: the identity labels, and everyone else's. */
  datatype Key = PoolLabel | CellLabel | CellIndexLabel | InstanceLabel | Foreign(text: string)

  datatype Taint = Taint(key: string, effect: string, value: string)

  /** What reading the kubelet's Lease returned. */
  datatype Lease = Renewed(at: int) | NeverHeld | Unavailable

  /** `isReady` tells the Ready condition from the others; `status` is its verdict. */
  datatype Condition = Condition(isReady: bool, status: bool, heartbeat: Option<int>)

  datatype Node = Node(
    labels: map<Key, string>,
    annotations: map<string, string>,
    taints: seq<Taint>,
    cordoned: bool,
    lease: Lease,
    conditions: seq<Condition>)

  // ----- liveness

  /** The heartbeat in the first Ready condition that carries one. */
  function StatusHeartbeat(conditions: seq<Condition>): Option<int> {
    if conditions == [] then None
    else if conditions[0].isReady && conditions[0].heartbeat.Some? then conditions[0].heartbeat
    else StatusHeartbeat(conditions[1..])
  }

  /** Silence of at least the grace of the heartbeat's source: the Lease, or the Ready condition where no
      Lease can be read. No evidence is not silence. */
  predicate Silent(node: Node, now: int) {
    match node.lease
    case Renewed(at) => now - at >= LEASE_GRACE
    case NeverHeld => false
    case Unavailable =>
      var beat := StatusHeartbeat(node.conditions);
      beat.Some? && now - beat.value >= NODE_STATUS_GRACE
  }

  /** What is taken for a dead kubelet: silence, and a Lease that was never renewed. For the latter there
      is no grace, and the Ready condition is not looked at. */
  predicate Cold(node: Node, now: int) {
    Silent(node, now) || node.lease.NeverHeld?
  }

  /** Position `i` holds the first Ready condition that carries a heartbeat. */
  predicate BeatsAt(conditions: seq<Condition>, i: int) {
    && 0 <= i < |conditions| && conditions[i].isReady && conditions[i].heartbeat.Some?
    && forall j :: 0 <= j < i ==> !(conditions[j].isReady && conditions[j].heartbeat.Some?)
  }

  lemma {:induction false} HeartbeatExactly(conditions: seq<Condition>)
    ensures StatusHeartbeat(conditions).Some? <==> exists i :: BeatsAt(conditions, i)
    ensures forall i :: BeatsAt(conditions, i) ==> StatusHeartbeat(conditions) == conditions[i].heartbeat
  {
    if conditions != [] && !(conditions[0].isReady && conditions[0].heartbeat.Some?) {
      var rest := conditions[1..];
      HeartbeatExactly(rest);
      forall i | BeatsAt(rest, i) ensures BeatsAt(conditions, i + 1) {
        assert forall j :: 1 <= j < i + 1 ==> conditions[j] == rest[j - 1];
      }
      forall i | BeatsAt(conditions, i) ensures BeatsAt(rest, i - 1) && rest[i - 1] == conditions[i] {
        assert i > 0 && forall j :: 0 <= j < i - 1 ==> rest[j] == conditions[j + 1];
      }
    } else if conditions != [] {
      assert BeatsAt(conditions, 0);
    }
  }

  /** A kubelet counts as dead exactly when its Lease was never renewed, or not for 90 seconds, or cannot
      be read while the first heartbeat of the Ready condition is at least 360 seconds old. */
  method KubeletLive(node: Node, now: int) returns (live: bool)
    ensures live <==> !Cold(node, now)
    ensures node.lease.Renewed? ==> (live <==> now - node.lease.at < 90)
    ensures node.lease.NeverHeld? ==> !live
    ensures node.lease.Unavailable? ==>
              (live <==> forall i :: BeatsAt(node.conditions, i) ==> now - node.conditions[i].heartbeat.value < 360)
  {
    match node.lease {
      case Renewed(at) => return now - at < LEASE_GRACE;
      case NeverHeld => return false;
      case Unavailable =>
    }
    HeartbeatExactly(node.conditions);
    for k := 0 to |node.conditions|
      invariant StatusHeartbeat(node.conditions[k..]) == StatusHeartbeat(node.conditions)
      invariant forall j :: 0 <= j < k ==> !(node.conditions[j].isReady && node.conditions[j].heartbeat.Some?)
    {
      var c := node.conditions[k];
      if c.isReady && c.heartbeat.Some? {
        assert BeatsAt(node.conditions, k);
        return now - c.heartbeat.value < NODE_STATUS_GRACE;
      }
      assert node.conditions[k..][1..] == node.conditions[k + 1..];
    }
    return true;
  }

  /** Position `i` holds the first Ready condition. */
  predicate ReadyAt(conditions: seq<Condition>, i: int) {
    0 <= i < |conditions| && conditions[i].isReady && forall j :: 0 <= j < i ==> !conditions[j].isReady
  }

  /** The loop over the conditions: a Node is Ready if and only if it has a Ready condition and the first
      one says so. */
  method ReadReady(conditions: seq<Condition>) returns (ready: bool)
    ensures ready <==> IsReady(conditions)
    ensures ready <==> exists i :: ReadyAt(conditions, i) && conditions[i].status
  {
    for k := 0 to |conditions|
      invariant IsReady(conditions[k..]) == IsReady(conditions)
      invariant forall j :: 0 <= j < k ==> !conditions[j].isReady
    {
      if conditions[k].isReady {
        assert ReadyAt(conditions, k);
        return conditions[k].status;
      }
      assert conditions[k..][1..] == conditions[k + 1..];
    }
    return false;
  }

  lemma {:induction false} ReadyExactlyWhen(conditions: seq<Condition>)
    ensures IsReady(conditions) <==> exists i :: ReadyAt(conditions, i) && conditions[i].status
  {
    if conditions != [] {
      var rest := conditions[1..];
      ReadyExactlyWhen(rest);
      if conditions[0].isReady {
        assert ReadyAt(conditions, 0);
      } else {
        forall i | ReadyAt(rest, i) ensures ReadyAt(conditions, i + 1) {
          assert forall j :: 1 <= j < i + 1 ==> conditions[j] == rest[j - 1];
        }
        forall i | ReadyAt(conditions, i) ensures ReadyAt(rest, i - 1) && rest[i - 1] == conditions[i] {
          assert i > 0 && forall j :: 0 <= j < i - 1 ==> rest[j] == conditions[j + 1];
        }
      }
    }
  }

  /** The verdict of the first Ready condition; silence is not readiness. */
  predicate IsReady(conditions: seq<Condition>) {
    if conditions == [] then false
    else if conditions[0].isReady then conditions[0].status
    else IsReady(conditions[1..])
  }

  // ----- labels and annotations

  function Lookup<K>(m: map<K, string>, k: K): string {
    if k in m then m[k] else ""
  }

  /** User labels first, so identity always wins. */
  function NodeLabels(pool: string, index: int, instance: string, extra: map<Key, string>): map<Key, string> {
    var identified := extra[PoolLabel := pool][CellLabel := Name(pool, index)][CellIndexLabel := Decimal.Text(index)];
    if instance != "" then identified[InstanceLabel := instance] else identified
  }

  function MissingOrWrong<K>(have: map<K, string>, want: map<K, string>): map<K, string> {
    map k | k in want && Lookup(have, k) != want[k] :: want[k]
  }

  /** The loop that collects what a Node lacks, in whatever order the map gives it. */
  method FillMissing<K(==)>(have: map<K, string>, want: map<K, string>) returns (out: map<K, string>)
    ensures out == MissingOrWrong(have, want)
  {
    out := map[];
    var todo := want.Keys;
    while todo != {}
      invariant todo <= want.Keys
      invariant out == map k | k in want && k !in todo && Lookup(have, k) != want[k] :: want[k]
      decreases todo
    {
      var k :| k in todo;
      if Lookup(have, k) != want[k] {
        out := out[k := want[k]];
      }
      todo := todo - {k};
    }
  }

  /** A merge patch sets what it names and leaves the rest. */
  function Patched<K>(have: map<K, string>, patch: map<K, string>): map<K, string> {
    have + patch
  }

  /** The patch is exact: afterwards every wanted entry reads as wanted, every other entry is as
      it was, and a second look finds nothing left to patch. */
  lemma PatchConverges<K(!new)>(have: map<K, string>, want: map<K, string>)
    ensures var after := Patched(have, MissingOrWrong(have, want));
            && (forall k :: k in want ==> Lookup(after, k) == want[k])
            && (forall k :: k !in want ==> Lookup(after, k) == Lookup(have, k))
            && MissingOrWrong(after, want) == map[]
  {
    var after := Patched(have, MissingOrWrong(have, want));
    forall k | k in want ensures Lookup(after, k) == want[k] {
    }
  }

  function Instance(node: Node): Option<string> {
    if InstanceLabel in node.labels then Some(node.labels[InstanceLabel]) else None
  }

  predicate StaleFor(node: Node, uid: string, now: int) {
    Cold(node, now) && IsStaleNode(Instance(node), uid)
  }

  // ----- taints

  predicate SameTaint(a: Taint, b: Taint) {
    a.key == b.key && a.effect == b.effect
  }

  /** Position of the first taint with the same key and effect; the length when there is none. */
  function FindTaint(taints: seq<Taint>, w: Taint): (i: nat)
    ensures i <= |taints| && (i < |taints| ==> SameTaint(taints[i], w))
    ensures forall j :: 0 <= j < i ==> !SameTaint(taints[j], w)
  {
    if taints == [] then 0
    else if SameTaint(taints[0], w) then 0
    else
      var i := FindTaint(taints[1..], w);
      assert forall j :: 1 <= j < i + 1 ==> taints[j] == taints[1..][j - 1];
      i + 1
  }

  function MergeTaint(taints: seq<Taint>, w: Taint): seq<Taint> {
    var i := FindTaint(taints, w);
    if i < |taints| then taints[i := taints[i].(value := w.value)] else taints + [w]
  }

  function MergedTaints(have: seq<Taint>, want: seq<Taint>): seq<Taint> {
    if want == [] then have else MergeTaint(MergedTaints(have, want[..|want| - 1]), want[|want| - 1])
  }

  /** The k-th wanted taint was missing or had another value when its turn came. */
  predicate Rewrites(have: seq<Taint>, want: seq<Taint>, k: nat)
    requires k < |want|
  {
    MergeTaint(MergedTaints(have, want[..k]), want[k]) != MergedTaints(have, want[..k])
  }

  /** One of the first `k` wanted taints had to be written. */
  predicate RewritesBefore(have: seq<Taint>, want: seq<Taint>, k: nat)
    requires k <= |want|
  {
    exists j :: 0 <= j < k && Rewrites(have, want, j)
  }

  lemma MergedNext(have: seq<Taint>, want: seq<Taint>, k: nat)
    requires k < |want|
    ensures MergedTaints(have, want[..k + 1]) == MergeTaint(MergedTaints(have, want[..k]), want[k])
    ensures Rewrites(have, want, k) <==> MergedTaints(have, want[..k + 1]) != MergedTaints(have, want[..k])
    ensures RewritesBefore(have, want, k + 1) == (RewritesBefore(have, want, k) || Rewrites(have, want, k))
  {
    assert want[..k + 1][..k] == want[..k];
    RewritesNext(have, want, k);
  }

  lemma RewritesNext(have: seq<Taint>, want: seq<Taint>, k: nat)
    requires k < |want|
    ensures RewritesBefore(have, want, k + 1) == (RewritesBefore(have, want, k) || Rewrites(have, want, k))
  {
    if RewritesBefore(have, want, k) {
      var j :| 0 <= j < k && Rewrites(have, want, j);
    }
  }

  method MergeTaints(have: seq<Taint>, want: seq<Taint>) returns (out: seq<Taint>, changed: bool)
    ensures out == MergedTaints(have, want)
    ensures changed == RewritesBefore(have, want, |want|)
    ensures !changed ==> out == have
  {
    out, changed := have, false;
    if |want| == 0 {
      return;
    }
    for k := 0 to |want|
      invariant MergedSoFar(have, want, k, out, changed)
    {
      var rewritten;
      MergedNext(have, want, k);
      out, rewritten := DeclareTaint(out, want[k]);
      changed := changed || rewritten;
    }
    assert want[..|want|] == want;
  }

  predicate MergedSoFar(have: seq<Taint>, want: seq<Taint>, k: nat, out: seq<Taint>, changed: bool)
    requires k <= |want|
  {
    out == MergedTaints(have, want[..k]) && changed == RewritesBefore(have, want, k) && (!changed ==> out == have)
  }

  /** The body of the loop: set the value of the first taint with the key and effect, or append. */
  method DeclareTaint(have: seq<Taint>, w: Taint) returns (out: seq<Taint>, changed: bool)
    ensures out == MergeTaint(have, w) && (changed <==> out != have)
  {
    out, changed := have, false;
    for i := 0 to |have|
      invariant out == have && !changed
      invariant forall j :: 0 <= j < i ==> !SameTaint(have[j], w)
    {
      if out[i].key == w.key && out[i].effect == w.effect {
        assert i == FindTaint(have, w);
        if out[i].value != w.value {
          out := out[i := out[i].(value := w.value)];
          assert out[i] != have[i];
          changed := true;
        } else {
          assert have[i := have[i].(value := w.value)] == have;
        }
        return;
      }
    }
    assert FindTaint(have, w) == |have|;
    out := out + [w];
    changed := true;
  }

  predicate HasTaint(taints: seq<Taint>, w: Taint) {
    FindTaint(taints, w) < |taints| && taints[FindTaint(taints, w)].value == w.value
  }

  lemma FoundAt(taints: seq<Taint>, w: Taint, i: nat)
    requires i < |taints| && SameTaint(taints[i], w) && forall j :: 0 <= j < i ==> !SameTaint(taints[j], w)
    ensures FindTaint(taints, w) == i
  {
  }

  /** One merge step: the taint is there, and every taint of another key or effect is untouched. */
  lemma MergeTaintExact(taints: seq<Taint>, w: Taint)
    ensures HasTaint(MergeTaint(taints, w), w)
    ensures |MergeTaint(taints, w)| >= |taints|
    ensures forall i :: 0 <= i < |taints| && !SameTaint(taints[i], w) ==> MergeTaint(taints, w)[i] == taints[i]
    ensures forall v :: !SameTaint(v, w) && HasTaint(taints, v) ==> HasTaint(MergeTaint(taints, w), v)
    ensures HasTaint(taints, w) ==> MergeTaint(taints, w) == taints
  {
    var i, out := FindTaint(taints, w), MergeTaint(taints, w);
    FoundAt(out, w, i);
    forall v | !SameTaint(v, w) && HasTaint(taints, v) ensures HasTaint(out, v) {
      var j := FindTaint(taints, v);
      FoundAt(out, v, j);
    }
  }

  /** Merging stomps no foreign taint: one that shares key and effect with no wanted taint stays where
      it is. */
  lemma {:induction false} MergeKeepsForeign(have: seq<Taint>, want: seq<Taint>)
    ensures |MergedTaints(have, want)| >= |have|
    ensures forall i :: 0 <= i < |have| && (forall w :: w in want ==> !SameTaint(have[i], w))
                        ==> MergedTaints(have, want)[i] == have[i]
  {
    if want != [] {
      var front, last := want[..|want| - 1], want[|want| - 1];
      assert want == front + [last];
      MergeKeepsForeign(have, front);
      MergeTaintExact(MergedTaints(have, front), last);
    }
  }

  /** No later wanted taint has the key and effect of the k-th. */
  predicate LastWord(want: seq<Taint>, k: nat)
    requires k < |want|
  {
    forall j :: k < j < |want| ==> !SameTaint(want[k], want[j])
  }

  /** For every key and effect the last wanted value stands. */
  lemma {:induction false} LastWordStands(have: seq<Taint>, want: seq<Taint>, k: nat)
    requires k < |want| && LastWord(want, k)
    ensures HasTaint(MergedTaints(have, want), want[k])
  {
    var front, last := want[..|want| - 1], want[|want| - 1];
    MergeTaintExact(MergedTaints(have, front), last);
    if k < |front| {
      assert LastWord(front, k) by {
        assert forall j :: k < j < |front| ==> front[j] == want[j];
      }
      LastWordStands(have, front, k);
    }
  }

  lemma {:induction false} SomeLastWord(want: seq<Taint>, k: nat) returns (j: nat)
    requires k < |want|
    ensures k <= j < |want| && SameTaint(want[k], want[j]) && LastWord(want, j)
    decreases |want| - k
  {
    if LastWord(want, k) {
      j := k;
    } else {
      var i :| k < i < |want| && SameTaint(want[k], want[i]);
      j := SomeLastWord(want, i);
    }
  }

  /** Wanted taints with one key and effect have one value. */
  predicate Agree(want: seq<Taint>) {
    forall i, j :: 0 <= i < |want| && 0 <= j < |want| && SameTaint(want[i], want[j]) ==> want[i].value == want[j].value
  }

  predicate HasAll(taints: seq<Taint>, want: seq<Taint>) {
    forall k :: 0 <= k < |want| ==> HasTaint(taints, want[k])
  }

  /** Every wanted taint is declared if and only if the wanted taints agree. */
  lemma DeclaresAllExactly(have: seq<Taint>, want: seq<Taint>)
    ensures HasAll(MergedTaints(have, want), want) <==> Agree(want)
  {
    var m := MergedTaints(have, want);
    if Agree(want) {
      forall k | 0 <= k < |want| ensures HasTaint(m, want[k]) {
        var j := SomeLastWord(want, k);
        LastWordStands(have, want, j);
        assert want[j] == want[k];
      }
    } else if HasAll(m, want) {
      HasAllAgree(m, want);
    }
  }

  lemma HasAllAgree(taints: seq<Taint>, want: seq<Taint>)
    requires HasAll(taints, want)
    ensures Agree(want)
  {
    forall i, j | 0 <= i < |want| && 0 <= j < |want| && SameTaint(want[i], want[j]) ensures want[i].value == want[j].value {
      SameFind(taints, want[i], want[j]);
      assert HasTaint(taints, want[i]) && HasTaint(taints, want[j]);
    }
  }

  lemma {:induction false} PresentMerges(taints: seq<Taint>, want: seq<Taint>, k: nat)
    requires HasAll(taints, want) && k <= |want|
    ensures MergedTaints(taints, want[..k]) == taints && !RewritesBefore(taints, want, k)
  {
    if k > 0 {
      PresentMerges(taints, want, k - 1);
      MergedNext(taints, want, k - 1);
      assert HasTaint(taints, want[k - 1]);
      MergeTaintExact(taints, want[k - 1]);
    }
  }

  lemma UnmovedMeansPresent(taints: seq<Taint>, w: Taint)
    ensures MergeTaint(taints, w) == taints <==> HasTaint(taints, w)
  {
    MergeTaintExact(taints, w);
  }

  lemma {:induction false} SilentMeansPresent(taints: seq<Taint>, want: seq<Taint>, k: nat)
    requires k <= |want| && !RewritesBefore(taints, want, k)
    ensures MergedTaints(taints, want[..k]) == taints && forall j :: 0 <= j < k ==> HasTaint(taints, want[j])
  {
    if k > 0 {
      MergedNext(taints, want, k - 1);
      SilentMeansPresent(taints, want, k - 1);
      UnmovedMeansPresent(taints, want[k - 1]);
    }
  }

  /** A merge writes nothing exactly when every wanted taint is there. */
  lemma SilentExactly(taints: seq<Taint>, want: seq<Taint>)
    ensures !RewritesBefore(taints, want, |want|) <==> HasAll(taints, want)
  {
    if HasAll(taints, want) {
      PresentMerges(taints, want, |want|);
    } else if !RewritesBefore(taints, want, |want|) {
      SilentMeansPresent(taints, want, |want|);
    }
  }

  /** A steady pass writes nothing exactly when it can: for any taints the Node had, a second merge
      writes nothing if and only if wanted taints with one key and effect have one value. */
  lemma SecondMergeIsSilent(have: seq<Taint>, want: seq<Taint>)
    ensures !RewritesBefore(MergedTaints(have, want), want, |want|) <==> Agree(want)
  {
    SilentExactly(MergedTaints(have, want), want);
    DeclaresAllExactly(have, want);
  }

  function MergedTimes(have: seq<Taint>, want: seq<Taint>, n: nat): seq<Taint> {
    if n == 0 then have else MergedTaints(MergedTimes(have, want, n - 1), want)
  }

  /** Wanted taints that clash are written again by every later merge, however many there were. */
  lemma ClashingTaintsNeverSettle(have: seq<Taint>, want: seq<Taint>, n: nat)
    requires !Agree(want) && n >= 1
    ensures RewritesBefore(MergedTimes(have, want, n), want, |want|)
  {
    SecondMergeIsSilent(MergedTimes(have, want, n - 1), want);
  }

  lemma {:induction false} SameFind(taints: seq<Taint>, a: Taint, b: Taint)
    requires SameTaint(a, b)
    ensures FindTaint(taints, a) == FindTaint(taints, b)
  {
    if taints != [] {
      SameFind(taints[1..], a, b);
    }
  }

  // ----- what a discovery reads of the Nodes, and does to them

  /** What a pool declares for its Nodes, beyond identity. */
  datatype Metadata = Metadata(labels: map<Key, string>, annotations: map<string, string>, taints: seq<Taint>)

  function Claimed(node: Node, want: Metadata): Node {
    node.(labels := Patched(node.labels, MissingOrWrong(node.labels, want.labels)),
          annotations := Patched(node.annotations, MissingOrWrong(node.annotations, want.annotations)),
          taints := MergedTaints(node.taints, want.taints))
  }

  /** Some entry or taint has to be written. */
  predicate Differs(node: Node, want: Metadata) {
    || MissingOrWrong(node.labels, want.labels) != map[]
    || MissingOrWrong(node.annotations, want.annotations) != map[]
    || RewritesBefore(node.taints, want.taints, |want.taints|)
  }

  lemma NothingToWrite(node: Node, want: Metadata)
    requires !Differs(node, want)
    ensures Claimed(node, want) == node
  {
    assert Patched(node.labels, map[]) == node.labels && Patched(node.annotations, map[]) == node.annotations;
    SilentMeansPresent(node.taints, want.taints, |want.taints|);
    assert want.taints[..|want.taints|] == want.taints;
  }

  lemma SameEntry(nodes: map<string, Node>, name: string)
    requires name in nodes
    ensures nodes[name := nodes[name]] == nodes
  {
  }

  /** What one read of a Node returns. */
  function StateOf(nodes: map<string, Node>, name: string, now: int): NodeState {
    if name in nodes then
      NodeState(true, IsReady(nodes[name].conditions), !Cold(nodes[name], now), Instance(nodes[name]))
    else NO_NODE
  }

  /** The pool's Nodes and whether each is alive. */
  function Liveness(nodes: map<string, Node>, pool: string, now: int): map<string, bool> {
    map n | n in nodes && Lookup(nodes[n].labels, PoolLabel) == pool :: !Cold(nodes[n], now)
  }

  /** The metadata of one cell's Node. */
  function CellMetadata(spec: Spec, n: string, uid: string, declared: Metadata): Metadata
    requires ParseIndex(spec.pool, n).Some?
  {
    declared.(labels := NodeLabels(spec.pool, ParseIndex(spec.pool, n).value, uid, declared.labels))
  }

  /** One cell's Node once tended: gone if the cell's decision reaps it, claimed if it is not stale,
      and otherwise as it was. */
  function TendedNode(node: Node, spec: Spec, rows: map<string, Row>, d: Reads, declared: Metadata, now: int, n: string): Option<Node>
    requires n in Cells(spec, d)
  {
    var uid := d.seen[n].outer.uid;
    if ReapsStale(spec, rows, d, now, n) then None
    else if StaleFor(node, uid, now) then Some(node)
    else Some(Claimed(node, CellMetadata(spec, n, uid, declared)))
  }

  /** The Nodes once those of the cells in `done` have been tended. */
  function TendedNodes(nodes: map<string, Node>, spec: Spec, rows: map<string, Row>, d: Reads, declared: Metadata, now: int,
                       done: set<string>): map<string, Node>
    requires done <= Cells(spec, d)
  {
    map n | n in nodes && (n in done ==> TendedNode(nodes[n], spec, rows, d, declared, now, n).Some?) ::
      if n in done then TendedNode(nodes[n], spec, rows, d, declared, now, n).value else nodes[n]
  }

  function OrphansOf(nodes: map<string, Node>, pool: string, keep: set<string>, now: int): set<string> {
    set n | n in nodes && Lookup(nodes[n].labels, PoolLabel) == pool && n !in keep && Cold(nodes[n], now)
  }

  /** The Nodes after one discovery. */
  function NodesAfter(nodes: map<string, Node>, spec: Spec, rows: map<string, Row>, d: Reads, declared: Metadata, now: int): map<string, Node> {
    var tended := TendedNodes(nodes, spec, rows, d, declared, now, Cells(spec, d));
    tended - OrphansOf(tended, spec.pool, RowsAfter(spec, rows, d, true, now).Keys, now)
  }

  predicate CellsReadFrom(nodes: map<string, Node>, spec: Spec, d: Reads, now: int) {
    forall n :: n in Cells(spec, d) ==> d.seen[n].node == StateOf(nodes, n, now)
  }

  /** The discovery's Node readings are those of the workload cluster: each cell's own, and then the
      list of the pool's Nodes. */
  predicate ReadsFrom(nodes: map<string, Node>, spec: Spec, rows: map<string, Row>, d: Reads, declared: Metadata, now: int) {
    && CellsReadFrom(nodes, spec, d, now)
    && d.poolNodes == Some(Liveness(TendedNodes(nodes, spec, rows, d, declared, now, Cells(spec, d)), spec.pool, now))
  }

  /** A reap request is for a Node that is there, stale and cold. */
  lemma ReapIsStale(nodes: map<string, Node>, spec: Spec, rows: map<string, Row>, d: Reads, now: int, n: string)
    requires n in Cells(spec, d) && CellsReadFrom(nodes, spec, d, now) && ReapsStale(spec, rows, d, now, n)
    ensures n in nodes && StaleFor(nodes[n], d.seen[n].outer.uid, now)
  {
    ReapsExactly(Observe(spec, Inherit(Previous(rows, n), d.seen[n].outer.uid), d.seen[n], true, now));
  }

  /** The sweep loop: the pool's Nodes that are not kept and not alive. */
  method Orphans(poolNodes: map<string, bool>, keep: set<string>) returns (orphans: set<string>)
    ensures orphans == set n | n in poolNodes && n !in keep && !poolNodes[n]
  {
    orphans := {};
    var todo := poolNodes.Keys;
    while todo != {}
      invariant todo <= poolNodes.Keys
      invariant orphans == set n | n in poolNodes && n !in todo && n !in keep && !poolNodes[n]
      decreases todo
    {
      var name :| name in todo;
      if !(name in keep || poolNodes[name]) {
        orphans := orphans + {name};
      }
      todo := todo - {name};
    }
  }

  // ----- the cluster

  class WorkloadCluster {
    var nodes: map<string, Node>

    constructor (nodes: map<string, Node>)
      ensures this.nodes == nodes
    {
      this.nodes := nodes;
    }

    /** Cordoning an absent Node succeeds and cordons nothing. */
    method Cordon(name: string)
      modifies this
      ensures nodes.Keys == old(nodes).Keys
      ensures name in nodes ==> nodes[name] == old(nodes)[name].(cordoned := true)
      ensures forall n :: n in nodes && n != name ==> nodes[n] == old(nodes)[n]
    {
      if name !in nodes {
        return;
      }
      if nodes[name].cordoned {
        return;
      }
      nodes := nodes[name := nodes[name].(cordoned := true)];
    }

    /** Deleting a Node, present or not. */
    method DeleteNode(name: string)
      modifies this
      ensures nodes == old(nodes) - {name}
    {
      nodes := nodes - {name};
    }

    /** Patches only what is missing or wrong; an unchanged Node is not written, and a missing one is
        an error. */
    method EnsureNodeMetadata(name: string, want: Metadata) returns (r: Option<bool>)
      modifies this
      ensures r.None? <==> name !in old(nodes)
      ensures r.None? ==> nodes == old(nodes)
      ensures r.Some? ==> nodes == old(nodes)[name := Claimed(old(nodes)[name], want)]
      ensures r.Some? ==> r.value == Differs(old(nodes)[name], want)
      ensures r == Some(false) ==> nodes == old(nodes)
    {
      if name !in nodes {
        return None;
      }
      var node := nodes[name];
      var labels := FillMissing(node.labels, want.labels);
      var annotations := FillMissing(node.annotations, want.annotations);
      var merged, moved := MergeTaints(node.taints, want.taints);
      var changed := |labels| > 0 || |annotations| > 0 || moved;
      assert changed == Differs(node, want);
      if changed {
        nodes := nodes[name := node.(labels := Patched(node.labels, labels),
                                     annotations := Patched(node.annotations, annotations), taints := merged)];
      } else {
        NothingToWrite(node, want);
        SameEntry(nodes, name);
      }
      r := Some(changed);
    }

    /** The pool's Nodes by label, with their liveness. */
    method ListPoolNodes(pool: string, now: int) returns (live: map<string, bool>)
      ensures live == Liveness(nodes, pool, now)
    {
      live := map[];
      var todo := nodes.Keys;
      while todo != {}
        invariant todo <= nodes.Keys
        invariant live == map n | n in nodes && n !in todo && Lookup(nodes[n].labels, PoolLabel) == pool :: !Cold(nodes[n], now)
        decreases todo
      {
        var name :| name in todo;
        if Lookup(nodes[name].labels, PoolLabel) == pool {
          var alive := KubeletLive(nodes[name], now);
          live := live[name := alive];
        }
        todo := todo - {name};
      }
    }

    /** The sweep deletes exactly the Nodes of the pool that no row accounts for and whose kubelet is
        taken for dead. */
    method SweepOrphans(pool: string, keep: set<string>, now: int)
      modifies this
      ensures nodes == old(nodes) - OrphansOf(old(nodes), pool, keep, now)
    {
      var live := ListPoolNodes(pool, now);
      var orphans := Orphans(live, keep);
      assert orphans == OrphansOf(nodes, pool, keep, now);
      var todo := orphans;
      while todo != {}
        invariant todo <= orphans && nodes == old(nodes) - (orphans - todo)
        decreases todo
      {
        var name :| name in todo;
        DeleteNode(name);
        todo := todo - {name};
      }
    }

    /** What discovery does about the Nodes: each listed cell's Node is claimed, or reaped when the
        cell's own decision asks for it, and then the orphans go. */
    method Discover(spec: Spec, rows: map<string, Row>, d: Reads, declared: Metadata, now: int)
      requires WellListed(d) && CellsReadFrom(nodes, spec, d, now)
      modifies this
      ensures nodes == NodesAfter(old(nodes), spec, rows, d, declared, now)
    {
      ghost var done: set<string> := {};
      for k := 0 to |d.listed|
        invariant done == (set n | n in d.listed[..k] && n in Cells(spec, d))
        invariant nodes == TendedNodes(old(nodes), spec, rows, d, declared, now, done)
      {
        var name := d.listed[k];
        assert d.listed[..k + 1] == d.listed[..k] + [name] && name in d.listed;
        if ParseIndex(spec.pool, name).None? {
          continue;
        }
        assert name in Cells(spec, d) && name !in done;
        TendNode(spec, rows, d, declared, now, name, old(nodes), done);
        done := done + {name};
      }
      assert d.listed[..|d.listed|] == d.listed;
      assert done == Cells(spec, d);
      SweepOrphans(spec.pool, RowsAfter(spec, rows, d, true, now).Keys, now);
    }

    /** One cell's Node. */
    method TendNode(spec: Spec, rows: map<string, Row>, d: Reads, declared: Metadata, now: int, name: string,
                    ghost before: map<string, Node>, ghost done: set<string>)
      requires name in Cells(spec, d) && done <= Cells(spec, d) && name !in done && CellsReadFrom(before, spec, d, now)
      requires nodes == TendedNodes(before, spec, rows, d, declared, now, done)
      modifies this
      ensures nodes == TendedNodes(before, spec, rows, d, declared, now, done + {name})
    {
      TendedNext(before, spec, rows, d, declared, now, done, name);
      if name in nodes {
        SameEntry(nodes, name);
      }
      var uid := d.seen[name].outer.uid;
      if name in nodes {
        var live := KubeletLive(nodes[name], now);
        var stale := !live && IsStaleNode(Instance(nodes[name]), uid);
        if !stale {
          var _ := EnsureNodeMetadata(name, CellMetadata(spec, name, uid, declared));
        }
      }
      var obs := Observe(spec, Inherit(Previous(rows, name), uid), d.seen[name], true, now);
      if AdvanceCell(obs).reapStaleNode {
        DeleteNode(name);
      }
    }
  }

  /** What tending one more cell changes. */
  lemma TendedNext(nodes: map<string, Node>, spec: Spec, rows: map<string, Row>, d: Reads, declared: Metadata, now: int,
                   done: set<string>, n: string)
    requires n in Cells(spec, d) && done <= Cells(spec, d) && n !in done && CellsReadFrom(nodes, spec, d, now)
    ensures var was, uid := TendedNodes(nodes, spec, rows, d, declared, now, done), d.seen[n].outer.uid;
            && (n in was <==> n in nodes) && (n in was ==> was[n] == nodes[n])
            && (ReapsStale(spec, rows, d, now, n) ==> n in was && StaleFor(was[n], uid, now))
            && var next := TendedNodes(nodes, spec, rows, d, declared, now, done + {n});
            && (n !in was ==> next == was)
            && (n in was ==> var t := TendedNode(was[n], spec, rows, d, declared, now, n);
                             next == if t.Some? then was[n := t.value] else was - {n})
  {
    if ReapsStale(spec, rows, d, now, n) {
      ReapIsStale(nodes, spec, rows, d, now, n);
    }
    var was, next := TendedNodes(nodes, spec, rows, d, declared, now, done), TendedNodes(nodes, spec, rows, d, declared, now, done + {n});
    TendedElsewhere(nodes, spec, rows, d, declared, now, done, n);
    if n in nodes {
      var t := TendedNode(nodes[n], spec, rows, d, declared, now, n);
      SameElsewhere(was, next, n, t);
    } else {
      assert next == was;
    }
  }

  lemma TendedElsewhere(nodes: map<string, Node>, spec: Spec, rows: map<string, Row>, d: Reads, declared: Metadata, now: int,
                        done: set<string>, n: string)
    requires n in Cells(spec, d) && done <= Cells(spec, d)
    ensures var was, next := TendedNodes(nodes, spec, rows, d, declared, now, done), TendedNodes(nodes, spec, rows, d, declared, now, done + {n});
            forall m :: m != n ==> (m in next <==> m in was) && (m in next ==> next[m] == was[m])
  {
  }

  lemma SameElsewhere(was: map<string, Node>, next: map<string, Node>, n: string, t: Option<Node>)
    requires forall m :: m != n ==> (m in next <==> m in was) && (m in next ==> next[m] == was[m])
    requires (n in next <==> t.Some?) && (t.Some? ==> next[n] == t.value)
    ensures next == if t.Some? then was[n := t.value] else was - {n}
  {
  }

  /** Claiming a Node writes the guest's UID into it, whatever it carried before and whatever labels
      the user asked for. */
  lemma ClaimIsNotStale(node: Node, spec: Spec, n: string, uid: string, declared: Metadata)
    requires ParseIndex(spec.pool, n).Some?
    ensures var claimed := Claimed(node, CellMetadata(spec, n, uid, declared));
            && !IsStaleNode(Instance(claimed), uid)
            && (uid != "" ==> Instance(claimed) == Some(uid))
  {
    PatchConverges(node.labels, CellMetadata(spec, n, uid, declared).labels);
  }

  /** What a claim leaves on a Node: the pool, the cell's own name and its index in decimal, whatever the
      user declared under those keys; every other declared label and annotation as declared; and what
      nobody declared as it was. */
  lemma ClaimReads(node: Node, spec: Spec, n: string, uid: string, declared: Metadata)
    requires ParseIndex(spec.pool, n).Some?
    ensures var index, c := ParseIndex(spec.pool, n).value, Claimed(node, CellMetadata(spec, n, uid, declared));
            && Lookup(c.labels, PoolLabel) == spec.pool
            && Lookup(c.labels, CellLabel) == spec.pool + "-" + Lookup(c.labels, CellIndexLabel)
            && Decimal.ValueOf(Lookup(c.labels, CellIndexLabel)) == index
            && (uid != "" ==> Lookup(c.labels, InstanceLabel) == uid)
            && (forall t :: Lookup(c.labels, Foreign(t)) == Lookup(if Foreign(t) in declared.labels then declared.labels else node.labels, Foreign(t)))
            && (forall t :: Lookup(c.annotations, t) == Lookup(if t in declared.annotations then declared.annotations else node.annotations, t))
            && (HasAll(c.taints, declared.taints) <==> Agree(declared.taints))
            && c.cordoned == node.cordoned && c.lease == node.lease && c.conditions == node.conditions
  {
    var index := ParseIndex(spec.pool, n).value;
    var want := CellMetadata(spec, n, uid, declared);
    PatchConverges(node.labels, want.labels);
    PatchConverges(node.annotations, want.annotations);
    DeclaresAllExactly(node.taints, declared.taints);
    IdentityLabels(spec.pool, index, uid, declared.labels);
  }

  lemma IdentityLabels(pool: string, index: nat, uid: string, extra: map<Key, string>)
    ensures var labels := NodeLabels(pool, index, uid, extra);
            && PoolLabel in labels && labels[PoolLabel] == pool
            && CellLabel in labels && CellIndexLabel in labels && labels[CellLabel] == pool + "-" + labels[CellIndexLabel]
            && Decimal.ValueOf(labels[CellIndexLabel]) == index
            && (uid != "" ==> InstanceLabel in labels && labels[InstanceLabel] == uid)
            && (forall t :: (Foreign(t) in labels <==> Foreign(t) in extra) && (Foreign(t) in extra ==> labels[Foreign(t)] == extra[Foreign(t)]))
  {
    Decimal.ValueOfDigits(index);
  }

  /** Exactly the reaped Nodes go: what a discovery reports as reaped is what its Node operations take
      away. */
  lemma ReapedAreGone(nodes: map<string, Node>, spec: Spec, rows: map<string, Row>, d: Reads, declared: Metadata, now: int)
    requires ReadsFrom(nodes, spec, rows, d, declared, now)
    ensures ReapedNodes(spec, rows, d, true, now) == nodes.Keys - NodesAfter(nodes, spec, rows, d, declared, now).Keys
  {
    var tended := TendedNodes(nodes, spec, rows, d, declared, now, Cells(spec, d));
    var keep := RowsAfter(spec, rows, d, true, now).Keys;
    var stale := set n | n in Cells(spec, d) && ReapsStale(spec, rows, d, now, n);
    TendingReaps(nodes, spec, rows, d, declared, now);
    SweptAreListed(tended, spec.pool, keep, now);
    assert ReapedNodes(spec, rows, d, true, now) == stale + OrphansOf(tended, spec.pool, keep, now);
  }

  lemma TendingReaps(nodes: map<string, Node>, spec: Spec, rows: map<string, Row>, d: Reads, declared: Metadata, now: int)
    requires CellsReadFrom(nodes, spec, d, now)
    ensures var stale := set n | n in Cells(spec, d) && ReapsStale(spec, rows, d, now, n);
            stale <= nodes.Keys && TendedNodes(nodes, spec, rows, d, declared, now, Cells(spec, d)).Keys == nodes.Keys - stale
  {
    forall n | n in Cells(spec, d) && ReapsStale(spec, rows, d, now, n) ensures n in nodes {
      ReapIsStale(nodes, spec, rows, d, now, n);
    }
  }

  lemma SweptAreListed(nodes: map<string, Node>, pool: string, keep: set<string>, now: int)
    ensures var live := Liveness(nodes, pool, now);
            OrphansOf(nodes, pool, keep, now) == set n | n in live && n !in keep && !live[n]
  {
  }

  /** Only Nodes whose kubelet is taken for dead are reaped. */
  lemma ReapedWereCold(nodes: map<string, Node>, spec: Spec, rows: map<string, Row>, d: Reads, declared: Metadata, now: int)
    requires ReadsFrom(nodes, spec, rows, d, declared, now)
    ensures forall n :: n in ReapedNodes(spec, rows, d, true, now) ==> n in nodes && Cold(nodes[n], now)
  {
    forall n | n in ReapedNodes(spec, rows, d, true, now) ensures n in nodes && Cold(nodes[n], now) {
      if n in Cells(spec, d) && ReapsStale(spec, rows, d, now, n) {
        ReapIsStale(nodes, spec, rows, d, now, n);
      } else {
        assert n in d.poolNodes.value && n !in RowsAfter(spec, rows, d, true, now) && !d.poolNodes.value[n];
      }
    }
  }
}
