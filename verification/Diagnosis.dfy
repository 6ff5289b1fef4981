/** Why a cell failed, over whole runs: every reason a failed row shows was written by a pass that saw
    its cause, and passes that learn nothing new do not wash it away. */
module Diagnosis {
  import opened CellTypes
  import opened CellId
  import opened Fsm
  import opened Membership
  import opened Discovery
  import opened Passes
  import opened Runs
  import opened RunTheorems
  import opened RunLimits

  /** The fault an observation points to, read off the furthest layer that is not up. */
  function Fault(obs: Observation): Reason {
    if !obs.outer.provisioned || obs.outer.devices == 0 then CellProvisionTimeout
    else if !obs.node.present then NodeNeverRegistered
    else if !obs.node.ready then JoinTimeout
    else GPUNotAdvertised
  }

  /** The same, told from the reading. */
  function FaultSeen(g: GuestReading): Reason {
    if g.outer.devices == 0 || !g.outer.provisioned then CellProvisionTimeout
    else if !g.node.present then NodeNeverRegistered
    else if !g.node.ready then JoinTimeout
    else GPUNotAdvertised
  }

  /** A guest's own reason for its failure. */
  function OwnReason(outer: OuterState): Reason {
    if outer.reason == NoReason then CellProvisionTimeout else outer.reason
  }

  /** The row had shown the stage the pass found the cell in for longer than the stage's budget. */
  predicate PastBudget(p: Pass, n: string)
    requires n in Cells(p.input.spec, Kept(p))
  {
    var stage := StageSeen(p, n);
    && stage.Some? && stage.value.budget > 0
    && n in p.before.rows && p.before.rows[n].uid == Kept(p).seen[n].outer.uid
    && p.before.rows[n].phase == stage.value.phase && p.before.rows[n].since.Some?
    && p.input.now - p.before.rows[n].since.value > stage.value.budget
  }

  /** The pass saw the cause of a failure for this reason: a guest that reported its own failure, a
      workload cluster it could not reach, or a guest past its budget at the layer the reason names. */
  predicate Saw(p: Pass, n: string, reason: Reason) {
    && n in Cells(p.input.spec, Kept(p))
    && var outer := Kept(p).seen[n].outer;
       if outer.failed then reason == OwnReason(outer)
       else if !p.input.reachable then reason == Unreachable
       else outer.present && PastBudget(p, n) && reason == FaultSeen(Kept(p).seen[n])
  }

  predicate FailedFor(rows: map<string, Row>, n: string, reason: Reason) {
    n in rows && rows[n].phase == Failed && rows[n].reason == reason
  }

  /** A decision to fail names its cause, and one that says nothing new leaves the cell failed. */
  lemma FailureNamesCause(obs: Observation)
    requires AdvanceCell(obs).phase == Failed
    ensures obs.outer.failed ==>
              AdvanceCell(obs).reason == OwnReason(obs.outer)
    ensures !obs.outer.failed && !obs.reachable ==> obs.current == Failed && AdvanceCell(obs).reason == Unreachable
    ensures !obs.outer.failed && obs.reachable && obs.current != Failed ==>
              obs.outer.present && !FullyUp(obs) && AdvanceCell(obs).reason == Fault(obs)
    ensures !obs.outer.failed && obs.reachable && obs.current == Failed ==> AdvanceCell(obs).reason == NoReason
  {
  }

  /** A cell that is not failed says what it waits for: nothing while it is Ready, Pending or leaving, the
      cluster it cannot reach, a Node that names another guest, or the layer that is not up. */
  lemma WaitNamesCause(obs: Observation)
    requires AdvanceCell(obs).phase != Failed
    ensures var d := AdvanceCell(obs);
            d.reason ==
              if Leaving(obs.current) then NoReason
              else if !obs.reachable then Unreachable
              else if d.phase == Ready || d.phase == Pending then NoReason
              else if d.reapStaleNode then NodeNameCollision
              else Fault(obs)
  {
  }

  lemma FailedRow(spec: Spec, rows: map<string, Row>, n: string, index: int, g: GuestReading, reachable: bool, now: int)
    requires n in rows ==> RowOk(spec, n, rows[n])
    requires SeenRow(spec, rows, n, index, g, reachable, now).phase == Failed
    ensures var reason := SeenRow(spec, rows, n, index, g, reachable, now).reason;
            || (g.outer.failed && reason == OwnReason(g.outer))
            || (!g.outer.failed && !reachable && reason == Unreachable)
            || (!g.outer.failed && reachable && g.outer.present && reason == FaultSeen(g) && !(n in rows && rows[n].phase == Failed))
            || (!g.outer.failed && reachable && FailedFor(rows, n, reason))
  {
    var obs := Observe(spec, Inherit(Previous(rows, n), g.outer.uid), g, reachable, now);
    FailureNamesCause(obs);
    if !g.outer.failed && n in rows && rows[n].phase == Failed && obs.current != Failed {
      FreshGuestWaits(obs);
    }
  }

  /** A guest first seen in this pass cannot be past any budget. */
  lemma FreshGuestWaits(obs: Observation)
    requires obs.current == Pending && !obs.outer.failed
    ensures AdvanceCell(obs).phase != Failed
  {
  }

  /** One pass: a failed row's reason is new, with its cause in sight, or was there before. */
  lemma ReasonStep(pool: string, p: Pass, n: string)
    requires StepOk(pool, p) && n in p.after.rows && p.after.rows[n].phase == Failed
    ensures Saw(p, n, p.after.rows[n].reason) || FailedFor(p.before.rows, n, p.after.rows[n].reason)
  {
    assert n in p.rows && p.after.rows[n] == p.rows[n];
    if n in Cells(p.input.spec, Kept(p)) {
      if n in p.before.rows {
        assert RowOk(p.input.spec, n, p.before.rows[n]);
      }
      FailedRow(p.input.spec, p.before.rows, n, ParseIndex(p.input.spec.pool, n).value, Kept(p).seen[n],
                p.input.reachable, p.input.now);
      if !Kept(p).seen[n].outer.failed && p.input.reachable && !(n in p.before.rows && p.before.rows[n].phase == Failed) {
        SawBudget(pool, p, n);
      }
    }
  }

  lemma SawBudget(pool: string, p: Pass, n: string)
    requires StepOk(pool, p) && n in Cells(p.input.spec, Kept(p)) && !Kept(p).seen[n].outer.failed
    requires n in p.after.rows && p.after.rows[n].phase == Failed
    requires n in p.before.rows ==> p.before.rows[n].phase != Failed
    ensures p.input.reachable && Kept(p).seen[n].outer.present && PastBudget(p, n)
  {
    TimeoutStep(pool, p, n);
    StageOfGuest(pool, p, n);
  }

  lemma StageOfGuest(pool: string, p: Pass, n: string)
    requires StepOk(pool, p) && n in Cells(p.input.spec, Kept(p)) && !Kept(p).seen[n].outer.failed
    requires n in p.after.rows && p.after.rows[n].phase == Failed
    requires n in p.before.rows && p.before.rows[n].phase != Failed
    ensures p.before.rows[n].uid == Kept(p).seen[n].outer.uid
  {
    assert RowOk(p.input.spec, n, p.before.rows[n]);
    FailsByStage(p.input.spec, p.before.rows, n, ParseIndex(p.input.spec.pool, n).value, Kept(p).seen[n], p.input.reachable, p.input.now);
  }

  /** Pass `j` saw the cause, and the row has shown it in every pass since. */
  predicate ShownSince(run: seq<Pass>, j: nat, k: nat, n: string, reason: Reason) {
    && j <= k < |run| && Saw(run[j], n, reason)
    && forall i :: j <= i <= k ==> FailedFor(run[i].after.rows, n, reason)
  }

  ghost predicate Explained(p: Pass, n: string)
    requires n in p.after.rows
  {
    p.after.rows[n].phase == Failed ==>
      Saw(p, n, p.after.rows[n].reason) || FailedFor(p.before.rows, n, p.after.rows[n].reason)
  }

  ghost predicate AllExplained(run: seq<Pass>) {
    forall i, n :: 0 <= i < |run| && n in run[i].after.rows ==> Explained(run[i], n)
  }

  lemma StillShown(run: seq<Pass>, j: nat, k: nat, n: string, reason: Reason)
    requires 0 < k < |run| && ShownSince(run, j, k - 1, n, reason) && FailedFor(run[k].after.rows, n, reason)
    ensures ShownSince(run, j, k, n, reason)
  {
  }

  lemma {:induction false} ReasonHistory(run: seq<Pass>, k: nat, n: string, reason: Reason) returns (j: nat)
    requires Linked(run) && AllExplained(run) && k < |run| && FailedFor(run[k].after.rows, n, reason)
    ensures ShownSince(run, j, k, n, reason)
    decreases k
  {
    assert Explained(run[k], n);
    if Saw(run[k], n, reason) {
      j := k;
    } else {
      assert k > 0 && run[k].before.rows == run[k - 1].after.rows;
      j := ReasonHistory(run, k - 1, n, reason);
      StillShown(run, j, k, n, reason);
    }
  }

  /** A failed row's reason is the truth about some pass: that pass saw its cause, and the row has shown
      that reason in every pass since. */
  lemma FailureIsExplained(pool: string, run: seq<Pass>, k: nat, n: string)
    requires Run(pool, run) && k < |run| && n in run[k].after.rows && run[k].after.rows[n].phase == Failed
    ensures exists j: nat :: ShownSince(run, j, k, n, run[k].after.rows[n].reason)
  {
    RunHasSteps(pool, run);
    RunIsExplained(pool, run);
    var j := ReasonHistory(run, k, n, run[k].after.rows[n].reason);
  }

  lemma RunIsExplained(pool: string, run: seq<Pass>)
    requires Steps(pool, run)
    ensures AllExplained(run)
  {
    forall i, n | 0 <= i < |run| && n in run[i].after.rows ensures Explained(run[i], n) {
      if run[i].after.rows[n].phase == Failed {
        ReasonStep(pool, run[i], n);
      }
    }
  }

  /** A row that makes the bootstrap credential suspect is evidence: at some pass the guest itself said
      so, or its VM was up with a GPU, the workload cluster was readable and no Node had registered. */
  lemma SuspectIsEvidence(pool: string, run: seq<Pass>, k: nat, n: string)
    requires Run(pool, run) && k < |run| && n in run[k].after.rows && Suspect(run[k].after.rows[n])
    ensures exists j: nat :: ShownSince(run, j, k, n, NodeNeverRegistered) && NoNodeSeen(run[j], n)
  {
    FailureIsExplained(pool, run, k, n);
    var j: nat :| ShownSince(run, j, k, n, NodeNeverRegistered);
    assert NoNodeSeen(run[j], n);
  }

  predicate NoNodeSeen(p: Pass, n: string) {
    && n in Cells(p.input.spec, Kept(p))
    && var g := Kept(p).seen[n];
       || (g.outer.failed && g.outer.reason == NodeNeverRegistered)
       || (p.input.reachable && g.outer.provisioned && g.outer.devices > 0 && !g.node.present)
  }

  // ----- when it is kept

  /** The guest behind the row is another one than the row recorded. */
  predicate Replaced(p: Pass, n: string)
    requires n in p.before.rows && n in Cells(p.input.spec, Kept(p))
  {
    p.before.rows[n].uid != "" && p.before.rows[n].uid != Kept(p).seen[n].outer.uid
  }

  /** What keeps a failed row's reason, told from what the pass reads: a tombstone below the replica
      count, a guest that reports the same failure itself, or the same guest in a workload cluster that
      can be read. An outage keeps only its own reason. */
  predicate KeepsReason(p: Pass, n: string, reason: Reason)
    requires n in p.before.rows
  {
    if n !in Cells(p.input.spec, Kept(p)) then p.before.rows[n].index < p.input.spec.replicas
    else if Kept(p).seen[n].outer.failed then reason == OwnReason(Kept(p).seen[n].outer)
    else !Replaced(p, n) && (p.input.reachable || reason == Unreachable)
  }

  lemma SeenReason(spec: Spec, rows: map<string, Row>, n: string, index: int, g: GuestReading, reachable: bool, now: int)
    requires n in rows && RowOk(spec, n, rows[n]) && rows[n].phase == Failed && g.outer.uid != ""
    ensures var r := SeenRow(spec, rows, n, index, g, reachable, now);
            && (g.outer.failed ==> r.phase == Failed && r.reason == OwnReason(g.outer))
            && (!g.outer.failed && rows[n].uid != "" && rows[n].uid != g.outer.uid ==> r.phase != Failed)
            && (!g.outer.failed && (rows[n].uid == "" || rows[n].uid == g.outer.uid) ==>
                  r.phase == Failed && r.reason == if reachable then rows[n].reason else Unreachable)
            && r.readyOnce == (if rows[n].uid != "" && rows[n].uid != g.outer.uid then r.phase == Ready else rows[n].readyOnce)
  {
  }

  /** One pass keeps a failed row's reason if and only if what it reads does. */
  lemma ReasonKeptExactly(pool: string, p: Pass, n: string, reason: Reason)
    requires StepOk(pool, p) && FailedFor(p.before.rows, n, reason)
    ensures FailedFor(p.after.rows, n, reason) <==> KeepsReason(p, n, reason)
  {
    assert RowOk(p.input.spec, n, p.before.rows[n]);
    if n in Cells(p.input.spec, Kept(p)) {
      SeenReason(p.input.spec, p.before.rows, n, ParseIndex(p.input.spec.pool, n).value, Kept(p).seen[n], p.input.reachable, p.input.now);
      assert n in p.rows;
    }
    FailedRowsStay(pool, p, n);
  }

  lemma FailedRowsStay(pool: string, p: Pass, n: string)
    requires StepOk(pool, p)
    ensures n in p.after.rows <==> n in p.rows
    ensures n in p.rows ==> (p.after.rows[n].phase == Failed <==> p.rows[n].phase == Failed)
    ensures n in p.rows && p.rows[n].phase == Failed ==> p.after.rows[n] == p.rows[n]
  {
  }

  /** Every pass of the stretch shows the failed row's reason. */
  predicate ShownThrough(run: seq<Pass>, a: nat, k: nat, n: string, reason: Reason)
    requires k <= |run|
  {
    forall i :: a <= i < k ==> FailedFor(run[i].after.rows, n, reason)
  }

  /** Every pass of the stretch reads what keeps it. */
  predicate KeptThrough(run: seq<Pass>, a: nat, k: nat, n: string, reason: Reason)
    requires k <= |run|
  {
    forall i :: a <= i < k ==> n in run[i].before.rows && KeepsReason(run[i], n, reason)
  }

  /** The diagnosis over a whole run: from a failed row on, every pass of a stretch shows its reason if
      and only if every pass of the stretch reads what keeps it. */
  lemma {:induction false} DiagnosisSurvives(pool: string, run: seq<Pass>, a: nat, k: nat, n: string, reason: Reason)
    requires Run(pool, run) && a <= k <= |run| && a < |run| && FailedFor(run[a].before.rows, n, reason)
    ensures ShownThrough(run, a, k, n, reason) <==> KeptThrough(run, a, k, n, reason)
    decreases k
  {
    if a < k {
      DiagnosisSurvives(pool, run, a, k - 1, n, reason);
      if ShownThrough(run, a, k - 1, n, reason) {
        LastOfStretch(pool, run, a, k - 1, n, reason);
      } else {
        assert !ShownThrough(run, a, k, n, reason);
        assert !KeptThrough(run, a, k, n, reason);
      }
    }
  }

  lemma LastOfStretch(pool: string, run: seq<Pass>, a: nat, k: nat, n: string, reason: Reason)
    requires Run(pool, run) && a <= k < |run| && FailedFor(run[a].before.rows, n, reason)
    requires ShownThrough(run, a, k, n, reason)
    ensures FailedFor(run[k].before.rows, n, reason)
    ensures FailedFor(run[k].after.rows, n, reason) <==> KeepsReason(run[k], n, reason)
  {
    if a < k {
      StepAt(pool, run, k);
      assert FailedFor(run[k - 1].after.rows, n, reason);
    }
    KeptAt(pool, run, k, n, reason);
  }

  lemma KeptAt(pool: string, run: seq<Pass>, k: nat, n: string, reason: Reason)
    requires Run(pool, run) && k < |run| && FailedFor(run[k].before.rows, n, reason)
    ensures FailedFor(run[k].after.rows, n, reason) <==> KeepsReason(run[k], n, reason)
  {
    StepAt(pool, run, k);
    ReasonKeptExactly(pool, run[k], n, reason);
  }

  // ----- what an outage does to the credential guard

  /** The rows that make the bootstrap credential suspect. */
  function Suspects(rows: map<string, Row>): set<string> {
    set n | n in rows && Suspect(rows[n])
  }

  /** Listed guests do not report failures of their own. */
  predicate NoneReports(p: Pass) {
    forall n :: n in Cells(p.input.spec, Kept(p)) ==> !Kept(p).seen[n].outer.failed
  }

  /** An outage takes the evidence away: of the suspect rows only tombstones stay suspect. */
  lemma OutageClearsSuspects(pool: string, p: Pass)
    requires StepOk(pool, p) && !p.input.reachable && NoneReports(p)
    ensures Suspects(p.after.rows) ==
            set n | n in Suspects(p.before.rows) && n !in Cells(p.input.spec, Kept(p)) && p.before.rows[n].index < p.input.spec.replicas
  {
    forall n ensures n in Suspects(p.after.rows) <==>
                     n in Suspects(p.before.rows) && n !in Cells(p.input.spec, Kept(p)) && p.before.rows[n].index < p.input.spec.replicas {
      OutageAtRow(pool, p, n);
    }
  }

  lemma OutageAtRow(pool: string, p: Pass, n: string)
    requires StepOk(pool, p) && !p.input.reachable && NoneReports(p)
    ensures n in Suspects(p.after.rows) <==>
            n in Suspects(p.before.rows) && n !in Cells(p.input.spec, Kept(p)) && p.before.rows[n].index < p.input.spec.replicas
  {
    FailedRowsStay(pool, p, n);
    if n in Suspects(p.after.rows) {
      ReasonStep(pool, p, n);
      assert FailedFor(p.before.rows, n, NodeNeverRegistered);
      ReasonKeptExactly(pool, p, n, NodeNeverRegistered);
    } else if n in Suspects(p.before.rows) {
      ReasonKeptExactly(pool, p, n, NodeNeverRegistered);
    }
  }

  /** The guard that bars creation while two cells have failed to register is disarmed by one outage
      pass: if their guests are still listed, fewer rows are suspect after it. */
  lemma OutageDisarmsGuard(pool: string, run: seq<Pass>, k: nat)
    requires Run(pool, run) && k < |run| && !run[k].input.reachable && NoneReports(run[k])
    requires exists n :: n in Suspects(run[k].before.rows) && n in Cells(run[k].input.spec, Kept(run[k]))
    ensures |Suspects(run[k].after.rows)| < |Suspects(run[k].before.rows)|
    ensures Suspects(run[k].before.rows) <= Cells(run[k].input.spec, Kept(run[k])) ==> Suspects(run[k].after.rows) == {}
  {
    StepAt(pool, run, k);
    OutageClearsSuspects(pool, run[k]);
    var n :| n in Suspects(run[k].before.rows) && n in Cells(run[k].input.spec, Kept(run[k]));
    StrictSubset(Suspects(run[k].after.rows), Suspects(run[k].before.rows), n);
  }

  lemma StrictSubset(a: set<string>, b: set<string>, n: string)
    requires a <= b && n in b && n !in a
    ensures |a| < |b|
  {
    SubsetSize(a, b - {n});
  }

  /** The planner counts the suspect rows it is given. */
  lemma SuspectsCounted(cells: seq<Row>, rows: map<string, Row>)
    requires Lists(cells, rows)
    ensures SuspectCount(cells) == |Suspects(rows)|
  {
    ListedCount(cells, rows, Suspect);
    assert Suspects(rows) == RowsWith(rows, Suspect);
  }
}
