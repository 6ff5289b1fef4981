/** How one cell's phase follows from what both clusters show, and when a draining
    cell may be removed. */
module Fsm {
  import opened CellTypes

  /** What the infrastructure cluster shows of a cell's guest, which is observed by index: `name` is the
      guest that was asked for. */
  datatype OuterState = OuterState(
    name: string,
    present: bool,
    running: bool,
    provisioned: bool,
    failed: bool,
    reason: Reason,
    devices: nat,
    uid: string,
    hash: string)

  /** What the workload cluster shows of a cell's Node. */
  datatype NodeState = NodeState(
    present: bool,
    ready: bool,
    kubeletLive: bool,
    instance: Option<string>)

  const NO_NODE := NodeState(false, false, false, None)

  datatype Observation = Observation(
    current: Phase,
    lastTransition: int,
    now: int,
    outer: OuterState,
    reachable: bool,
    node: NodeState,
    staleNode: bool,
    providerReady: bool,
    capacityDevices: int,
    expectedDevices: int,
    bootstrapTimeout: int,
    capacityTimeout: int)

  datatype Decision = Decision(phase: Phase, reason: Reason, reapStaleNode: bool)

  function FailedWith(reason: Reason): Decision {
    Decision(Failed, if reason == NoReason then CellProvisionTimeout else reason, false)
  }

  /** The in-progress phase, or Failed once that phase has been held past its budget. */
  function ExpireOr(obs: Observation, phase: Phase, budget: int, reason: Reason): Decision {
    if budget > 0 && obs.current == phase && obs.now - obs.lastTransition > budget then
      FailedWith(reason)
    else
      Decision(phase, reason, false)
  }

  function AdvanceCell(obs: Observation): Decision {
    if Leaving(obs.current) then
      Decision(obs.current, NoReason, false)
    else if !obs.reachable then
      if obs.outer.failed then FailedWith(obs.outer.reason)
      else Decision(obs.current, Unreachable, false)
    else if obs.outer.failed then
      FailedWith(obs.outer.reason)
    else if obs.current == Failed then
      Decision(Failed, NoReason, false)
    else if !obs.outer.present then
      Decision(Pending, NoReason, false)
    else if obs.outer.devices == 0 then
      ExpireOr(obs, AllocatingGPU, obs.bootstrapTimeout, CellProvisionTimeout)
    else if !obs.outer.provisioned then
      ExpireOr(obs, if obs.outer.running then Booting else GuestProvisioning,
               obs.bootstrapTimeout, CellProvisionTimeout)
    else if obs.staleNode then
      Decision(Joining, NodeNameCollision, true)
    else if !obs.node.present || !obs.node.ready then
      ExpireOr(obs, Joining, obs.bootstrapTimeout,
               if obs.node.present then JoinTimeout else NodeNeverRegistered)
    else if !obs.providerReady || obs.capacityDevices < obs.expectedDevices then
      ExpireOr(obs, AwaitingGPUCapacity, obs.capacityTimeout, GPUNotAdvertised)
    else
      Decision(Ready, NoReason, false)
  }

  /** Everything Ready promises: both layers up, and the GPU advertised. */
  predicate FullyUp(obs: Observation) {
    && obs.reachable
    && obs.outer.present && !obs.outer.failed && obs.outer.provisioned && obs.outer.devices > 0
    && obs.node.present && obs.node.ready && !obs.staleNode
    && obs.providerReady && obs.capacityDevices >= obs.expectedDevices
  }

  /** A stage a cell may wait in for a bounded time. */
  datatype Stage = Stage(phase: Phase, budget: int)

  /** The four milestones on the way to Ready, in order: a GPU is allocated, the VM is
      up, the Node joined, the GPU is advertised. */
  function Milestones(obs: Observation): seq<(bool, Stage)> {
    [ (obs.outer.devices > 0, Stage(AllocatingGPU, obs.bootstrapTimeout)),
      (obs.outer.provisioned,
       Stage(if obs.outer.running then Booting else GuestProvisioning, obs.bootstrapTimeout)),
      (obs.node.present && obs.node.ready && !obs.staleNode,
       Stage(Joining, if obs.staleNode then 0 else obs.bootstrapTimeout)),
      (obs.providerReady && obs.capacityDevices >= obs.expectedDevices,
       Stage(AwaitingGPUCapacity, obs.capacityTimeout)) ]
  }

  /** The first milestone not reached yet. Reaping a stale Node has no budget (zero). */
  function FirstUnmet(ms: seq<(bool, Stage)>): (r: Option<Stage>)
    ensures r.None? <==> forall i :: 0 <= i < |ms| ==> ms[i].0
    ensures r.Some? ==> exists i :: 0 <= i < |ms| && !ms[i].0 && ms[i].1 == r.value
                                    && forall j :: 0 <= j < i ==> ms[j].0
  {
    if ms == [] then None
    else if !ms[0].0 then Some(ms[0].1)
    else
      var r := FirstUnmet(ms[1..]);
      assert forall i :: 1 <= i < |ms| ==> ms[i] == ms[1..][i - 1];
      assert r.Some? ==> exists i :: 0 <= i < |ms[1..]| && !ms[1..][i].0 && ms[1..][i].1 == r.value
                                     && forall j :: 0 <= j < i ==> ms[1..][j].0;
      assert r.Some? ==> exists i :: 0 <= i < |ms| && !ms[i].0 && ms[i].1 == r.value
                                     && forall j :: 0 <= j < i ==> ms[j].0 by {
        if r.Some? {
          var i :| 0 <= i < |ms[1..]| && !ms[1..][i].0 && ms[1..][i].1 == r.value
                   && forall j :: 0 <= j < i ==> ms[1..][j].0;
          assert !ms[i + 1].0 && ms[i + 1].1 == r.value;
          forall j | 0 <= j < i + 1 ensures ms[j].0 {
            assert j > 0 ==> ms[1..][j - 1].0;
          }
        }
      }
      r
  }

  /** A phase the machine moves by itself: not terminal, not owned by teardown. */
  predicate Advancing(phase: Phase) {
    !Leaving(phase) && phase != Failed
  }

  /** The machine against its ladder of milestones: an advancing cell with a healthy
      guest and a readable workload cluster is Ready exactly when every milestone is
      met, and otherwise shows the first unmet one, or Failed once it has shown that
      same stage for longer than the stage's budget. */
  lemma {:induction false} LadderDecides(obs: Observation)
    requires Advancing(obs.current) && obs.reachable && obs.outer.present && !obs.outer.failed
    ensures var stage := FirstUnmet(Milestones(obs));
            AdvanceCell(obs).phase ==
              match stage
              case None => Ready
              case Some(s) =>
                if s.budget > 0 && obs.current == s.phase && obs.now - obs.lastTransition > s.budget
                then Failed else s.phase
    ensures FirstUnmet(Milestones(obs)).None? <==> FullyUp(obs)
  {
    var ms := Milestones(obs);
    assert ms[0].0 == (obs.outer.devices > 0);
    assert ms[1].0 == obs.outer.provisioned;
    var stage := FirstUnmet(ms);
    if stage.Some? {
      var i :| 0 <= i < |ms| && !ms[i].0 && ms[i].1 == stage.value && forall j :: 0 <= j < i ==> ms[j].0;
      if i >= 1 { assert ms[0].0; }
      if i >= 2 { assert ms[1].0; }
      if i >= 3 { assert ms[2].0; }
    } else {
      assert ms[2].0 && ms[3].0;
    }
  }

  /** Ready is shown for a cell that is fully up, or kept through an outage, and never otherwise. */
  lemma ReadyExactly(obs: Observation)
    ensures AdvanceCell(obs).phase == Ready <==>
            || (FullyUp(obs) && Advancing(obs.current))
            || (!obs.reachable && obs.current == Ready && !obs.outer.failed)
  {
  }

  /** A stale Node is reaped exactly for a cell on its way up whose guest is up: never before, never
      while the workload cluster cannot be read, and never for a failed or leaving cell. */
  lemma ReapsExactly(obs: Observation)
    ensures AdvanceCell(obs).reapStaleNode <==>
            && obs.reachable && Advancing(obs.current) && obs.staleNode
            && obs.outer.present && !obs.outer.failed && obs.outer.provisioned && obs.outer.devices > 0
  {
  }

  datatype DrainDecision = DrainDecision(proceed: bool, reason: Reason)

  function AdvanceDrain(allocs: Option<Allocations>, poolDeleting: bool, force: bool,
                        drainingSince: int, now: int, drainTimeout: int): DrainDecision
  {
    if force && poolDeleting then DrainDecision(true, CellDraining)
    else if allocs.Some? && allocs.value.Empty() then DrainDecision(true, CellDraining)
    else if poolDeleting && drainTimeout > 0 && now - drainingSince > drainTimeout then
      DrainDecision(true, DrainTimedOut)
    else DrainDecision(false, WaitingForAllocations)
  }
}
