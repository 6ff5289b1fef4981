/** What the pods of a Node hold of its GPUs: the reading behind the drain gate, behind idleness
    and behind the pool's allocated totals (device-plugin mode). */
module Shares {
  import opened CellTypes
  import opened Membership

  /** One device share held by one workload. */
  datatype Share = Share(uuid: string, memoryMiB: int, corePercent: int)

  /** A pod as the reading sees it. Its two annotations arrive decoded; `None` is a value that does
      not parse. */
  datatype Pod = Pod(node: string, terminal: bool, granted: Option<seq<Share>>, binding: Option<seq<Share>>)

  predicate Parses(pod: Pod) {
    pod.granted.Some? && pod.binding.Some?
  }

  /** The pod runs or will run on the Node. */
  predicate Counts(pod: Pod, node: string) {
    pod.node == node && !pod.terminal
  }

  /** The pod holds a share or is binding one, or may: its annotations are not readably empty. */
  predicate Busy(pod: Pod) {
    !pod.terminal && (!Parses(pod) || SharesOf(pod) != [])
  }

  function SharesOf(pod: Pod): seq<Share> {
    if Parses(pod) then pod.granted.value + pod.binding.value else []
  }

  // ----- sums

  function SumMemory(shares: seq<Share>): int {
    if shares == [] then 0 else SumMemory(shares[..|shares| - 1]) + shares[|shares| - 1].memoryMiB
  }

  function SumCores(shares: seq<Share>): int {
    if shares == [] then 0 else SumCores(shares[..|shares| - 1]) + shares[|shares| - 1].corePercent
  }

  /** Sums are additive over concatenation. */
  lemma {:induction false} SumsAdd(a: seq<Share>, b: seq<Share>)
    ensures SumMemory(a + b) == SumMemory(a) + SumMemory(b)
    ensures SumCores(a + b) == SumCores(a) + SumCores(b)
  {
    if b == [] {
      assert a + b == a;
    } else {
      assert (a + b)[..|a + b| - 1] == a + b[..|b| - 1];
      SumsAdd(a, b[..|b| - 1]);
    }
  }

  /** Sum of one field over a map, in any order. */
  ghost function SumOver<V(!new)>(m: map<string, V>, f: V -> int): int
    decreases |m|
  {
    if m == map[] then 0
    else
      var k :| k in m;
      f(m[k]) + SumOver(m - {k}, f)
  }

  lemma {:induction false} SumOverRemove<V(!new)>(m: map<string, V>, f: V -> int, k: string)
    requires k in m
    ensures SumOver(m, f) == f(m[k]) + SumOver(m - {k}, f)
    decreases |m|
  {
    var j :| j in m && SumOver(m, f) == f(m[j]) + SumOver(m - {j}, f);
    if j != k {
      SumOverRemove(m - {j}, f, k);
      SumOverRemove(m - {k}, f, j);
      assert m - {j} - {k} == m - {k} - {j};
    }
  }

  /** Writing one entry changes the sum by the difference. */
  lemma SumOverWrite<V(!new)>(m: map<string, V>, f: V -> int, k: string, v: V)
    ensures SumOver(m[k := v], f) == SumOver(m, f) + f(v) - (if k in m then f(m[k]) else 0)
  {
    SumOverRemove(m[k := v], f, k);
    if k in m {
      SumOverRemove(m, f, k);
      assert m[k := v] - {k} == m - {k};
    } else {
      assert m[k := v] - {k} == m;
    }
  }

  function MemoryOf(s: Share): int { s.memoryMiB }
  function CoresOf(s: Share): int { s.corePercent }

  // ----- the reading

  /** The shares on a Node, pod by pod. */
  function HeldOn(pods: seq<Pod>, node: string): seq<Share> {
    if pods == [] then []
    else HeldOn(pods[..|pods| - 1], node) +
         (if Counts(pods[|pods| - 1], node) then SharesOf(pods[|pods| - 1]) else [])
  }

  function ConsumersOn(pods: seq<Pod>, node: string): nat {
    if pods == [] then 0
    else ConsumersOn(pods[..|pods| - 1], node) +
         (if Counts(pods[|pods| - 1], node) && Busy(pods[|pods| - 1]) then 1 else 0)
  }

  predicate BindingOn(pods: seq<Pod>, node: string) {
    exists p :: p in pods && Counts(p, node) && p.binding.Some? && p.binding.value != []
  }

  /** Every annotation on the Node's own pods parses. */
  predicate ReadableOn(pods: seq<Pod>, node: string) {
    forall p :: p in pods && Counts(p, node) ==> Parses(p)
  }

  function AddShare(byUuid: map<string, Share>, s: Share): map<string, Share> {
    var was := if s.uuid in byUuid then byUuid[s.uuid] else Share(s.uuid, 0, 0);
    byUuid[s.uuid := Share(s.uuid, was.memoryMiB + s.memoryMiB, was.corePercent + s.corePercent)]
  }

  function ByUuid(shares: seq<Share>): map<string, Share> {
    if shares == [] then map[] else AddShare(ByUuid(shares[..|shares| - 1]), shares[|shares| - 1])
  }

  /** The per-device breakdown keeps every share: its sums are the flat sums. */
  lemma {:induction false} BreakdownConserves(shares: seq<Share>)
    ensures SumOver(ByUuid(shares), MemoryOf) == SumMemory(shares)
    ensures SumOver(ByUuid(shares), CoresOf) == SumCores(shares)
  {
    if shares != [] {
      var front, last := shares[..|shares| - 1], shares[|shares| - 1];
      BreakdownConserves(front);
      var was := if last.uuid in ByUuid(front) then ByUuid(front)[last.uuid] else Share(last.uuid, 0, 0);
      var sum := Share(last.uuid, was.memoryMiB + last.memoryMiB, was.corePercent + last.corePercent);
      SumOverWrite(ByUuid(front), MemoryOf, last.uuid, sum);
      SumOverWrite(ByUuid(front), CoresOf, last.uuid, sum);
    }
  }

  datatype Reading = Reading(held: Allocations, byUuid: map<string, Share>)

  method AddShares(shares: seq<Share>, mem0: int, cores0: int, byUuid0: map<string, Share>, ghost before: seq<Share>)
    returns (mem: int, cores: int, byUuid: map<string, Share>)
    requires mem0 == SumMemory(before) && cores0 == SumCores(before) && byUuid0 == ByUuid(before)
    ensures mem == SumMemory(before + shares) && cores == SumCores(before + shares) && byUuid == ByUuid(before + shares)
  {
    mem, cores, byUuid := mem0, cores0, byUuid0;
    assert before + shares[..0] == before;
    for k := 0 to |shares|
      invariant mem == SumMemory(before + shares[..k]) && cores == SumCores(before + shares[..k])
      invariant byUuid == ByUuid(before + shares[..k])
    {
      assert (before + shares[..k + 1])[..|before| + k] == before + shares[..k];
      var s := shares[k];
      mem := mem + s.memoryMiB;
      cores := cores + s.corePercent;
      byUuid := AddShare(byUuid, s);
    }
    assert shares[..|shares|] == shares;
  }

  /** The loop over a Node's pods. It fails if any of them cannot be read, and otherwise counts the
      busy pods, notes a binding in flight, and sums what they hold in total and per device. */
  method NodeAllocations(pods: seq<Pod>, node: string) returns (r: Option<Reading>)
    ensures r.Some? <==> ReadableOn(pods, node)
    ensures r.Some? ==>
              && r.value.held == Allocations(ConsumersOn(pods, node), SumMemory(HeldOn(pods, node)),
                                             SumCores(HeldOn(pods, node)), BindingOn(pods, node))
              && r.value.byUuid == ByUuid(HeldOn(pods, node))
              && r.value.held.consumers == |Holders(pods, node)|
              && r.value.held.memoryMiB == HeldBy(pods, node).memoryMiB && r.value.held.corePercent == HeldBy(pods, node).corePercent
  {
    var consumers, mem, cores, inFlight, byUuid := 0, 0, 0, false, map[];
    for k := 0 to |pods|
      invariant ReadableOn(pods[..k], node)
      invariant consumers == ConsumersOn(pods[..k], node) && inFlight == BindingOn(pods[..k], node)
      invariant mem == SumMemory(HeldOn(pods[..k], node)) && cores == SumCores(HeldOn(pods[..k], node))
      invariant byUuid == ByUuid(HeldOn(pods[..k], node))
    {
      ReadingStep(pods, k, node);
      var pod := pods[k];
      if pod.node != node || pod.terminal {
        continue;
      }
      if pod.granted.None? || pod.binding.None? {
        assert pod in pods && !ReadableOn(pods, node);
        return None;
      }
      var granted, binding := pod.granted.value, pod.binding.value;
      if |granted| == 0 && |binding| == 0 {
        assert granted + binding == [];
        continue;
      }
      if |binding| > 0 {
        inFlight := true;
      }
      consumers := consumers + 1;
      assert |SharesOf(pod)| > 0;
      mem, cores, byUuid := AddShares(granted + binding, mem, cores, byUuid, HeldOn(pods[..k], node));
    }
    assert pods[..|pods|] == pods;
    ReadingAddsUp(pods, node);
    r := Some(Reading(Allocations(consumers, mem, cores, inFlight), byUuid));
  }

  /** One more pod. */
  lemma ReadingStep(pods: seq<Pod>, k: nat, node: string)
    requires k < |pods|
    ensures var pod := pods[k];
            && (ReadableOn(pods[..k + 1], node) <==> ReadableOn(pods[..k], node) && (Counts(pod, node) ==> Parses(pod)))
            && ConsumersOn(pods[..k + 1], node) == ConsumersOn(pods[..k], node) + (if Counts(pod, node) && Busy(pod) then 1 else 0)
            && HeldOn(pods[..k + 1], node) == HeldOn(pods[..k], node) + (if Counts(pod, node) then SharesOf(pod) else [])
            && ((Counts(pod, node) && SharesOf(pod) != []) || HeldOn(pods[..k + 1], node) == HeldOn(pods[..k], node))
            && (BindingOn(pods[..k + 1], node) <==>
                  BindingOn(pods[..k], node) || (Counts(pod, node) && pod.binding.Some? && pod.binding.value != []))
  {
    PrefixStep(pods, k);
    BindingStep(pods, k, node);
    var pod := pods[k];
    assert pods[..k + 1][k] == pod;
    assert forall p :: p in pods[..k] ==> p in pods[..k + 1];
    assert forall p :: p in pods[..k + 1] ==> p in pods[..k] || p == pod;
    assert pod in pods[..k + 1];
  }

  lemma BindingStep(pods: seq<Pod>, k: nat, node: string)
    requires k < |pods|
    ensures BindingOn(pods[..k + 1], node) ==
            (BindingOn(pods[..k], node)
             || (Counts(pods[k], node) && pods[k].binding.Some? && pods[k].binding.value != []))
  {
    PrefixStep(pods, k);
    var pod := pods[k];
    if BindingOn(pods[..k], node) {
      var p :| p in pods[..k] && Counts(p, node) && p.binding.Some? && p.binding.value != [];
      assert p in pods[..k + 1];
    }
    if Counts(pod, node) && pod.binding.Some? && pod.binding.value != [] {
      assert pod in pods[..k + 1];
    }
  }

  // ----- the reading told from the pods

  datatype Amounts = Amounts(memoryMiB: int, corePercent: int)

  function AddUp(shares: seq<Share>): Amounts {
    if shares == [] then Amounts(0, 0)
    else
      var rest := AddUp(shares[1..]);
      Amounts(shares[0].memoryMiB + rest.memoryMiB, shares[0].corePercent + rest.corePercent)
  }

  /** What the unfinished pods of the Node were granted and are binding. */
  function HeldBy(pods: seq<Pod>, node: string): Amounts {
    if pods == [] then Amounts(0, 0)
    else
      var p, rest := pods[0], HeldBy(pods[1..], node);
      if p.node == node && !p.terminal && p.granted.Some? && p.binding.Some? then
        var granted, binding := AddUp(p.granted.value), AddUp(p.binding.value);
        Amounts(granted.memoryMiB + binding.memoryMiB + rest.memoryMiB, granted.corePercent + binding.corePercent + rest.corePercent)
      else rest
  }

  /** The unfinished pods of the Node that were granted or are binding something. */
  function Holders(pods: seq<Pod>, node: string): set<int> {
    set i | 0 <= i < |pods| && pods[i].node == node && !pods[i].terminal
            && pods[i].granted.Some? && pods[i].binding.Some? && (pods[i].granted.value != [] || pods[i].binding.value != [])
  }

  lemma {:induction false} AddUpIsSum(shares: seq<Share>)
    ensures AddUp(shares) == Amounts(SumMemory(shares), SumCores(shares))
  {
    if shares != [] {
      AddUpIsSum(shares[1..]);
      SumsAdd([shares[0]], shares[1..]);
      assert shares == [shares[0]] + shares[1..] && [shares[0]][..0] == [];
    }
  }

  lemma {:induction false} HeldOnSplits(pods: seq<Pod>, node: string)
    requires pods != []
    ensures HeldOn(pods, node) == (if Counts(pods[0], node) then SharesOf(pods[0]) else []) + HeldOn(pods[1..], node)
  {
    var front, last := pods[..|pods| - 1], pods[|pods| - 1];
    if |pods| == 1 {
      assert front == [] && pods[1..] == [];
    } else {
      HeldOnSplits(front, node);
      assert front[1..] == pods[1..][..|pods| - 2];
    }
  }

  lemma {:induction false} HeldAddsUp(pods: seq<Pod>, node: string)
    ensures HeldBy(pods, node) == Amounts(SumMemory(HeldOn(pods, node)), SumCores(HeldOn(pods, node)))
  {
    if pods != [] {
      HeldAddsUp(pods[1..], node);
      HeldOnSplits(pods, node);
      var p := pods[0];
      SumsAdd(if Counts(p, node) then SharesOf(p) else [], HeldOn(pods[1..], node));
      if Parses(p) {
        SumsAdd(p.granted.value, p.binding.value);
        AddUpIsSum(p.granted.value);
        AddUpIsSum(p.binding.value);
      }
    }
  }

  lemma {:induction false} HoldersCounted(pods: seq<Pod>, node: string)
    requires ReadableOn(pods, node)
    ensures ConsumersOn(pods, node) == |Holders(pods, node)|
  {
    if pods == [] {
      assert Holders(pods, node) == {};
    } else {
      var front, last := pods[..|pods| - 1], pods[|pods| - 1];
      assert forall p :: p in front ==> p in pods;
      assert last in pods;
      HoldersCounted(front, node);
      HoldersNext(pods, node);
    }
  }

  lemma HoldersNext(pods: seq<Pod>, node: string)
    requires pods != [] && (Counts(pods[|pods| - 1], node) ==> Parses(pods[|pods| - 1]))
    ensures var last := pods[|pods| - 1];
            |Holders(pods, node)| == |Holders(pods[..|pods| - 1], node)| + (if Counts(last, node) && Busy(last) then 1 else 0)
  {
    var k, last := |pods| - 1, pods[|pods| - 1];
    if Counts(last, node) {
      assert SharesOf(last) == [] <==> last.granted.value == [] && last.binding.value == [] by {
        assert |SharesOf(last)| == |last.granted.value| + |last.binding.value|;
      }
    }
    assert Holders(pods, node) == Holders(pods[..k], node) + if Counts(last, node) && Busy(last) then {k} else {};
  }

  /** The reading is that of the pods: as many consumers as unfinished pods hold or bind something there,
      and the memory and compute they hold and bind. */
  lemma ReadingAddsUp(pods: seq<Pod>, node: string)
    requires ReadableOn(pods, node)
    ensures ConsumersOn(pods, node) == |Holders(pods, node)|
    ensures SumMemory(HeldOn(pods, node)) == HeldBy(pods, node).memoryMiB
    ensures SumCores(HeldOn(pods, node)) == HeldBy(pods, node).corePercent
    ensures BindingOn(pods, node) <==> exists i :: i in Holders(pods, node) && pods[i].binding.value != []
  {
    HoldersCounted(pods, node);
    HeldAddsUp(pods, node);
    if BindingOn(pods, node) {
      var p :| p in pods && Counts(p, node) && p.binding.Some? && p.binding.value != [];
      var i :| 0 <= i < |pods| && pods[i] == p;
      assert i in Holders(pods, node);
    }
    if i :| i in Holders(pods, node) && pods[i].binding.value != [] {
      assert pods[i] in pods;
    }
  }

  // ----- what an empty reading means

  lemma {:induction false} NoConsumers(pods: seq<Pod>, node: string)
    ensures ConsumersOn(pods, node) == 0 <==> forall p :: p in pods && Counts(p, node) ==> !Busy(p)
  {
    if pods != [] {
      NoConsumers(pods[..|pods| - 1], node);
      assert pods == pods[..|pods| - 1] + [pods[|pods| - 1]];
    }
  }

  ghost function ReadingOf(pods: seq<Pod>, node: string): Option<Allocations> {
    if ReadableOn(pods, node) then
      Some(Allocations(ConsumersOn(pods, node), SumMemory(HeldOn(pods, node)), SumCores(HeldOn(pods, node)),
                       BindingOn(pods, node)))
    else None
  }

  /** The gate's question, answered exactly: the reading succeeds and is empty if and only if no pod
      on the Node holds or is binding a share. */
  lemma EmptyMeansIdle(pods: seq<Pod>, node: string)
    ensures (ReadingOf(pods, node).Some? && ReadingOf(pods, node).value.Empty()) <==>
            forall p :: p in pods && p.node == node ==> !Busy(p)
    ensures (ReadingOf(pods, node).Some? && ReadingOf(pods, node).value.Empty()) <==>
            forall p :: p in pods && p.node == node && !p.terminal ==> p.granted == Some([]) && p.binding == Some([])
  {
    NoConsumers(pods, node);
    assert forall p: Pod :: Busy(p) <==> !p.terminal && !(p.granted == Some([]) && p.binding == Some([])) by {
      forall p: Pod | Parses(p) ensures SharesOf(p) == [] <==> p.granted.value == [] && p.binding.value == [] {
        assert |SharesOf(p)| == |p.granted.value| + |p.binding.value|;
      }
    }
    if forall p :: p in pods && p.node == node ==> !Busy(p) {
      assert ReadableOn(pods, node);
      BindingIsBusy(pods, node);
    }
  }

  lemma BindingIsBusy(pods: seq<Pod>, node: string)
    ensures BindingOn(pods, node) ==> exists p :: p in pods && Counts(p, node) && Busy(p)
  {
    if BindingOn(pods, node) {
      var p :| p in pods && Counts(p, node) && p.binding.Some? && p.binding.value != [];
      assert Parses(p) ==> |SharesOf(p)| > 0;
      assert Busy(p);
    }
  }
}
