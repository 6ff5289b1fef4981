/** Which cells a pool creates, which it drains, and which failed cells it replaces. */
module Membership {
  import opened CellTypes
  import opened CellId
  import opened Sequences

  const DEFAULT_MAX_CREATING: int := 2
  const MAX_FAILURES_PER_INDEX: int := 5
  const HOPELESS_POOL_FAILURES: int := 3
  const SUSPECT_CREDENTIAL_FAILURES: int := 2
  const BACKOFF_BASE: int := 30
  const BACKOFF_CAP: int := 1800

  // ----- replacement backoff

  function Pow2(n: nat): (r: nat)
    ensures r >= 1
  {
    if n == 0 then 1 else 2 * Pow2(n - 1)
  }

  /** The replacement delay in closed form. */
  function BackoffAfter(failures: int): int {
    if failures <= 0 then 0 else Min(BACKOFF_BASE * Pow2(failures - 1), BACKOFF_CAP)
  }

  lemma {:induction false} Pow2Monotone(a: nat, b: nat)
    requires a <= b
    ensures Pow2(a) <= Pow2(b)
    decreases b
  {
    if a < b {
      Pow2Monotone(a, b - 1);
    }
  }

  /** The doubling loop with its early exit computes the closed form. */
  method Backoff(failures: int) returns (d: int)
    ensures d == BackoffAfter(failures)
  {
    if failures <= 0 {
      return 0;
    }
    d := BACKOFF_BASE;
    var i := 1;
    while i < failures
      invariant 1 <= i <= failures
      invariant d == BACKOFF_BASE * Pow2(i - 1) && d < BACKOFF_CAP
    {
      d := d * 2;
      assert Pow2(i) == 2 * Pow2(i - 1);
      if d >= BACKOFF_CAP {
        Pow2Monotone(i, failures - 1);
        return BACKOFF_CAP;
      }
      i := i + 1;
    }
  }

  /** The delay in seconds, failure by failure. */
  lemma BackoffTable(failures: int)
    ensures failures <= 0 ==> BackoffAfter(failures) == 0
    ensures 1 <= failures <= 6 ==> BackoffAfter(failures) == [30, 60, 120, 240, 480, 960][failures - 1]
    ensures failures >= 7 ==> BackoffAfter(failures) == 1800
  {
    assert Pow2(0) == 1 && Pow2(1) == 2 && Pow2(2) == 4 && Pow2(3) == 8 && Pow2(4) == 16 && Pow2(5) == 32 && Pow2(6) == 64;
    if failures >= 7 {
      Pow2Monotone(6, failures - 1);
    }
  }

  // ----- replacement

  predicate RebuildWouldNotHelp(c: Row, providerUsable: bool) {
    !providerUsable && c.nodeReady && c.capacityDevices == 0
  }

  predicate ShouldReplace(c: Row, now: int, providerUsable: bool) {
    && c.phase == Failed
    && c.failureCount < MAX_FAILURES_PER_INDEX
    && !RebuildWouldNotHelp(c, providerUsable)
    && (c.since.None? || now - c.since.value >= BackoffAfter(c.failureCount))
  }

  // ----- counting rows

  /** The row holds its index: only a failed row whose guest is gone does not. */
  predicate Occupies(c: Row) {
    c.phase == Failed ==> c.uid != ""
  }

  predicate CountsLive(c: Row) {
    !Leaving(c.phase) && Occupies(c)
  }

  predicate CountsInFlight(c: Row) {
    !Leaving(c.phase) && c.phase != Failed && c.phase != Ready
  }

  predicate CanRemove(c: Row) {
    !Leaving(c.phase) && c.phase != Failed
  }

  predicate Suspect(c: Row) {
    !c.readyOnce && c.phase == Failed && c.reason == NodeNeverRegistered
  }

  function LiveCount(cells: seq<Row>): nat { CountIf(cells, CountsLive) }
  function InFlightCount(cells: seq<Row>): nat { CountIf(cells, CountsInFlight) }
  function SuspectCount(cells: seq<Row>): nat { CountIf(cells, Suspect) }

  function TotalFailures(cells: seq<Row>): int {
    if cells == [] then 0
    else TotalFailures(cells[..|cells| - 1]) + cells[|cells| - 1].failureCount
  }

  function UsedIndexes(cells: seq<Row>): set<int> {
    set c | c in cells && Occupies(c) :: c.index
  }

  function FailedRows(cells: seq<Row>): seq<Row> {
    if cells == [] then []
    else FailedRows(cells[..|cells| - 1]) +
         (if cells[|cells| - 1].phase == Failed then [cells[|cells| - 1]] else [])
  }

  function CandidateIndexes(cells: seq<Row>): seq<int> {
    if cells == [] then []
    else CandidateIndexes(cells[..|cells| - 1]) +
         (if CanRemove(cells[|cells| - 1]) then [cells[|cells| - 1].index] else [])
  }

  function RemovableNames(cells: seq<Row>): set<string> {
    set c | c in cells && CanRemove(c) :: c.name
  }

  lemma PrefixStep<T>(s: seq<T>, k: nat)
    requires k < |s|
    ensures s[..k + 1] == s[..k] + [s[k]] && s[..k + 1][..k] == s[..k]
  {
  }

  /** The scaler's baseline is the planner's live count. */
  method LiveCells(cells: seq<Row>) returns (n: int)
    ensures n == LiveCount(cells)
  {
    n := 0;
    for k := 0 to |cells|
      invariant n == LiveCount(cells[..k])
    {
      PrefixStep(cells, k);
      match cells[k].phase {
        case Draining =>
        case Deleting =>
        case Failed => if cells[k].uid != "" { n := n + 1; }
        case _ => n := n + 1;
      }
    }
    assert cells[..|cells|] == cells;
  }

  method SuspectCredentialFailures(cells: seq<Row>) returns (n: int)
    ensures n == SuspectCount(cells)
  {
    n := 0;
    for k := 0 to |cells|
      invariant n == SuspectCount(cells[..k])
    {
      PrefixStep(cells, k);
      if !cells[k].readyOnce && cells[k].phase == Failed && cells[k].reason == NodeNeverRegistered {
        n := n + 1;
      }
    }
    assert cells[..|cells|] == cells;
  }

  // ----- the plan

  datatype MembershipInput = MembershipInput(
    desired: int,
    cells: seq<Row>,
    now: int,
    freeGPUs: Option<int>,
    maxCreating: int,
    reachable: bool,
    everReady: bool,
    providerUsable: bool,
    drainPreference: seq<string>)

  datatype MembershipPlan = MembershipPlan(
    create: seq<int>,
    drain: seq<string>,
    stalled: bool,
    reason: Reason,
    requeueAfter: int)

  const NO_PLAN := MembershipPlan([], [], false, NoReason, 0)

  function Cap(maxCreating: int): int {
    if maxCreating <= 0 then DEFAULT_MAX_CREATING else maxCreating
  }

  function SoonerOf(a: int, b: int): int {
    if a == 0 || (b > 0 && b < a) then b else a
  }

  /** Time until a failed row's backoff expires; zero when it has. */
  function Remaining(c: Row, now: int): int {
    if c.since.None? then 0
    else Max(0, BackoffAfter(c.failureCount) - (now - c.since.value))
  }

  datatype Review = Review(stall: Reason, requeueAfter: int)

  /** The failed rows in order: the first hopeless one stalls the pool, the others set the
      next wake-up. */
  function ReviewFailed(failed: seq<Row>, providerUsable: bool, now: int, requeue: int): Review {
    if failed == [] then Review(NoReason, requeue)
    else if RebuildWouldNotHelp(failed[0], providerUsable) then Review(FaultNotInTheCell, requeue)
    else if failed[0].failureCount >= MAX_FAILURES_PER_INDEX then Review(CellReplacementExhausted, requeue)
    else ReviewFailed(failed[1..], providerUsable, now,
                      if Remaining(failed[0], now) > 0 then SoonerOf(requeue, Remaining(failed[0], now)) else requeue)
  }

  function FreshIndexes(used: set<int>, n: nat): seq<int>
    decreases n
  {
    if n == 0 then []
    else [LowestFree(used)] + FreshIndexes(used + {LowestFree(used)}, n - 1)
  }

  function PreferredDrain(pref: seq<string>, removable: set<string>, want: int): seq<string> {
    if pref == [] || want <= 0 then []
    else if pref[0] in removable then
      [pref[0]] + PreferredDrain(pref[1..], removable - {pref[0]}, want - 1)
    else PreferredDrain(pref[1..], removable, want)
  }

  function TakeIndex(cells: seq<Row>, idx: int, removable: set<string>): seq<string> {
    if cells == [] then []
    else if cells[0].index == idx && cells[0].name in removable then
      [cells[0].name] + TakeIndex(cells[1..], idx, removable - {cells[0].name})
    else TakeIndex(cells[1..], idx, removable)
  }

  function NameSet(names: seq<string>): set<string> {
    set n | n in names
  }

  function HighDrain(order: seq<int>, cells: seq<Row>, removable: set<string>, want: int): seq<string> {
    if order == [] || want <= 0 then []
    else
      var batch := TakeIndex(cells, order[0], removable);
      batch + HighDrain(order[1..], cells, removable - NameSet(batch), want - |batch|)
  }

  /** The indexes of the removable rows, highest first. */
  function DownwardOrder(cells: seq<Row>): seq<int> {
    HighestIndexes(CandidateIndexes(cells), |CandidateIndexes(cells)|)
  }

  function DrainFrom(cells: seq<Row>, order: seq<int>, removable: set<string>, pref: seq<string>, want: int): seq<string> {
    var first := PreferredDrain(pref, removable, want);
    first + HighDrain(order, cells, removable - NameSet(first), want - |first|)
  }

  function DrainPlan(cells: seq<Row>, pref: seq<string>, want: int): seq<string> {
    DrainFrom(cells, DownwardOrder(cells), RemovableNames(cells), pref, want)
  }

  /** The plan of a pool that is not too large: it drains nothing and wakes when the review says. */
  function Growth(inp: MembershipInput, review: Review): (plan: MembershipPlan)
    requires LiveCount(inp.cells) <= inp.desired
    ensures plan.requeueAfter == review.requeueAfter && plan.drain == []
  {
    var live := LiveCount(inp.cells);
    var base := NO_PLAN.(requeueAfter := review.requeueAfter);
    if review.stall != NoReason then base.(stalled := true, reason := review.stall)
    else if inp.desired <= live then base
    else if !inp.everReady && TotalFailures(inp.cells) >= HOPELESS_POOL_FAILURES then
      base.(stalled := true, reason := CellReplacementExhausted)
    else if SuspectCount(inp.cells) >= SUSPECT_CREDENTIAL_FAILURES then
      base.(stalled := true, reason := BootstrapCredentialSuspect)
    else if !inp.reachable then base.(stalled := true, reason := Unreachable)
    else
      var room := Cap(inp.maxCreating) - InFlightCount(inp.cells);
      if room <= 0 then base
      else if inp.freeGPUs.Some? && inp.freeGPUs.value <= 0 then
        base.(stalled := true, reason := InsufficientGPUs)
      else
        var want := Min(inp.desired - live, room);
        if inp.freeGPUs.Some? && want > inp.freeGPUs.value then
          base.(create := FreshIndexes(UsedIndexes(inp.cells), inp.freeGPUs.value), reason := InsufficientGPUs)
        else
          base.(create := FreshIndexes(UsedIndexes(inp.cells), want))
  }

  function Plan(inp: MembershipInput): MembershipPlan {
    var live := LiveCount(inp.cells);
    if inp.desired < live then
      if !inp.reachable then NO_PLAN.(stalled := true, reason := Unreachable)
      else NO_PLAN.(drain := DrainPlan(inp.cells, inp.drainPreference, live - inp.desired))
    else Growth(inp, ReviewFailed(FailedRows(inp.cells), inp.providerUsable, inp.now, 0))
  }

  // ----- the loops that compute it

  lemma CountStep(cells: seq<Row>, k: nat)
    requires k < |cells|
    ensures var c := cells[k];
            && LiveCount(cells[..k + 1]) == LiveCount(cells[..k]) + (if CountsLive(c) then 1 else 0)
            && InFlightCount(cells[..k + 1]) == InFlightCount(cells[..k]) + (if CountsInFlight(c) then 1 else 0)
            && TotalFailures(cells[..k + 1]) == TotalFailures(cells[..k]) + c.failureCount
            && FailedRows(cells[..k + 1]) == FailedRows(cells[..k]) + (if c.phase == Failed then [c] else [])
            && UsedIndexes(cells[..k + 1]) == UsedIndexes(cells[..k]) + (if Occupies(c) then {c.index} else {})
  {
    PrefixStep(cells, k);
  }

  lemma IndexSetStep(used: seq<int>, x: int)
    ensures IndexSet(used + [x]) == IndexSet(used) + {x}
  {
  }

  method CountPhase(cells: seq<Row>)
    returns (used: seq<int>, inFlight: int, failed: seq<Row>, live: int, totalFails: int)
    ensures IndexSet(used) == UsedIndexes(cells)
    ensures inFlight == InFlightCount(cells) && live == LiveCount(cells)
    ensures failed == FailedRows(cells) && totalFails == TotalFailures(cells)
  {
    used, inFlight, failed, live, totalFails := [], 0, [], 0, 0;
    for k := 0 to |cells|
      invariant IndexSet(used) == UsedIndexes(cells[..k])
      invariant inFlight == InFlightCount(cells[..k]) && live == LiveCount(cells[..k])
      invariant failed == FailedRows(cells[..k]) && totalFails == TotalFailures(cells[..k])
    {
      CountStep(cells, k);
      var c := cells[k];
      IndexSetStep(used, c.index);
      totalFails := totalFails + c.failureCount;
      match c.phase {
        case Failed =>
          failed := failed + [c];
          if c.uid != "" {
            used := used + [c.index];
            live := live + 1;
          }
        case Draining => used := used + [c.index];
        case Deleting => used := used + [c.index];
        case Ready =>
          used := used + [c.index];
          live := live + 1;
        case _ =>
          used := used + [c.index];
          live := live + 1;
          inFlight := inFlight + 1;
      }
    }
    assert cells[..|cells|] == cells;
  }

  method TakeBatch(cells: seq<Row>, idx: int, before: set<string>)
    returns (batch: seq<string>, removable: set<string>)
    ensures batch == TakeIndex(cells, idx, before)
    ensures removable == before - NameSet(batch)
  {
    batch, removable := [], before;
    for i := 0 to |cells|
      invariant batch + TakeIndex(cells[i..], idx, removable) == TakeIndex(cells, idx, before)
      invariant removable == before - NameSet(batch)
    {
      assert cells[i..][1..] == cells[i + 1..];
      if cells[i].index == idx && cells[i].name in removable {
        assert NameSet(batch + [cells[i].name]) == NameSet(batch) + {cells[i].name};
        batch := batch + [cells[i].name];
        removable := removable - {cells[i].name};
      }
    }
  }

  lemma HighNext(drain: seq<string>, order: seq<int>, k: nat, cells: seq<Row>, removable: set<string>, want: int)
    requires k < |order| && want > 0
    ensures var batch := TakeIndex(cells, order[k], removable);
            drain + HighDrain(order[k..], cells, removable, want) ==
            drain + batch + HighDrain(order[k + 1..], cells, removable - NameSet(batch), want - |batch|)
  {
    assert order[k..][1..] == order[k + 1..];
  }

  method SelectByIndex(order: seq<int>, cells: seq<Row>, removable0: set<string>, want0: int)
    returns (drain: seq<string>)
    ensures drain == HighDrain(order, cells, removable0, want0)
  {
    drain := [];
    var removable, want := removable0, want0;
    for k := 0 to |order|
      invariant drain + HighDrain(order[k..], cells, removable, want) == HighDrain(order, cells, removable0, want0)
    {
      if want <= 0 {
        break;
      }
      HighNext(drain, order, k, cells, removable, want);
      var batch;
      batch, removable := TakeBatch(cells, order[k], removable);
      drain, want := drain + batch, want - |batch|;
    }
  }

  /** The loop that collects the removable rows. */
  method Removable(cells: seq<Row>) returns (removable: set<string>, candidates: seq<int>)
    ensures removable == RemovableNames(cells) && candidates == CandidateIndexes(cells)
  {
    removable, candidates := {}, [];
    for k := 0 to |cells|
      invariant removable == RemovableNames(cells[..k])
      invariant candidates == CandidateIndexes(cells[..k])
    {
      PrefixStep(cells, k);
      var c := cells[k];
      assert RemovableNames(cells[..k + 1]) == RemovableNames(cells[..k]) + (if CanRemove(c) then {c.name} else {});
      if c.phase != Draining && c.phase != Deleting && c.phase != Failed {
        candidates := candidates + [c.index];
        removable := removable + {c.name};
      }
    }
    assert cells[..|cells|] == cells;
  }

  /** The loop over the preference. */
  method SelectPreferred(pref: seq<string>, removable0: set<string>, want0: int)
    returns (first: seq<string>, removable: set<string>, want: int)
    ensures first == PreferredDrain(pref, removable0, want0)
    ensures removable == removable0 - NameSet(first) && want == want0 - |first|
  {
    first, removable, want := [], removable0, want0;
    for k := 0 to |pref|
      invariant first + PreferredDrain(pref[k..], removable, want) == PreferredDrain(pref, removable0, want0)
      invariant removable == removable0 - NameSet(first) && want == want0 - |first|
    {
      if want <= 0 {
        break;
      }
      if pref[k] in removable {
        first := first + [pref[k]];
        removable := removable - {pref[k]};
        want := want - 1;
      }
      assert pref[k..][1..] == pref[k + 1..];
    }
  }

  method SelectDrain(cells: seq<Row>, pref: seq<string>, want0: int) returns (drain: seq<string>)
    ensures drain == DrainPlan(cells, pref, want0)
  {
    var removable, candidates := Removable(cells);
    var first, left, want := SelectPreferred(pref, removable, want0);
    var rest := SelectByIndex(HighestIndexes(candidates, |candidates|), cells, left, want);
    drain := first + rest;
    DrainInTwo(cells, pref, want0, first, rest);
  }

  lemma DrainInTwo(cells: seq<Row>, pref: seq<string>, want: int, first: seq<string>, rest: seq<string>)
    requires first == PreferredDrain(pref, RemovableNames(cells), want)
    requires rest == HighDrain(DownwardOrder(cells), cells, RemovableNames(cells) - NameSet(first), want - |first|)
    ensures DrainPlan(cells, pref, want) == first + rest
  {
  }

  method ReviewLoop(failed: seq<Row>, providerUsable: bool, now: int) returns (review: Review)
    ensures review == ReviewFailed(failed, providerUsable, now, 0)
  {
    var requeue := 0;
    for k := 0 to |failed|
      invariant ReviewFailed(failed[k..], providerUsable, now, requeue) == ReviewFailed(failed, providerUsable, now, 0)
    {
      var c := failed[k];
      if RebuildWouldNotHelp(c, providerUsable) {
        return Review(FaultNotInTheCell, requeue);
      }
      if c.failureCount >= MAX_FAILURES_PER_INDEX {
        return Review(CellReplacementExhausted, requeue);
      }
      var wait := Backoff(c.failureCount);
      if c.since.Some? {
        var remaining := wait - (now - c.since.value);
        if remaining > 0 {
          requeue := SoonerOf(requeue, remaining);
        }
      }
      assert failed[k..][1..] == failed[k + 1..];
    }
    review := Review(NoReason, requeue);
  }

  lemma FreshNext(create: seq<int>, used: set<int>, n: nat)
    requires n > 0
    ensures var idx := LowestFree(used);
            create + FreshIndexes(used, n) == create + [idx] + FreshIndexes(used + {idx}, n - 1)
  {
  }

  method PickIndexes(used0: seq<int>, want: nat) returns (create: seq<int>)
    ensures create == FreshIndexes(IndexSet(used0), want)
  {
    create := [];
    var used := used0;
    for i := 0 to want
      invariant create + FreshIndexes(IndexSet(used), want - i) == FreshIndexes(IndexSet(used0), want)
    {
      var idx := LowestFreeIndex(used);
      IndexSetStep(used, idx);
      FreshNext(create, IndexSet(used), want - i);
      create := create + [idx];
      used := used + [idx];
    }
  }

  method PlanMembership(inp: MembershipInput) returns (plan: MembershipPlan)
    ensures plan == Plan(inp)
  {
    plan := NO_PLAN;
    var used, inFlight, failed, live, totalFails := CountPhase(inp.cells);
    if inp.desired < live {
      if !inp.reachable {
        return plan.(stalled := true, reason := Unreachable);
      }
      var drain := SelectDrain(inp.cells, inp.drainPreference, live - inp.desired);
      return plan.(drain := drain);
    }
    var review := ReviewLoop(failed, inp.providerUsable, inp.now);
    plan := PlanGrowth(inp, review, used, inFlight, live, totalFails);
  }

  /** The second half of the planner, for a pool that is not too large. */
  method PlanGrowth(inp: MembershipInput, review: Review, used: seq<int>, inFlight: nat, live: nat, totalFails: int)
    returns (plan: MembershipPlan)
    requires live == LiveCount(inp.cells) <= inp.desired && inFlight == InFlightCount(inp.cells)
    requires totalFails == TotalFailures(inp.cells) && IndexSet(used) == UsedIndexes(inp.cells)
    ensures plan == Growth(inp, review)
  {
    plan := NO_PLAN.(requeueAfter := review.requeueAfter);
    if review.stall != NoReason {
      return plan.(stalled := true, reason := review.stall);
    }
    if inp.desired <= live {
      return;
    }
    if !inp.everReady && totalFails >= HOPELESS_POOL_FAILURES {
      return plan.(stalled := true, reason := CellReplacementExhausted);
    }
    var suspects := SuspectCredentialFailures(inp.cells);
    if suspects >= SUSPECT_CREDENTIAL_FAILURES {
      return plan.(stalled := true, reason := BootstrapCredentialSuspect);
    }
    if !inp.reachable {
      return plan.(stalled := true, reason := Unreachable);
    }
    var want := inp.desired - live;
    var room := Cap(inp.maxCreating) - inFlight;
    if room <= 0 {
      return;
    }
    if want > room {
      want := room;
    }
    if inp.freeGPUs.Some? {
      if inp.freeGPUs.value <= 0 {
        return plan.(stalled := true, reason := InsufficientGPUs);
      }
      if want > inp.freeGPUs.value {
        want := inp.freeGPUs.value;
        plan := plan.(reason := InsufficientGPUs);
      }
    }
    var create := PickIndexes(used, want);
    plan := plan.(create := create);
  }
}
