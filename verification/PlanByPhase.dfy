/** The membership plan told from the rows' own fields: which phases count as what, and what the guards
    and budgets are in numbers. */
module PlanByPhase {
  import opened CellTypes
  import opened Sequences
  import opened Membership
  import opened MembershipProofs
  import opened Passes

  // ----- counts by phase

  /** The rows on their way up. */
  function OnTheWayUp(cells: seq<Row>): set<int> {
    set i | 0 <= i < |cells|
            && cells[i].phase in {Unset, Pending, AllocatingGPU, GuestProvisioning, Booting, Joining, AwaitingGPUCapacity}
  }

  /** The rows that count towards the size: all but those on their way out and failed ones whose guest is
      gone. */
  function Standing(cells: seq<Row>): set<int> {
    set i | 0 <= i < |cells| && cells[i].phase != Draining && cells[i].phase != Deleting
            && !(cells[i].phase == Failed && cells[i].uid == "")
  }

  /** The rows that failed without a Node ever registering, and were never Ready. */
  function Unregistered(cells: seq<Row>): set<int> {
    set i | 0 <= i < |cells| && cells[i].phase == Failed && cells[i].reason == NodeNeverRegistered && !cells[i].readyOnce
  }

  /** The indexes taken: every row's but those of failed rows whose guest is gone. */
  function Taken(cells: seq<Row>): set<int> {
    set i | 0 <= i < |cells| && !(cells[i].phase == Failed && cells[i].uid == "") :: cells[i].index
  }

  /** All failures on record. */
  function Failures(cells: seq<Row>): int {
    if cells == [] then 0 else cells[0].failureCount + Failures(cells[1..])
  }

  function Where(cells: seq<Row>, f: Row -> bool): set<int> {
    set i | 0 <= i < |cells| && f(cells[i])
  }

  lemma {:induction false} CountWhere(cells: seq<Row>, f: Row -> bool)
    ensures CountIf(cells, f) == |Where(cells, f)|
  {
    if cells == [] {
      assert Where(cells, f) == {};
    } else {
      var front, last := cells[..|cells| - 1], |cells| - 1;
      CountWhere(front, f);
      assert Where(cells, f) == Where(front, f) + if f(cells[last]) then {last} else {};
    }
  }

  lemma {:induction false} FailuresAdd(cells: seq<Row>, c: Row)
    ensures Failures(cells + [c]) == Failures(cells) + c.failureCount
  {
    if cells == [] {
      assert cells + [c] == [c] && [c][1..] == [];
    } else {
      assert (cells + [c])[1..] == cells[1..] + [c];
      FailuresAdd(cells[1..], c);
    }
  }

  lemma {:induction false} FailuresTotal(cells: seq<Row>)
    ensures TotalFailures(cells) == Failures(cells)
  {
    if cells != [] {
      var front, last := cells[..|cells| - 1], cells[|cells| - 1];
      FailuresTotal(front);
      FailuresAdd(front, last);
      LastSplits(cells);
    }
  }

  /** What the planner's accumulators count. */
  lemma CountsByPhase(cells: seq<Row>)
    ensures InFlightCount(cells) == |OnTheWayUp(cells)|
    ensures LiveCount(cells) == |Standing(cells)|
    ensures SuspectCount(cells) == |Unregistered(cells)|
    ensures TotalFailures(cells) == Failures(cells)
    ensures UsedIndexes(cells) == Taken(cells)
  {
    CountWhere(cells, CountsInFlight);
    CountWhere(cells, CountsLive);
    CountWhere(cells, Suspect);
    assert Where(cells, CountsInFlight) == OnTheWayUp(cells);
    assert Where(cells, CountsLive) == Standing(cells);
    assert Where(cells, Suspect) == Unregistered(cells);
    FailuresTotal(cells);
    TakenIndexes(cells);
  }

  lemma TakenIndexes(cells: seq<Row>)
    ensures UsedIndexes(cells) == Taken(cells)
  {
    forall x | x in UsedIndexes(cells) ensures x in Taken(cells) {
      var c :| c in cells && Occupies(c) && c.index == x;
      var i :| 0 <= i < |cells| && cells[i] == c;
    }
    forall x | x in Taken(cells) ensures x in UsedIndexes(cells) {
      var i :| 0 <= i < |cells| && !(cells[i].phase == Failed && cells[i].uid == "") && cells[i].index == x;
      assert cells[i] in cells;
    }
  }

  // ----- creation

  /** A failed row nothing can be done about: the fault is pool-wide and the cell's Node joined without
      a GPU, or it has failed five times. */
  predicate PastHelp(c: Row, providerUsable: bool) {
    c.phase == Failed && ((!providerUsable && c.nodeReady && c.capacityDevices == 0) || c.failureCount >= 5)
  }

  /** Cells in creation at once: two unless said otherwise. */
  function Parallel(maxCreating: int): int {
    if maxCreating <= 0 then 2 else maxCreating
  }

  /** Room for a cell, and nothing in the way. */
  predicate MayCreate(inp: MembershipInput) {
    && inp.reachable
    && |Standing(inp.cells)| < inp.desired
    && |OnTheWayUp(inp.cells)| < Parallel(inp.maxCreating)
    && (inp.freeGPUs.Some? ==> inp.freeGPUs.value > 0)
    && (inp.everReady || Failures(inp.cells) < 3)
    && |Unregistered(inp.cells)| < 2
    && (forall i :: 0 <= i < |inp.cells| ==> !PastHelp(inp.cells[i], inp.providerUsable))
  }

  /** The number of cells created is the largest that fits the size, the cells in creation at once, and
      the free GPUs. */
  predicate Fits(inp: MembershipInput, n: int) {
    && |Standing(inp.cells)| + n <= inp.desired
    && |OnTheWayUp(inp.cells)| + n <= Parallel(inp.maxCreating)
    && (inp.freeGPUs.Some? ==> n <= inp.freeGPUs.value)
  }

  /** The first `n` free indexes, in order. */
  predicate FirstFree(taken: set<int>, create: seq<int>) {
    forall k :: 0 <= k < |create| ==>
      && 0 <= create[k] && create[k] !in taken && (forall j :: 0 <= j < k ==> create[j] < create[k])
      && (forall x :: 0 <= x < create[k] && x !in taken ==> exists j :: 0 <= j < k && create[j] == x)
  }

  /** Creation, exactly: some cells are created if and only if there is room and nothing is in the way,
      and then as many as fit and not one more, at the first indexes that no row takes. */
  lemma CreationByPhase(inp: MembershipInput)
    ensures Plan(inp).create != [] <==> MayCreate(inp)
    ensures MayCreate(inp) ==> Fits(inp, |Plan(inp).create|) && !Fits(inp, |Plan(inp).create| + 1)
    ensures FirstFree(Taken(inp.cells), Plan(inp).create)
  {
    CountsByPhase(inp.cells);
    CreationIsExact(inp);
    SomeRowBars(inp);
    FreeInOrder(UsedIndexes(inp.cells), Plan(inp).create);
  }

  lemma SomeRowBars(inp: MembershipInput)
    ensures (exists c :: c in inp.cells && c.phase == Failed
                         && (RebuildWouldNotHelp(c, inp.providerUsable) || c.failureCount >= MAX_FAILURES_PER_INDEX)) <==>
            exists i :: 0 <= i < |inp.cells| && PastHelp(inp.cells[i], inp.providerUsable)
  {
    forall c | c in inp.cells && PastHelp(c, inp.providerUsable)
      ensures exists i :: 0 <= i < |inp.cells| && PastHelp(inp.cells[i], inp.providerUsable)
    {
      var i :| 0 <= i < |inp.cells| && inp.cells[i] == c;
      assert PastHelp(inp.cells[i], inp.providerUsable);
    }
  }

  lemma FreeInOrder(used: set<int>, create: seq<int>)
    requires SmallestFree(used, create)
    ensures FirstFree(used, create)
  {
  }

  // ----- stalls

  /** The pool stands still for a reason: too large and the workload cluster out of reach, a failed row
      past help, or too small with a guard in the way. */
  predicate StandsStill(inp: MembershipInput) {
    if inp.desired < |Standing(inp.cells)| then !inp.reachable
    else
      || (exists i :: 0 <= i < |inp.cells| && PastHelp(inp.cells[i], inp.providerUsable))
      || (inp.desired > |Standing(inp.cells)|
          && (|| (!inp.everReady && Failures(inp.cells) >= 3)
              || |Unregistered(inp.cells)| >= 2
              || !inp.reachable
              || (|OnTheWayUp(inp.cells)| < Parallel(inp.maxCreating) && inp.freeGPUs.Some? && inp.freeGPUs.value <= 0)))
  }

  /** The reason is the truth about the rows and the readings. */
  predicate TrueOf(inp: MembershipInput, reason: Reason) {
    && (reason == FaultNotInTheCell ==>
          && !inp.providerUsable
          && exists i :: 0 <= i < |inp.cells| && inp.cells[i].phase == Failed && inp.cells[i].nodeReady && inp.cells[i].capacityDevices == 0)
    && (reason == CellReplacementExhausted ==>
          || (exists i :: 0 <= i < |inp.cells| && inp.cells[i].phase == Failed && inp.cells[i].failureCount >= 5)
          || (!inp.everReady && Failures(inp.cells) >= 3))
    && (reason == BootstrapCredentialSuspect ==> |Unregistered(inp.cells)| >= 2)
    && (reason == Unreachable ==> !inp.reachable)
    && (reason == InsufficientGPUs ==> inp.freeGPUs.Some? && inp.freeGPUs.value < inp.desired - |Standing(inp.cells)|)
    && reason in {NoReason, FaultNotInTheCell, CellReplacementExhausted, BootstrapCredentialSuspect, Unreachable, InsufficientGPUs}
  }

  /** A pool stalls exactly when it stands still for a reason, and the reason it gives is true. */
  lemma StallsByPhase(inp: MembershipInput)
    ensures Plan(inp).stalled <==> StandsStill(inp)
    ensures TrueOf(inp, Plan(inp).reason)
    ensures Plan(inp).stalled ==> Plan(inp).reason != NoReason && Plan(inp).create == [] && Plan(inp).drain == []
  {
    CountsByPhase(inp.cells);
    StallsAreExplained(inp);
    FailedRowsExact(inp.cells);
    ReasonOfRow(inp, Plan(inp).reason);
    ReviewBars(inp);
    StalledExactly(inp);
  }

  /** The review of the failed rows stalls the pool. */
  ghost predicate ReviewBarred(inp: MembershipInput) {
    ReviewFailed(FailedRows(inp.cells), inp.providerUsable, inp.now, 0).stall != NoReason
  }

  lemma ReviewBars(inp: MembershipInput)
    ensures ReviewBarred(inp) <==> exists i :: 0 <= i < |inp.cells| && PastHelp(inp.cells[i], inp.providerUsable)
  {
    FailedRowsExact(inp.cells);
    ReviewStalls(FailedRows(inp.cells), inp.providerUsable, inp.now, 0);
    SomeRowBars(inp);
  }

  lemma StalledExactly(inp: MembershipInput)
    ensures Plan(inp).stalled <==>
            if inp.desired < LiveCount(inp.cells) then !inp.reachable
            else
              || ReviewBarred(inp)
              || (inp.desired > LiveCount(inp.cells)
                  && (|| (!inp.everReady && TotalFailures(inp.cells) >= 3)
                      || SuspectCount(inp.cells) >= 2
                      || !inp.reachable
                      || (InFlightCount(inp.cells) < Parallel(inp.maxCreating) && inp.freeGPUs.Some? && inp.freeGPUs.value <= 0)))
  {
  }

  lemma ReasonOfRow(inp: MembershipInput, reason: Reason)
    requires TrueReason(inp, reason) && (forall c :: c in FailedRows(inp.cells) <==> c in inp.cells && c.phase == Failed)
    ensures reason == FaultNotInTheCell ==>
              && !inp.providerUsable
              && exists i :: 0 <= i < |inp.cells| && inp.cells[i].phase == Failed && inp.cells[i].nodeReady && inp.cells[i].capacityDevices == 0
    ensures reason == CellReplacementExhausted ==>
              || (exists i :: 0 <= i < |inp.cells| && inp.cells[i].phase == Failed && inp.cells[i].failureCount >= 5)
              || (!inp.everReady && TotalFailures(inp.cells) >= 3)
  {
    if reason == FaultNotInTheCell {
      var c :| c in FailedRows(inp.cells) && RebuildWouldNotHelp(c, inp.providerUsable);
      var i :| 0 <= i < |inp.cells| && inp.cells[i] == c;
    }
    if reason == CellReplacementExhausted && !(!inp.everReady && TotalFailures(inp.cells) >= 3) {
      var c :| c in FailedRows(inp.cells) && c.failureCount >= 5;
      var i :| 0 <= i < |inp.cells| && inp.cells[i] == c;
    }
  }

  /** The first row past help, in order, and which kind of help it is past. */
  function FirstPastHelp(cells: seq<Row>, providerUsable: bool): Reason {
    if cells == [] then NoReason
    else if !PastHelp(cells[0], providerUsable) then FirstPastHelp(cells[1..], providerUsable)
    else if !providerUsable && cells[0].nodeReady && cells[0].capacityDevices == 0 then FaultNotInTheCell
    else CellReplacementExhausted
  }

  /** The reason to be given: of all that applies, the first in this order. */
  function Why(inp: MembershipInput): Reason {
    var size, up, max := |Standing(inp.cells)|, |OnTheWayUp(inp.cells)|, Parallel(inp.maxCreating);
    if inp.desired < size then (if inp.reachable then NoReason else Unreachable)
    else if FirstPastHelp(inp.cells, inp.providerUsable) != NoReason then FirstPastHelp(inp.cells, inp.providerUsable)
    else if inp.desired == size then NoReason
    else if !inp.everReady && Failures(inp.cells) >= 3 then CellReplacementExhausted
    else if |Unregistered(inp.cells)| >= 2 then BootstrapCredentialSuspect
    else if !inp.reachable then Unreachable
    else if up < max && inp.freeGPUs.Some?
            && (inp.freeGPUs.value <= 0 || (inp.freeGPUs.value < inp.desired - size && inp.freeGPUs.value < max - up)) then InsufficientGPUs
    else NoReason
  }

  /** The plan gives that reason. */
  lemma ReasonByPhase(inp: MembershipInput)
    ensures Plan(inp).reason == Why(inp)
  {
    CountsByPhase(inp.cells);
    ReviewIsFirst(inp.cells, inp.providerUsable, inp.now, 0);
    if inp.desired >= LiveCount(inp.cells) {
      GrowthReason(inp, ReviewFailed(FailedRows(inp.cells), inp.providerUsable, inp.now, 0));
    }
  }

  lemma GrowthReason(inp: MembershipInput, review: Review)
    requires LiveCount(inp.cells) <= inp.desired
    ensures var size, up, max := LiveCount(inp.cells), InFlightCount(inp.cells), Parallel(inp.maxCreating);
            Growth(inp, review).reason ==
              if review.stall != NoReason then review.stall
              else if inp.desired == size then NoReason
              else if !inp.everReady && TotalFailures(inp.cells) >= 3 then CellReplacementExhausted
              else if SuspectCount(inp.cells) >= 2 then BootstrapCredentialSuspect
              else if !inp.reachable then Unreachable
              else if up < max && inp.freeGPUs.Some?
                      && (inp.freeGPUs.value <= 0 || (inp.freeGPUs.value < inp.desired - size && inp.freeGPUs.value < max - up)) then InsufficientGPUs
              else NoReason
  {
  }

  lemma {:induction false} FailedSplits(cells: seq<Row>)
    requires cells != []
    ensures FailedRows(cells) == (if cells[0].phase == Failed then [cells[0]] else []) + FailedRows(cells[1..])
  {
    if |cells| == 1 {
      assert cells[..0] == [] && cells[1..] == [];
    } else {
      var front := cells[..|cells| - 1];
      FailedSplits(front);
      assert front[1..] == cells[1..][..|cells| - 2];
    }
  }

  lemma {:induction false} ReviewIsFirst(cells: seq<Row>, usable: bool, now: int, requeue: int)
    ensures ReviewFailed(FailedRows(cells), usable, now, requeue).stall == FirstPastHelp(cells, usable)
    decreases cells
  {
    if cells != [] {
      FailedSplits(cells);
      var c, rest := cells[0], FailedRows(cells[1..]);
      if c.phase != Failed {
        assert FailedRows(cells) == rest;
        ReviewIsFirst(cells[1..], usable, now, requeue);
      } else if !PastHelp(c, usable) {
        assert ([c] + rest)[1..] == rest;
        ReviewIsFirst(cells[1..], usable, now,
                      if Remaining(c, now) > 0 then SoonerOf(requeue, Remaining(c, now)) else requeue);
      }
    }
  }

  // ----- the next wake-up

  /** Seconds until a failed row may be replaced; not positive once it may. */
  function SecondsLeft(c: Row, now: int): int {
    if c.since.None? then 0
    else
      var f := c.failureCount;
      var delay := if f <= 0 then 0 else if f <= 6 then [30, 60, 120, 240, 480, 960][f - 1] else 1800;
      delay - (now - c.since.value)
  }

  /** The pool wakes at the soonest such moment that is still ahead, and a pool that is too large sets no
      alarm. */
  lemma WakesByPhase(inp: MembershipInput)
    requires forall i :: 0 <= i < |inp.cells| ==> !PastHelp(inp.cells[i], inp.providerUsable)
    ensures inp.desired < |Standing(inp.cells)| ==> Plan(inp).requeueAfter == 0
    ensures inp.desired >= |Standing(inp.cells)| ==>
              var r := Plan(inp).requeueAfter;
              && (forall i :: 0 <= i < |inp.cells| && inp.cells[i].phase == Failed && SecondsLeft(inp.cells[i], inp.now) > 0 ==>
                    0 < r <= SecondsLeft(inp.cells[i], inp.now))
              && (r == 0 || exists i :: 0 <= i < |inp.cells| && inp.cells[i].phase == Failed && SecondsLeft(inp.cells[i], inp.now) == r)
  {
    CountsByPhase(inp.cells);
    if inp.desired >= LiveCount(inp.cells) {
      NonePastHelp(inp);
      RequeueIsSoonestExpiry(inp);
      SoonestRow(inp, Plan(inp).requeueAfter);
    }
  }

  lemma NonePastHelp(inp: MembershipInput)
    requires forall i :: 0 <= i < |inp.cells| ==> !PastHelp(inp.cells[i], inp.providerUsable)
    ensures forall c :: c in inp.cells && c.phase == Failed ==>
              !RebuildWouldNotHelp(c, inp.providerUsable) && c.failureCount < MAX_FAILURES_PER_INDEX
  {
    forall c | c in inp.cells && c.phase == Failed
      ensures !RebuildWouldNotHelp(c, inp.providerUsable) && c.failureCount < MAX_FAILURES_PER_INDEX
    {
      var i :| 0 <= i < |inp.cells| && inp.cells[i] == c;
      assert !PastHelp(inp.cells[i], inp.providerUsable);
    }
  }

  lemma SoonestRow(inp: MembershipInput, r: int)
    requires forall c :: c in inp.cells && c.phase == Failed && Remaining(c, inp.now) > 0 ==> 0 < r <= Remaining(c, inp.now)
    requires r == 0 || exists c :: c in inp.cells && c.phase == Failed && Remaining(c, inp.now) == r
    ensures forall i :: 0 <= i < |inp.cells| && inp.cells[i].phase == Failed && SecondsLeft(inp.cells[i], inp.now) > 0 ==>
              0 < r <= SecondsLeft(inp.cells[i], inp.now)
    ensures r == 0 || exists i :: 0 <= i < |inp.cells| && inp.cells[i].phase == Failed && SecondsLeft(inp.cells[i], inp.now) == r
  {
    forall i | 0 <= i < |inp.cells| && inp.cells[i].phase == Failed && SecondsLeft(inp.cells[i], inp.now) > 0
      ensures 0 < r <= SecondsLeft(inp.cells[i], inp.now)
    {
      LeftIsRemaining(inp.cells[i], inp.now);
      assert inp.cells[i] in inp.cells;
    }
    if r != 0 {
      var c :| c in inp.cells && c.phase == Failed && Remaining(c, inp.now) == r;
      var i :| 0 <= i < |inp.cells| && inp.cells[i] == c;
      LeftIsRemaining(c, inp.now);
      assert r > 0;
    }
  }

  lemma LeftIsRemaining(c: Row, now: int)
    ensures Remaining(c, now) == if SecondsLeft(c, now) > 0 then SecondsLeft(c, now) else 0
  {
    BackoffTable(c.failureCount);
  }

  // ----- scale-down

  predicate MayLeave(c: Row) {
    c.phase in {Unset, Pending, AllocatingGPU, GuestProvisioning, Booting, Joining, AwaitingGPUCapacity, Ready}
  }

  function Leavers(cells: seq<Row>): set<string> {
    set c | c in cells && MayLeave(c) :: c.name
  }

  /** The victims: rows that may leave, each once; a preferred one goes before any other; past the
      preference a higher index goes before a lower. */
  ghost predicate Victims(cells: seq<Row>, pref: seq<string>, drain: seq<string>) {
    && (forall i, j :: 0 <= i < j < |drain| ==> drain[i] != drain[j])
    && (forall n :: n in drain ==> n in Leavers(cells))
    && (forall v, w | v in cells && w in cells && MayLeave(w) && v.name in drain && v.name !in pref && w.name !in drain ::
          v.index > w.index && w.name !in pref)
  }

  /** Scale-down, exactly: cells are drained if and only if the workload cluster answers, the pool is too
      large and some row may leave; then at least as many as it is too large by, while there are any. */
  lemma DrainByPhase(inp: MembershipInput)
    requires DistinctNames(inp.cells)
    ensures Plan(inp).drain != [] <==> inp.reachable && inp.desired < |Standing(inp.cells)| && Leavers(inp.cells) != {}
    ensures Victims(inp.cells, inp.drainPreference, Plan(inp).drain)
    ensures inp.reachable && inp.desired < |Standing(inp.cells)| ==>
              |Plan(inp).drain| >= Min(|Standing(inp.cells)| - inp.desired, |Leavers(inp.cells)|)
  {
    CountsByPhase(inp.cells);
    RemovableLeave(inp.cells);
    if inp.reachable && inp.desired < LiveCount(inp.cells) {
      TooLargeDrains(inp);
    } else {
      assert Plan(inp).drain == [];
    }
  }

  lemma TooLargeDrains(inp: MembershipInput)
    requires DistinctNames(inp.cells) && inp.reachable && inp.desired < LiveCount(inp.cells)
    ensures Plan(inp).drain != [] <==> RemovableNames(inp.cells) != {}
    ensures Victims(inp.cells, inp.drainPreference, Plan(inp).drain)
    ensures |Plan(inp).drain| >= Min(LiveCount(inp.cells) - inp.desired, |RemovableNames(inp.cells)|)
  {
    PlanDrainsRemovable(inp);
    var at := DrainIsExact(inp);
    DrainsSome(inp.cells, at, inp.drainPreference, LiveCount(inp.cells) - inp.desired, Plan(inp).drain);
  }

  lemma RemovableLeave(cells: seq<Row>)
    ensures RemovableNames(cells) == Leavers(cells)
  {
    assert forall c :: c in cells ==> (CanRemove(c) <==> MayLeave(c));
  }

  lemma RightVictimsLeave(cells: seq<Row>, pref: seq<string>, drain: seq<string>)
    requires NoRepeats(drain) && RightVictims(cells, pref, drain) && forall n :: n in drain ==> n in RemovableNames(cells)
    ensures Victims(cells, pref, drain)
  {
    RemovableLeave(cells);
    assert forall c :: c in cells ==> (CanRemove(c) <==> MayLeave(c));
  }

  lemma DrainsSome(cells: seq<Row>, at: map<string, int>, pref: seq<string>, want: int, drain: seq<string>)
    requires RightDrain(cells, at, pref, want, drain) && want > 0 && forall n :: n in drain ==> n in RemovableNames(cells)
    ensures drain != [] <==> RemovableNames(cells) != {}
    ensures |drain| >= Min(want, |RemovableNames(cells)|)
    ensures Victims(cells, pref, drain)
  {
    RightVictimsLeave(cells, pref, drain);
    if drain != [] {
      assert drain[0] in drain;
    }
  }
}
