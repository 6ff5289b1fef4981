/** What the membership plan guarantees for every input. */
module MembershipProofs {
  import opened CellTypes
  import opened CellId
  import opened Membership
  import opened Sequences

  // ----- creation

  predicate Increasing(s: seq<int>) {
    forall i, j :: 0 <= i < j < |s| ==> s[i] < s[j]
  }

  /** `s` is the run of the smallest free indexes: nothing free is skipped. */
  ghost predicate SmallestFree(used: set<int>, s: seq<int>) {
    && Increasing(s)
    && (forall i :: 0 <= i < |s| ==> s[i] >= 0 && s[i] !in used)
    && (forall i, x :: 0 <= i < |s| && 0 <= x < s[i] && x !in used ==> x in s[..i])
  }

  lemma {:induction false} FreshIndexesAreSmallest(used: set<int>, n: nat)
    ensures |FreshIndexes(used, n)| == n
    ensures SmallestFree(used, FreshIndexes(used, n))
    decreases n
  {
    if n > 0 {
      var lo := LowestFree(used);
      var rest := FreshIndexes(used + {lo}, n - 1);
      FreshIndexesAreSmallest(used + {lo}, n - 1);
      LowestFirst(used, lo, rest);
    }
  }

  lemma LowestFirst(used: set<int>, lo: int, rest: seq<int>)
    requires 0 <= lo && lo !in used && (forall x :: 0 <= x < lo ==> x in used)
    requires SmallestFree(used + {lo}, rest)
    ensures SmallestFree(used, [lo] + rest)
  {
    var s := [lo] + rest;
    forall i | 0 <= i < |rest| ensures lo < rest[i] {
      assert rest[i] !in used && rest[i] != lo;
    }
    forall i, x | 0 <= i < |s| && 0 <= x < s[i] && x !in used ensures x in s[..i] {
      if i > 0 && x == lo {
        assert s[..i][0] == lo;
      } else if i > 0 {
        assert x in rest[..i - 1];
        assert s[..i] == [lo] + rest[..i - 1];
      }
    }
  }

  lemma {:induction false} FailedRowsExact(cells: seq<Row>)
    ensures forall c :: c in FailedRows(cells) <==> c in cells && c.phase == Failed
  {
    if cells != [] {
      FailedRowsExact(cells[..|cells| - 1]);
      assert cells == cells[..|cells| - 1] + [cells[|cells| - 1]];
    }
  }

  /** The review stalls exactly when some failed row is past help. */
  lemma {:induction false} ReviewStalls(failed: seq<Row>, usable: bool, now: int, requeue: int)
    ensures ReviewFailed(failed, usable, now, requeue).stall != NoReason <==>
            exists c :: c in failed && (RebuildWouldNotHelp(c, usable) || c.failureCount >= MAX_FAILURES_PER_INDEX)
    decreases failed
  {
    if failed != [] {
      var c := failed[0];
      assert failed == [c] + failed[1..];
      if !RebuildWouldNotHelp(c, usable) && c.failureCount < MAX_FAILURES_PER_INDEX {
        ReviewStalls(failed[1..], usable, now,
                     if Remaining(c, now) > 0 then SoonerOf(requeue, Remaining(c, now)) else requeue);
      }
    }
  }

  /** When nothing stalls, the wake-up is the soonest expiry still ahead, and zero if none is. */
  lemma {:induction false} ReviewWakes(failed: seq<Row>, usable: bool, now: int, requeue: int)
    requires requeue >= 0
    requires ReviewFailed(failed, usable, now, requeue).stall == NoReason
    ensures var r := ReviewFailed(failed, usable, now, requeue).requeueAfter;
            && r >= 0
            && (requeue > 0 ==> 0 < r <= requeue)
            && (forall c :: c in failed && Remaining(c, now) > 0 ==> 0 < r <= Remaining(c, now))
            && (r == requeue || exists c :: c in failed && Remaining(c, now) == r)
    decreases failed
  {
    if failed != [] {
      var c := failed[0];
      assert failed == [c] + failed[1..];
      var next := if Remaining(c, now) > 0 then SoonerOf(requeue, Remaining(c, now)) else requeue;
      ReviewWakes(failed[1..], usable, now, next);
      var r := ReviewFailed(failed, usable, now, requeue).requeueAfter;
      if r != requeue && r == next {
        assert c in failed && Remaining(c, now) == r;
      } else if r != requeue {
        var d :| d in failed[1..] && Remaining(d, now) == r;
        assert d in failed;
      }
    }
  }

  lemma PlanRequeues(inp: MembershipInput)
    requires inp.desired >= LiveCount(inp.cells)
    ensures Plan(inp).requeueAfter == ReviewFailed(FailedRows(inp.cells), inp.providerUsable, inp.now, 0).requeueAfter
  {
  }

  /** A plan that neither stalls nor drains wakes the pool at the soonest backoff expiry. */
  lemma RequeueIsSoonestExpiry(inp: MembershipInput)
    requires inp.desired >= LiveCount(inp.cells)
    requires forall c :: c in inp.cells && c.phase == Failed ==>
               !RebuildWouldNotHelp(c, inp.providerUsable) && c.failureCount < MAX_FAILURES_PER_INDEX
    ensures var r := Plan(inp).requeueAfter;
            && (forall c :: c in inp.cells && c.phase == Failed && Remaining(c, inp.now) > 0 ==>
                  0 < r <= Remaining(c, inp.now))
            && (r == 0 || exists c :: c in inp.cells && c.phase == Failed && Remaining(c, inp.now) == r)
  {
    FailedRowsExact(inp.cells);
    ReviewStalls(FailedRows(inp.cells), inp.providerUsable, inp.now, 0);
    ReviewWakes(FailedRows(inp.cells), inp.providerUsable, inp.now, 0);
    var r := Plan(inp).requeueAfter;
    PlanRequeues(inp);
    if r != 0 {
      var c :| c in FailedRows(inp.cells) && Remaining(c, inp.now) == r;
      assert c in inp.cells && c.phase == Failed;
    }
  }

  /** Every reason the planner has not to create. */
  ghost predicate CreationBarred(inp: MembershipInput) {
    || inp.desired <= LiveCount(inp.cells)
    || (exists c :: c in inp.cells && c.phase == Failed
                    && (RebuildWouldNotHelp(c, inp.providerUsable) || c.failureCount >= MAX_FAILURES_PER_INDEX))
    || (!inp.everReady && TotalFailures(inp.cells) >= HOPELESS_POOL_FAILURES)
    || SuspectCount(inp.cells) >= SUSPECT_CREDENTIAL_FAILURES
    || !inp.reachable
    || InFlightCount(inp.cells) >= Cap(inp.maxCreating)
    || (inp.freeGPUs.Some? && inp.freeGPUs.value <= 0)
  }

  function CreationBudget(inp: MembershipInput): int {
    var bounded := Min(inp.desired - LiveCount(inp.cells), Cap(inp.maxCreating) - InFlightCount(inp.cells));
    if inp.freeGPUs.Some? then Min(bounded, inp.freeGPUs.value) else bounded
  }

  /** The creation plan is exact: empty if and only if some guard holds, and otherwise as many
      as the tightest of the three budgets allows, being the smallest unoccupied indexes. */
  lemma CreationIsExact(inp: MembershipInput)
    ensures CreationBarred(inp) <==> Plan(inp).create == []
    ensures !CreationBarred(inp) ==> |Plan(inp).create| == CreationBudget(inp) > 0
    ensures SmallestFree(UsedIndexes(inp.cells), Plan(inp).create)
    ensures Plan(inp).create == [] || Plan(inp).drain == []
  {
    FailedRowsExact(inp.cells);
    ReviewStalls(FailedRows(inp.cells), inp.providerUsable, inp.now, 0);
    assert (exists c :: c in inp.cells && c.phase == Failed
                        && (RebuildWouldNotHelp(c, inp.providerUsable) || c.failureCount >= MAX_FAILURES_PER_INDEX))
      <==> (exists c :: c in FailedRows(inp.cells)
                        && (RebuildWouldNotHelp(c, inp.providerUsable) || c.failureCount >= MAX_FAILURES_PER_INDEX));
    if !CreationBarred(inp) {
      FreshIndexesAreSmallest(UsedIndexes(inp.cells), CreationBudget(inp));
      assert Plan(inp).create == FreshIndexes(UsedIndexes(inp.cells), CreationBudget(inp));
    } else {
      assert Plan(inp).create == [];
    }
  }

  lemma {:induction false} ReviewNamesRow(failed: seq<Row>, usable: bool, now: int, requeue: int)
    ensures var stall := ReviewFailed(failed, usable, now, requeue).stall;
            && stall in {NoReason, FaultNotInTheCell, CellReplacementExhausted}
            && (stall == FaultNotInTheCell ==> exists c :: c in failed && RebuildWouldNotHelp(c, usable))
            && (stall == CellReplacementExhausted ==> exists c :: c in failed && c.failureCount >= MAX_FAILURES_PER_INDEX)
    decreases failed
  {
    if failed != [] {
      var c := failed[0];
      assert c in failed;
      if !RebuildWouldNotHelp(c, usable) && c.failureCount < MAX_FAILURES_PER_INDEX {
        var later := if Remaining(c, now) > 0 then SoonerOf(requeue, Remaining(c, now)) else requeue;
        ReviewNamesRow(failed[1..], usable, now, later);
        assert forall d :: d in failed[1..] ==> d in failed;
      }
    }
  }

  /** The reason a plan gives is true of its input. */
  ghost predicate TrueReason(inp: MembershipInput, reason: Reason) {
    && (reason == FaultNotInTheCell ==> exists c :: c in FailedRows(inp.cells) && RebuildWouldNotHelp(c, inp.providerUsable))
    && (reason == CellReplacementExhausted ==>
          || (exists c :: c in FailedRows(inp.cells) && c.failureCount >= MAX_FAILURES_PER_INDEX)
          || (!inp.everReady && TotalFailures(inp.cells) >= HOPELESS_POOL_FAILURES))
    && (reason == BootstrapCredentialSuspect ==> SuspectCount(inp.cells) >= SUSPECT_CREDENTIAL_FAILURES)
    && (reason == Unreachable ==> !inp.reachable)
    && (reason == InsufficientGPUs ==> inp.freeGPUs.Some? && inp.freeGPUs.value < inp.desired - LiveCount(inp.cells))
    && reason in {NoReason, FaultNotInTheCell, CellReplacementExhausted, BootstrapCredentialSuspect, Unreachable, InsufficientGPUs}
  }

  /** A plan never stands still in silence: it stalls only by doing nothing and with a true reason, and
      a pool below its size that neither creates nor stalls is waiting for cells in flight. */
  lemma StallsAreExplained(inp: MembershipInput)
    ensures TrueReason(inp, Plan(inp).reason)
    ensures Plan(inp).stalled ==> Plan(inp).create == [] && Plan(inp).drain == [] && Plan(inp).reason != NoReason
    ensures !Plan(inp).stalled && Plan(inp).create == [] && inp.desired > LiveCount(inp.cells) ==>
              InFlightCount(inp.cells) >= Cap(inp.maxCreating)
    ensures !Plan(inp).stalled && inp.desired < LiveCount(inp.cells) ==> inp.reachable
  {
    ReviewNamesRow(FailedRows(inp.cells), inp.providerUsable, inp.now, 0);
    if inp.desired >= LiveCount(inp.cells) {
      GrowthExplained(inp, ReviewFailed(FailedRows(inp.cells), inp.providerUsable, inp.now, 0));
    }
  }

  lemma GrowthExplained(inp: MembershipInput, review: Review)
    requires LiveCount(inp.cells) <= inp.desired && review.stall in {NoReason, FaultNotInTheCell, CellReplacementExhausted}
    requires review.stall == FaultNotInTheCell ==> exists c :: c in FailedRows(inp.cells) && RebuildWouldNotHelp(c, inp.providerUsable)
    requires review.stall == CellReplacementExhausted ==> exists c :: c in FailedRows(inp.cells) && c.failureCount >= MAX_FAILURES_PER_INDEX
    ensures var plan := Growth(inp, review);
            && TrueReason(inp, plan.reason)
            && (plan.stalled ==> plan.create == [] && plan.reason != NoReason)
            && (!plan.stalled && plan.create == [] && inp.desired > LiveCount(inp.cells) ==>
                  InFlightCount(inp.cells) >= Cap(inp.maxCreating))
  {
  }

  // ----- draining

  lemma JoinNames(a: seq<string>, b: seq<string>)
    ensures NameSet(a + b) == NameSet(a) + NameSet(b)
    ensures NoRepeats(a) && NoRepeats(b) && NameSet(a) !! NameSet(b) ==> NoRepeats(a + b)
  {
    if NoRepeats(a) && NoRepeats(b) && NameSet(a) !! NameSet(b) {
      forall i, j | 0 <= i < j < |a + b| ensures (a + b)[i] != (a + b)[j] {
        if i < |a| <= j {
          assert a[i] in NameSet(a) && b[j - |a|] in NameSet(b);
        }
      }
    }
  }

  lemma EmptyNames()
    ensures NameSet([]) == {}
  {
  }

  lemma OneName(n: string)
    ensures NameSet([n]) == {n}
  {
  }

  /** At most `want` removable names of the preference, and all of them if there is room. */
  ghost predicate Prefers(d: seq<string>, pref: seq<string>, removable: set<string>, want: int) {
    && NoRepeats(d) && |d| <= Max(0, want)
    && NameSet(d) <= removable * NameSet(pref)
    && (|d| < want ==> NameSet(d) == removable * NameSet(pref))
  }

  lemma {:induction false} PreferredDrainExact(pref: seq<string>, removable: set<string>, want: int)
    ensures Prefers(PreferredDrain(pref, removable, want), pref, removable, want)
    decreases pref
  {
    EmptyNames();
    if pref != [] && want > 0 {
      var n, rest := pref[0], pref[1..];
      assert pref == [n] + rest;
      if n in removable {
        PreferredDrainExact(rest, removable - {n}, want - 1);
        PreferOne(n, rest, PreferredDrain(rest, removable - {n}, want - 1), removable, want);
      } else {
        PreferredDrainExact(rest, removable, want);
        PreferNone(n, rest, PreferredDrain(rest, removable, want), removable, want);
      }
    }
  }

  lemma PreferOne(n: string, rest: seq<string>, d: seq<string>, removable: set<string>, want: int)
    requires n in removable && want > 0 && Prefers(d, rest, removable - {n}, want - 1)
    ensures Prefers([n] + d, [n] + rest, removable, want)
  {
    OneName(n);
    JoinNames([n], rest);
    JoinNames([n], d);
  }

  lemma PreferNone(n: string, rest: seq<string>, d: seq<string>, removable: set<string>, want: int)
    requires n !in removable && Prefers(d, rest, removable, want)
    ensures Prefers(d, [n] + rest, removable, want)
  {
    OneName(n);
    JoinNames([n], rest);
    assert removable * ({n} + NameSet(rest)) == removable * NameSet(rest);
  }

  ghost predicate AtIndex(cells: seq<Row>, n: string, idx: int) {
    exists c :: c in cells && c.name == n && c.index == idx
  }

  lemma {:induction false} TakeIndexSound(cells: seq<Row>, idx: int, removable: set<string>)
    ensures var t := TakeIndex(cells, idx, removable);
            forall n :: n in t ==> n in removable && AtIndex(cells, n, idx)
    decreases cells
  {
    if cells != [] {
      var c, rest := cells[0], cells[1..];
      if c.index == idx && c.name in removable {
        TakeIndexSound(rest, idx, removable - {c.name});
        assert c in cells && AtIndex(cells, c.name, idx);
      } else {
        TakeIndexSound(rest, idx, removable);
      }
      forall n | AtIndex(rest, n, idx) ensures AtIndex(cells, n, idx) {
        var d :| d in rest && d.name == n && d.index == idx;
        assert d in cells;
      }
    }
  }

  function Names(cells: seq<Row>): set<string> {
    set c | c in cells :: c.name
  }

  /** The index each name stands at. */
  ghost predicate Placed(cells: seq<Row>, at: map<string, int>) {
    forall c :: c in cells ==> c.name in at && at[c.name] == c.index
  }

  lemma {:induction false} Place(cells: seq<Row>) returns (at: map<string, int>)
    requires DistinctNames(cells)
    ensures Placed(cells, at)
  {
    at := map[];
    if cells != [] {
      var front, last := cells[..|cells| - 1], cells[|cells| - 1];
      at := Place(front);
      PlaceLast(cells, at);
      at := at[last.name := last.index];
    }
  }

  lemma PlaceLast(cells: seq<Row>, at: map<string, int>)
    requires cells != [] && DistinctNames(cells) && Placed(cells[..|cells| - 1], at)
    ensures var last := cells[|cells| - 1]; Placed(cells, at[last.name := last.index])
  {
    var front, last := cells[..|cells| - 1], cells[|cells| - 1];
    LastSplits(cells);
    forall c | c in front ensures c.name != last.name {
      var i :| 0 <= i < |front| && front[i] == c;
    }
  }

  /** The names that stand at an index. */
  function At(at: map<string, int>, left: set<string>, idx: int): set<string> {
    set n | n in left && n in at && at[n] == idx
  }

  /** Taking an index takes every removable name there, once. */
  lemma {:induction false} TakeIndexNames(cells: seq<Row>, idx: int, removable: set<string>, at: map<string, int>)
    requires Placed(cells, at)
    ensures NameSet(TakeIndex(cells, idx, removable)) == At(at, removable * Names(cells), idx)
    decreases cells
  {
    if cells == [] {
      EmptyNames();
    } else {
      var c, rest := cells[0], cells[1..];
      FirstPlaced(cells, at);
      var left := if c.index == idx && c.name in removable then removable - {c.name} else removable;
      TakeIndexNames(rest, idx, left, at);
      OneName(c.name);
      NamesJoin([c.name], TakeIndex(rest, idx, left));
      AtNext(at, removable, c.name, Names(rest), idx);
    }
  }

  lemma {:induction false} TakeIndexCount(cells: seq<Row>, idx: int, removable: set<string>, at: map<string, int>)
    requires Placed(cells, at)
    ensures |TakeIndex(cells, idx, removable)| == |At(at, removable * Names(cells), idx)|
    decreases cells
  {
    if cells != [] {
      var c, rest := cells[0], cells[1..];
      FirstPlaced(cells, at);
      TakeIndexCount(rest, idx, if c.index == idx && c.name in removable then removable - {c.name} else removable, at);
      AtNext(at, removable, c.name, Names(rest), idx);
    }
  }

  lemma FirstPlaced(cells: seq<Row>, at: map<string, int>)
    requires cells != [] && Placed(cells, at)
    ensures Placed(cells[1..], at) && cells[0].name in at && at[cells[0].name] == cells[0].index
    ensures Names(cells) == {cells[0].name} + Names(cells[1..])
  {
    assert cells == [cells[0]] + cells[1..];
  }

  lemma AtNext(at: map<string, int>, removable: set<string>, n: string, names: set<string>, idx: int)
    requires n in at
    ensures At(at, removable * ({n} + names), idx) ==
            if at[n] == idx && n in removable then {n} + At(at, (removable - {n}) * names, idx) else At(at, removable * names, idx)
  {
  }

  /** Taking an index is a lookup in the placement. */
  ghost predicate LooksUp(cells: seq<Row>, at: map<string, int>, all: set<string>) {
    forall idx: int, left: set<string> {:trigger Asked(idx, left)} | Asked(idx, left) && left <= all ::
      NameSet(TakeIndex(cells, idx, left)) == At(at, left, idx) && |TakeIndex(cells, idx, left)| == |At(at, left, idx)|
  }

  /** Names a lookup an argument makes; only named lookups are unfolded. */
  predicate Asked(idx: int, left: set<string>) {
    true
  }

  lemma TakeAlwaysLooksUp(cells: seq<Row>, at: map<string, int>)
    requires Placed(cells, at)
    ensures LooksUp(cells, at, Names(cells))
  {
    forall idx: int, left: set<string> | Asked(idx, left) && left <= Names(cells)
      ensures NameSet(TakeIndex(cells, idx, left)) == At(at, left, idx) && |TakeIndex(cells, idx, left)| == |At(at, left, idx)|
    {
      TakeIndexNames(cells, idx, left, at);
      TakeIndexCount(cells, idx, left, at);
      assert left * Names(cells) == left;
    }
  }

  /** The walk down the indexes as a set of names. */
  function Walked(order: seq<int>, at: map<string, int>, left: set<string>, want: int): set<string> {
    if order == [] || want <= 0 then {}
    else
      var batch := At(at, left, order[0]);
      if |batch| >= want then batch else batch + Walked(order[1..], at, left - batch, want - |batch|)
  }

  lemma NamesCount(names: seq<string>)
    requires NoRepeats(names)
    ensures |NameSet(names)| == |names|
  {
    ElementsCount(names);
    assert NameSet(names) == Elements(names);
  }

  lemma {:induction false} WalkedWithin(order: seq<int>, at: map<string, int>, left: set<string>, want: int)
    ensures Walked(order, at, left, want) <= left
    decreases order
  {
    if order != [] && want > 0 {
      var batch := At(at, left, order[0]);
      assert batch <= left;
      if |batch| < want {
        WalkedWithin(order[1..], at, left - batch, want - |batch|);
      }
    }
  }

  lemma {:induction false} WalkedCount(order: seq<int>, cells: seq<Row>, at: map<string, int>, all: set<string>,
                                       left: set<string>, want: int)
    requires LooksUp(cells, at, all) && left <= all
    ensures |HighDrain(order, cells, left, want)| == |Walked(order, at, left, want)|
    decreases order
  {
    if order != [] && want > 0 {
      var names := At(at, left, order[0]);
      DrainLength(order, cells, at, all, left, want);
      WalkedSize(order, at, left, want);
      if |names| < want {
        WalkedCount(order[1..], cells, at, all, left - names, want - |names|);
      }
    }
  }

  /** One step of the drain adds the names at its index. */
  lemma DrainLength(order: seq<int>, cells: seq<Row>, at: map<string, int>, all: set<string>, left: set<string>, want: int)
    requires LooksUp(cells, at, all) && left <= all && order != [] && want > 0
    ensures var names := At(at, left, order[0]);
            |HighDrain(order, cells, left, want)| ==
            |names| + if |names| < want then |HighDrain(order[1..], cells, left - names, want - |names|)| else 0
  {
    BatchAt(cells, at, all, order[0], left);
  }

  lemma WalkedSize(order: seq<int>, at: map<string, int>, left: set<string>, want: int)
    requires order != [] && want > 0
    ensures var names := At(at, left, order[0]);
            |Walked(order, at, left, want)| ==
            |names| + if |names| < want then |Walked(order[1..], at, left - names, want - |names|)| else 0
  {
    var names := At(at, left, order[0]);
    if |names| < want {
      WalkedWithin(order[1..], at, left - names, want - |names|);
      ApartCount(names, Walked(order[1..], at, left - names, want - |names|), left - names);
    }
  }

  lemma ApartCount(a: set<string>, b: set<string>, rest: set<string>)
    requires b <= rest && a !! rest
    ensures |a + b| == |a| + |b|
  {
  }

  lemma NamesJoin(a: seq<string>, b: seq<string>)
    ensures NameSet(a + b) == NameSet(a) + NameSet(b)
  {
  }

  lemma {:induction false} WalkedNames(order: seq<int>, cells: seq<Row>, at: map<string, int>, all: set<string>,
                                       left: set<string>, want: int)
    requires LooksUp(cells, at, all) && left <= all
    ensures NameSet(HighDrain(order, cells, left, want)) == Walked(order, at, left, want)
    decreases order
  {
    if order != [] && want > 0 {
      var batch, names := TakeIndex(cells, order[0], left), At(at, left, order[0]);
      BatchAt(cells, at, all, order[0], left);
      NamesJoin(batch, HighDrain(order[1..], cells, left - names, want - |names|));
      if |names| < want {
        WalkedNames(order[1..], cells, at, all, left - names, want - |names|);
      } else {
        assert HighDrain(order, cells, left, want) == batch + [] == batch;
      }
    } else {
      EmptyNames();
    }
  }

  lemma HighDrainWalks(order: seq<int>, cells: seq<Row>, at: map<string, int>, all: set<string>, left: set<string>, want: int)
    requires LooksUp(cells, at, all) && left <= all
    ensures NoRepeats(HighDrain(order, cells, left, want))
    ensures NameSet(HighDrain(order, cells, left, want)) == Walked(order, at, left, want)
  {
    WalkedCount(order, cells, at, all, left, want);
    WalkedNames(order, cells, at, all, left, want);
    CountedOnce(HighDrain(order, cells, left, want));
  }

  lemma CountedOnce(names: seq<string>)
    requires |NameSet(names)| == |names|
    ensures NoRepeats(names)
  {
    ElementsCount(names);
    assert NameSet(names) == Elements(names);
  }

  lemma BatchAt(cells: seq<Row>, at: map<string, int>, all: set<string>, idx: int, left: set<string>)
    requires LooksUp(cells, at, all) && left <= all
    ensures var batch := TakeIndex(cells, idx, left);
            NameSet(batch) == At(at, left, idx) && |batch| == |At(at, left, idx)|
  {
    assert Asked(idx, left);
  }

  function Above(at: map<string, int>, left: set<string>, i: int): set<string> {
    set n | n in left && n in at && at[n] > i
  }

  function AtLeast(at: map<string, int>, left: set<string>, i: int): set<string> {
    set n | n in left && n in at && at[n] >= i
  }

  /** The taken names are the whole top of those left, down to the index at which enough are taken or
      none is left. */
  ghost predicate TakesTop(at: map<string, int>, left: set<string>, want: int, taken: set<string>, i: int) {
    && taken == AtLeast(at, left, i) && |Above(at, left, i)| < want
    && (|taken| >= want || taken == left)
  }

  /** Every name left stands at an index still ahead. */
  ghost predicate Ahead(order: seq<int>, at: map<string, int>, left: set<string>) {
    forall n :: n in left ==> n in at && at[n] in order
  }

  lemma {:induction false} WalkTakesTop(order: seq<int>, at: map<string, int>, left: set<string>, want: int) returns (i: int)
    requires SortedDown(order) && Ahead(order, at, left) && want > 0
    ensures TakesTop(at, left, want, Walked(order, at, left, want), i)
    decreases order
  {
    if order == [] {
      i := 0;
      assert left == {};
      assert Walked(order, at, left, want) == {};
      NothingLeft(at, want);
    } else {
      var top, rest, batch := order[0], order[1..], At(at, left, order[0]);
      TopIsHighest(order, at, left);
      var taken := Walked(order, at, left, want);
      if |batch| >= want {
        i := top;
        assert taken == batch;
        TopAlone(at, left, want, top, batch);
      } else {
        var more := Walked(rest, at, left - batch, want - |batch|);
        assert taken == batch + more;
        var j := WalkTakesTop(rest, at, left - batch, want - |batch|);
        i := if j <= top then j else top;
        TopOfBoth(at, left, want, top, batch, more, j);
      }
    }
  }

  lemma NothingLeft(at: map<string, int>, want: int)
    requires want > 0
    ensures TakesTop(at, {}, want, {}, 0)
  {
    assert Above(at, {}, 0) == {} && AtLeast(at, {}, 0) == {};
  }

  lemma TopIsHighest(order: seq<int>, at: map<string, int>, left: set<string>)
    requires order != [] && SortedDown(order) && Ahead(order, at, left)
    ensures Ahead(order[1..], at, left - At(at, left, order[0])) && SortedDown(order[1..])
    ensures forall n :: n in left ==> n in at && at[n] <= order[0]
  {
    assert order == [order[0]] + order[1..];
  }

  lemma TopAlone(at: map<string, int>, left: set<string>, want: int, top: int, batch: set<string>)
    requires batch == At(at, left, top) && (forall n :: n in left ==> n in at && at[n] <= top) && 0 < want <= |batch|
    ensures TakesTop(at, left, want, batch, top)
  {
    assert batch == AtLeast(at, left, top);
    assert Above(at, left, top) == {};
  }

  lemma TopOfBoth(at: map<string, int>, left: set<string>, want: int, top: int, batch: set<string>, more: set<string>, j: int)
    requires batch == At(at, left, top) && (forall n :: n in left ==> n in at && at[n] <= top) && want - |batch| > 0
    requires TakesTop(at, left - batch, want - |batch|, more, j)
    ensures TakesTop(at, left, want, batch + more, if j <= top then j else top)
  {
    ApartCount(batch, more, left - batch);
    if j < top {
      BelowTop(at, left, top, batch, j);
      ApartCount(batch, Above(at, left - batch, j), left - batch);
    } else {
      FromTop(at, left, top, batch, j);
    }
  }

  lemma BelowTop(at: map<string, int>, left: set<string>, top: int, batch: set<string>, j: int)
    requires batch == At(at, left, top) && j < top
    ensures AtLeast(at, left, j) == batch + AtLeast(at, left - batch, j)
    ensures Above(at, left, j) == batch + Above(at, left - batch, j)
  {
  }

  lemma FromTop(at: map<string, int>, left: set<string>, top: int, batch: set<string>, j: int)
    requires batch == At(at, left, top) && top <= j && forall n :: n in left ==> n in at && at[n] <= top
    ensures AtLeast(at, left, top) == batch && AtLeast(at, left - batch, j) == {}
    ensures Above(at, left, top) == {}
  {
  }

  lemma {:induction false} CandidatesCover(cells: seq<Row>)
    ensures forall c :: c in cells && CanRemove(c) ==> c.index in CandidateIndexes(cells)
  {
    if cells != [] {
      CandidatesCover(cells[..|cells| - 1]);
      assert cells == cells[..|cells| - 1] + [cells[|cells| - 1]];
    }
  }

  lemma SameElements(a: seq<int>, b: seq<int>)
    requires multiset(a) == multiset(b)
    ensures |a| == |b| && forall x :: x in a <==> x in b
  {
    assert |a| == |multiset(a)| && |b| == |multiset(b)|;
    forall x ensures x in a <==> x in b {
      assert x in a <==> x in multiset(a);
      assert x in b <==> x in multiset(b);
    }
  }

  lemma OrderIsAhead(cells: seq<Row>, at: map<string, int>, left: set<string>)
    requires Placed(cells, at) && left <= RemovableNames(cells)
    ensures Ahead(DownwardOrder(cells), at, left)
  {
    CandidatesCover(cells);
    SameElements(SortDown(CandidateIndexes(cells)), CandidateIndexes(cells));
    assert DownwardOrder(cells) == SortDown(CandidateIndexes(cells));
    forall n | n in left ensures n in at && at[n] in DownwardOrder(cells) {
      var c :| c in cells && CanRemove(c) && c.name == n;
      assert c.index in CandidateIndexes(cells);
    }
  }

  /** The shape of a selection: first removable names of the preference, in its order and all of them
      if there is room, and then the whole top of the other removable rows, down to an index. */
  ghost predicate DrainShape(at: map<string, int>, removable: set<string>, pref: seq<string>, want: int, d: seq<string>, i: int) {
    var first := PreferredDrain(pref, removable, want);
    var left := removable - NameSet(first);
    && NoRepeats(d) && NameSet(d) <= removable && Prefers(first, pref, removable, want)
    && (|first| >= want ==> d == first)
    && (|first| < want ==>
          && first <= d && |d| == |first| + |NameSet(d) - NameSet(first)|
          && TakesTop(at, left, want - |first|, NameSet(d) - NameSet(first), i))
  }

  lemma SelectionShape(cells: seq<Row>, order: seq<int>, at: map<string, int>, removable: set<string>, pref: seq<string>, want: int)
    returns (i: int)
    requires LooksUp(cells, at, removable) && SortedDown(order) && Ahead(order, at, removable)
    ensures DrainShape(at, removable, pref, want, DrainFrom(cells, order, removable, pref, want), i)
  {
    var first := PreferredDrain(pref, removable, want);
    PreferredDrainExact(pref, removable, want);
    i := RestShape(cells, order, at, removable, pref, want, first);
  }

  lemma RestShape(cells: seq<Row>, order: seq<int>, at: map<string, int>, removable: set<string>, pref: seq<string>, want: int,
                  first: seq<string>) returns (i: int)
    requires LooksUp(cells, at, removable) && SortedDown(order) && Ahead(order, at, removable)
    requires first == PreferredDrain(pref, removable, want) && Prefers(first, pref, removable, want)
    ensures DrainShape(at, removable, pref, want, DrainFrom(cells, order, removable, pref, want), i)
  {
    var left, more := removable - NameSet(first), want - |first|;
    var rest := HighDrain(order, cells, left, more);
    HighDrainWalks(order, cells, at, removable, left, more);
    WalkedWithin(order, at, left, more);
    i := 0;
    if more > 0 {
      i := WalkTakesTop(order, at, left, more);
    }
    ShapeOf(at, removable, pref, want, first, rest, i);
  }

  lemma ShapeOf(at: map<string, int>, removable: set<string>, pref: seq<string>, want: int, first: seq<string>, rest: seq<string>, i: int)
    requires first == PreferredDrain(pref, removable, want) && Prefers(first, pref, removable, want)
    requires NoRepeats(rest) && NameSet(rest) <= removable - NameSet(first)
    requires want - |first| <= 0 ==> rest == []
    requires want - |first| > 0 ==> TakesTop(at, removable - NameSet(first), want - |first|, NameSet(rest), i)
    ensures DrainShape(at, removable, pref, want, first + rest, i)
  {
    JoinNames(first, rest);
    NamesCount(rest);
    assert NameSet(first + rest) - NameSet(first) == NameSet(rest);
    if rest == [] {
      assert first + rest == first;
    }
  }

  /** Only removable rows are drained; past the preference a victim has a higher index than
      every removable row spared, and no preferred row is spared for it. */
  ghost predicate RightVictims(cells: seq<Row>, pref: seq<string>, d: seq<string>) {
    && (forall c :: c in cells && c.name in d ==> CanRemove(c))
    && (forall v, s | v in cells && s in cells && CanRemove(s) && v.name in d && v.name !in pref && s.name !in d ::
          v.index > s.index && s.name !in pref)
  }

  /** How many unpreferred removable names stand above an index and how many from it on: the batch at
      that index, added to those above, is more than is still wanted. */
  ghost predicate BatchTooLarge(at: map<string, int>, removable: set<string>, pref: seq<string>, want: int, i: int) {
    var first := PreferredDrain(pref, removable, want);
    var left := removable - NameSet(first);
    |Above(at, left, i)| < want - |first| < |AtLeast(at, left, i)|
  }

  /** The scale-down plan on any rows with unique names. It never drains fewer cells than the pool is
      over its size, as long as there are removable ones; never a failed or leaving one; past the
      preference always a higher index than any removable cell it spares. It drains more than asked for
      if and only if rows that share an index make the last batch taken larger than what is still
      wanted. */
  lemma DrainIsExact(inp: MembershipInput) returns (at: map<string, int>)
    requires DistinctNames(inp.cells)
    requires inp.reachable && inp.desired < LiveCount(inp.cells)
    ensures Placed(inp.cells, at)
    ensures RightDrain(inp.cells, at, inp.drainPreference, LiveCount(inp.cells) - inp.desired, Plan(inp).drain)
  {
    at := Place(inp.cells);
    PlanDrains(inp);
    DrainOfRows(inp.cells, at, inp.drainPreference, LiveCount(inp.cells) - inp.desired);
  }

  lemma PlanDrains(inp: MembershipInput)
    requires inp.reachable && inp.desired < LiveCount(inp.cells)
    ensures Plan(inp).drain == DrainPlan(inp.cells, inp.drainPreference, LiveCount(inp.cells) - inp.desired)
  {
  }

  /** No fewer than wanted while there are any, each once and each rightly chosen, and more than wanted
      exactly when the last batch is too large. */
  ghost predicate RightDrain(cells: seq<Row>, at: map<string, int>, pref: seq<string>, want: int, d: seq<string>) {
    && NoRepeats(d) && RightVictims(cells, pref, d)
    && |d| >= Min(want, |RemovableNames(cells)|)
    && (|d| > want <==> exists i :: BatchTooLarge(at, RemovableNames(cells), pref, want, i))
    && (|d| <= want ==> |d| == Min(want, |RemovableNames(cells)|))
  }

  lemma DrainOfRows(cells: seq<Row>, at: map<string, int>, pref: seq<string>, want: int)
    requires DistinctNames(cells) && Placed(cells, at) && want > 0
    ensures RightDrain(cells, at, pref, want, DrainPlan(cells, pref, want))
  {
    var i := PlanShape(cells, at, pref, want);
    ShapeIsRight(cells, at, pref, want, DrainPlan(cells, pref, want), i);
  }

  lemma ShapeIsRight(cells: seq<Row>, at: map<string, int>, pref: seq<string>, want: int, d: seq<string>, i: int)
    requires DistinctNames(cells) && Placed(cells, at) && want > 0
    requires DrainShape(at, RemovableNames(cells), pref, want, d, i)
    ensures RightDrain(cells, at, pref, want, d)
  {
    ShapeCounts(at, RemovableNames(cells), pref, want, d, i);
    ShapeVictims(cells, at, pref, want, d, i);
  }

  lemma PlanShape(cells: seq<Row>, at: map<string, int>, pref: seq<string>, want: int) returns (i: int)
    requires Placed(cells, at)
    ensures DrainShape(at, RemovableNames(cells), pref, want, DrainPlan(cells, pref, want), i)
  {
    PlacedLooksUp(cells, at);
    OrderIsAhead(cells, at, RemovableNames(cells));
    i := SelectionShape(cells, DownwardOrder(cells), at, RemovableNames(cells), pref, want);
  }

  lemma PlacedLooksUp(cells: seq<Row>, at: map<string, int>)
    requires Placed(cells, at)
    ensures LooksUp(cells, at, RemovableNames(cells))
  {
    TakeAlwaysLooksUp(cells, at);
    assert RemovableNames(cells) <= Names(cells);
  }

  lemma ShapeCounts(at: map<string, int>, removable: set<string>, pref: seq<string>, want: int, d: seq<string>, i: int)
    requires DrainShape(at, removable, pref, want, d, i) && want > 0
    ensures |d| >= Min(want, |removable|) && (|d| != Min(want, |removable|) ==> |d| > want)
    ensures |d| > want <==> exists j :: BatchTooLarge(at, removable, pref, want, j)
  {
    var first := PreferredDrain(pref, removable, want);
    NamesCount(first);
    if |first| < want {
      var left, more := removable - NameSet(first), want - |first|;
      var taken := NameSet(d) - NameSet(first);
      assert |left| == |removable| - |first|;
      CountTaken(at, left, more, taken, i);
      assert |d| > want <==> |taken| > more;
      if |taken| > more {
        assert BatchTooLarge(at, removable, pref, want, i);
      }
      if j :| BatchTooLarge(at, removable, pref, want, j) {
        OneThreshold(at, left, more, taken, i, j);
      }
    } else {
      SubsetSize(NameSet(first), removable);
    }
  }

  lemma CountTaken(at: map<string, int>, left: set<string>, want: int, taken: set<string>, i: int)
    requires TakesTop(at, left, want, taken, i)
    ensures |taken| >= Min(want, |left|) && (|taken| > want || |taken| == Min(want, |left|))
  {
    SubsetSize(taken, left);
  }

  /** There is only one index at which the batch can be too large: the one the selection stops at. */
  lemma OneThreshold(at: map<string, int>, left: set<string>, want: int, taken: set<string>, i: int, j: int)
    requires TakesTop(at, left, want, taken, i) && |Above(at, left, j)| < want < |AtLeast(at, left, j)|
    ensures |taken| > want
  {
    SubsetSize(AtLeast(at, left, j), left);
    if j < i {
      SubsetSize(AtLeast(at, left, i), Above(at, left, j));
    } else if j > i {
      SubsetSize(AtLeast(at, left, j), Above(at, left, i));
    }
  }

  lemma ShapeVictims(cells: seq<Row>, at: map<string, int>, pref: seq<string>, want: int, d: seq<string>, i: int)
    requires DistinctNames(cells) && Placed(cells, at) && DrainShape(at, RemovableNames(cells), pref, want, d, i)
    ensures RightVictims(cells, pref, d)
  {
    var removable := RemovableNames(cells);
    var first := PreferredDrain(pref, removable, want);
    forall c | c in cells && c.name in d ensures CanRemove(c) {
      assert c.name in NameSet(d);
      OneRowPerName(cells, c);
    }
    forall v, s | v in cells && s in cells && CanRemove(s) && v.name in d && v.name !in pref && s.name !in d
      ensures v.index > s.index && s.name !in pref
    {
      assert v.name in NameSet(d) && v.name !in NameSet(pref) && s.name !in NameSet(d) && s.name in removable;
      assert |first| < want;
      assert v.name in NameSet(d) - NameSet(first) && s.name !in NameSet(first);
      assert s.name !in AtLeast(at, removable - NameSet(first), i);
    }
  }

  lemma OneRowPerName(cells: seq<Row>, c: Row)
    requires DistinctNames(cells) && c in cells && c.name in RemovableNames(cells)
    ensures CanRemove(c)
  {
    var r :| r in cells && CanRemove(r) && r.name == c.name;
    var i :| 0 <= i < |cells| && cells[i] == c;
    var j :| 0 <= j < |cells| && cells[j] == r;
  }

  /** With one removable row per index nothing is drained beyond what is asked for. */
  lemma UniqueIndexesNeverOvershoot(at: map<string, int>, removable: set<string>, pref: seq<string>, want: int, i: int)
    requires forall m, n :: m in removable && n in removable && m in at && n in at && at[m] == at[n] ==> m == n
    ensures !BatchTooLarge(at, removable, pref, want, i)
  {
    var left := removable - NameSet(PreferredDrain(pref, removable, want));
    var here := At(at, left, i);
    if n :| n in here {
      assert here == {n};
    } else {
      assert here == {};
    }
    assert AtLeast(at, left, i) == Above(at, left, i) + here;
  }

  /** Unique indexes are needed: two removable rows that decode to one index are drained
      together, even when the pool is over its size by one. */
  lemma SharedIndexOvershoots(a: Row, b: Row, inp: MembershipInput)
    requires CanRemove(a) && CanRemove(b) && a.name != b.name && a.index == b.index
    requires inp.cells == [a, b] && inp.desired == 1 && inp.reachable && inp.drainPreference == []
    ensures LiveCount(inp.cells) - inp.desired == 1
    ensures Plan(inp).drain == [a.name, b.name]
  {
    var cells, removable := inp.cells, RemovableNames(inp.cells);
    var order := HighestIndexes(CandidateIndexes(cells), |CandidateIndexes(cells)|);
    TwoRows(a, b);
    assert a in cells && b in cells && a.name in removable && b.name in removable;
    assert HighDrain(order, cells, removable, 1) == [a.name, b.name] by {
      TakeBoth(a, b, removable);
      assert HighDrain(order[1..], cells, removable - NameSet([a.name, b.name]), -1) == [];
    }
    assert PreferredDrain([], removable, 1) == [] && removable - NameSet([]) == removable;
  }

  lemma OneRow(a: Row)
    requires CanRemove(a)
    ensures LiveCount([a]) == 1 && CandidateIndexes([a]) == [a.index]
  {
    var front := [a][..0];
    assert front == [] && CountIf(front, CountsLive) == 0 && CandidateIndexes(front) == [];
    assert CountsLive(a) && CandidateIndexes([a]) == [] + [a.index];
  }

  lemma TwoRows(a: Row, b: Row)
    requires CanRemove(a) && CanRemove(b) && a.index == b.index
    ensures LiveCount([a, b]) == 2 && CandidateIndexes([a, b]) == [a.index, a.index]
    ensures var order := HighestIndexes([a.index, a.index], 2); |order| == 2 && order[0] == a.index
  {
    OneRow(a);
    assert [a, b][..1] == [a] && [a, b][1] == b;
    var sorted := SortDown([a.index, a.index]);
    SameElements(sorted, [a.index, a.index]);
    assert sorted[0] in sorted;
  }

  lemma TakeBoth(a: Row, b: Row, removable: set<string>)
    requires a.name != b.name && a.index == b.index && a.name in removable && b.name in removable
    ensures TakeIndex([a, b], a.index, removable) == [a.name, b.name]
  {
    assert [a, b][1..] == [b] && [b][1..] == [];
    assert TakeIndex([b], a.index, removable - {a.name}) == [b.name];
  }
}
