/** Safety of whole runs: which deletions happen, and when Ready is shown. */
module RunTheorems {
  import opened CellTypes
  import opened CellId
  import opened Fsm
  import opened Membership
  import opened Discovery
  import opened Passes
  import opened Runs

  // ----- deletions

  lemma BackoffGrows(failures: int)
    requires failures >= 1
    ensures BackoffAfter(failures) >= BACKOFF_BASE
  {
  }

  /** A cell replaced in a pass is Failed in the row the pass writes, and that row passes the
      replacement test. */
  lemma ReplacedRow(p: Pass, n: string)
    requires Marks(p) && Written(p) && n in p.replaced
    requires p.rollout.drain.Some? ==> p.rollout.drain.value in p.rows && p.rows[p.rollout.drain.value].phase == Ready
    ensures n in p.after.rows && ShouldReplace(p.after.rows[n], p.input.now, Usable(p.input))
  {
    assert n in p.marked && p.marked[n].phase == Failed;
    assert n !in NameSet(p.plan.drain);
    assert n !in Started(p);
  }

  lemma RemovedRow(p: Pass, n: string)
    requires Finishes(p) && n in p.removed
    ensures n in p.after.rows && p.after.rows[n].phase == Draining
    ensures p.input.reachable && ReadsNone(p.input.drainAllocations, n)
  {
  }

  /** Deleted in pass `k` because it was draining and nothing was read to hold its GPU. */
  predicate DrainedEmpty(run: seq<Pass>, k: nat, n: string)
    requires k < |run|
  {
    var p := run[k];
    && n in p.after.rows && p.after.rows[n].phase == Draining
    && p.input.reachable && ReadsNone(p.input.drainAllocations, n)
  }

  /** The Node's allocations were read, and nothing holds or is binding a share. */
  predicate ReadsNone(read: map<string, Allocations>, n: string) {
    n in read && read[n].consumers == 0 && !read[n].inFlight
  }

  /** The seconds to wait after the first, second, third and fourth failure; there is no replacement after
      a fifth. */
  predicate Waited(failures: int, seconds: int) {
    || (failures == 1 && seconds >= 30)
    || (failures == 2 && seconds >= 60)
    || (failures == 3 && seconds >= 120)
    || (failures == 4 && seconds >= 240)
  }

  /** Deleted in pass `k` because it failed in pass `j`, has stayed failed since, its failures are
      few enough, a rebuild could help, and the backoff is over. */
  predicate BackedOff(run: seq<Pass>, j: nat, k: nat, n: string)
    requires j < k < |run|
  {
    && HeldSince(run, j, k, n, Failed)
    && var r := run[k].after.rows[n];
    && Waited(r.failureCount, run[k].input.now - run[j].input.now)
    && ((run[k].input.reachable && run[k].input.providerReady) || !r.nodeReady || r.capacityDevices != 0)
  }

  /** The two causes for which a pass deletes the cell of a row. */
  ghost predicate Classified(run: seq<Pass>, k: nat, n: string)
    requires k < |run|
  {
    DrainedEmpty(run, k, n) || exists j: nat :: j < k && BackedOff(run, j, k, n)
  }

  /** Every deletion of a guest in every run of a live pool has one of two causes, in a row whose index
      names the guest. The row is that guest's own if and only if its name is the one the operator
      writes for its index; deletion goes by index, and a row with a padded name takes its neighbour. */
  lemma DeletionsAreClassified(pool: string, run: seq<Pass>, k: nat, guest: string) returns (n: string)
    requires Run(pool, run) && k < |run| && guest in DeletedGuests(run[k])
    ensures n in run[k].after.rows && guest == Name(pool, run[k].after.rows[n].index) && Classified(run, k, n)
    ensures n == guest <==> Canonical(pool, n)
  {
    StepAt(pool, run, k);
    n := DeletedFor(pool, run[k], guest);
    if n in run[k].removed {
      LegalAt(run, k);
      RemovedRow(run[k], n);
    } else {
      ReplacementBackedOff(pool, run, k, n);
    }
  }

  lemma DeletedFor(pool: string, p: Pass, guest: string) returns (n: string)
    requires StepOk(pool, p) && guest in DeletedGuests(p)
    ensures n in p.replaced + p.removed && n in p.after.rows && guest == Name(pool, p.after.rows[n].index)
    ensures n == guest <==> Canonical(pool, n)
  {
    n :| n in p.replaced + p.removed && n in p.rows && guest == Name(pool, p.rows[n].index);
    assert RowOk(p.input.spec, n, p.rows[n]);
  }

  /** While every row has the operator's own name, a pass deletes a guest only for its own row. */
  lemma OwnDeletions(pool: string, run: seq<Pass>, k: nat, guest: string)
    requires Run(pool, run) && k < |run| && guest in DeletedGuests(run[k])
    requires forall n :: n in run[k].after.rows ==> Canonical(pool, n)
    ensures guest in run[k].after.rows && Classified(run, k, guest)
  {
    var n := DeletionsAreClassified(pool, run, k, guest);
  }

  lemma ReplacedStep(pool: string, p: Pass, n: string)
    requires StepOk(pool, p) && Legal(p) && n in p.replaced
    ensures n in p.after.rows && RowOk(p.input.spec, n, p.after.rows[n])
    ensures ShouldReplace(p.after.rows[n], p.input.now, Usable(p.input))
  {
    if p.rollout.drain.Some? {
      RolloutShape(p);
    }
    ReplacedRow(p, n);
  }

  lemma ReplacedAt(pool: string, run: seq<Pass>, k: nat, n: string)
    requires Run(pool, run) && k < |run| && n in run[k].replaced
    ensures n in run[k].after.rows && RowOk(run[k].input.spec, n, run[k].after.rows[n])
    ensures ShouldReplace(run[k].after.rows[n], run[k].input.now, Usable(run[k].input))
  {
    StepAt(pool, run, k);
    LegalAt(run, k);
    ReplacedStep(pool, run[k], n);
  }

  lemma ReplacementBackedOff(pool: string, run: seq<Pass>, k: nat, n: string)
    requires Run(pool, run) && k < |run| && n in run[k].replaced
    ensures exists j: nat :: j < k && BackedOff(run, j, k, n)
  {
    ReplacedAt(pool, run, k, n);
    PhaseHistory(pool, run, k, n);
    var j: nat :| HeldSince(run, j, k, n, Failed);
    BackoffIsOver(run, j, k, n);
  }

  lemma BackoffIsOver(run: seq<Pass>, j: nat, k: nat, n: string)
    requires HeldSince(run, j, k, n, Failed)
    requires run[k].after.rows[n].failureCount >= 1
    requires ShouldReplace(run[k].after.rows[n], run[k].input.now, Usable(run[k].input))
    ensures j < k && BackedOff(run, j, k, n)
  {
    BackoffTable(run[k].after.rows[n].failureCount);
    assert run[k].after.rows[n].since == Some(run[j].input.now);
  }

  // ----- replacement asks nobody

  /** Pass `i` found the cell Ready, and up to pass `k` its row has stayed and no pass has seen another
      guest behind it. */
  predicate ServedSince(run: seq<Pass>, i: nat, k: nat, n: string) {
    && i <= k < |run|
    && n in run[i].rows && run[i].rows[n].phase == Ready && n in run[i].after.rows
    && (forall j :: i < j <= k ==> n in run[j].after.rows && !NewGuest(run[j], n))
  }

  ghost predicate Served(run: seq<Pass>, k: nat, n: string) {
    exists i: nat :: ServedSince(run, i, k, n)
  }

  /** One pass: the latch is set by Ready, and otherwise kept unless another guest is seen. */
  predicate Latches(p: Pass, n: string)
    requires n in p.after.rows
  {
    && n in p.rows
    && (p.after.rows[n].readyOnce <==>
          p.rows[n].phase == Ready || (n in p.before.rows && !NewGuest(p, n) && p.before.rows[n].readyOnce))
  }

  lemma LatchStep(pool: string, p: Pass, n: string)
    requires StepOk(pool, p) && n in p.after.rows
    ensures Latches(p, n)
  {
    SeenLatch(p.input.spec, p.before.rows, Kept(p), p.input.reachable, p.input.now, n);
    assert p.after.rows[n].readyOnce == p.rows[n].readyOnce;
  }

  lemma SeenLatch(spec: Spec, rows: map<string, Row>, d: Reads, reachable: bool, now: int, n: string)
    requires ReadsOk(spec, d) && n in RowsAfter(spec, rows, d, reachable, now)
    ensures var r := RowsAfter(spec, rows, d, reachable, now)[n];
            r.readyOnce <==> || r.phase == Ready
                             || (n in rows && rows[n].readyOnce
                                 && !(n in Cells(spec, d) && rows[n].uid != "" && rows[n].uid != d.seen[n].outer.uid))
  {
  }

  lemma {:induction false} LatchHistory(run: seq<Pass>, k: nat, n: string)
    requires Linked(run) && k < |run| && n in run[k].after.rows
    requires forall i, m :: 0 <= i < |run| && m in run[i].after.rows ==> Latches(run[i], m)
    ensures run[k].after.rows[n].readyOnce <==> Served(run, k, n)
    decreases k
  {
    assert Latches(run[k], n);
    if run[k].rows[n].phase == Ready {
      assert ServedSince(run, k, k, n);
    } else if k > 0 && n in run[k - 1].after.rows && !NewGuest(run[k], n) {
      LatchHistory(run, k - 1, n);
      LatchCarried(run, k, n);
    } else {
      NotServed(run, k, n);
    }
  }

  lemma LatchCarried(run: seq<Pass>, k: nat, n: string)
    requires 0 < k < |run| && n in run[k].after.rows && !NewGuest(run[k], n)
    requires n in run[k].rows && run[k].rows[n].phase != Ready
    ensures Served(run, k, n) <==> Served(run, k - 1, n)
  {
    if Served(run, k - 1, n) {
      var i: nat :| ServedSince(run, i, k - 1, n);
      assert ServedSince(run, i, k, n);
    }
    if Served(run, k, n) {
      var i: nat :| ServedSince(run, i, k, n);
      assert ServedSince(run, i, k - 1, n);
    }
  }

  lemma NotServed(run: seq<Pass>, k: nat, n: string)
    requires Linked(run) && k < |run| && n in run[k].rows && run[k].rows[n].phase != Ready
    requires k > 0 ==> (n !in run[k - 1].after.rows || NewGuest(run[k], n))
    ensures !Served(run, k, n)
  {
  }

  /** A row's Ready latch is its history: it is set exactly when some pass found the cell Ready and no
      pass since has dropped the row or seen another guest behind it. */
  lemma LatchIsHistory(pool: string, run: seq<Pass>, k: nat, n: string)
    requires Run(pool, run) && k < |run| && n in run[k].after.rows
    ensures run[k].after.rows[n].readyOnce <==> Served(run, k, n)
  {
    RunHasSteps(pool, run);
    forall i, m | 0 <= i < |run| && m in run[i].after.rows ensures Latches(run[i], m) {
      LatchStep(pool, run[i], m);
    }
    LatchHistory(run, k, n);
  }

  /** Replacing a failed row asks nobody: whatever the drain gate would read, the guest goes. It is one
      that had served, and may still hold work, if and only if the row the pass found has its latch set,
      that is, some earlier pass found the cell Ready and none since has seen another guest. */
  lemma ReplacementIsUngated(pool: string, run: seq<Pass>, k: nat, n: string, held: map<string, Allocations>)
    requires Run(pool, run) && k < |run| && n in run[k].replaced
    ensures n in ToReplace(run[k].marked, run[k].input.(drainAllocations := held))
    ensures n in run[k].before.rows && run[k].before.rows[n].phase == Failed
    ensures run[k].before.rows[n].readyOnce <==> Served(run, k, n)
  {
    LegalAt(run, k);
    ReplacedWasFailed(pool, run, k, n);
    StepAt(pool, run, k);
    LatchStep(pool, run[k], n);
    LatchIsHistory(pool, run, k, n);
  }

  lemma ReplacedWasFailed(pool: string, run: seq<Pass>, k: nat, n: string)
    requires Run(pool, run) && k < |run| && n in run[k].replaced
    ensures n in run[k].after.rows && n in run[k].before.rows && run[k].before.rows[n].phase == Failed && !NewGuest(run[k], n)
    ensures n in run[k].rows && run[k].rows[n].phase != Ready
  {
    ReplacementBackedOff(pool, run, k, n);
    var j: nat :| j < k && BackedOff(run, j, k, n);
    StepAt(pool, run, k);
    StillFailed(pool, run, j, k, n);
  }

  lemma StillFailed(pool: string, run: seq<Pass>, j: nat, k: nat, n: string)
    requires j < k < |run| && StepOk(pool, run[k]) && BackedOff(run, j, k, n) && run[k].before.rows == run[k - 1].after.rows
    ensures n in run[k].after.rows && n in run[k].before.rows && run[k].before.rows[n].phase == Failed && !NewGuest(run[k], n)
    ensures n in run[k].rows && run[k].rows[n].phase != Ready
  {
    assert n in run[k - 1].after.rows && run[k - 1].after.rows[n].phase == Failed;
    if NewGuest(run[k], n) {
      NewGuestStartsNow(run[k].input.spec, run[k].before.rows, Kept(run[k]), run[k].input.reachable, run[k].input.now, n);
    }
  }

  lemma NewGuestStartsNow(spec: Spec, rows: map<string, Row>, d: Reads, reachable: bool, now: int, n: string)
    requires ReadsOk(spec, d) && n in Cells(spec, d) && n in rows && rows[n].uid != "" && rows[n].uid != d.seen[n].outer.uid
    ensures n in RowsAfter(spec, rows, d, reachable, now) && RowsAfter(spec, rows, d, reachable, now)[n].since == Some(now)
  {
  }

  // ----- deletion of the pool itself

  /** One pass of a pool that is being deleted. */
  datatype TeardownInput = TeardownInput(
    spec: Spec,
    now: int,
    reachable: bool,
    deletedAt: int,
    listed: seq<string>,
    drainAllocations: map<string, Allocations>)

  function TeardownGate(inp: TeardownInput, n: string): DrainDecision {
    AdvanceDrain(
      if inp.reachable && n in inp.drainAllocations then Some(inp.drainAllocations[n]) else None,
      true, inp.spec.force, inp.deletedAt, inp.now, DurationOr(inp.spec.drainTimeout, DEFAULT_DRAIN_TIMEOUT))
  }

  function TeardownNames(inp: TeardownInput): set<string> {
    set n | n in inp.listed && ParseIndex(inp.spec.pool, n).Some?
  }

  /** The guest that the index of a listed name names. */
  function GuestNamed(inp: TeardownInput, n: string): string
    requires n in TeardownNames(inp)
  {
    Name(inp.spec.pool, ParseIndex(inp.spec.pool, n).value)
  }

  function TeardownRow(rows: map<string, Row>, inp: TeardownInput, n: string): Row
    requires ParseIndex(inp.spec.pool, n).Some?
  {
    var c := if n in rows then rows[n]
             else BLANK_ROW.(name := n, index := ParseIndex(inp.spec.pool, n).value, phase := Draining);
    var d := if c.phase == Draining then c else c.(phase := Draining, since := Some(inp.now));
    d.(reason := TeardownGate(inp, n).reason)
  }

  /** The rows to publish, one for each listed cell in order. */
  function TeardownRows(rows: map<string, Row>, inp: TeardownInput, listed: seq<string>): seq<Row> {
    if listed == [] then []
    else
      var n := listed[|listed| - 1];
      TeardownRows(rows, inp, listed[..|listed| - 1]) +
      (if ParseIndex(inp.spec.pool, n).Some? then [TeardownRow(rows, inp, n)] else [])
  }

  /** The guests to delete: those that the indexes of the cells with an open gate name. */
  function TeardownGuests(inp: TeardownInput, listed: seq<string>): set<string> {
    set n | n in listed && n in TeardownNames(inp) && TeardownGate(inp, n).proceed :: GuestNamed(inp, n)
  }

  lemma TeardownNext(rows: map<string, Row>, inp: TeardownInput, k: nat)
    requires k < |inp.listed|
    ensures var n, cell := inp.listed[k], ParseIndex(inp.spec.pool, inp.listed[k]).Some?;
            && (cell <==> n in TeardownNames(inp))
            && TeardownRows(rows, inp, inp.listed[..k + 1]) ==
               TeardownRows(rows, inp, inp.listed[..k]) + (if cell then [TeardownRow(rows, inp, n)] else [])
            && TeardownGuests(inp, inp.listed[..k + 1]) ==
               TeardownGuests(inp, inp.listed[..k]) + (if cell && TeardownGate(inp, n).proceed then {GuestNamed(inp, n)} else {})
  {
    assert inp.listed[..k + 1][..k] == inp.listed[..k];
    assert inp.listed[..k + 1] == inp.listed[..k] + [inp.listed[k]];
  }

  /** The loop over the pool's guests: rows to publish, and guests to delete. */
  method Teardown(rows: map<string, Row>, inp: TeardownInput) returns (out: seq<Row>, removed: set<string>)
    ensures out == TeardownRows(rows, inp, inp.listed)
    ensures removed == set n | n in TeardownNames(inp) && TeardownGate(inp, n).proceed :: GuestNamed(inp, n)
  {
    out, removed := [], {};
    for k := 0 to |inp.listed|
      invariant out == TeardownRows(rows, inp, inp.listed[..k]) && removed == TeardownGuests(inp, inp.listed[..k])
    {
      TeardownNext(rows, inp, k);
      var name := inp.listed[k];
      var idx := ParseIndex(inp.spec.pool, name);
      if idx.None? {
        continue;
      }
      out := out + [TeardownRow(rows, inp, name)];
      if TeardownGate(inp, name).proceed {
        removed := removed + {Name(inp.spec.pool, idx.value)};
      }
    }
    assert inp.listed[..|inp.listed|] == inp.listed;
  }

  /** More than the drain timeout, 600 seconds unless the spec says otherwise, has passed since the
      deletion was requested; a negative timeout never passes. */
  predicate Overdue(inp: TeardownInput) {
    var timeout := if inp.spec.drainTimeout.Some? && inp.spec.drainTimeout.value != 0 then inp.spec.drainTimeout.value else 600;
    timeout > 0 && inp.now - inp.deletedAt > timeout
  }

  /** A pool being deleted removes a cell exactly when the policy is Force, or its allocations were
      read as empty, or strictly more than the drain timeout has passed since the deletion was
      requested. The row, and so the cell's last phase change, has no say. */
  lemma TeardownIsBounded(inp: TeardownInput, n: string)
    ensures TeardownGate(inp, n).proceed <==>
            || inp.spec.force
            || (inp.reachable && ReadsNone(inp.drainAllocations, n))
            || Overdue(inp)
    ensures TeardownGate(inp, n).reason == DrainTimedOut ==>
            !inp.spec.force && !(inp.reachable && ReadsNone(inp.drainAllocations, n))
  {
  }

  /** The row published for a listed cell: the one that was there, Draining, since then or since now, or a
      new one with its name and index; and why it stays or goes. */
  lemma TeardownRowExactly(rows: map<string, Row>, inp: TeardownInput, n: string)
    requires n in TeardownNames(inp)
    ensures var r := TeardownRow(rows, inp, n);
            && r.phase == Draining
            && (n in rows ==> r.name == rows[n].name && r.index == rows[n].index && r.uid == rows[n].uid
                              && r.failureCount == rows[n].failureCount && r.hash == rows[n].hash && r.readyOnce == rows[n].readyOnce
                              && r.nodeName == rows[n].nodeName && r.nodeReady == rows[n].nodeReady
                              && r.capacityDevices == rows[n].capacityDevices
                              && r.since == if rows[n].phase == Draining then rows[n].since else Some(inp.now))
            && (n !in rows ==> r.name == n && Some(r.index) == ParseIndex(inp.spec.pool, n) && r.uid == "" && r.since == None)
            && r.reason == if inp.spec.force || ReadEmpty(inp, n) then CellDraining
                           else if Overdue(inp) then DrainTimedOut else WaitingForAllocations
  {
  }

  /** One pass over a deleted pool, with the rows it found and the rows it published. */
  datatype TeardownPass = TeardownPass(input: TeardownInput, before: map<string, Row>, after: map<string, Row>, removed: set<string>)

  predicate TearsDown(t: TeardownPass) {
    && t.removed == (set n | n in TeardownNames(t.input) && TeardownGate(t.input, n).proceed :: GuestNamed(t.input, n))
    && t.after == (if t.input.listed == [] then t.before
                   else map n | n in TeardownNames(t.input) :: TeardownRow(t.before, t.input, n))
  }

  /** The end of a pool: passes over it after its deletion was requested, each starting from the rows the
      last one published, the first from those the live pool left. */
  ghost predicate Ending(pool: string, run: seq<Pass>, ts: seq<TeardownPass>, deletedAt: int) {
    && Run(pool, run) && Endings(pool, ts, deletedAt)
    && (ts != [] ==> ts[0].before == if run == [] then map[] else run[|run| - 1].after.rows)
  }

  predicate Endings(pool: string, ts: seq<TeardownPass>, deletedAt: int) {
    && (forall i :: 0 <= i < |ts| ==> TearsDown(ts[i]) && ts[i].input.spec.pool == pool && ts[i].input.deletedAt == deletedAt)
    && (forall i :: 0 < i < |ts| ==> ts[i].before == ts[i - 1].after && ts[i - 1].input.now <= ts[i].input.now)
  }

  /** The third kind of deletion, over the whole end of a pool: a guest goes only because the policy is
      Force, because nothing was read to hold the Node of its cell, or because strictly more than the
      drain timeout has passed since the deletion was requested. And none outstays it: a pass past that
      time deletes every guest it lists, even where an earlier pass of the same end moved the row into
      Draining less than the timeout ago. */
  lemma EndingIsBounded(pool: string, run: seq<Pass>, ts: seq<TeardownPass>, deletedAt: int, k: nat)
    requires Ending(pool, run, ts, deletedAt) && k < |ts|
    ensures forall g :: g in ts[k].removed ==>
              exists n :: n in TeardownNames(ts[k].input) && g == GuestNamed(ts[k].input, n)
                          && (ts[k].input.spec.force || Overdue(ts[k].input) || ReadEmpty(ts[k].input, n))
    ensures Overdue(ts[k].input) ==> forall n :: n in TeardownNames(ts[k].input) ==> GuestNamed(ts[k].input, n) in ts[k].removed
    ensures forall n :: n in TeardownNames(ts[k].input) ==> n in ts[k].after && ts[k].after[n].phase == Draining
    ensures forall n :: k > 0 && n in TeardownNames(ts[k].input) && n in ts[k - 1].after && ts[k - 1].after[n].phase == Draining ==>
                     ts[k].after[n].since == ts[k - 1].after[n].since
  {
    TeardownPassBounded(ts[k]);
  }

  lemma TeardownPassBounded(t: TeardownPass)
    requires TearsDown(t)
    ensures forall g :: g in t.removed ==>
              exists n :: n in TeardownNames(t.input) && g == GuestNamed(t.input, n)
                          && (t.input.spec.force || Overdue(t.input) || ReadEmpty(t.input, n))
    ensures Overdue(t.input) ==> forall n :: n in TeardownNames(t.input) ==> GuestNamed(t.input, n) in t.removed
  {
    forall n | n in TeardownNames(t.input)
      ensures TeardownGate(t.input, n).proceed <==> t.input.spec.force || Overdue(t.input) || ReadEmpty(t.input, n)
    {
      TeardownIsBounded(t.input, n);
    }
  }

  function ListedNames(inp: TeardownInput): set<string> {
    set n | n in inp.listed
  }

  /** From pass `j` to pass `k` exactly the guests a pass deletes are gone when the next one lists. */
  predicate DeletionsLand(ts: seq<TeardownPass>, j: nat, k: nat)
    requires k < |ts|
  {
    forall i :: j <= i < k ==> ListedNames(ts[i + 1].input) == ListedNames(ts[i].input) - ts[i].removed
  }

  /** Names that no deletion takes away: those the operator would not write. */
  function ForeignNames(pool: string, names: set<string>): set<string> {
    set n | n in names && !Canonical(pool, n)
  }

  lemma RemovedAreCanonical(t: TeardownPass)
    requires TearsDown(t)
    ensures forall g :: g in t.removed ==> Canonical(t.input.spec.pool, g)
  {
    forall n | n in TeardownNames(t.input) ensures Canonical(t.input.spec.pool, GuestNamed(t.input, n)) {
      NamedIsCanonical(t.input, n);
    }
  }

  lemma NamedIsCanonical(inp: TeardownInput, n: string)
    requires n in TeardownNames(inp)
    ensures Canonical(inp.spec.pool, GuestNamed(inp, n))
  {
    OrdinaryName(inp.spec.pool, inp.spec.pool, ParseIndex(inp.spec.pool, n).value);
  }

  lemma OverdueTakesAll(pool: string, t: TeardownPass)
    requires TearsDown(t) && t.input.spec.pool == pool && Overdue(t.input)
    ensures ListedNames(t.input) - t.removed == ForeignNames(pool, ListedNames(t.input))
  {
    RemovedAreCanonical(t);
    forall n | n in t.input.listed && Canonical(pool, n) ensures n in t.removed {
      TeardownIsBounded(t.input, n);
      assert n in TeardownNames(t.input) && n == GuestNamed(t.input, n);
    }
  }

  /** The end of a pool is reached, if it can be: once a pass is past the drain timeout and deletions
      land, every later pass lists exactly the names it listed that are not the operator's own. So the
      pool goes, on the next pass, if and only if there are none. */
  lemma OverdueEnds(pool: string, run: seq<Pass>, ts: seq<TeardownPass>, deletedAt: int, j: nat, k: nat)
    requires Ending(pool, run, ts, deletedAt) && j < k < |ts| && Overdue(ts[j].input) && DeletionsLand(ts, j, k)
    ensures ListedNames(ts[k].input) == ForeignNames(pool, ListedNames(ts[j].input))
    ensures ts[k].input.listed == [] <==> forall n :: n in ts[j].input.listed ==> Canonical(pool, n)
  {
    OnlyForeignStay(pool, ts, deletedAt, j, k);
    EmptyListing(pool, ts[j].input, ts[k].input);
  }

  lemma {:induction false} OnlyForeignStay(pool: string, ts: seq<TeardownPass>, deletedAt: int, j: nat, k: nat)
    requires Endings(pool, ts, deletedAt) && j < k < |ts| && Overdue(ts[j].input) && DeletionsLand(ts, j, k)
    ensures ListedNames(ts[k].input) == ForeignNames(pool, ListedNames(ts[j].input))
    decreases k
  {
    assert TearsDown(ts[k - 1]) && ts[k - 1].input.spec.pool == pool;
    if k == j + 1 {
      OverdueTakesAll(pool, ts[j]);
    } else {
      OnlyForeignStay(pool, ts, deletedAt, j, k - 1);
      RemovedAreCanonical(ts[k - 1]);
    }
  }

  lemma EmptyListing(pool: string, was: TeardownInput, now: TeardownInput)
    requires ListedNames(now) == ForeignNames(pool, ListedNames(was))
    ensures now.listed == [] <==> forall n :: n in was.listed ==> Canonical(pool, n)
  {
    if now.listed != [] {
      assert now.listed[0] in ListedNames(now);
    }
    forall n | n in was.listed && !Canonical(pool, n) ensures n in now.listed {
      assert n in ForeignNames(pool, ListedNames(was));
    }
  }

  predicate ReadEmpty(inp: TeardownInput, n: string) {
    inp.reachable && ReadsNone(inp.drainAllocations, n)
  }

  // ----- Ready is justified

  /** What the pass saw of a cell, without the memory of its row. */
  function Sight(p: Pass, n: string): Observation
    requires n in Cells(p.input.spec, Kept(p))
  {
    Observe(p.input.spec, BLANK_ROW, Kept(p).seen[n], p.input.reachable, p.input.now)
  }

  /** The Node answers for this guest: it is there and Ready, and not a silent one that names another. */
  predicate NodeAnswers(g: GuestReading) {
    && g.node.present && g.node.ready
    && (g.node.kubeletLive || g.node.instance.None? || g.node.instance.value in {"", g.outer.uid})
  }

  /** The provider answers for its Node with the devices the pool expects. */
  predicate GpuAdvertised(g: GuestReading, expected: int) {
    g.health == Some(true) && (if g.devices.Some? then g.devices.value else 0) >= expected
  }

  /** Everything Ready promises, as the pass read it. */
  predicate SeenUp(p: Pass, n: string)
    requires n in Cells(p.input.spec, Kept(p))
  {
    var g := Kept(p).seen[n];
    && p.input.reachable
    && g.outer.present && !g.outer.failed && g.outer.provisioned && g.outer.devices > 0
    && NodeAnswers(g) && GpuAdvertised(g, p.input.spec.expectedDevices)
  }

  /** The time a stage may take: what the spec says, or else 900 seconds to come up and 300 to advertise. */
  function BootBudget(spec: Spec): int {
    if spec.bootstrapTimeout.Some? && spec.bootstrapTimeout.value != 0 then spec.bootstrapTimeout.value else 900
  }

  function GpuBudget(spec: Spec): int {
    if spec.capacityTimeout.Some? && spec.capacityTimeout.value != 0 then spec.capacityTimeout.value else 300
  }

  /** The first thing still missing of a guest in a readable workload cluster, and the time it may take. A
      Node that names another guest and is silent is waited out without limit. */
  function StageSeen(p: Pass, n: string): Option<Stage>
    requires n in Cells(p.input.spec, Kept(p))
  {
    var g, boot := Kept(p).seen[n], BootBudget(p.input.spec);
    if g.outer.devices == 0 then Some(Stage(AllocatingGPU, boot))
    else if !g.outer.provisioned then Some(Stage(if g.outer.running then Booting else GuestProvisioning, boot))
    else if g.node.present && !g.node.kubeletLive && g.node.instance.Some? && g.node.instance.value !in {"", g.outer.uid} then
      Some(Stage(Joining, 0))
    else if !g.node.present || !g.node.ready then Some(Stage(Joining, boot))
    else if !GpuAdvertised(g, p.input.spec.expectedDevices) then Some(Stage(AwaitingGPUCapacity, GpuBudget(p.input.spec)))
    else None
  }

  lemma StageAsSeen(pool: string, p: Pass, n: string)
    requires Readable(pool, p) && n in Cells(p.input.spec, Kept(p)) && p.input.reachable
    ensures FirstUnmet(Milestones(Sight(p, n))) == StageSeen(p, n)
  {
    FourMilestones(Sight(p, n));
  }

  lemma FourMilestones(obs: Observation)
    ensures FirstUnmet(Milestones(obs)) ==
            var ms := Milestones(obs);
            if !ms[0].0 then Some(ms[0].1) else if !ms[1].0 then Some(ms[1].1)
            else if !ms[2].0 then Some(ms[2].1) else if !ms[3].0 then Some(ms[3].1) else None
  {
    var ms := Milestones(obs);
    var stage := FirstUnmet(ms);
    if stage.Some? {
      var i :| 0 <= i < |ms| && !ms[i].0 && ms[i].1 == stage.value && forall j :: 0 <= j < i ==> ms[j].0;
      assert i == 0 || i == 1 || i == 2 || i == 3;
      assert i >= 1 ==> ms[0].0;
      assert i >= 2 ==> ms[1].0;
      assert i >= 3 ==> ms[2].0;
    } else {
      assert ms[0].0 && ms[1].0 && ms[2].0 && ms[3].0;
    }
  }

  lemma UpAsSeen(pool: string, p: Pass, n: string)
    requires Readable(pool, p) && n in Cells(p.input.spec, Kept(p))
    ensures FullyUp(Sight(p, n)) <==> SeenUp(p, n)
  {
  }

  /** Pass `j` saw everything Ready promises for the guest the row names after pass `k`, and no
      pass since could see the workload cluster. */
  predicate ReadySince(run: seq<Pass>, j: nat, k: nat, n: string) {
    && j <= k < |run|
    && n in run[k].after.rows
    && n in Cells(run[j].input.spec, Kept(run[j]))
    && SeenUp(run[j], n)
    && Kept(run[j]).seen[n].outer.uid == run[k].after.rows[n].uid
    && (forall i :: j < i <= k ==> !run[i].input.reachable)
  }

  lemma SeenReady(spec: Spec, rows: map<string, Row>, g: GuestReading, reachable: bool, now: int, n: string, index: int)
    requires n in rows ==> RowOk(spec, n, rows[n])
    requires g.outer.uid != "" && SeenRow(spec, rows, n, index, g, reachable, now).phase == Ready
    ensures || FullyUp(Observe(spec, BLANK_ROW, g, reachable, now))
            || (!reachable && n in rows && rows[n].phase == Ready && rows[n].uid == g.outer.uid)
  {
    var prev := Inherit(Previous(rows, n), g.outer.uid);
    ReadyExactly(Observe(spec, prev, g, reachable, now));
  }

  lemma ReadyStep(spec: Spec, rows: map<string, Row>, d: Reads, reachable: bool, now: int, n: string)
    requires n in rows ==> RowOk(spec, n, rows[n])
    requires ReadsOk(spec, d)
    requires n in RowsAfter(spec, rows, d, reachable, now)
    requires RowsAfter(spec, rows, d, reachable, now)[n].phase == Ready
    ensures n in Cells(spec, d) && RowsAfter(spec, rows, d, reachable, now)[n].uid == d.seen[n].outer.uid
    ensures || FullyUp(Observe(spec, BLANK_ROW, d.seen[n], reachable, now))
            || (!reachable && n in rows && rows[n].phase == Ready && rows[n].uid == d.seen[n].outer.uid)
  {
    if n !in Cells(spec, d) {
      assert false;
    }
    SeenReady(spec, rows, d.seen[n], reachable, now, n, ParseIndex(spec.pool, n).value);
  }

  predicate ReadyOrCarried(p: Pass, n: string)
    requires n in p.after.rows
  {
    p.after.rows[n].phase == Ready ==>
      && n in Cells(p.input.spec, Kept(p)) && p.after.rows[n].uid == Kept(p).seen[n].outer.uid
      && (|| SeenUp(p, n)
          || (!p.input.reachable && n in p.before.rows && p.before.rows[n].phase == Ready
              && p.before.rows[n].uid == p.after.rows[n].uid))
  }

  lemma ReadyOrCarriedHolds(pool: string, p: Pass, n: string)
    requires StepOk(pool, p) && n in p.after.rows
    ensures ReadyOrCarried(p, n)
  {
    if p.after.rows[n].phase == Ready {
      if n in p.before.rows {
        assert RowOk(p.input.spec, n, p.before.rows[n]);
      }
      ReadyStep(p.input.spec, p.before.rows, Kept(p), p.input.reachable, p.input.now, n);
      UpAsSeen(pool, p, n);
    }
  }

  lemma {:induction false} ReadyHistory(run: seq<Pass>, k: nat, n: string)
    requires Linked(run) && k < |run| && n in run[k].after.rows && run[k].after.rows[n].phase == Ready
    requires forall i, m :: 0 <= i < |run| && m in run[i].after.rows ==> ReadyOrCarried(run[i], m)
    ensures exists j :: ReadySince(run, j, k, n)
    decreases k
  {
    assert ReadyOrCarried(run[k], n);
    if SeenUp(run[k], n) {
      assert ReadySince(run, k, k, n);
    } else {
      assert k > 0 && run[k].before.rows == run[k - 1].after.rows;
      ReadyHistory(run, k - 1, n);
      var j :| ReadySince(run, j, k - 1, n);
      ReadyCarried(run, j, k, n);
    }
  }

  lemma ReadyCarried(run: seq<Pass>, j: nat, k: nat, n: string)
    requires 0 < k < |run| && ReadySince(run, j, k - 1, n) && !run[k].input.reachable
    requires n in run[k].after.rows && run[k].after.rows[n].uid == run[k - 1].after.rows[n].uid
    ensures ReadySince(run, j, k, n)
  {
  }

  /** A row that shows Ready was fully up at the last pass that could see the workload cluster,
      for the very guest the row names: an outage can keep Ready but never make it. */
  lemma ReadyIsJustified(pool: string, run: seq<Pass>, k: nat, n: string)
    requires Run(pool, run) && k < |run| && n in run[k].after.rows && run[k].after.rows[n].phase == Ready
    ensures exists j :: ReadySince(run, j, k, n)
  {
    RunHasSteps(pool, run);
    forall i, m | 0 <= i < |run| && m in run[i].after.rows ensures ReadyOrCarried(run[i], m) {
      ReadyOrCarriedHolds(pool, run[i], m);
    }
    ReadyHistory(run, k, n);
  }
}
