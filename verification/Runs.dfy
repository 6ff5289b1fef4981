/** What holds over every run of passes from a fresh pool, whatever the two clusters do. */
module Runs {
  import opened CellTypes
  import opened Membership
  import opened Discovery
  import opened Passes

  /** Successive passes of one pool, from the empty status, on a clock that never runs back.
      Nothing is assumed of what the passes read except that listed guests have UIDs. */
  ghost predicate Run(pool: string, run: seq<Pass>) {
    AllLegal(run) && Chained(pool, run)
  }

  ghost predicate Chained(pool: string, run: seq<Pass>) {
    && (forall i :: 0 <= i < |run| ==> Readable(pool, run[i]))
    && (run != [] ==> run[0].before == EMPTY_STATUS)
    && (forall i :: 0 < i < |run| ==> run[i].before == run[i - 1].after && run[i - 1].input.now <= run[i].input.now)
  }

  /** Names a pass an argument looks at; only named passes are unfolded. */
  predicate Pick(p: Pass) {
    true
  }

  ghost predicate AllLegal(run: seq<Pass>) {
    forall p {:trigger Pick(p)} :: Pick(p) && p in run ==> Legal(p)
  }

  lemma LegalAt(run: seq<Pass>, k: nat)
    requires AllLegal(run) && k < |run|
    ensures Legal(run[k])
  {
    assert Pick(run[k]);
  }

  lemma ExtendLegal(run: seq<Pass>, last: Pass)
    requires AllLegal(run) && AllLegal([last])
    ensures AllLegal(run + [last])
  {
    forall p | Pick(p) && p in run + [last] ensures Legal(p) {
      assert p in run || p in [last];
    }
  }

  predicate Readable(pool: string, p: Pass) {
    && p.input.spec.pool == pool
    && ReadsOk(p.input.spec, p.input.first)
    && ReadsOk(p.input.spec, p.input.second)
  }

  predicate RowsKept(p: Pass) {
    p.rows == RowsAfter(p.input.spec, p.before.rows, Kept(p), p.input.reachable, p.input.now)
  }

  /** What the row-level arguments use of a pass. */
  predicate StepOk(pool: string, p: Pass) {
    && Readable(pool, p) && RowsKept(p) && Written(p)
    && RowsOk(p.input.spec, p.before.rows) && RowsOk(p.input.spec, p.rows) && RowsOk(p.input.spec, p.after.rows)
  }

  predicate Linked(run: seq<Pass>) {
    && (run != [] ==> run[0].before.rows == map[])
    && (forall i :: 0 < i < |run| ==> run[i].before.rows == run[i - 1].after.rows && run[i - 1].input.now <= run[i].input.now)
  }

  predicate Steps(pool: string, run: seq<Pass>) {
    && (forall i :: 0 <= i < |run| ==> StepOk(pool, run[i]))
    && Linked(run)
  }

  lemma WrittenKeepsRowsOk(pool: string, p: Pass)
    requires Written(p) && RowsOk(p.input.spec, p.rows)
    ensures RowsOk(p.input.spec, p.after.rows)
  {
    forall n | n in p.after.rows ensures RowOk(p.input.spec, n, p.after.rows[n]) {
      assert RowOk(p.input.spec, n, p.rows[n]);
    }
  }

  lemma StepHolds(pool: string, p: Pass)
    requires Legal(p) && Readable(pool, p) && RowsOk(p.input.spec, p.before.rows)
    ensures StepOk(pool, p)
  {
    RowsAreWritten(p);
    DiscoveryKeepsRowsOk(p.input.spec, p.before.rows, Kept(p), p.input.reachable, p.input.now);
    WrittenKeepsRowsOk(pool, p);
  }

  lemma SamePoolRowsOk(a: Spec, b: Spec, rows: map<string, Row>)
    requires a.pool == b.pool && RowsOk(a, rows)
    ensures RowsOk(b, rows)
  {
    forall n | n in rows ensures RowOk(b, n, rows[n]) {
      assert RowOk(a, n, rows[n]);
    }
  }

  lemma {:induction false} StepsUpTo(pool: string, run: seq<Pass>, k: nat)
    requires Run(pool, run) && k <= |run|
    ensures forall i :: 0 <= i < k ==> StepOk(pool, run[i])
    decreases k
  {
    if k > 0 {
      StepsUpTo(pool, run, k - 1);
      if k > 1 {
        assert StepOk(pool, run[k - 2]);
        SamePoolRowsOk(run[k - 2].input.spec, run[k - 1].input.spec, run[k - 1].before.rows);
      }
      StepFrom(pool, run, k - 1);
    }
  }

  lemma StepFrom(pool: string, run: seq<Pass>, k: nat)
    requires Run(pool, run) && k < |run| && RowsOk(run[k].input.spec, run[k].before.rows)
    ensures StepOk(pool, run[k])
  {
    LegalAt(run, k);
    StepHolds(pool, run[k]);
  }

  lemma RunHasSteps(pool: string, run: seq<Pass>)
    requires Run(pool, run)
    ensures Steps(pool, run)
  {
    StepsUpTo(pool, run, |run|);
  }

  lemma StepAt(pool: string, run: seq<Pass>, k: nat)
    requires Run(pool, run) && k < |run|
    ensures StepOk(pool, run[k])
    ensures k > 0 ==> run[k].before.rows == run[k - 1].after.rows
    ensures k == 0 ==> run[k].before.rows == map[]
  {
    RunHasSteps(pool, run);
  }

  // ----- how long a row has shown its phase

  /** Pass `j` moved the cell into the phase it still shows after pass `k`, and every pass since
      wrote that phase and the time of pass `j`. */
  predicate HeldSince(run: seq<Pass>, j: nat, k: nat, n: string, phase: Phase) {
    && j <= k < |run|
    && (n in run[j].before.rows ==>
          run[j].before.rows[n].phase != phase || NewGuest(run[j], n))
    && (forall i :: j <= i <= k ==>
          n in run[i].after.rows && run[i].after.rows[n].phase == phase
          && run[i].after.rows[n].since == Some(run[j].input.now))
  }

  /** The pass saw another guest behind the name than the row had recorded. */
  predicate NewGuest(p: Pass, n: string) {
    && n in p.before.rows && n in Cells(p.input.spec, Kept(p))
    && p.before.rows[n].uid != "" && p.before.rows[n].uid != Kept(p).seen[n].outer.uid
  }

  /** One pass: a row either keeps phase and time, or enters its phase now. */
  predicate MovesOrHolds(p: Pass, n: string)
    requires n in p.after.rows
  {
    var r := p.after.rows[n];
    || (n in p.before.rows && p.before.rows[n].phase == r.phase && p.before.rows[n].since == r.since)
    || (r.since == Some(p.input.now)
        && (n in p.before.rows ==> p.before.rows[n].phase != r.phase || NewGuest(p, n)))
  }

  lemma RowMovesOrHolds(pool: string, p: Pass, n: string)
    requires StepOk(pool, p) && n in p.after.rows
    ensures MovesOrHolds(p, n)
  {
    if n in p.before.rows {
      assert RowOk(p.input.spec, n, p.before.rows[n]);
    }
    DiscoveredMovesOrHolds(p.input.spec, p.before.rows, Kept(p), p.input.reachable, p.input.now, n);
    if n in Started(p) {
      StartedWasNotDraining(p, n);
    }
  }

  lemma StartedWasNotDraining(p: Pass, n: string)
    requires RowsKept(p) && n in p.rows && CanRemove(p.rows[n])
    ensures n in p.before.rows && p.before.rows[n].phase == Draining ==> NewGuest(p, n)
  {
  }

  ghost predicate AllMoveOrHold(run: seq<Pass>) {
    forall i, n :: 0 <= i < |run| && n in run[i].after.rows ==> MovesOrHolds(run[i], n)
  }

  lemma StepsMoveOrHold(pool: string, run: seq<Pass>)
    requires Steps(pool, run)
    ensures AllMoveOrHold(run)
  {
    forall i, n | 0 <= i < |run| && n in run[i].after.rows ensures MovesOrHolds(run[i], n) {
      RowMovesOrHolds(pool, run[i], n);
    }
  }

  lemma HeldNow(run: seq<Pass>, j: nat, k: nat, n: string, phase: Phase)
    requires HeldSince(run, j, k, n, phase)
    ensures n in run[k].after.rows && run[k].after.rows[n].phase == phase
    ensures run[k].after.rows[n].since == Some(run[j].input.now)
  {
  }

  lemma HoldsOn(run: seq<Pass>, j: nat, k: nat, n: string, phase: Phase)
    requires 0 < k < |run| && HeldSince(run, j, k - 1, n, phase)
    requires n in run[k].after.rows && run[k].after.rows[n].phase == phase
    requires run[k].after.rows[n].since == run[k - 1].after.rows[n].since
    ensures HeldSince(run, j, k, n, phase)
  {
  }

  lemma {:induction false} HistoryOf(run: seq<Pass>, k: nat, n: string)
    requires AllMoveOrHold(run) && Linked(run) && k < |run| && n in run[k].after.rows
    ensures exists j :: HeldSince(run, j, k, n, run[k].after.rows[n].phase)
    decreases k
  {
    var r := run[k].after.rows[n];
    assert MovesOrHolds(run[k], n);
    if r.since == Some(run[k].input.now)
       && (n in run[k].before.rows ==> run[k].before.rows[n].phase != r.phase || NewGuest(run[k], n)) {
      assert HeldSince(run, k, k, n, r.phase);
    } else {
      assert k > 0 && run[k].before.rows == run[k - 1].after.rows;
      HistoryOf(run, k - 1, n);
      var j :| HeldSince(run, j, k - 1, n, r.phase);
      HeldNow(run, j, k - 1, n, r.phase);
      HoldsOn(run, j, k, n, r.phase);
    }
  }

  /** Every row's transition time is the time of the pass that moved it into its phase, and it has
      shown that phase in every pass since. */
  lemma PhaseHistory(pool: string, run: seq<Pass>, k: nat, n: string)
    requires Run(pool, run) && k < |run| && n in run[k].after.rows
    ensures exists j :: HeldSince(run, j, k, n, run[k].after.rows[n].phase)
  {
    RunHasSteps(pool, run);
    StepsMoveOrHold(pool, run);
    HistoryOf(run, k, n);
  }

  /** The pass that last moved the cell. */
  lemma LastMove(pool: string, run: seq<Pass>, k: nat, n: string) returns (j: nat)
    requires Run(pool, run) && k < |run| && n in run[k].after.rows
    ensures HeldSince(run, j, k, n, run[k].after.rows[n].phase)
  {
    PhaseHistory(pool, run, k, n);
    j :| HeldSince(run, j, k, n, run[k].after.rows[n].phase);
  }
}
