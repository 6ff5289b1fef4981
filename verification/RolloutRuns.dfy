/** A rolling update over a whole run: it ends, and it replaces each stale guest at most once. */
module RolloutRuns {
  import opened CellTypes
  import opened CellId
  import opened Rollout
  import opened Discovery
  import opened Passes
  import opened Runs

  predicate OldHash(hash: string, template: string) {
    hash != "" && hash != template
  }

  /** The guests seen from an older template are exactly the ones in `stale` (listed name to the UID
      observed behind it): a guest keeps the hash it was created from, new guests are created from the
      current template, and a deleted guest does not come back. */
  predicate Honest(stale: map<string, string>, spec: Spec, d: Reads) {
    forall n :: n in Cells(spec, d) ==>
      (OldHash(d.seen[n].outer.hash, spec.templateHash) <==> n in stale && stale[n] == d.seen[n].outer.uid)
  }

  /** The stale guests still there after a pass. */
  function Survivors(stale: map<string, string>, p: Pass): map<string, string> {
    map n | n in stale && n in Cells(p.input.spec, Kept(p)) && Kept(p).seen[n].outer.uid == stale[n] :: stale[n]
  }

  /** Stale guests nothing has started to replace. */
  function Waiting(stale: map<string, string>, rows: map<string, Row>): set<string> {
    set n | n in stale && !(n in rows && rows[n].uid == stale[n] && Leaving(rows[n].phase))
  }

  function StaleRows(rows: map<string, Row>, template: string): set<string> {
    set n | n in rows && Stale(rows[n], template)
  }

  lemma LeavingStays(spec: Spec, rows: map<string, Row>, d: Reads, reachable: bool, now: int, n: string)
    requires n in rows && Leaving(rows[n].phase) && n in Cells(spec, d) && d.seen[n].outer.uid == rows[n].uid
    ensures var after := RowsAfter(spec, rows, d, reachable, now);
            n in after && after[n].uid == rows[n].uid && Leaving(after[n].phase)
  {
  }

  lemma SeenIdentity(spec: Spec, rows: map<string, Row>, d: Reads, reachable: bool, now: int, n: string)
    requires n in Cells(spec, d)
    ensures var after := RowsAfter(spec, rows, d, reachable, now);
            n in after && after[n].uid == d.seen[n].outer.uid && after[n].hash == d.seen[n].outer.hash
  {
  }

  lemma LeavingRowStays(pool: string, p: Pass, n: string)
    requires StepOk(pool, p) && n in p.before.rows && Leaving(p.before.rows[n].phase)
    requires n in Cells(p.input.spec, Kept(p)) && Kept(p).seen[n].outer.uid == p.before.rows[n].uid
    ensures n in p.after.rows && p.after.rows[n].uid == p.before.rows[n].uid && Leaving(p.after.rows[n].phase)
  {
    LeavingStays(p.input.spec, p.before.rows, Kept(p), p.input.reachable, p.input.now, n);
    assert n !in Started(p);
  }

  /** No pass adds to the stale guests waiting. */
  lemma WaitingShrinks(pool: string, p: Pass, stale: map<string, string>)
    requires StepOk(pool, p)
    ensures Waiting(Survivors(stale, p), p.after.rows) <= Waiting(stale, p.before.rows)
  {
    forall n | n in stale && n in Cells(p.input.spec, Kept(p)) && Kept(p).seen[n].outer.uid == stale[n]
               && n in p.before.rows && p.before.rows[n].uid == stale[n] && Leaving(p.before.rows[n].phase)
      ensures n in p.after.rows && p.after.rows[n].uid == stale[n] && Leaving(p.after.rows[n].phase)
    {
      LeavingRowStays(pool, p, n);
    }
  }

  /** A rollout drain takes one waiting guest out of the wait. */
  lemma RolloutTakesOne(pool: string, p: Pass, stale: map<string, string>)
    requires StepOk(pool, p) && Legal(p) && Honest(stale, p.input.spec, Kept(p)) && p.rollout.drain.Some?
    ensures p.rollout.drain.value in Waiting(stale, p.before.rows)
    ensures p.rollout.drain.value !in Waiting(Survivors(stale, p), p.after.rows)
  {
    var n := p.rollout.drain.value;
    RolloutShape(p);
    VictimIsSeen(p, n);
    SeenIdentity(p.input.spec, p.before.rows, Kept(p), p.input.reachable, p.input.now, n);
    assert n in stale && stale[n] == p.rows[n].uid;
    if n in p.before.rows && p.before.rows[n].uid == stale[n] && Leaving(p.before.rows[n].phase) {
      LeavingStays(p.input.spec, p.before.rows, Kept(p), p.input.reachable, p.input.now, n);
      assert false;
    }
    assert n in Started(p) && p.after.rows[n].phase == Draining;
  }

  lemma VictimIsSeen(p: Pass, n: string)
    requires RowsKept(p) && n in p.rows && p.rows[n].phase == Ready
    ensures n in Cells(p.input.spec, Kept(p))
  {
  }

  /** Both discoveries of a pass under the template are honest. */
  predicate HonestPass(p: Pass, stale: map<string, string>, template: string) {
    && p.input.spec.templateHash == template
    && Honest(stale, p.input.spec, p.input.first) && Honest(stale, p.input.spec, p.input.second)
  }

  /** The environment of a stretch of passes, from `a` up to but not including `b`, under one template:
      `stale[i]` are the stale guests before pass i. Before `a` there may have been any template. */
  predicate OneTemplate(run: seq<Pass>, stale: seq<map<string, string>>, template: string, a: nat, b: nat) {
    && a <= b <= |run| && b < |stale|
    && (forall i :: a <= i < b ==> HonestPass(run[i], stale[i], template) && stale[i + 1] == Survivors(stale[i], run[i]))
  }

  /** Rollout drains started from pass `a` up to but not including pass `b`. */
  function RolloutDrains(run: seq<Pass>, a: nat, b: nat): nat
    requires a <= b <= |run|
    decreases b
  {
    if b == a then 0 else RolloutDrains(run, a, b - 1) + (if run[b - 1].rollout.drain.Some? then 1 else 0)
  }

  function RowsBefore(run: seq<Pass>, k: nat): map<string, Row>
    requires k <= |run|
  {
    if k == 0 then map[] else run[k - 1].after.rows
  }

  lemma StrictlyFewer(a: set<string>, b: set<string>, n: string)
    requires a <= b && n in b && n !in a
    ensures |a| + 1 <= |b|
  {
    assert a <= b - {n};
    SubsetSize(a, b - {n});
  }

  /** Each pass pays for its rollout drain with a waiting guest. */
  predicate Pays(p: Pass, stale: map<string, string>) {
    |Waiting(Survivors(stale, p), p.after.rows)| + (if p.rollout.drain.Some? then 1 else 0)
      <= |Waiting(stale, p.before.rows)|
  }

  lemma PassPays(pool: string, p: Pass, stale: map<string, string>)
    requires StepOk(pool, p) && Legal(p) && Honest(stale, p.input.spec, Kept(p))
    ensures Pays(p, stale)
  {
    WaitingShrinks(pool, p, stale);
    SubsetSize(Waiting(Survivors(stale, p), p.after.rows), Waiting(stale, p.before.rows));
    if p.rollout.drain.Some? {
      RolloutTakesOne(pool, p, stale);
      StrictlyFewer(Waiting(Survivors(stale, p), p.after.rows), Waiting(stale, p.before.rows), p.rollout.drain.value);
    }
  }

  /** Every pass of the stretch pays for its rollout drain with a waiting stale guest. */
  ghost predicate Paid(run: seq<Pass>, stale: seq<map<string, string>>, a: nat, b: nat) {
    && a <= b <= |run| && b < |stale|
    && (forall i :: a <= i < b ==> run[i].before.rows == RowsBefore(run, i))
    && (forall i :: a <= i < b ==> Pays(run[i], stale[i]) && stale[i + 1] == Survivors(stale[i], run[i]))
  }

  ghost function StillWaiting(run: seq<Pass>, stale: seq<map<string, string>>, i: nat): nat
    requires i <= |run| && i < |stale|
  {
    |Waiting(stale[i], RowsBefore(run, i))|
  }

  /** Fewer wait after the pass than before it if it starts a rollout drain, and never more. */
  ghost predicate Descends(run: seq<Pass>, stale: seq<map<string, string>>, i: nat)
    requires i < |run| && i + 1 < |stale|
  {
    StillWaiting(run, stale, i + 1) + (if run[i].rollout.drain.Some? then 1 else 0) <= StillWaiting(run, stale, i)
  }

  lemma {:induction false} DrainsWithin(run: seq<Pass>, stale: seq<map<string, string>>, a: nat, b: nat)
    requires a <= b <= |run| && b < |stale| && forall i :: a <= i < b ==> Descends(run, stale, i)
    ensures RolloutDrains(run, a, b) + StillWaiting(run, stale, b) <= StillWaiting(run, stale, a)
    decreases b
  {
    if b > a {
      DrainsWithin(run, stale, a, b - 1);
      assert Descends(run, stale, b - 1);
    }
  }

  lemma DrainsArePaid(run: seq<Pass>, stale: seq<map<string, string>>, a: nat, b: nat)
    requires Paid(run, stale, a, b)
    ensures RolloutDrains(run, a, b) + StillWaiting(run, stale, b) <= StillWaiting(run, stale, a)
  {
    forall i | a <= i < b ensures Descends(run, stale, i) {
      PaidAt(run, stale, a, b, i);
    }
    DrainsWithin(run, stale, a, b);
  }

  lemma PaidAt(run: seq<Pass>, stale: seq<map<string, string>>, a: nat, b: nat, i: nat)
    requires Paid(run, stale, a, b) && a <= i < b
    ensures Descends(run, stale, i)
  {
    assert Pays(run[i], stale[i]);
  }

  lemma PaysAt(pool: string, run: seq<Pass>, stale: seq<map<string, string>>, template: string, a: nat, b: nat, i: nat)
    requires Run(pool, run) && OneTemplate(run, stale, template, a, b) && a <= i < b
    ensures Pays(run[i], stale[i]) && run[i].before.rows == RowsBefore(run, i)
  {
    StepAt(pool, run, i);
    LegalAt(run, i);
    PassPays(pool, run[i], stale[i]);
  }

  /** A rolling update terminates: over any stretch of any run in which the template is fixed, whatever
      it was before, there are at most as many rollout drains as stale guests had nothing replacing them
      at its beginning; those still waiting at its end are not drained yet. */
  lemma RolloutTerminates(pool: string, run: seq<Pass>, stale: seq<map<string, string>>, template: string, a: nat, b: nat)
    requires Run(pool, run) && OneTemplate(run, stale, template, a, b)
    ensures RolloutDrains(run, a, b) + |Waiting(stale[b], RowsBefore(run, b))| <= |Waiting(stale[a], RowsBefore(run, a))|
    ensures |Waiting(stale[a], RowsBefore(run, a))| <= |stale[a]|
  {
    StretchIsPaid(pool, run, stale, template, a, b);
    DrainsArePaid(run, stale, a, b);
    SubsetSize(Waiting(stale[a], RowsBefore(run, a)), stale[a].Keys);
  }

  lemma StretchIsPaid(pool: string, run: seq<Pass>, stale: seq<map<string, string>>, template: string, a: nat, b: nat)
    requires Run(pool, run) && OneTemplate(run, stale, template, a, b)
    ensures Paid(run, stale, a, b)
  {
    forall i | a <= i < b
      ensures Pays(run[i], stale[i]) && run[i].before.rows == RowsBefore(run, i)
    {
      PaysAt(pool, run, stale, template, a, b, i);
    }
  }

  /** What can be stale after the first pass under a template: the stale guests waiting before it, and the
      rows that were stale already, tombstones included. */
  function StaleAtFirst(run: seq<Pass>, stale: map<string, string>, template: string, a: nat): set<string>
    requires a <= |run|
  {
    Waiting(stale, RowsBefore(run, a)) + StaleRows(RowsBefore(run, a), template)
  }

  /** Under one template the stale rows never grow from pass to pass, tombstones included, and the first
      pass of the stretch finds them among those that were there. */
  lemma {:induction false} StaleRowsNeverGrow(pool: string, run: seq<Pass>, stale: seq<map<string, string>>, template: string,
                                              a: nat, b: nat, k: nat)
    requires Run(pool, run) && OneTemplate(run, stale, template, a, b) && a <= k < b
    ensures k > a ==> StaleRows(run[k].after.rows, template) <= StaleRows(run[k - 1].after.rows, template)
    ensures StaleRows(run[k].after.rows, template) <= StaleAtFirst(run, stale[a], template, a)
    decreases k
  {
    if k > a {
      StaleRowsNeverGrow(pool, run, stale, template, a, b, k - 1);
      StaleNext(pool, run, stale, template, a, b, k);
    } else {
      StepAt(pool, run, k);
      StaleRowOrigin(pool, run[k], stale[k]);
    }
  }

  lemma StaleNext(pool: string, run: seq<Pass>, stale: seq<map<string, string>>, template: string, a: nat, b: nat, k: nat)
    requires Run(pool, run) && OneTemplate(run, stale, template, a, b) && a < k < b
    ensures StaleRows(run[k].after.rows, template) <= StaleRows(run[k - 1].after.rows, template)
  {
    StepAt(pool, run, k);
    StepAt(pool, run, k - 1);
    StaleShrinks(pool, run[k - 1], run[k], stale[k - 1], stale[k], template);
  }

  lemma StaleShrinks(pool: string, p: Pass, q: Pass, stale: map<string, string>, left: map<string, string>, template: string)
    requires StepOk(pool, p) && StepOk(pool, q) && q.before.rows == p.after.rows && left == Survivors(stale, p)
    requires p.input.spec.templateHash == q.input.spec.templateHash == template
    requires Honest(stale, p.input.spec, Kept(p)) && Honest(left, q.input.spec, Kept(q))
    ensures StaleRows(q.after.rows, template) <= StaleRows(p.after.rows, template)
  {
    StaleRowOrigin(pool, q, left);
    forall n | n in StaleRows(q.after.rows, template) ensures n in StaleRows(p.after.rows, template) {
      if n in Waiting(left, q.before.rows) {
        WaitingGuestHasRow(pool, p, stale, n);
      }
    }
  }

  /** A stale row after a pass is a stale guest that was waiting, or the tombstone of a stale row. */
  lemma StaleRowOrigin(pool: string, p: Pass, stale: map<string, string>)
    requires StepOk(pool, p) && Honest(stale, p.input.spec, Kept(p))
    ensures forall n :: n in StaleRows(p.after.rows, p.input.spec.templateHash) ==>
              n in Waiting(stale, p.before.rows) || n in StaleRows(p.before.rows, p.input.spec.templateHash)
  {
    forall n | n in StaleRows(p.after.rows, p.input.spec.templateHash) && n !in StaleRows(p.before.rows, p.input.spec.templateHash)
      ensures n in Waiting(stale, p.before.rows)
    {
      assert n in p.rows && n !in Started(p);
      if n in Cells(p.input.spec, Kept(p)) {
        SeenIdentity(p.input.spec, p.before.rows, Kept(p), p.input.reachable, p.input.now, n);
        if n in p.before.rows && p.before.rows[n].uid == stale[n] && Leaving(p.before.rows[n].phase) {
          LeavingStays(p.input.spec, p.before.rows, Kept(p), p.input.reachable, p.input.now, n);
          assert false;
        }
      } else {
        TombstoneWasStale(p, n);
        assert false;
      }
    }
  }

  lemma TombstoneWasStale(p: Pass, n: string)
    requires RowsKept(p) && n in p.rows && n !in Cells(p.input.spec, Kept(p))
    requires Stale(p.rows[n], p.input.spec.templateHash)
    ensures n in StaleRows(p.before.rows, p.input.spec.templateHash)
  {
  }

  lemma WaitingGuestHasRow(pool: string, p: Pass, stale: map<string, string>, n: string)
    requires StepOk(pool, p) && Honest(stale, p.input.spec, Kept(p))
    requires n in Waiting(Survivors(stale, p), p.after.rows)
    ensures n in StaleRows(p.after.rows, p.input.spec.templateHash)
  {
    SeenIdentity(p.input.spec, p.before.rows, Kept(p), p.input.reachable, p.input.now, n);
    assert n in p.rows;
  }
}
