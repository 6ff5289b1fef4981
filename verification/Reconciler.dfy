/** The reconciler: an object that carries the pool's status from pass to pass, and whose pass is
    the loops the operator runs. Each loop is tied to the relation of module Passes. */
module Reconciler {
  import opened CellTypes
  import opened CellId
  import opened Fsm
  import opened Membership
  import opened Scaling
  import opened Rollout
  import opened Discovery
  import opened Passes
  import opened Runs
  import opened Nodes

  /** Rows are filed under their names. */
  predicate Keyed(rows: map<string, Row>) {
    forall n :: n in rows ==> rows[n].name == n
  }

  /** `cells` holds each of the rows once, in any order. */
  ghost predicate Enumerates(cells: seq<Row>, rows: map<string, Row>) {
    && DistinctNames(cells) && Keyed(rows)
    && (forall c :: c in cells ==> c.name in rows && rows[c.name] == c)
    && (forall n :: n in rows ==> rows[n] in cells)
  }

  // ----- sorting by index

  predicate SortedByIndex(cells: seq<Row>) {
    forall i, j :: 0 <= i < j < |cells| ==> cells[i].index <= cells[j].index
  }

  method InsertByIndex(c: Row, cells: seq<Row>) returns (out: seq<Row>)
    requires SortedByIndex(cells) && DistinctNames(cells) && forall d :: d in cells ==> d.name != c.name
    ensures SortedByIndex(out) && DistinctNames(out)
    ensures forall d :: d in out <==> d in cells || d == c
  {
    var k := 0;
    while k < |cells| && cells[k].index <= c.index
      invariant 0 <= k <= |cells|
      invariant forall i :: 0 <= i < k ==> cells[i].index <= c.index
    {
      k := k + 1;
    }
    out := cells[..k] + [c] + cells[k..];
    InsertedAt(c, cells, k, out);
    InsertedSorted(c, cells, k, out);
  }

  lemma InsertedSorted(c: Row, cells: seq<Row>, k: nat, out: seq<Row>)
    requires k <= |cells| && out == cells[..k] + [c] + cells[k..] && SortedByIndex(cells)
    requires forall i :: 0 <= i < k ==> cells[i].index <= c.index
    requires k < |cells| ==> c.index < cells[k].index
    ensures SortedByIndex(out)
  {
    assert forall i :: 0 <= i < |out| ==> out[i] == if i < k then cells[i] else if i == k then c else cells[i - 1];
  }

  lemma InsertedAt(c: Row, cells: seq<Row>, k: nat, out: seq<Row>)
    requires k <= |cells| && out == cells[..k] + [c] + cells[k..]
    requires DistinctNames(cells) && forall d :: d in cells ==> d.name != c.name
    ensures DistinctNames(out) && forall d :: d in out <==> d in cells || d == c
  {
    assert forall i :: 0 <= i < |out| ==> out[i] == if i < k then cells[i] else if i == k then c else cells[i - 1];
    forall i, j | 0 <= i < j < |out| ensures out[i].name != out[j].name {
      if i == k {
        assert out[j] in cells;
      } else if j == k {
        assert out[i] in cells;
      }
    }
    forall d | d in cells ensures d in out {
      var i :| 0 <= i < |cells| && cells[i] == d;
      assert out[if i < k then i else i + 1] == d;
    }
    assert out[k] == c;
  }

  method SortRows(cells: seq<Row>, ghost rows: map<string, Row>) returns (out: seq<Row>)
    requires Enumerates(cells, rows)
    ensures Lists(out, rows)
  {
    out := [];
    for k := 0 to |cells|
      invariant SortedByIndex(out) && DistinctNames(out)
      invariant forall d :: d in out <==> d in cells[..k]
    {
      assert cells[..k + 1] == cells[..k] + [cells[k]];
      forall d | d in out ensures d.name != cells[k].name {
        var i :| 0 <= i < k && cells[i] == d;
      }
      out := InsertByIndex(cells[k], out);
    }
    assert cells[..|cells|] == cells;
  }

  // ----- discovery

  method PreviousRows(cells: seq<Row>, ghost rows: map<string, Row>) returns (previous: map<string, Row>)
    requires Enumerates(cells, rows)
    ensures previous == rows
  {
    previous := map[];
    for k := 0 to |cells|
      invariant forall n :: n in previous ==> n in rows && previous[n] == rows[n]
      invariant forall i :: 0 <= i < k ==> cells[i].name in previous
    {
      assert cells[k] in cells;
      previous := previous[cells[k].name := cells[k]];
    }
    forall n | n in rows ensures n in previous {
      assert rows[n] in cells;
      var i :| 0 <= i < |cells| && cells[i] == rows[n];
    }
  }

  /** The row written for a listed cell. */
  function RowOf(spec: Spec, rows: map<string, Row>, d: Reads, reachable: bool, now: int, n: string): (r: Row)
    requires n in Cells(spec, d)
    ensures r.name == n
  {
    SeenRow(spec, rows, n, ParseIndex(spec.pool, n).value, d.seen[n], reachable, now)
  }

  /** One guest: its row, and whether its Node is to be reaped. */
  method AdvanceGuest(spec: Spec, rows: map<string, Row>, d: Reads, reachable: bool, now: int, name: string, index: int)
    returns (row: Row, reap: bool)
    requires name in Cells(spec, d) && ParseIndex(spec.pool, name) == Some(index)
    ensures row == RowOf(spec, rows, d, reachable, now, name)
    ensures reap == (reachable && ReapsStale(spec, rows, d, now, name))
  {
    var g := d.seen[name];
    var prev := Inherit(Previous(rows, name), g.outer.uid);
    var obs := Observe(spec, prev, g, reachable, now);
    var dec := AdvanceCell(obs);
    reap := dec.reapStaleNode && reachable;
    row := CellStatus(prev, name, index, g, obs, dec, now);
  }

  /** The listed names that are cells. */
  function Among(listed: seq<string>, cells: set<string>): set<string> {
    set n | n in listed && n in cells
  }

  lemma AmongNext(d: Reads, cells: set<string>, k: nat)
    requires WellListed(d) && k < |d.listed|
    ensures d.listed[k] in d.seen && d.listed[k] !in Among(d.listed[..k], cells)
    ensures Among(d.listed[..k + 1], cells) ==
            Among(d.listed[..k], cells) + if d.listed[k] in cells then {d.listed[k]} else {}
  {
    assert d.listed[..k + 1] == d.listed[..k] + [d.listed[k]];
    assert d.listed[k] in d.listed;
  }

  method ObserveGuests(spec: Spec, rows: map<string, Row>, d: Reads, reachable: bool, now: int)
    returns (out: seq<Row>, live: set<string>, reaped: set<string>)
    requires WellListed(d)
    ensures live == Cells(spec, d) && DistinctNames(out)
    ensures forall c :: c in out ==> c.name in live && c == RowOf(spec, rows, d, reachable, now, c.name)
    ensures forall n :: n in live ==> RowOf(spec, rows, d, reachable, now, n) in out
    ensures reaped == if reachable then set n | n in Cells(spec, d) && ReapsStale(spec, rows, d, now, n) else {}
  {
    out, live, reaped := [], {}, {};
    for k := 0 to |d.listed|
      invariant live == Among(d.listed[..k], Cells(spec, d)) && DistinctNames(out)
      invariant forall c :: c in out ==> c.name in live && c == RowOf(spec, rows, d, reachable, now, c.name)
      invariant forall n :: n in live ==> RowOf(spec, rows, d, reachable, now, n) in out
      invariant reaped == set n | n in live && reachable && ReapsStale(spec, rows, d, now, n)
    {
      var name := d.listed[k];
      AmongNext(d, Cells(spec, d), k);
      var index := ParseIndex(spec.pool, name);
      if index.Some? {
        assert name !in live;
        var row, reap := AdvanceGuest(spec, rows, d, reachable, now, name, index.value);
        if reap {
          reaped := reaped + {name};
        }
        NewRow(out, live, row);
        out := out + [row];
        live := live + {name};
      }
    }
    assert d.listed[..|d.listed|] == d.listed;
  }

  lemma NewRow(out: seq<Row>, live: set<string>, row: Row)
    requires DistinctNames(out) && row.name !in live && forall c :: c in out ==> c.name in live
    ensures DistinctNames(out + [row]) && forall c :: c in out + [row] <==> c in out || c == row
  {
    var longer := out + [row];
    forall i, j | 0 <= i < j < |longer| ensures longer[i].name != longer[j].name {
      assert longer[i] in out;
    }
    assert longer[|out|] == row;
  }

  method CarryTombstones(spec: Spec, rows: map<string, Row>, live: set<string>, out0: seq<Row>) returns (out: seq<Row>)
    requires DistinctNames(out0) && Keyed(rows) && forall c :: c in out0 ==> c.name in live
    ensures DistinctNames(out)
    ensures forall c :: c in out <==> c in out0 || (c.name in rows && c.name !in live
                                                    && KeepsTombstone(spec, rows[c.name]) && c == Tombstone(rows[c.name]))
  {
    out := out0;
    var todo := rows.Keys;
    while todo != {}
      invariant todo <= rows.Keys && DistinctNames(out)
      invariant forall c :: c in out ==> c.name in live || c.name in rows.Keys - todo
      invariant forall c :: c in out <==> c in out0 || (c.name in rows && c.name !in todo && c.name !in live
                                                        && KeepsTombstone(spec, rows[c.name]) && c == Tombstone(rows[c.name]))
      decreases todo
    {
      var name :| name in todo;
      if name !in live && rows[name].phase == Failed && rows[name].index < spec.replicas {
        var row := Tombstone(rows[name]);
        assert row.name == name;
        NewRow(out, live + (rows.Keys - todo), row);
        out := out + [row];
      }
      todo := todo - {name};
    }
  }

  lemma DiscoveredRows(spec: Spec, rows: map<string, Row>, d: Reads, reachable: bool, now: int, out0: seq<Row>, out: seq<Row>)
    requires DistinctNames(out) && Keyed(rows)
    requires forall c :: c in out0 ==> c.name in Cells(spec, d) && c == RowOf(spec, rows, d, reachable, now, c.name)
    requires forall n :: n in Cells(spec, d) ==> RowOf(spec, rows, d, reachable, now, n) in out0
    requires forall c :: c in out <==> c in out0 || (c.name in rows && c.name !in Cells(spec, d)
                                                     && KeepsTombstone(spec, rows[c.name]) && c == Tombstone(rows[c.name]))
    ensures Enumerates(out, RowsAfter(spec, rows, d, reachable, now))
  {
    var after := RowsAfter(spec, rows, d, reachable, now);
    forall n | n in after ensures after[n].name == n && after[n] in out {
      if n in Cells(spec, d) {
        assert after[n] == RowOf(spec, rows, d, reachable, now, n);
      } else {
        assert after[n] == Tombstone(rows[n]);
      }
    }
    forall c | c in out ensures c.name in after && after[c.name] == c {
      if c in out0 {
        assert after[c.name] == RowOf(spec, rows, d, reachable, now, c.name);
      }
    }
  }

  method DiscoverCells(spec: Spec, cells: seq<Row>, ghost rows: map<string, Row>, d: Reads, reachable: bool, now: int)
    returns (out: seq<Row>, reaped: set<string>)
    requires Enumerates(cells, rows) && WellListed(d)
    ensures Lists(out, RowsAfter(spec, rows, d, reachable, now)) && Keyed(RowsAfter(spec, rows, d, reachable, now))
    ensures reaped == ReapedNodes(spec, rows, d, reachable, now)
  {
    var previous := PreviousRows(cells, rows);
    var seen, live, stale := ObserveGuests(spec, previous, d, reachable, now);
    out := CarryTombstones(spec, previous, live, seen);
    DiscoveredRows(spec, rows, d, reachable, now, seen, out);
    ghost var after := RowsAfter(spec, rows, d, reachable, now);
    reaped := stale;
    if reachable && d.poolNodes.Some? {
      var keep := set c | c in out :: c.name;
      KeepIsKeys(out, after, keep);
      var orphans := Orphans(d.poolNodes.value, keep);
      reaped := reaped + orphans;
    }
    ReapedSplit(spec, rows, d, reachable, now, reaped);
    out := SortRows(out, after);
  }

  lemma ReapedSplit(spec: Spec, rows: map<string, Row>, d: Reads, reachable: bool, now: int, reaped: set<string>)
    requires reaped == (if reachable then set n | n in Cells(spec, d) && ReapsStale(spec, rows, d, now, n) else {})
                       + (if reachable && d.poolNodes.Some? then
                            set n | n in d.poolNodes.value && n !in RowsAfter(spec, rows, d, reachable, now).Keys && !d.poolNodes.value[n]
                          else {})
    ensures reaped == ReapedNodes(spec, rows, d, reachable, now)
  {
  }

  lemma KeepIsKeys(out: seq<Row>, after: map<string, Row>, keep: set<string>)
    requires Enumerates(out, after) && keep == set c | c in out :: c.name
    ensures keep == after.Keys
  {
    forall n | n in after ensures n in keep {
      assert after[n] in out;
    }
  }

  // ----- the rest of the pass

  method FindIdle(cells: seq<Row>, allocations: map<string, Allocations>) returns (idle: seq<string>)
    ensures idle == IdleNames(cells, allocations)
    ensures forall n :: n in idle <==> exists c :: c in cells && IsIdle(c, allocations) && c.name == n
  {
    IdleNamesExact(cells, allocations);
    idle := [];
    for k := 0 to |cells|
      invariant idle == IdleNames(cells[..k], allocations)
    {
      PrefixStep(cells, k);
      var c := cells[k];
      if c.phase != Ready || c.nodeName == "" {
        continue;
      }
      if c.nodeName !in allocations {
        continue;
      }
      if allocations[c.nodeName].Empty() {
        idle := idle + [c.name];
      }
    }
    assert cells[..|cells|] == cells;
  }

  function Mark(c: Row, now: int): Row {
    c.(phase := Draining, since := Some(now))
  }

  /** Marking in place: every row of that name, and nothing else. */
  method MarkOne(cells0: seq<Row>, ghost rows: map<string, Row>, name: string, now: int) returns (cells: seq<Row>)
    requires Lists(cells0, rows) && Keyed(rows)
    ensures Lists(cells, MarkDraining(rows, {name}, now)) && Keyed(MarkDraining(rows, {name}, now))
  {
    cells := cells0;
    for i := 0 to |cells0|
      invariant |cells| == |cells0|
      invariant forall k :: 0 <= k < i ==> cells[k] == if cells0[k].name == name then Mark(cells0[k], now) else cells0[k]
      invariant forall k :: i <= k < |cells0| ==> cells[k] == cells0[k]
    {
      if cells[i].name == name {
        cells := cells[i := Mark(cells[i], now)];
      }
    }
    MappedLists(cells0, rows, cells, MarkDraining(rows, {name}, now));
  }

  /** Rewriting listed rows one by one, names and indexes kept, lists the rewritten rows. */
  lemma MappedLists(cells0: seq<Row>, rows0: map<string, Row>, cells: seq<Row>, rows: map<string, Row>)
    requires Lists(cells0, rows0) && Keyed(rows0)
    requires |cells| == |cells0| && rows.Keys == rows0.Keys
    requires forall k :: 0 <= k < |cells| ==> cells[k].name == cells0[k].name && cells[k].index == cells0[k].index
    requires forall k :: 0 <= k < |cells| ==> cells[k].name in rows ==> rows[cells[k].name] == cells[k]
    ensures Lists(cells, rows) && Keyed(rows)
  {
    forall c | c in cells ensures c.name in rows && rows[c.name] == c {
      var k :| 0 <= k < |cells| && cells[k] == c;
      assert cells0[k] in cells0;
    }
    forall n | n in rows ensures rows[n] in cells && rows[n].name == n {
      assert rows0[n] in cells0;
      var k :| 0 <= k < |cells0| && cells0[k] == rows0[n];
      assert cells[k].name == n;
    }
  }

  lemma MarkMore(rows: map<string, Row>, some: set<string>, name: string, now: int)
    ensures MarkDraining(MarkDraining(rows, some, now), {name}, now) == MarkDraining(rows, some + {name}, now)
  {
  }

  method MarkAll(cells0: seq<Row>, ghost rows: map<string, Row>, drain: seq<string>, now: int) returns (cells: seq<Row>)
    requires Lists(cells0, rows) && Keyed(rows)
    ensures Lists(cells, MarkDraining(rows, NameSet(drain), now)) && Keyed(MarkDraining(rows, NameSet(drain), now))
  {
    cells := cells0;
    assert MarkDraining(rows, NameSet(drain[..0]), now) == rows;
    for k := 0 to |drain|
      invariant Lists(cells, MarkDraining(rows, NameSet(drain[..k]), now)) && Keyed(MarkDraining(rows, NameSet(drain[..k]), now))
    {
      assert drain[..k + 1] == drain[..k] + [drain[k]];
      assert NameSet(drain[..k + 1]) == NameSet(drain[..k]) + {drain[k]};
      MarkMore(rows, NameSet(drain[..k]), drain[k], now);
      cells := MarkOne(cells, MarkDraining(rows, NameSet(drain[..k]), now), drain[k], now);
    }
    assert drain[..|drain|] == drain;
  }

  /** The replacement loop deletes the guests named by the indexes of the rows that pass the test. */
  method ReplaceFailed(cells: seq<Row>, ghost rows: map<string, Row>, inp: PassInput) returns (guests: set<string>)
    requires Lists(cells, rows) && Keyed(rows)
    ensures guests == GuestsOf(rows, ToReplace(rows, inp), inp.spec.pool)
  {
    guests := {};
    for i := 0 to |cells|
      invariant guests == FailedGuests(cells[..i], inp)
    {
      FailedNext(cells, inp, i);
      if ShouldReplace(cells[i], inp.now, Usable(inp)) {
        guests := guests + {Name(inp.spec.pool, cells[i].index)};
      }
    }
    assert cells[..|cells|] == cells;
    ReplacedAre(cells, rows, inp);
  }

  function FailedGuests(cells: seq<Row>, inp: PassInput): set<string> {
    set c | c in cells && ShouldReplace(c, inp.now, Usable(inp)) :: Name(inp.spec.pool, c.index)
  }

  lemma FailedNext(cells: seq<Row>, inp: PassInput, i: nat)
    requires i < |cells|
    ensures FailedGuests(cells[..i + 1], inp) ==
            FailedGuests(cells[..i], inp) +
            if ShouldReplace(cells[i], inp.now, Usable(inp)) then {Name(inp.spec.pool, cells[i].index)} else {}
  {
    assert cells[..i + 1] == cells[..i] + [cells[i]];
  }

  lemma ReplacedAre(cells: seq<Row>, rows: map<string, Row>, inp: PassInput)
    requires Lists(cells, rows) && Keyed(rows)
    ensures GuestsOf(rows, ToReplace(rows, inp), inp.spec.pool) == FailedGuests(cells, inp)
  {
    forall n | n in ToReplace(rows, inp) ensures Name(inp.spec.pool, rows[n].index) in FailedGuests(cells, inp) {
      assert rows[n] in cells;
    }
    forall c | c in cells && ShouldReplace(c, inp.now, Usable(inp))
      ensures Name(inp.spec.pool, c.index) in GuestsOf(rows, ToReplace(rows, inp), inp.spec.pool)
    {
      assert c.name in ToReplace(rows, inp) && rows[c.name] == c;
    }
  }

  function Progressed(c: Row, inp: PassInput): Row {
    if c.phase == Draining then c.(reason := DrainGate(inp, c.name).reason) else c
  }

  /** The drain loop: the gate's reason is written back, and a cell it lets go is removed: the Node of
      the row's name and the guest of its index. */
  method ProgressDrains(cells0: seq<Row>, ghost rows: map<string, Row>, inp: PassInput)
    returns (cells: seq<Row>, removed: set<string>, guests: set<string>)
    requires Lists(cells0, rows) && Keyed(rows)
    ensures Lists(cells, AfterDrains(rows, inp)) && Keyed(AfterDrains(rows, inp))
    ensures removed == ToRemove(rows, inp)
    ensures guests == GuestsOf(rows, removed, inp.spec.pool)
  {
    cells, removed, guests := cells0, {}, {};
    for i := 0 to |cells0|
      invariant |cells| == |cells0|
      invariant forall k :: 0 <= k < i ==> cells[k] == Progressed(cells0[k], inp)
      invariant forall k :: i <= k < |cells0| ==> cells[k] == cells0[k]
      invariant removed == LetGo(cells0[..i], inp) && guests == LetGoGuests(cells0[..i], inp)
    {
      LetGoNext(cells0, inp, i);
      if cells[i].phase != Draining {
        continue;
      }
      var gate := DrainGate(inp, cells[i].name);
      if gate.proceed {
        removed := removed + {cells[i].name};
        guests := guests + {Name(inp.spec.pool, cells[i].index)};
      }
      cells := cells[i := cells[i].(reason := gate.reason)];
    }
    assert cells0[..|cells0|] == cells0;
    RemovedAre(cells0, rows, inp);
    ProgressedLists(cells0, rows, inp, cells);
  }

  /** The cells whose gate lets them go. */
  function LetGo(cells: seq<Row>, inp: PassInput): set<string> {
    set c | c in cells && c.phase == Draining && DrainGate(inp, c.name).proceed :: c.name
  }

  function LetGoGuests(cells: seq<Row>, inp: PassInput): set<string> {
    set c | c in cells && c.phase == Draining && DrainGate(inp, c.name).proceed :: Name(inp.spec.pool, c.index)
  }

  lemma LetGoNext(cells: seq<Row>, inp: PassInput, i: nat)
    requires i < |cells|
    ensures var c := cells[i];
            var goes := c.phase == Draining && DrainGate(inp, c.name).proceed;
            && LetGo(cells[..i + 1], inp) == LetGo(cells[..i], inp) + (if goes then {c.name} else {})
            && LetGoGuests(cells[..i + 1], inp) ==
               LetGoGuests(cells[..i], inp) + if goes then {Name(inp.spec.pool, c.index)} else {}
  {
    assert cells[..i + 1] == cells[..i] + [cells[i]];
  }

  lemma ProgressedLists(cells0: seq<Row>, rows: map<string, Row>, inp: PassInput, cells: seq<Row>)
    requires Lists(cells0, rows) && Keyed(rows) && |cells| == |cells0|
    requires forall k :: 0 <= k < |cells0| ==> cells[k] == Progressed(cells0[k], inp)
    ensures Lists(cells, AfterDrains(rows, inp)) && Keyed(AfterDrains(rows, inp))
  {
    forall k | 0 <= k < |cells| && cells[k].name in AfterDrains(rows, inp)
      ensures AfterDrains(rows, inp)[cells[k].name] == cells[k]
    {
      assert cells0[k] in cells0;
    }
    MappedLists(cells0, rows, cells, AfterDrains(rows, inp));
  }

  lemma RemovedAre(cells: seq<Row>, rows: map<string, Row>, inp: PassInput)
    requires Lists(cells, rows) && Keyed(rows)
    ensures LetGo(cells, inp) == ToRemove(rows, inp)
    ensures LetGoGuests(cells, inp) == GuestsOf(rows, ToRemove(rows, inp), inp.spec.pool)
  {
    forall n | n in ToRemove(rows, inp) ensures Name(inp.spec.pool, rows[n].index) in LetGoGuests(cells, inp) {
      assert rows[n] in cells;
    }
    forall c | c in cells && c.phase == Draining && DrainGate(inp, c.name).proceed
      ensures Name(inp.spec.pool, c.index) in GuestsOf(rows, ToRemove(rows, inp), inp.spec.pool)
    {
      assert c.name in ToRemove(rows, inp) && rows[c.name] == c;
    }
    forall n ensures n in LetGo(cells, inp) <==> n in ToRemove(rows, inp) {
      if n in ToRemove(rows, inp) {
        assert rows[n] in cells;
      }
    }
  }

  lemma ListsEnumerate(cells: seq<Row>, rows: map<string, Row>)
    requires Lists(cells, rows) && Keyed(rows)
    ensures Enumerates(cells, rows)
  {
  }

  method AnyReady(cells: seq<Row>, ghost rows: map<string, Row>) returns (any: bool)
    requires Lists(cells, rows) && Keyed(rows)
    ensures any == exists n :: n in rows && rows[n].phase == Ready
    ensures any == exists c :: c in cells && c.phase == Ready
  {
    any := false;
    for i := 0 to |cells|
      invariant any ==> exists c :: c in cells && c.phase == Ready
      invariant !any ==> forall k :: 0 <= k < i ==> cells[k].phase != Ready
    {
      if cells[i].phase == Ready {
        any := true;
      }
    }
    if any {
      var c :| c in cells && c.phase == Ready;
      assert rows[c.name] == c;
    } else {
      forall n | n in rows ensures rows[n].phase != Ready {
        assert rows[n] in cells;
      }
    }
  }

  /** What the reads must be for a pass to complete. */
  predicate Complete(inp: PassInput) {
    WellListed(inp.first) && WellListed(inp.second)
  }

  /** One pool under reconciliation. `history` is the record of its passes so far. */
  class Pool {
    const name: string
    var cells: seq<Row>
    var lastScaleUp: Option<int>
    var lastScaleDown: Option<int>
    var demandFreeSince: Option<int>
    var anyReady: bool
    ghost var rows: map<string, Row>
    ghost var history: seq<Pass>

    ghost predicate Valid()
      reads this
    {
      && Listed()
      && Run(name, history)
      && Recorded() == if history == [] then EMPTY_STATUS else history[|history| - 1].after
    }

    ghost predicate Listed()
      reads this
    {
      Lists(cells, rows) && Keyed(rows)
    }

    ghost function Recorded(): Status
      reads this
    {
      Status(rows, lastScaleUp, lastScaleDown, demandFreeSince, anyReady)
    }

    constructor (name: string)
      ensures Valid() && history == [] && this.name == name
    {
      this.name := name;
      cells, rows, history := [], map[], [];
      lastScaleUp, lastScaleDown, demandFreeSince := None, None, None;
      anyReady := false;
    }

    /** The autoscaler's stamps and the demand-free mark. */
    method StampScale(inp: PassInput, scale: ScaleDecision)
      modifies this`lastScaleUp, this`lastScaleDown, this`demandFreeSince
      ensures lastScaleUp == (if scale.scaledUp then Some(inp.now) else old(lastScaleUp))
      ensures lastScaleDown == (if scale.scaledDown then Some(inp.now) else old(lastScaleDown))
      ensures demandFreeSince == NextDemandFree(old(demandFreeSince), DemandRead(inp), inp.now)
    {
      var demand := DemandRead(inp);
      if demand.Some? {
        if demand.value.satisfiable == 0 && demand.value.pending == 0 {
          if demandFreeSince.None? {
            demandFreeSince := Some(inp.now);
          }
        } else {
          demandFreeSince := None;
        }
      }
      if scale.scaledUp {
        lastScaleUp := Some(inp.now);
      }
      if scale.scaledDown {
        lastScaleDown := Some(inp.now);
      }
    }

    /** Discovery, idleness, the scaling decision and the membership plan. */
    method Decide(inp: PassInput)
      returns (seen: seq<Row>, idle: seq<string>, scale: ScaleDecision, plan: MembershipPlan, reaped: set<string>)
      requires Listed() && Complete(inp)
      ensures Lists(seen, RowsAfter(inp.spec, rows, inp.first, inp.reachable, inp.now))
      ensures Keyed(RowsAfter(inp.spec, rows, inp.first, inp.reachable, inp.now))
      ensures idle == if NeedsIdleness(inp.spec) && inp.reachable then IdleNames(seen, inp.allocations) else []
      ensures scale == DecideScale(ScaleFor(Recorded(), inp, seen, idle))
      ensures plan == Plan(MembershipFor(Recorded(), inp, seen, scale))
      ensures reaped == ReapedNodes(inp.spec, rows, inp.first, inp.reachable, inp.now)
    {
      ListsEnumerate(cells, rows);
      seen, reaped := DiscoverCells(inp.spec, cells, rows, inp.first, inp.reachable, inp.now);
      idle := [];
      if NeedsIdleness(inp.spec) && inp.reachable {
        idle := FindIdle(seen, inp.allocations);
      }
      var live := LiveCells(seen);
      scale := DecideScale(ScaleInput(inp.spec.replicas, inp.spec.autoscaling, live, DemandRead(inp), inp.shapeKnown,
                                      inp.freeGPUs, idle, inp.now, lastScaleUp, lastScaleDown, demandFreeSince));
      plan := PlanFor(inp, seen, scale);
    }

    /** The membership plan from the recorded status and the rows seen. */
    method PlanFor(inp: PassInput, seen: seq<Row>, scale: ScaleDecision) returns (plan: MembershipPlan)
      requires Lists(seen, RowsAfter(inp.spec, rows, inp.first, inp.reachable, inp.now))
      requires Keyed(RowsAfter(inp.spec, rows, inp.first, inp.reachable, inp.now))
      ensures plan == Plan(MembershipFor(Recorded(), inp, seen, scale))
    {
      var any := AnyReady(seen, RowsAfter(inp.spec, rows, inp.first, inp.reachable, inp.now));
      var ever := any || inp.readyCondition || anyReady;
      plan := PlanMembership(MembershipInput(scale.desired, seen, inp.now, inp.freeGPUs, 0, inp.reachable,
                                             ever, Usable(inp), scale.drainCandidates));
    }

    /** The rows the rest of the pass works on: re-observed after a creation. */
    method Reobserve(inp: PassInput, seen: seq<Row>, create: seq<int>)
      returns (work: seq<Row>, again: set<string>, ghost workRows: map<string, Row>)
      requires Listed() && Complete(inp)
      requires Lists(seen, RowsAfter(inp.spec, rows, inp.first, inp.reachable, inp.now))
      requires Keyed(RowsAfter(inp.spec, rows, inp.first, inp.reachable, inp.now))
      ensures workRows == (if create == [] then RowsAfter(inp.spec, rows, inp.first, inp.reachable, inp.now)
                           else RowsAfter(inp.spec, rows, inp.second, inp.reachable, inp.now))
      ensures again == (if create == [] then {} else ReapedNodes(inp.spec, rows, inp.second, inp.reachable, inp.now))
      ensures Lists(work, workRows) && Keyed(workRows)
    {
      if create == [] {
        return seen, {}, RowsAfter(inp.spec, rows, inp.first, inp.reachable, inp.now);
      }
      ListsEnumerate(cells, rows);
      work, again := DiscoverCells(inp.spec, cells, rows, inp.second, inp.reachable, inp.now);
      workRows := RowsAfter(inp.spec, rows, inp.second, inp.reachable, inp.now);
    }

    /** All a pass decides, before anything is written back. */
    method Perform(inp: PassInput)
      returns (created: seq<int>, deleted: set<string>, nodesDeleted: set<string>, scale: ScaleDecision,
               final: seq<Row>, ghost finalRows: map<string, Row>, ghost p: Pass)
      requires Listed() && Complete(inp)
      ensures AllLegal([p])
      ensures p.input == inp && p.before == Recorded() && p.after == StatusAfter(Recorded(), inp, scale, finalRows)
      ensures Lists(final, finalRows) && Keyed(finalRows)
      ensures created == p.plan.create && deleted == DeletedGuests(p) && nodesDeleted == p.reaped + p.removed
    {
      var seen, idle, plan, reaped;
      seen, idle, scale, plan, reaped := Decide(inp);
      var work, again, workRows := Reobserve(inp, seen, plan.create);
      var marked, rollout, removed;
      ghost var markedRows;
      marked, rollout, final, removed, deleted, markedRows, finalRows := Act(inp, work, workRows, idle, scale, plan);
      created, nodesDeleted := plan.create, reaped + again + removed;
      ghost var replaced := ToReplace(markedRows, inp);
      p := Pass(Recorded(), inp, RowsAfter(inp.spec, rows, inp.first, inp.reachable, inp.now), seen, idle, scale, plan,
                workRows, markedRows, marked, replaced, rollout, removed, reaped + again,
                StatusAfter(Recorded(), inp, scale, finalRows));
      Assemble(p, reaped, again);
    }

    /** One reconcile pass: the status moves as the pass on record says, and the record grows by
        that pass. */
    method Reconcile(inp: PassInput) returns (created: seq<int>, deleted: set<string>, nodesDeleted: set<string>)
      requires Valid() && Complete(inp)
      requires inp.spec.pool == name && ReadsOk(inp.spec, inp.first) && ReadsOk(inp.spec, inp.second)
      requires history != [] ==> history[|history| - 1].input.now <= inp.now
      modifies this
      ensures Valid()
      ensures |history| == |old(history)| + 1 && history[..|old(history)|] == old(history)
      ensures var p := history[|history| - 1];
              && p.input == inp && p.before == old(Recorded()) && p.after == Recorded()
              && created == p.plan.create && deleted == DeletedGuests(p) && nodesDeleted == p.reaped + p.removed
    {
      var scale, final;
      ghost var finalRows, p;
      created, deleted, nodesDeleted, scale, final, finalRows, p := Perform(inp);
      Extend(name, history, p);
      Commit(inp, scale, final, finalRows, p);
    }

    /** Writing the status back. */
    method Commit(inp: PassInput, scale: ScaleDecision, final: seq<Row>, ghost finalRows: map<string, Row>, ghost p: Pass)
      requires Run(name, history + [p]) && Lists(final, finalRows) && Keyed(finalRows)
      requires p.input == inp && p.before == Recorded() && p.after == StatusAfter(Recorded(), inp, scale, finalRows)
      modifies this
      ensures Valid() && history == old(history) + [p] && Recorded() == p.after
    {
      var any := AnyReady(final, finalRows);
      StampScale(inp, scale);
      cells, rows, anyReady := final, finalRows, any;
      history := history + [p];
    }
  }

  lemma Extend(pool: string, run: seq<Pass>, p: Pass)
    requires Run(pool, run) && AllLegal([p]) && Readable(pool, p)
    requires run == [] ==> p.before == EMPTY_STATUS
    requires run != [] ==> p.before == run[|run| - 1].after && run[|run| - 1].input.now <= p.input.now
    ensures Run(pool, run + [p])
  {
    ExtendLegal(run, p);
    ExtendChain(pool, run, p);
  }

  lemma ExtendChain(pool: string, run: seq<Pass>, p: Pass)
    requires Chained(pool, run) && Readable(pool, p)
    requires run == [] ==> p.before == EMPTY_STATUS
    requires run != [] ==> p.before == run[|run| - 1].after && run[|run| - 1].input.now <= p.input.now
    ensures Chained(pool, run + [p])
  {
    var longer := run + [p];
    assert forall i :: 0 <= i < |run| ==> longer[i] == run[i];
    assert longer[|run|] == p;
  }

  /** The parts of a pass make a legal pass. */
  lemma Assemble(p: Pass, reaped: set<string>, again: set<string>)
    requires p.seen == RowsAfter(p.input.spec, p.before.rows, p.input.first, p.input.reachable, p.input.now)
    requires Lists(p.cells, p.seen)
    requires p.idle == if NeedsIdleness(p.input.spec) && p.input.reachable then IdleNames(p.cells, p.input.allocations) else []
    requires p.scale == DecideScale(ScaleFor(p.before, p.input, p.cells, p.idle))
    requires p.plan == Plan(MembershipFor(p.before, p.input, p.cells, p.scale))
    requires p.rows == if p.plan.create == [] then p.seen
                       else RowsAfter(p.input.spec, p.before.rows, p.input.second, p.input.reachable, p.input.now)
    requires reaped == ReapedNodes(p.input.spec, p.before.rows, p.input.first, p.input.reachable, p.input.now)
    requires again == if p.plan.create == [] then {}
                      else ReapedNodes(p.input.spec, p.before.rows, p.input.second, p.input.reachable, p.input.now)
    requires p.reaped == reaped + again
    requires p.marked == MarkDraining(p.rows, NameSet(p.plan.drain), p.input.now) && Lists(p.markedCells, p.marked)
    requires p.replaced == ToReplace(p.marked, p.input)
    requires p.rollout == RolloutPlan(RolloutFor(p.input, p.markedCells, p.idle, p.scale, p.plan))
    requires p.removed == ToRemove(Drained(p), p.input)
    requires p.after == StatusAfter(p.before, p.input, p.scale, AfterDrains(Drained(p), p.input))
    ensures AllLegal([p])
  {
  }

  /** Carrying the plan out: mark the drains, replace failed cells, roll out, progress the drains. */
  method Act(inp: PassInput, work: seq<Row>, ghost workRows: map<string, Row>, idle: seq<string>,
             scale: ScaleDecision, plan: MembershipPlan)
    returns (marked: seq<Row>, rollout: RolloutDecision, final: seq<Row>, removed: set<string>, deleted: set<string>,
             ghost markedRows: map<string, Row>, ghost finalRows: map<string, Row>)
    requires Lists(work, workRows) && Keyed(workRows)
    ensures markedRows == MarkDraining(workRows, NameSet(plan.drain), inp.now) && Lists(marked, markedRows)
    ensures rollout == RolloutPlan(RolloutFor(inp, marked, idle, scale, plan))
    ensures var drained := MarkDraining(markedRows, AsSet(rollout.drain), inp.now);
            removed == ToRemove(drained, inp) && finalRows == AfterDrains(drained, inp)
    ensures deleted == GuestsOf(workRows, ToReplace(markedRows, inp) + removed, inp.spec.pool)
    ensures Lists(final, finalRows) && Keyed(finalRows)
  {
    marked := MarkAll(work, workRows, plan.drain, inp.now);
    markedRows := MarkDraining(workRows, NameSet(plan.drain), inp.now);
    var replaced := ReplaceFailed(marked, markedRows, inp);
    var live := LiveCells(marked);
    rollout := PlanRollout(RolloutInput(inp.spec.rolling, inp.spec.templateHash, marked, idle, inp.reachable,
                                        live == scale.desired && plan.create == []));
    ghost var drainedRows := MarkDraining(markedRows, AsSet(rollout.drain), inp.now);
    var drained := MarkRollout(marked, markedRows, rollout.drain, inp.now);
    var gone;
    final, removed, gone := ProgressDrains(drained, drainedRows, inp);
    finalRows := AfterDrains(drainedRows, inp);
    deleted := replaced + gone;
    MarkedGuests(workRows, NameSet(plan.drain), AsSet(rollout.drain), inp.now, ToReplace(markedRows, inp), removed, inp.spec.pool);
  }

  method MarkRollout(cells: seq<Row>, ghost rows: map<string, Row>, drain: Option<string>, now: int) returns (marked: seq<Row>)
    requires Lists(cells, rows) && Keyed(rows)
    ensures Lists(marked, MarkDraining(rows, AsSet(drain), now)) && Keyed(MarkDraining(rows, AsSet(drain), now))
  {
    marked := cells;
    if drain.Some? {
      marked := MarkOne(cells, rows, drain.value, now);
    } else {
      MarkNothing(rows, now);
    }
  }

  /** Marking a row does not move it to another index. */
  lemma MarkedGuests(rows: map<string, Row>, x: set<string>, y: set<string>, now: int, a: set<string>, b: set<string>, pool: string)
    ensures var marked := MarkDraining(rows, x, now);
            GuestsOf(rows, a + b, pool) == GuestsOf(marked, a, pool) + GuestsOf(MarkDraining(marked, y, now), b, pool)
  {
    SameGuests(rows, MarkDraining(rows, x, now), a, pool);
    SameGuests(rows, MarkDraining(MarkDraining(rows, x, now), y, now), b, pool);
  }

  lemma SameGuests(rows: map<string, Row>, marked: map<string, Row>, names: set<string>, pool: string)
    requires rows.Keys == marked.Keys && forall n :: n in rows ==> rows[n].index == marked[n].index
    ensures GuestsOf(rows, names, pool) == GuestsOf(marked, names, pool)
  {
  }

  lemma MarkNothing(rows: map<string, Row>, now: int)
    ensures MarkDraining(rows, {}, now) == rows
  {
  }
}
