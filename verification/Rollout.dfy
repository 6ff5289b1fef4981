/** Replacing cells created from an older template, one idle cell at a time. */
module Rollout {
  import opened CellTypes
  import opened Membership

  datatype RolloutInput = RolloutInput(
    rolling: bool,
    desiredHash: string,
    cells: seq<Row>,
    idleCells: seq<string>,
    reachable: bool,
    atDesiredSize: bool)

  datatype RolloutReason = AllCellsCurrent | TemplateChanged | UpdateBlocked | RollingUpdate

  datatype RolloutDecision = RolloutDecision(
    drain: Option<string>,
    upToDate: bool,
    staleCells: nat,
    reason: RolloutReason)

  /** An unknown hash is not out of date, and a leaving cell is already being replaced. */
  predicate Stale(c: Row, desired: string) {
    !Leaving(c.phase) && c.hash != "" && c.hash != desired
  }

  function StaleNames(cells: seq<Row>, desired: string): seq<string> {
    if cells == [] then []
    else StaleNames(cells[..|cells| - 1], desired) +
         (if Stale(cells[|cells| - 1], desired) then [cells[|cells| - 1].name] else [])
  }

  predicate MidFlight(c: Row) {
    c.phase !in {Ready, Failed, Unset}
  }

  function FirstIdle(stale: seq<string>, idle: seq<string>): Option<string> {
    if stale == [] then None
    else if stale[0] in idle then Some(stale[0])
    else FirstIdle(stale[1..], idle)
  }

  lemma StaleNext(cells: seq<Row>, desired: string, k: nat)
    requires k < |cells|
    ensures StaleNames(cells[..k + 1], desired) ==
            if Stale(cells[k], desired) then StaleNames(cells[..k], desired) + [cells[k].name]
            else StaleNames(cells[..k], desired)
  {
    PrefixStep(cells, k);
  }

  method CollectStale(cells: seq<Row>, desired: string) returns (stale: seq<string>)
    ensures stale == StaleNames(cells, desired)
  {
    stale := [];
    for k := 0 to |cells|
      invariant stale == StaleNames(cells[..k], desired)
    {
      StaleNext(cells, desired, k);
      if cells[k].phase != Draining && cells[k].phase != Deleting {
        if cells[k].hash != "" && cells[k].hash != desired {
          stale := stale + [cells[k].name];
        }
      }
    }
    assert cells[..|cells|] == cells;
  }

  method FindMidFlight(cells: seq<Row>) returns (busy: Option<string>)
    ensures busy.None? <==> forall c :: c in cells ==> !MidFlight(c)
    ensures busy.Some? ==> exists c :: c in cells && MidFlight(c) && c.name == busy.value
  {
    for k := 0 to |cells|
      invariant forall i :: 0 <= i < k ==> !MidFlight(cells[i])
    {
      match cells[k].phase {
        case Ready =>
        case Failed =>
        case Unset =>
        case _ =>
          assert MidFlight(cells[k]) && cells[k] in cells;
          return Some(cells[k].name);
      }
    }
    busy := None;
  }

  ghost function RolloutPlan(inp: RolloutInput): RolloutDecision {
    var stale := StaleNames(inp.cells, inp.desiredHash);
    if stale == [] then RolloutDecision(None, true, 0, AllCellsCurrent)
    else if !inp.rolling then RolloutDecision(None, false, |stale|, TemplateChanged)
    else if !inp.reachable || !inp.atDesiredSize || (exists c :: c in inp.cells && MidFlight(c))
            || FirstIdle(stale, inp.idleCells).None? then
      RolloutDecision(None, false, |stale|, UpdateBlocked)
    else RolloutDecision(FirstIdle(stale, inp.idleCells), false, |stale|, RollingUpdate)
  }

  method PlanRollout(inp: RolloutInput) returns (out: RolloutDecision)
    ensures out == RolloutPlan(inp)
  {
    var stale := CollectStale(inp.cells, inp.desiredHash);
    if stale == [] {
      return RolloutDecision(None, true, 0, AllCellsCurrent);
    }
    if !inp.rolling {
      return RolloutDecision(None, false, |stale|, TemplateChanged);
    }
    var blocked := RolloutDecision(None, false, |stale|, UpdateBlocked);
    if !inp.reachable {
      return blocked;
    }
    if !inp.atDesiredSize {
      return blocked;
    }
    var busy := FindMidFlight(inp.cells);
    if busy.Some? {
      return blocked;
    }
    for k := 0 to |stale|
      invariant FirstIdle(stale[k..], inp.idleCells) == FirstIdle(stale, inp.idleCells)
    {
      if stale[k] in inp.idleCells {
        return RolloutDecision(Some(stale[k]), false, |stale|, RollingUpdate);
      }
      assert stale[k..][1..] == stale[k + 1..];
    }
    return blocked;
  }

  lemma {:induction false} StaleNamesExact(cells: seq<Row>, desired: string)
    ensures forall n :: n in StaleNames(cells, desired) <==>
                        exists c :: c in cells && Stale(c, desired) && c.name == n
  {
    if cells != [] {
      var front, last := cells[..|cells| - 1], cells[|cells| - 1];
      StaleNamesExact(front, desired);
      assert cells == front + [last];
      forall n ensures n in StaleNames(cells, desired) <==>
                       exists c :: c in cells && Stale(c, desired) && c.name == n
      {
        if n in StaleNames(cells, desired) {
          if n in StaleNames(front, desired) {
            var c :| c in front && Stale(c, desired) && c.name == n;
            assert c in cells;
          } else {
            assert last in cells;
          }
        }
      }
    }
  }

  lemma {:induction false} FirstIdleExact(stale: seq<string>, idle: seq<string>)
    ensures FirstIdle(stale, idle).None? <==> forall n :: n in stale ==> n !in idle
    ensures var f := FirstIdle(stale, idle);
            f.Some? ==> f.value in idle && exists i :: 0 <= i < |stale| && stale[i] == f.value
                                                       && forall j :: 0 <= j < i ==> stale[j] !in idle
  {
    if stale != [] && stale[0] !in idle {
      FirstIdleExact(stale[1..], idle);
      var f := FirstIdle(stale[1..], idle);
      if f.Some? {
        var i :| 0 <= i < |stale[1..]| && stale[1..][i] == f.value
                 && forall j :: 0 <= j < i ==> stale[1..][j] !in idle;
        assert stale[i + 1] == f.value;
        forall j | 0 <= j < i + 1 ensures stale[j] !in idle {
          assert j > 0 ==> stale[j] == stale[1..][j - 1];
        }
      } else {
        assert stale == [stale[0]] + stale[1..];
      }
    }
  }

  /** A rollout starts a drain exactly when it was asked for, the workload cluster answers, the
      pool is at its size, every cell is settled, and some stale cell is idle; and then it names
      one such cell. */
  lemma RolloutStartsExactlyWhen(inp: RolloutInput)
    ensures RolloutPlan(inp).drain.Some? <==>
            && inp.rolling && inp.reachable && inp.atDesiredSize
            && (forall c :: c in inp.cells ==> !MidFlight(c))
            && (exists c :: c in inp.cells && Stale(c, inp.desiredHash) && c.name in inp.idleCells)
    ensures var d := RolloutPlan(inp).drain;
            d.Some? ==> d.value in inp.idleCells
                        && exists c :: c in inp.cells && Stale(c, inp.desiredHash) && c.name == d.value
  {
    var stale := StaleNames(inp.cells, inp.desiredHash);
    StaleNamesExact(inp.cells, inp.desiredHash);
    FirstIdleExact(stale, inp.idleCells);
    if exists c :: c in inp.cells && Stale(c, inp.desiredHash) && c.name in inp.idleCells {
      var c :| c in inp.cells && Stale(c, inp.desiredHash) && c.name in inp.idleCells;
      assert c.name in stale;
    }
    if FirstIdle(stale, inp.idleCells).Some? {
      assert FirstIdle(stale, inp.idleCells).value in stale;
      var c :| c in inp.cells && Stale(c, inp.desiredHash) && c.name == FirstIdle(stale, inp.idleCells).value;
    }
  }

  // ----- what is reported

  /** The rows of another template: neither leaving nor of an unknown one. */
  function OutOfDate(cells: seq<Row>, desired: string): set<int> {
    set i | 0 <= i < |cells| && cells[i].phase != Draining && cells[i].phase != Deleting && cells[i].hash != "" && cells[i].hash != desired
  }

  lemma {:induction false} StaleCounted(cells: seq<Row>, desired: string)
    ensures |StaleNames(cells, desired)| == |OutOfDate(cells, desired)|
  {
    if cells == [] {
      assert OutOfDate(cells, desired) == {};
    } else {
      var front, k := cells[..|cells| - 1], |cells| - 1;
      StaleCounted(front, desired);
      assert OutOfDate(cells, desired) == OutOfDate(front, desired) + if Stale(cells[k], desired) then {k} else {};
    }
  }

  /** The rollout reports how many rows are of another template, and why it stands where it does. */
  lemma ReportsExactly(inp: RolloutInput)
    ensures var d, n := RolloutPlan(inp), |OutOfDate(inp.cells, inp.desiredHash)|;
            && d.staleCells == n
            && (d.upToDate <==> n == 0)
            && (d.reason == AllCellsCurrent <==> n == 0)
            && (d.reason == TemplateChanged <==> n > 0 && !inp.rolling)
            && (d.reason == RollingUpdate <==> d.drain.Some?)
            && (d.reason == UpdateBlocked <==> n > 0 && inp.rolling && d.drain.None?)
  {
    StaleCounted(inp.cells, inp.desiredHash);
  }

  // ----- which cell goes

  lemma {:induction false} FirstIdleJoins(a: seq<string>, b: seq<string>, idle: seq<string>)
    ensures FirstIdle(a + b, idle) == if FirstIdle(a, idle).Some? then FirstIdle(a, idle) else FirstIdle(b, idle)
  {
    if a == [] {
      assert a + b == b;
    } else if a[0] !in idle {
      assert (a + b)[1..] == a[1..] + b;
      FirstIdleJoins(a[1..], b, idle);
    }
  }

  /** The stale idle cell chosen stands before every other one in the list. */
  lemma {:induction false} ChoosesFirst(cells: seq<Row>, desired: string, idle: seq<string>) returns (i: int)
    requires FirstIdle(StaleNames(cells, desired), idle).Some?
    ensures 0 <= i < |cells| && Stale(cells[i], desired) && cells[i].name == FirstIdle(StaleNames(cells, desired), idle).value
    ensures cells[i].name in idle
    ensures forall j :: 0 <= j < i ==> !(Stale(cells[j], desired) && cells[j].name in idle)
  {
    var front, last := cells[..|cells| - 1], cells[|cells| - 1];
    FirstIdleJoins(StaleNames(front, desired), if Stale(last, desired) then [last.name] else [], idle);
    if FirstIdle(StaleNames(front, desired), idle).Some? {
      i := ChoosesFirst(front, desired, idle);
    } else {
      i := |cells| - 1;
      StaleNamesExact(front, desired);
      FirstIdleExact(StaleNames(front, desired), idle);
      forall j | 0 <= j < i && Stale(cells[j], desired) ensures cells[j].name !in idle {
        assert cells[j] == front[j] && front[j] in front;
        assert cells[j].name in StaleNames(front, desired);
      }
    }
  }
}
