/** The capacity view and the drain gate's reading in dynamic-resource-allocation mode, where both
    come from published slices and allocated claims. */
module Dra {
  import opened CellTypes
  import opened Sequences
  import opened Capacity
  import Inventory

  const DRIVER := "hami-core-gpu.project-hami.io"
  const MIB: int := 1024 * 1024

  /** Capacities are `None` when not published; memory is in bytes. */
  datatype Device = Device(name: string, product: Option<string>, cores: Option<int>, memory: Option<int>)

  datatype Slice = Slice(driver: string, pool: string, devices: seq<Device>)

  /** One allocation result with what it consumes. */
  datatype Grant = Grant(driver: string, pool: string, device: string, cores: Option<int>, memory: Option<int>)

  /** `None` is a claim without an allocation. */
  datatype Claim = Claim(grants: Option<seq<Grant>>, reserved: bool)

  function Or0(v: Option<int>): int {
    if v.Some? then v.value else 0
  }

  /** Division as the program does it, towards zero. */
  function WholeMiB(bytes: int): int {
    if bytes >= 0 then bytes / MIB else -((-bytes) / MIB)
  }

  // ----- what allocated claims have taken

  datatype Use = Use(key: string, cores: int, memory: int, reserved: bool)

  datatype Consumed = Consumed(cores: int, memoryMiB: int, claims: nat, unreserved: nat) {
    function Plus(that: Consumed): Consumed {
      Consumed(cores + that.cores, memoryMiB + that.memoryMiB, claims + that.claims, unreserved + that.unreserved)
    }
  }

  const NONE_CONSUMED := Consumed(0, 0, 0, 0)

  function UseOf(g: Grant, reserved: bool): Use {
    Use(Inventory.Key(g.pool, g.device), Or0(g.cores), Or0(g.memory), reserved)
  }

  function GrantUses(grants: seq<Grant>, reserved: bool): seq<Use> {
    if grants == [] then []
    else GrantUses(grants[..|grants| - 1], reserved) +
         (if grants[|grants| - 1].driver == DRIVER then [UseOf(grants[|grants| - 1], reserved)] else [])
  }

  function ClaimUses(c: Claim): seq<Use> {
    if c.grants.Some? then GrantUses(c.grants.value, c.reserved) else []
  }

  function Uses(claims: seq<Claim>): seq<Use> {
    Gather(claims, ClaimUses)
  }

  function Amount(u: Use): Consumed {
    Consumed(u.cores, WholeMiB(u.memory), 1, if u.reserved then 0 else 1)
  }

  /** Everything taken of one device. */
  function TakenOf(uses: seq<Use>, key: string): Consumed {
    if uses == [] then NONE_CONSUMED
    else
      var before := TakenOf(uses[..|uses| - 1], key);
      if uses[|uses| - 1].key == key then before.Plus(Amount(uses[|uses| - 1])) else before
  }

  /** The map holds exactly the devices something is taken of, with all of it. */
  ghost predicate Accounts(consumed: map<string, Consumed>, uses: seq<Use>) {
    forall k :: (if k in consumed then consumed[k] else NONE_CONSUMED) == TakenOf(uses, k)
                && (k in consumed <==> TakenOf(uses, k).claims > 0)
  }

  lemma TakenNext(uses: seq<Use>, u: Use, key: string)
    ensures TakenOf(uses + [u], key) == if u.key == key then TakenOf(uses, key).Plus(Amount(u)) else TakenOf(uses, key)
  {
    assert (uses + [u])[..|uses|] == uses;
  }

  lemma AccountsNext(consumed: map<string, Consumed>, uses: seq<Use>, u: Use)
    requires Accounts(consumed, uses)
    ensures var was := if u.key in consumed then consumed[u.key] else NONE_CONSUMED;
            Accounts(consumed[u.key := was.Plus(Amount(u))], uses + [u])
  {
    forall k ensures TakenOf(uses + [u], k) ==
                     (if u.key == k then TakenOf(uses, k).Plus(Amount(u)) else TakenOf(uses, k)) {
      TakenNext(uses, u, k);
    }
  }

  lemma GrantsNext(grants: seq<Grant>, reserved: bool, before: seq<Use>, i: nat)
    requires i < |grants|
    ensures before + GrantUses(grants[..i + 1], reserved) ==
            before + GrantUses(grants[..i], reserved) +
            (if grants[i].driver == DRIVER then [UseOf(grants[i], reserved)] else [])
    ensures grants[i].driver != DRIVER ==>
              before + GrantUses(grants[..i + 1], reserved) == before + GrantUses(grants[..i], reserved)
  {
    assert grants[..i + 1][..i] == grants[..i];
  }

  /** The loop over one claim's results. */
  method AddGrants(grants: seq<Grant>, reserved: bool, consumed0: map<string, Consumed>, ghost before: seq<Use>)
    returns (consumed: map<string, Consumed>)
    requires Accounts(consumed0, before)
    ensures Accounts(consumed, before + GrantUses(grants, reserved))
  {
    consumed := consumed0;
    assert before + [] == before;
    for i := 0 to |grants|
      invariant Accounts(consumed, before + GrantUses(grants[..i], reserved))
    {
      var g := grants[i];
      GrantsNext(grants, reserved, before, i);
      if g.driver != DRIVER {
        continue;
      }
      AccountsNext(consumed, before + GrantUses(grants[..i], reserved), UseOf(g, reserved));
      var key := Inventory.Key(g.pool, g.device);
      var e := Record(if key in consumed then consumed[key] else NONE_CONSUMED, g, reserved);
      consumed := consumed[key := e];
    }
    assert grants[..|grants|] == grants;
  }

  /** One result entered field by field. */
  method Record(e0: Consumed, g: Grant, reserved: bool) returns (e: Consumed)
    ensures e == e0.Plus(Amount(UseOf(g, reserved)))
  {
    e := e0.(claims := e0.claims + 1);
    if !reserved {
      e := e.(unreserved := e.unreserved + 1);
    }
    if g.cores.Some? {
      e := e.(cores := e.cores + g.cores.value);
    }
    if g.memory.Some? {
      e := e.(memoryMiB := e.memoryMiB + WholeMiB(g.memory.value));
    }
  }

  /** What allocated claims have taken, device by device. */
  method AllocatedOf(claims: seq<Claim>) returns (consumed: map<string, Consumed>)
    ensures Accounts(consumed, Uses(claims))
  {
    consumed := map[];
    for i := 0 to |claims|
      invariant Accounts(consumed, Uses(claims[..i]))
    {
      GatherNext(claims, ClaimUses, i);
      if claims[i].grants.None? {
        assert Uses(claims[..i + 1]) == Uses(claims[..i]);
        continue;
      }
      consumed := AddGrants(claims[i].grants.value, claims[i].reserved, consumed, Uses(claims[..i]));
    }
    assert claims[..|claims|] == claims;
  }

  // ----- the drain gate's reading

  function DevicesOf(node: string): Slice -> seq<Device> {
    (s: Slice) => if s.driver == DRIVER && s.pool == node then s.devices else []
  }

  /** The devices published for a Node, in order. */
  function Published(slices: seq<Slice>, node: string): seq<Device> {
    Gather(slices, DevicesOf(node))
  }

  function TakenOn(devices: seq<Device>, node: string, uses: seq<Use>): Consumed {
    if devices == [] then NONE_CONSUMED
    else TakenOn(devices[..|devices| - 1], node, uses)
         .Plus(TakenOf(uses, Inventory.Key(node, devices[|devices| - 1].name)))
  }

  /** The reading of one Node as the sum of what its published devices have given away. */
  function Reading(slices: seq<Slice>, uses: seq<Use>, node: string): Allocations {
    AsReading(TakenOn(Published(slices, node), node, uses))
  }

  /** The slices of one pool, as the index by pool name holds them. */
  method SlicesFor(slices: seq<Slice>, node: string) returns (devices: seq<Device>)
    ensures devices == Published(slices, node)
  {
    devices := [];
    for i := 0 to |slices|
      invariant devices == Published(slices[..i], node)
    {
      GatherNext(slices, DevicesOf(node), i);
      if slices[i].driver != DRIVER || slices[i].pool != node {
        continue;
      }
      devices := devices + slices[i].devices;
    }
    assert slices[..|slices|] == slices;
  }

  /** The loop behind the drain gate. */
  method DraAllocations(slices: seq<Slice>, claims: seq<Claim>, node: string) returns (r: Allocations)
    ensures r == Reading(slices, Uses(claims), node)
    ensures r == HeldOf(Published(slices, node), node, claims)
  {
    var devices := SlicesFor(slices, node);
    var consumed := AllocatedOf(claims);
    ghost var uses := Uses(claims);
    r := Allocations(0, 0, 0, false);
    for i := 0 to |devices|
      invariant r == AsReading(TakenOn(devices[..i], node, uses))
    {
      var key := Inventory.Key(node, devices[i].name);
      TakenOnNext(devices, node, uses, i);
      assert TakenOf(uses, key) == if key in consumed then consumed[key] else NONE_CONSUMED;
      if key !in consumed {
        PlusNone(TakenOn(devices[..i], node, uses));
        continue;
      }
      r := AddEntry(r, consumed[key]);
    }
    assert devices[..|devices|] == devices;
    ReadingIsHeld(devices, node, claims);
  }

  function AsReading(t: Consumed): Allocations {
    Allocations(t.claims, t.memoryMiB, t.cores, t.unreserved > 0)
  }

  method AddEntry(r0: Allocations, e: Consumed) returns (r: Allocations)
    ensures forall t: Consumed :: r0 == AsReading(t) ==> r == AsReading(t.Plus(e))
  {
    r := Allocations(r0.consumers + e.claims, r0.memoryMiB + e.memoryMiB, r0.corePercent + e.cores,
    r0.inFlight || e.unreserved > 0);
  }

  lemma PlusNone(t: Consumed)
    ensures t.Plus(NONE_CONSUMED) == t
  {
  }

  lemma TakenOnNext(devices: seq<Device>, node: string, uses: seq<Use>, i: nat)
    requires i < |devices|
    ensures TakenOn(devices[..i + 1], node, uses) ==
            TakenOn(devices[..i], node, uses).Plus(TakenOf(uses, Inventory.Key(node, devices[i].name)))
  {
    assert devices[..i + 1][..i] == devices[..i];
  }

  // ----- the capacity view

  function ModelName(d: Device): string {
    if d.product.Some? && d.product.value != "" then d.product.value else "unknown"
  }

  function DevicePostOf(d: Device, node: string, uses: seq<Use>): Post {
    var t := TakenOf(uses, Inventory.Key(node, d.name));
    Post(ModelName(d), Figures(1, WholeMiB(Or0(d.memory)), Or0(d.cores), t.memoryMiB, t.cores))
  }

  function DraPostsOf(devices: seq<Device>, node: string, uses: seq<Use>): seq<Post> {
    if devices == [] then []
    else DraPostsOf(devices[..|devices| - 1], node, uses) + [DevicePostOf(devices[|devices| - 1], node, uses)]
  }

  function DraNodePosts(slices: seq<Slice>, uses: seq<Use>): string -> seq<Post> {
    (node: string) => DraPostsOf(Published(slices, node), node, uses)
  }

  /** Every published device of the listed Nodes. */
  function DraPosts(slices: seq<Slice>, uses: seq<Use>, nodes: seq<string>): seq<Post> {
    Gather(nodes, DraNodePosts(slices, uses))
  }

  /** The loop over one Node's devices. */
  method AddDraDevices(devices: seq<Device>, node: string, consumed: map<string, Consumed>, rows0: map<string, Figures>,
                       count0: nat, ghost uses: seq<Use>, ghost posts: seq<Post>)
    returns (rows: map<string, Figures>, count: nat)
    requires Accounts(consumed, uses) && Tallied(rows0, posts)
    ensures Tallied(rows, posts + DraPostsOf(devices, node, uses)) && count == count0 + |devices|
  {
    rows, count := rows0, count0;
    assert posts + [] == posts;
    for i := 0 to |devices|
      invariant Tallied(rows, posts + DraPostsOf(devices[..i], node, uses)) && count == count0 + i
    {
      assert devices[..i + 1][..i] == devices[..i];
      var p := PostFor(devices[i], node, consumed, uses);
      ghost var had := posts + DraPostsOf(devices[..i], node, uses);
      assert posts + DraPostsOf(devices[..i + 1], node, uses) == had + [p];
      PostKeepsTally(rows, had, p);
      rows := PostTo(rows, p);
      count := count + 1;
    }
    assert devices[..|devices|] == devices;
  }

  /** What one device adds to its model's row. */
  method PostFor(d: Device, node: string, consumed: map<string, Consumed>, ghost uses: seq<Use>) returns (p: Post)
    requires Accounts(consumed, uses)
    ensures p == DevicePostOf(d, node, uses)
  {
    var f := Figures(1, 0, 0, 0, 0);
    if d.cores.Some? {
      f := f.(computeTotal := d.cores.value);
    }
    if d.memory.Some? {
      f := f.(memoryTotal := WholeMiB(d.memory.value));
    }
    var key := Inventory.Key(node, d.name);
    assert TakenOf(uses, key) == if key in consumed then consumed[key] else NONE_CONSUMED;
    if key in consumed {
      f := f.(computeHeld := consumed[key].cores, memoryHeld := consumed[key].memoryMiB);
    }
    p := Post(ModelName(d), f);
  }

  lemma {:induction false} RowsRemove(rows: map<string, Figures>, m: string)
    requires m in rows
    ensures SumRows(rows) == rows[m].Plus(SumRows(rows - {m}))
    decreases |rows|
  {
    var j :| j in rows && SumRows(rows) == rows[j].Plus(SumRows(rows - {j}));
    if j != m {
      RowsRemove(rows - {j}, m);
      RowsRemove(rows - {m}, j);
      assert rows - {j} - {m} == rows - {m} - {j};
      PlusLaws(rows[m], rows[j], SumRows(rows - {j} - {m}));
      PlusLaws(rows[j], rows[m], SumRows(rows - {j} - {m}));
    }
  }

  /** The loop that adds the rows up. */
  method AddRows(rows: map<string, Figures>) returns (memoryTotal: int, memoryHeld: int)
    ensures memoryTotal == SumRows(rows).memoryTotal && memoryHeld == SumRows(rows).memoryHeld
  {
    memoryTotal, memoryHeld := 0, 0;
    var rest := rows;
    while rest != map[]
      invariant memoryTotal + SumRows(rest).memoryTotal == SumRows(rows).memoryTotal
      invariant memoryHeld + SumRows(rest).memoryHeld == SumRows(rows).memoryHeld
      decreases |rest|
    {
      var m :| m in rest;
      RowsRemove(rest, m);
      memoryTotal := memoryTotal + rest[m].memoryTotal;
      memoryHeld := memoryHeld + rest[m].memoryHeld;
      rest := rest - {m};
    }
  }

  lemma SingleRow(rows: map<string, Figures>, m: string)
    requires m in rows && |rows| == 1
    ensures SumRows(rows) == rows[m]
  {
    RowsRemove(rows, m);
    assert |rows - {m}| == 0;
  }

  lemma {:induction false} CountDevices(devices: seq<Device>, node: string, uses: seq<Use>)
    ensures SumIf(DraPostsOf(devices, node, uses), Any()).devices == |devices|
  {
    if devices != [] {
      CountDevices(devices[..|devices| - 1], node, uses);
      SumNext(DraPostsOf(devices[..|devices| - 1], node, uses), DevicePostOf(devices[|devices| - 1], node, uses), Any());
    }
  }

  /** What a published view is of the contributions. */
  ghost predicate Publishes(v: View, posts: seq<Post>) {
    && Tallied(v.rows, posts)
    && (v.homogeneous <==> |Models(posts)| <= 1)
    && v.total.devices == SumIf(posts, Any()).devices
    && v.total.memoryTotal == SumIf(posts, Any()).memoryTotal
    && v.total.memoryHeld == SumIf(posts, Any()).memoryHeld
    && (v.homogeneous ==> v.total == SumIf(posts, Any()))
    && (!v.homogeneous ==> v.total.computeTotal == v.total.computeHeld == 0)
  }

  /** The pool-wide view: rows for every model, memory and devices summed over all of them, compute
      only where there is a single model, since percentages of different models do not add. */
  method DraCapacity(slices: seq<Slice>, claims: seq<Claim>, nodes: seq<string>) returns (v: View)
    ensures Publishes(v, DraPosts(slices, Uses(claims), nodes))
    ensures DraAddsUp(slices, nodes, v)
  {
    var consumed := AllocatedOf(claims);
    ghost var uses := Uses(claims);
    var rows: map<string, Figures>, count: nat := map[], 0;
    for k := 0 to |nodes|
      invariant Tallied(rows, DraPosts(slices, uses, nodes[..k]))
      invariant count == SumIf(DraPosts(slices, uses, nodes[..k]), Any()).devices
    {
      GatherNext(nodes, DraNodePosts(slices, uses), k);
      var devices := SlicesFor(slices, nodes[k]);
      CountDevices(devices, nodes[k], uses);
      SumJoins(DraPosts(slices, uses, nodes[..k]), DraPostsOf(devices, nodes[k], uses), Any());
      rows, count := AddDraDevices(devices, nodes[k], consumed, rows, count, uses, DraPosts(slices, uses, nodes[..k]));
    }
    assert nodes[..|nodes|] == nodes;
    v := Summarise(rows, count, DraPosts(slices, uses, nodes));
    PublishedAddsUp(slices, uses, nodes, v);
  }

  method Summarise(rows: map<string, Figures>, count: nat, ghost posts: seq<Post>) returns (v: View)
    requires Tallied(rows, posts) && count == SumIf(posts, Any()).devices
    ensures Publishes(v, posts)
  {
    RowsConserve(rows, posts);
    var memoryTotal, memoryHeld := AddRows(rows);
    var total := Figures(count, memoryTotal, 0, memoryHeld, 0);
    assert |rows| == |rows.Keys|;
    if |rows| == 1 {
      var m :| m in rows;
      SingleRow(rows, m);
      total := total.(computeTotal := rows[m].computeTotal, computeHeld := rows[m].computeHeld);
    } else if |rows| == 0 {
      assert rows == map[];
    }
    v := View(total, rows, |rows| <= 1);
  }

  // ----- the figures told from slices and claims

  /** Bytes in whole MiB, towards zero. */
  function InMiB(bytes: Option<int>): int {
    if bytes.None? then 0 else if bytes.value >= 0 then bytes.value / 1048576 else -((-bytes.value) / 1048576)
  }

  /** Everything that allocated claims take of the device with this key, result by result: compute, memory
      in whole MiB each, the number of results, and of those whose claim nobody has reserved. */
  function Granted(claims: seq<Claim>, key: string): Consumed {
    if claims == [] then Consumed(0, 0, 0, 0)
    else
      var c, before := claims[|claims| - 1], Granted(claims[..|claims| - 1], key);
      if c.grants.None? then before else AddGranted(before, c.grants.value, c.reserved, key)
  }

  function AddGranted(sum: Consumed, grants: seq<Grant>, reserved: bool, key: string): Consumed {
    if grants == [] then sum
    else
      AddGrant(AddGranted(sum, grants[..|grants| - 1], reserved, key), grants[|grants| - 1], reserved, key)
  }

  function AddGrant(sum: Consumed, g: Grant, reserved: bool, key: string): Consumed {
    if g.driver == "hami-core-gpu.project-hami.io" && g.pool + "/" + g.device == key then
      Consumed(sum.cores + (if g.cores.Some? then g.cores.value else 0), sum.memoryMiB + InMiB(g.memory),
               sum.claims + 1, sum.unreserved + (if reserved then 0 else 1))
    else sum
  }

  /** What the gate reads: all of it, over the devices. */
  function HeldOf(devices: seq<Device>, node: string, claims: seq<Claim>): Allocations {
    if devices == [] then Allocations(0, 0, 0, false)
    else
      var before := HeldOf(devices[..|devices| - 1], node, claims);
      var t := Granted(claims, node + "/" + devices[|devices| - 1].name);
      Allocations(before.consumers + t.claims, before.memoryMiB + t.memoryMiB, before.corePercent + t.cores,
                  before.inFlight || t.unreserved > 0)
  }

  lemma {:induction false} GrantsTaken(uses: seq<Use>, grants: seq<Grant>, reserved: bool, key: string)
    ensures TakenOf(uses + GrantUses(grants, reserved), key) == AddGranted(TakenOf(uses, key), grants, reserved, key)
  {
    if grants == [] {
      assert uses + GrantUses(grants, reserved) == uses;
    } else {
      var front, g := grants[..|grants| - 1], grants[|grants| - 1];
      GrantsTaken(uses, front, reserved, key);
      UsesWithOneMore(uses, grants, reserved);
      GrantTaken(uses + GrantUses(front, reserved), g, reserved, key);
    }
  }

  lemma UsesWithOneMore(uses: seq<Use>, grants: seq<Grant>, reserved: bool)
    requires grants != []
    ensures var front, g := grants[..|grants| - 1], grants[|grants| - 1];
            uses + GrantUses(grants, reserved) ==
            if g.driver == DRIVER then uses + GrantUses(front, reserved) + [UseOf(g, reserved)] else uses + GrantUses(front, reserved)
  {
  }

  lemma GrantTaken(uses: seq<Use>, g: Grant, reserved: bool, key: string)
    ensures AddGrant(TakenOf(uses, key), g, reserved, key) ==
            if g.driver == DRIVER then TakenOf(uses + [UseOf(g, reserved)], key) else TakenOf(uses, key)
  {
    TakenNext(uses, UseOf(g, reserved), key);
    AmountOf(g, reserved);
  }

  lemma AmountOf(g: Grant, reserved: bool)
    ensures Amount(UseOf(g, reserved)) ==
            Consumed(if g.cores.Some? then g.cores.value else 0, InMiB(g.memory), 1, if reserved then 0 else 1)
  {
  }

  lemma {:induction false} UsesAreGranted(claims: seq<Claim>, key: string)
    ensures TakenOf(Uses(claims), key) == Granted(claims, key)
  {
    if claims != [] {
      var front, c := claims[..|claims| - 1], claims[|claims| - 1];
      UsesAreGranted(front, key);
      if c.grants.Some? {
        GrantsTaken(Uses(front), c.grants.value, c.reserved, key);
      } else {
        assert Uses(claims) == Uses(front);
      }
    }
  }

  lemma {:induction false} ReadingIsHeld(devices: seq<Device>, node: string, claims: seq<Claim>)
    ensures AsReading(TakenOn(devices, node, Uses(claims))) == HeldOf(devices, node, claims)
  {
    if devices != [] {
      ReadingIsHeld(devices[..|devices| - 1], node, claims);
      UsesAreGranted(claims, node + "/" + devices[|devices| - 1].name);
    }
  }

  /** What one device counts for, if its model is picked: itself, its memory in whole MiB, its compute. */
  function OfDevice(d: Device, pick: string -> bool): DeviceSum {
    var model := if d.product.Some? && d.product.value != "" then d.product.value else "unknown";
    if pick(model) then DeviceSum(1, InMiB(d.memory), if d.cores.Some? then d.cores.value else 0) else DeviceSum(0, 0, 0)
  }

  function SumDevices(devices: seq<Device>, pick: string -> bool): DeviceSum {
    if devices == [] then DeviceSum(0, 0, 0)
    else SumOf(SumDevices(devices[..|devices| - 1], pick), OfDevice(devices[|devices| - 1], pick))
  }

  /** The devices that the driver's slices publish for the listed Nodes, Node by Node. */
  function ListedDevices(slices: seq<Slice>, nodes: seq<string>): seq<Device> {
    if nodes == [] then []
    else ListedDevices(slices, nodes[..|nodes| - 1]) + DevicesFor(slices, nodes[|nodes| - 1])
  }

  function DevicesFor(slices: seq<Slice>, node: string): seq<Device> {
    if slices == [] then []
    else
      var s := slices[|slices| - 1];
      DevicesFor(slices[..|slices| - 1], node) +
      (if s.driver == "hami-core-gpu.project-hami.io" && s.pool == node then s.devices else [])
  }

  /** The view's devices and memory are those of all published devices, each model's row is that of its
      own, and the compute total is theirs where there is at most one model, and zero otherwise. */
  ghost predicate DraAddsUp(slices: seq<Slice>, nodes: seq<string>, v: View) {
    var sum := SumDevices(ListedDevices(slices, nodes), Any());
    && v.total.devices == sum.count && v.total.memoryTotal == sum.memoryMiB
    && v.total.computeTotal == (if |v.rows| <= 1 then sum.corePercent else 0)
    && (v.homogeneous <==> |v.rows| <= 1)
    && (forall m :: m in v.rows ==> Matches(v.rows[m], SumDevices(ListedDevices(slices, nodes), Only(m))))
  }

  lemma {:induction false} PublishedFor(slices: seq<Slice>, node: string)
    ensures Published(slices, node) == DevicesFor(slices, node)
  {
    if slices != [] {
      PublishedFor(slices[..|slices| - 1], node);
    }
  }

  lemma {:induction false} SumDevicesJoins(a: seq<Device>, b: seq<Device>, pick: string -> bool)
    ensures SumDevices(a + b, pick) == SumOf(SumDevices(a, pick), SumDevices(b, pick))
  {
    if b == [] {
      assert a + b == a;
    } else {
      var front, last := b[..|b| - 1], b[|b| - 1];
      assert (a + b)[..|a + b| - 1] == a + front;
      SumDevicesJoins(a, front, pick);
      SumOfLaws(SumDevices(a, pick), SumDevices(front, pick), OfDevice(last, pick));
    }
  }

  lemma SumOfLaws(a: DeviceSum, b: DeviceSum, c: DeviceSum)
    ensures SumOf(SumOf(a, b), c) == SumOf(a, SumOf(b, c))
  {
  }

  lemma {:induction false} PostsAddUp(devices: seq<Device>, node: string, uses: seq<Use>, pick: string -> bool)
    ensures Matches(SumIf(DraPostsOf(devices, node, uses), pick), SumDevices(devices, pick))
  {
    if devices != [] {
      var front, d := devices[..|devices| - 1], devices[|devices| - 1];
      PostsAddUp(front, node, uses, pick);
      SumNext(DraPostsOf(front, node, uses), DevicePostOf(d, node, uses), pick);
    }
  }

  lemma {:induction false} AllAddUp(slices: seq<Slice>, uses: seq<Use>, nodes: seq<string>, pick: string -> bool)
    ensures Matches(SumIf(DraPosts(slices, uses, nodes), pick), SumDevices(ListedDevices(slices, nodes), pick))
  {
    if nodes != [] {
      var front, node := nodes[..|nodes| - 1], nodes[|nodes| - 1];
      AllAddUp(slices, uses, front, pick);
      PublishedFor(slices, node);
      PostsAddUp(DevicesFor(slices, node), node, uses, pick);
      JoinMatch(DraPosts(slices, uses, front), DraPostsOf(DevicesFor(slices, node), node, uses), pick,
                SumDevices(ListedDevices(slices, front), pick), SumDevices(DevicesFor(slices, node), pick));
      SumDevicesJoins(ListedDevices(slices, front), DevicesFor(slices, node), pick);
    }
  }

  lemma JoinMatch(a: seq<Post>, b: seq<Post>, pick: string -> bool, x: DeviceSum, y: DeviceSum)
    requires Matches(SumIf(a, pick), x) && Matches(SumIf(b, pick), y)
    ensures Matches(SumIf(a + b, pick), SumOf(x, y))
  {
    SumJoins(a, b, pick);
    PlusMatches(SumIf(a, pick), SumIf(b, pick), x, y);
  }

  lemma PlusMatches(f: Figures, g: Figures, x: DeviceSum, y: DeviceSum)
    requires Matches(f, x) && Matches(g, y)
    ensures Matches(f.Plus(g), SumOf(x, y))
  {
  }

  lemma PublishedAddsUp(slices: seq<Slice>, uses: seq<Use>, nodes: seq<string>, v: View)
    requires Publishes(v, DraPosts(slices, uses, nodes))
    ensures DraAddsUp(slices, nodes, v)
  {
    AllAddUp(slices, uses, nodes, Any());
    assert |v.rows| == |v.rows.Keys|;
    forall m | m in v.rows ensures Matches(v.rows[m], SumDevices(ListedDevices(slices, nodes), Only(m))) {
      AllAddUp(slices, uses, nodes, Only(m));
    }
  }

  // ----- agreement

  ghost function DraGateMemory(slices: seq<Slice>, uses: seq<Use>, nodes: seq<string>): int {
    if nodes == [] then 0
    else DraGateMemory(slices, uses, nodes[..|nodes| - 1]) + Reading(slices, uses, nodes[|nodes| - 1]).memoryMiB
  }

  ghost function DraGateCores(slices: seq<Slice>, uses: seq<Use>, nodes: seq<string>): int {
    if nodes == [] then 0
    else DraGateCores(slices, uses, nodes[..|nodes| - 1]) + Reading(slices, uses, nodes[|nodes| - 1]).corePercent
  }

  lemma {:induction false} NodeAgrees(devices: seq<Device>, node: string, uses: seq<Use>)
    ensures var f, t := SumIf(DraPostsOf(devices, node, uses), Any()), TakenOn(devices, node, uses);
            f.memoryHeld == t.memoryMiB && f.computeHeld == t.cores
  {
    if devices != [] {
      NodeAgrees(devices[..|devices| - 1], node, uses);
      SumNext(DraPostsOf(devices[..|devices| - 1], node, uses), DevicePostOf(devices[|devices| - 1], node, uses), Any());
    }
  }

  /** The two views agree: what the pool reports as held is the sum of the drain gate's readings. */
  lemma {:induction false} DraViewsAgree(slices: seq<Slice>, uses: seq<Use>, nodes: seq<string>)
    ensures SumIf(DraPosts(slices, uses, nodes), Any()).memoryHeld == DraGateMemory(slices, uses, nodes)
    ensures SumIf(DraPosts(slices, uses, nodes), Any()).computeHeld == DraGateCores(slices, uses, nodes)
  {
    if nodes != [] {
      var front, node := nodes[..|nodes| - 1], nodes[|nodes| - 1];
      DraViewsAgree(slices, uses, front);
      var devices := Published(slices, node);
      NodeAgrees(devices, node, uses);
      SumJoins(DraPosts(slices, uses, front), DraPostsOf(devices, node, uses), Any());
      assert DraPosts(slices, uses, nodes) == DraPosts(slices, uses, front) + DraPostsOf(devices, node, uses);
    }
  }

  /** The published figures: held memory is always the sum of the gate's readings, and held compute is
      exactly when the pool has at most one model or nothing holds compute. */
  lemma PublishedAgrees(v: View, slices: seq<Slice>, uses: seq<Use>, nodes: seq<string>)
    requires Publishes(v, DraPosts(slices, uses, nodes))
    ensures v.total.memoryHeld == DraGateMemory(slices, uses, nodes)
    ensures v.total.computeHeld == DraGateCores(slices, uses, nodes) <==>
            |Models(DraPosts(slices, uses, nodes))| <= 1 || DraGateCores(slices, uses, nodes) == 0
  {
    DraViewsAgree(slices, uses, nodes);
  }

  // ----- what the gate can see

  lemma {:induction false} TakenMeansUsed(uses: seq<Use>, key: string)
    ensures TakenOf(uses, key).claims > 0 <==> exists i :: 0 <= i < |uses| && uses[i].key == key
    ensures TakenOf(uses, key).unreserved <= TakenOf(uses, key).claims
  {
    if uses != [] {
      var front, last := uses[..|uses| - 1], uses[|uses| - 1];
      TakenMeansUsed(front, key);
      if TakenOf(front, key).claims > 0 {
        var i :| 0 <= i < |front| && front[i].key == key;
        assert uses[i].key == key;
      }
      if i :| 0 <= i < |uses| && uses[i].key == key {
        assert i < |front| ==> front[i].key == key;
      }
    }
  }

  lemma {:induction false} TakenOnNothing(devices: seq<Device>, node: string, uses: seq<Use>)
    ensures TakenOn(devices, node, uses).claims == 0 <==>
            forall j :: 0 <= j < |devices| ==> TakenOf(uses, Inventory.Key(node, devices[j].name)).claims == 0
    ensures TakenOn(devices, node, uses).unreserved <= TakenOn(devices, node, uses).claims
  {
    if devices != [] {
      var front, last := devices[..|devices| - 1], devices[|devices| - 1];
      TakenOnNothing(front, node, uses);
      TakenMeansUsed(uses, Inventory.Key(node, last.name));
      assert devices == front + [last];
    }
  }

  /** The gate reads empty exactly when no allocation names a device that the Node publishes now; a
      share too small to show as memory still counts. */
  lemma DraEmptyExactly(slices: seq<Slice>, uses: seq<Use>, node: string)
    ensures Reading(slices, uses, node).Empty() <==>
            forall i, j :: 0 <= i < |uses| && 0 <= j < |Published(slices, node)| ==>
                             uses[i].key != Inventory.Key(node, Published(slices, node)[j].name)
  {
    var devices := Published(slices, node);
    TakenOnNothing(devices, node, uses);
    forall j | 0 <= j < |devices|
      ensures TakenOf(uses, Inventory.Key(node, devices[j].name)).claims > 0 <==>
              exists i :: 0 <= i < |uses| && uses[i].key == Inventory.Key(node, devices[j].name) {
      TakenMeansUsed(uses, Inventory.Key(node, devices[j].name));
    }
  }

  /** An allocated claim holds a device of the Node. */
  ghost predicate HoldsOn(claims: seq<Claim>, node: string) {
    exists c, g :: c in claims && c.grants.Some? && g in c.grants.value && GrantOn(g, node)
  }

  predicate GrantOn(g: Grant, node: string) {
    g.driver == DRIVER && g.pool == node
  }

  /** Every device of the Node that a claim holds is published. */
  ghost predicate Visible(slices: seq<Slice>, claims: seq<Claim>, node: string) {
    forall c, g :: c in claims && c.grants.Some? && g in c.grants.value && GrantOn(g, node) ==>
      exists j :: 0 <= j < |Published(slices, node)| && Published(slices, node)[j].name == g.device
  }

  lemma {:induction false} GrantIsUsed(grants: seq<Grant>, reserved: bool, g: Grant)
    requires g in grants && g.driver == DRIVER
    ensures UseOf(g, reserved) in GrantUses(grants, reserved)
  {
    var front, last := grants[..|grants| - 1], grants[|grants| - 1];
    assert grants == front + [last];
    if g in front {
      GrantIsUsed(front, reserved, g);
    }
  }

  /** While every held device is published, an empty reading means that nothing is held. */
  lemma EmptyMeansFree(slices: seq<Slice>, claims: seq<Claim>, node: string)
    requires Visible(slices, claims, node) && Reading(slices, Uses(claims), node).Empty()
    ensures !HoldsOn(claims, node)
  {
    if HoldsOn(claims, node) {
      var c, g :| c in claims && c.grants.Some? && g in c.grants.value && GrantOn(g, node);
      var j :| 0 <= j < |Published(slices, node)| && Published(slices, node)[j].name == g.device;
      var u := UseOf(g, c.reserved);
      GrantIsUsed(c.grants.value, c.reserved, g);
      InGather(claims, ClaimUses, u);
      var i :| 0 <= i < |Uses(claims)| && Uses(claims)[i] == u;
      DraEmptyExactly(slices, Uses(claims), node);
      assert false;
    }
  }

  /** An allocated claim that the gate cannot see: its device's slice has been withdrawn. */
  lemma WithdrawnSliceHidesHold()
    ensures var claim := Claim(Some([Grant(DRIVER, "node", "gpu", Some(50), Some(MIB))]), true);
            var slice := Slice(DRIVER, "node", [Device("gpu", None, Some(100), Some(8 * MIB))]);
            && !Reading([slice], Uses([claim]), "node").Empty()
            && Reading([], Uses([claim]), "node").Empty()
  {
    var g := Grant(DRIVER, "node", "gpu", Some(50), Some(MIB));
    var claim := Claim(Some([g]), true);
    var d := Device("gpu", None, Some(100), Some(8 * MIB));
    var slice := Slice(DRIVER, "node", [d]);
    var u := UseOf(g, true);
    assert GrantUses([g], true) == GrantUses([g][..0], true) + [u] == [u];
    GatherNext([claim], ClaimUses, 0);
    assert [claim][..1] == [claim] && Uses([claim]) == [u];
    GatherNext([slice], DevicesOf("node"), 0);
    assert [slice][..1] == [slice] && Published([slice], "node") == [d];
    DraEmptyExactly([slice], [u], "node");
    DraEmptyExactly([], [u], "node");
    assert [u][0].key == Inventory.Key("node", [d][0].name);
    assert Published([], "node") == [];
  }

  // ----- rounding

  function Bytes(uses: seq<Use>, key: string): int {
    if uses == [] then 0
    else Bytes(uses[..|uses| - 1], key) + (if uses[|uses| - 1].key == key then uses[|uses| - 1].memory else 0)
  }

  function BytesOn(devices: seq<Device>, node: string, uses: seq<Use>): int {
    if devices == [] then 0
    else BytesOn(devices[..|devices| - 1], node, uses) + Bytes(uses, Inventory.Key(node, devices[|devices| - 1].name))
  }

  lemma RoundDown(bytes: int)
    requires bytes >= 0
    ensures MIB * WholeMiB(bytes) <= bytes <= MIB * WholeMiB(bytes) + (MIB - 1)
  {
  }

  lemma {:induction false} RoundingOfDevice(uses: seq<Use>, key: string)
    requires forall i :: 0 <= i < |uses| ==> uses[i].memory >= 0
    ensures var t := TakenOf(uses, key); MIB * t.memoryMiB <= Bytes(uses, key) <= MIB * t.memoryMiB + t.claims * (MIB - 1)
  {
    if uses != [] {
      RoundingOfDevice(uses[..|uses| - 1], key);
      RoundDown(uses[|uses| - 1].memory);
    }
  }

  /** Rounding each result down to whole MiB never over-reports a Node, and under-reports it by less
      than one MiB per result. */
  lemma {:induction false} RoundingIsBounded(devices: seq<Device>, node: string, uses: seq<Use>)
    requires forall i :: 0 <= i < |uses| ==> uses[i].memory >= 0
    ensures var t := TakenOn(devices, node, uses);
            MIB * t.memoryMiB <= BytesOn(devices, node, uses) <= MIB * t.memoryMiB + t.claims * (MIB - 1)
  {
    if devices != [] {
      RoundingIsBounded(devices[..|devices| - 1], node, uses);
      RoundingOfDevice(uses, Inventory.Key(node, devices[|devices| - 1].name));
    }
  }
}
