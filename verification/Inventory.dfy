/** The infrastructure cluster's free-GPU ledgers: devices published through dynamic resource
    allocation, and the native per-node ledger. */
module Inventory {
  import opened CellTypes
  import opened Sequences

  const DEFAULT_DRIVER := "gpu.kubeswift.io"

  datatype Counts = Counts(published: nat, ready: nat, allocatedDevices: nat, free: nat, known: bool)

  // ----- devices and claims

  /** `vfio` is `None` when the attribute is absent or not a boolean. */
  datatype Device = Device(name: string, vfio: Option<bool>)

  datatype Slice = Slice(driver: string, pool: string, devices: seq<Device>)

  /** One device an allocated claim was given. */
  datatype Grant = Grant(driver: string, pool: string, device: string)

  /** `None` is a claim nothing has been allocated to. */
  datatype Claim = Claim(grants: Option<seq<Grant>>)

  function DriverOr(driver: string): string {
    if driver == "" then DEFAULT_DRIVER else driver
  }

  function Key(pool: string, device: string): string {
    pool + "/" + device
  }

  /** Device names hold no slash, so a key names one device of one pool even though pool names
      may hold slashes. */
  lemma KeysIdentify(p: string, d: string, q: string, e: string)
    requires '/' !in d && '/' !in e
    ensures Key(p, d) == Key(q, e) <==> p == q && d == e
  {
    if Key(p, d) == Key(q, e) {
      var whole := Key(p, d);
      assert whole[|p|] == '/' && whole[|q|] == '/';
      assert forall i :: |p| < i < |whole| ==> whole[i] == d[i - |p| - 1];
      assert forall i :: |q| < i < |whole| ==> whole[i] == e[i - |q| - 1];
      assert |p| == |q|;
      assert p == whole[..|p|] && q == whole[..|q|];
      assert d == whole[|p| + 1..] && e == whole[|q| + 1..];
    }
  }

  predicate Usable(d: Device) {
    d.vfio == None || d.vfio.value
  }

  function ReadyNames(devices: seq<Device>, pool: string): (r: seq<string>)
    ensures |r| <= |devices|
  {
    if devices == [] then []
    else ReadyNames(devices[..|devices| - 1], pool) +
         (if Usable(devices[|devices| - 1]) then [Key(pool, devices[|devices| - 1].name)] else [])
  }

  function ReadyIn(driver: string): Slice -> seq<string> {
    (s: Slice) => if s.driver == driver then ReadyNames(s.devices, s.pool) else []
  }

  function DevicesIn(driver: string): Slice -> seq<Device> {
    (s: Slice) => if s.driver == driver then s.devices else []
  }

  function GrantKeys(grants: seq<Grant>, driver: string): seq<string> {
    if grants == [] then []
    else GrantKeys(grants[..|grants| - 1], driver) +
         (if grants[|grants| - 1].driver == driver
          then [Key(grants[|grants| - 1].pool, grants[|grants| - 1].device)] else [])
  }

  function HeldIn(driver: string): Claim -> seq<string> {
    (c: Claim) => if c.grants.Some? then GrantKeys(c.grants.value, driver) else []
  }

  /** The keys of the usable devices, once per publication. */
  function ReadyKeys(slices: seq<Slice>, driver: string): seq<string> {
    Gather(slices, ReadyIn(driver))
  }

  /** The keys allocated claims name, once per grant. */
  function HeldKeys(claims: seq<Claim>, driver: string): seq<string> {
    Gather(claims, HeldIn(driver))
  }

  function PublishedDevices(slices: seq<Slice>, driver: string): seq<Device> {
    Gather(slices, DevicesIn(driver))
  }

  /** The reference: usable devices that no allocated claim names. */
  function FreeSet(slices: seq<Slice>, claims: seq<Claim>, driver: string): set<string> {
    Elements(ReadyKeys(slices, driver)) - Elements(HeldKeys(claims, driver))
  }

  function TakenSet(slices: seq<Slice>, claims: seq<Claim>, driver: string): set<string> {
    Elements(ReadyKeys(slices, driver)) * Elements(HeldKeys(claims, driver))
  }

  lemma {:induction false} ReadyWithinPublished(slices: seq<Slice>, driver: string)
    ensures |ReadyKeys(slices, driver)| <= |PublishedDevices(slices, driver)|
  {
    if slices != [] {
      ReadyWithinPublished(slices[..|slices| - 1], driver);
    }
  }

  lemma TakenWithinReady(slices: seq<Slice>, claims: seq<Claim>, driver: string)
    ensures |TakenSet(slices, claims, driver)| <= |ReadyKeys(slices, driver)|
    ensures |FreeSet(slices, claims, driver)| + |TakenSet(slices, claims, driver)| == |Elements(ReadyKeys(slices, driver))|
  {
    var ready := Elements(ReadyKeys(slices, driver));
    ElementsCount(ReadyKeys(slices, driver));
    assert ready == FreeSet(slices, claims, driver) + TakenSet(slices, claims, driver);
  }

  /** The loop over one slice's devices. */
  method AddReady(s: Slice, ghost before: seq<string>, ready0: set<string>, n0: nat) returns (ready: set<string>, n: nat)
    requires ready0 == Elements(before) && n0 == |before|
    ensures ready == Elements(before + ReadyNames(s.devices, s.pool))
    ensures n == |before + ReadyNames(s.devices, s.pool)|
  {
    ready, n := ready0, n0;
    assert before + [] == before;
    for i := 0 to |s.devices|
      invariant ready == Elements(before + ReadyNames(s.devices[..i], s.pool))
      invariant n == |before + ReadyNames(s.devices[..i], s.pool)|
    {
      var d := s.devices[i];
      var vfio := if d.vfio.Some? then d.vfio.value else true;
      assert s.devices[..i + 1][..i] == s.devices[..i];
      ghost var had := before + ReadyNames(s.devices[..i], s.pool);
      if vfio {
        ElementsNext(had, Key(s.pool, d.name));
        assert before + ReadyNames(s.devices[..i + 1], s.pool) == had + [Key(s.pool, d.name)];
        ready := ready + {Key(s.pool, d.name)};
        n := n + 1;
      }
    }
    assert s.devices[..|s.devices|] == s.devices;
  }

  lemma HeldNext(grants: seq<Grant>, driver: string, before: seq<string>, i: nat)
    requires i < |grants|
    ensures Elements(before + GrantKeys(grants[..i + 1], driver)) ==
            Elements(before + GrantKeys(grants[..i], driver)) +
            (if grants[i].driver == driver then {Key(grants[i].pool, grants[i].device)} else {})
  {
    var had := before + GrantKeys(grants[..i], driver);
    assert grants[..i + 1][..i] == grants[..i];
    if grants[i].driver == driver {
      var key := Key(grants[i].pool, grants[i].device);
      assert before + GrantKeys(grants[..i + 1], driver) == had + [key];
      ElementsNext(had, key);
    } else {
      assert before + GrantKeys(grants[..i + 1], driver) == had;
    }
  }

  /** The loop over one allocated claim's grants. */
  method AddHeld(grants: seq<Grant>, driver: string, ready: set<string>, ghost before: seq<string>,
                 held0: set<string>, n0: nat) returns (held: set<string>, n: nat)
    requires held0 == ready * Elements(before) && n0 == |held0|
    ensures held == ready * Elements(before + GrantKeys(grants, driver)) && n == |held|
  {
    held, n := held0, n0;
    assert before + [] == before;
    for i := 0 to |grants|
      invariant held == ready * Elements(before + GrantKeys(grants[..i], driver)) && n == |held|
    {
      var g := grants[i];
      HeldNext(grants, driver, before, i);
      if g.driver != driver {
        continue;
      }
      var key := Key(g.pool, g.device);
      if key in ready && key !in held {
        held := held + {key};
        n := n + 1;
      }
    }
    assert grants[..|grants|] == grants;
  }

  /** The loop over the slices. */
  method CountReady(slices: seq<Slice>, driver: string) returns (published: nat, ready: set<string>, n: nat)
    ensures published == |PublishedDevices(slices, driver)|
    ensures ready == Elements(ReadyKeys(slices, driver)) && n == |ReadyKeys(slices, driver)|
  {
    published, ready, n := 0, {}, 0;
    assert Elements(ReadyKeys(slices[..0], driver)) == {};
    for i := 0 to |slices|
      invariant published == |PublishedDevices(slices[..i], driver)|
      invariant ready == Elements(ReadyKeys(slices[..i], driver)) && n == |ReadyKeys(slices[..i], driver)|
    {
      GatherNext(slices, ReadyIn(driver), i);
      GatherNext(slices, DevicesIn(driver), i);
      if slices[i].driver != driver {
        assert ReadyIn(driver)(slices[i]) == [] && DevicesIn(driver)(slices[i]) == [];
        continue;
      }
      published := published + |slices[i].devices|;
      ready, n := AddReady(slices[i], ReadyKeys(slices[..i], driver), ready, n);
    }
    assert slices[..|slices|] == slices;
  }

  /** The loop over the claims. */
  method CountHeld(claims: seq<Claim>, driver: string, ready: set<string>) returns (n: nat)
    ensures n == |ready * Elements(HeldKeys(claims, driver))|
  {
    var held: set<string> := {};
    n := 0;
    assert ready * Elements(HeldKeys(claims[..0], driver)) == {};
    for i := 0 to |claims|
      invariant held == ready * Elements(HeldKeys(claims[..i], driver)) && n == |held|
    {
      GatherNext(claims, HeldIn(driver), i);
      if claims[i].grants.None? {
        assert HeldIn(driver)(claims[i]) == [];
        continue;
      }
      held, n := AddHeld(claims[i].grants.value, driver, ready, HeldKeys(claims[..i], driver), held, n);
    }
    assert claims[..|claims|] == claims;
  }

  /** The count over both lists, each of which may be unreadable. It counts publications and usable
      publications, and the distinct usable devices that claims hold; the floor under `free` is never
      what decides it. */
  method FreeGPUs(slices: Option<seq<Slice>>, claims: Option<seq<Claim>>, driverName: string) returns (r: Option<Counts>)
    ensures r.Some? <==> slices.Some? && claims.Some?
    ensures r.Some? ==>
              var driver := DriverOr(driverName);
              && r.value.published == |PublishedDevices(slices.value, driver)|
              && r.value.ready == |ReadyKeys(slices.value, driver)|
              && r.value.allocatedDevices == |TakenSet(slices.value, claims.value, driver)|
              && r.value.allocatedDevices <= r.value.ready <= r.value.published
              && r.value.free == r.value.ready - r.value.allocatedDevices
              && (r.value.known <==> PublishedDevices(slices.value, driver) != [])
              && r.value.published == CountAll(slices.value, driver)
              && r.value.ready == CountUsable(slices.value, driver)
              && (driverName == "" ==> driver == "gpu.kubeswift.io") && (driverName != "" ==> driver == driverName)
  {
    var driver := if driverName == "" then DEFAULT_DRIVER else driverName;
    if slices.None? {
      return None;
    }
    var published, ready, n := CountReady(slices.value, driver);
    if claims.None? {
      return None;
    }
    var taken := CountHeld(claims.value, driver, ready);
    ReadyWithinPublished(slices.value, driver);
    PublishedCounted(slices.value, driver);
    TakenWithinReady(slices.value, claims.value, driver);
    var free: int := n - taken;
    if free < 0 {
      free := 0;
    }
    r := Some(Counts(published, n, taken, free, published > 0));
  }

  // ----- the counts told from slices and claims

  /** The driver's slices publish a device under this key that may be passed through: the attribute is
      absent or true. */
  predicate PublishedUsable(slices: seq<Slice>, driver: string, key: string) {
    exists i, j :: 0 <= i < |slices| && 0 <= j < |slices[i].devices| && slices[i].driver == driver
                   && slices[i].devices[j].vfio != Some(false) && slices[i].pool + "/" + slices[i].devices[j].name == key
  }

  /** An allocated claim names the key. */
  predicate ClaimedKey(claims: seq<Claim>, driver: string, key: string) {
    exists i, j :: 0 <= i < |claims| && claims[i].grants.Some? && 0 <= j < |claims[i].grants.value|
                   && claims[i].grants.value[j].driver == driver
                   && claims[i].grants.value[j].pool + "/" + claims[i].grants.value[j].device == key
  }

  /** The devices that the driver's slices publish. */
  function CountAll(slices: seq<Slice>, driver: string): nat {
    if slices == [] then 0
    else
      var s := slices[|slices| - 1];
      CountAll(slices[..|slices| - 1], driver) + if s.driver == driver then |s.devices| else 0
  }

  /** Those of them whose attribute is absent or true. */
  function CountUsable(slices: seq<Slice>, driver: string): nat {
    if slices == [] then 0
    else
      var s := slices[|slices| - 1];
      CountUsable(slices[..|slices| - 1], driver) +
      if s.driver == driver then |set j | 0 <= j < |s.devices| && s.devices[j].vfio != Some(false)| else 0
  }

  lemma {:induction false} NamesCounted(devices: seq<Device>, pool: string)
    ensures |ReadyNames(devices, pool)| == |set j | 0 <= j < |devices| && devices[j].vfio != Some(false)|
  {
    var usable := set j | 0 <= j < |devices| && devices[j].vfio != Some(false);
    if devices == [] {
      assert usable == {};
    } else {
      var front, last := devices[..|devices| - 1], |devices| - 1;
      NamesCounted(front, pool);
      assert usable == (set j | 0 <= j < |front| && front[j].vfio != Some(false)) + if devices[last].vfio != Some(false) then {last} else {};
    }
  }

  lemma {:induction false} PublishedCounted(slices: seq<Slice>, driver: string)
    ensures |PublishedDevices(slices, driver)| == CountAll(slices, driver)
    ensures |ReadyKeys(slices, driver)| == CountUsable(slices, driver)
  {
    if slices != [] {
      var s := slices[|slices| - 1];
      PublishedCounted(slices[..|slices| - 1], driver);
      NamesCounted(s.devices, s.pool);
    }
  }

  lemma {:induction false} NameReady(devices: seq<Device>, pool: string, key: string)
    ensures key in ReadyNames(devices, pool) <==>
            exists j :: 0 <= j < |devices| && devices[j].vfio != Some(false) && pool + "/" + devices[j].name == key
  {
    if devices != [] {
      var front := devices[..|devices| - 1];
      NameReady(front, pool, key);
      forall j | 0 <= j < |front| ensures front[j] == devices[j] {
      }
    }
  }

  lemma {:induction false} GrantNamed(grants: seq<Grant>, driver: string, key: string)
    ensures key in GrantKeys(grants, driver) <==>
            exists j :: 0 <= j < |grants| && grants[j].driver == driver && grants[j].pool + "/" + grants[j].device == key
  {
    if grants != [] {
      var front := grants[..|grants| - 1];
      GrantNamed(front, driver, key);
      forall j | 0 <= j < |front| ensures front[j] == grants[j] {
      }
    }
  }

  /** Ready and held are what they say: a key is ready if and only if a slice of the driver publishes its
      device with the attribute absent or true, and held if and only if an allocated claim names it. */
  lemma KeysExactly(slices: seq<Slice>, claims: seq<Claim>, driver: string, key: string)
    ensures key in Elements(ReadyKeys(slices, driver)) <==> PublishedUsable(slices, driver, key)
    ensures key in Elements(HeldKeys(claims, driver)) <==> ClaimedKey(claims, driver, key)
    ensures key in FreeSet(slices, claims, driver) <==> PublishedUsable(slices, driver, key) && !ClaimedKey(claims, driver, key)
  {
    ReadyKey(slices, driver, key);
    HeldKey(claims, driver, key);
  }

  lemma ReadyKey(slices: seq<Slice>, driver: string, key: string)
    ensures key in ReadyKeys(slices, driver) <==> PublishedUsable(slices, driver, key)
  {
    InGather(slices, ReadyIn(driver), key);
    forall i | 0 <= i < |slices| && slices[i].driver == driver
      ensures key in ReadyIn(driver)(slices[i]) <==>
              exists j :: 0 <= j < |slices[i].devices| && slices[i].devices[j].vfio != Some(false)
                          && slices[i].pool + "/" + slices[i].devices[j].name == key
    {
      NameReady(slices[i].devices, slices[i].pool, key);
    }
    if s :| s in slices && key in ReadyIn(driver)(s) {
      var i :| 0 <= i < |slices| && slices[i] == s;
    }
    if i, j :| 0 <= i < |slices| && 0 <= j < |slices[i].devices| && slices[i].driver == driver
               && slices[i].devices[j].vfio != Some(false) && slices[i].pool + "/" + slices[i].devices[j].name == key {
      assert slices[i] in slices;
    }
  }

  lemma HeldKey(claims: seq<Claim>, driver: string, key: string)
    ensures key in HeldKeys(claims, driver) <==> ClaimedKey(claims, driver, key)
  {
    InGather(claims, HeldIn(driver), key);
    forall i | 0 <= i < |claims| && claims[i].grants.Some?
      ensures key in HeldIn(driver)(claims[i]) <==>
              exists j :: 0 <= j < |claims[i].grants.value| && claims[i].grants.value[j].driver == driver
                          && claims[i].grants.value[j].pool + "/" + claims[i].grants.value[j].device == key
    {
      GrantNamed(claims[i].grants.value, driver, key);
    }
    if c :| c in claims && key in HeldIn(driver)(c) {
      var i :| 0 <= i < |claims| && claims[i] == c;
    }
    if i, j :| 0 <= i < |claims| && claims[i].grants.Some? && 0 <= j < |claims[i].grants.value|
               && claims[i].grants.value[j].driver == driver
               && claims[i].grants.value[j].pool + "/" + claims[i].grants.value[j].device == key {
      assert claims[i] in claims;
    }
  }

  /** The count FreeGPUs arrives at. */
  function FreeCount(slices: seq<Slice>, claims: seq<Claim>, driver: string): int {
    |ReadyKeys(slices, driver)| - |TakenSet(slices, claims, driver)|
  }

  /** The slices once one device is said to be unusable. */
  function Withdrawn(slices: seq<Slice>, i: nat, j: nat): seq<Slice>
    requires i < |slices| && j < |slices[i].devices|
  {
    var s := slices[i];
    slices[i := s.(devices := s.devices[j := s.devices[j].(vfio := Some(false))])]
  }

  lemma {:induction false} NamesJoin(a: seq<Device>, b: seq<Device>, pool: string)
    ensures ReadyNames(a + b, pool) == ReadyNames(a, pool) + ReadyNames(b, pool)
  {
    if b == [] {
      assert a + b == a;
    } else {
      assert (a + b)[..|a + b| - 1] == a + b[..|b| - 1];
      NamesJoin(a, b[..|b| - 1], pool);
    }
  }

  lemma NamesAround(devices: seq<Device>, j: nat, pool: string)
    requires j < |devices|
    ensures ReadyNames(devices, pool) ==
            ReadyNames(devices[..j], pool) + ReadyNames([devices[j]], pool) + ReadyNames(devices[j + 1..], pool)
  {
    assert devices == devices[..j] + [devices[j]] + devices[j + 1..];
    NamesJoin(devices[..j] + [devices[j]], devices[j + 1..], pool);
    NamesJoin(devices[..j], [devices[j]], pool);
  }

  /** Withdrawing a device takes one key out of the list, or none. */
  lemma NamesWithdrawn(devices: seq<Device>, j: nat, pool: string) returns (a: seq<string>, x: seq<string>, b: seq<string>)
    requires j < |devices|
    ensures |x| <= 1 && ReadyNames(devices, pool) == a + x + b
    ensures ReadyNames(devices[j := devices[j].(vfio := Some(false))], pool) == a + b
  {
    var after := devices[j := devices[j].(vfio := Some(false))];
    NamesAround(devices, j, pool);
    NamesAround(after, j, pool);
    assert after[..j] == devices[..j] && after[j + 1..] == devices[j + 1..];
    a, x, b := ReadyNames(devices[..j], pool), ReadyNames([devices[j]], pool), ReadyNames(devices[j + 1..], pool);
    assert [after[j]][..0] == [] && ReadyNames([after[j]], pool) == [];
    assert a + [] + b == a + b;
  }

  lemma GatherAround<T, U>(xs: seq<T>, i: nat, f: T -> seq<U>)
    requires i < |xs|
    ensures Gather(xs, f) == Gather(xs[..i], f) + f(xs[i]) + Gather(xs[i + 1..], f)
  {
    assert xs == xs[..i + 1] + xs[i + 1..];
    GatherJoins(xs[..i + 1], xs[i + 1..], f);
    GatherNext(xs, f, i);
  }

  lemma SliceWithdrawn(s: Slice, driver: string, j: nat) returns (a: seq<string>, x: seq<string>, b: seq<string>)
    requires j < |s.devices|
    ensures |x| <= 1 && ReadyIn(driver)(s) == a + x + b
    ensures ReadyIn(driver)(s.(devices := s.devices[j := s.devices[j].(vfio := Some(false))])) == a + b
  {
    a, x, b := [], [], [];
    if s.driver == driver {
      a, x, b := NamesWithdrawn(s.devices, j, s.pool);
    }
  }

  lemma KeysWithdrawn(slices: seq<Slice>, driver: string, i: nat, j: nat) returns (a: seq<string>, x: seq<string>, b: seq<string>)
    requires i < |slices| && j < |slices[i].devices|
    ensures |x| <= 1 && ReadyKeys(slices, driver) == a + x + b && ReadyKeys(Withdrawn(slices, i, j), driver) == a + b
  {
    var after := Withdrawn(slices, i, j);
    GatherAround(slices, i, ReadyIn(driver));
    GatherAround(after, i, ReadyIn(driver));
    assert after[..i] == slices[..i] && after[i + 1..] == slices[i + 1..];
    var before, rest := ReadyKeys(slices[..i], driver), ReadyKeys(slices[i + 1..], driver);
    var c, y, d := SliceWithdrawn(slices[i], driver, j);
    a, x, b := before + c, y, d + rest;
    Regroup(before, c, y, d, rest);
  }

  lemma Regroup(before: seq<string>, c: seq<string>, y: seq<string>, d: seq<string>, rest: seq<string>)
    ensures before + (c + y + d) + rest == before + c + y + (d + rest)
    ensures before + (c + d) + rest == before + c + (d + rest)
  {
  }

  /** Saying of a device that it is unusable never raises a count: as many are published, no more are
      ready, held or free. */
  lemma WithdrawingNeverAdds(slices: seq<Slice>, claims: seq<Claim>, driver: string, i: nat, j: nat)
    requires i < |slices| && j < |slices[i].devices|
    ensures var after := Withdrawn(slices, i, j);
            && |ReadyKeys(after, driver)| <= |ReadyKeys(slices, driver)|
            && |TakenSet(after, claims, driver)| <= |TakenSet(slices, claims, driver)|
            && FreeCount(after, claims, driver) <= FreeCount(slices, claims, driver)
            && |PublishedDevices(after, driver)| == |PublishedDevices(slices, driver)|
  {
    var a, x, b := KeysWithdrawn(slices, driver, i, j);
    OneKeyLess(a, x, b, Elements(HeldKeys(claims, driver)));
    SamePublished(slices, driver, i, j);
  }

  lemma SamePublished(slices: seq<Slice>, driver: string, i: nat, j: nat)
    requires i < |slices| && j < |slices[i].devices|
    ensures |PublishedDevices(Withdrawn(slices, i, j), driver)| == |PublishedDevices(slices, driver)|
  {
    var after := Withdrawn(slices, i, j);
    GatherAround(slices, i, DevicesIn(driver));
    GatherAround(after, i, DevicesIn(driver));
    assert after[..i] == slices[..i] && after[i + 1..] == slices[i + 1..];
  }

  lemma OneKeyLess(a: seq<string>, x: seq<string>, b: seq<string>, held: set<string>)
    requires |x| <= 1
    ensures |Elements(a + b) * held| <= |Elements(a + x + b) * held| <= |Elements(a + b) * held| + |x|
  {
    var less, all := Elements(a + b) * held, Elements(a + x + b) * held;
    forall k | k in less ensures k in all {
      assert k in a || k in b;
    }
    Fewer(less, all);
    if x == [] {
      assert a + x + b == a + b;
    } else {
      forall k | k in all ensures k in less + {x[0]} {
        assert k in a || k == x[0] || k in b;
      }
      Fewer(all, less + {x[0]});
    }
  }

  lemma Fewer(a: set<string>, b: set<string>)
    requires a <= b
    ensures |a| <= |b|
  {
    assert b == a + (b - a);
  }

  /** The count is the size of the set difference exactly when no usable device is published twice;
      every further publication of one device is counted as one more free GPU. */
  lemma FreeIsSetDifference(slices: seq<Slice>, claims: seq<Claim>, driver: string)
    ensures FreeCount(slices, claims, driver) ==
            |FreeSet(slices, claims, driver)| + (|ReadyKeys(slices, driver)| - |Elements(ReadyKeys(slices, driver))|)
    ensures FreeCount(slices, claims, driver) == |FreeSet(slices, claims, driver)| <==> NoRepeats(ReadyKeys(slices, driver))
    ensures FreeCount(slices, claims, driver) >= |FreeSet(slices, claims, driver)|
  {
    TakenWithinReady(slices, claims, driver);
    ElementsCount(ReadyKeys(slices, driver));
  }

  /** A held device published by two slices is still counted as free. */
  lemma RepublishedDeviceLooksFree()
    ensures var d := Device("gpu-0", None);
            var s := Slice(DEFAULT_DRIVER, "node", [d]);
            var c := Claim(Some([Grant(DEFAULT_DRIVER, "node", "gpu-0")]));
            FreeSet([s, s], [c], DEFAULT_DRIVER) == {} && FreeCount([s, s], [c], DEFAULT_DRIVER) == 1
  {
    var d := Device("gpu-0", None);
    var s := Slice(DEFAULT_DRIVER, "node", [d]);
    var g := Grant(DEFAULT_DRIVER, "node", "gpu-0");
    var c := Claim(Some([g]));
    var key := Key("node", "gpu-0");
    assert ReadyNames([d], "node") == ReadyNames([], "node") + [key] == [key];
    assert GrantKeys([g], DEFAULT_DRIVER) == GrantKeys([], DEFAULT_DRIVER) + [key] == [key];
    GatherNext([s, s], ReadyIn(DEFAULT_DRIVER), 0);
    GatherNext([s, s], ReadyIn(DEFAULT_DRIVER), 1);
    GatherNext([c], HeldIn(DEFAULT_DRIVER), 0);
    assert [s, s][..2] == [s, s] && [c][..1] == [c];
    assert ReadyKeys([s, s], DEFAULT_DRIVER) == [key, key];
    assert HeldKeys([c], DEFAULT_DRIVER) == [key];
    assert Elements([key, key]) == {key} && Elements([key]) == {key};
  }

  /** The counts depend on neither list's order, nor on how often a claim is listed. */
  lemma CountsIgnoreOrder(slices: seq<Slice>, reordered: seq<Slice>, claims: seq<Claim>, relisted: seq<Claim>, driver: string)
    requires multiset(slices) == multiset(reordered)
    requires Elements(claims) == Elements(relisted)
    ensures |PublishedDevices(slices, driver)| == |PublishedDevices(reordered, driver)|
    ensures |ReadyKeys(slices, driver)| == |ReadyKeys(reordered, driver)|
    ensures TakenSet(slices, claims, driver) == TakenSet(reordered, relisted, driver)
    ensures FreeCount(slices, claims, driver) == FreeCount(reordered, relisted, driver)
  {
    GatherReordered(slices, reordered, DevicesIn(driver));
    GatherReordered(slices, reordered, ReadyIn(driver));
    assert |multiset(ReadyKeys(slices, driver))| == |ReadyKeys(slices, driver)|;
    assert |multiset(ReadyKeys(reordered, driver))| == |ReadyKeys(reordered, driver)|;
    assert |multiset(PublishedDevices(slices, driver))| == |multiset(PublishedDevices(reordered, driver))|;
    forall k ensures k in HeldKeys(claims, driver) <==> k in HeldKeys(relisted, driver) {
      InGather(claims, HeldIn(driver), k);
      InGather(relisted, HeldIn(driver), k);
      assert forall c :: c in claims <==> c in Elements(claims);
      assert forall c :: c in relisted <==> c in Elements(relisted);
    }
    forall k ensures k in ReadyKeys(slices, driver) <==> k in ReadyKeys(reordered, driver) {
      assert k in ReadyKeys(slices, driver) <==> k in multiset(ReadyKeys(slices, driver));
      assert k in ReadyKeys(reordered, driver) <==> k in multiset(ReadyKeys(reordered, driver));
    }
    assert Elements(ReadyKeys(slices, driver)) == Elements(ReadyKeys(reordered, driver));
    assert Elements(HeldKeys(claims, driver)) == Elements(HeldKeys(relisted, driver));
  }

  // ----- the native ledger

  /** Fields that are absent or of the wrong kind are `None`. */
  datatype Gpu = Gpu(model: Option<string>, taken: Option<bool>)

  /** A Node of the ledger; an entry that is not an object is `None`. */
  datatype LedgerNode = LedgerNode(vfio: Option<bool>, gpus: Option<seq<Option<Gpu>>>)

  datatype Ledger = NotInstalled | Unreadable | Listed(nodes: seq<LedgerNode>)

  /** One device of the ledger with its Node's flag. */
  datatype Entry = Entry(vfio: bool, gpu: Gpu)

  predicate PartAt(text: string, part: string, k: nat) {
    k + |part| <= |text| && text[k..k + |part|] == part
  }

  predicate Contains(text: string, part: string) {
    exists k :: 0 <= k <= |text| && PartAt(text, part, k)
  }

  predicate Matches(e: Entry, model: string) {
    model == "" || (e.gpu.model.Some? && Contains(e.gpu.model.value, model))
  }

  predicate Taken(e: Entry) {
    e.gpu.taken == Some(true)
  }

  function EntriesOf(gpus: seq<Option<Gpu>>, vfio: bool): seq<Entry> {
    if gpus == [] then []
    else EntriesOf(gpus[..|gpus| - 1], vfio) +
         (if gpus[|gpus| - 1].Some? then [Entry(vfio, gpus[|gpus| - 1].value)] else [])
  }

  function NodeEntries(n: LedgerNode): seq<Entry> {
    if n.gpus.None? then [] else EntriesOf(n.gpus.value, n.vfio == None || n.vfio.value)
  }

  function Entries(nodes: seq<LedgerNode>): seq<Entry> {
    Gather(nodes, NodeEntries)
  }

  function Publishes(model: string): Entry -> bool { (e: Entry) => Matches(e, model) }
  function Backs(model: string): Entry -> bool { (e: Entry) => Matches(e, model) && e.vfio }

  /** A device the allocator could give the pool now. */
  function Available(model: string): Entry -> bool { (e: Entry) => Matches(e, model) && e.vfio && !Taken(e) }

  /** The ledger's running counters. */
  datatype Tally = Tally(total: nat, published: nat, ready: nat, occupied: nat)

  function AddEntry(t: Tally, e: Entry, model: string): Tally {
    if !Matches(e, model) then t.(total := t.total + 1)
    else if !e.vfio then t.(total := t.total + 1, published := t.published + 1)
    else Tally(t.total + 1, t.published + 1, t.ready + 1, t.occupied + (if Taken(e) then 1 else 0))
  }

  function TallyOf(es: seq<Entry>, model: string): Tally {
    if es == [] then Tally(0, 0, 0, 0) else AddEntry(TallyOf(es[..|es| - 1], model), es[|es| - 1], model)
  }

  lemma TallyNext(es: seq<Entry>, e: Entry, model: string)
    ensures TallyOf(es + [e], model) == AddEntry(TallyOf(es, model), e, model)
  {
    assert (es + [e])[..|es|] == es;
  }

  /** The running counters count what they are named for. */
  lemma {:induction false} TallyCounts(es: seq<Entry>, model: string)
    ensures var t := TallyOf(es, model);
            && t.total == |es| && t.published == CountIf(es, Publishes(model)) && t.ready == CountIf(es, Backs(model))
            && t.ready == t.occupied + CountIf(es, Available(model)) && t.ready <= t.published
  {
    if es != [] {
      TallyCounts(es[..|es| - 1], model);
    }
  }

  lemma EntriesNext(gpus: seq<Option<Gpu>>, vfio: bool, model: string, before: seq<Entry>, i: nat)
    requires i < |gpus|
    ensures var t := TallyOf(before + EntriesOf(gpus[..i], vfio), model);
            TallyOf(before + EntriesOf(gpus[..i + 1], vfio), model) ==
            if gpus[i].None? then t else AddEntry(t, Entry(vfio, gpus[i].value), model)
  {
    assert gpus[..i + 1][..i] == gpus[..i];
    var had := before + EntriesOf(gpus[..i], vfio);
    if gpus[i].None? {
      assert EntriesOf(gpus[..i + 1], vfio) == EntriesOf(gpus[..i], vfio);
    } else {
      var e := Entry(vfio, gpus[i].value);
      assert before + EntriesOf(gpus[..i + 1], vfio) == had + [e];
      TallyNext(had, e, model);
    }
  }

  /** The body of the loop over a Node's devices. */
  method CountGpu(gpu: Gpu, vfio: bool, model: string, t0: Tally) returns (t: Tally)
    ensures t == AddEntry(t0, Entry(vfio, gpu), model)
  {
    t := t0.(total := t0.total + 1);
    if model != "" {
      if gpu.model.None? || !Contains(gpu.model.value, model) {
        return;
      }
    }
    t := t.(published := t.published + 1);
    if !vfio {
      return;
    }
    t := t.(ready := t.ready + 1);
    if gpu.taken.Some? && gpu.taken.value {
      t := t.(occupied := t.occupied + 1);
    }
  }

  /** The loop over one Node's devices. */
  method AddGpus(gpus: seq<Option<Gpu>>, vfio: bool, model: string, ghost before: seq<Entry>, t0: Tally) returns (t: Tally)
    requires t0 == TallyOf(before, model)
    ensures t == TallyOf(before + EntriesOf(gpus, vfio), model)
  {
    t := t0;
    assert before + [] == before;
    for i := 0 to |gpus|
      invariant t == TallyOf(before + EntriesOf(gpus[..i], vfio), model)
    {
      EntriesNext(gpus, vfio, model, before, i);
      if gpus[i].None? {
        continue;
      }
      t := CountGpu(gpus[i].value, vfio, model, t);
    }
    assert gpus[..|gpus|] == gpus;
  }

  /** The ledger's count: the devices matching the model, on a Node that can pass them through and
      not allocated. A ledger that is not installed is unknown, not full. */
  method FreeGPUsNative(ledger: Ledger, model: string) returns (r: Option<Counts>)
    ensures r.None? <==> ledger.Unreadable?
    ensures ledger.NotInstalled? ==> r == Some(Counts(0, 0, 0, 0, false))
    ensures ledger.Listed? ==>
              var es := Entries(ledger.nodes);
              && r.value.published == CountIf(es, Publishes(model))
              && r.value.ready == CountIf(es, Backs(model))
              && r.value.free == CountIf(es, Available(model))
              && r.value.allocatedDevices + r.value.free == r.value.ready <= r.value.published
              && (r.value.known <==> es != [])
              && r.value.published == NativeCount(ledger.nodes, model, false, false)
              && r.value.ready == NativeCount(ledger.nodes, model, true, false)
              && r.value.free == NativeCount(ledger.nodes, model, true, true)
              && (r.value.known <==> NativeCount(ledger.nodes, "", false, false) > 0)
  {
    match ledger
    case NotInstalled => return Some(Counts(0, 0, 0, 0, false));
    case Unreadable => return None;
    case Listed(nodes) =>
      var t := Tally(0, 0, 0, 0);
      for i := 0 to |nodes|
        invariant t == TallyOf(Entries(nodes[..i]), model)
      {
        GatherNext(nodes, NodeEntries, i);
        var n := nodes[i];
        var vfio := if n.vfio.Some? then n.vfio.value else true;
        if n.gpus.None? {
          assert Entries(nodes[..i + 1]) == Entries(nodes[..i]);
          continue;
        }
        t := AddGpus(n.gpus.value, vfio, model, Entries(nodes[..i]), t);
      }
      assert nodes[..|nodes|] == nodes;
      TallyCounts(Entries(nodes), model);
      LedgerCounts(nodes, model);
      LedgerCounts(nodes, "");
      CountEvery(Entries(nodes));
      var free: int := t.ready - t.occupied;
      if free < 0 {
        free := 0;
      }
      r := Some(Counts(t.published, t.ready, t.occupied, free, t.total > 0));
  }

  /** The devices of a Node that match the model; all of them, or those not allocated. */
  function Matching(gpus: seq<Option<Gpu>>, model: string, free: bool): set<int> {
    set j | 0 <= j < |gpus| && Picked(gpus[j], model, free)
  }

  predicate Picked(gpu: Option<Gpu>, model: string, free: bool) {
    && gpu.Some? && (free ==> gpu.value.taken != Some(true))
    && (model == "" || (gpu.value.model.Some? && Contains(gpu.value.model.value, model)))
  }

  /** Such devices in the whole ledger; on all Nodes, or on those whose flag is absent or true. */
  function NativeCount(nodes: seq<LedgerNode>, model: string, flagged: bool, free: bool): nat {
    if nodes == [] then 0
    else
      var n := nodes[|nodes| - 1];
      NativeCount(nodes[..|nodes| - 1], model, flagged, free) +
      if (flagged ==> n.vfio != Some(false)) && n.gpus.Some? then |Matching(n.gpus.value, model, free)| else 0
  }

  function Selects(model: string, flagged: bool, free: bool): Entry -> bool {
    (e: Entry) => Matches(e, model) && (flagged ==> e.vfio) && (free ==> !Taken(e))
  }

  lemma {:induction false} CountSame<T(!new)>(xs: seq<T>, p: T -> bool, q: T -> bool)
    requires forall x :: p(x) == q(x)
    ensures CountIf(xs, p) == CountIf(xs, q)
  {
    if xs != [] {
      CountSame(xs[..|xs| - 1], p, q);
    }
  }

  lemma {:induction false} CountJoins<T>(a: seq<T>, b: seq<T>, p: T -> bool)
    ensures CountIf(a + b, p) == CountIf(a, p) + CountIf(b, p)
  {
    if b == [] {
      assert a + b == a;
    } else {
      assert (a + b)[..|a + b| - 1] == a + b[..|b| - 1];
      CountJoins(a, b[..|b| - 1], p);
    }
  }

  lemma {:induction false} CountOnNode(gpus: seq<Option<Gpu>>, vfio: bool, model: string, flagged: bool, free: bool)
    ensures CountIf(EntriesOf(gpus, vfio), Selects(model, flagged, free)) == if flagged ==> vfio then |Matching(gpus, model, free)| else 0
  {
    if gpus == [] {
      assert Matching(gpus, model, free) == {};
    } else {
      CountOnNode(gpus[..|gpus| - 1], vfio, model, flagged, free);
      EntryNext(gpus[..|gpus| - 1], gpus[|gpus| - 1], vfio, Selects(model, flagged, free));
      MatchingNext(gpus, model, free);
      PickedIsSelected(gpus[|gpus| - 1], vfio, model, flagged, free);
      LastSplits(gpus);
    }
  }

  lemma EntryNext(gpus: seq<Option<Gpu>>, g: Option<Gpu>, vfio: bool, p: Entry -> bool)
    ensures CountIf(EntriesOf(gpus + [g], vfio), p) ==
            CountIf(EntriesOf(gpus, vfio), p) + if g.Some? && p(Entry(vfio, g.value)) then 1 else 0
  {
    assert (gpus + [g])[..|gpus|] == gpus;
    if g.Some? {
      var e := Entry(vfio, g.value);
      CountJoins(EntriesOf(gpus, vfio), [e], p);
      assert [e][..0] == [];
    } else {
      assert EntriesOf(gpus + [g], vfio) == EntriesOf(gpus, vfio);
    }
  }

  lemma PickedIsSelected(g: Option<Gpu>, vfio: bool, model: string, flagged: bool, free: bool)
    ensures g.Some? ==> (Selects(model, flagged, free)(Entry(vfio, g.value)) <==> (flagged ==> vfio) && Picked(g, model, free))
  {
  }

  lemma MatchingNext(gpus: seq<Option<Gpu>>, model: string, free: bool)
    requires gpus != []
    ensures |Matching(gpus, model, free)| ==
            |Matching(gpus[..|gpus| - 1], model, free)| + if Picked(gpus[|gpus| - 1], model, free) then 1 else 0
  {
    var k := |gpus| - 1;
    assert Matching(gpus, model, free) == Matching(gpus[..k], model, free) + if Picked(gpus[k], model, free) then {k} else {};
  }

  lemma {:induction false} CountEntries(nodes: seq<LedgerNode>, model: string, flagged: bool, free: bool)
    ensures CountIf(Entries(nodes), Selects(model, flagged, free)) == NativeCount(nodes, model, flagged, free)
  {
    if nodes != [] {
      var front, n := nodes[..|nodes| - 1], nodes[|nodes| - 1];
      CountEntries(front, model, flagged, free);
      CountJoins(Entries(front), NodeEntries(n), Selects(model, flagged, free));
      if n.gpus.Some? {
        CountOnNode(n.gpus.value, n.vfio == None || n.vfio.value, model, flagged, free);
      }
    }
  }

  /** The ledger's counts told from the ledger. */
  lemma LedgerCounts(nodes: seq<LedgerNode>, model: string)
    ensures CountIf(Entries(nodes), Publishes(model)) == NativeCount(nodes, model, false, false)
    ensures CountIf(Entries(nodes), Backs(model)) == NativeCount(nodes, model, true, false)
    ensures CountIf(Entries(nodes), Available(model)) == NativeCount(nodes, model, true, true)
  {
    CountEntries(nodes, model, false, false);
    CountEntries(nodes, model, true, false);
    CountEntries(nodes, model, true, true);
    CountSame(Entries(nodes), Publishes(model), Selects(model, false, false));
    CountSame(Entries(nodes), Backs(model), Selects(model, true, false));
    CountSame(Entries(nodes), Available(model), Selects(model, true, true));
  }

  lemma {:induction false} CountEvery(es: seq<Entry>)
    ensures CountIf(es, Publishes("")) == |es|
  {
    if es != [] {
      CountEvery(es[..|es| - 1]);
    }
  }

  /** Saying of a Node that it cannot pass devices through never raises a count. */
  lemma {:induction false} NodeFlagNeverAdds(nodes: seq<LedgerNode>, model: string, flagged: bool, free: bool, i: nat)
    requires i < |nodes|
    ensures NativeCount(nodes[i := nodes[i].(vfio := Some(false))], model, flagged, free) <= NativeCount(nodes, model, flagged, free)
  {
    var front, after := nodes[..|nodes| - 1], nodes[i := nodes[i].(vfio := Some(false))];
    if i < |front| {
      NodeFlagNeverAdds(front, model, flagged, free, i);
      assert after[..|nodes| - 1] == front[i := front[i].(vfio := Some(false))];
    } else {
      assert after[..|nodes| - 1] == front;
    }
  }

  lemma ContainsTransitive(text: string, middle: string, part: string)
    requires Contains(text, middle) && Contains(middle, part)
    ensures Contains(text, part)
  {
    var i :| 0 <= i <= |text| && PartAt(text, middle, i);
    var j :| 0 <= j <= |middle| && PartAt(middle, part, j);
    assert i + j + |part| <= |text|;
    forall m | 0 <= m < |part| ensures text[i + j + m] == part[m] {
      assert middle[j + m] == middle[j..j + |part|][m];
      assert text[i + (j + m)] == text[i..i + |middle|][j + m];
    }
    assert text[i + j..i + j + |part|] == part;
    assert PartAt(text, part, i + j);
  }

  /** A narrower model never finds more: neither filtering at all nor lengthening the filter raises
      the count, and neither changes whether the ledger is known. */
  lemma {:induction false} FilterNeverAdds(es: seq<Entry>, wide: string, narrow: string)
    requires Contains(narrow, wide)
    ensures CountIf(es, Available(narrow)) <= CountIf(es, Available(wide))
  {
    if es != [] {
      FilterNeverAdds(es[..|es| - 1], wide, narrow);
      var e := es[|es| - 1];
      if Matches(e, narrow) && wide != "" {
        assert narrow != "";
        ContainsTransitive(e.gpu.model.value, narrow, wide);
      }
    }
  }

  /** What the empty count, the one that stalls a pool, means: no device of the ledger could back
      a cell. */
  lemma {:induction false} NoneAvailable(es: seq<Entry>, model: string)
    ensures CountIf(es, Available(model)) == 0 <==>
            forall e :: e in es && Matches(e, model) && e.vfio ==> Taken(e)
  {
    if es != [] {
      NoneAvailable(es[..|es| - 1], model);
      assert es == es[..|es| - 1] + [es[|es| - 1]];
    }
  }
}
