/** The pool-wide capacity view in device-plugin mode: totals and per-model rows computed from the
    Nodes' device registrations and from what their pods hold. */
module Capacity {
  import opened CellTypes
  import opened Shares
  import opened Sequences

  /** The numbers of a total or of one model's row. */
  datatype Figures = Figures(devices: int, memoryTotal: int, computeTotal: int, memoryHeld: int, computeHeld: int) {
    function Plus(that: Figures): Figures {
      Figures(devices + that.devices, memoryTotal + that.memoryTotal, computeTotal + that.computeTotal,
              memoryHeld + that.memoryHeld, computeHeld + that.computeHeld)
    }
  }

  const NOTHING := Figures(0, 0, 0, 0, 0)

  /** A contribution to one model's row. */
  datatype Post = Post(model: string, amount: Figures)

  function Any(): string -> bool { (x: string) => true }
  function Only(s: string): string -> bool { (x: string) => x == s }
  function Among(s: set<string>): string -> bool { (x: string) => x in s }

  /** The sum of the contributions whose model is picked. */
  function SumIf(posts: seq<Post>, pick: string -> bool): Figures {
    if posts == [] then NOTHING
    else
      var before := SumIf(posts[..|posts| - 1], pick);
      if pick(posts[|posts| - 1].model) then before.Plus(posts[|posts| - 1].amount) else before
  }

  lemma SumNext(posts: seq<Post>, p: Post, pick: string -> bool)
    ensures SumIf(posts + [p], pick) == if pick(p.model) then SumIf(posts, pick).Plus(p.amount) else SumIf(posts, pick)
  {
    assert (posts + [p])[..|posts|] == posts;
  }

  lemma {:induction false} SumJoins(a: seq<Post>, b: seq<Post>, pick: string -> bool)
    ensures SumIf(a + b, pick) == SumIf(a, pick).Plus(SumIf(b, pick))
  {
    if b == [] {
      assert a + b == a;
    } else {
      assert (a + b)[..|a + b| - 1] == a + b[..|b| - 1];
      SumJoins(a, b[..|b| - 1], pick);
    }
  }

  lemma PlusLaws(a: Figures, b: Figures, x: Figures)
    ensures a.Plus(b).Plus(x) == a.Plus(x).Plus(b) == a.Plus(b.Plus(x))
  {
  }

  /** Disjoint picks add up. */
  lemma {:induction false} SumSplits(posts: seq<Post>, p: string -> bool, q: string -> bool, either: string -> bool)
    requires forall m :: (either(m) <==> p(m) || q(m)) && !(p(m) && q(m))
    ensures SumIf(posts, either) == SumIf(posts, p).Plus(SumIf(posts, q))
  {
    if posts != [] {
      var front, last := posts[..|posts| - 1], posts[|posts| - 1];
      SumSplits(front, p, q, either);
      if p(last.model) {
        assert SumIf(posts, q) == SumIf(front, q);
      } else {
        assert SumIf(posts, p) == SumIf(front, p);
      }
    }
  }

  lemma {:induction false} SumNone(posts: seq<Post>, pick: string -> bool)
    requires forall i :: 0 <= i < |posts| ==> !pick(posts[i].model)
    ensures SumIf(posts, pick) == NOTHING
  {
    if posts != [] {
      SumNone(posts[..|posts| - 1], pick);
    }
  }

  lemma {:induction false} SumAllPicked(posts: seq<Post>, pick: string -> bool)
    requires forall i :: 0 <= i < |posts| ==> pick(posts[i].model)
    ensures SumIf(posts, pick) == SumIf(posts, Any())
  {
    if posts != [] {
      SumAllPicked(posts[..|posts| - 1], pick);
    }
  }

  // ----- rows by model

  function Models(posts: seq<Post>): set<string> {
    set p | p in posts :: p.model
  }

  lemma ModelsJoin(a: seq<Post>, b: seq<Post>)
    ensures Models(a + b) == Models(a) + Models(b)
  {
    assert forall p :: p in a + b <==> p in a || p in b;
  }

  /** The rows are the contributions, model by model. */
  ghost predicate Tallied(rows: map<string, Figures>, posts: seq<Post>) {
    && rows.Keys == Models(posts)
    && forall m :: m in rows ==> rows[m] == SumIf(posts, Only(m))
  }

  function PostTo(rows: map<string, Figures>, p: Post): map<string, Figures> {
    rows[p.model := (if p.model in rows then rows[p.model] else NOTHING).Plus(p.amount)]
  }

  lemma PostKeepsTally(rows: map<string, Figures>, posts: seq<Post>, p: Post)
    requires Tallied(rows, posts)
    ensures Tallied(PostTo(rows, p), posts + [p])
  {
    ModelsJoin(posts, [p]);
    assert Models([p]) == {p.model};
    var r := PostTo(rows, p);
    forall m | m in r ensures r[m] == SumIf(posts + [p], Only(m)) {
      SumNext(posts, p, Only(m));
      if m !in rows {
        forall i | 0 <= i < |posts| ensures posts[i].model != m {
          assert posts[i] in posts && posts[i].model in Models(posts);
        }
        SumNone(posts, Only(m));
      }
    }
  }

  /** The sum of all rows, in any order. */
  ghost function SumRows(rows: map<string, Figures>): Figures
    decreases |rows|
  {
    if rows == map[] then NOTHING
    else
      var m :| m in rows;
      rows[m].Plus(SumRows(rows - {m}))
  }

  lemma SumWithout(posts: seq<Post>, models: set<string>, m: string)
    requires m in models
    ensures SumIf(posts, Among(models)) == SumIf(posts, Only(m)).Plus(SumIf(posts, Among(models - {m})))
  {
    SumSplits(posts, Only(m), Among(models - {m}), Among(models));
  }

  lemma {:induction false} RowsSum(rows: map<string, Figures>, posts: seq<Post>)
    requires forall m :: m in rows ==> rows[m] == SumIf(posts, Only(m))
    ensures SumRows(rows) == SumIf(posts, Among(rows.Keys))
    decreases |rows|
  {
    if rows == map[] {
      SumNone(posts, Among({}));
    } else {
      var m :| m in rows && SumRows(rows) == rows[m].Plus(SumRows(rows - {m}));
      var rest := rows - {m};
      RowsSum(rest, posts);
      SumWithout(posts, rows.Keys, m);
      assert rest.Keys == rows.Keys - {m};
    }
  }

  /** Rows lose nothing: together they are all contributions. */
  lemma RowsConserve(rows: map<string, Figures>, posts: seq<Post>)
    requires Tallied(rows, posts)
    ensures SumRows(rows) == SumIf(posts, Any())
  {
    RowsSum(rows, posts);
    forall i | 0 <= i < |posts| ensures posts[i].model in rows {
      assert posts[i] in posts && posts[i].model in Models(posts);
    }
    SumAllPicked(posts, Among(rows.Keys));
  }

  // ----- registrations

  datatype Gpu = Gpu(uuid: string, memoryMiB: int, corePercent: int, model: string, healthy: bool)

  /** What a read of one Node's registration can give. `Unreadable` covers a failed read and an
      annotation that does not parse. */
  datatype Registration = NoNode | NotRegistered | Unreadable | Registered(gpus: seq<Gpu>)

  datatype Cluster = Cluster(nodes: map<string, Registration>, pods: seq<Pod>) {
    function At(name: string): Registration {
      if name in nodes then nodes[name] else NoNode
    }

    /** The devices registered on a Node. */
    function Gpus(name: string): seq<Gpu> {
      match At(name) case Registered(gpus) => gpus case _ => []
    }

    /** What the pods of a registered Node hold. */
    function SharesAt(name: string): seq<Share> {
      if At(name).Registered? then HeldOn(pods, name) else []
    }
  }

  function DevicePost(g: Gpu): Post {
    Post(g.model, Figures(1, g.memoryMiB, g.corePercent, 0, 0))
  }

  function DevicePosts(gpus: seq<Gpu>): seq<Post> {
    if gpus == [] then []
    else DevicePosts(gpus[..|gpus| - 1]) + (if gpus[|gpus| - 1].healthy then [DevicePost(gpus[|gpus| - 1])] else [])
  }

  /** The model registered last for a device; an unknown device has the empty model. */
  function ModelOf(gpus: seq<Gpu>, uuid: string): string {
    if gpus == [] then ""
    else if gpus[|gpus| - 1].uuid == uuid then gpus[|gpus| - 1].model
    else ModelOf(gpus[..|gpus| - 1], uuid)
  }

  function Held(s: Share): Figures {
    Figures(0, 0, 0, s.memoryMiB, s.corePercent)
  }

  function SharePosts(gpus: seq<Gpu>, shares: seq<Share>): (r: seq<Post>)
    ensures |r| == |shares|
    ensures forall i :: 0 <= i < |shares| ==> r[i] == Post(ModelOf(gpus, shares[i].uuid), Held(shares[i]))
  {
    seq(|shares|, i requires 0 <= i < |shares| => Post(ModelOf(gpus, shares[i].uuid), Held(shares[i])))
  }

  /** The contributions to models that have a row. */
  function Keep(posts: seq<Post>, models: set<string>): seq<Post> {
    if posts == [] then []
    else Keep(posts[..|posts| - 1], models) + (if posts[|posts| - 1].model in models then [posts[|posts| - 1]] else [])
  }

  lemma {:induction false} KeepSums(posts: seq<Post>, models: set<string>, m: string)
    ensures SumIf(Keep(posts, models), Only(m)) == if m in models then SumIf(posts, Only(m)) else NOTHING
    ensures SumIf(Keep(posts, models), Any()) == SumIf(posts, Among(models))
    ensures Models(Keep(posts, models)) <= models
  {
    if posts != [] {
      var front, p := posts[..|posts| - 1], posts[|posts| - 1];
      KeepSums(front, models, m);
      if p.model in models {
        SumNext(Keep(front, models), p, Only(m));
        SumNext(Keep(front, models), p, Any());
        ModelsJoin(Keep(front, models), [p]);
      } else {
        assert Keep(posts, models) == Keep(front, models);
      }
    }
  }

  lemma {:induction false} KeepAll(posts: seq<Post>, models: set<string>)
    ensures |Keep(posts, models)| <= |posts|
    ensures Keep(posts, models) == posts <==> Models(posts) <= models
  {
    if posts != [] {
      var front, p := posts[..|posts| - 1], posts[|posts| - 1];
      KeepAll(front, models);
      assert posts == front + [p];
      ModelsJoin(front, [p]);
      assert Models([p]) == {p.model};
      if p.model in models && Keep(posts, models) == posts {
        assert Keep(front, models) == Keep(posts, models)[..|posts| - 1] == front;
      }
    }
  }

  function NodeDevices(c: Cluster): string -> seq<Post> {
    (name: string) => DevicePosts(c.Gpus(name))
  }

  function NodeShares(c: Cluster): string -> seq<Post> {
    (name: string) => SharePosts(c.Gpus(name), c.SharesAt(name))
  }

  /** All that a Node contributes: its healthy devices and what its pods hold. */
  function NodePosts(c: Cluster): string -> seq<Post> {
    (name: string) => NodeDevices(c)(name) + NodeShares(c)(name)
  }

  /** Everything the listed Nodes contribute to the totals. */
  function AllPosts(c: Cluster, names: seq<string>): seq<Post> {
    Gather(names, NodePosts(c))
  }

  /** The models with a healthy device on the listed Nodes. */
  function Seen(c: Cluster, names: seq<string>): set<string> {
    Models(Gather(names, NodeDevices(c)))
  }

  /** What the listed Nodes contribute to rows: a share counts only if its model has a row by the
      time its Node is reached. */
  function RowPosts(c: Cluster, names: seq<string>): seq<Post> {
    if names == [] then []
    else
      var name := names[|names| - 1];
      RowPosts(c, names[..|names| - 1]) + (NodeDevices(c)(name) + Keep(NodeShares(c)(name), Seen(c, names)))
  }

  /** What one more Node adds. */
  lemma NodeNext(c: Cluster, names: seq<string>, name: string)
    ensures AllPosts(c, names + [name]) == AllPosts(c, names) + (NodeDevices(c)(name) + NodeShares(c)(name))
    ensures Seen(c, names + [name]) == Seen(c, names) + Models(NodeDevices(c)(name))
    ensures RowPosts(c, names + [name]) ==
            RowPosts(c, names) + (NodeDevices(c)(name) + Keep(NodeShares(c)(name), Seen(c, names + [name])))
  {
    assert (names + [name])[..|names|] == names;
    ModelsJoin(Gather(names, NodeDevices(c)), NodeDevices(c)(name));
  }

  // ----- attributing what is held

  /** What is held of the picked devices. */
  function SumShares(shares: seq<Share>, pick: string -> bool): Figures {
    if shares == [] then NOTHING
    else
      var before := SumShares(shares[..|shares| - 1], pick);
      if pick(shares[|shares| - 1].uuid) then before.Plus(Held(shares[|shares| - 1])) else before
  }

  lemma {:induction false} BreakdownEntry(shares: seq<Share>, uuid: string)
    ensures uuid in ByUuid(shares) ==> Held(ByUuid(shares)[uuid]) == SumShares(shares, Only(uuid))
    ensures uuid !in ByUuid(shares) ==> SumShares(shares, Only(uuid)) == NOTHING
    ensures forall i :: 0 <= i < |shares| ==> shares[i].uuid in ByUuid(shares)
  {
    if shares != [] {
      var front, last := shares[..|shares| - 1], shares[|shares| - 1];
      BreakdownEntry(front, uuid);
      forall i | 0 <= i < |shares| ensures shares[i].uuid in ByUuid(shares) {
        assert i < |front| ==> front[i] == shares[i];
      }
    }
  }

  /** The devices of one model among those already attributed. */
  function DoneOf(gpus: seq<Gpu>, m: string, done: set<string>): string -> bool {
    (u: string) => u in done && ModelOf(gpus, u) == m
  }

  lemma {:induction false} AttributeOne(gpus: seq<Gpu>, shares: seq<Share>, m: string, done: set<string>, u: string)
    requires u !in done
    ensures SumShares(shares, DoneOf(gpus, m, done + {u})) ==
            var before := SumShares(shares, DoneOf(gpus, m, done));
            if ModelOf(gpus, u) == m then before.Plus(SumShares(shares, Only(u))) else before
  {
    if shares != [] {
      AttributeOne(gpus, shares[..|shares| - 1], m, done, u);
    }
  }

  lemma {:induction false} AttributeNone(gpus: seq<Gpu>, shares: seq<Share>, m: string)
    ensures SumShares(shares, DoneOf(gpus, m, {})) == NOTHING
  {
    if shares != [] {
      AttributeNone(gpus, shares[..|shares| - 1], m);
    }
  }

  lemma {:induction false} AttributeAll(gpus: seq<Gpu>, shares: seq<Share>, m: string, done: set<string>)
    requires forall i :: 0 <= i < |shares| ==> shares[i].uuid in done
    ensures SumShares(shares, DoneOf(gpus, m, done)) == SumIf(SharePosts(gpus, shares), Only(m))
  {
    if shares != [] {
      AttributeAll(gpus, shares[..|shares| - 1], m, done);
      assert SharePosts(gpus, shares)[..|shares| - 1] == SharePosts(gpus, shares[..|shares| - 1]);
    }
  }

  /** The loop that indexes a Node's devices. */
  method IndexModels(gpus: seq<Gpu>) returns (modelOf: map<string, string>)
    ensures forall u :: (if u in modelOf then modelOf[u] else "") == ModelOf(gpus, u)
  {
    modelOf := map[];
    for i := 0 to |gpus|
      invariant forall u :: (if u in modelOf then modelOf[u] else "") == ModelOf(gpus[..i], u)
    {
      assert gpus[..i + 1][..i] == gpus[..i];
      modelOf := modelOf[gpus[i].uuid := gpus[i].model];
    }
    assert gpus[..|gpus|] == gpus;
  }

  /** The loop over a Node's per-device breakdown, in whatever order the map gives it: every share
      goes to its model's row, and is dropped if there is none. */
  method Attribute(rows0: map<string, Figures>, gpus: seq<Gpu>, byUuid: map<string, Share>, ghost shares: seq<Share>)
    returns (rows: map<string, Figures>)
    requires byUuid == ByUuid(shares)
    ensures rows.Keys == rows0.Keys
    ensures forall m :: m in rows ==> rows[m] == rows0[m].Plus(SumIf(SharePosts(gpus, shares), Only(m)))
  {
    rows := rows0;
    var modelOf := IndexModels(gpus);
    var rest := byUuid.Keys;
    ghost var done: set<string> := {};
    forall m ensures SumShares(shares, DoneOf(gpus, m, {})) == NOTHING {
      AttributeNone(gpus, shares, m);
    }
    while rest != {}
      invariant rest !! done && rest + done == byUuid.Keys && rows.Keys == rows0.Keys
      invariant PartlyAttributed(rows0, rows, gpus, shares, done)
      decreases rest
    {
      var u :| u in rest;
      var model := if u in modelOf then modelOf[u] else "";
      AttributeStep(rows0, rows, gpus, shares, done, u);
      rows := Credit(rows, model, Held(byUuid[u]));
      done := done + {u};
      rest := rest - {u};
    }
    BreakdownEntry(shares, "");
    forall m | m in rows ensures rows[m] == rows0[m].Plus(SumIf(SharePosts(gpus, shares), Only(m))) {
      AttributeAll(gpus, shares, m, done);
    }
  }

  /** An amount goes to its model's row, or nowhere if there is none. */
  function Credit(rows: map<string, Figures>, model: string, amount: Figures): (r: map<string, Figures>)
    ensures r.Keys == rows.Keys
  {
    if model in rows then rows[model := rows[model].Plus(amount)] else rows
  }

  ghost predicate PartlyAttributed(rows0: map<string, Figures>, rows: map<string, Figures>, gpus: seq<Gpu>, shares: seq<Share>, done: set<string>)
    requires rows.Keys == rows0.Keys
  {
    forall m :: m in rows ==> rows[m] == rows0[m].Plus(SumShares(shares, DoneOf(gpus, m, done)))
  }

  lemma AttributeStep(rows0: map<string, Figures>, rows: map<string, Figures>, gpus: seq<Gpu>, shares: seq<Share>, done: set<string>, u: string)
    requires rows.Keys == rows0.Keys && u !in done && u in ByUuid(shares)
    requires PartlyAttributed(rows0, rows, gpus, shares, done)
    ensures PartlyAttributed(rows0, Credit(rows, ModelOf(gpus, u), Held(ByUuid(shares)[u])), gpus, shares, done + {u})
  {
    var after := Credit(rows, ModelOf(gpus, u), Held(ByUuid(shares)[u]));
    forall m | m in after ensures after[m] == rows0[m].Plus(SumShares(shares, DoneOf(gpus, m, done + {u}))) {
      var x := SumShares(shares, Only(u));
      BreakdownEntry(shares, u);
      AttributeOne(gpus, shares, m, done, u);
      assert rows[m] == rows0[m].Plus(SumShares(shares, DoneOf(gpus, m, done)));
      if m == ModelOf(gpus, u) {
        assert after[m] == rows[m].Plus(x);
        PlusLaws(rows0[m], SumShares(shares, DoneOf(gpus, m, done)), x);
      } else {
        assert after[m] == rows[m];
      }
    }
  }

  /** The loop over a Node's healthy devices. */
  method AddDevices(gpus: seq<Gpu>, rows0: map<string, Figures>, total0: Figures, ghost posts: seq<Post>)
    returns (rows: map<string, Figures>, total: Figures)
    requires Tallied(rows0, posts)
    ensures Tallied(rows, posts + DevicePosts(gpus))
    ensures total == total0.Plus(SumIf(DevicePosts(gpus), Any()))
  {
    rows, total := rows0, total0;
    NoDevicesYet(gpus, posts);
    for i := 0 to |gpus|
      invariant Entered(gpus[..i], posts, total0, rows, total)
    {
      PrefixNext(gpus, i);
      if !gpus[i].healthy {
        SickDevice(gpus[..i], gpus[i]);
        continue;
      }
      EnterDevice(gpus[..i], gpus[i], posts, total0, rows, total);
      rows, total := CountDevice(gpus[i], rows, total);
    }
    assert gpus[..|gpus|] == gpus;
  }

  /** The body of that loop: one device more in its model's row and in the total. */
  method CountDevice(d: Gpu, rows0: map<string, Figures>, total0: Figures) returns (rows: map<string, Figures>, total: Figures)
    ensures rows == PostTo(rows0, DevicePost(d)) && total == total0.Plus(DevicePost(d).amount)
  {
    var m := if d.model in rows0 then rows0[d.model] else NOTHING;
    m := m.(devices := m.devices + 1, memoryTotal := m.memoryTotal + d.memoryMiB, computeTotal := m.computeTotal + d.corePercent);
    rows := rows0[d.model := m];
    total := total0.(devices := total0.devices + 1, memoryTotal := total0.memoryTotal + d.memoryMiB,
    computeTotal := total0.computeTotal + d.corePercent);
  }

  /** The devices have been entered on top of the earlier contributions. */
  ghost predicate Entered(gpus: seq<Gpu>, posts: seq<Post>, total0: Figures, rows: map<string, Figures>, total: Figures) {
    Tallied(rows, posts + DevicePosts(gpus)) && total == total0.Plus(SumIf(DevicePosts(gpus), Any()))
  }

  lemma NoDevicesYet(gpus: seq<Gpu>, posts: seq<Post>)
    ensures DevicePosts(gpus[..0]) == [] && posts + DevicePosts(gpus[..0]) == posts
  {
  }

  lemma SickDevice(gpus: seq<Gpu>, g: Gpu)
    requires !g.healthy
    ensures DevicePosts(gpus + [g]) == DevicePosts(gpus)
  {
    assert (gpus + [g])[..|gpus|] == gpus;
  }

  lemma EnterDevice(gpus: seq<Gpu>, g: Gpu, posts: seq<Post>, total0: Figures, rows: map<string, Figures>, total: Figures)
    requires g.healthy && Entered(gpus, posts, total0, rows, total)
    ensures Entered(gpus + [g], posts, total0, PostTo(rows, DevicePost(g)), total.Plus(DevicePost(g).amount))
  {
    var p := DevicePost(g);
    assert (gpus + [g])[..|gpus|] == gpus;
    assert posts + DevicePosts(gpus + [g]) == posts + DevicePosts(gpus) + [p];
    PostKeepsTally(rows, posts + DevicePosts(gpus), p);
    SumNext(DevicePosts(gpus), p, Any());
    PlusLaws(total0, SumIf(DevicePosts(gpus), Any()), p.amount);
  }

  // ----- the view

  datatype View = View(total: Figures, rows: map<string, Figures>, homogeneous: bool)

  /** The read of one Node gives an answer. */
  predicate Answers(c: Cluster, name: string) {
    !c.At(name).Unreadable? && (c.At(name).Registered? ==> ReadableOn(c.pods, name))
  }

  lemma {:induction false} SharesTotal(gpus: seq<Gpu>, shares: seq<Share>)
    ensures SumIf(SharePosts(gpus, shares), Any()) == Figures(0, 0, 0, SumMemory(shares), SumCores(shares))
  {
    if shares != [] {
      SharesTotal(gpus, shares[..|shares| - 1]);
      assert SharePosts(gpus, shares)[..|shares| - 1] == SharePosts(gpus, shares[..|shares| - 1]);
    }
  }

  /** One registered Node's part of the pass over the pool. */
  method AddNode(c: Cluster, name: string, gpus: seq<Gpu>, rows0: map<string, Figures>, total0: Figures, ghost posts: seq<Post>)
    returns (ok: bool, rows: map<string, Figures>, total: Figures)
    requires Tallied(rows0, posts)
    ensures ok == ReadableOn(c.pods, name)
    ensures ok ==> var shares := SharePosts(gpus, HeldOn(c.pods, name));
                   && rows.Keys == rows0.Keys + Models(DevicePosts(gpus))
                   && Tallied(rows, posts + (DevicePosts(gpus) + Keep(shares, rows.Keys)))
                   && total == total0.Plus(SumIf(DevicePosts(gpus) + shares, Any()))
  {
    ghost var shares := HeldOn(c.pods, name);
    rows, total := AddDevices(gpus, rows0, total0, posts);
    var reading := NodeAllocations(c.pods, name);
    if reading.None? {
      ok := false;
      return;
    }
    ok := true;
    ModelsJoin(posts, DevicePosts(gpus));
    NodeTotal(gpus, shares, total0);
    AddHeld(total, reading.value.held.memoryMiB, reading.value.held.corePercent);
    total := total.(memoryHeld := total.memoryHeld + reading.value.held.memoryMiB,
    computeHeld := total.computeHeld + reading.value.held.corePercent);
    ghost var before := rows;
    rows := Attribute(rows, gpus, reading.value.byUuid, shares);
    KeptWithDevices(before, rows, posts, DevicePosts(gpus), SharePosts(gpus, shares));
  }

  lemma KeptWithDevices(before: map<string, Figures>, rows: map<string, Figures>, posts: seq<Post>, devices: seq<Post>, shares: seq<Post>)
    requires Tallied(before, posts + devices) && rows.Keys == before.Keys
    requires forall m :: m in rows ==> rows[m] == before[m].Plus(SumIf(shares, Only(m)))
    ensures Tallied(rows, posts + (devices + Keep(shares, rows.Keys)))
  {
    KeptTally(before, rows, posts + devices, shares);
    assert posts + devices + Keep(shares, rows.Keys) == posts + (devices + Keep(shares, rows.Keys));
  }

  lemma NodeTotal(gpus: seq<Gpu>, shares: seq<Share>, total0: Figures)
    ensures total0.Plus(SumIf(DevicePosts(gpus), Any())).Plus(Figures(0, 0, 0, SumMemory(shares), SumCores(shares))) ==
            total0.Plus(SumIf(DevicePosts(gpus) + SharePosts(gpus, shares), Any()))
  {
    SumJoins(DevicePosts(gpus), SharePosts(gpus, shares), Any());
    SharesTotal(gpus, shares);
    PlusLaws(total0, SumIf(DevicePosts(gpus), Any()), Figures(0, 0, 0, SumMemory(shares), SumCores(shares)));
  }

  lemma AddHeld(total: Figures, memory: int, cores: int)
    ensures total.(memoryHeld := total.memoryHeld + memory, computeHeld := total.computeHeld + cores) ==
            total.Plus(Figures(0, 0, 0, memory, cores))
  {
  }

  lemma KeptTally(before: map<string, Figures>, rows: map<string, Figures>, posts: seq<Post>, shares: seq<Post>)
    requires Tallied(before, posts) && rows.Keys == before.Keys
    requires forall m :: m in rows ==> rows[m] == before[m].Plus(SumIf(shares, Only(m)))
    ensures Tallied(rows, posts + Keep(shares, before.Keys))
  {
    ModelsJoin(posts, Keep(shares, before.Keys));
    KeepSums(shares, before.Keys, "");
    forall m | m in rows ensures rows[m] == SumIf(posts + Keep(shares, before.Keys), Only(m)) {
      SumJoins(posts, Keep(shares, before.Keys), Only(m));
      KeepSums(shares, before.Keys, m);
    }
  }

  /** Totals and rows cover exactly the listed Nodes. */
  ghost predicate Summed(c: Cluster, names: seq<string>, rows: map<string, Figures>, total: Figures) {
    && total == SumIf(AllPosts(c, names), Any())
    && Tallied(rows, RowPosts(c, names))
    && rows.Keys == Seen(c, names)
  }

  /** The body of the loop over the Nodes. */
  method Visit(c: Cluster, ghost names: seq<string>, name: string, rows0: map<string, Figures>, total0: Figures)
    returns (ok: bool, rows: map<string, Figures>, total: Figures)
    requires Summed(c, names, rows0, total0)
    ensures ok == Answers(c, name)
    ensures ok ==> Summed(c, names + [name], rows, total)
  {
    ok, rows, total := true, rows0, total0;
    NodeNext(c, names, name);
    match c.At(name)
    case NoNode =>
      NothingAdded(c, names, name);
    case NotRegistered =>
      NothingAdded(c, names, name);
    case Unreadable =>
      ok := false;
    case Registered(gpus) =>
      SumJoins(AllPosts(c, names), NodePosts(c)(name), Any());
      ok, rows, total := AddNode(c, name, gpus, rows, total, RowPosts(c, names));
  }

  lemma NothingAdded(c: Cluster, names: seq<string>, name: string)
    requires !c.At(name).Registered?
    ensures RowPosts(c, names + [name]) == RowPosts(c, names)
    ensures Seen(c, names + [name]) == Seen(c, names)
    ensures AllPosts(c, names + [name]) == AllPosts(c, names)
  {
    NodeNext(c, names, name);
    assert NodeDevices(c)(name) == [] && NodeShares(c)(name) == [];
  }

  lemma NothingSummed(c: Cluster, names: seq<string>)
    ensures Summed(c, names[..0], map[], NOTHING)
  {
    assert names[..0] == [];
  }

  /** The pool-wide view. It fails exactly when some listed Node cannot be read; otherwise the totals
      are all contributions and each row is its own model's. */
  method PoolCapacity(c: Cluster, names: seq<string>) returns (r: Option<View>)
    ensures r.Some? <==> forall k :: 0 <= k < |names| ==> Answers(c, names[k])
    ensures r.Some? ==>
              && Summed(c, names, r.value.rows, r.value.total)
              && (r.value.homogeneous <==> |Seen(c, names)| <= 1)
              && AddsUp(c, names, r.value)
  {
    var rows: map<string, Figures>, total := map[], NOTHING;
    NothingSummed(c, names);
    for k := 0 to |names|
      invariant Progress(c, names, k, rows, total)
    {
      var ok;
      ok, rows, total := Advance(c, names, k, rows, total);
      if !ok {
        return None;
      }
    }
    assert names[..|names|] == names;
    r := Some(View(total, rows, |rows| <= 1));
    ViewAddsUp(c, names, r.value);
  }

  ghost predicate Progress(c: Cluster, names: seq<string>, k: nat, rows: map<string, Figures>, total: Figures)
    requires k <= |names|
  {
    (forall j :: 0 <= j < k ==> Answers(c, names[j])) && Summed(c, names[..k], rows, total)
  }

  method Advance(c: Cluster, names: seq<string>, k: nat, rows0: map<string, Figures>, total0: Figures)
    returns (ok: bool, rows: map<string, Figures>, total: Figures)
    requires k < |names| && Progress(c, names, k, rows0, total0)
    ensures ok == Answers(c, names[k])
    ensures ok ==> Progress(c, names, k + 1, rows, total)
  {
    PrefixNext(names, k);
    ok, rows, total := Visit(c, names[..k], names[k], rows0, total0);
  }

  // ----- the figures told from the devices

  /** What devices add up to. */
  datatype DeviceSum = DeviceSum(count: int, memoryMiB: int, corePercent: int)

  /** The healthy devices of the picked models: how many, and their memory and compute. */
  function Healthy(gpus: seq<Gpu>, pick: string -> bool): DeviceSum {
    if gpus == [] then DeviceSum(0, 0, 0)
    else
      var g, rest := gpus[0], Healthy(gpus[1..], pick);
      if g.healthy && pick(g.model) then DeviceSum(rest.count + 1, rest.memoryMiB + g.memoryMiB, rest.corePercent + g.corePercent)
      else rest
  }

  /** The devices registered on the listed Nodes, Node by Node. */
  function ListedGpus(c: Cluster, names: seq<string>): seq<Gpu> {
    if names == [] then []
    else
      var name := names[0];
      (if name in c.nodes && c.nodes[name].Registered? then c.nodes[name].gpus else []) + ListedGpus(c, names[1..])
  }

  predicate Matches(f: Figures, sum: DeviceSum) {
    f.devices == sum.count && f.memoryTotal == sum.memoryMiB && f.computeTotal == sum.corePercent
  }

  /** The view's devices and totals are those of the healthy devices registered on the listed Nodes, and
      each model's row is that of its own; a model has a row if and only if it has such a device. */
  ghost predicate AddsUp(c: Cluster, names: seq<string>, v: View) {
    var gpus := ListedGpus(c, names);
    && Matches(v.total, Healthy(gpus, Any()))
    && (forall m :: m in v.rows ==> Matches(v.rows[m], Healthy(gpus, Only(m))))
    && (forall m :: m in v.rows <==> exists i :: 0 <= i < |gpus| && gpus[i].healthy && gpus[i].model == m)
  }

  function SumOf(a: DeviceSum, b: DeviceSum): DeviceSum {
    DeviceSum(a.count + b.count, a.memoryMiB + b.memoryMiB, a.corePercent + b.corePercent)
  }

  lemma {:induction false} HealthyJoins(a: seq<Gpu>, b: seq<Gpu>, pick: string -> bool)
    ensures Healthy(a + b, pick) == SumOf(Healthy(a, pick), Healthy(b, pick))
  {
    if a == [] {
      assert a + b == b;
    } else {
      assert (a + b)[1..] == a[1..] + b;
      HealthyJoins(a[1..], b, pick);
    }
  }

  lemma {:induction false} PostsMatch(gpus: seq<Gpu>, pick: string -> bool)
    ensures Matches(SumIf(DevicePosts(gpus), pick), Healthy(gpus, pick))
  {
    if gpus != [] {
      var front, g := gpus[..|gpus| - 1], gpus[|gpus| - 1];
      PostsMatch(front, pick);
      LastSplits(gpus);
      HealthyJoins(front, [g], pick);
      assert [g][1..] == [];
      if g.healthy {
        SumNext(DevicePosts(front), DevicePost(g), pick);
      } else {
        assert DevicePosts(gpus) == DevicePosts(front);
      }
    }
  }

  lemma {:induction false} ListedJoins(c: Cluster, names: seq<string>, name: string)
    ensures ListedGpus(c, names + [name]) == ListedGpus(c, names) + c.Gpus(name)
  {
    if names == [] {
      assert names + [name] == [name] && [name][1..] == [];
    } else {
      assert (names + [name])[1..] == names[1..] + [name];
      ListedJoins(c, names[1..], name);
    }
  }

  /** Totals: shares hold no devices, so what counts is the devices. */
  lemma {:induction false} TotalsMatch(c: Cluster, names: seq<string>)
    ensures Matches(SumIf(AllPosts(c, names), Any()), Healthy(ListedGpus(c, names), Any()))
  {
    if names != [] {
      TotalsMatch(c, names[..|names| - 1]);
      TotalsNext(c, names[..|names| - 1], names[|names| - 1]);
      LastSplits(names);
    }
  }

  lemma TotalsNext(c: Cluster, names: seq<string>, name: string)
    requires Matches(SumIf(AllPosts(c, names), Any()), Healthy(ListedGpus(c, names), Any()))
    ensures Matches(SumIf(AllPosts(c, names + [name]), Any()), Healthy(ListedGpus(c, names + [name]), Any()))
  {
    SharesHoldOnly(c.Gpus(name), c.SharesAt(name), Any());
    NodeMatches(c, name, AllPosts(c, names), NodeShares(c)(name), Any(), Healthy(ListedGpus(c, names), Any()));
    NodeNext(c, names, name);
    GpusNext(c, names, name, Any());
  }

  lemma NodeMatches(c: Cluster, name: string, before: seq<Post>, shares: seq<Post>, pick: string -> bool, sum: DeviceSum)
    requires Matches(SumIf(before, pick), sum) && Matches(SumIf(shares, pick), DeviceSum(0, 0, 0))
    ensures Matches(SumIf(before + (NodeDevices(c)(name) + shares), pick), SumOf(sum, Healthy(c.Gpus(name), pick)))
  {
    PostsMatch(c.Gpus(name), pick);
    PartsMatch(before, DevicePosts(c.Gpus(name)), shares, pick, sum, Healthy(c.Gpus(name), pick));
  }

  lemma PartsMatch(before: seq<Post>, devices: seq<Post>, shares: seq<Post>, pick: string -> bool, sum: DeviceSum, more: DeviceSum)
    requires Matches(SumIf(before, pick), sum) && Matches(SumIf(devices, pick), more) && Matches(SumIf(shares, pick), DeviceSum(0, 0, 0))
    ensures Matches(SumIf(before + (devices + shares), pick), SumOf(sum, more))
  {
    SumJoins(before, devices + shares, pick);
    SumJoins(devices, shares, pick);
  }

  lemma GpusNext(c: Cluster, names: seq<string>, name: string, pick: string -> bool)
    ensures Healthy(ListedGpus(c, names + [name]), pick) == SumOf(Healthy(ListedGpus(c, names), pick), Healthy(c.Gpus(name), pick))
  {
    ListedJoins(c, names, name);
    HealthyJoins(ListedGpus(c, names), c.Gpus(name), pick);
  }

  lemma {:induction false} RowsMatch(c: Cluster, names: seq<string>, m: string)
    ensures Matches(SumIf(RowPosts(c, names), Only(m)), Healthy(ListedGpus(c, names), Only(m)))
  {
    if names != [] {
      RowsMatch(c, names[..|names| - 1], m);
      RowsNext(c, names[..|names| - 1], names[|names| - 1], m);
      LastSplits(names);
    }
  }

  lemma RowsNext(c: Cluster, names: seq<string>, name: string, m: string)
    requires Matches(SumIf(RowPosts(c, names), Only(m)), Healthy(ListedGpus(c, names), Only(m)))
    ensures Matches(SumIf(RowPosts(c, names + [name]), Only(m)), Healthy(ListedGpus(c, names + [name]), Only(m)))
  {
    KeepSums(NodeShares(c)(name), Seen(c, names + [name]), m);
    SharesHoldOnly(c.Gpus(name), c.SharesAt(name), Only(m));
    NodeMatches(c, name, RowPosts(c, names), Keep(NodeShares(c)(name), Seen(c, names + [name])), Only(m),
                Healthy(ListedGpus(c, names), Only(m)));
    NodeNext(c, names, name);
    GpusNext(c, names, name, Only(m));
  }

  lemma {:induction false} ModelsOfPosts(gpus: seq<Gpu>, m: string)
    ensures m in Models(DevicePosts(gpus)) <==> exists i :: 0 <= i < |gpus| && gpus[i].healthy && gpus[i].model == m
  {
    if gpus != [] {
      var front, g := gpus[..|gpus| - 1], gpus[|gpus| - 1];
      ModelsOfPosts(front, m);
      ModelsJoin(DevicePosts(front), if g.healthy then [DevicePost(g)] else []);
      forall i | 0 <= i < |front| ensures front[i] == gpus[i] {
      }
    }
  }

  lemma {:induction false} SeenModels(c: Cluster, names: seq<string>, m: string)
    ensures m in Seen(c, names) <==> exists i :: 0 <= i < |ListedGpus(c, names)| && ListedGpus(c, names)[i].healthy && ListedGpus(c, names)[i].model == m
  {
    if names != [] {
      var front, name := names[..|names| - 1], names[|names| - 1];
      LastSplits(names);
      SeenModels(c, front, m);
      NodeNext(c, front, name);
      ModelsOfPosts(c.Gpus(name), m);
      ListedJoins(c, front, name);
      EitherPart(ListedGpus(c, front), c.Gpus(name), m);
    }
  }

  lemma EitherPart(a: seq<Gpu>, b: seq<Gpu>, m: string)
    ensures (exists i :: 0 <= i < |a + b| && (a + b)[i].healthy && (a + b)[i].model == m) <==>
            (exists i :: 0 <= i < |a| && a[i].healthy && a[i].model == m) || (exists i :: 0 <= i < |b| && b[i].healthy && b[i].model == m)
  {
    forall i | 0 <= i < |a| ensures (a + b)[i] == a[i] {
    }
    forall i | 0 <= i < |b| ensures (a + b)[|a| + i] == b[i] {
    }
  }

  lemma ViewAddsUp(c: Cluster, names: seq<string>, v: View)
    requires Summed(c, names, v.rows, v.total)
    ensures AddsUp(c, names, v)
  {
    TotalsMatch(c, names);
    forall m ensures m in v.rows <==> exists i :: 0 <= i < |ListedGpus(c, names)| && ListedGpus(c, names)[i].healthy && ListedGpus(c, names)[i].model == m {
      SeenModels(c, names, m);
    }
    forall m | m in v.rows ensures Matches(v.rows[m], Healthy(ListedGpus(c, names), Only(m))) {
      RowsMatch(c, names, m);
    }
  }

  /** The model of a device is the one registered last under its identifier, and empty if none is. */
  lemma {:induction false} ModelIsLast(gpus: seq<Gpu>, uuid: string, i: int)
    requires -1 <= i < |gpus| && (i >= 0 ==> gpus[i].uuid == uuid)
    requires forall j :: i < j < |gpus| ==> gpus[j].uuid != uuid
    ensures ModelOf(gpus, uuid) == if i < 0 then "" else gpus[i].model
    decreases |gpus|
  {
    if i < |gpus| - 1 {
      ModelIsLast(gpus[..|gpus| - 1], uuid, i);
    }
  }

  // ----- conservation and agreement

  /** The shares that reach no row, Node by Node. */
  function Unattributed(c: Cluster, names: seq<string>): Figures {
    if names == [] then NOTHING
    else
      Unattributed(c, names[..|names| - 1]).Plus(SumIf(NodeShares(c)(names[|names| - 1]), Without(Seen(c, names))))
  }

  function Without(s: set<string>): string -> bool { (x: string) => x !in s }

  /** The rows fall short of the totals by exactly the unattributed shares. */
  lemma {:induction false} RowsAndGap(c: Cluster, names: seq<string>)
    ensures SumIf(AllPosts(c, names), Any()) == SumIf(RowPosts(c, names), Any()).Plus(Unattributed(c, names))
  {
    if names != [] {
      var front, name := names[..|names| - 1], names[|names| - 1];
      assert names == front + [name];
      RowsAndGap(c, front);
      NodeNext(c, front, name);
      GapStep(AllPosts(c, front), RowPosts(c, front), Unattributed(c, front),
              NodeDevices(c)(name), NodeShares(c)(name), Seen(c, names));
    }
  }

  lemma GapStep(all: seq<Post>, rows: seq<Post>, gap: Figures, devices: seq<Post>, shares: seq<Post>, seen: set<string>)
    requires SumIf(all, Any()) == SumIf(rows, Any()).Plus(gap)
    ensures SumIf(all + (devices + shares), Any()) ==
            SumIf(rows + (devices + Keep(shares, seen)), Any()).Plus(gap.Plus(SumIf(shares, Without(seen))))
  {
    SumJoins(all, devices + shares, Any());
    SumJoins(devices, shares, Any());
    SumJoins(devices, Keep(shares, seen), Any());
    SumJoins(rows, devices + Keep(shares, seen), Any());
    KeepSums(shares, seen, "");
    SumSplits(shares, Among(seen), Without(seen), Any());
    Regroup(SumIf(rows, Any()), gap, SumIf(devices, Any()), SumIf(shares, Among(seen)), SumIf(shares, Without(seen)));
  }

  lemma Regroup(r: Figures, gap: Figures, d: Figures, s: Figures, t: Figures)
    ensures r.Plus(gap).Plus(d.Plus(s.Plus(t))) == r.Plus(d.Plus(s)).Plus(gap.Plus(t))
  {
  }

  /** Only held amounts can be unattributed. */
  lemma {:induction false} GapIsHeldOnly(c: Cluster, names: seq<string>)
    ensures var gap := Unattributed(c, names); gap.devices == gap.memoryTotal == gap.computeTotal == 0
  {
    if names != [] {
      GapIsHeldOnly(c, names[..|names| - 1]);
      var name := names[|names| - 1];
      SharesHoldOnly(c.Gpus(name), c.SharesAt(name), Without(Seen(c, names)));
    }
  }

  lemma {:induction false} SharesHoldOnly(gpus: seq<Gpu>, shares: seq<Share>, pick: string -> bool)
    ensures var f := SumIf(SharePosts(gpus, shares), pick); f.devices == f.memoryTotal == f.computeTotal == 0
  {
    if shares != [] {
      SharesHoldOnly(gpus, shares[..|shares| - 1], pick);
      assert SharePosts(gpus, shares)[..|shares| - 1] == SharePosts(gpus, shares[..|shares| - 1]);
    }
  }

  /** Conservation: for any view of the contributions, the devices and both totals are the sums over
      the rows, and the held amounts exceed the rows by exactly the unattributed shares. */
  lemma CapacityConserves(c: Cluster, names: seq<string>, v: View)
    requires Summed(c, names, v.rows, v.total)
    ensures var rows := SumRows(v.rows);
            && v.total.devices == rows.devices
            && v.total.memoryTotal == rows.memoryTotal
            && v.total.computeTotal == rows.computeTotal
            && v.total.memoryHeld == rows.memoryHeld + Unattributed(c, names).memoryHeld
            && v.total.computeHeld == rows.computeHeld + Unattributed(c, names).computeHeld
  {
    RowsConserve(v.rows, RowPosts(c, names));
    RowsAndGap(c, names);
    GapIsHeldOnly(c, names);
  }

  /** The memory that the drain gate reads on the listed Nodes, added up over those it can read. */
  ghost function GateMemory(c: Cluster, names: seq<string>): int {
    if names == [] then 0
    else
      var reading := ReadingOf(c.pods, names[|names| - 1]);
      GateMemory(c, names[..|names| - 1]) + if reading.Some? then reading.value.memoryMiB else 0
  }

  ghost function GateCores(c: Cluster, names: seq<string>): int {
    if names == [] then 0
    else
      var reading := ReadingOf(c.pods, names[|names| - 1]);
      GateCores(c, names[..|names| - 1]) + if reading.Some? then reading.value.corePercent else 0
  }

  /** What the gate reads on a Node that the pool's view skips because no devices are registered on it. */
  function Skipped(c: Cluster, name: string): seq<Share> {
    if !c.At(name).Registered? && ReadableOn(c.pods, name) then HeldOn(c.pods, name) else []
  }

  function AllSkipped(c: Cluster, names: seq<string>): seq<Share> {
    Gather(names, (name: string) => Skipped(c, name))
  }

  /** The two views of what is held: the gate's readings over all listed Nodes are the pool's figure and
      what is held on Nodes without a registration, so the views agree exactly when that is nothing. */
  lemma {:induction false} ViewsAgree(c: Cluster, names: seq<string>)
    requires forall k :: 0 <= k < |names| ==> Answers(c, names[k])
    ensures var held, skipped := SumIf(AllPosts(c, names), Any()), AllSkipped(c, names);
            && GateMemory(c, names) == held.memoryHeld + SumMemory(skipped)
            && GateCores(c, names) == held.computeHeld + SumCores(skipped)
            && (GateMemory(c, names) == held.memoryHeld <==> SumMemory(skipped) == 0)
            && (GateCores(c, names) == held.computeHeld <==> SumCores(skipped) == 0)
  {
    if names != [] {
      var front, name := names[..|names| - 1], names[|names| - 1];
      assert names == front + [name];
      ViewsAgree(c, front);
      HeldNext(c, front, name);
      assert Answers(c, name);
      SumsAdd(AllSkipped(c, front), Skipped(c, name));
      GateNext(c, name);
    }
  }

  lemma GateNext(c: Cluster, name: string)
    requires Answers(c, name)
    ensures var reading := ReadingOf(c.pods, name);
            && (if reading.Some? then reading.value.memoryMiB else 0) == SumMemory(c.SharesAt(name)) + SumMemory(Skipped(c, name))
            && (if reading.Some? then reading.value.corePercent else 0) == SumCores(c.SharesAt(name)) + SumCores(Skipped(c, name))
  {
  }

  /** A pod on a Node whose devices are not registered holds the gate and is missing from the pool's
      figure. */
  lemma UnregisteredNodeIsSkipped() returns (c: Cluster)
    ensures Answers(c, "a") && GateMemory(c, ["a"]) == 3 && SumIf(AllPosts(c, ["a"]), Any()).memoryHeld == 0
  {
    var share := Share("u", 3, 30);
    var pod := Pod("a", false, Some([share]), Some([]));
    c := Cluster(map["a" := NotRegistered], [pod]);
    OnePodHolds(pod, share);
    SkippedAlone(c, "a");
  }

  lemma OnePodHolds(pod: Pod, share: Share)
    requires !pod.terminal && pod.granted == Some([share]) && pod.binding == Some([])
    ensures ReadableOn([pod], pod.node) && SumMemory(HeldOn([pod], pod.node)) == share.memoryMiB
  {
    assert [pod][..0] == [] && [share][..0] == [];
    assert SharesOf(pod) == [share] && HeldOn([pod], pod.node) == [] + [share] == [share];
  }

  lemma SkippedAlone(c: Cluster, name: string)
    requires !c.At(name).Registered? && ReadableOn(c.pods, name)
    ensures GateMemory(c, [name]) == SumMemory(HeldOn(c.pods, name))
    ensures SumIf(AllPosts(c, [name]), Any()).memoryHeld == 0
  {
    assert [name][..0] == [];
    NothingAdded(c, [], name);
    assert [] + [name] == [name];
  }

  /** What one more Node adds to the held totals. */
  lemma HeldNext(c: Cluster, names: seq<string>, name: string)
    ensures var before, after := SumIf(AllPosts(c, names), Any()), SumIf(AllPosts(c, names + [name]), Any());
            && after.memoryHeld == before.memoryHeld + SumMemory(c.SharesAt(name))
            && after.computeHeld == before.computeHeld + SumCores(c.SharesAt(name))
  {
    NodeNext(c, names, name);
    SumJoins(AllPosts(c, names), NodePosts(c)(name), Any());
    NodeHeld(c.Gpus(name), c.SharesAt(name));
  }

  lemma NodeHeld(gpus: seq<Gpu>, shares: seq<Share>)
    ensures var f := SumIf(DevicePosts(gpus) + SharePosts(gpus, shares), Any());
            f.memoryHeld == SumMemory(shares) && f.computeHeld == SumCores(shares)
  {
    SumJoins(DevicePosts(gpus), SharePosts(gpus, shares), Any());
    SharesTotal(gpus, shares);
    DevicesHoldNothing(gpus);
  }

  lemma {:induction false} DevicesHoldNothing(gpus: seq<Gpu>)
    ensures var f := SumIf(DevicePosts(gpus), Any()); f.memoryHeld == f.computeHeld == 0
  {
    if gpus != [] {
      DevicesHoldNothing(gpus[..|gpus| - 1]);
      var g := gpus[|gpus| - 1];
      if g.healthy {
        SumNext(DevicePosts(gpus[..|gpus| - 1]), DevicePost(g), Any());
      } else {
        assert DevicePosts(gpus) == DevicePosts(gpus[..|gpus| - 1]);
      }
    }
  }

  /** The models of the devices held on the k-th Node have a healthy device there or on a Node listed
      before it. */
  ghost predicate ModelsKnown(c: Cluster, names: seq<string>, k: nat)
    requires k < |names|
  {
    Models(NodeShares(c)(names[k])) <= Seen(c, names[..k + 1])
  }

  /** Every share is attributed exactly when the models held are known at each Node. */
  lemma {:induction false} AttributedExactly(c: Cluster, names: seq<string>)
    ensures RowPosts(c, names) == AllPosts(c, names) <==> KnownUpTo(c, names, |names|)
    ensures |RowPosts(c, names)| <= |AllPosts(c, names)|
  {
    if names != [] {
      AttributedExactly(c, names[..|names| - 1]);
      AttributedNext(c, names[..|names| - 1], names[|names| - 1]);
      LastSplits(names);
    }
  }

  lemma AttributedNext(c: Cluster, names: seq<string>, name: string)
    requires RowPosts(c, names) == AllPosts(c, names) <==> KnownUpTo(c, names, |names|)
    requires |RowPosts(c, names)| <= |AllPosts(c, names)|
    ensures RowPosts(c, names + [name]) == AllPosts(c, names + [name]) <==> KnownUpTo(c, names + [name], |names| + 1)
    ensures |RowPosts(c, names + [name])| <= |AllPosts(c, names + [name])|
  {
    NodeAttributed(c, names, name);
    KnownNext(c, names, name);
  }

  lemma NodeAttributed(c: Cluster, names: seq<string>, name: string)
    requires |RowPosts(c, names)| <= |AllPosts(c, names)|
    ensures RowPosts(c, names + [name]) == AllPosts(c, names + [name]) <==>
            RowPosts(c, names) == AllPosts(c, names) && Models(NodeShares(c)(name)) <= Seen(c, names + [name])
    ensures |RowPosts(c, names + [name])| <= |AllPosts(c, names + [name])|
  {
    NodeNext(c, names, name);
    var seen := Seen(c, names + [name]);
    KeepAll(NodeShares(c)(name), seen);
    SamePieces(RowPosts(c, names), AllPosts(c, names), NodeDevices(c)(name), Keep(NodeShares(c)(name), seen), NodeShares(c)(name));
  }

  /** The models held are known at each of the first `n` Nodes. */
  ghost predicate KnownUpTo(c: Cluster, names: seq<string>, n: nat)
    requires n <= |names|
  {
    forall k :: 0 <= k < n ==> ModelsKnown(c, names, k)
  }

  lemma KnownNext(c: Cluster, names: seq<string>, name: string)
    ensures KnownUpTo(c, names + [name], |names| + 1) <==>
            KnownUpTo(c, names, |names|) && Models(NodeShares(c)(name)) <= Seen(c, names + [name])
  {
    var longer := names + [name];
    assert longer[..|names| + 1] == longer;
    assert ModelsKnown(c, longer, |names|) <==> Models(NodeShares(c)(name)) <= Seen(c, longer);
    SameKnown(c, names, name);
  }

  lemma SameKnown(c: Cluster, names: seq<string>, name: string)
    ensures KnownUpTo(c, names, |names|) <==> KnownUpTo(c, names + [name], |names|)
  {
    forall k | 0 <= k < |names| ensures ModelsKnown(c, names, k) <==> ModelsKnown(c, names + [name], k) {
      assert names[..k + 1] == (names + [name])[..k + 1];
    }
  }

  lemma SamePieces(a: seq<Post>, b: seq<Post>, middle: seq<Post>, x: seq<Post>, y: seq<Post>)
    requires |a| <= |b| && |x| <= |y|
    ensures a + (middle + x) == b + (middle + y) <==> a == b && x == y
  {
    if a + (middle + x) == b + (middle + y) {
      assert |a| == |b| && |x| == |y|;
      assert a == (a + (middle + x))[..|a|] && b == (b + (middle + y))[..|b|];
      assert x == (a + (middle + x))[|a| + |middle|..] && y == (b + (middle + y))[|b| + |middle|..];
    }
  }

  /** Totals do not depend on the order of the Nodes. */
  lemma {:induction false} SumReordered(a: seq<Post>, b: seq<Post>, pick: string -> bool)
    requires multiset(a) == multiset(b)
    ensures SumIf(a, pick) == SumIf(b, pick)
    decreases |a|
  {
    if a == [] {
      assert |multiset(b)| == 0;
    } else {
      var j := WithoutOne(a, b);
      SumReordered(a[..|a| - 1], b[..j] + b[j + 1..], pick);
      SumJoins(b[..j], b[j + 1..], pick);
      SumNext(b[..j], b[j], pick);
      assert b[..j] + [b[j]] == b[..j + 1] && b == b[..j + 1] + b[j + 1..];
      SumJoins(b[..j + 1], b[j + 1..], pick);
    }
  }

  lemma TotalsIgnoreOrder(c: Cluster, names: seq<string>, reordered: seq<string>)
    requires multiset(names) == multiset(reordered)
    ensures SumIf(AllPosts(c, names), Any()) == SumIf(AllPosts(c, reordered), Any())
  {
    GatherReordered(names, reordered, NodePosts(c));
    SumReordered(AllPosts(c, names), AllPosts(c, reordered), Any());
  }

  /** The rows do: an unhealthy device's shares reach its model's row only if a healthy one of that
      model is listed first. */
  lemma OrderDecidesRows() returns (c: Cluster, a: string, b: string)
    ensures SumIf(AllPosts(c, [a, b]), Any()) == SumIf(AllPosts(c, [b, a]), Any())
    ensures SumIf(RowPosts(c, [a, b]), Any()) != SumIf(RowPosts(c, [b, a]), Any())
  {
    var sick, well := Gpu("u", 8, 100, "m", false), Gpu("v", 8, 100, "m", true);
    var share := Share("u", 3, 30);
    var pod := Pod("a", false, Some([share]), Some([]));
    a, b, c := "a", "b", Cluster(map["a" := Registered([sick]), "b" := Registered([well])], [pod]);
    assert [sick][..0] == [] && [well][..0] == [] && [pod][..0] == [];
    assert HeldOn([pod], "a") == HeldOn([], "a") + SharesOf(pod) && HeldOn([pod], "b") == HeldOn([], "b") + [];
    assert SharesOf(pod) == [share] && HeldOn([pod], "a") == [share] && HeldOn([pod], "b") == [];
    var p, d := Post("m", Held(share)), DevicePost(well);
    assert DevicePosts([sick]) == DevicePosts([]) + [] && DevicePosts([well]) == DevicePosts([]) + [d];
    assert ModelOf([sick], "u") == "m" && SharePosts([sick], [share]) == [p] && SharePosts([well], []) == [];
    assert NodeDevices(c)(a) == [] && NodeShares(c)(a) == [p];
    assert NodeDevices(c)(b) == [d] && NodeShares(c)(b) == [];
    RowsDiffer(c, a, b, p, d);
    SwapTotals(c, a, b);
  }

  lemma SwapTotals(c: Cluster, a: string, b: string)
    ensures SumIf(AllPosts(c, [a, b]), Any()) == SumIf(AllPosts(c, [b, a]), Any())
  {
    assert multiset([a, b]) == multiset([b, a]);
    TotalsIgnoreOrder(c, [a, b], [b, a]);
  }

  lemma RowsDiffer(c: Cluster, a: string, b: string, p: Post, d: Post)
    requires NodeDevices(c)(a) == [] && NodeShares(c)(a) == [p] && NodeDevices(c)(b) == [d] && NodeShares(c)(b) == []
    requires p.model == d.model && p.amount != NOTHING
    ensures SumIf(RowPosts(c, [a, b]), Any()) != SumIf(RowPosts(c, [b, a]), Any())
  {
    KeptOrNot(p, d);
    PostCounts([d], p);
    RowsOfTwo(c, a, b);
    RowsOfTwo(c, b, a);
  }

  lemma KeptOrNot(p: Post, d: Post)
    requires p.model == d.model
    ensures ([] + Keep([p], Models([]))) + ([d] + Keep([], Models([]) + Models([d]))) == [d]
    ensures ([d] + Keep([], Models([d]))) + ([] + Keep([p], Models([d]) + Models([]))) == [d] + [p]
  {
    assert Models([]) == {} && Models([d]) == {d.model} && Models([p]) == {d.model};
    KeepAll([p], {d.model});
    assert {d.model} + {} == {d.model};
    assert Keep([p], {}) == [];
  }

  lemma PostCounts(posts: seq<Post>, p: Post)
    requires p.amount != NOTHING
    ensures SumIf(posts + [p], Any()) != SumIf(posts, Any())
  {
    SumNext(posts, p, Any());
  }

  lemma RowsOfTwo(c: Cluster, a: string, b: string)
    ensures var da, sa, db, sb := NodeDevices(c)(a), NodeShares(c)(a), NodeDevices(c)(b), NodeShares(c)(b);
            RowPosts(c, [a, b]) == (da + Keep(sa, Models(da))) + (db + Keep(sb, Models(da) + Models(db)))
  {
    RowsOfOne(c, a);
    NodeNext(c, [a], b);
    assert RowPosts(c, [a, b]) == RowPosts(c, [a] + [b]) by {
      assert [a, b] == [a] + [b];
    }
  }

  lemma RowsOfOne(c: Cluster, a: string)
    ensures Seen(c, [a]) == Models(NodeDevices(c)(a))
    ensures RowPosts(c, [a]) == NodeDevices(c)(a) + Keep(NodeShares(c)(a), Models(NodeDevices(c)(a)))
  {
    NodeNext(c, [], a);
    assert [] + [a] == [a] && Seen(c, []) == {};
    assert {} + Models(NodeDevices(c)(a)) == Models(NodeDevices(c)(a));
  }
}
