/** Cordon before count, against a scheduler that never stops: the calls one automatic drain makes,
    interleaved with everything both clusters may do between them. Cell names are reused, so a guest is
    known by its UID and not by its name. */
module DrainRace {
  import opened CellTypes
  import opened Fsm
  import opened Shares
  import Dra

  // ----- what holds a GPU, in either mode

  /** Device-plugin mode reads pods; dynamic resource allocation reads slices and claims. */
  datatype Work =
    | Pods(pods: seq<Pod>)
    | Claims(slices: seq<Dra.Slice>, claims: seq<Dra.Claim>)

  /** Something holds or is binding a share of the Node's GPU. */
  ghost predicate Holds(work: Work, node: string) {
    match work
    case Pods(pods) => exists p :: p in pods && p.node == node && Busy(p)
    case Claims(_, claims) => Dra.HoldsOn(claims, node)
  }

  /** What the drain gate reads. */
  ghost function Read(work: Work, node: string): Option<Allocations> {
    match work
    case Pods(pods) => ReadingOf(pods, node)
    case Claims(slices, claims) => Some(Dra.Reading(slices, Dra.Uses(claims), node))
  }

  /** The reading can see all that is held: always in device-plugin mode, and while every held device
      is published in the other. */
  ghost predicate InSight(work: Work, node: string) {
    work.Claims? ==> Dra.Visible(work.slices, work.claims, node)
  }

  lemma EmptyInSight(work: Work, node: string)
    requires InSight(work, node) && Read(work, node).Some? && Read(work, node).value.Empty()
    ensures !Holds(work, node)
  {
    match work
    case Pods(pods) => EmptyMeansIdle(pods, node);
    case Claims(slices, claims) => Dra.EmptyMeansFree(slices, claims, node);
  }

  // ----- the world

  /** A Node: whether it is cordoned, and the UID of the guest whose kubelet registered it last. */
  datatype NodeView = NodeView(cordoned: bool, kubelet: string)

  /** Where the operator is in removing one cell. `cell` is the row's name, which names the Node it
      cordons, counts and deletes; `guest` is the guest its index names, which it deletes. */
  datatype Drain =
    | AtRest
    | Patching(cell: string, guest: string)
    | Cordoned(cell: string, guest: string)
    | Cleared(cell: string, guest: string)
    | NodeDone(cell: string, guest: string)

  /** The workload cluster's Nodes and what holds GPUs there; the guests of the infrastructure cluster
      with their UIDs; the UIDs whose kubelet has registered, and all UIDs given out so far. */
  datatype World = World(
    nodes: map<string, NodeView>,
    work: Work,
    guests: map<string, string>,
    registered: set<string>,
    uids: set<string>,
    drain: Drain)

  // ----- the operator's calls

  /** Cordon, first half: read the Node. A missing Node, or one already cordoned, needs no patch. */
  predicate LooksAtNode(w: World, w2: World, cell: string, guest: string) {
    && w.drain.AtRest?
    && w2 == w.(drain := if cell in w.nodes && !w.nodes[cell].cordoned then Patching(cell, guest) else Cordoned(cell, guest))
  }

  /** Cordon, second half. Patching a Node that has gone is an error, and the pass ends. */
  predicate PatchesNode(w: World, w2: World) {
    && w.drain.Patching?
    && var c := w.drain.cell;
    && w2 == if c in w.nodes then w.(nodes := w.nodes[c := w.nodes[c].(cordoned := true)], drain := Cordoned(c, w.drain.guest))
             else w.(drain := AtRest)
  }

  /** Count the allocations, or fail to, and ask the gate of an automatic drain. */
  ghost predicate AsksGate(w: World, w2: World, readable: bool, force: bool, now: int, timeout: int) {
    && w.drain.Cordoned?
    && var reading := if readable then Read(w.work, w.drain.cell) else None;
    && w2 == w.(drain := if AdvanceDrain(reading, false, force, now, now, timeout).proceed
                         then Cleared(w.drain.cell, w.drain.guest) else AtRest)
  }

  /** Delete the Node, or find the workload cluster gone and skip it. */
  predicate DeletesNode(w: World, w2: World) {
    && w.drain.Cleared?
    && (w2 == w.(nodes := w.nodes - {w.drain.cell}, drain := NodeDone(w.drain.cell, w.drain.guest))
        || w2 == w.(drain := NodeDone(w.drain.cell, w.drain.guest)))
  }

  predicate DeletesGuest(w: World, w2: World) {
    && w.drain.NodeDone?
    && w2 == w.(guests := w.guests - {w.drain.guest}, drain := AtRest)
  }

  /** A pass may end after any call. */
  predicate Aborts(w: World, w2: World) {
    w2 == w.(drain := AtRest)
  }

  // ----- everyone else

  /** The kubelet of a live guest registers its Node once. It creates the Node, or adopts one that a
      predecessor of the same name left, as cordoned as it is; it does not come back after its Node is
      deleted. */
  predicate Registers(w: World, w2: World, guest: string) {
    && guest in w.guests && w.guests[guest] !in w.registered
    && var cordoned := guest in w.nodes && w.nodes[guest].cordoned;
    && w2 == w.(nodes := w.nodes[guest := NodeView(cordoned, w.guests[guest])],
                registered := w.registered + {w.guests[guest]})
  }

  /** Work is placed on a Node that is there and not cordoned; no other Node gains any. */
  ghost predicate Places(w: World, w2: World, node: string, work: Work) {
    && node in w.nodes && !w.nodes[node].cordoned
    && (work.Pods? <==> w.work.Pods?) && (forall n :: n != node && Holds(work, n) ==> Holds(w.work, n))
    && w2 == w.(work := work)
  }

  /** Anything else that happens to pods, claims and slices: bindings complete, pods finish, claims are
      released, slices are published or withdrawn. No Node gains work. */
  ghost predicate Releases(w: World, w2: World, work: Work) {
    && (work.Pods? <==> w.work.Pods?) && (forall n :: Holds(work, n) ==> Holds(w.work, n))
    && w2 == w.(work := work)
  }

  /** Others may cordon a Node or delete it, but nobody else uncordons one. */
  predicate OthersCordon(w: World, w2: World, node: string) {
    node in w.nodes && w2 == w.(nodes := w.nodes[node := w.nodes[node].(cordoned := true)])
  }

  predicate OthersDelete(w: World, w2: World, node: string) {
    w2 == w.(nodes := w.nodes - {node})
  }

  /** A guest is created under a free name with a UID never used before. The operator is the one who
      creates guests, so none comes under the name it is draining. */
  predicate GuestComes(w: World, w2: World, guest: string, uid: string) {
    && guest !in w.guests && uid !in w.uids && (w.drain.AtRest? || w.drain.guest != guest)
    && w2 == w.(guests := w.guests[guest := uid], uids := w.uids + {uid})
  }

  predicate GuestLeaves(w: World, w2: World, guest: string) {
    w2 == w.(guests := w.guests - {guest})
  }

  ghost predicate Elsewhere(w: World, w2: World) {
    || (exists g :: Registers(w, w2, g))
    || (exists n, work :: Places(w, w2, n, work))
    || (exists work :: Releases(w, w2, work))
    || (exists n :: OthersCordon(w, w2, n))
    || (exists n :: OthersDelete(w, w2, n))
    || (exists g, uid :: GuestComes(w, w2, g, uid))
    || (exists g :: GuestLeaves(w, w2, g))
  }

  ghost predicate Next(w: World, w2: World) {
    || (exists c, g :: LooksAtNode(w, w2, c, g))
    || (exists readable, force, now, timeout :: AsksGate(w, w2, readable, force, now, timeout))
    || PatchesNode(w, w2) || DeletesNode(w, w2) || DeletesGuest(w, w2) || Aborts(w, w2)
    || Elsewhere(w, w2)
  }

  /** UIDs in use have been given out, and a Node was registered by the kubelet it names. */
  ghost predicate Grounded(w: World) {
    && w.guests.Values <= w.uids && w.registered <= w.uids
    && (forall g, h :: g in w.guests && h in w.guests && w.guests[g] == w.guests[h] ==> g == h)
    && (forall n :: n in w.nodes ==> w.nodes[n].kubelet in w.registered)
  }

  ghost predicate Start(w: World) {
    Grounded(w) && w.drain.AtRest?
  }

  predicate Draining(w: World, cell: string, guest: string) {
    !w.drain.AtRest? && w.drain.cell == cell && w.drain.guest == guest
  }

  /** One drain of a cell from `w` on, in any interleaving, up to the deletion of the guest. */
  ghost predicate DrainRun(ws: seq<World>, w: World, cell: string, guest: string) {
    && |ws| >= 3 && ws[0] == w && LooksAtNode(ws[0], ws[1], cell, guest)
    && (forall i :: 1 <= i < |ws| - 1 ==> Draining(ws[i], cell, guest))
    && (forall i :: 1 <= i < |ws| - 2 ==> Next(ws[i], ws[i + 1]))
    && DeletesGuest(ws[|ws| - 2], ws[|ws| - 1])
  }

  /** It ends by deleting a guest whose GPU something holds. */
  ghost predicate DestroysWork(ws: seq<World>, w: World, cell: string, guest: string) {
    && DrainRun(ws, w, cell, guest)
    && guest in ws[|ws| - 2].guests && Holds(ws[|ws| - 2].work, guest)
  }

  /** Whenever the gate opens, its reading could see all that was held. */
  ghost predicate ReadsInSight(ws: seq<World>, cell: string) {
    forall i :: 0 <= i < |ws| - 1 && ws[i].drain.Cordoned? && ws[i + 1].drain.Cleared? ==> InSight(ws[i].work, cell)
  }

  // ----- a Node that takes no more work

  /** The guest's Node takes no more work: it is cordoned or gone, and the guest's kubelet, having
      registered, will not bring a new one. */
  predicate Closed(w: World, guest: string) {
    && (guest in w.nodes ==> w.nodes[guest].cordoned)
    && (guest in w.guests ==> w.guests[guest] in w.registered)
  }

  predicate Registered(w: World, guest: string) {
    guest in w.guests ==> w.guests[guest] in w.registered
  }

  lemma RegisteredStays(w: World, w2: World, cell: string, guest: string)
    requires Next(w, w2) && Draining(w, cell, guest) && Registered(w, guest)
    ensures Registered(w2, guest)
  {
  }

  lemma ClosedStays(w: World, w2: World, cell: string, guest: string)
    requires Next(w, w2) && Draining(w, cell, guest) && Closed(w, guest)
    ensures Closed(w2, guest)
  {
  }

  lemma NoWorkArrives(w: World, w2: World, cell: string, guest: string)
    requires Next(w, w2) && Draining(w, cell, guest) && Closed(w, guest) && !Holds(w.work, guest)
    ensures !Holds(w2.work, guest)
  {
  }

  // ----- a drain that counts what it cordoned

  /** What holds at every stage of draining a guest through its own Node. */
  ghost predicate Inv(w: World, guest: string) {
    && Registered(w, guest)
    && (w.drain.Cordoned? || w.drain.Cleared? || w.drain.NodeDone? ==> Closed(w, guest))
    && (w.drain.Cleared? || w.drain.NodeDone? ==> !Holds(w.work, guest))
  }

  lemma InvStays(w: World, w2: World, guest: string)
    requires Next(w, w2) && Draining(w, guest, guest) && Draining(w2, guest, guest) && Inv(w, guest)
    requires w.drain.Cordoned? && w2.drain.Cleared? ==> InSight(w.work, guest)
    ensures Inv(w2, guest)
  {
    RegisteredStays(w, w2, guest, guest);
    if w.drain.Patching? {
      PatchCloses(w, w2, guest);
    } else {
      ClosedStays(w, w2, guest, guest);
      if w.drain.Cordoned? && w2.drain.Cleared? {
        GateOpens(w, w2, guest);
      } else if !w.drain.Cordoned? {
        NoWorkArrives(w, w2, guest, guest);
      }
    }
  }

  lemma PatchCloses(w: World, w2: World, guest: string)
    requires Next(w, w2) && w.drain == Patching(guest, guest) && Draining(w2, guest, guest) && Registered(w, guest)
    ensures w2.drain.Patching? || (w2.drain.Cordoned? && Closed(w2, guest))
  {
  }

  lemma GateOpens(w: World, w2: World, guest: string)
    requires Next(w, w2) && w.drain == Cordoned(guest, guest) && w2.drain == Cleared(guest, guest) && InSight(w.work, guest)
    ensures !Holds(w2.work, guest)
  {
    assert w2.work == w.work;
    EmptyInSight(w.work, guest);
  }

  lemma {:induction false} InvAlways(ws: seq<World>, w: World, guest: string, k: nat)
    requires DrainRun(ws, w, guest, guest) && Registered(w, guest) && ReadsInSight(ws, guest) && 1 <= k < |ws| - 1
    ensures Inv(ws[k], guest)
    decreases k
  {
    if k > 1 {
      InvAlways(ws, w, guest, k - 1);
      assert Draining(ws[k - 1], guest, guest) && Draining(ws[k], guest, guest) && Next(ws[k - 1], ws[k]);
      InvStays(ws[k - 1], ws[k], guest);
    }
  }

  /** No work is destroyed: in every interleaving, a drain of a guest whose kubelet had registered when
      it began deletes the guest only when nothing holds or is binding a share of its GPU, as long as
      the gate's reading could see what was held. */
  lemma DrainDestroysNoWork(ws: seq<World>, w: World, guest: string)
    requires DrainRun(ws, w, guest, guest) && ReadsInSight(ws, guest) && Registered(w, guest)
    ensures !Holds(ws[|ws| - 2].work, guest) && !Holds(ws[|ws| - 1].work, guest)
  {
    InvAlways(ws, w, guest, |ws| - 2);
  }

  // ----- and one that cannot

  /** Work on one Node only, on a device nothing publishes. */
  function Workload(like: Work, node: string): (work: Work)
    ensures work.Pods? <==> like.Pods?
  {
    if like.Pods? then Pods([Pod(node, false, Some([Share("GPU-0", 1, 1)]), Some([]))])
    else Claims([], [Dra.Claim(Some([Dra.Grant(Dra.DRIVER, node, "gpu", None, None)]), true)])
  }

  function NoWork(like: Work): (work: Work)
    ensures work.Pods? <==> like.Pods?
  {
    if like.Pods? then Pods([]) else Claims([], [])
  }

  lemma WorkloadHolds(like: Work, node: string)
    ensures forall n :: Holds(Workload(like, node), n) <==> n == node
  {
    var work := Workload(like, node);
    if like.Pods? {
      assert work.pods[0] in work.pods && Busy(work.pods[0]);
    } else {
      var c := work.claims[0];
      var g := c.grants.value[0];
      assert c in work.claims && g in c.grants.value && Dra.GrantOn(g, node);
      forall n | Dra.HoldsOn(work.claims, n) ensures n == node {
        var c2, g2 :| c2 in work.claims && c2.grants.Some? && g2 in c2.grants.value && Dra.GrantOn(g2, n);
      }
    }
  }

  lemma NoWorkHolds(like: Work)
    ensures forall n :: !Holds(NoWork(like), n)
    ensures forall n :: Opens(NoWork(like), n) && InSight(NoWork(like), n)
  {
    forall n ensures Opens(NoWork(like), n) {
      if like.Pods? {
        EmptyMeansIdle([], n);
      } else {
        Dra.DraEmptyExactly([], Dra.Uses([]), n);
      }
    }
  }

  /** The gate reads the Node as empty. */
  ghost predicate Opens(work: Work, node: string) {
    Read(work, node).Some? && Read(work, node).value.Empty()
  }

  lemma WorkloadIsHidden(like: Work, node: string, cell: string)
    requires like.Claims? || cell != node
    ensures Opens(Workload(like, node), cell)
  {
    var work := Workload(like, node);
    if like.Pods? {
      EmptyMeansIdle(work.pods, cell);
    } else {
      assert Dra.Published([], cell) == [];
      Dra.DraEmptyExactly([], Dra.Uses(work.claims), cell);
    }
  }

  /** After the cordon: patched if there was anything to patch. */
  function CordonDone(w: World): World {
    if w.drain.Patching? && w.drain.cell in w.nodes then
      w.(nodes := w.nodes[w.drain.cell := w.nodes[w.drain.cell].(cordoned := true)], drain := Cordoned(w.drain.cell, w.drain.guest))
    else w
  }

  lemma CordonStep(w: World)
    requires w.drain.Patching? ==> w.drain.cell in w.nodes
    ensures Next(w, CordonDone(w)) && !CordonDone(w).drain.Patching?
  {
    if w.drain.Patching? {
      assert PatchesNode(w, CordonDone(w));
    } else {
      assert Releases(w, w, w.work);
    }
  }

  lemma GateStep(w: World)
    requires w.drain.Cordoned? && Opens(w.work, w.drain.cell)
    ensures Next(w, w.(drain := Cleared(w.drain.cell, w.drain.guest)))
  {
    assert AsksGate(w, w.(drain := Cleared(w.drain.cell, w.drain.guest)), true, false, 0, 0);
  }

  lemma NodeStep(w: World)
    requires w.drain.Cleared?
    ensures Next(w, w.(nodes := w.nodes - {w.drain.cell}, drain := NodeDone(w.drain.cell, w.drain.guest)))
  {
    assert DeletesNode(w, w.(nodes := w.nodes - {w.drain.cell}, drain := NodeDone(w.drain.cell, w.drain.guest)));
  }

  /** Steps of one drain. */
  ghost predicate Chain(ws: seq<World>, cell: string, guest: string) {
    && |ws| >= 1 && (forall i :: 0 <= i < |ws| ==> Draining(ws[i], cell, guest))
    && (forall i :: 0 <= i < |ws| - 1 ==> Next(ws[i], ws[i + 1]))
  }

  lemma Finish(w: World, ws: seq<World>, cell: string, guest: string) returns (run: seq<World>)
    requires Chain(ws, cell, guest) && LooksAtNode(w, ws[0], cell, guest)
    requires var last := ws[|ws| - 1]; last.drain.NodeDone? && guest in last.guests && Holds(last.work, guest)
    ensures DestroysWork(run, w, cell, guest) && (ReadsInSight(ws, cell) ==> ReadsInSight(run, cell))
  {
    var last := ws[|ws| - 1];
    run := [w] + ws + [last.(guests := last.guests - {guest}, drain := AtRest)];
    assert forall i :: 1 <= i <= |ws| ==> run[i] == ws[i - 1];
  }

  lemma JoinChains(a: seq<World>, b: seq<World>, cell: string, guest: string)
    requires Chain(a, cell, guest) && Chain(b, cell, guest) && a[|a| - 1] == b[0]
    ensures Chain(a + b[1..], cell, guest) && (a + b[1..])[|a + b[1..]| - 1] == b[|b| - 1]
  {
    var ab := a + b[1..];
    JoinedSteps(a, b);
    forall i | 0 <= i < |ab| - 1 ensures Next(ab[i], ab[i + 1]) {
      if i < |a| - 1 {
        assert Next(a[i], a[i + 1]);
      } else {
        assert Next(b[i - |a| + 1], b[i - |a| + 2]);
      }
    }
  }

  lemma JoinedSteps(a: seq<World>, b: seq<World>)
    requires a != [] && b != [] && a[|a| - 1] == b[0]
    ensures var ab := a + b[1..];
            && (forall i :: 0 <= i < |a| ==> ab[i] == a[i])
            && (forall i :: |a| - 1 <= i < |ab| ==> ab[i] == b[i - |a| + 1])
  {
  }

  lemma JoinedSight(a: seq<World>, b: seq<World>, cell: string)
    requires a != [] && b != [] && a[|a| - 1] == b[0] && ReadsInSight(a, cell) && ReadsInSight(b, cell)
    ensures ReadsInSight(a + b[1..], cell)
  {
    var ab := a + b[1..];
    JoinedSteps(a, b);
    forall i | 0 <= i < |ab| - 1 && ab[i].drain.Cordoned? && ab[i + 1].drain.Cleared? ensures InSight(ab[i].work, cell) {
      if i < |a| - 1 {
        assert ab[i] == a[i] && ab[i + 1] == a[i + 1];
      } else {
        assert ab[i] == b[i - |a| + 1] && ab[i + 1] == b[i - |a| + 2];
      }
    }
  }

  /** The drain up to the deletion of the Node, while all work goes away. */
  lemma CountsNothing(w: World, cell: string, guest: string) returns (ws: seq<World>)
    requires Draining(w, cell, guest) && (w.drain.Patching? || w.drain.Cordoned?) && (w.drain.Patching? ==> cell in w.nodes)
    ensures Chain(ws, cell, guest) && ws[0] == w && ReadsInSight(ws, cell)
    ensures var last := ws[|ws| - 1];
            last.drain.NodeDone? && last.guests == w.guests && last.registered == w.registered
  {
    var w2 := CordonDone(w);
    CordonStep(w);
    var w3 := w2.(work := NoWork(w2.work));
    NoWorkHolds(w2.work);
    assert Releases(w2, w3, w3.work);
    var w4 := w3.(drain := Cleared(cell, guest));
    GateStep(w3);
    var w5 := w4.(nodes := w4.nodes - {cell}, drain := NodeDone(cell, guest));
    NodeStep(w4);
    ws := [w, w2, w3, w4, w5];
  }

  /** The window after it: whatever Node the guest's name still has goes, the kubelet registers a new
      one, and work is placed there. */
  lemma WorkArrives(w: World, cell: string, guest: string) returns (ws: seq<World>)
    requires w.drain == NodeDone(cell, guest) && guest in w.guests && w.guests[guest] !in w.registered
    ensures Chain(ws, cell, guest) && ws[0] == w && ReadsInSight(ws, cell)
    ensures var last := ws[|ws| - 1]; last.drain.NodeDone? && guest in last.guests && Holds(last.work, guest)
  {
    var w6 := w.(nodes := w.nodes - {guest});
    assert OthersDelete(w, w6, guest);
    var w7 := w6.(nodes := w6.nodes[guest := NodeView(false, w.guests[guest])], registered := w6.registered + {w.guests[guest]});
    assert Registers(w6, w7, guest);
    var w8 := w7.(work := Workload(w7.work, guest));
    WorkloadHolds(w7.work, guest);
    assert Places(w7, w8, guest, w8.work);
    ws := [w, w6, w7, w8];
  }

  /** The lost race, step by step: the kubelet of this guest has not registered, so what the drain
      cordons is nothing, or a Node that goes; once the count has found nothing the kubelet registers
      and work is placed, before the guest is deleted. */
  lemma LostRace(w: World, cell: string, guest: string) returns (ws: seq<World>)
    requires Start(w) && guest in w.guests && w.guests[guest] !in w.registered
    ensures DestroysWork(ws, w, cell, guest) && ReadsInSight(ws, cell)
  {
    var w1 := w.(drain := if cell in w.nodes && !w.nodes[cell].cordoned then Patching(cell, guest) else Cordoned(cell, guest));
    var first := CountsNothing(w1, cell, guest);
    var second := WorkArrives(first[|first| - 1], cell, guest);
    JoinChains(first, second, cell, guest);
    JoinedSight(first, second, cell);
    ws := Finish(w, first + second[1..], cell, guest);
  }

  /** The exact condition, for a drain that cordons and counts the guest's own Node and whose readings
      see what is held: it can destroy work if and only if the kubelet of this very guest had not
      registered when the drain began. */
  lemma SafeExactlyWhenRegistered(w: World, guest: string)
    requires Start(w)
    ensures (exists ws :: DestroysWork(ws, w, guest, guest) && ReadsInSight(ws, guest)) <==>
            guest in w.guests && w.guests[guest] !in w.registered
  {
    if guest in w.guests && w.guests[guest] !in w.registered {
      var ws := LostRace(w, guest, guest);
    } else {
      forall ws | DestroysWork(ws, w, guest, guest) && ReadsInSight(ws, guest) ensures false {
        DrainDestroysNoWork(ws, w, guest);
      }
    }
  }

  /** A name that is used again loses the race however often its predecessors registered: a drain that
      begins before the new kubelet is up can destroy its work. */
  lemma ReusedNameLoses(before: World, w: World, guest: string, uid: string) returns (ws: seq<World>)
    requires Start(before) && GuestComes(before, w, guest, uid)
    ensures DestroysWork(ws, w, guest, guest) && ReadsInSight(ws, guest)
  {
    assert uid !in w.registered;
    ws := LostRace(w, guest, guest);
  }

  // ----- what the caller can check

  predicate HasNode(w: World, guest: string) {
    guest in w.guests && guest in w.nodes && w.nodes[guest].kubelet == w.guests[guest]
  }

  /** No Node of a live guest has been taken away. */
  ghost predicate Undisturbed(w: World) {
    forall g :: g in w.guests && w.guests[g] in w.registered ==> HasNode(w, g)
  }

  /** As long as nobody deletes Nodes of live guests, the condition can be seen at the cordon: the drain
      is safe if and only if the Node it finds there is this guest's. */
  lemma SafeExactlyWhenNodeIsThere(w: World, guest: string)
    requires Start(w) && Undisturbed(w) && guest in w.guests
    ensures (exists ws :: DestroysWork(ws, w, guest, guest) && ReadsInSight(ws, guest)) <==> !HasNode(w, guest)
  {
    SafeExactlyWhenRegistered(w, guest);
  }

  /** What keeps that so: every step but the deletion of a live guest's Node. */
  lemma UndisturbedStays(w: World, w2: World)
    requires Grounded(w) && Undisturbed(w) && Next(w, w2)
    requires forall n :: n in w.nodes && n !in w2.nodes ==> n !in w2.guests
    ensures Undisturbed(w2)
  {
    if g :| Registers(w, w2, g) {
      RegisteringKeeps(w, w2, g);
    } else {
      NothingRegisters(w, w2);
      QuietKeeps(w, w2);
    }
  }

  /** A step in which no kubelet registers: no Node is new or changes hands, and a guest is an old one or
      has a new UID. */
  ghost predicate Quiet(w: World, w2: World) {
    && w2.registered == w.registered
    && (forall n :: n in w2.nodes ==> n in w.nodes && w2.nodes[n].kubelet == w.nodes[n].kubelet)
    && (forall g :: g in w2.guests ==> (g in w.guests && w.guests[g] == w2.guests[g]) || w2.guests[g] !in w.uids)
  }

  lemma NothingRegisters(w: World, w2: World)
    requires Next(w, w2) && forall g :: !Registers(w, w2, g)
    ensures Quiet(w, w2)
  {
  }

  lemma QuietKeeps(w: World, w2: World)
    requires Grounded(w) && Undisturbed(w) && Quiet(w, w2)
    requires forall n :: n in w.nodes && n !in w2.nodes ==> n !in w2.guests
    ensures Undisturbed(w2)
  {
  }

  lemma RegisteringKeeps(w: World, w2: World, g: string)
    requires Grounded(w) && Undisturbed(w) && Registers(w, w2, g)
    ensures Undisturbed(w2)
  {
  }

  lemma GroundedStays(w: World, w2: World)
    requires Grounded(w) && Next(w, w2)
    ensures Grounded(w2)
  {
    if g, uid :| GuestComes(w, w2, g, uid) {
      GuestIsGrounded(w, w2, g, uid);
    } else if g :| Registers(w, w2, g) {
    } else {
      assert w2.registered == w.registered && w2.uids == w.uids;
      assert forall g :: g in w2.guests ==> g in w.guests && w2.guests[g] == w.guests[g];
    }
  }

  lemma GuestIsGrounded(w: World, w2: World, g: string, uid: string)
    requires Grounded(w) && GuestComes(w, w2, g, uid)
    ensures Grounded(w2)
  {
  }

  // ----- a gate that cannot see the guest's Node

  lemma {:induction false} ClosedThroughout(ws: seq<World>, w: World, cell: string, guest: string, k: nat)
    requires DrainRun(ws, w, cell, guest) && Closed(w, guest) && !Holds(w.work, guest) && 1 <= k < |ws| - 1
    ensures Closed(ws[k], guest) && !Holds(ws[k].work, guest)
    decreases k
  {
    if k > 1 {
      ClosedThroughout(ws, w, cell, guest, k - 1);
      assert Draining(ws[k - 1], cell, guest) && Next(ws[k - 1], ws[k]);
      ClosedStays(ws[k - 1], ws[k], cell, guest);
      NoWorkArrives(ws[k - 1], ws[k], cell, guest);
    }
  }

  /** A gate that reads past the work opens on a busy guest. */
  lemma BlindRun(w: World, cell: string, guest: string) returns (ws: seq<World>)
    requires Start(w) && guest in w.guests && (w.work.Claims? || cell != guest)
    requires (guest in w.nodes && !w.nodes[guest].cordoned) || Holds(w.work, guest)
    ensures DestroysWork(ws, w, cell, guest)
  {
    var w1 := w.(drain := if cell in w.nodes && !w.nodes[cell].cordoned then Patching(cell, guest) else Cordoned(cell, guest));
    var w2 := w1.(work := Workload(w1.work, guest));
    WorkloadHolds(w1.work, guest);
    WorkloadIsHidden(w1.work, guest, cell);
    if Holds(w.work, guest) {
      assert Releases(w1, w2, w2.work);
    } else {
      assert Places(w1, w2, guest, w2.work);
    }
    assert Next(w1, w2);
    var rest := OpensBlindly(w2, cell, guest);
    var first := [w1, w2];
    JoinChains(first, rest, cell, guest);
    ws := Finish(w, first + rest[1..], cell, guest);
  }

  lemma OpensBlindly(w: World, cell: string, guest: string) returns (ws: seq<World>)
    requires Draining(w, cell, guest) && (w.drain.Patching? || w.drain.Cordoned?) && (w.drain.Patching? ==> cell in w.nodes)
    requires Opens(w.work, cell)
    ensures Chain(ws, cell, guest) && ws[0] == w
    ensures var last := ws[|ws| - 1]; last.drain.NodeDone? && last.guests == w.guests && last.work == w.work
  {
    var w3 := CordonDone(w);
    CordonStep(w);
    var w4 := w3.(drain := Cleared(cell, guest));
    GateStep(w3);
    var w5 := w4.(nodes := w4.nodes - {cell}, drain := NodeDone(cell, guest));
    NodeStep(w4);
    ws := [w, w3, w4, w5];
  }

  /** The exact condition without sight: in DRA mode, where slices may be withdrawn under a claim, and
      for a row whose name is not the one its index names, a drain can destroy work if and only if its
      guest is there and has work, can get some, or has yet to register. */
  lemma BlindGateLosesExactly(w: World, cell: string, guest: string)
    requires Start(w) && (w.work.Claims? || cell != guest)
    ensures (exists ws :: DestroysWork(ws, w, cell, guest)) <==>
            guest in w.guests && !(Closed(w, guest) && !Holds(w.work, guest))
  {
    if guest in w.guests && w.guests[guest] !in w.registered {
      var ws := LostRace(w, cell, guest);
    } else if guest in w.guests && !(Closed(w, guest) && !Holds(w.work, guest)) {
      var ws := BlindRun(w, cell, guest);
    } else {
      forall ws | DestroysWork(ws, w, cell, guest) ensures false {
        NothingDestroyed(ws, w, cell, guest);
      }
    }
  }

  lemma {:induction false} GuestStaysAway(ws: seq<World>, w: World, cell: string, guest: string, k: nat)
    requires DrainRun(ws, w, cell, guest) && guest !in w.guests && 1 <= k < |ws| - 1
    ensures guest !in ws[k].guests
    decreases k
  {
    if k > 1 {
      GuestStaysAway(ws, w, cell, guest, k - 1);
      assert Draining(ws[k - 1], cell, guest) && Next(ws[k - 1], ws[k]);
    }
  }

  lemma NothingDestroyed(ws: seq<World>, w: World, cell: string, guest: string)
    requires DrainRun(ws, w, cell, guest) && (guest in w.guests ==> Closed(w, guest) && !Holds(w.work, guest))
    ensures !DestroysWork(ws, w, cell, guest)
  {
    if guest in w.guests {
      ClosedThroughout(ws, w, cell, guest, |ws| - 2);
    } else {
      GuestStaysAway(ws, w, cell, guest, |ws| - 2);
    }
  }
}
