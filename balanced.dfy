/** The balancer's records and the value-level rules its handlers follow:
    worker records and tracked entities, the worker-anchor entity, the
    access list and interest written for a worker's cell, the grid layout
    applied to the worker list, and one step of the fleet manager. */
module Balanced {
  import opened GoStd
  import opened Geometry
  import opened ServerScene
  import opened Components
  import opened Qbi
  import opened Transport
  import opened Grid
  import opened Fleet

  /** One live simulation worker: its anchor entity (id, access list,
      position, metadata, interest), its worker id, the entity of its
      worker-identity component, its cell, and its process. */
  datatype BalancedWorker = BalancedWorker(
    id: EntityId,
    acl: ImprobableAcl,
    pos: ImprobablePosition,
    meta: ImprobableMetadata,
    interest: ImprobableInterest,
    workerId: string,
    workerEntityId: EntityId,
    aabb: Aabb,
    killing: bool,
    process: Handle)

  /** An entity whose write authority the balancer moves. */
  datatype BalancedEntity = BalancedEntity(
    id: EntityId,
    acl: ImprobableAcl,
    pos: ImprobablePosition,
    worker: WorkerComponent,
    client: string)

  /** A newly seen entity: unassigned, with an empty access list. */
  function NewTrackedEntity(id: EntityId): (e: BalancedEntity)
    ensures e.id == id && e.worker.workerId == -1 && e.client == ""
  {
    BalancedEntity(id, EmptyAcl, ImprobablePosition(Origin), Unassigned, "")
  }

  /** The anchor entity requested when a simulation worker connects: only
      the balancer reads it or writes its access list, interest and
      position. */
  function NewServerWorker(): (w: BalancedWorker)
    ensures w.acl.componentWriteAcl.Keys == {AclCid, InterestCid, PositionCid}
    ensures forall cid, attrs :: CanWrite(w.acl, cid, attrs) <==> cid in {AclCid, InterestCid, PositionCid} && "balancer" in attrs
    ensures forall attrs :: Satisfies(w.acl.readAcl, attrs) <==> "balancer" in attrs
    ensures w.meta.name == "Server" && w.pos.coords == Origin
  {
    var w := BalancedWorker(
      id := 0,
      acl := ImprobableAcl(RequireTag("balancer"),
        map[AclCid := RequireTag("balancer"),
            InterestCid := RequireTag("balancer"),
            PositionCid := RequireTag("balancer")]),
      pos := ImprobablePosition(Origin),
      meta := ImprobableMetadata("Server"),
      interest := NoInterest,
      workerId := "",
      workerEntityId := 0,
      aabb := ZeroAabb,
      killing := false,
      process := Handle(0));
    forall attrs ensures Satisfies(w.acl.readAcl, attrs) <==> "balancer" in attrs {
      RequireTagMeaning("balancer", attrs);
    }
    forall cid, attrs
      ensures CanWrite(w.acl, cid, attrs) <==> cid in {AclCid, InterestCid, PositionCid} && "balancer" in attrs
    {
      RequireTagMeaning("balancer", attrs);
    }
    w
  }

  /** The components of the anchor entity's create-entity request. */
  function ServerWorkerComponents(w: BalancedWorker): (m: map<ComponentId, ComponentData>)
    ensures m.Keys == {AclCid, PositionCid, MetadataCid, InterestCid}
  {
    map[AclCid := AclData(w.acl),
        PositionCid := PositionData(w.pos),
        MetadataCid := MetadataData(w.meta),
        InterestCid := InterestData(w.interest)]
  }

  /** The record appended once the anchor entity exists. It is a fresh
      value, not the requested anchor: access list, position, metadata and
      interest stay zero, the cell is the empty box. */
  function WorkerRecord(id: EntityId, workerId: string, workerEntityId: EntityId, process: Handle): (w: BalancedWorker)
    ensures w.id == id && w.workerId == workerId && w.workerEntityId == workerEntityId
    ensures w.process == process && !w.killing
    ensures forall pt :: !AabbContains(w.aabb, pt)
  {
    BalancedWorker(id, EmptyAcl, ImprobablePosition(Origin), ImprobableMetadata(""), NoInterest,
                   workerId, workerEntityId, ZeroAabb, false, process)
  }

  /** Every tracked entity is filed under its own id. */
  predicate FiledById(ents: map<EntityId, BalancedEntity>)
  {
    forall id :: id in ents ==> ents[id].id == id
  }

  // ---------------------------------------------------------------------
  // The live-worker count and the worker list edits of the handlers

  /** Workers not being shut down. */
  function LiveCount(ws: seq<BalancedWorker>): (n: nat)
    ensures n <= |ws|
    ensures n == |ws| <==> forall i :: 0 <= i < |ws| ==> !ws[i].killing
    ensures n == 0 <==> forall i :: 0 <= i < |ws| ==> ws[i].killing
  {
    if ws == [] then 0 else LiveCount(ws[..|ws| - 1]) + (if ws[|ws| - 1].killing then 0 else 1)
  }

  method CountLive(ws: seq<BalancedWorker>) returns (n: nat)
    ensures n == LiveCount(ws)
  {
    n := 0;
    var i := 0;
    while i < |ws|
      invariant 0 <= i <= |ws|
      invariant n == LiveCount(ws[..i])
    {
      assert ws[..i + 1][..i] == ws[..i];
      if !ws[i].killing {
        n := n + 1;
      }
      i := i + 1;
    }
    assert ws[..i] == ws;
  }

  lemma {:induction false} LiveCountSplit(ws: seq<BalancedWorker>)
    requires ws != []
    ensures LiveCount(ws) == (if ws[0].killing then 0 else 1) + LiveCount(ws[1..])
    decreases |ws|
  {
    if |ws| > 1 {
      LiveCountSplit(ws[..|ws| - 1]);
      assert ws[..|ws| - 1][1..] == ws[1..][..|ws| - 2];
    }
  }

  /** Marks the first worker as being shut down. */
  function MarkFirstKilling(ws: seq<BalancedWorker>): (r: seq<BalancedWorker>)
    ensures |r| == |ws|
    ensures ws != [] ==> r[0].killing && r[0].(killing := ws[0].killing) == ws[0]
    ensures forall i :: 0 < i < |ws| ==> r[i] == ws[i]
  {
    if ws == [] then ws else ws[0 := ws[0].(killing := true)]
  }

  /** Marking the first worker lowers the live count by one only if that
      worker was not already being shut down; otherwise the count stays. */
  lemma MarkFirstKillingLive(ws: seq<BalancedWorker>)
    requires ws != []
    ensures LiveCount(MarkFirstKilling(ws)) == LiveCount(ws) - (if ws[0].killing then 0 else 1)
    ensures ws[0].killing ==> LiveCount(MarkFirstKilling(ws)) == LiveCount(ws)
  {
    var r := MarkFirstKilling(ws);
    LiveCountSplit(ws);
    LiveCountSplit(r);
    assert r[1..] == ws[1..];
  }

  /** Index of the last worker whose identity component lives on entity
      `entity`, -1 if there is none. */
  function LastMatch(ws: seq<BalancedWorker>, entity: EntityId): (k: int)
    ensures -1 <= k < |ws|
    ensures k >= 0 ==> ws[k].workerEntityId == entity
    ensures forall j :: k < j < |ws| ==> ws[j].workerEntityId != entity
  {
    if ws == [] then -1
    else if ws[|ws| - 1].workerEntityId == entity then |ws| - 1
    else LastMatch(ws[..|ws| - 1], entity)
  }

  method FindLastMatch(ws: seq<BalancedWorker>, entity: EntityId) returns (k: int)
    ensures k == LastMatch(ws, entity)
  {
    k := -1;
    var i := 0;
    while i < |ws|
      invariant 0 <= i <= |ws|
      invariant k == LastMatch(ws[..i], entity)
    {
      assert ws[..i + 1][..i] == ws[..i];
      if ws[i].workerEntityId == entity {
        k := i;
      }
      i := i + 1;
    }
    assert ws[..i] == ws;
  }

  /** The list without element k, the others in their order. */
  function RemoveAt<T>(s: seq<T>, k: nat): (r: seq<T>)
    requires k < |s|
    ensures |r| == |s| - 1
    ensures forall j :: 0 <= j < k ==> r[j] == s[j]
    ensures forall j :: k <= j < |r| ==> r[j] == s[j + 1]
  {
    s[..k] + s[k + 1..]
  }

  /** The worker list without the last worker anchored at `entity`, if
      there is one. */
  function WithoutAnchor(ws: seq<BalancedWorker>, entity: EntityId): (r: seq<BalancedWorker>)
    ensures LastMatch(ws, entity) == -1 ==> r == ws
    ensures LastMatch(ws, entity) >= 0 ==> r == RemoveAt(ws, LastMatch(ws, entity))
  {
    var k := LastMatch(ws, entity);
    if k == -1 then ws else RemoveAt(ws, k)
  }

  /** The deletion of that worker's anchor entity, if there is one. */
  function AnchorDeletion(ws: seq<BalancedWorker>, entity: EntityId): seq<Event>
  {
    var k := LastMatch(ws, entity);
    if k == -1 then [] else [DeleteEntity(ws[k].id)]
  }

  /** Dropping the anchored worker removes one worker whose identity lives
      on `entity` and keeps every other worker, in order. */
  lemma WithoutAnchorSpec(ws: seq<BalancedWorker>, entity: EntityId)
    ensures var r := WithoutAnchor(ws, entity);
      && (|r| == |ws| <==> forall j :: 0 <= j < |ws| ==> ws[j].workerEntityId != entity)
      && (|r| < |ws| ==> |r| == |ws| - 1 && |AnchorDeletion(ws, entity)| == 1)
      && (forall j :: 0 <= j < |r| ==> r[j] in ws)
  {
    var k := LastMatch(ws, entity);
    if k >= 0 {
      var r := RemoveAt(ws, k);
      forall j | 0 <= j < |r| ensures r[j] in ws {
        if j < k { assert r[j] == ws[j]; } else { assert r[j] == ws[j + 1]; }
      }
    }
  }

  // ---------------------------------------------------------------------
  // One step of the fleet manager

  datatype FleetStep = FleetStep(
    workers: seq<BalancedWorker>,
    adjusting: bool,
    target: int,
    events: seq<Event>)

  /** Compares `required` workers with the live workers. Not adjusting
      and too few: record the target, start one worker and latch the
      adjusting flag. Not adjusting and too many: mark the first worker as
      being shut down and kill its process. Otherwise nothing. */
  function UpdateFleet(ws: seq<BalancedWorker>, adjusting: bool, target: int, required: nat): FleetStep
  {
    var live := LiveCount(ws);
    if required > live && !adjusting then
      FleetStep(ws, true, required, [StartServer])
    else if required < live && !adjusting then
      FleetStep(MarkFirstKilling(ws), adjusting, target, [KillWorker(ws[0].process)])
    else
      FleetStep(ws, adjusting, target, [])
  }

  /** A fleet step sends at most one request and never adds a live
      worker. It starts a worker exactly when it is not adjusting and there
      are fewer live workers than required, and then latches the flag and
      records the target; it kills the first worker exactly when it is not
      adjusting and there are more; while adjusting it does nothing. Only
      the first worker's record can change. */
  lemma UpdateFleetSpec(ws: seq<BalancedWorker>, adjusting: bool, target: int, required: nat)
    ensures var s := UpdateFleet(ws, adjusting, target, required);
      && |s.workers| == |ws| && |s.events| <= 1
      && LiveCount(s.workers) <= LiveCount(ws)
      && (adjusting ==> s == FleetStep(ws, adjusting, target, []))
      && (s.events == [StartServer] <==> !adjusting && required > LiveCount(ws))
      && (s.events == [StartServer] ==> s.adjusting && s.target == required && s.workers == ws)
      && ((!adjusting && required < LiveCount(ws)) <==> s.workers != [] && s.events == [KillWorker(ws[0].process)])
      && (forall j :: 0 < j < |ws| ==> s.workers[j] == ws[j])
  {
    if required < LiveCount(ws) && !adjusting {
      MarkFirstKillingLive(ws);
    }
  }

  // ---------------------------------------------------------------------
  // The access list, interest and position written for a worker's cell

  /** The cell's center, on the X/Z plane. */
  function CellCenter(b: Aabb): Coordinates
  {
    Coordinates(b.min.x + (b.max.x - b.min.x) / 2.0, 0.0, b.min.y + (b.max.y - b.min.y) / 2.0)
  }

  /** The box a worker's interest covers: the cell grown by a tenth. */
  function CellBox(b: Aabb): QbiConstraint
  {
    Box(CellCenter(b), EdgeLength((b.max.x - b.min.x) * 1.1, 10000.0, (b.max.y - b.min.y) * 1.1))
  }

  /** A worker-anchor access list: position workers and clients read it,
      only the balancer writes its interest and position. */
  function WorkerCellAcl(): ImprobableAcl
  {
    ImprobableAcl(
      WorkerRequirementSet([WorkerAttributeSet(["position"]), WorkerAttributeSet(["client"])]),
      map[InterestCid := RequireTag("balancer"), PositionCid := RequireTag("balancer")])
  }

  /** Once its cell is set, a worker's anchor can be written only by the
      balancer, and only its interest and position; position workers and
      clients read it. */
  lemma WorkerCellAclMeaning(cid: ComponentId, attrs: set<string>)
    ensures CanWrite(WorkerCellAcl(), cid, attrs) <==> cid in {InterestCid, PositionCid} && "balancer" in attrs
    ensures Satisfies(WorkerCellAcl().readAcl, attrs) <==> "position" in attrs || "client" in attrs
  {
    RequireTagMeaning("balancer", attrs);
    AnyTagMeaning(["position", "client"], attrs);
    assert WorkerCellAcl().readAcl
        == WorkerRequirementSet(seq(2, i requires 0 <= i < 2 => WorkerAttributeSet([["position", "client"][i]])));
  }

  /** The interest of a worker owning cell `b`: on position, every ship,
      bullet, effect or player input inside the grown cell. */
  function WorkerCellInterest(b: Aabb): ImprobableInterest
  {
    ImprobableInterest(map[PositionCid := ComponentInterest([
      Query(And([CellBox(b), GameplayFilter]),
            [ShipCid, PositionCid, EffectCid, BulletCid, PlayerInputCid])])])
  }

  /** The three writes that hand cell `b` to the worker anchored at `id`:
      its access list, its interest, and its position at the cell's center.
      The worker id does not appear in them. */
  function SetWorkerAclEvents(id: EntityId, workerId: string, b: Aabb): (evs: seq<Event>)
    ensures |evs| == 3
  {
    [UpdateComponent(id, AclCid, AclData(WorkerCellAcl())),
     UpdateComponent(id, InterestCid, InterestData(WorkerCellInterest(b))),
     UpdateComponent(id, PositionCid, PositionData(ImprobablePosition(CellCenter(b))))]
  }

  /** The three writes all go to the anchor, in the order access list,
      interest, position, and do not depend on the worker id. */
  lemma SetWorkerAclEventsShape(id: EntityId, workerId: string, other: string, b: Aabb)
    ensures var evs := SetWorkerAclEvents(id, workerId, b);
      && (forall e :: e in evs ==> e.UpdateComponent? && e.entity == id)
      && evs[0].cid == AclCid && evs[1].cid == InterestCid && evs[2].cid == PositionCid
      && evs == SetWorkerAclEvents(id, other, b)
  {
  }

  /** The gameplay-component filter of a worker's interest. */
  const GameplayFilter := Or([ComponentIdIs(ShipCid), ComponentIdIs(BulletCid),
                              ComponentIdIs(EffectCid), ComponentIdIs(PlayerInputCid)])

  /** The interest a worker gets is absolute and filters on the four
      gameplay components. */
  lemma WorkerCellInterestFilters(b: Aabb)
    ensures var q := WorkerCellInterest(b).interest[PositionCid].queries[0];
      !Relative(q.constraint)
      && ComponentFilters(q.constraint) == {ShipCid, BulletCid, EffectCid, PlayerInputCid}
  {
    var c := WorkerCellInterest(b).interest[PositionCid].queries[0].constraint;
    assert c == And([CellBox(b), GameplayFilter]);
    GameplayFilterMeaning();
    AndOfTwo(CellBox(b), GameplayFilter);
  }

  lemma GameplayFilterMeaning()
    ensures !Relative(GameplayFilter)
    ensures ComponentFilters(GameplayFilter) == {ShipCid, BulletCid, EffectCid, PlayerInputCid}
  {
    var filters := GameplayFilter;
    assert !Relative(filters) by {
      forall i | 0 <= i < |filters.any| ensures !Relative(filters.any[i]) {
      }
    }
    assert ComponentFilters(filters.any[0]) == {ShipCid};
    assert ComponentFilters(filters.any[1]) == {BulletCid};
    assert ComponentFilters(filters.any[2]) == {EffectCid};
    assert ComponentFilters(filters.any[3]) == {PlayerInputCid};
  }

  /** A worker's interest box holds the whole cell, and the anchor's
      position, the cell's center, lies inside the cell. */
  lemma CellBoxCoversCell(b: Aabb, pt: Coordinates)
    requires b.min.x < b.max.x && b.min.y < b.max.y
    ensures AabbContains(b, CellCenter(b))
    ensures var box := CellBox(b);
      AabbContains(b, pt) ==>
        box.center.x - box.edge.x / 2.0 <= pt.x <= box.center.x + box.edge.x / 2.0
        && box.center.z - box.edge.z / 2.0 <= pt.z <= box.center.z + box.edge.z / 2.0
  {
  }

  // ---------------------------------------------------------------------
  // The grid applied to the worker list

  /** Cells per row for `n` workers. */
  function CellCount(n: nat): (cc: nat)
    ensures cc * cc <= n < (cc + 1) * (cc + 1)
  {
    FloorSqrt(n)
  }

  /** The first n workers get their grid cells; the rest keep theirs. */
  function LaidOut(ws: seq<BalancedWorker>, n: nat, cc: nat, xSize: int, ySize: int): (r: seq<BalancedWorker>)
    requires cc > 0
    ensures |r| == |ws|
  {
    seq(|ws|, i requires 0 <= i < |ws| =>
      if i < n then ws[i].(aabb := GridCell(i, cc, xSize, ySize)) else ws[i])
  }

  /** Laying out the first n cells gives worker i < n grid cell i, leaves
      the later workers alone and changes nothing but cells. */
  lemma LaidOutSpec(ws: seq<BalancedWorker>, n: nat, cc: nat, xSize: int, ySize: int)
    requires cc > 0
    ensures var r := LaidOut(ws, n, cc, xSize, ySize);
      && (forall i :: 0 <= i < |ws| ==> r[i].(aabb := ws[i].aabb) == ws[i])
      && (forall i :: 0 <= i < n && i < |ws| ==> r[i].aabb == GridCell(i, cc, xSize, ySize))
      && (forall i :: n <= i < |ws| ==> r[i] == ws[i])
  {
  }

  /** Laying out one more cell changes only that worker's cell. */
  lemma LaidOutStep(ws: seq<BalancedWorker>, n: nat, cc: nat, xSize: int, ySize: int)
    requires cc > 0 && n < |ws|
    ensures LaidOut(ws, n + 1, cc, xSize, ySize)
         == LaidOut(ws, n, cc, xSize, ySize)[n := ws[n].(aabb := GridCell(n, cc, xSize, ySize))]
  {
  }

  /** The writes for the first n cells, in index order. */
  function GridEvents(ws: seq<BalancedWorker>, n: nat, cc: nat, xSize: int, ySize: int): (evs: seq<Event>)
    requires cc > 0 && n <= |ws|
    ensures |evs| == 3 * n
  {
    if n == 0 then []
    else GridEvents(ws, n - 1, cc, xSize, ySize)
         + SetWorkerAclEvents(ws[n - 1].id, ws[n - 1].workerId, GridCell(n - 1, cc, xSize, ySize))
  }

  /** The writes for one more cell follow those of the cells before it. */
  lemma GridEventsStep(ws: seq<BalancedWorker>, n: nat, cc: nat, xSize: int, ySize: int)
    requires cc > 0 && n < |ws|
    ensures GridEvents(ws, n + 1, cc, xSize, ySize)
         == GridEvents(ws, n, cc, xSize, ySize) + SetWorkerAclEvents(ws[n].id, ws[n].workerId, GridCell(n, cc, xSize, ySize))
  {
  }

  /** Worker i's three writes sit at positions 3i, 3i+1 and 3i+2. */
  lemma {:induction false} GridEventsAt(ws: seq<BalancedWorker>, n: nat, cc: nat, xSize: int, ySize: int, i: nat)
    requires cc > 0 && n <= |ws| && i < n
    ensures GridEvents(ws, n, cc, xSize, ySize)[3 * i..3 * i + 3]
         == SetWorkerAclEvents(ws[i].id, ws[i].workerId, GridCell(i, cc, xSize, ySize))
  {
    var prev := GridEvents(ws, n - 1, cc, xSize, ySize);
    var evs := GridEvents(ws, n, cc, xSize, ySize);
    assert evs == prev + SetWorkerAclEvents(ws[n - 1].id, ws[n - 1].workerId, GridCell(n - 1, cc, xSize, ySize));
    if i < n - 1 {
      GridEventsAt(ws, n - 1, cc, xSize, ySize, i);
      assert evs[3 * i..3 * i + 3] == prev[3 * i..3 * i + 3];
    } else {
      assert evs[3 * i..3 * i + 3] == evs[|prev|..];
    }
  }

  function XSize(ws: seq<BalancedWorker>, world: Aabb): int
    requires ws != []
  {
    CellSize(world.min.x, world.max.x, CellCount(|ws|))
  }

  function YSize(ws: seq<BalancedWorker>, world: Aabb): int
    requires ws != []
  {
    CellSize(world.min.y, world.max.y, CellCount(|ws|))
  }

  /** The worker list after the grid is laid over `world`. */
  function Rebalanced(ws: seq<BalancedWorker>, world: Aabb): (r: seq<BalancedWorker>)
    requires ws != []
  {
    var cc := CellCount(|ws|);
    LaidOut(ws, cc * cc, cc, XSize(ws, world), YSize(ws, world))
  }

  function RebalanceEvents(ws: seq<BalancedWorker>, world: Aabb): seq<Event>
    requires ws != []
  {
    var cc := CellCount(|ws|);
    GridEvents(ws, cc * cc, cc, XSize(ws, world), YSize(ws, world))
  }

  /** Laying the grid out changes only the cells of the first cc^2 workers,
      and doing it again changes nothing and writes the same. */
  lemma RebalanceStable(ws: seq<BalancedWorker>, world: Aabb)
    requires ws != []
    ensures var r := Rebalanced(ws, world);
      && |r| == |ws|
      && (forall i :: 0 <= i < |ws| ==> r[i] == ws[i].(aabb := r[i].aabb))
      && (forall i :: CellCount(|ws|) * CellCount(|ws|) <= i < |ws| ==> r[i] == ws[i])
      && Rebalanced(r, world) == r
      && RebalanceEvents(r, world) == RebalanceEvents(ws, world)
  {
    var r := Rebalanced(ws, world);
    var cc := CellCount(|ws|);
    var xs, ys := XSize(ws, world), YSize(ws, world);
    assert XSize(r, world) == xs && YSize(r, world) == ys;
    SameIdsSameEvents(ws, r, cc * cc, cc, xs, ys);
  }

  lemma {:induction false} SameIdsSameEvents(ws: seq<BalancedWorker>, vs: seq<BalancedWorker>, n: nat, cc: nat, xSize: int, ySize: int)
    requires cc > 0 && n <= |ws| == |vs|
    requires forall i :: 0 <= i < |ws| ==> ws[i].id == vs[i].id && ws[i].workerId == vs[i].workerId
    ensures GridEvents(ws, n, cc, xSize, ySize) == GridEvents(vs, n, cc, xSize, ySize)
  {
    if n > 0 {
      SameIdsSameEvents(ws, vs, n - 1, cc, xSize, ySize);
    }
  }

  /** How many workers are anchored at entity `id`. */
  function CountId(ws: seq<BalancedWorker>, id: EntityId): (c: nat)
    ensures c <= |ws|
  {
    if ws == [] then 0
    else CountId(ws[..|ws| - 1], id) + (if ws[|ws| - 1].id == id then 1 else 0)
  }

  /** Some worker is anchored at `id` exactly when the count is positive. */
  lemma {:induction false} CountIdPositive(ws: seq<BalancedWorker>, id: EntityId)
    ensures CountId(ws, id) > 0 <==> exists j :: 0 <= j < |ws| && ws[j].id == id
  {
    if ws != [] {
      var front := ws[..|ws| - 1];
      CountIdPositive(front, id);
      if exists j :: 0 <= j < |front| && front[j].id == id {
        var j :| 0 <= j < |front| && front[j].id == id;
        assert ws[j].id == id;
      }
      if exists j :: 0 <= j < |ws| && ws[j].id == id {
        var j :| 0 <= j < |ws| && ws[j].id == id;
        if j < |front| {
          assert front[j].id == id;
        }
      }
    }
  }

  /** k copies of evs, one after the other. */
  function Repeat(evs: seq<Event>, k: nat): (r: seq<Event>)
    ensures |r| == k * |evs|
  {
    if k == 0 then [] else Repeat(evs, k - 1) + evs
  }

  // ---------------------------------------------------------------------
  // The bot fleet under a NUM_BOTS flag

  /** n fresh bot handles, numbered from `next`. */
  function NewBots(next: nat, n: nat): (r: seq<Handle>)
    ensures |r| == n && forall i :: 0 <= i < n ==> r[i] == Handle(next + i)
  {
    seq(n, i requires 0 <= i < n => Handle(next + i))
  }

  /** The bots after the flag asks for `target` of them: new bots join at
      the end; surplus bots leave from the front, the oldest first. */
  function BotsAfter(bots: seq<Handle>, target: int, next: nat): seq<Handle>
  {
    if target > |bots| then bots + NewBots(next, target - |bots|)
    else bots[|bots| - BotTarget(target)..]
  }

  /** The next free handle number afterwards. */
  function NextAfter(bots: seq<Handle>, target: int, next: nat): nat
  {
    if target > |bots| then next + (target - |bots|) else next
  }

  /** One start for each of n bots numbered from `next`. */
  function StartEvents(next: nat, n: nat): seq<Event>
  {
    seq(n, i requires 0 <= i < n => StartBot(Handle(next + i)))
  }

  /** One kill for each of `bots`, in order. */
  function KillEvents(bots: seq<Handle>): seq<Event>
  {
    seq(|bots|, i requires 0 <= i < |bots| => KillBot(bots[i]))
  }

  /** One start per new bot, or one kill per removed bot, in order. */
  function BotEvents(bots: seq<Handle>, target: int, next: nat): seq<Event>
  {
    if target > |bots| then StartEvents(next, target - |bots|)
    else KillEvents(bots[..|bots| - BotTarget(target)])
  }

  /** The bot handles are numbered in start order and below `next`. */
  predicate BotsOrdered(bots: seq<Handle>, next: nat)
  {
    && (forall i :: 0 <= i < |bots| ==> bots[i].token < next)
    && (forall i, j :: 0 <= i < j < |bots| ==> bots[i].token < bots[j].token)
  }

  /** The fleet ends at max(target, 0) bots: it only grows by fresh bots
      appended after the old ones, or only shrinks by dropping the oldest,
      keeps the handles ordered, and a second identical flag does nothing. */
  lemma BotsConverge(bots: seq<Handle>, target: int, next: nat)
    requires BotsOrdered(bots, next)
    ensures var r := BotsAfter(bots, target, next);
      var n := NextAfter(bots, target, next);
      && |r| == BotTarget(target)
      && (target > |bots| ==> r[..|bots|] == bots && |BotEvents(bots, target, next)| == target - |bots|)
      && (target <= |bots| ==> r == bots[|bots| - |r|..] && |BotEvents(bots, target, next)| == |bots| - |r|)
      && BotsOrdered(r, n)
      && BotsAfter(r, target, n) == r && BotEvents(r, target, n) == []
  {
    var r := BotsAfter(bots, target, next);
    if target > |bots| {
      assert r[..|bots|] == bots;
    }
  }
}
