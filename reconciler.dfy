/** The authority reconciler, entity by entity: an entity that is not inside
    the cell of the worker it is assigned to is handed to every worker
    whose cell holds it, in worker order, so the last such worker keeps it.
    Handing over records the worker's index on the entity and gives that
    worker, alone, write access to the entity's ship, bullet, position and
    effect components where the entity's access list has them. */
module Reconciler {
  import opened GoStd
  import opened Geometry
  import opened ServerScene
  import opened Components
  import opened Transport
  import opened Grid
  import opened Balanced
  import ShipEntity
  import AttackSystem
  import EffectEntity

  /** The components whose write access follows the owning worker. */
  const SpatialCids: seq<ComponentId> := [ShipCid, BulletCid, PositionCid, EffectCid]

  function WorkerTag(workerId: string): string { "workerId:" + workerId }

  /** The write-access map with each of `keys` that it already has
      reassigned to the single tag `tag`; other entries are kept and no
      entry is added. */
  function RewriteKeys(m: map<ComponentId, WorkerRequirementSet>, keys: seq<ComponentId>, tag: string): (r: map<ComponentId, WorkerRequirementSet>)
  {
    map k | k in m :: if k in keys then RequireTag(tag) else m[k]
  }

  /** After the rewrite a listed component is writable by exactly the
      workers carrying the tag, the others as before, and no component
      gains or loses an entry. */
  lemma RewriteMeaning(acl: ImprobableAcl, keys: seq<ComponentId>, tag: string, cid: ComponentId, attrs: set<string>)
    ensures var r := acl.(componentWriteAcl := RewriteKeys(acl.componentWriteAcl, keys, tag));
      && r.componentWriteAcl.Keys == acl.componentWriteAcl.Keys
      && (cid in keys ==> (CanWrite(r, cid, attrs) <==> cid in acl.componentWriteAcl && tag in attrs))
      && (cid !in keys ==> (CanWrite(r, cid, attrs) <==> CanWrite(acl, cid, attrs)))
  {
    RequireTagMeaning(tag, attrs);
  }

  /** A second rewrite of the same keys replaces the first. */
  lemma RewriteTwice(m: map<ComponentId, WorkerRequirementSet>, keys: seq<ComponentId>, t1: string, t2: string)
    ensures RewriteKeys(RewriteKeys(m, keys, t1), keys, t2) == RewriteKeys(m, keys, t2)
  {
  }

  /** Hands entity `e` to worker `w`, which sits at index i of the list. */
  function Adjusted(i: int, e: BalancedEntity, w: BalancedWorker): (r: BalancedEntity)
    ensures r.id == e.id && r.pos == e.pos && r.client == e.client && r.acl.readAcl == e.acl.readAcl
    ensures r.worker.workerId == WrapInt32(i)
  {
    e.(worker := WorkerComponent(WrapInt32(i)),
       acl := e.acl.(componentWriteAcl := RewriteKeys(e.acl.componentWriteAcl, SpatialCids, WorkerTag(w.workerId))))
  }

  /** The two writes a handover sends: the worker index, then the access
      list. */
  function AdjustEvents(e: BalancedEntity): seq<Event>
  {
    [UpdateComponent(e.id, WorkerBalancerCid, WorkerData(e.worker)),
     UpdateComponent(e.id, AclCid, AclData(e.acl))]
  }

  /** The entity sits inside the cell of the worker it is assigned to. */
  predicate Holds(e: BalancedEntity, ws: seq<BalancedWorker>)
  {
    0 <= e.worker.workerId as int < |ws| && AabbContains(ws[e.worker.workerId].aabb, e.pos.coords)
  }

  /** The entity after the first n workers have been offered it. */
  function Scan(e: BalancedEntity, ws: seq<BalancedWorker>, n: nat): (r: BalancedEntity)
    requires n <= |ws|
    ensures r.id == e.id && r.pos == e.pos && r.client == e.client && r.acl.readAcl == e.acl.readAcl
    ensures r.acl.componentWriteAcl.Keys == e.acl.componentWriteAcl.Keys
  {
    if n == 0 then e
    else
      var p := Scan(e, ws, n - 1);
      if AabbContains(ws[n - 1].aabb, p.pos.coords) then Adjusted(n - 1, p, ws[n - 1]) else p
  }

  /** The writes sent while the first n workers are offered the entity. */
  function ScanEvents(e: BalancedEntity, ws: seq<BalancedWorker>, n: nat): (evs: seq<Event>)
    requires n <= |ws|
  {
    if n == 0 then []
    else ScanEvents(e, ws, n - 1)
         + (if AabbContains(ws[n - 1].aabb, e.pos.coords) then AdjustEvents(Scan(e, ws, n)) else [])
  }

  /** Index of the last of the first n workers whose cell holds pt, -1 if
      none does. */
  function LastContaining(ws: seq<BalancedWorker>, n: nat, pt: Coordinates): (k: int)
    requires n <= |ws|
    ensures -1 <= k < n
    ensures k >= 0 ==> AabbContains(ws[k].aabb, pt)
    ensures forall j :: k < j < n ==> !AabbContains(ws[j].aabb, pt)
  {
    if n == 0 then -1
    else if AabbContains(ws[n - 1].aabb, pt) then n - 1
    else LastContaining(ws, n - 1, pt)
  }

  /** Number of the first n workers whose cell holds pt. */
  function Containing(ws: seq<BalancedWorker>, n: nat, pt: Coordinates): (c: nat)
    requires n <= |ws|
    ensures c <= n
  {
    if n == 0 then 0 else Containing(ws, n - 1, pt) + (if AabbContains(ws[n - 1].aabb, pt) then 1 else 0)
  }

  /** The scan leaves the entity alone if no worker's cell holds it;
      otherwise the entity ends up with the index of the last worker whose
      cell holds it and an access list rewritten for that worker alone.
      Every holding worker costs two writes, the last pair carrying the
      final entity. */
  lemma {:induction false} ScanSpec(e: BalancedEntity, ws: seq<BalancedWorker>, n: nat)
    requires n <= |ws|
    ensures var k := LastContaining(ws, n, e.pos.coords);
      && (k == -1 ==> Scan(e, ws, n) == e)
      && (k >= 0 ==> Scan(e, ws, n) == Adjusted(k, e, ws[k]))
    ensures |ScanEvents(e, ws, n)| == 2 * Containing(ws, n, e.pos.coords)
    ensures LastContaining(ws, n, e.pos.coords) >= 0 ==>
      |ScanEvents(e, ws, n)| >= 2
      && ScanEvents(e, ws, n)[|ScanEvents(e, ws, n)| - 2..] == AdjustEvents(Scan(e, ws, n))
  {
    if n > 0 {
      ScanSpec(e, ws, n - 1);
      var k := LastContaining(ws, n - 1, e.pos.coords);
      if AabbContains(ws[n - 1].aabb, e.pos.coords) && k >= 0 {
        RewriteTwice(e.acl.componentWriteAcl, SpatialCids, WorkerTag(ws[k].workerId), WorkerTag(ws[n - 1].workerId));
      }
    }
  }

  /** The entity after one pass of the reconciler. */
  function Reconcile(e: BalancedEntity, ws: seq<BalancedWorker>): (r: BalancedEntity)
    ensures r.id == e.id && r.pos == e.pos && r.client == e.client
  {
    if Holds(e, ws) then e else Scan(e, ws, |ws|)
  }

  /** The writes one pass sends for the entity. */
  function ReconcileEvents(e: BalancedEntity, ws: seq<BalancedWorker>): seq<Event>
  {
    if Holds(e, ws) then [] else ScanEvents(e, ws, |ws|)
  }

  /** A pass settles the entity: if some worker's cell holds it, it is
      afterwards held by the last such worker, with write access to its
      spatial components given to that worker; if none does, it is left
      alone and nothing is sent. An entity already held is never touched. */
  lemma ReconcileSettles(e: BalancedEntity, ws: seq<BalancedWorker>)
    requires |ws| <= 0x8000_0000
    ensures Holds(e, ws) ==> Reconcile(e, ws) == e && ReconcileEvents(e, ws) == []
    ensures var k := LastContaining(ws, |ws|, e.pos.coords);
      !Holds(e, ws) && k >= 0 ==>
        && Reconcile(e, ws) == Adjusted(k, e, ws[k])
        && Reconcile(e, ws).worker.workerId as int == k
        && Holds(Reconcile(e, ws), ws)
        && |ReconcileEvents(e, ws)| == 2 * Containing(ws, |ws|, e.pos.coords)
    ensures LastContaining(ws, |ws|, e.pos.coords) == -1 ==>
      Reconcile(e, ws) == e && ReconcileEvents(e, ws) == []
  {
    ScanSpec(e, ws, |ws|);
    NoneContainingNoEvents(e, ws, |ws|);
  }

  lemma {:induction false} NoneContainingNoEvents(e: BalancedEntity, ws: seq<BalancedWorker>, n: nat)
    requires n <= |ws|
    ensures LastContaining(ws, n, e.pos.coords) == -1 ==> ScanEvents(e, ws, n) == []
  {
    if n > 0 {
      NoneContainingNoEvents(e, ws, n - 1);
    }
  }

  /** A second pass right after the first changes nothing and sends
      nothing. */
  lemma ReconcileIdempotent(e: BalancedEntity, ws: seq<BalancedWorker>)
    requires |ws| <= 0x8000_0000
    ensures Reconcile(Reconcile(e, ws), ws) == Reconcile(e, ws)
    ensures ReconcileEvents(Reconcile(e, ws), ws) == []
  {
    ReconcileSettles(e, ws);
    ReconcileSettles(Reconcile(e, ws), ws);
  }

  // ---------------------------------------------------------------------
  // A pass over all tracked entities

  /** `order` lists every key of `keys` exactly once. */
  predicate IsOrderOf(order: seq<EntityId>, keys: set<EntityId>)
  {
    && (forall i :: 0 <= i < |order| ==> order[i] in keys)
    && (forall k :: k in keys ==> k in order)
    && (forall i, j :: 0 <= i < j < |order| ==> order[i] != order[j])
  }

  /** Every tracked entity after one pass; the result does not depend on
      the order in which entities are visited. */
  function ReconcileAll(ents: map<EntityId, BalancedEntity>, ws: seq<BalancedWorker>): (r: map<EntityId, BalancedEntity>)
    ensures r.Keys == ents.Keys
  {
    map id | id in ents :: Reconcile(ents[id], ws)
  }

  /** The writes of a pass that visits the entities in `order`. */
  function EventsFor(order: seq<EntityId>, ents: map<EntityId, BalancedEntity>, ws: seq<BalancedWorker>): seq<Event>
    requires forall i :: 0 <= i < |order| ==> order[i] in ents
  {
    if order == [] then []
    else EventsFor(order[..|order| - 1], ents, ws) + ReconcileEvents(ents[order[|order| - 1]], ws)
  }

  lemma EventsForSnoc(order: seq<EntityId>, id: EntityId, ents: map<EntityId, BalancedEntity>, ws: seq<BalancedWorker>)
    requires forall i :: 0 <= i < |order| ==> order[i] in ents
    requires id in ents
    ensures EventsFor(order + [id], ents, ws) == EventsFor(order, ents, ws) + ReconcileEvents(ents[id], ws)
  {
    assert (order + [id])[..|order|] == order;
  }

  /** Midway through a pass over `ents`: the entities in `order` have been
      visited, once each, and are reconciled in `cur`; those in `remaining`
      are still as they were. */
  predicate PartialPass(ents: map<EntityId, BalancedEntity>, cur: map<EntityId, BalancedEntity>,
                        remaining: set<EntityId>, order: seq<EntityId>, ws: seq<BalancedWorker>)
  {
    && remaining <= ents.Keys && cur.Keys == ents.Keys
    && (forall k :: k in ents ==> cur[k] == if k in remaining then ents[k] else Reconcile(ents[k], ws))
    && (forall i :: 0 <= i < |order| ==> order[i] in ents && order[i] !in remaining)
    && (forall i, j :: 0 <= i < j < |order| ==> order[i] != order[j])
    && (forall k :: k in ents ==> k in remaining || k in order)
  }

  /** Visiting one more entity keeps the pass consistent. */
  lemma PartialPassStep(ents: map<EntityId, BalancedEntity>, cur: map<EntityId, BalancedEntity>,
                        remaining: set<EntityId>, order: seq<EntityId>, ws: seq<BalancedWorker>, id: EntityId)
    requires PartialPass(ents, cur, remaining, order, ws) && id in remaining
    ensures id in ents && id in cur && cur[id] == ents[id]
    ensures PartialPass(ents, cur[id := Reconcile(ents[id], ws)], remaining - {id}, order + [id], ws)
    ensures EventsFor(order + [id], ents, ws) == EventsFor(order, ents, ws) + ReconcileEvents(ents[id], ws)
  {
    EventsForSnoc(order, id, ents, ws);
  }

  /** A pass with nothing left to visit has reconciled every entity, and
      its order lists each exactly once. */
  lemma PartialPassDone(ents: map<EntityId, BalancedEntity>, cur: map<EntityId, BalancedEntity>,
                        order: seq<EntityId>, ws: seq<BalancedWorker>)
    requires PartialPass(ents, cur, {}, order, ws)
    ensures cur == ReconcileAll(ents, ws) && IsOrderOf(order, ents.Keys)
  {
  }

  /** The log `now` is the log `before` followed by a pass that visited
      every entity of `ents` once, in some order, and sent exactly the
      writes of that order. */
  ghost predicate ReconciledAfter(now: seq<Event>, before: seq<Event>, ents: map<EntityId, BalancedEntity>, ws: seq<BalancedWorker>)
  {
    exists order :: IsOrderOf(order, ents.Keys) && now == before + EventsFor(order, ents, ws)
  }

  lemma {:induction false} EventsForSettled(order: seq<EntityId>, ents: map<EntityId, BalancedEntity>, ws: seq<BalancedWorker>)
    requires forall i :: 0 <= i < |order| ==> order[i] in ents
    requires forall i :: 0 <= i < |order| ==> ReconcileEvents(ents[order[i]], ws) == []
    ensures EventsFor(order, ents, ws) == []
  {
    if order != [] {
      EventsForSettled(order[..|order| - 1], ents, ws);
    }
  }

  /** A second pass over all entities right after the first sends nothing,
      in whatever order it visits them, and changes nothing. */
  lemma ReconcileAllIdempotent(ents: map<EntityId, BalancedEntity>, ws: seq<BalancedWorker>, order: seq<EntityId>)
    requires |ws| <= 0x8000_0000
    requires IsOrderOf(order, ents.Keys)
    ensures ReconcileAll(ReconcileAll(ents, ws), ws) == ReconcileAll(ents, ws)
    ensures EventsFor(order, ReconcileAll(ents, ws), ws) == []
  {
    var r := ReconcileAll(ents, ws);
    forall id | id in ents ensures ReconcileEvents(r[id], ws) == [] && Reconcile(r[id], ws) == r[id] {
      ReconcileIdempotent(ents[id], ws);
    }
    EventsForSettled(order, r, ws);
  }

  // ---------------------------------------------------------------------
  // What a handover means for each kind of entity

  /** A client's ship handed to worker w: the worker alone writes its ship
      and position components, the client keeps its input, and its interest
      stays with position workers. */
  lemma ShipHandover(client: string, e: BalancedEntity, i: int, w: BalancedWorker, cid: ComponentId, attrs: set<string>)
    requires e.acl == ShipEntity.ShipAcl(client)
    ensures var r := Adjusted(i, e, w);
      && (cid in {ShipCid, PositionCid} ==> (CanWrite(r.acl, cid, attrs) <==> WorkerTag(w.workerId) in attrs))
      && (cid == PlayerInputCid ==> (CanWrite(r.acl, cid, attrs) <==> ShipEntity.ClientTag(client) in attrs))
      && (cid == InterestCid ==> (CanWrite(r.acl, cid, attrs) <==> "position" in attrs))
      && (cid !in {ShipCid, PositionCid, PlayerInputCid, InterestCid} ==> !CanWrite(r.acl, cid, attrs))
  {
    RewriteMeaning(e.acl, SpatialCids, WorkerTag(w.workerId), cid, attrs);
    ShipEntity.ShipAclMeaning(client, attrs);
  }

  /** A bullet handed to worker w: the worker alone writes both its bullet
      and its position component. */
  lemma BulletHandover(e: BalancedEntity, i: int, w: BalancedWorker, cid: ComponentId, attrs: set<string>)
    requires e.acl == AttackSystem.BulletAcl()
    ensures CanWrite(Adjusted(i, e, w).acl, cid, attrs) <==> cid in {BulletCid, PositionCid} && WorkerTag(w.workerId) in attrs
  {
    RewriteMeaning(e.acl, SpatialCids, WorkerTag(w.workerId), cid, attrs);
  }

  /** An effect handed to worker w: the worker alone writes its effect and
      position components; its access list and worker index stay with the
      balancer. */
  lemma EffectHandover(e: BalancedEntity, i: int, w: BalancedWorker, cid: ComponentId, attrs: set<string>)
    requires e.acl == EffectEntity.EffectAcl()
    ensures var r := Adjusted(i, e, w);
      && (cid in {EffectCid, PositionCid} ==> (CanWrite(r.acl, cid, attrs) <==> WorkerTag(w.workerId) in attrs))
      && (cid in {AclCid, WorkerBalancerCid} ==> (CanWrite(r.acl, cid, attrs) <==> "balancer" in attrs))
      && (cid !in {EffectCid, PositionCid, AclCid, WorkerBalancerCid} ==> !CanWrite(r.acl, cid, attrs))
  {
    RewriteMeaning(e.acl, SpatialCids, WorkerTag(w.workerId), cid, attrs);
    RequireTagMeaning("balancer", attrs);
  }

  // ---------------------------------------------------------------------
  // Reconciling against a freshly laid-out grid

  /** With a square number of workers laid out on the grid, an entity
      inside the gridded rectangle that is not already held goes to exactly
      one worker: the one whose cell index the point's column and row give. */
  lemma GridAssignment(e: BalancedEntity, ws: seq<BalancedWorker>, world: Aabb, cc: nat, xs: int, ys: int)
    requires 0 < cc && |ws| == cc * cc <= 0x8000_0000
    requires xs == CellSize(world.min.x, world.max.x, cc) && ys == CellSize(world.min.y, world.max.y, cc)
    requires xs > 0 && ys > 0
    requires 0.0 <= e.pos.coords.x < (cc * xs) as real
    requires 0.0 <= e.pos.coords.z < (cc * ys) as real
    ensures var r := Rebalanced(ws, world);
      var i := CellIndex(e.pos.coords, cc, xs, ys);
      && 0 <= i < |r|
      && Containing(r, |r|, e.pos.coords) == 1
      && Reconcile(e, r).worker.workerId as int == i
      && (!Holds(e, r) ==> |ReconcileEvents(e, r)| == 2)
  {
    FloorSqrtOfSquare(cc);
    assert XSize(ws, world) == xs && YSize(ws, world) == ys;
    var r := Rebalanced(ws, world);
    var pt := e.pos.coords;
    GridLookup(cc, xs, ys, pt);
    var i := CellIndex(pt, cc, xs, ys);
    assert forall j :: 0 <= j < |r| ==> r[j].aabb == GridCell(j, cc, xs, ys);
    OnlyOneContaining(r, |r|, pt, i);
    ReconcileSettles(e, r);
    if Holds(e, r) {
      assert AabbContains(GridCell(e.worker.workerId as int, cc, xs, ys), pt);
    }
  }

  /** The grid starts at the origin and its cells are half-open, so an
      entity outside the gridded rectangle, such as a ship clamped onto the
      world's far edge, lies in no cell: a pass leaves it alone and sends
      nothing. */
  lemma OutsideGridKept(e: BalancedEntity, ws: seq<BalancedWorker>, world: Aabb, cc: nat, xs: int, ys: int)
    requires 0 < cc && |ws| == cc * cc <= 0x8000_0000
    requires xs == CellSize(world.min.x, world.max.x, cc) && ys == CellSize(world.min.y, world.max.y, cc)
    requires xs > 0 && ys > 0
    requires !(0.0 <= e.pos.coords.x < (cc * xs) as real) || !(0.0 <= e.pos.coords.z < (cc * ys) as real)
    ensures var r := Rebalanced(ws, world);
      && Containing(r, |r|, e.pos.coords) == 0
      && Reconcile(e, r) == e && ReconcileEvents(e, r) == []
  {
    FloorSqrtOfSquare(cc);
    assert XSize(ws, world) == xs && YSize(ws, world) == ys;
    var r := Rebalanced(ws, world);
    var pt := e.pos.coords;
    forall j | 0 <= j < |r| ensures !AabbContains(r[j].aabb, pt) {
      assert r[j].aabb == GridCell(j, cc, xs, ys);
      if AabbContains(r[j].aabb, pt) {
        CellInsideGrid(j, cc, xs, ys, pt);
      }
    }
    NoneBelow(r, |r|, pt);
    ReconcileSettles(e, r);
  }

  lemma {:induction false} OnlyOneContaining(ws: seq<BalancedWorker>, n: nat, pt: Coordinates, i: nat)
    requires i < n <= |ws|
    requires AabbContains(ws[i].aabb, pt)
    requires forall j :: 0 <= j < |ws| && j != i ==> !AabbContains(ws[j].aabb, pt)
    ensures Containing(ws, n, pt) == 1 && LastContaining(ws, n, pt) == i
  {
    if n - 1 > i {
      OnlyOneContaining(ws, n - 1, pt, i);
    } else {
      NoneBelow(ws, i, pt);
    }
  }

  lemma {:induction false} NoneBelow(ws: seq<BalancedWorker>, n: nat, pt: Coordinates)
    requires n <= |ws|
    requires forall j :: 0 <= j < n ==> !AabbContains(ws[j].aabb, pt)
    ensures Containing(ws, n, pt) == 0
  {
    if n > 0 {
      NoneBelow(ws, n - 1, pt);
    }
  }
}
