/** The authority balancer: a coordinator process that tracks the
    simulation workers, the client connections, the bot processes and every
    entity whose authority it moves. It lays the workers out on a grid over
    the world, hands each entity to the worker whose cell holds it, and
    grows or shrinks the worker and bot fleets. Transport writes and process
    starts and kills are appended to the `events` log. */
module Balancer {
  import opened GoStd
  import opened Wrappers
  import opened Geometry
  import opened ServerScene
  import opened Components
  import opened Transport
  import opened Grid
  import opened Fleet
  import opened Balanced
  import opened Reconciler
  import ShipEntity

  /** `v` is `r * m` for some `r` in [0, 1): a uniform draw scaled by `m`. */
  predicate ScaledDraw(v: real, m: real)
  {
    if m > 0.0 then 0.0 <= v < m
    else if m == 0.0 then v == 0.0
    else m < v <= 0.0
  }

  /** A ship spawn point: each coordinate a draw scaled by the far corner
      of the world bounds. */
  predicate SpawnPoint(spawn: Vec2, world: Aabb)
  {
    ScaledDraw(spawn.x, world.max.x) && ScaledDraw(spawn.y, world.max.y)
  }

  class Balancer {
    /** A worker start has been requested and its identity not yet seen. */
    var workersAdjusting: bool
    /** The worker count the last start aimed for. */
    var targetWorkerCount: int
    const worldBounds: Aabb
    var workers: seq<BalancedWorker>
    var entities: map<EntityId, BalancedEntity>
    var botProcesses: seq<Handle>
    /** Connected clients and bots: worker entity id to worker type. */
    var clients: map<EntityId, string>
    /** Number of the next bot process to start. */
    var nextHandle: nat
    /** Everything sent to the transport or the operating system. */
    ghost var events: seq<Event>

    /** Each tracked entity is filed under its own id; bot handles are
        numbered in start order. */
    ghost predicate Valid()
      reads this
    {
      FiledById(entities) && BotsOrdered(botProcesses, nextHandle)
    }

    constructor (worldBounds: Aabb)
      ensures Valid()
      ensures this.worldBounds == worldBounds
      ensures !workersAdjusting && targetWorkerCount == 0 && nextHandle == 0
      ensures workers == [] && entities == map[] && botProcesses == [] && clients == map[] && events == []
    {
      this.worldBounds := worldBounds;
      workersAdjusting := false;
      targetWorkerCount := 0;
      workers := [];
      entities := map[];
      botProcesses := [];
      clients := map[];
      nextHandle := 0;
      events := [];
    }

    // -------------------------------------------------------------------
    // Fleet management

    /** Requests one more simulation worker and latches the adjusting
        flag, whether or not the start succeeds. */
    method StartWorker()
      modifies this
      ensures workersAdjusting && events == old(events) + [StartServer]
      ensures workers == old(workers) && targetWorkerCount == old(targetWorkerCount)
      ensures entities == old(entities) && clients == old(clients)
      ensures botProcesses == old(botProcesses) && nextHandle == old(nextHandle)
    {
      events := events + [StartServer];
      workersAdjusting := true;
    }

    /** Marks the first worker as being shut down and kills its process;
        with no workers, does nothing. */
    method StopWorker()
      modifies this
      ensures workers == MarkFirstKilling(old(workers))
      ensures events == old(events) + (if old(workers) == [] then [] else [KillWorker(old(workers)[0].process)])
      ensures workersAdjusting == old(workersAdjusting) && targetWorkerCount == old(targetWorkerCount)
      ensures entities == old(entities) && clients == old(clients)
      ensures botProcesses == old(botProcesses) && nextHandle == old(nextHandle)
    {
      if |workers| == 0 {
        return;
      }
      workers := workers[0 := workers[0].(killing := true)];
      events := events + [KillWorker(workers[0].process)];
    }

    /** Compares the workers the connected clients call for with the live
        workers and starts or stops one. */
    method UpdateWorkerProcesses()
      modifies this
      ensures var s := UpdateFleet(old(workers), old(workersAdjusting), old(targetWorkerCount), RequiredWorkers(|old(clients)|));
        && workers == s.workers && workersAdjusting == s.adjusting && targetWorkerCount == s.target
        && events == old(events) + s.events
      ensures entities == old(entities) && clients == old(clients)
      ensures botProcesses == old(botProcesses) && nextHandle == old(nextHandle)
    {
      var numWorkers := CountLive(workers);
      var reqWorkers := RequiredWorkers(|clients|);
      if reqWorkers > numWorkers && !workersAdjusting {
        targetWorkerCount := reqWorkers;
        StartWorker();
      }
      if reqWorkers < numWorkers && !workersAdjusting {
        StopWorker();
      }
    }

    /** Starts one bot process and appends its handle. */
    method StartBot()
      requires Valid()
      modifies this
      ensures Valid()
      ensures botProcesses == old(botProcesses) + [Handle(old(nextHandle))] && nextHandle == old(nextHandle) + 1
      ensures events == old(events) + [Event.StartBot(Handle(old(nextHandle)))]
      ensures workers == old(workers) && entities == old(entities) && clients == old(clients)
      ensures workersAdjusting == old(workersAdjusting) && targetWorkerCount == old(targetWorkerCount)
    {
      var h := Handle(nextHandle);
      events := events + [Event.StartBot(h)];
      botProcesses := botProcesses + [h];
      nextHandle := nextHandle + 1;
    }

    /** Kills the oldest bot and drops it; with no bots, does nothing. */
    method StopBot()
      requires Valid()
      modifies this
      ensures Valid()
      ensures old(botProcesses) == [] ==> botProcesses == [] && events == old(events)
      ensures old(botProcesses) != [] ==>
        botProcesses == old(botProcesses)[1..] && events == old(events) + [KillBot(old(botProcesses)[0])]
      ensures nextHandle == old(nextHandle)
      ensures workers == old(workers) && entities == old(entities) && clients == old(clients)
      ensures workersAdjusting == old(workersAdjusting) && targetWorkerCount == old(targetWorkerCount)
    {
      if |botProcesses| == 0 {
        return;
      }
      var proc := botProcesses[0];
      events := events + [KillBot(proc)];
      botProcesses := botProcesses[1..];
    }

    /** A runtime flag changed. NUM_BOTS with an integer value sets the
        number of bots; any other flag, or a value that does not parse,
        changes nothing. */
    method OnFlagUpdate(key: string, value: string)
      requires Valid()
      modifies this
      ensures Valid()
      ensures key != "NUM_BOTS" || Atoi(value).None? ==>
        botProcesses == old(botProcesses) && nextHandle == old(nextHandle) && events == old(events)
      ensures key == "NUM_BOTS" && Atoi(value).Some? ==>
        var t := Atoi(value).value;
        && botProcesses == BotsAfter(old(botProcesses), t, old(nextHandle))
        && nextHandle == NextAfter(old(botProcesses), t, old(nextHandle))
        && events == old(events) + BotEvents(old(botProcesses), t, old(nextHandle))
      ensures workers == old(workers) && entities == old(entities) && clients == old(clients)
      ensures workersAdjusting == old(workersAdjusting) && targetWorkerCount == old(targetWorkerCount)
    {
      if key == "NUM_BOTS" {
        var parsed := Atoi(value);
        if parsed.None? {
          return;
        }
        var target := parsed.value;
        var delta := target - |botProcesses|;
        if delta > 0 {
          StartBots(delta);
        }
        if delta < 0 {
          StopBots(-delta);
        }
      }
    }

    /** Starts n bots, one after the other. */
    method StartBots(n: nat)
      requires Valid()
      modifies this
      ensures Valid()
      ensures botProcesses == old(botProcesses) + NewBots(old(nextHandle), n) && nextHandle == old(nextHandle) + n
      ensures events == old(events) + StartEvents(old(nextHandle), n)
      ensures workers == old(workers) && entities == old(entities) && clients == old(clients)
      ensures workersAdjusting == old(workersAdjusting) && targetWorkerCount == old(targetWorkerCount)
    {
      var i := 0;
      while i < n
        invariant 0 <= i <= n && Valid()
        invariant botProcesses == old(botProcesses) + NewBots(old(nextHandle), i) && nextHandle == old(nextHandle) + i
        invariant events == old(events) + StartEvents(old(nextHandle), i)
        invariant workers == old(workers) && entities == old(entities) && clients == old(clients)
        invariant workersAdjusting == old(workersAdjusting) && targetWorkerCount == old(targetWorkerCount)
      {
        StartBot();
        i := i + 1;
      }
    }

    /** Stops n bots, the oldest first; stopping more bots than there are
        stops them all. */
    method StopBots(n: nat)
      requires Valid()
      modifies this
      ensures Valid()
      ensures var gone := if n < |old(botProcesses)| then n else |old(botProcesses)|;
        && botProcesses == old(botProcesses)[gone..]
        && events == old(events) + KillEvents(old(botProcesses)[..gone])
      ensures nextHandle == old(nextHandle)
      ensures workers == old(workers) && entities == old(entities) && clients == old(clients)
      ensures workersAdjusting == old(workersAdjusting) && targetWorkerCount == old(targetWorkerCount)
    {
      ghost var b0 := botProcesses;
      var i := 0;
      while i < n
        invariant 0 <= i <= n && Valid()
        invariant var gone := if i < |b0| then i else |b0|;
          && botProcesses == b0[gone..]
          && events == old(events) + KillEvents(b0[..gone])
        invariant nextHandle == old(nextHandle)
        invariant workers == old(workers) && entities == old(entities) && clients == old(clients)
        invariant workersAdjusting == old(workersAdjusting) && targetWorkerCount == old(targetWorkerCount)
      {
        StopBot();
        i := i + 1;
      }
    }

    // -------------------------------------------------------------------
    // Ships for clients

    /** Requests the ship of the client `workerId` at `spawn`, a point the
        caller draws between the origin and the far corner of the world. */
    method CreateClientShip(workerId: string, spawn: Vec2)
      requires SpawnPoint(spawn, worldBounds)
      modifies this
      ensures events == old(events) + [CreateEntity(ShipEntity.ShipEntityComponents(ShipEntity.NewShip(spawn, workerId)))]
      ensures workers == old(workers) && entities == old(entities) && clients == old(clients)
      ensures botProcesses == old(botProcesses) && nextHandle == old(nextHandle)
      ensures workersAdjusting == old(workersAdjusting) && targetWorkerCount == old(targetWorkerCount)
    {
      var ent := ShipEntity.NewShip(spawn, workerId);
      events := events + [CreateEntity(ShipEntity.ShipEntityComponents(ent))];
    }

    /** The client ship got id `id`: track it, unassigned, under the
        client's access list. Its position is not copied from the ship, so
        it stays at the origin until the first position update. */
    method OnClientShipCreated(id: EntityId, workerId: string)
      requires Valid()
      modifies this
      ensures Valid()
      ensures entities == old(entities)[id := BalancedEntity(id, ShipEntity.ShipAcl(workerId), ImprobablePosition(Origin), Unassigned, workerId)]
      ensures workers == old(workers) && clients == old(clients) && events == old(events)
      ensures botProcesses == old(botProcesses) && nextHandle == old(nextHandle)
      ensures workersAdjusting == old(workersAdjusting) && targetWorkerCount == old(targetWorkerCount)
    {
      entities := entities[id := BalancedEntity(id, ShipEntity.ShipAcl(workerId), ImprobablePosition(Origin), Unassigned, workerId)];
    }

    // -------------------------------------------------------------------
    // Authority reconciliation

    /** Hands `e` to worker `w` at index i: records the index, sends it,
        rewrites the spatial write-access entries for `w` alone and sends
        the access list. */
    method AdjustAcl(i: int, e: BalancedEntity, w: BalancedWorker) returns (r: BalancedEntity)
      modifies this
      ensures r == Adjusted(i, e, w)
      ensures events == old(events) + AdjustEvents(r)
      ensures workers == old(workers) && entities == old(entities) && clients == old(clients)
      ensures botProcesses == old(botProcesses) && nextHandle == old(nextHandle)
      ensures workersAdjusting == old(workersAdjusting) && targetWorkerCount == old(targetWorkerCount)
    {
      r := e.(worker := WorkerComponent(WrapInt32(i)));
      events := events + [UpdateComponent(r.id, WorkerBalancerCid, WorkerData(r.worker))];
      var tag := WorkerTag(w.workerId);
      var cids := SpatialCids;
      var writeAcl := r.acl.componentWriteAcl;
      var j := 0;
      while j < |cids|
        invariant 0 <= j <= |cids|
        invariant writeAcl == RewriteKeys(e.acl.componentWriteAcl, cids[..j], tag)
      {
        if cids[j] in writeAcl {
          writeAcl := writeAcl[cids[j] := RequireTag(tag)];
        }
        j := j + 1;
      }
      assert cids[..j] == SpatialCids;
      r := r.(acl := r.acl.(componentWriteAcl := writeAcl));
      events := events + [UpdateComponent(r.id, AclCid, AclData(r.acl))];
    }

    /** One entity's turn in the reconciler: skipped if its own worker's
        cell holds it, otherwise offered to every worker in order. */
    method ReconcileEntity(id: EntityId)
      requires id in entities
      modifies this
      ensures entities == old(entities)[id := Reconcile(old(entities)[id], workers)]
      ensures events == old(events) + ReconcileEvents(old(entities)[id], workers)
      ensures workers == old(workers) && clients == old(clients)
      ensures botProcesses == old(botProcesses) && nextHandle == old(nextHandle)
      ensures workersAdjusting == old(workersAdjusting) && targetWorkerCount == old(targetWorkerCount)
    {
      var e0 := entities[id];
      var e := e0;
      var needsAdjustment := true;
      if e.worker.workerId >= 0 && (e.worker.workerId as int) < |workers| {
        var worker := workers[e.worker.workerId];
        if AabbContains(worker.aabb, e.pos.coords) {
          needsAdjustment := false;
        }
      }
      if needsAdjustment {
        var i := 0;
        while i < |workers|
          invariant 0 <= i <= |workers|
          invariant e == Scan(e0, workers, i)
          invariant events == old(events) + ScanEvents(e0, workers, i)
          invariant workers == old(workers) && entities == old(entities) && clients == old(clients)
          invariant botProcesses == old(botProcesses) && nextHandle == old(nextHandle)
          invariant workersAdjusting == old(workersAdjusting) && targetWorkerCount == old(targetWorkerCount)
        {
          if AabbContains(workers[i].aabb, e.pos.coords) {
            e := AdjustAcl(i, e, workers[i]);
          }
          i := i + 1;
        }
      }
      entities := entities[id := e];
    }

    /** One pass of the reconciler over every tracked entity, in an order
        the model leaves open (the map's iteration order). */
    method CheckEntityBounds()
      requires Valid()
      modifies this
      ensures Valid()
      ensures entities == ReconcileAll(old(entities), workers)
      ensures ReconciledAfter(events, old(events), old(entities), workers)
      ensures workers == old(workers) && clients == old(clients)
      ensures botProcesses == old(botProcesses) && nextHandle == old(nextHandle)
      ensures workersAdjusting == old(workersAdjusting) && targetWorkerCount == old(targetWorkerCount)
    {
      var ents := entities;
      var remaining := entities.Keys;
      ghost var order: seq<EntityId> := [];
      while remaining != {}
        invariant PartialPass(ents, entities, remaining, order, workers)
        invariant events == old(events) + EventsFor(order, ents, workers)
        invariant ents == old(entities)
        invariant workers == old(workers) && clients == old(clients)
        invariant botProcesses == old(botProcesses) && nextHandle == old(nextHandle)
        invariant workersAdjusting == old(workersAdjusting) && targetWorkerCount == old(targetWorkerCount)
        decreases remaining
      {
        var id :| id in remaining;
        VisitEntity(id, ents, remaining, order, old(events));
        order := order + [id];
        remaining := remaining - {id};
      }
      PartialPassDone(ents, entities, order, workers);
      assert forall id :: id in entities ==> entities[id].id == id by {
        forall id | id in entities ensures entities[id].id == id {
          assert entities[id] == Reconcile(ents[id], workers);
        }
      }
    }

    /** The reconciler's turn for entity `id` during a pass over `ents`. */
    method VisitEntity(id: EntityId, ghost ents: map<EntityId, BalancedEntity>, ghost remaining: set<EntityId>,
                       ghost order: seq<EntityId>, ghost log: seq<Event>)
      requires PartialPass(ents, entities, remaining, order, workers) && id in remaining
      requires events == log + EventsFor(order, ents, workers)
      modifies this
      ensures PartialPass(ents, entities, remaining - {id}, order + [id], workers)
      ensures events == log + EventsFor(order + [id], ents, workers)
      ensures workers == old(workers) && clients == old(clients)
      ensures botProcesses == old(botProcesses) && nextHandle == old(nextHandle)
      ensures workersAdjusting == old(workersAdjusting) && targetWorkerCount == old(targetWorkerCount)
    {
      PartialPassStep(ents, entities, remaining, order, workers, id);
      LogAppend(log, EventsFor(order, ents, workers), ReconcileEvents(ents[id], workers));
      ReconcileEntity(id);
    }

    // -------------------------------------------------------------------
    // Worker layout

    /** Lays the grid over the world: worker y*cc + x gets the cell in
        column x and row y, and its anchor gets the matching access list,
        interest and position. Workers past the last full row keep their
        cells. */
    method RebalanceAuthority()
      requires |workers| >= 1
      modifies this
      ensures workers == Rebalanced(old(workers), worldBounds)
      ensures events == old(events) + RebalanceEvents(old(workers), worldBounds)
      ensures entities == old(entities) && clients == old(clients)
      ensures botProcesses == old(botProcesses) && nextHandle == old(nextHandle)
      ensures workersAdjusting == old(workersAdjusting) && targetWorkerCount == old(targetWorkerCount)
    {
      var cellCount := FloorSqrt(|workers|);
      var xSize := CellSize(worldBounds.min.x, worldBounds.max.x, cellCount);
      var ySize := CellSize(worldBounds.min.y, worldBounds.max.y, cellCount);
      ghost var w0 := workers;
      var y, first := 0, 0;
      while y < cellCount
        invariant 0 <= y <= cellCount && first == y * cellCount && cellCount * cellCount <= |w0|
        invariant first <= cellCount * cellCount
        invariant workers == LaidOut(w0, first, cellCount, xSize, ySize)
        invariant events == old(events) + GridEvents(w0, first, cellCount, xSize, ySize)
        invariant entities == old(entities) && clients == old(clients)
        invariant botProcesses == old(botProcesses) && nextHandle == old(nextHandle)
        invariant workersAdjusting == old(workersAdjusting) && targetWorkerCount == old(targetWorkerCount)
      {
        RowAfter(y, first, cellCount);
        LayOutRow(y, first, cellCount, xSize, ySize, w0, old(events));
        y, first := y + 1, first + cellCount;
      }
    }

    /** Lays out row y of the grid: the cells of workers y*cc .. y*cc + cc - 1,
        column by column. */
    method LayOutRow(y: nat, first: nat, cellCount: nat, xSize: int, ySize: int,
                     ghost w0: seq<BalancedWorker>, ghost log: seq<Event>)
      requires 0 < cellCount && first == y * cellCount && first + cellCount <= |w0|
      requires workers == LaidOut(w0, first, cellCount, xSize, ySize)
      requires events == log + GridEvents(w0, first, cellCount, xSize, ySize)
      modifies this
      ensures workers == LaidOut(w0, first + cellCount, cellCount, xSize, ySize)
      ensures events == log + GridEvents(w0, first + cellCount, cellCount, xSize, ySize)
      ensures entities == old(entities) && clients == old(clients)
      ensures botProcesses == old(botProcesses) && nextHandle == old(nextHandle)
      ensures workersAdjusting == old(workersAdjusting) && targetWorkerCount == old(targetWorkerCount)
    {
      var ws := workers;
      ghost var evs := events;
      var x := 0;
      while x < cellCount
        invariant 0 <= x <= cellCount
        invariant ws == LaidOut(w0, first + x, cellCount, xSize, ySize)
        invariant evs == log + GridEvents(w0, first + x, cellCount, xSize, ySize)
        modifies {}
      {
        var i := first + x;
        GridCellAt(x, y, first, cellCount, xSize, ySize);
        LaidOutStep(w0, i, cellCount, xSize, ySize);
        GridEventsStep(w0, i, cellCount, xSize, ySize);
        var w := ws[i];
        assert w == w0[i];
        var bounds := CellBounds(x, y, xSize, ySize);
        LogAppend(log, GridEvents(w0, i, cellCount, xSize, ySize), SetWorkerAclEvents(w.id, w.workerId, bounds));
        evs := evs + SetWorkerAclEvents(w.id, w.workerId, bounds);
        ws := ws[i := w.(aabb := bounds)];
        x := x + 1;
      }
      workers := ws;
      events := evs;
    }

    // -------------------------------------------------------------------
    // Transport callbacks

    /** The anchor entity of a new simulation worker got id `id`: append
        its record, let the fleet react, then reconcile every entity. */
    method OnServerWorkerCreated(id: EntityId, workerId: string, workerEntityId: EntityId, process: Handle)
      requires Valid()
      modifies this
      ensures Valid()
      ensures var s := UpdateFleet(old(workers) + [WorkerRecord(id, workerId, workerEntityId, process)],
                                   old(workersAdjusting), old(targetWorkerCount), RequiredWorkers(|old(clients)|));
        && workers == s.workers && workersAdjusting == s.adjusting && targetWorkerCount == s.target
        && entities == ReconcileAll(old(entities), s.workers)
        && ReconciledAfter(events, old(events) + s.events, old(entities), s.workers)
      ensures clients == old(clients) && botProcesses == old(botProcesses) && nextHandle == old(nextHandle)
    {
      workers := workers + [WorkerRecord(id, workerId, workerEntityId, process)];
      UpdateWorkerProcesses();
      CheckEntityBounds();
    }

    /** Gaining write authority over an access list triggers a reconciler
        pass; any other authority change does nothing. */
    method OnAuthorityChange(cid: ComponentId, authority: int)
      requires Valid()
      modifies this
      ensures Valid()
      ensures authority == 1 && cid == AclCid ==>
        entities == ReconcileAll(old(entities), workers) && ReconciledAfter(events, old(events), old(entities), workers)
      ensures !(authority == 1 && cid == AclCid) ==> entities == old(entities) && events == old(events)
      ensures workers == old(workers) && clients == old(clients)
      ensures botProcesses == old(botProcesses) && nextHandle == old(nextHandle)
      ensures workersAdjusting == old(workersAdjusting) && targetWorkerCount == old(targetWorkerCount)
    {
      if authority == 1 && cid == AclCid {
        CheckEntityBounds();
      }
    }

    /** A new entity is tracked, unassigned, unless it already is. */
    method OnAddEntity(id: EntityId)
      requires Valid()
      modifies this
      ensures Valid()
      ensures id in old(entities) ==> entities == old(entities)
      ensures id !in old(entities) ==> entities == old(entities)[id := NewTrackedEntity(id)]
      ensures workers == old(workers) && clients == old(clients) && events == old(events)
      ensures botProcesses == old(botProcesses) && nextHandle == old(nextHandle)
      ensures workersAdjusting == old(workersAdjusting) && targetWorkerCount == old(targetWorkerCount)
    {
      if id !in entities {
        entities := entities[id := NewTrackedEntity(id)];
      }
    }

    /** A component was added to entity `id`. A client or bot worker
        identity registers the client, lets the fleet react and requests a
        ship at `spawn`. A simulation worker identity clears the adjusting
        latch and requests the worker's anchor entity. An access list is
        copied onto the tracked entity, which must exist. */
    method OnAddComponent(id: EntityId, cid: ComponentId, comp: Allocated, spawn: Vec2)
      requires Valid()
      requires cid == AclCid ==> id in entities && comp.AclValue?
      requires comp.WorkerValue? && comp.worker.workerType in {"LauncherClient", "Bot"} ==>
        SpawnPoint(spawn, worldBounds)
      modifies this
      ensures Valid()
      ensures comp.WorkerValue? && comp.worker.workerType in {"LauncherClient", "Bot"} ==>
        var s := UpdateFleet(old(workers), old(workersAdjusting), old(targetWorkerCount), RequiredWorkers(|old(clients)[id := comp.worker.workerType]|));
        && clients == old(clients)[id := comp.worker.workerType]
        && workers == s.workers && workersAdjusting == s.adjusting && targetWorkerCount == s.target
        && events == old(events) + s.events
                     + [CreateEntity(ShipEntity.ShipEntityComponents(ShipEntity.NewShip(spawn, comp.worker.workerId)))]
      ensures comp.WorkerValue? && comp.worker.workerType == "Server" ==>
        && !workersAdjusting && clients == old(clients) && workers == old(workers)
        && targetWorkerCount == old(targetWorkerCount)
        && events == old(events) + [CreateEntity(ServerWorkerComponents(NewServerWorker()))]
      ensures !(comp.WorkerValue? && comp.worker.workerType in {"LauncherClient", "Bot", "Server"}) ==>
        && clients == old(clients) && workers == old(workers) && events == old(events)
        && workersAdjusting == old(workersAdjusting) && targetWorkerCount == old(targetWorkerCount)
      ensures cid == AclCid ==> entities == old(entities)[id := old(entities)[id].(acl := comp.acl)]
      ensures cid != AclCid ==> entities == old(entities)
      ensures botProcesses == old(botProcesses) && nextHandle == old(nextHandle)
    {
      if comp.WorkerValue? && (comp.worker.workerType == "LauncherClient" || comp.worker.workerType == "Bot") {
        RegisterClient(id, comp.worker, spawn);
      }
      if comp.WorkerValue? && comp.worker.workerType == "Server" {
        workersAdjusting := false;
        var ent := NewServerWorker();
        events := events + [CreateEntity(ServerWorkerComponents(ent))];
      }
      if cid == AclCid {
        entities := entities[id := entities[id].(acl := comp.acl)];
      }
    }

    /** A client or bot worker connected through entity `id`: record it,
        let the fleet react and request its ship at `spawn`. */
    method RegisterClient(id: EntityId, worker: ImprobableWorker, spawn: Vec2)
      requires SpawnPoint(spawn, worldBounds)
      modifies this
      ensures var s := UpdateFleet(old(workers), old(workersAdjusting), old(targetWorkerCount), RequiredWorkers(|old(clients)[id := worker.workerType]|));
        && clients == old(clients)[id := worker.workerType]
        && workers == s.workers && workersAdjusting == s.adjusting && targetWorkerCount == s.target
        && events == old(events) + s.events
                     + [CreateEntity(ShipEntity.ShipEntityComponents(ShipEntity.NewShip(spawn, worker.workerId)))]
      ensures entities == old(entities) && botProcesses == old(botProcesses) && nextHandle == old(nextHandle)
    {
      clients := clients[id := worker.workerType];
      UpdateWorkerProcesses();
      CreateClientShip(worker.workerId, spawn);
    }

    /** A component was removed from entity `id`. The entity stops being a
        client whatever the component. A removed worker identity drops the
        last worker anchored at it, deleting its anchor, and lets the fleet
        react. */
    method OnRemoveComponent(id: EntityId, cid: ComponentId)
      requires Valid()
      modifies this
      ensures Valid()
      ensures clients == old(clients) - {id}
      ensures cid != WorkerCid ==>
        && workers == old(workers) && events == old(events)
        && workersAdjusting == old(workersAdjusting) && targetWorkerCount == old(targetWorkerCount)
      ensures cid == WorkerCid ==>
        var s := UpdateFleet(WithoutAnchor(old(workers), id), old(workersAdjusting), old(targetWorkerCount), RequiredWorkers(|old(clients) - {id}|));
        && workers == s.workers && workersAdjusting == s.adjusting && targetWorkerCount == s.target
        && events == old(events) + AnchorDeletion(old(workers), id) + s.events
      ensures entities == old(entities) && botProcesses == old(botProcesses) && nextHandle == old(nextHandle)
    {
      if id in clients {
        clients := clients - {id};
      }
      if cid == WorkerCid {
        DropAnchor(id);
        UpdateWorkerProcesses();
      }
    }

    /** Drops the last worker anchored at entity `id`, if any, and deletes
        its anchor. */
    method DropAnchor(id: EntityId)
      modifies this
      ensures workers == WithoutAnchor(old(workers), id)
      ensures events == old(events) + AnchorDeletion(old(workers), id)
      ensures entities == old(entities) && clients == old(clients)
      ensures botProcesses == old(botProcesses) && nextHandle == old(nextHandle)
      ensures workersAdjusting == old(workersAdjusting) && targetWorkerCount == old(targetWorkerCount)
    {
      var toDelete := FindLastMatch(workers, id);
      if toDelete != -1 {
        events := events + [DeleteEntity(workers[toDelete].id)];
        workers := RemoveAt(workers, toDelete);
      }
    }

    /** Entity `id` left the balancer's view: forget it, and if it was a
        client's ship, request a new one at `spawn`. */
    method OnRemoveEntity(id: EntityId, spawn: Vec2)
      requires Valid()
      requires id in entities && entities[id].client != "" ==> SpawnPoint(spawn, worldBounds)
      modifies this
      ensures Valid()
      ensures entities == old(entities) - {id}
      ensures id in old(entities) && old(entities)[id].client != "" ==>
        events == old(events) + [CreateEntity(ShipEntity.ShipEntityComponents(ShipEntity.NewShip(spawn, old(entities)[id].client)))]
      ensures !(id in old(entities) && old(entities)[id].client != "") ==> events == old(events)
      ensures workers == old(workers) && clients == old(clients)
      ensures botProcesses == old(botProcesses) && nextHandle == old(nextHandle)
      ensures workersAdjusting == old(workersAdjusting) && targetWorkerCount == old(targetWorkerCount)
    {
      if id in entities {
        var e := entities[id];
        if e.client != "" {
          CreateClientShip(e.client, spawn);
        }
        entities := entities - {id};
      }
    }

    /** Entity `id` was deleted: forget it. */
    method OnDeleteEntity(id: EntityId)
      requires Valid()
      modifies this
      ensures Valid()
      ensures entities == old(entities) - {id}
      ensures workers == old(workers) && clients == old(clients) && events == old(events)
      ensures botProcesses == old(botProcesses) && nextHandle == old(nextHandle)
      ensures workersAdjusting == old(workersAdjusting) && targetWorkerCount == old(targetWorkerCount)
    {
      if id in entities {
        entities := entities - {id};
      }
    }

    /** An entity creation finished. If every requested worker is there,
        the grid is laid out again once for each worker anchored at the new
        entity; the layout is the same each time. */
    method OnCreateEntity(id: EntityId)
      modifies this
      ensures var m := if old(targetWorkerCount) == |old(workers)| then CountId(old(workers), id) else 0;
        && workers == (if m > 0 then Rebalanced(old(workers), worldBounds) else old(workers))
        && events == old(events) + (if m > 0 then Repeat(RebalanceEvents(old(workers), worldBounds), m) else [])
      ensures entities == old(entities) && clients == old(clients)
      ensures botProcesses == old(botProcesses) && nextHandle == old(nextHandle)
      ensures workersAdjusting == old(workersAdjusting) && targetWorkerCount == old(targetWorkerCount)
    {
      var ws := workers;
      ghost var hits := 0;
      var i := 0;
      while i < |ws|
        invariant 0 <= i <= |ws| && |workers| == |ws|
        invariant hits == (if targetWorkerCount == |ws| then CountId(ws[..i], id) else 0)
        invariant hits == 0 ==> workers == ws && events == old(events)
        invariant hits > 0 ==> workers == Rebalanced(ws, worldBounds)
                               && events == old(events) + Repeat(RebalanceEvents(ws, worldBounds), hits)
        invariant entities == old(entities) && clients == old(clients)
        invariant botProcesses == old(botProcesses) && nextHandle == old(nextHandle)
        invariant workersAdjusting == old(workersAdjusting) && targetWorkerCount == old(targetWorkerCount)
      {
        assert ws[..i + 1][..i] == ws[..i];
        if ws[i].id == id && targetWorkerCount == |workers| {
          RelayOut(ws, hits, old(events));
          hits := hits + 1;
        }
        i := i + 1;
      }
      assert ws[..i] == ws;
    }

    /** One more layout on behalf of a worker anchored at the new entity,
        after `hits` earlier ones since the log stood at `log`. */
    method RelayOut(ghost w0: seq<BalancedWorker>, ghost hits: nat, ghost log: seq<Event>)
      requires w0 != []
      requires hits == 0 ==> workers == w0 && events == log
      requires hits > 0 ==> workers == Rebalanced(w0, worldBounds)
                            && events == log + Repeat(RebalanceEvents(w0, worldBounds), hits)
      modifies this
      ensures workers == Rebalanced(w0, worldBounds)
      ensures events == log + Repeat(RebalanceEvents(w0, worldBounds), hits + 1)
      ensures entities == old(entities) && clients == old(clients)
      ensures botProcesses == old(botProcesses) && nextHandle == old(nextHandle)
      ensures workersAdjusting == old(workersAdjusting) && targetWorkerCount == old(targetWorkerCount)
    {
      RebalanceStable(w0, worldBounds);
      LogAppend(log, Repeat(RebalanceEvents(w0, worldBounds), hits), RebalanceEvents(w0, worldBounds));
      RebalanceAuthority();
    }

    /** A component of entity `id` changed. A new position is stored on the
        tracked entity, if any, and triggers a reconciler pass; a new access
        list is stored on the tracked entity, if any. */
    method OnComponentUpdate(id: EntityId, cid: ComponentId, comp: Allocated)
      requires Valid()
      modifies this
      ensures Valid()
      ensures cid == PositionCid && comp.PositionValue? ==>
        var ents := if id in old(entities) then old(entities)[id := old(entities)[id].(pos := comp.position)] else old(entities);
        && entities == ReconcileAll(ents, workers)
        && ReconciledAfter(events, old(events), ents, workers)
      ensures cid == AclCid && comp.AclValue? ==>
        events == old(events)
        && entities == if id in old(entities) then old(entities)[id := old(entities)[id].(acl := comp.acl)] else old(entities)
      ensures !(cid == PositionCid && comp.PositionValue?) && !(cid == AclCid && comp.AclValue?) ==>
        entities == old(entities) && events == old(events)
      ensures workers == old(workers) && clients == old(clients)
      ensures botProcesses == old(botProcesses) && nextHandle == old(nextHandle)
      ensures workersAdjusting == old(workersAdjusting) && targetWorkerCount == old(targetWorkerCount)
    {
      if cid == PositionCid {
        if comp.PositionValue? {
          if id in entities {
            entities := entities[id := entities[id].(pos := comp.position)];
          }
          CheckEntityBounds();
        }
      } else if cid == AclCid {
        if comp.AclValue? {
          if id in entities {
            entities := entities[id := entities[id].(acl := comp.acl)];
          }
        }
      }
    }
  }
}
