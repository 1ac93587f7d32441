# Superspatial authority balancer, in Dafny

Superspatial is a small multiplayer space shooter built on SpatialOS. Its
**balancer** is a coordinator worker. It watches the simulation ("server")
workers, the connected clients and bots, and every entity in the world.
Its jobs are:

- **Fleet size.** Keep the number of simulation workers in step with the
  number of clients. A worker process is started when more are needed and
  the first one is killed when there are too many.
- **Bots.** Keep the number of bot processes equal to the `NUM_BOTS` runtime
  flag. Bots are started at the end of the list and stopped from the front.
- **Grid layout.** Lay the simulation workers out on a square grid over the
  world. Worker `y*cc + x` gets the cell in column `x` and row `y`. Each
  worker's anchor entity gets an access list, an interest query and a
  position at the cell's center.
- **Authority.** Hand each entity to the worker whose cell holds it. The
  worker's index is recorded on the entity. That worker alone gets write
  access to the entity's ship, bullet, position and effect components,
  those of them its access list already lists.
- **Client ships.** Create a ship for every client that connects, and
  again whenever a client's ship is removed, whether or not the client is
  still connected.

The model also covers the entities the balancer handles: ships, bullets,
effects and server workers. For each it states their access lists and
interest queries. It covers the query language those use, the server
scene's component allocation, and the attack system that creates bullets
and streams the ones a worker owns.

The balancer is the class `Balancer.Balancer`. Its fields are the Go
`BalancerScene` fields. Every transport write, entity creation and
deletion, and process start and kill goes into a ghost `events` log.
Each callback is a method. Its `ensures` ties the new state and the new
log suffix to specification functions of the old state:

- `UpdateFleet` decides the fleet step.
- `ReconcileAll` and `EventsFor` describe one reconciler pass.
- `Rebalanced` and `RebalanceEvents` describe the grid layout.
- `BotsAfter` and `BotEvents` describe the bot fleet.

Lemmas then prove what those functions promise:

- at most one fleet request per step;
- a pass settles every entity some cell holds, leaves the others alone,
  and a second pass does nothing;
- on a square grid of cc x cc cells of size xs x ys, every point of the
  gridded rectangle [0, cc*xs) x [0, cc*ys) lies in exactly one cell;
- the bot fleet converges to the flag's value.

Go's arithmetic is written out explicitly in module `GoStd`:

- `int32(i)` wrap-around;
- integer division truncating toward zero;
- `int(float)` truncation;
- `bits.Len` and `int(math.Sqrt(...))`;
- `strconv.Atoi`.

Coordinates are real numbers.

## Model

| member | source | states |
|---|---|---|
| `GoStd.WrapInt32` | balancer_scene.go:217 | `int32(i)` keeps `i` modulo 2^32 in the signed range, and is `i` itself whenever `i` fits in 32 bits |
| `GoStd.TruncDiv` | balancer_scene.go:384-385 | Go's `/` on ints by a positive divisor: the quotient brackets the dividend from below for non-negative dividends and from above for negative ones (truncation toward zero) |
| `GoStd.TruncToInt` | balancer_scene.go:384-385 | `int(f)` truncates toward zero: within 1 below a non-negative `f`, within 1 above a negative one |
| `GoStd.BitLen` | balancer_scene.go:292 | `bits.Len(n)` is 0 exactly for 0, otherwise the `r` with 2^(r-1) <= n < 2^r |
| `GoStd.BitLenMonotone` | balancer_scene.go:292 | `bits.Len` never decreases as its argument grows |
| `GoStd.BitLenFromBounds` | balancer_scene.go:292 | two neighbouring powers of two around `n` fix `bits.Len(n)` |
| `GoStd.FloorSqrt` | balancer_scene.go:383 | `int(math.Sqrt(n))` is the largest `r` with r*r <= n |
| `GoStd.FloorSqrtOfSquare` | balancer_scene.go:383 | the grid of a perfect-square worker count has exactly that root as its side |
| `GoStd.Atoi` | balancer_scene.go:260-264 | an accepted flag value is non-empty, fits in int64, and is negative only when it starts with `-` |
| `GoStd.AtoiSpec` | balancer_scene.go:260-264 | a flag value is accepted exactly when it is an optional sign followed by a non-empty run of decimal digits whose signed value fits in int64, and it then parses to that signed value |
| `GoStd.AtoiExamples` | balancer_scene.go:260-264 | "12a", "", "+" and "-" are rejected; "+5", "007" and "-0" parse to 5, 7 and 0 |
| `GoStd.AtoiItoa` | balancer_scene.go:260 | every int64 printed in base 10 parses back to itself |
| `ServerScene.RequireTagMeaning` | server_scene.go:18-24 | a requirement set of one single-tag attribute set admits exactly the workers carrying that tag |
| `ServerScene.AnyTagMeaning` | server_scene.go:18-24 | a requirement set of one single-tag attribute set per tag admits exactly the workers carrying one of the tags |
| `ServerScene.AllocComponent` | server_scene.go:113-125 | allocation succeeds exactly for ids 50, 54, 60 and 1002 and yields the empty ACL, the origin, an empty worker and a game value; every other id is an error |
| `ServerScene.AllocIgnoresEntity` | server_scene.go:113-125 | the value allocated depends on the component id only, never on the entity id |
| `Qbi.AndOfTwo` | improbable_qbi.go:11-22 | an AND of two constraints is relative exactly when one side is, and filters on the union of their component ids |
| `ShipEntity.ShipAcl` | ship_entity.go:33-43 | a ship's write ACL covers exactly player input, ship, interest and position |
| `ShipEntity.ShipAclMeaning` | ship_entity.go:33-43 | only the owning client writes player input; only `position` workers write ship, interest and position; `position` or `client` workers read the ship |
| `ShipEntity.ClientInterest` | ship_entity.go:44-58 | a new ship's interest is one relative sphere of radius 100 on player input, streaming ship, position and metadata |
| `ShipEntity.NewShip` | ship_entity.go:32-78 | a new ship carries the client's ACL, sits at the spawn point (x, 0, y) in world coordinates and (x, y, 0) in its ship state, at rest, with 100 of 100 energy, charge rate 10, mass 1000, attack damage 20, named "Client", without authority |
| `ShipEntity.ShipEntityComponents` | ship_entity.go:14-30 | a ship is created with exactly its player-input, ACL, position, metadata, interest and ship components |
| `ShipEntity.ClampToAabb` | ship_entity.go:80-99 | a clamped ship lies inside the bounds on each axis; an axis already inside keeps position and velocity; an axis outside has its velocity reversed; the third axis is untouched |
| `ShipEntity.ShipQbiConstraint` | ship_entity.go:172-197 | the ship's own query is relative and filters on the ship and bullet components |
| `ShipEntity.SetupQbi` | ship_entity.go:171-210 | only the interest changes: one player-input query for the ship itself or any ship or bullet in the relative box, streaming ship, bullet and position |
| `EffectEntity.EffectAcl` | effect_entity.go:24-29 | an effect's write ACL covers exactly effect, position, ACL and worker-balancer |
| `EffectEntity.EffectAclMeaning` | effect_entity.go:19-29 | only the balancer writes an effect, and only those four components; `client` or `position` workers read it |
| `EffectEntity.NewEffect` | effect_entity.go:18-41 | a new effect sits at (x, 0, y) with the int32-converted id and expiry (equal to the arguments when they fit), worker index 0, named "Effect" |
| `EffectEntity.EffectEntityComponents` | effect_entity.go:9-16 | an effect is created with exactly its metadata, ACL, position, worker-balancer and effect components |
| `WorkerScene.Scene.NewEffect` | effect_entity.go:18-44 | requesting an effect appends the creation of exactly that effect and changes no tracked entity |
| `BulletEntity.BulletEntityComponents` | bullet_entity.go:5-13 | a bullet is created with exactly its ACL, metadata, position and bullet components |
| `AttackSystem.BulletAcl` | attack_system.go:35-38 | a bullet's write ACL covers exactly the bullet and position components |
| `AttackSystem.BulletAclMeaning` | attack_system.go:30-38 | only `position` workers write a bullet, and only those two components; `position` or `client` workers read it |
| `AttackSystem.NewBullet` | attack_system.go:40-50 | a new bullet sits at the message's (x, y) at height 2, carries the message's ship, damage, position and velocity, is named "Bullet" and has no authority |
| `AttackSystem.OwnedSpec` | attack_system.go:73-75 | the bullets a worker owns are exactly the tracked bullets it has authority over |
| `AttackSystem.AuthorityWritesOwned` | attack_system.go:72-80 | an update pass sends two writes per owned bullet: for the k-th owned bullet in list order, write 2k puts its bullet component and write 2k+1 its position, and every write goes to an owned bullet |
| `AttackSystem.AttackSystem.constructor` | attack_system.go:23-27 | a new attack system shares the given scene and tracks no bullets |
| `AttackSystem.AttackSystem.NewBulletRequest` | attack_system.go:29-52 | an attack message requests the creation of exactly the bullet `NewBullet` builds and changes no tracked state |
| `AttackSystem.AttackSystem.OnBulletCreated` | attack_system.go:53-57 | a created bullet gets its id and is filed both in the scene's entities and at the end of the system's list |
| `AttackSystem.AttackSystem.Update` | attack_system.go:72-80 | one update appends exactly the authority writes of the tracked bullets, in list order |
| `Grid.CellContainsIff` | balancer_scene.go:212-214 | a point lies in the half-open cell (x, y) exactly when its X, rounded down and divided by the cell width, is x and its Z, likewise, is y |
| `Grid.GridCellUnique` | balancer_scene.go:387-399 | a point inside cell `i` of the grid determines `i`: it is the row-major index of the point's column and row |
| `Grid.CellsDisjoint` | balancer_scene.go:387-399 | no point lies in two different cells of the grid |
| `Grid.GridLookup` | balancer_scene.go:387-399 | every point of the gridded rectangle lies in the cell whose index its column and row give, and in no other |
| `Grid.CellInsideGrid` | balancer_scene.go:391-394 | every point of a cell lies inside the gridded rectangle, which starts at the origin |
| `Grid.FourWorkerCells` | balancer_scene.go:382-401 | four workers on a 2048 x 1024 world get four 1024 x 512 cells, in row-major order |
| `Fleet.RequiredWorkers` | balancer_scene.go:292-295 | at least one worker is always required |
| `Fleet.RequiredWorkersSteps` | balancer_scene.go:292-295 | up to 1 client needs 1 worker, 2-7 need 2, 8-31 need 4, 32-127 need 9 |
| `Fleet.RequiredWorkersMonotone` | balancer_scene.go:292-295 | more clients never call for fewer workers |
| `Fleet.InlineFormulaIsNotTestTable` | balancer_scene_test.go:8-22 | the inline formula and the table in the test file disagree at 2, 4, 8 and 32 clients |
| `Fleet.InlineFormulaMeetsTableOnlyUpToOne` | balancer_scene_test.go:12-22 | for every client count from 0 to 32, the range the test table covers, the inline formula gives the table's worker count exactly when there is at most one client |
| `Balanced.NewTrackedEntity` | balancer_scene.go:84-86 | a newly seen entity is filed under its id, assigned to no worker (-1), with no client |
| `Balanced.NewServerWorker` | balancer_scene.go:473-490 | a new worker anchor is read only by the balancer and written by the balancer alone, on exactly its ACL, interest and position; it is named "Server" and sits at the origin |
| `Balanced.ServerWorkerComponents` | balancer_scene.go:18-25 | a worker anchor is created with exactly its ACL, position, metadata and interest components |
| `Balanced.WorkerRecord` | balancer_scene.go:118 | a registered worker carries the anchor id, worker id, identity entity and process given, is live, and owns no point until the grid is laid out |
| `Balanced.LiveCount` | balancer_scene.go:284-289 | the live count never exceeds the worker count; it equals it exactly when no worker is being shut down, and is zero exactly when all are |
| `Balanced.LiveCountSplit` | balancer_scene.go:284-289 | the live count is the first worker's contribution plus the live count of the rest, the order the loop visits them |
| `Balanced.CountLive` | balancer_scene.go:284-289 | the loop counts exactly the workers not being shut down |
| `Balanced.MarkFirstKilling` | balancer_scene.go:337-343 | killing the first worker marks it as being shut down and changes nothing else about it or about any other worker |
| `Balanced.MarkFirstKillingLive` | balancer_scene.go:337-343 | marking the first worker lowers the live count by one, or not at all when it was already being shut down |
| `Balanced.FindLastMatch` | balancer_scene.go:140-145 | the loop finds the last worker whose identity lives on the entity, or -1 |
| `Balanced.LastMatch` | balancer_scene.go:140-145 | the index found holds a matching worker and no later worker matches |
| `Balanced.RemoveAt` | balancer_scene.go:148 | removing index `k` shifts the later workers down by one and keeps the earlier ones |
| `Balanced.WithoutAnchor` | balancer_scene.go:139-149 | deleting an anchor removes the last worker anchored at the entity, and leaves the list as it was when none is |
| `Balanced.WithoutAnchorSpec` | balancer_scene.go:139-149 | the worker list shrinks by one exactly when some worker is anchored at the entity, one deletion is sent then, and no worker is invented |
| `Balanced.UpdateFleetSpec` | balancer_scene.go:283-306 | a fleet step sends at most one request and never adds a live worker; it starts one exactly when not adjusting and short, then latching the flag and the target; it kills the first exactly when not adjusting and over; while adjusting it does nothing |
| `Balanced.WorkerCellAclMeaning` | balancer_scene.go:412-421 | once its cell is set, only the balancer writes a worker anchor, and only its interest and position; `position` and `client` workers read it |
| `Balanced.GameplayFilterMeaning` | balancer_scene.go:431-438 | the gameplay filter is absolute and matches exactly the ship, bullet, effect and player-input components |
| `Balanced.WorkerCellInterestFilters` | balancer_scene.go:428-449 | a worker's interest query is absolute and filters on the ship, bullet, effect and player-input components |
| `Balanced.CellBoxCoversCell` | balancer_scene.go:423-426 | the anchor's position, the cell's center, lies in the cell, and the interest box covers every point of the cell |
| `Balanced.SetWorkerAclEventsShape` | balancer_scene.go:466-469 | setting a worker's cell writes the anchor's ACL, interest and position in that order, and the writes do not depend on the worker id |
| `Balanced.LaidOutSpec` | balancer_scene.go:387-399 | laying out the first n workers gives worker i < n grid cell i, leaves the later workers untouched, and changes nothing but cells |
| `Balanced.GridEventsAt` | balancer_scene.go:387-399 | the layout sends worker i's three cell writes (ACL, interest, position) at positions 3i to 3i+2 of the log, in worker order |
| `Balanced.CellCount` | balancer_scene.go:383 | the grid side is the largest `cc` with cc*cc not above the worker count |
| `Balanced.RebalanceStable` | balancer_scene.go:382-401 | laying out the grid changes only the cells of the first cc*cc workers, and laying it out again changes nothing and sends the same writes |
| `Balanced.CountIdPositive` | balancer_scene.go:177-183 | the number of workers anchored at an entity is positive exactly when one is |
| `Balanced.BotsConverge` | balancer_scene.go:257-281 | after the flag the fleet has max(target, 0) bots: grown by fresh bots after the old ones or shrunk from the oldest, one event per bot, handles still ordered, and the same flag again does nothing |
| `Reconciler.RewriteMeaning` | balancer_scene.go:222-227 | after the rewrite, each spatial component the ACL already had is writable by exactly the tagged worker; every other entry and the read ACL are unchanged, and no entry is added |
| `Reconciler.RewriteTwice` | balancer_scene.go:222-227 | rewriting for a second worker leaves the same ACL as rewriting for that worker alone |
| `Reconciler.Adjusted` | balancer_scene.go:215-232 | a handover keeps the entity's id, position, client and read ACL and records the worker index through int32 |
| `Reconciler.ScanSpec` | balancer_scene.go:245-253 | scanning the workers leaves an entity no cell holds alone; otherwise the entity ends with the last holder's index and ACL; two writes per holder, the last pair carrying the final entity |
| `Reconciler.Reconcile` | balancer_scene.go:236-253 | reconciling an entity never changes its id, position or client |
| `Reconciler.ReconcileSettles` | balancer_scene.go:236-253 | an entity its own worker holds is skipped; otherwise it goes to the last worker whose cell holds it and is then held; with no such worker it is left alone and nothing is sent |
| `Reconciler.ReconcileIdempotent` | balancer_scene.go:236-253 | a second pass over a reconciled entity changes nothing and sends nothing |
| `Reconciler.ReconcileAll` | balancer_scene.go:234-255 | a pass neither adds nor drops tracked entities |
| `Reconciler.ReconcileAllIdempotent` | balancer_scene.go:234-255 | a second pass over all entities, in any order, changes nothing and sends nothing |
| `Reconciler.ShipHandover` | balancer_scene.go:215-232 | a ship handed to a worker is written (ship and position) only by that worker, player input stays with the client, interest stays with `position` workers |
| `Reconciler.BulletHandover` | balancer_scene.go:215-232 | a bullet handed to a worker is written only by that worker, on the bullet and position components |
| `Reconciler.EffectHandover` | balancer_scene.go:215-232 | an effect handed to a worker is written (effect and position) only by that worker; its ACL and worker index stay with the balancer |
| `Reconciler.GridAssignment` | balancer_scene.go:382-401 | on a freshly laid-out square grid, an entity inside the gridded rectangle lies in exactly one cell and a pass hands it to that cell's worker with two writes |
| `Reconciler.OutsideGridKept` | balancer_scene.go:212-214 | on a freshly laid-out grid, an entity outside the gridded rectangle (such as one on the world's far edge) lies in no cell and a pass leaves it alone |
| `Balancer.Balancer.constructor` | balancer_scene.go:61-68 | a new balancer tracks no worker, entity, client or bot and has sent nothing |
| `Balancer.Balancer.StartWorker` | balancer_scene.go:324-335 | requests one worker process and latches the adjusting flag, whatever the outcome |
| `Balancer.Balancer.StopWorker` | balancer_scene.go:337-352 | marks the first worker as shutting down and kills its process; with no workers it does nothing |
| `Balancer.Balancer.UpdateWorkerProcesses` | balancer_scene.go:283-306 | the new fleet state and log are one `UpdateFleet` step for the required worker count of the current clients |
| `Balancer.Balancer.StartBot` | balancer_scene.go:354-365 | appends the next bot handle and logs its start |
| `Balancer.Balancer.StopBot` | balancer_scene.go:367-379 | kills and drops the oldest bot; with no bots it does nothing |
| `Balancer.Balancer.OnFlagUpdate` | balancer_scene.go:257-281 | `NUM_BOTS` with a parseable value moves the bot fleet to `BotsAfter` with `BotEvents`; any other flag or an unparseable value changes nothing |
| `Balancer.Balancer.StartBots` | balancer_scene.go:268-272 | starts `n` bots with consecutive handles, in order |
| `Balancer.Balancer.StopBots` | balancer_scene.go:274-279 | stops `n` bots from the front, or all of them when there are fewer |
| `Balancer.Balancer.CreateClientShip` | balancer_scene.go:308-314 | given a spawn point whose coordinates are uniform draws in [0, 1) scaled by the world's far corner, requests exactly the client's new ship there and changes nothing else |
| `Balancer.Balancer.OnClientShipCreated` | balancer_scene.go:315-320 | the created ship is tracked under its id with the client's ACL, unassigned, at the origin |
| `Balancer.Balancer.AdjustAcl` | balancer_scene.go:215-232 | returns the handed-over entity and sends its worker index, then its rewritten ACL |
| `Balancer.Balancer.ReconcileEntity` | balancer_scene.go:235-253 | one entity's turn replaces it by `Reconcile` and appends `ReconcileEvents`; nothing else changes |
| `Balancer.Balancer.CheckEntityBounds` | balancer_scene.go:234-255 | after one pass every entity is `Reconcile`d, and the log grew by each entity's writes in some order of the entity ids |
| `Balancer.Balancer.VisitEntity` | balancer_scene.go:235-254 | one step of the pass extends the visited order and the log by one entity |
| `Balancer.Balancer.RebalanceAuthority` | balancer_scene.go:382-401 | the workers become `Rebalanced` and the log grows by `RebalanceEvents`; entities, clients and bots are untouched |
| `Balancer.Balancer.LayOutRow` | balancer_scene.go:388-399 | one row of the grid extends the laid-out prefix and its writes by cc workers |
| `Balancer.Balancer.OnServerWorkerCreated` | balancer_scene.go:105-122 | the new worker is appended, the fleet takes one step, then every entity is reconciled against the new workers |
| `Balancer.Balancer.OnAuthorityChange` | balancer_scene.go:77-82 | gaining authority over an ACL runs one pass of the reconciler; any other change does nothing |
| `Balancer.Balancer.OnAddEntity` | balancer_scene.go:84-90 | an unknown entity is tracked, unassigned; a known one is left as it is |
| `Balancer.Balancer.OnAddComponent` | balancer_scene.go:92-130 | a client or bot is registered, the fleet steps and a ship is requested; a server clears the adjusting flag and requests its anchor; an ACL is copied onto the tracked entity |
| `Balancer.Balancer.RegisterClient` | balancer_scene.go:94-99 | records the client, takes one fleet step for the new client count and requests its ship |
| `Balancer.Balancer.OnRemoveComponent` | balancer_scene.go:132-153 | the entity stops being a client; a removed worker identity drops the last worker anchored there, deletes its anchor and lets the fleet step |
| `Balancer.Balancer.DropAnchor` | balancer_scene.go:139-149 | the workers become `WithoutAnchor` and the anchor's deletion is logged |
| `Balancer.Balancer.OnRemoveEntity` | balancer_scene.go:155-164 | the entity is forgotten; a client's ship is requested again |
| `Balancer.Balancer.OnDeleteEntity` | balancer_scene.go:166-171 | the entity is forgotten and nothing is sent |
| `Balancer.Balancer.OnCreateEntity` | balancer_scene.go:172-185 | with every requested worker present, the grid is laid out once per worker anchored at the new entity, always to the same layout; otherwise nothing changes |
| `Balancer.Balancer.RelayOut` | balancer_scene.go:179-181 | one more layout leaves the workers `Rebalanced` and repeats the same writes once more |
| `Balancer.Balancer.OnComponentUpdate` | balancer_scene.go:186-208 | a new position is stored and triggers a reconciler pass; a new ACL is stored; anything else changes nothing |

## Left out

- `Reconciler.ReconcileSettles`: requires at most 2^31 workers. Above that, `int32(i)` (balancer_scene.go:217) wraps to a negative index, the entity is never recorded as held, and it is handed over again on every pass; the model does not state that behaviour.
- `Reconciler.ReconcileIdempotent`: requires at most 2^31 workers, for the same reason as `Reconciler.ReconcileSettles`.
- `Reconciler.ReconcileAllIdempotent`: requires at most 2^31 workers, for the same reason as `Reconciler.ReconcileSettles`.
- `Reconciler.GridAssignment`: requires at most 2^31 workers, for the same reason as `Reconciler.ReconcileSettles`.
- `Reconciler.OutsideGridKept`: requires at most 2^31 workers, for the same reason as `Reconciler.ReconcileSettles`.
- Processes: starting and killing the `server` and `bot` executables is an event in the log. Parsing a worker's pid from its id and finding its process become the `process` argument of `OnServerWorkerCreated`. A failed start does not leave a nil bot handle; every started bot gets a handle.
- Transport: the SpatialOS connection and its request ids are not modelled. So is the `OnCreateFunc` table that maps a creation request to its callback. Each callback is a method of its own (`OnServerWorkerCreated`, `OnClientShipCreated`, `AttackSystem.OnBulletCreated`). `ServerScene.OnCreateEntity` is empty in server_scene.go:89, and the balancer's call to it changes nothing.
- Randomness: the spawn point drawn from `rand.Float32` is the `spawn` parameter of `CreateClientShip` and the handlers that call it. `SpawnPoint` bounds it by the range of `rand.Float32() * Max`; which point in that range is drawn is not modelled.
- Floating point: coordinates and bounds are real numbers. float32/float64 rounding and the float32 conversions of `aabbContains` are not modelled.
- `Fleet.RequiredWorkers` models `math.Pow(x, 2)` on an integer as the exact square.
- Logging, metrics and the other scene callbacks are left out, as are rendering, the client and bot scenes, and the command-line programs.
- Ship physics (`Ship.Update` apart from `clampToAABB`) is left out. So are bullet movement (`Bullet.Update`, called from `AttackSystem.Update`) and the message bus that feeds attack messages.
- Aliasing: Go holds entities and ACL maps by reference. `adjustAcl` therefore edits the very map a component update delivered. `OnBulletCreated` files one bullet in two collections. The model works on values, so these shared updates are not captured.
- `Balancer.Balancer.CheckEntityBounds`: Go's map iteration order is unspecified. The model picks the next entity arbitrarily and proves its result for every order.
- `Balancer.Balancer.OnAddComponent` requires that an added ACL belongs to a tracked entity. Go dereferences a nil entry otherwise and panics.
- The unused `WorkerProcesses` field is left out.
- `Balancer.Balancer.RebalanceAuthority` lays the grid from the origin and ignores `WorldBounds.Min`, as the code does. When the world does not start at the origin, the cells do not cover it; `Reconciler.OutsideGridKept` states what happens to entities outside the cells.
- The test table: `calcRequiredWorkers`, which balancer_scene_test.go calls, is not part of this model. The balancer computes the worker count inline. `Fleet.InlineFormulaIsNotTestTable` shows that the inline formula and the table disagree.
- `ShipEntity.SetupQbi` returns the updated ship instead of updating it in place.
- The entity types duplicated in improbable_entities.go are not part of this model.
