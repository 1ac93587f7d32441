/** Gameplay component payloads that the core creates or rewrites: ship
    state, player input, bullets, effects, and the balancer's own cell
    assignment. Energies and times are reals; the unsigned energy fields of
    one older copy of ShipComponent are not followed. */
module Components {
  import opened GoStd
  import opened Geometry
  import opened ServerScene

  datatype ShipComponent = ShipComponent(
    currentEnergy: real,
    maxEnergy: real,
    chargeRate: real,
    cooldown: real,
    pos: Vec3,
    vel: Vec3,
    angle: real)

  datatype PlayerInputComponent = PlayerInputComponent(
    left: bool, right: bool, forward: bool, back: bool, attack: bool)

  const NoInput := PlayerInputComponent(false, false, false, false, false)

  datatype BulletComponent = BulletComponent(
    shipId: EntityId,
    damage: uint32,
    pos: Vec3,
    vel: Vec3)

  datatype EffectComponent = EffectComponent(pos: Vec3, id: int32, expiry: int32)

  /** The worker-balancer component: index of the worker whose cell owns
      the entity, -1 while unassigned. */
  datatype WorkerComponent = WorkerComponent(workerId: int32)

  const Unassigned := WorkerComponent(-1)
}
