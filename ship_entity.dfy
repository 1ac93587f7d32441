/** The ship entity a connecting client gets: its access-control list, its
    interest, its initial state, the clamp that keeps it inside the world,
    and the interest query a simulation worker installs for it. */
module ShipEntity {
  import opened GoStd
  import opened Geometry
  import opened ServerScene
  import opened Components
  import opened Qbi
  import opened Transport

  datatype Ship = Ship(
    id: EntityId,
    pic: PlayerInputComponent,
    acl: ImprobableAcl,
    pos: ImprobablePosition,
    meta: ImprobableMetadata,
    interest: ImprobableInterest,
    ship: ShipComponent,
    mass: real,
    attackDamage: uint32,
    hasAuthority: bool)

  /** The tag a client worker carries. */
  function ClientTag(clientWorkerId: string): string { "workerId:" + clientWorkerId }

  /** Readable by position workers and clients; the client writes its own
      input, the position worker everything else. */
  function ShipAcl(clientWorkerId: string): (acl: ImprobableAcl)
    ensures acl.componentWriteAcl.Keys == {PlayerInputCid, ShipCid, InterestCid, PositionCid}
  {
    ImprobableAcl(
      WorkerRequirementSet([WorkerAttributeSet(["position"]), WorkerAttributeSet(["client"])]),
      map[PlayerInputCid := RequireTag(ClientTag(clientWorkerId)),
          ShipCid := RequireTag("position"),
          InterestCid := RequireTag("position"),
          PositionCid := RequireTag("position")])
  }

  /** What a ship's ACL allows: exactly the client's worker writes player
      input; exactly workers tagged "position" write ship state, interest
      and position; workers tagged "position" or "client" read it. */
  lemma ShipAclMeaning(clientWorkerId: string, attrs: set<string>)
    ensures var acl := ShipAcl(clientWorkerId);
      && (CanWrite(acl, PlayerInputCid, attrs) <==> ClientTag(clientWorkerId) in attrs)
      && (CanWrite(acl, ShipCid, attrs) <==> "position" in attrs)
      && (CanWrite(acl, InterestCid, attrs) <==> "position" in attrs)
      && (CanWrite(acl, PositionCid, attrs) <==> "position" in attrs)
      && (Satisfies(acl.readAcl, attrs) <==> "position" in attrs || "client" in attrs)
  {
    RequireTagMeaning(ClientTag(clientWorkerId), attrs);
    RequireTagMeaning("position", attrs);
    AnyTagMeaning(["position", "client"], attrs);
    var acl := ShipAcl(clientWorkerId);
    assert acl.readAcl == WorkerRequirementSet(seq(2, i requires 0 <= i < 2 => WorkerAttributeSet([["position", "client"][i]])));
  }

  /** A client's interest: one relative sphere of radius 100 around the
      ship, triggered by player input, streaming ship, position and
      metadata. */
  function ClientInterest(): (r: ImprobableInterest)
    ensures r.interest.Keys == {PlayerInputCid}
    ensures |r.interest[PlayerInputCid].queries| == 1
    ensures var q := r.interest[PlayerInputCid].queries[0];
      q.constraint == RelativeSphere(100.0) && Relative(q.constraint)
      && q.resultComponents == [ShipCid, PositionCid, MetadataCid]
  {
    ImprobableInterest(map[PlayerInputCid := ComponentInterest([
      Query(RelativeSphere(100.0), [ShipCid, PositionCid, MetadataCid])])])
  }

  /** A new ship for a client at spawn point `sp` of the 2-D plane. */
  function NewShip(sp: Vec2, clientWorkerId: string): (s: Ship)
    ensures s.acl == ShipAcl(clientWorkerId)
    ensures s.pos.coords == Coordinates(sp.x, 0.0, sp.y)
    ensures s.ship.pos == Vec3(sp.x, sp.y, 0.0) && s.ship.vel == ZeroVec3
    ensures s.ship.maxEnergy == s.ship.currentEnergy == 100.0 && s.ship.chargeRate == 10.0
    ensures s.interest == ClientInterest()
    ensures s.meta.name == "Client" && s.mass == 1000.0 && s.attackDamage == 20
    ensures !s.hasAuthority
  {
    Ship(
      id := 0,
      pic := NoInput,
      acl := ShipAcl(clientWorkerId),
      pos := ImprobablePosition(Coordinates(sp.x, 0.0, sp.y)),
      meta := ImprobableMetadata("Client"),
      interest := ClientInterest(),
      ship := ShipComponent(
        currentEnergy := 100.0, maxEnergy := 100.0, chargeRate := 10.0, cooldown := 0.0,
        pos := Extend(sp, 0.0), vel := ZeroVec3, angle := 0.0),
      mass := 1000.0,
      attackDamage := 20,
      hasAuthority := false)
  }

  /** The components a create-entity request for the ship carries. */
  function ShipEntityComponents(s: Ship): (m: map<ComponentId, ComponentData>)
    ensures m.Keys == {PlayerInputCid, AclCid, PositionCid, MetadataCid, InterestCid, ShipCid}
  {
    map[PlayerInputCid := PlayerInputData(s.pic),
        AclCid := AclData(s.acl),
        PositionCid := PositionData(s.pos),
        MetadataCid := MetadataData(s.meta),
        InterestCid := InterestData(s.interest),
        ShipCid := ShipData(s.ship)]
  }

  /** Pushes a position back into `aabb` on the first two axes, reversing
      the velocity on each axis it had to move. */
  function ClampToAabb(pos: Vec3, vel: Vec3, aabb: Aabb): (r: (Vec3, Vec3))
    ensures aabb.min.x <= aabb.max.x ==> aabb.min.x <= r.0.x <= aabb.max.x
    ensures aabb.min.y <= aabb.max.y ==> aabb.min.y <= r.0.y <= aabb.max.y
    ensures aabb.min.x <= pos.x <= aabb.max.x ==> r.0.x == pos.x && r.1.x == vel.x
    ensures aabb.min.y <= pos.y <= aabb.max.y ==> r.0.y == pos.y && r.1.y == vel.y
    ensures aabb.min.x <= aabb.max.x && !(aabb.min.x <= pos.x <= aabb.max.x) ==> r.1.x == -vel.x
    ensures aabb.min.y <= aabb.max.y && !(aabb.min.y <= pos.y <= aabb.max.y) ==> r.1.y == -vel.y
    ensures r.0.z == pos.z && r.1.z == vel.z
  {
    var (px, vx) := if pos.x < aabb.min.x then (aabb.min.x, -vel.x) else (pos.x, vel.x);
    var (py, vy) := if pos.y < aabb.min.y then (aabb.min.y, -vel.y) else (pos.y, vel.y);
    var (px', vx') := if px > aabb.max.x then (aabb.max.x, -vx) else (px, vx);
    var (py', vy') := if py > aabb.max.y then (aabb.max.y, -vy) else (py, vy);
    (Vec3(px', py', pos.z), Vec3(vx', vy', vel.z))
  }

  /** The interest constraint of a simulation worker's ship: the ship itself,
      or any ship or bullet inside an 800 x 30000 x 300 box around it. */
  function ShipQbiConstraint(id: EntityId): (c: QbiConstraint)
    ensures Relative(c) && ComponentFilters(c) == {ShipCid, BulletCid}
  {
    var c := Or([
      EntityIdIs(id),
      And([RelativeBox(EdgeLength(800.0, 30000.0, 300.0)),
           Or([ComponentIdIs(ShipCid), ComponentIdIs(BulletCid)])])]);
    assert Relative(c.any[1].all[0]);
    assert ComponentFilters(c.any[1].all[1]) == {ShipCid, BulletCid} by {
      assert ComponentFilters(c.any[1].all[1].any[0]) == {ShipCid};
      assert ComponentFilters(c.any[1].all[1].any[1]) == {BulletCid};
    }
    assert ComponentFilters(c.any[1]) == {ShipCid, BulletCid} by {
      assert ComponentFilters(c.any[1].all[0]) == {};
    }
    assert ComponentFilters(c.any[0]) == {};
    c
  }

  /** Replaces the ship's interest by a single player-input trigger with the
      query above, streaming ship, bullet and position; nothing else of the
      ship changes. */
  function SetupQbi(s: Ship): (r: Ship)
    ensures r == s.(interest := r.interest)
    ensures r.interest.interest.Keys == {PlayerInputCid}
    ensures r.interest.interest[PlayerInputCid].queries
         == [Query(ShipQbiConstraint(s.id), [ShipCid, BulletCid, PositionCid])]
  {
    s.(interest := ImprobableInterest(map[PlayerInputCid := ComponentInterest([
      Query(ShipQbiConstraint(s.id), [ShipCid, BulletCid, PositionCid])])]))
  }
}
