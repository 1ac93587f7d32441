/** The attack system of a simulation worker: turns each attack message into
    a bullet entity, keeps the bullets the transport has acknowledged, and
    publishes the state of the bullets it has authority over. */
module AttackSystem {
  import opened GoStd
  import opened Geometry
  import opened ServerScene
  import opened Components
  import opened Transport
  import opened BulletEntity
  import opened WorkerScene

  datatype AttackMessage = AttackMessage(
    pos: Vec3, vel: Vec3, angle: real, damage: uint32, shipId: EntityId)

  function BulletAcl(): (acl: ImprobableAcl)
    ensures acl.componentWriteAcl.Keys == {BulletCid, PositionCid}
  {
    ImprobableAcl(
      WorkerRequirementSet([WorkerAttributeSet(["position"]), WorkerAttributeSet(["client"])]),
      map[BulletCid := RequireTag("position"), PositionCid := RequireTag("position")])
  }

  /** Position workers alone write a bullet; position workers and clients
      read it. */
  lemma BulletAclMeaning(cid: ComponentId, attrs: set<string>)
    ensures CanWrite(BulletAcl(), cid, attrs) <==> cid in {BulletCid, PositionCid} && "position" in attrs
    ensures Satisfies(BulletAcl().readAcl, attrs) <==> "position" in attrs || "client" in attrs
  {
    RequireTagMeaning("position", attrs);
    AnyTagMeaning(["position", "client"], attrs);
    assert BulletAcl().readAcl
        == WorkerRequirementSet(seq(2, i requires 0 <= i < 2 => WorkerAttributeSet([["position", "client"][i]])));
  }

  /** The bullet an attack message fires. Its position puts the message's
      2-D y into Y and the constant 2 into Z, unlike ships and effects. */
  function NewBullet(am: AttackMessage): (b: Bullet)
    ensures b.acl == BulletAcl()
    ensures b.pos.coords == Coordinates(am.pos.x, am.pos.y, 2.0)
    ensures b.bullet == BulletComponent(am.shipId, am.damage, am.pos, am.vel)
    ensures b.meta.name == "Bullet" && !b.hasAuthority
  {
    Bullet(
      id := 0,
      acl := BulletAcl(),
      meta := ImprobableMetadata("Bullet"),
      pos := ImprobablePosition(Coordinates(am.pos.x, am.pos.y, 2.0)),
      bullet := BulletComponent(shipId := am.shipId, damage := am.damage, pos := am.pos, vel := am.vel),
      hasAuthority := false)
  }

  /** The writes one update pass sends for `bullets`: the bullet and then the
      position component of each bullet this worker has authority over, in
      list order. */
  function AuthorityWrites(bullets: seq<Bullet>): seq<Event>
  {
    if bullets == [] then []
    else
      var b := bullets[|bullets| - 1];
      AuthorityWrites(bullets[..|bullets| - 1])
      + (if b.hasAuthority
         then [UpdateComponent(b.id, BulletCid, BulletData(b.bullet)),
               UpdateComponent(b.id, PositionCid, PositionData(b.pos))]
         else [])
  }

  /** The bullets this worker has authority over, in list order. */
  function Owned(bullets: seq<Bullet>): (r: seq<Bullet>)
    ensures |r| <= |bullets|
  {
    if bullets == [] then []
    else
      var b := bullets[|bullets| - 1];
      Owned(bullets[..|bullets| - 1]) + (if b.hasAuthority then [b] else [])
  }

  /** `Owned` keeps exactly the bullets this worker has authority over. */
  lemma {:induction false} OwnedSpec(bullets: seq<Bullet>)
    ensures forall o :: o in Owned(bullets) ==> o in bullets && o.hasAuthority
    ensures forall i :: 0 <= i < |bullets| && bullets[i].hasAuthority ==> bullets[i] in Owned(bullets)
  {
    if bullets != [] {
      var init := bullets[..|bullets| - 1];
      OwnedSpec(init);
      forall i | 0 <= i < |bullets| && bullets[i].hasAuthority ensures bullets[i] in Owned(bullets) {
        if i < |init| {
          assert bullets[i] == init[i];
        }
      }
    }
  }

  /** An update pass sends, for the k-th bullet this worker owns, write 2k
      with its bullet component and write 2k+1 with its position, and
      nothing else; so every write goes to an owned bullet. */
  lemma {:induction false} AuthorityWritesOwned(bullets: seq<Bullet>)
    ensures |AuthorityWrites(bullets)| == 2 * |Owned(bullets)|
    ensures forall k :: 0 <= k < |Owned(bullets)| ==>
      && AuthorityWrites(bullets)[2 * k]
         == UpdateComponent(Owned(bullets)[k].id, BulletCid, BulletData(Owned(bullets)[k].bullet))
      && AuthorityWrites(bullets)[2 * k + 1]
         == UpdateComponent(Owned(bullets)[k].id, PositionCid, PositionData(Owned(bullets)[k].pos))
    ensures forall e :: e in AuthorityWrites(bullets) ==>
      e.UpdateComponent? && e.cid in {BulletCid, PositionCid}
      && exists i :: 0 <= i < |bullets| && bullets[i].hasAuthority && bullets[i].id == e.entity
  {
    if bullets != [] {
      var init := bullets[..|bullets| - 1];
      var b := bullets[|bullets| - 1];
      AuthorityWritesOwned(init);
      var aw, ow := AuthorityWrites(bullets), Owned(bullets);
      assert aw[..|AuthorityWrites(init)|] == AuthorityWrites(init);
      assert ow[..|Owned(init)|] == Owned(init);
      forall k | 0 <= k < |ow|
        ensures aw[2 * k] == UpdateComponent(ow[k].id, BulletCid, BulletData(ow[k].bullet))
        ensures aw[2 * k + 1] == UpdateComponent(ow[k].id, PositionCid, PositionData(ow[k].pos))
      {
        if k < |Owned(init)| {
          assert ow[k] == Owned(init)[k];
          assert aw[2 * k] == AuthorityWrites(init)[2 * k];
          assert aw[2 * k + 1] == AuthorityWrites(init)[2 * k + 1];
        } else {
          assert ow[k] == b;
        }
      }
      forall e | e in aw
        ensures e.UpdateComponent? && e.cid in {BulletCid, PositionCid}
          && exists i :: 0 <= i < |bullets| && bullets[i].hasAuthority && bullets[i].id == e.entity
      {
        if e in AuthorityWrites(init) {
          var i :| 0 <= i < |init| && init[i].hasAuthority && init[i].id == e.entity;
          assert bullets[i] == init[i];
        } else {
          assert bullets[|bullets| - 1].id == e.entity;
        }
      }
    }
  }

  class AttackSystem {
    const ss: Scene
    /** The acknowledged bullets, in creation order. */
    var entities: seq<Bullet>

    constructor (ss: Scene)
      ensures this.ss == ss && entities == []
    {
      this.ss := ss;
      entities := [];
    }

    /** Sends the create-entity request for the bullet an attack message
        fires. The bullet is recorded only when the transport acknowledges
        it (OnBulletCreated). */
    method NewBulletRequest(am: AttackMessage)
      modifies ss
      ensures ss.events == old(ss.events) + [CreateEntity(BulletEntityComponents(NewBullet(am)))]
      ensures ss.entities == old(ss.entities) && entities == old(entities)
    {
      var ent := NewBullet(am);
      ss.events := ss.events + [CreateEntity(BulletEntityComponents(ent))];
    }

    /** The creation acknowledgement: the bullet takes the assigned id, is
        stored in the scene's entity map and appended once to the list. */
    method OnBulletCreated(am: AttackMessage, id: EntityId)
      modifies this, ss
      ensures ss.entities == old(ss.entities)[id := NewBullet(am).(id := id)]
      ensures entities == old(entities) + [NewBullet(am).(id := id)]
      ensures ss.events == old(ss.events)
    {
      var ent := NewBullet(am).(id := id);
      ss.entities := ss.entities[id := ent];
      entities := entities + [ent];
    }

    /** One frame: publishes bullet and position of every bullet this worker
        has authority over. */
    method Update()
      modifies ss
      ensures ss.events == old(ss.events) + AuthorityWrites(entities)
      ensures ss.entities == old(ss.entities)
    {
      var i := 0;
      while i < |entities|
        invariant 0 <= i <= |entities|
        invariant ss.events == old(ss.events) + AuthorityWrites(entities[..i])
        invariant ss.entities == old(ss.entities)
      {
        var ent := entities[i];
        assert entities[..i + 1][..i] == entities[..i];
        if ent.hasAuthority {
          ss.events := ss.events + [UpdateComponent(ent.id, BulletCid, BulletData(ent.bullet))];
          ss.events := ss.events + [UpdateComponent(ent.id, PositionCid, PositionData(ent.pos))];
        }
        i := i + 1;
      }
      assert entities[..i] == entities;
    }
  }
}
