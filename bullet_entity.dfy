/** The bullet entity: its components and the transport-local authority
    flag. */
module BulletEntity {
  import opened ServerScene
  import opened Components
  import opened Transport

  datatype Bullet = Bullet(
    id: EntityId,
    acl: ImprobableAcl,
    meta: ImprobableMetadata,
    pos: ImprobablePosition,
    bullet: BulletComponent,
    hasAuthority: bool)

  /** The components a create-entity request for the bullet carries; the id
      and the authority flag are not sent. */
  function BulletEntityComponents(b: Bullet): (m: map<ComponentId, ComponentData>)
    ensures m.Keys == {AclCid, MetadataCid, PositionCid, BulletCid}
  {
    map[AclCid := AclData(b.acl),
        MetadataCid := MetadataData(b.meta),
        PositionCid := PositionData(b.pos),
        BulletCid := BulletData(b.bullet)]
  }
}
