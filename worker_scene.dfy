/** The state a simulation worker's scene shares with its systems: the map
    of entities it has created, and the output log that stands for its
    connection to the transport. */
module WorkerScene {
  import opened Geometry
  import opened ServerScene
  import opened Transport
  import opened BulletEntity
  import opened EffectEntity

  class Scene {
    /** Entities this worker created, by assigned id (only bullets in the
        modelled code). */
    var entities: map<EntityId, Bullet>
    /** Everything sent to the transport so far. */
    ghost var events: seq<Event>

    constructor ()
      ensures entities == map[] && events == []
    {
      entities := map[];
      events := [];
    }

    /** Asks the transport to create one effect entity. No callback is
        registered, so the scene never learns the effect's id. */
    method NewEffect(pos: Vec3, effect: int, expiry: int)
      modifies this
      ensures events == old(events) + [CreateEntity(EffectEntityComponents(EffectEntity.NewEffect(pos, effect, expiry)))]
      ensures entities == old(entities)
    {
      var ent := EffectEntity.NewEffect(pos, effect, expiry);
      events := events + [CreateEntity(EffectEntityComponents(ent))];
    }
  }
}
