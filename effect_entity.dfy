/** The short-lived visual effect entity a simulation worker spawns: owned
    by the balancer for every component, readable by clients and position
    workers. */
module EffectEntity {
  import opened GoStd
  import opened Geometry
  import opened ServerScene
  import opened Components
  import opened Transport

  datatype Effect = Effect(
    id: EntityId,
    meta: ImprobableMetadata,
    acl: ImprobableAcl,
    pos: ImprobablePosition,
    worker: WorkerComponent,
    effect: EffectComponent)

  function EffectAcl(): (acl: ImprobableAcl)
    ensures acl.componentWriteAcl.Keys == {EffectCid, PositionCid, AclCid, WorkerBalancerCid}
  {
    ImprobableAcl(
      WorkerRequirementSet([WorkerAttributeSet(["client"]), WorkerAttributeSet(["position"])]),
      map[EffectCid := RequireTag("balancer"),
          PositionCid := RequireTag("balancer"),
          AclCid := RequireTag("balancer"),
          WorkerBalancerCid := RequireTag("balancer")])
  }

  /** Only the balancer writes an effect's components; clients and position
      workers read it. */
  lemma EffectAclMeaning(cid: ComponentId, attrs: set<string>)
    ensures CanWrite(EffectAcl(), cid, attrs)
        <==> cid in {EffectCid, PositionCid, AclCid, WorkerBalancerCid} && "balancer" in attrs
    ensures Satisfies(EffectAcl().readAcl, attrs) <==> "client" in attrs || "position" in attrs
  {
    RequireTagMeaning("balancer", attrs);
    AnyTagMeaning(["client", "position"], attrs);
    assert EffectAcl().readAcl
        == WorkerRequirementSet(seq(2, i requires 0 <= i < 2 => WorkerAttributeSet([["client", "position"][i]])));
  }

  /** The effect `effect` at `pos`, expiring after `expiry`; both numbers go
      through Go's int32 conversion. Its worker-balancer component keeps
      the zero value, so it starts out assigned to worker 0, not -1. */
  function NewEffect(pos: Vec3, effect: int, expiry: int): (e: Effect)
    ensures e.acl == EffectAcl()
    ensures e.pos.coords == Coordinates(pos.x, 0.0, pos.y)
    ensures e.effect.pos == pos
    ensures e.effect.id == WrapInt32(effect) && e.effect.expiry == WrapInt32(expiry)
    ensures -0x8000_0000 <= effect < 0x8000_0000 ==> e.effect.id as int == effect
    ensures e.worker.workerId == 0 && e.meta.name == "Effect"
  {
    Effect(
      id := 0,
      meta := ImprobableMetadata("Effect"),
      acl := EffectAcl(),
      pos := ImprobablePosition(Coordinates(pos.x, 0.0, pos.y)),
      worker := WorkerComponent(0),
      effect := EffectComponent(pos, WrapInt32(effect), WrapInt32(expiry)))
  }

  /** The components a create-entity request for the effect carries. */
  function EffectEntityComponents(e: Effect): (m: map<ComponentId, ComponentData>)
    ensures m.Keys == {MetadataCid, AclCid, PositionCid, WorkerBalancerCid, EffectCid}
  {
    map[MetadataCid := MetadataData(e.meta),
        AclCid := AclData(e.acl),
        PositionCid := PositionData(e.pos),
        WorkerBalancerCid := WorkerData(e.worker),
        EffectCid := EffectData(e.effect)]
  }
}
