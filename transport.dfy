/** What the coordinator sends out. Every call into the synchronization
    transport and every process start or kill is recorded as one event:
    the model's output log replaces the network and the operating system. */
module Transport {
  import opened ServerScene
  import opened Components
  import opened Qbi

  /** The payload of one component, tagged by its kind. */
  datatype ComponentData =
    | AclData(acl: ImprobableAcl)
    | PositionData(position: ImprobablePosition)
    | MetadataData(metadata: ImprobableMetadata)
    | InterestData(interest: ImprobableInterest)
    | WorkerData(worker: WorkerComponent)
    | ShipData(ship: ShipComponent)
    | PlayerInputData(input: PlayerInputComponent)
    | BulletData(bullet: BulletComponent)
    | EffectData(effect: EffectComponent)

  /** An operating-system process, known only by an opaque token. */
  datatype Handle = Handle(token: nat)

  datatype Event =
      /** create-entity with the entity's components, keyed by component id */
    | CreateEntity(components: map<ComponentId, ComponentData>)
    | UpdateComponent(entity: EntityId, cid: ComponentId, data: ComponentData)
    | DeleteEntity(entity: EntityId)
      /** start of a simulation-worker process (its handle is not kept) */
    | StartServer
    | StartBot(bot: Handle)
    | KillWorker(process: Handle)
    | KillBot(bot: Handle)

  /** Appending to a log is associative. */
  lemma LogAppend(a: seq<Event>, b: seq<Event>, c: seq<Event>)
    ensures a + (b + c) == (a + b) + c
  {
  }
}
