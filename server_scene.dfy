/** The shared component types of a simulation worker: coordinates,
    positions, worker identities, access-control lists and their
    requirement sets, and the allocation switch that gives the transport a
    zero value of the right shape for each component id it decodes. */
module ServerScene {
  import opened GoStd
  import opened Wrappers

  type EntityId = int64
  type ComponentId = uint32

  // Component ids. The source refers to them by name only; these are the
  // values the struct tags of the entity types carry.
  const AclCid: ComponentId := 50
  const MetadataCid: ComponentId := 53
  const PositionCid: ComponentId := 54
  const InterestCid: ComponentId := 58
  const WorkerCid: ComponentId := 60
  const ShipCid: ComponentId := 1000
  const BulletCid: ComponentId := 1001
  const GameCid: ComponentId := 1002
  const PlayerInputCid: ComponentId := 1003
  const WorkerBalancerCid: ComponentId := 1005
  const EffectCid: ComponentId := 1006

  datatype Coordinates = Coordinates(x: real, y: real, z: real)

  const Origin := Coordinates(0.0, 0.0, 0.0)

  /** A conjunction of attribute tags. */
  datatype WorkerAttributeSet = WorkerAttributeSet(attribute: seq<string>)

  /** A disjunction of attribute sets. */
  datatype WorkerRequirementSet = WorkerRequirementSet(attributeSet: seq<WorkerAttributeSet>)

  datatype ImprobablePosition = ImprobablePosition(coords: Coordinates)

  datatype ImprobableWorker = ImprobableWorker(workerId: string, workerType: string)

  /** Read requirement plus one write requirement per component id. A Go
      nil map and an empty map read alike, so both are the empty map here. */
  datatype ImprobableAcl = ImprobableAcl(
    readAcl: WorkerRequirementSet,
    componentWriteAcl: map<ComponentId, WorkerRequirementSet>)

  datatype ImprobableMetadata = ImprobableMetadata(name: string)

  datatype SpatialGame = SpatialGame(entityId: EntityId)

  /** The requirement met by exactly the workers carrying one tag. */
  function RequireTag(tag: string): WorkerRequirementSet
  {
    WorkerRequirementSet([WorkerAttributeSet([tag])])
  }

  const EmptyAcl := ImprobableAcl(WorkerRequirementSet([]), map[])

  /** A worker with attributes `attrs` meets `req` when it carries every tag
      of at least one of req's attribute sets. */
  predicate Satisfies(req: WorkerRequirementSet, attrs: set<string>)
  {
    exists i :: 0 <= i < |req.attributeSet| && AllIn(req.attributeSet[i], attrs)
  }

  predicate AllIn(set_: WorkerAttributeSet, attrs: set<string>)
  {
    forall a :: a in set_.attribute ==> a in attrs
  }

  /** May a worker with these attributes write component `cid`? */
  predicate CanWrite(acl: ImprobableAcl, cid: ComponentId, attrs: set<string>)
  {
    cid in acl.componentWriteAcl && Satisfies(acl.componentWriteAcl[cid], attrs)
  }

  lemma RequireTagMeaning(tag: string, attrs: set<string>)
    ensures Satisfies(RequireTag(tag), attrs) <==> tag in attrs
  {
    if tag in attrs {
      assert AllIn(RequireTag(tag).attributeSet[0], attrs);
    }
  }

  /** A requirement made of one single-tag attribute set per listed tag is
      met exactly by the workers carrying one of those tags. */
  lemma AnyTagMeaning(tags: seq<string>, attrs: set<string>)
    ensures Satisfies(WorkerRequirementSet(seq(|tags|, i requires 0 <= i < |tags| => WorkerAttributeSet([tags[i]]))), attrs)
        <==> exists t :: t in tags && t in attrs
  {
    var req := WorkerRequirementSet(seq(|tags|, i requires 0 <= i < |tags| => WorkerAttributeSet([tags[i]])));
    if t :| t in tags && t in attrs {
      var i :| 0 <= i < |tags| && tags[i] == t;
      assert AllIn(req.attributeSet[i], attrs);
    }
    if Satisfies(req, attrs) {
      var i :| 0 <= i < |req.attributeSet| && AllIn(req.attributeSet[i], attrs);
      assert tags[i] in req.attributeSet[i].attribute;
    }
  }

  /** The zero value the transport decodes a component into. */
  datatype Allocated =
    | AclValue(acl: ImprobableAcl)
    | PositionValue(position: ImprobablePosition)
    | WorkerValue(worker: ImprobableWorker)
    | GameValue(game: SpatialGame)

  /** Allocates an empty value for the four component ids a plain worker
      understands and refuses every other id. */
  function AllocComponent(id: EntityId, cid: ComponentId): (r: Result<Allocated>)
    ensures r.Ok? <==> cid in {AclCid, PositionCid, WorkerCid, GameCid}
    ensures cid == AclCid ==> r == Ok(AclValue(EmptyAcl))
    ensures cid == PositionCid ==> r == Ok(PositionValue(ImprobablePosition(Origin)))
    ensures cid == WorkerCid ==> r == Ok(WorkerValue(ImprobableWorker("", "")))
    ensures cid == GameCid ==> r == Ok(GameValue(SpatialGame(0)))
  {
    match cid
    case 50 => Ok(AclValue(EmptyAcl))
    case 54 => Ok(PositionValue(ImprobablePosition(Origin)))
    case 60 => Ok(WorkerValue(ImprobableWorker("", "")))
    case 1002 => Ok(GameValue(SpatialGame(0)))
    case _ => Err("Unimplemented")
  }

  /** The allocated value depends on the component id alone. */
  lemma AllocIgnoresEntity(id1: EntityId, id2: EntityId, cid: ComponentId)
    ensures AllocComponent(id1, cid) == AllocComponent(id2, cid)
  {
  }
}
