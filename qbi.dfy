/** The query-based-interest language: constraints are finite trees whose
    leaves test a region (absolute, or relative to the subject entity), an
    entity id or a component id, and whose inner nodes are AND and OR over
    ordered lists of sub-constraints. Queries pair one constraint with the
    component ids to stream back; an interest maps a trigger component id
    to its queries. */
module Qbi {
  import opened GoStd
  import opened Wrappers
  import opened ServerScene

  datatype EdgeLength = EdgeLength(x: real, y: real, z: real)

  datatype QbiConstraint =
    | Sphere(center: Coordinates, radius: real)
    | Cylinder(center: Coordinates, radius: real)
    | Box(center: Coordinates, edge: EdgeLength)
    | RelativeSphere(radius: real)
    | RelativeCylinder(radius: real)
    | RelativeBox(edge: EdgeLength)
    | EntityIdIs(entityId: int64)
    | ComponentIdIs(componentId: uint32)
    | And(all: seq<QbiConstraint>)
    | Or(any: seq<QbiConstraint>)
  {
    predicate IsLeaf() { !And? && !Or? }

    /** The sub-constraints of an inner node, none for a leaf. */
    function Children(): seq<QbiConstraint>
    {
      match this
      case And(cs) => cs
      case Or(cs) => cs
      case _ => []
    }
  }

  datatype QbiQuery = QbiQuery(
    constraint: QbiConstraint,
    fullSnapshot: Option<bool>,
    resultComponents: seq<ComponentId>,
    frequency: Option<real>)

  datatype ComponentInterest = ComponentInterest(queries: seq<QbiQuery>)

  datatype ImprobableInterest = ImprobableInterest(interest: map<ComponentId, ComponentInterest>)

  const NoInterest := ImprobableInterest(map[])

  /** A query with the optional snapshot flag and frequency left unset. */
  function Query(c: QbiConstraint, results: seq<ComponentId>): QbiQuery
  {
    QbiQuery(c, None, results, None)
  }

  /** Number of nodes in a constraint tree. */
  function Size(c: QbiConstraint): (n: nat)
    decreases c, 1
  {
    match c
    case And(cs) => 1 + SizeAll(cs)
    case Or(cs) => 1 + SizeAll(cs)
    case _ => 1
  }

  function SizeAll(cs: seq<QbiConstraint>): (n: nat)
    decreases cs, 0
  {
    if cs == [] then 0 else Size(cs[0]) + SizeAll(cs[1..])
  }

  lemma {:induction false} SizeAllElement(cs: seq<QbiConstraint>, i: nat)
    requires i < |cs|
    ensures Size(cs[i]) <= SizeAll(cs)
    decreases |cs|
  {
    if i > 0 {
      SizeAllElement(cs[1..], i - 1);
    }
  }

  /** Every child of a node is strictly smaller than the node, so the tree
      has no cycles and recursion over it terminates. */
  lemma ChildSmaller(c: QbiConstraint, i: nat)
    requires i < |c.Children()|
    ensures Size(c.Children()[i]) < Size(c)
  {
    SizeAllElement(c.Children(), i);
  }

  /** Does the region a constraint selects depend on the subject entity's
      own position? */
  predicate Relative(c: QbiConstraint)
    decreases c
  {
    match c
    case RelativeSphere(_) => true
    case RelativeCylinder(_) => true
    case RelativeBox(_) => true
    case And(cs) => exists i :: 0 <= i < |cs| && Relative(cs[i])
    case Or(cs) => exists i :: 0 <= i < |cs| && Relative(cs[i])
    case _ => false
  }

  /** The component ids a constraint filters on. */
  function ComponentFilters(c: QbiConstraint): (ids: set<ComponentId>)
    decreases c
  {
    match c
    case ComponentIdIs(id) => {id}
    case And(cs) => set i, id | 0 <= i < |cs| && id in ComponentFilters(cs[i]) :: id
    case Or(cs) => set i, id | 0 <= i < |cs| && id in ComponentFilters(cs[i]) :: id
    case _ => {}
  }

  /** An AND of two constraints is relative when either is, and filters on
      the component ids either filters on. */
  lemma AndOfTwo(a: QbiConstraint, b: QbiConstraint)
    ensures Relative(And([a, b])) <==> Relative(a) || Relative(b)
    ensures ComponentFilters(And([a, b])) == ComponentFilters(a) + ComponentFilters(b)
  {
    var cs := [a, b];
    assert cs[0] == a && cs[1] == b;
    assert forall id :: id in ComponentFilters(And(cs)) <==> id in ComponentFilters(a) + ComponentFilters(b) by {
      forall id ensures id in ComponentFilters(And(cs)) <==> id in ComponentFilters(a) + ComponentFilters(b) {
        if id in ComponentFilters(a) + ComponentFilters(b) {
          if id in ComponentFilters(a) {
            assert 0 <= 0 < |cs| && id in ComponentFilters(cs[0]);
          } else {
            assert 0 <= 1 < |cs| && id in ComponentFilters(cs[1]);
          }
        }
      }
    }
  }
}
