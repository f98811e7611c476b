/**
 * The host CAD document as the plugin sees it: read-only topology queries,
 * vertex positions, and the calls the plugin makes to change the document or
 * talk to the user, recorded in order.
 */
module Host {
  import opened Wrappers

  /** Host object identifiers (vertices, edges, faces, bodies share one id space). */
  type ObjectId = int

  /** The object types the plugin asks the host for. */
  datatype ObjectType = VertexType | EdgeType

  /** One step of a selection's id path: the history and the object in it. */
  datatype PathEntry = PathEntry(history: int, objectId: ObjectId)

  /** A selected object, given by its path through nested editing contexts. */
  datatype Selected = Selected(ids: seq<PathEntry>)

  datatype Point = Point(x: real, y: real, z: real)

  /** A circular arc from start to end around center. */
  datatype Arc = Arc(start: Point, end: Point, center: Point)

  /**
   * The tangent-arc construction for a corner at the first point, with
   * neighbours at the second and third points and the given radius; None
   * stands for a centre that came out as NaN.
   */
  type ArcSolver = (Point, Point, Point, real) -> Option<Arc>

  /**
   * A snapshot of the document in the current editing history.
   *  - objectsOfType(o, t): the objects of type t that o owns or is made of
   *    (for a vertex, itself; for an edge, its vertices; for a face, its
   *    bounding vertices or edges);
   *  - attachedEdges(v): the edges attached to vertex v, in host order;
   *  - edgeVertices(e): the two vertices of edge e, in host order. The host
   *    answers this with the same vertex query as objectsOfType(e, VertexType);
   *    the two are kept as separate fields and are not required to agree;
   *  - position(v): where vertex v is;
   *  - curveFacets: the global curve faceting setting.
   */
  datatype Document = Document(
    objectsOfType: (ObjectId, ObjectType) -> seq<ObjectId>,
    attachedEdges: ObjectId -> seq<ObjectId>,
    edgeVertices: ObjectId -> (ObjectId, ObjectId),
    position: ObjectId -> Point,
    curveFacets: int)

  datatype NotificationType = Information | Success | Error

  datatype Notification = Notification(kind: NotificationType, message: string)

  /** The calls the plugin makes that change the document or the screen. */
  datatype HostCall =
    | BeginState
    | EndState(stateName: string)
    | CreateArc(arc: Arc, facets: int)
    | DeleteObject(id: ObjectId)
    | ShowNotification(note: Notification)
}
