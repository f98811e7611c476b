/**
 * What the plugin derives from the user's selection: the associated vertices
 * and edges, a vertex's composite edges, and which vertices are fillet
 * candidates (getSelectionInfo, getCompositeEdges, getIsBlendCandidate and
 * the candidate loop of execute).
 */
module Selection {
  import opened Sequences
  import opened Host

  /** Every selected object has a non-empty id path. */
  predicate WellFormedSelection(selection: seq<Selected>) {
    forall k :: 0 <= k < |selection| ==> |selection[k].ids| > 0
  }

  /** The object a selection entry names: the object of the last step of its id path. */
  function SelectedObject(s: Selected): ObjectId
    requires |s.ids| > 0
  {
    s.ids[|s.ids| - 1].objectId
  }

  /** For each selected object in turn, the objects of type t it is made of. */
  function ObjectLists(doc: Document, selection: seq<Selected>, t: ObjectType): seq<seq<ObjectId>>
    requires WellFormedSelection(selection)
  {
    seq(|selection|, k requires 0 <= k < |selection| => doc.objectsOfType(SelectedObject(selection[k]), t))
  }

  /** The associated objects of type t: the per-object lists flattened, duplicates removed. */
  function Associated(doc: Document, selection: seq<Selected>, t: ObjectType): seq<ObjectId>
    requires WellFormedSelection(selection)
  {
    Dedup(Flatten(ObjectLists(doc, selection, t)))
  }

  /**
   * An object is associated exactly when some selected object is made of it,
   * and no associated object is listed twice.
   */
  lemma AssociatedSpec(doc: Document, selection: seq<Selected>, t: ObjectType, x: ObjectId)
    requires WellFormedSelection(selection)
    ensures x in Associated(doc, selection, t) <==>
            exists k :: 0 <= k < |selection| && x in doc.objectsOfType(SelectedObject(selection[k]), t)
    ensures NoDuplicates(Associated(doc, selection, t))
  {
    var lists := ObjectLists(doc, selection, t);
    DedupProperties(Flatten(lists));
    FlattenMembers(lists, x);
    if exists k :: 0 <= k < |selection| && x in doc.objectsOfType(SelectedObject(selection[k]), t) {
      var k :| 0 <= k < |selection| && x in doc.objectsOfType(SelectedObject(selection[k]), t);
      assert x in lists[k];
    }
  }

  /** Membership in a list, as a predicate to filter by. */
  function InList(list: seq<ObjectId>): ObjectId -> bool {
    x => x in list
  }

  /** The composite edges of a vertex: its attached edges that are also associated edges. */
  function CompositeEdges(attached: seq<ObjectId>, associatedEdges: seq<ObjectId>): seq<ObjectId> {
    Filter(attached, InList(associatedEdges))
  }

  /**
   * The composite edges are exactly the attached edges that are associated,
   * in attached order.
   */
  lemma CompositeEdgesSpec(attached: seq<ObjectId>, associatedEdges: seq<ObjectId>)
    ensures forall e :: e in CompositeEdges(attached, associatedEdges) <==> e in attached && e in associatedEdges
    ensures IsSubsequence(CompositeEdges(attached, associatedEdges), attached)
  {
    forall e
      ensures e in CompositeEdges(attached, associatedEdges) <==> e in attached && e in associatedEdges
    {
      FilterMembers(attached, InList(associatedEdges), e);
    }
    FilterIsSubsequence(attached, InList(associatedEdges));
  }

  /** A vertex is a fillet candidate when it has two composite edges or none. */
  predicate IsBlendCandidate(doc: Document, associatedEdges: seq<ObjectId>, v: ObjectId) {
    var n := |CompositeEdges(doc.attachedEdges(v), associatedEdges)|;
    n == 2 || n == 0
  }

  /**
   * When the host lists a vertex's attached edges without repetition, the
   * vertex is a candidate exactly when none or exactly two of its attached
   * edges are associated edges.
   */
  lemma CandidateBySets(doc: Document, associatedEdges: seq<ObjectId>, v: ObjectId)
    requires NoDuplicates(doc.attachedEdges(v))
    ensures IsBlendCandidate(doc, associatedEdges, v) <==>
            (var shared := Elements(doc.attachedEdges(v)) * Elements(associatedEdges);
             |shared| == 2 || |shared| == 0)
  {
    var attached := doc.attachedEdges(v);
    var composite := CompositeEdges(attached, associatedEdges);
    CompositeEdgesSpec(attached, associatedEdges);
    FilterNoDuplicates(attached, InList(associatedEdges));
    NoDuplicatesCardinality(composite);
    assert Elements(composite) == Elements(attached) * Elements(associatedEdges);
  }

  function Candidacy(doc: Document, associatedEdges: seq<ObjectId>): ObjectId -> bool {
    v => IsBlendCandidate(doc, associatedEdges, v)
  }

  /** The vertices to fillet: the associated vertices that are candidates, in order. */
  function FinalVertices(doc: Document, associatedVertices: seq<ObjectId>, associatedEdges: seq<ObjectId>): seq<ObjectId> {
    Filter(associatedVertices, Candidacy(doc, associatedEdges))
  }

  /** The composite edges of each final vertex, position by position. */
  function FinalCompositeEdges(doc: Document, associatedEdges: seq<ObjectId>, finalVertices: seq<ObjectId>): seq<seq<ObjectId>> {
    seq(|finalVertices|, i requires 0 <= i < |finalVertices| =>
      CompositeEdges(doc.attachedEdges(finalVertices[i]), associatedEdges))
  }

  /**
   * The final vertices are the candidate associated vertices, kept in their
   * order and, like the associated vertices, without repetition.
   */
  lemma FinalVerticesSpec(doc: Document, associatedVertices: seq<ObjectId>, associatedEdges: seq<ObjectId>)
    ensures forall v :: v in FinalVertices(doc, associatedVertices, associatedEdges) <==>
                        v in associatedVertices && IsBlendCandidate(doc, associatedEdges, v)
    ensures IsSubsequence(FinalVertices(doc, associatedVertices, associatedEdges), associatedVertices)
    ensures NoDuplicates(associatedVertices) ==> NoDuplicates(FinalVertices(doc, associatedVertices, associatedEdges))
  {
    var keep := Candidacy(doc, associatedEdges);
    forall v
      ensures v in FinalVertices(doc, associatedVertices, associatedEdges) <==>
              v in associatedVertices && IsBlendCandidate(doc, associatedEdges, v)
    {
      FilterMembers(associatedVertices, keep, v);
    }
    FilterIsSubsequence(associatedVertices, keep);
    if NoDuplicates(associatedVertices) {
      FilterNoDuplicates(associatedVertices, keep);
    }
  }
}
