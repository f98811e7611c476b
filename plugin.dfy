/**
 * The plugin's module-level state and the operations that read and update
 * it: getSelectionInfo, getCompositeEdges, getIsBlendCandidate, execute,
 * blendVertex and deleteVertices.
 */
module Plugin {
  import opened Wrappers
  import opened Sequences
  import opened Host
  import opened Selection
  import opened Blending
  import opened Messages

  /** The name under which one run is recorded as a single undo step. */
  const UndoStateName := "Fillet Corner Plugin"

  /** The notification call for a chosen notification, if there is one. */
  function NotificationCalls(note: Option<Notification>): seq<HostCall> {
    match note
    case Some(n) => [ShowNotification(n)]
    case None => []
  }

  class FilletCorners {
    /** The host document, read-only for the plugin. */
    const doc: Document

    var currentSelection: seq<Selected>
    var associatedVertexIds: seq<ObjectId>
    var associatedEdgeIds: seq<ObjectId>

    /** The tally of one run. */
    var modifiedVerticesSuccessful: seq<ObjectId>
    var nModifiedVerticesSuccessful: nat
    var nModifiedVerticesUnsuccessful: nat

    /** The calls made to the host that change the document or the screen, oldest first. */
    var log: seq<HostCall>

    /**
     * The success counter counts the succeeded vertices, and nothing ever
     * increments the failure counter.
     */
    ghost predicate Valid()
      reads this
    {
      && nModifiedVerticesSuccessful == |modifiedVerticesSuccessful|
      && nModifiedVerticesUnsuccessful == 0
    }

    /** The state when the plugin is loaded. */
    constructor (doc: Document)
      ensures this.doc == doc
      ensures Valid()
      ensures currentSelection == [] && associatedVertexIds == [] && associatedEdgeIds == []
      ensures modifiedVerticesSuccessful == [] && log == []
    {
      this.doc := doc;
      currentSelection, associatedVertexIds, associatedEdgeIds := [], [], [];
      modifiedVerticesSuccessful := [];
      nModifiedVerticesSuccessful, nModifiedVerticesUnsuccessful := 0, 0;
      log := [];
    }

    /** Stores the selection and its associated vertices and edges. */
    method GetSelectionInfo(selection: seq<Selected>) returns (current: seq<Selected>)
      requires WellFormedSelection(selection)
      modifies this`currentSelection, this`associatedVertexIds, this`associatedEdgeIds
      ensures current == selection && currentSelection == selection
      ensures associatedVertexIds == Associated(doc, selection, VertexType)
      ensures associatedEdgeIds == Associated(doc, selection, EdgeType)
    {
      currentSelection, associatedVertexIds, associatedEdgeIds := [], [], [];
      currentSelection := selection;
      var vertexLists: seq<seq<ObjectId>> := [];
      var edgeLists: seq<seq<ObjectId>> := [];
      var j := 0;
      while j < |currentSelection|
        invariant 0 <= j <= |selection| && currentSelection == selection
        invariant |vertexLists| == j && |edgeLists| == j
        invariant forall k :: 0 <= k < j ==>
                    vertexLists[k] == doc.objectsOfType(SelectedObject(selection[k]), VertexType)
        invariant forall k :: 0 <= k < j ==>
                    edgeLists[k] == doc.objectsOfType(SelectedObject(selection[k]), EdgeType)
      {
        var historyDepth := |currentSelection[j].ids| - 1;
        var objectId := currentSelection[j].ids[historyDepth].objectId;
        vertexLists := vertexLists + [doc.objectsOfType(objectId, VertexType)];
        edgeLists := edgeLists + [doc.objectsOfType(objectId, EdgeType)];
        j := j + 1;
      }
      assert vertexLists == ObjectLists(doc, selection, VertexType);
      assert edgeLists == ObjectLists(doc, selection, EdgeType);
      associatedVertexIds := Dedup(Flatten(vertexLists));
      associatedEdgeIds := Dedup(Flatten(edgeLists));
      current := currentSelection;
    }

    /** The attached edges of a vertex that are also associated edges. */
    method GetCompositeEdges(vertexId: ObjectId) returns (adjustedEdgeIds: seq<ObjectId>)
      ensures adjustedEdgeIds == CompositeEdges(doc.attachedEdges(vertexId), associatedEdgeIds)
    {
      adjustedEdgeIds := [];
      var attachedEdgeIds := doc.attachedEdges(vertexId);
      var j := 0;
      while j < |attachedEdgeIds|
        invariant 0 <= j <= |attachedEdgeIds|
        invariant adjustedEdgeIds == CompositeEdges(attachedEdgeIds[..j], associatedEdgeIds)
      {
        if attachedEdgeIds[j] in associatedEdgeIds {
          adjustedEdgeIds := adjustedEdgeIds + [attachedEdgeIds[j]];
        }
        assert attachedEdgeIds[..j + 1][..j] == attachedEdgeIds[..j];
        j := j + 1;
      }
      assert attachedEdgeIds[..j] == attachedEdgeIds;
    }

    method GetIsBlendCandidate(vertexId: ObjectId) returns (isCandidate: bool)
      ensures isCandidate == IsBlendCandidate(doc, associatedEdgeIds, vertexId)
    {
      var compositeEdgeIds := GetCompositeEdges(vertexId);
      isCandidate := |compositeEdgeIds| == 2 || |compositeEdgeIds| == 0;
    }

    /** The candidate loop of execute: the final vertices and, in parallel, their composite edges. */
    method CollectCandidates() returns (finalVertices: seq<ObjectId>, finalCompositeEdges: seq<seq<ObjectId>>)
      ensures finalVertices == FinalVertices(doc, associatedVertexIds, associatedEdgeIds)
      ensures |finalCompositeEdges| == |finalVertices|
      ensures forall i :: 0 <= i < |finalVertices| ==>
                finalCompositeEdges[i] == CompositeEdges(doc.attachedEdges(finalVertices[i]), associatedEdgeIds)
    {
      finalVertices, finalCompositeEdges := [], [];
      var i := 0;
      while i < |associatedVertexIds|
        invariant 0 <= i <= |associatedVertexIds|
        invariant finalVertices == FinalVertices(doc, associatedVertexIds[..i], associatedEdgeIds)
        invariant |finalCompositeEdges| == |finalVertices|
        invariant forall k :: 0 <= k < |finalVertices| ==>
                    finalCompositeEdges[k] == CompositeEdges(doc.attachedEdges(finalVertices[k]), associatedEdgeIds)
      {
        var isFilletCandidate := GetIsBlendCandidate(associatedVertexIds[i]);
        if isFilletCandidate {
          finalVertices := finalVertices + [associatedVertexIds[i]];
          var compositeEdgeIds := GetCompositeEdges(associatedVertexIds[i]);
          finalCompositeEdges := finalCompositeEdges + [compositeEdgeIds];
        }
        assert associatedVertexIds[..i + 1][..i] == associatedVertexIds[..i];
        i := i + 1;
      }
      assert associatedVertexIds[..i] == associatedVertexIds;
    }

    /** The outer-vertex loop of blendVertex: the end of each edge away from the corner. */
    method CollectOuterVertices(edgeIds: seq<ObjectId>, vertexId: ObjectId) returns (outerVertexIds: seq<ObjectId>)
      ensures outerVertexIds == OuterVertices(doc, edgeIds, vertexId)
    {
      outerVertexIds := [];
      var i := 0;
      while i < |edgeIds|
        invariant 0 <= i <= |edgeIds|
        invariant |outerVertexIds| == i
        invariant forall k :: 0 <= k < i ==> outerVertexIds[k] == OuterVertex(doc.edgeVertices(edgeIds[k]), vertexId)
      {
        var vertexIdsFromEdge := doc.edgeVertices(edgeIds[i]);
        if vertexIdsFromEdge.0 == vertexId {
          outerVertexIds := outerVertexIds + [vertexIdsFromEdge.1];
        } else {
          outerVertexIds := outerVertexIds + [vertexIdsFromEdge.0];
        }
        i := i + 1;
      }
    }

    /**
     * Fillets one corner: when the solver gives an arc, asks the host to
     * create it and records the vertex as succeeded; otherwise changes
     * nothing.
     */
    method BlendVertex(compositeEdgeIds: seq<ObjectId>, vertexId: ObjectId, radius: real, solver: ArcSolver)
      requires Valid()
      modifies this`modifiedVerticesSuccessful, this`nModifiedVerticesSuccessful, this`log
      ensures Valid()
      ensures var outcome := BlendOutcome(doc, compositeEdgeIds, vertexId, radius, solver);
              && nModifiedVerticesSuccessful == old(nModifiedVerticesSuccessful) + (if outcome.Some? then 1 else 0)
              && modifiedVerticesSuccessful == old(modifiedVerticesSuccessful) + (if outcome.Some? then [vertexId] else [])
              && log == old(log) + (match outcome case Some(arc) => [CreateArc(arc, doc.curveFacets)] case None => [])
    {
      var point0 := doc.position(vertexId);
      var compositeOrAttachedEdgeIds: seq<ObjectId>;
      if |compositeEdgeIds| == 0 {
        compositeOrAttachedEdgeIds := doc.attachedEdges(vertexId);
      } else {
        compositeOrAttachedEdgeIds := compositeEdgeIds;
      }
      var outerVertexIds := CollectOuterVertices(compositeOrAttachedEdgeIds, vertexId);
      if |outerVertexIds| < 2 {
        return;
      }
      var point1 := doc.position(outerVertexIds[0]);
      var point2 := doc.position(outerVertexIds[1]);
      var arc := solver(point0, point1, point2, radius);
      if arc.None? {
        return;
      }
      var curveFacets := doc.curveFacets;
      log := log + [CreateArc(arc.value, curveFacets)];
      nModifiedVerticesSuccessful := nModifiedVerticesSuccessful + 1;
      modifiedVerticesSuccessful := modifiedVerticesSuccessful + [vertexId];
    }

    /** The blending loop of execute: blends each final vertex with its composite edges, in order. */
    method BlendAll(finalVertices: seq<ObjectId>, finalCompositeEdges: seq<seq<ObjectId>>, radius: real, solver: ArcSolver)
      requires Valid() && |finalCompositeEdges| == |finalVertices|
      modifies this`modifiedVerticesSuccessful, this`nModifiedVerticesSuccessful, this`log
      ensures Valid()
      ensures modifiedVerticesSuccessful ==
              old(modifiedVerticesSuccessful) + Succeeded(doc, finalVertices, finalCompositeEdges, radius, solver)
      ensures log == old(log) + ArcCalls(doc, finalVertices, finalCompositeEdges, radius, solver)
    {
      var i := 0;
      while i < |finalVertices|
        invariant 0 <= i <= |finalVertices|
        invariant Valid()
        invariant modifiedVerticesSuccessful ==
                  old(modifiedVerticesSuccessful) + Succeeded(doc, finalVertices[..i], finalCompositeEdges[..i], radius, solver)
        invariant log == old(log) + ArcCalls(doc, finalVertices[..i], finalCompositeEdges[..i], radius, solver)
      {
        BlendVertex(finalCompositeEdges[i], finalVertices[i], radius, solver);
        assert finalVertices[..i + 1][..i] == finalVertices[..i];
        assert finalCompositeEdges[..i + 1][..i] == finalCompositeEdges[..i];
        i := i + 1;
      }
      assert finalVertices[..i] == finalVertices;
      assert finalCompositeEdges[..i] == finalCompositeEdges;
    }

    /** Asks the host to delete every succeeded vertex, in order. */
    method DeleteVertices()
      modifies this`log
      ensures log == old(log) + Deletions(modifiedVerticesSuccessful)
    {
      var i := 0;
      while i < |modifiedVerticesSuccessful|
        invariant 0 <= i <= |modifiedVerticesSuccessful|
        invariant log == old(log) + Deletions(modifiedVerticesSuccessful[..i])
      {
        log := log + [DeleteObject(modifiedVerticesSuccessful[i])];
        assert modifiedVerticesSuccessful[..i + 1][..i] == modifiedVerticesSuccessful[..i];
        i := i + 1;
      }
      assert modifiedVerticesSuccessful[..i] == modifiedVerticesSuccessful;
    }

    /**
     * One run of the plugin. With nothing selected it only shows the
     * no-selection message. Otherwise, inside one undo step, it fillets
     * every candidate vertex, deletes the succeeded ones if asked to, and
     * shows the notification the counters call for.
     */
    method Execute(selection: seq<Selected>, radius: real, cleanup: bool, solver: ArcSolver)
      requires Valid() && WellFormedSelection(selection)
      modifies this
      ensures Valid()
      ensures currentSelection == selection
      ensures associatedVertexIds == Associated(doc, selection, VertexType)
      ensures associatedEdgeIds == Associated(doc, selection, EdgeType)
      ensures |selection| == 0 ==>
                && modifiedVerticesSuccessful == old(modifiedVerticesSuccessful)
                && log == old(log) + [ShowNotification(Notification(Information, NoSelectionMessage))]
      ensures |selection| > 0 ==>
                var finalVertices := FinalVertices(doc, associatedVertexIds, associatedEdgeIds);
                var finalCompositeEdges := FinalCompositeEdges(doc, associatedEdgeIds, finalVertices);
                && modifiedVerticesSuccessful == Succeeded(doc, finalVertices, finalCompositeEdges, radius, solver)
                && log == old(log) + [BeginState]
                          + ArcCalls(doc, finalVertices, finalCompositeEdges, radius, solver)
                          + (if cleanup then Deletions(modifiedVerticesSuccessful) else [])
                          + NotificationCalls(ChooseNotification(nModifiedVerticesSuccessful,
                                                                 nModifiedVerticesUnsuccessful,
                                                                 |finalCompositeEdges|))
                          + [EndState(UndoStateName)]
    {
      var current := GetSelectionInfo(selection);
      if |currentSelection| == 0 {
        log := log + [ShowNotification(Notification(Information, NoSelectionMessage))];
        return;
      }

      modifiedVerticesSuccessful := [];
      nModifiedVerticesSuccessful := 0;
      nModifiedVerticesUnsuccessful := 0;

      log := log + [BeginState];
      ghost var logAtBegin := log;

      var finalVertices, finalCompositeEdges := CollectCandidates();
      assert finalCompositeEdges == FinalCompositeEdges(doc, associatedEdgeIds, finalVertices);
      ghost var arcCalls := ArcCalls(doc, finalVertices, finalCompositeEdges, radius, solver);

      BlendAll(finalVertices, finalCompositeEdges, radius, solver);
      assert modifiedVerticesSuccessful == Succeeded(doc, finalVertices, finalCompositeEdges, radius, solver);
      assert log == logAtBegin + arcCalls;

      ghost var logAtCleanup := log;
      if cleanup {
        DeleteVertices();
      }
      assert log == logAtCleanup + (if cleanup then Deletions(modifiedVerticesSuccessful) else []);

      var note := ChooseNotification(nModifiedVerticesSuccessful, nModifiedVerticesUnsuccessful, |finalCompositeEdges|);
      ghost var logAtNote := log;
      if note.Some? {
        log := log + [ShowNotification(note.value)];
      }
      assert log == logAtNote + NotificationCalls(note);
      log := log + [EndState(UndoStateName)];
    }
  }
}
