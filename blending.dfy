/**
 * The topology and tally skeleton of blendVertex: which edges a corner uses,
 * the outer vertex of each, when an arc is created, and what a sequence of
 * blends leaves behind (vertices that succeeded, arcs requested, deletions).
 */
module Blending {
  import opened Wrappers
  import opened Sequences
  import opened Host
  import opened Selection

  /** The composite edges, or every attached edge when there are none (a directly selected vertex). */
  function EdgesToUse(doc: Document, compositeEdges: seq<ObjectId>, v: ObjectId): seq<ObjectId> {
    if |compositeEdges| == 0 then doc.attachedEdges(v) else compositeEdges
  }

  /** The end of an edge away from corner v: the second vertex if the first is v, else the first. */
  function OuterVertex(ends: (ObjectId, ObjectId), v: ObjectId): ObjectId {
    if ends.0 == v then ends.1 else ends.0
  }

  /** The outer vertex of each edge, in edge order. */
  function OuterVertices(doc: Document, edges: seq<ObjectId>, v: ObjectId): seq<ObjectId> {
    seq(|edges|, i requires 0 <= i < |edges| => OuterVertex(doc.edgeVertices(edges[i]), v))
  }

  /**
   * The arc blendVertex creates at v, if any: none with fewer than two outer
   * vertices, otherwise whatever the solver gives for the corner and the
   * first two outer vertices.
   */
  function BlendOutcome(doc: Document, compositeEdges: seq<ObjectId>, v: ObjectId, radius: real, solver: ArcSolver): Option<Arc> {
    var outer := OuterVertices(doc, EdgesToUse(doc, compositeEdges, v), v);
    if |outer| < 2 then None
    else solver(doc.position(v), doc.position(outer[0]), doc.position(outer[1]), radius)
  }

  /**
   * For an edge that has v as one of its ends, the outer vertex is one of
   * the edge's ends, and it is not v unless the edge is a loop.
   */
  lemma OuterVertexIsFarEnd(ends: (ObjectId, ObjectId), v: ObjectId)
    requires v == ends.0 || v == ends.1
    ensures OuterVertex(ends, v) == ends.0 || OuterVertex(ends, v) == ends.1
    ensures ends.0 != ends.1 ==> OuterVertex(ends, v) != v
  {
  }

  /**
   * For a candidate vertex: with no composite edges, blendVertex uses all
   * attached edges, none of which is associated; otherwise it uses exactly
   * two edges, both attached and associated.
   */
  lemma CandidateEdgesUsed(doc: Document, associatedEdges: seq<ObjectId>, v: ObjectId)
    requires IsBlendCandidate(doc, associatedEdges, v)
    ensures var composite := CompositeEdges(doc.attachedEdges(v), associatedEdges);
            var used := EdgesToUse(doc, composite, v);
            && (composite == [] ==>
                  used == doc.attachedEdges(v) && forall e :: e in used ==> e !in associatedEdges)
            && (composite != [] ==>
                  |used| == 2 && forall e :: e in used ==> e in doc.attachedEdges(v) && e in associatedEdges)
  {
    CompositeEdgesSpec(doc.attachedEdges(v), associatedEdges);
  }

  /**
   * A vertex none of whose attached edges is an associated edge is a
   * candidate however many edges it has, and blendVertex then works from all
   * of its attached edges.
   */
  lemma UnselectedEdgesMakeCandidate(doc: Document, associatedEdges: seq<ObjectId>, v: ObjectId)
    requires forall e :: e in doc.attachedEdges(v) ==> e !in associatedEdges
    ensures IsBlendCandidate(doc, associatedEdges, v)
    ensures EdgesToUse(doc, CompositeEdges(doc.attachedEdges(v), associatedEdges), v) == doc.attachedEdges(v)
  {
    var keep := InList(associatedEdges);
    forall e | e in doc.attachedEdges(v)
      ensures !keep(e)
    {
      assert e !in associatedEdges;
    }
    FilterNone(doc.attachedEdges(v), keep);
  }

  /**
   * Only the first two edges matter: edges after the second never change
   * the outcome.
   */
  lemma BlendUsesFirstTwoEdges(doc: Document, compositeEdges: seq<ObjectId>, extra: seq<ObjectId>,
                               v: ObjectId, radius: real, solver: ArcSolver)
    requires |compositeEdges| >= 2
    ensures BlendOutcome(doc, compositeEdges + extra, v, radius, solver) ==
            BlendOutcome(doc, compositeEdges, v, radius, solver)
  {
    var all := compositeEdges + extra;
    assert all[0] == compositeEdges[0] && all[1] == compositeEdges[1];
  }

  /**
   * A vertex with no composite edges is blended from its first two attached
   * edges alone: any further attached edges are ignored.
   */
  lemma FallbackUsesFirstTwoAttached(doc: Document, v: ObjectId, radius: real, solver: ArcSolver)
    requires |doc.attachedEdges(v)| >= 2
    ensures BlendOutcome(doc, [], v, radius, solver) ==
            BlendOutcome(doc, doc.attachedEdges(v)[..2], v, radius, solver)
  {
    var attached := doc.attachedEdges(v);
    assert attached == attached[..2] + attached[2..];
    BlendUsesFirstTwoEdges(doc, attached[..2], attached[2..], v, radius, solver);
  }

  /** The vertices whose blend created an arc, in blending order. */
  function Succeeded(doc: Document, vertices: seq<ObjectId>, composites: seq<seq<ObjectId>>,
                     radius: real, solver: ArcSolver): seq<ObjectId>
    requires |vertices| == |composites|
    decreases |vertices|
  {
    if vertices == [] then []
    else
      var n := |vertices| - 1;
      Succeeded(doc, vertices[..n], composites[..n], radius, solver) +
      (if BlendOutcome(doc, composites[n], vertices[n], radius, solver).Some? then [vertices[n]] else [])
  }

  /** The arc-creation calls the blends make, in blending order. */
  function ArcCalls(doc: Document, vertices: seq<ObjectId>, composites: seq<seq<ObjectId>>,
                    radius: real, solver: ArcSolver): seq<HostCall>
    requires |vertices| == |composites|
    decreases |vertices|
  {
    if vertices == [] then []
    else
      var n := |vertices| - 1;
      ArcCalls(doc, vertices[..n], composites[..n], radius, solver) +
      (match BlendOutcome(doc, composites[n], vertices[n], radius, solver)
       case Some(arc) => [CreateArc(arc, doc.curveFacets)]
       case None => [])
  }

  /**
   * The vertices that succeeded are a subsequence of those blended, and there
   * is one arc-creation call per succeeded vertex.
   */
  lemma {:induction false} SucceededSpec(doc: Document, vertices: seq<ObjectId>, composites: seq<seq<ObjectId>>,
                                         radius: real, solver: ArcSolver)
    requires |vertices| == |composites|
    ensures IsSubsequence(Succeeded(doc, vertices, composites, radius, solver), vertices)
    ensures |ArcCalls(doc, vertices, composites, radius, solver)| == |Succeeded(doc, vertices, composites, radius, solver)|
  {
    if vertices != [] {
      var n := |vertices| - 1;
      SucceededSpec(doc, vertices[..n], composites[..n], radius, solver);
      var r := Succeeded(doc, vertices, composites, radius, solver);
      var r' := Succeeded(doc, vertices[..n], composites[..n], radius, solver);
      if BlendOutcome(doc, composites[n], vertices[n], radius, solver).Some? {
        assert r == r' + [vertices[n]];
        assert r[..|r| - 1] == r' && r[|r| - 1] == vertices[n];
      } else {
        assert r == r';
      }
    }
  }

  /**
   * A blended vertex succeeds exactly when its blend has an arc outcome: each
   * succeeded vertex is one blended with an outcome, and each blended vertex
   * with an outcome is among those that succeeded.
   */
  lemma {:induction false} SucceededMembers(doc: Document, vertices: seq<ObjectId>, composites: seq<seq<ObjectId>>,
                                            radius: real, solver: ArcSolver)
    requires |vertices| == |composites|
    ensures forall v :: v in Succeeded(doc, vertices, composites, radius, solver) ==>
              exists i :: 0 <= i < |vertices| && vertices[i] == v &&
                          BlendOutcome(doc, composites[i], v, radius, solver).Some?
    ensures forall i :: 0 <= i < |vertices| && BlendOutcome(doc, composites[i], vertices[i], radius, solver).Some? ==>
              vertices[i] in Succeeded(doc, vertices, composites, radius, solver)
  {
    if vertices != [] {
      var n := |vertices| - 1;
      SucceededMembers(doc, vertices[..n], composites[..n], radius, solver);
      var r := Succeeded(doc, vertices, composites, radius, solver);
      var r' := Succeeded(doc, vertices[..n], composites[..n], radius, solver);
      assert forall v :: v in r' ==> v in r;
      forall i | 0 <= i < |vertices| && BlendOutcome(doc, composites[i], vertices[i], radius, solver).Some?
        ensures vertices[i] in r
      {
        if i < n {
          assert vertices[..n][i] == vertices[i] && composites[..n][i] == composites[i];
        }
      }
      forall v | v in r
        ensures exists i :: 0 <= i < |vertices| && vertices[i] == v &&
                            BlendOutcome(doc, composites[i], v, radius, solver).Some?
      {
        if v in r' {
          var i :| 0 <= i < n && vertices[..n][i] == v &&
                   BlendOutcome(doc, composites[..n][i], v, radius, solver).Some?;
          assert vertices[i] == v && composites[i] == composites[..n][i];
        } else {
          assert vertices[n] == v;
        }
      }
    }
  }

  /** Every call the blends make creates an arc faceted by the document's curve setting. */
  lemma {:induction false} ArcCallsFacets(doc: Document, vertices: seq<ObjectId>, composites: seq<seq<ObjectId>>,
                                          radius: real, solver: ArcSolver)
    requires |vertices| == |composites|
    ensures forall c :: c in ArcCalls(doc, vertices, composites, radius, solver) ==>
              c.CreateArc? && c.facets == doc.curveFacets
  {
    if vertices != [] {
      var n := |vertices| - 1;
      ArcCallsFacets(doc, vertices[..n], composites[..n], radius, solver);
    }
  }

  /** The deletion calls for the given vertices, in order. */
  function Deletions(ids: seq<ObjectId>): (r: seq<HostCall>)
    ensures |r| == |ids|
    ensures forall i :: 0 <= i < |ids| ==> r[i] == DeleteObject(ids[i])
    decreases |ids|
  {
    if ids == [] then [] else Deletions(ids[..|ids| - 1]) + [DeleteObject(ids[|ids| - 1])]
  }
}
