# Fillet 2D Corners: selection, candidate and tally logic

This project models the core of the FormIt "Fillet Corners" plugin
(`v21_0/FilletCorner.js`). The plugin puts a tangent arc at each 2D corner of
the user's selection. The model covers the parts that choose and count:

- **Selection resolution** (`getSelectionInfo`). Each selected object is named
  by the last step of its id path. The vertices and edges each object is made
  of are gathered, flattened and de-duplicated into the *associated* vertices
  and edges.
- **Composite edges and candidacy** (`getCompositeEdges`,
  `getIsBlendCandidate`). A vertex's composite edges are its attached edges
  that are also associated edges, in attached order. A vertex is a fillet
  candidate when it has exactly 0 or exactly 2 of them.
- **The `execute` driver.** With an empty selection it shows an informational
  message and stops. Otherwise, inside one undo step, it:
  - builds the final vertices and their composite edges as two parallel lists;
  - blends each final vertex;
  - deletes the succeeded vertices when cleanup is on;
  - shows the notification the counters call for.
- **The skeleton of `blendVertex`.** With no composite edges it falls back to
  all attached edges. It takes the outer end of each edge and gives up
  silently with fewer than two outer vertices or a NaN centre. Otherwise it
  creates the arc and records the vertex as succeeded.
- **`deleteVertices`**, which asks the host to delete each succeeded vertex in
  order.

Modules:

- `Host` (host.dfy): the host document as a read-only snapshot of total
  functions. These are the typed object query, the attached-edge query, an
  edge's two vertices in host order, vertex positions and the curve faceting
  setting. It also holds the calls the plugin makes to change the document or
  the screen (`HostCall`).
- `Sequences` (sequences.dfy): order-preserving filter, flatten, duplicate
  removal and the subsequence relation.
- `Selection` (selection.dfy): associated objects, composite edges,
  candidacy and the final-vertex list, as functions.
- `Blending` (blending.dfy): the edges a corner uses, outer vertices, the
  outcome of one blend and the results of a sequence of blends.
- `Messages` (messages.dfy): the end-of-run notification and the decimal
  spelling of counts in it.
- `Plugin` (plugin.dfy): class `FilletCorners`. Its fields are the script's
  module-level variables, and its methods are the script's functions. The
  host's write calls are appended to the field `log`.

The invariant `Valid()` holds across every method: the success counter equals
the number of succeeded vertex ids, and the failure counter is zero.

Three loops were moved into their own methods, unchanged. These are the
candidate loop of `execute` (`CollectCandidates`), its blending loop
(`BlendAll`), and the outer-vertex loop of `blendVertex`
(`CollectOuterVertices`). `CollectCandidates` and `CollectOuterVertices` only
read the state.

Behaviour kept as the code has it:

- `nModifiedVerticesUnsuccessful` is declared and reset but never incremented.
  So the partial-success notification can never be shown. And a run whose
  candidates all fail shows no notification at all (`FailuresNeverReported`).
- `blendVertex` uses the first two outer vertices even when a vertex has more
  edges. In a run this happens only in the fallback: a directly selected vertex
  with three or more attached edges is blended from its first two
  (`FallbackUsesFirstTwoAttached`).
- A directly selected vertex whose attached edges are all unselected is a
  candidate however many edges it has (`UnselectedEdgesMakeCandidate`).

The plugin's messages suggest a different design from the code. The model
follows the code:

- The failure message suggests that a non-candidate vertex, or a vertex the
  solver fails on, counts as unsuccessful. The code only logs the former and
  returns silently on the latter. Neither touches the failure counter.
- The failure message asks for vertices "with at least 2 attached edges". A
  directly selected vertex with two or more attached edges is blended from
  the first two.

`flattenArray` and `eliminateDuplicatesInArray` are not defined in
`FilletCorner.js`. The model assumes that they concatenate one level of
nesting and that they remove repeats keeping each first occurrence
(`Sequences.Flatten`, `Sequences.Dedup`).

## Model

| member | source | states |
|---|---|---|
| `Sequences.FlattenMembers` | v21_0/FilletCorner.js:99-103 | an id is in the flattened list exactly when it is in one of the per-object lists |
| `Sequences.DedupProperties` | v21_0/FilletCorner.js:100-104 | duplicate removal leaves no id twice, keeps exactly the same ids, and keeps them in their original order (a subsequence); each id stays at its first occurrence, since the result for any prefix of the input is a prefix of the whole result |
| `Selection.AssociatedSpec` | v21_0/FilletCorner.js:80-105 | an object is associated exactly when the object named by the last id-path step of some selected entry is made of it; the associated list has no repeats |
| `Selection.CompositeEdgesSpec` | v21_0/FilletCorner.js:119-140 | the composite edges are exactly the attached edges that are associated edges, in attached order (a subsequence of the attached edges) |
| `Selection.CandidateBySets` | v21_0/FilletCorner.js:144-158 | for a vertex whose attached edges are listed without repeats, it is a candidate exactly when none or exactly two of its attached edges are associated edges (one, three or more are rejected) |
| `Selection.FinalVerticesSpec` | v21_0/FilletCorner.js:196-215 | the final vertices are exactly the candidate associated vertices, in associated order, with no repeats when the associated vertices have none |
| `Blending.OuterVertexIsFarEnd` | v21_0/FilletCorner.js:284-298 | the outer vertex of an edge at corner v is one of its ends and differs from v unless the edge is a loop |
| `Blending.CandidateEdgesUsed` | v21_0/FilletCorner.js:270-281 | for a candidate vertex: with no composite edges all attached edges are used and none of them is associated; otherwise exactly two edges are used, both attached and associated |
| `Blending.UnselectedEdgesMakeCandidate` | v21_0/FilletCorner.js:150-153 | a vertex none of whose attached edges is associated is a candidate whatever its edge count, and its blend uses all its attached edges |
| `Blending.BlendUsesFirstTwoEdges` | v21_0/FilletCorner.js:302-309 | once there are two edges, further edges never change a blend's outcome: only the first two outer vertices are used |
| `Blending.FallbackUsesFirstTwoAttached` | v21_0/FilletCorner.js:274-277 | a vertex with no composite edges and two or more attached edges is blended exactly as if only its first two attached edges existed |
| `Blending.SucceededSpec` | v21_0/FilletCorner.js:217-221 | the succeeded vertices are a subsequence of the blended ones, and there is exactly one arc-creation call per succeeded vertex |
| `Blending.SucceededMembers` | v21_0/FilletCorner.js:217-221 | a blended vertex is among the succeeded ones exactly when its blend has an arc outcome |
| `Blending.ArcCallsFacets` | v21_0/FilletCorner.js:217-221 | every call the blends make creates an arc with the document's curve faceting setting |
| `Blending.Deletions` | v21_0/FilletCorner.js:458-461 | one deletion call per id, the i-th deleting the i-th id |
| `Messages.NatToString` | v21_0/FilletCorner.js:234 | a count is spelled with one or more decimal digits and no leading zero |
| `Messages.DecimalRoundTrip` | v21_0/FilletCorner.js:234 | reading the digits back gives the count that was spelled |
| `Messages.NotificationChoice` | v21_0/FilletCorner.js:231-248 | success exactly when some succeeded and none failed; information (partial) exactly when both; error exactly when none succeeded and there were no candidates or some failures; otherwise nothing |
| `Messages.SuccessMessageCount` | v21_0/FilletCorner.js:232-236 | whatever the candidate count, the success message reads back the number of succeeded vertices and ends in " vertex." exactly when that number is one |
| `Messages.FailuresNeverReported` | v21_0/FilletCorner.js:232-248 | with the failure counter at zero, as it always is, no partial-success notification is chosen, and none at all exactly when there were candidates and none succeeded |
| `Plugin.FilletCorners.constructor` | v21_0/FilletCorner.js:55-66 | the plugin reads the given document; at load the selection arrays and the tally are empty, the counters are zero, and nothing has been asked of the host |
| `Plugin.FilletCorners.GetSelectionInfo` | v21_0/FilletCorner.js:69-109 | stores the selection and sets the associated vertices and edges to the de-duplicated flattening of each selected object's vertices and edges; returns the selection |
| `Plugin.FilletCorners.GetCompositeEdges` | v21_0/FilletCorner.js:113-141 | the push loop returns exactly the order-preserving filter of the attached edges by membership in the associated edges |
| `Plugin.FilletCorners.GetIsBlendCandidate` | v21_0/FilletCorner.js:144-158 | returns the candidacy predicate `Selection.IsBlendCandidate`: true exactly when the vertex's composite edge count is 2 or 0 |
| `Plugin.FilletCorners.CollectCandidates` | v21_0/FilletCorner.js:195-215 | the final vertices are the candidate filter of the associated vertices; the parallel list has the same length, and entry i holds the composite edges of final vertex i |
| `Plugin.FilletCorners.CollectOuterVertices` | v21_0/FilletCorner.js:283-298 | one outer vertex per edge, in edge order: the second end when the first is the corner, else the first |
| `Plugin.FilletCorners.BlendVertex` | v21_0/FilletCorner.js:253-305 | tally and log unchanged with fewer than two outer vertices or a NaN centre; otherwise exactly one arc-creation call, the success count up by exactly 1 and the vertex appended; the invariant is kept |
| `Plugin.FilletCorners.BlendAll` | v21_0/FilletCorner.js:217-221 | blending the final vertices in order appends exactly the succeeded vertices to the tally and the arc calls to the log |
| `Plugin.FilletCorners.DeleteVertices` | v21_0/FilletCorner.js:456-462 | asks the host to delete exactly the succeeded vertex ids, in order, and changes nothing else |
| `Plugin.FilletCorners.Execute` | v21_0/FilletCorner.js:161-251 | empty selection: only the no-selection message, with no undo state, tally reset or document change; otherwise: begin state, the arc calls, deletion of exactly the succeeded vertices when cleanup is on, the chosen notification, end state; the tally holds exactly the succeeded final vertices |

## Left out

- UI construction and input parsing (`initializeUI`, `updateUI`, reading the radius and the cleanup checkbox): the radius and the cleanup flag are parameters of `Execute`.
- The arc geometry of `blendVertex` (lines 337-431) and the NaN test at line 434: floating-point square roots, `acos`, `tan`, `sin` and NaN propagation. These are the `ArcSolver` parameter, which returns `None` for a NaN centre. A centre that is infinite but not NaN is not represented separately.
- The editing history id (`GetEditingHistoryID`): the document snapshot stands for the current editing history.
- Changes to the topology during a run: the model reads one snapshot for the whole run. In the host, an arc created for one vertex may alter edges that are read while later vertices are blended.
- The host's behaviour behind its calls (creating the arc, deleting objects, undo states, notifications): these are entries in `log`, and their effects are not modelled.
- Every selected object is taken to have a non-empty id path (`Selection.WellFormedSelection`, a precondition of `GetSelectionInfo` and `Execute`). With an empty path the script reads index -1 at lines 82-86 and throws a TypeError. The model assumes the host never hands over such an entry, so this error path is not modelled.
- An edge's two vertices (`edgeVertices`) and the vertex query on an edge (`objectsOfType(e, VertexType)`) are separate fields of the document. The model does not require them to agree, though in the host they are the same query.
- An edge is taken to report exactly two vertices. The script indexes the host's vertex list for an edge at 0 and 1 and would read `undefined` from a shorter list.
- The notification timeout argument (always 0) and console logging.
- async/await: every awaited host call is an ordinary call here.
