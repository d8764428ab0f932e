/** Cutting a network description at a layer. */
module GraphCut {
  import opened Wrappers

  type LayerId = string

  datatype Edge = Edge(source: LayerId, sourcePort: string, target: LayerId, targetPort: string)

  datatype Port = Port(id: string, names: string, dims: seq<string>)

  datatype Layer = Layer(id: LayerId, name: string, kind: string, inputs: seq<Port>, outputs: seq<Port>)

  datatype CutError =
    | NoSuchLayer
    | NoOutput
    | NoOutputPort
    | NoResultLayer
    | NoEdgeFromLayer
    | NoResultInput
    | NoResultInputPort

  // ---- paths ----

  /** A nonempty chain of edges, given by their positions in the list, from one layer to another. */
  predicate IsPath(edges: seq<Edge>, path: seq<nat>, x: LayerId, y: LayerId) {
    && path != [] && (forall k | 0 <= k < |path| :: path[k] < |edges|)
    && edges[path[0]].source == x && edges[path[|path| - 1]].target == y
    && forall k | 0 < k < |path| :: edges[path[k - 1]].target == edges[path[k]].source
  }

  /** All its edges lie in a stretch of the list, in the order of the list. */
  predicate RunsThrough(path: seq<nat>, from: nat, to: nat) {
    && (forall k | 0 <= k < |path| :: from <= path[k] < to)
    && forall k | 0 < k < |path| :: path[k - 1] < path[k]
  }

  ghost predicate Leads(edges: seq<Edge>, x: LayerId, y: LayerId) {
    x == y || exists path :: IsPath(edges, path, x, y)
  }

  ghost predicate LeadsThrough(edges: seq<Edge>, from: nat, to: nat, x: LayerId, y: LayerId) {
    x == y || exists path :: IsPath(edges, path, x, y) && RunsThrough(path, from, to)
  }

  /** Every edge into a layer is listed before every edge out of it. */
  predicate Topological(edges: seq<Edge>) {
    forall i, j | 0 <= i < |edges| && 0 <= j < |edges| && edges[i].target == edges[j].source :: i < j
  }

  // ---- the sweep ----

  /** The layers known to lead to the cut once the sweep has come down from `cut` to `i`. */
  function Legitimate(edges: seq<Edge>, i: nat, cut: nat, layer: LayerId): set<LayerId>
    requires i <= cut <= |edges|
    decreases cut - i
  {
    if i == cut then {layer} else
    var later := Legitimate(edges, i + 1, cut, layer);
    if edges[i].target in later then later + {edges[i].source} else later
  }

  /** The edges the sweep has kept on its way. */
  function Kept(edges: seq<Edge>, i: nat, cut: nat, layer: LayerId): seq<Edge>
    requires i <= cut <= |edges|
    decreases cut - i
  {
    if i == cut then [] else
    (if edges[i].target in Legitimate(edges, i + 1, cut, layer) then [edges[i]] else [])
    + Kept(edges, i + 1, cut, layer)
  }

  lemma PrependEdge(edges: seq<Edge>, i: nat, path: seq<nat>, to: nat, y: LayerId)
    requires i < to <= |edges| && IsPath(edges, path, edges[i].target, y) && RunsThrough(path, i + 1, to)
    ensures IsPath(edges, [i] + path, edges[i].source, y) && RunsThrough([i] + path, i, to)
  {
    var longer := [i] + path;
    assert longer[|longer| - 1] == path[|path| - 1];
    assert forall k | 0 < k < |longer| :: longer[k] == path[k - 1];
  }

  lemma {:induction false} LegitimateHavePaths(edges: seq<Edge>, i: nat, cut: nat, layer: LayerId, x: LayerId)
    requires i <= cut <= |edges| && x in Legitimate(edges, i, cut, layer)
    ensures LeadsThrough(edges, i, cut, x, layer)
    decreases cut - i
  {
    if i < cut {
      if x in Legitimate(edges, i + 1, cut, layer) {
        LegitimateHavePaths(edges, i + 1, cut, layer, x);
        if x != layer {
          var path :| IsPath(edges, path, x, layer) && RunsThrough(path, i + 1, cut);
          assert RunsThrough(path, i, cut);
        }
      } else {
        LegitimateHavePaths(edges, i + 1, cut, layer, edges[i].target);
        if edges[i].target == layer {
          assert IsPath(edges, [i], x, layer) && RunsThrough([i], i, cut);
        } else {
          var path :| IsPath(edges, path, edges[i].target, layer) && RunsThrough(path, i + 1, cut);
          PrependEdge(edges, i, path, cut, layer);
        }
      }
    }
  }

  lemma {:induction false} PathsAreLegitimate(
      edges: seq<Edge>, i: nat, cut: nat, layer: LayerId, path: seq<nat>, x: LayerId)
    requires i <= cut <= |edges| && IsPath(edges, path, x, layer) && RunsThrough(path, i, cut)
    ensures x in Legitimate(edges, i, cut, layer)
    decreases cut - i
  {
    if path[0] != i {
      forall k | 0 <= k < |path| ensures i < path[k] {
        FirstIsLeast(path, k);
      }
      assert RunsThrough(path, i + 1, cut);
      PathsAreLegitimate(edges, i + 1, cut, layer, path, x);
    } else if |path| == 1 {
      LayerIsLegitimate(edges, i + 1, cut, layer);
    } else {
      var rest := path[1..];
      forall k | 0 <= k < |rest| ensures i < rest[k] {
        FirstIsLeast(path, k + 1);
      }
      assert RunsThrough(rest, i + 1, cut);
      assert IsPath(edges, rest, edges[i].target, layer);
      PathsAreLegitimate(edges, i + 1, cut, layer, rest, edges[i].target);
    }
  }

  lemma {:induction false} FirstIsLeast(path: seq<nat>, k: nat)
    requires k < |path| && forall j | 0 < j < |path| :: path[j - 1] < path[j]
    ensures path[0] + k <= path[k]
  {
    if k > 0 {
      FirstIsLeast(path, k - 1);
    }
  }

  lemma {:induction false} LayerIsLegitimate(edges: seq<Edge>, i: nat, cut: nat, layer: LayerId)
    requires i <= cut <= |edges|
    ensures layer in Legitimate(edges, i, cut, layer)
    decreases cut - i
  {
    if i < cut {
      LayerIsLegitimate(edges, i + 1, cut, layer);
    }
  }

  /** However the edges are listed: the sweep finds exactly the layers from which edges met in the order of the
      list, all before the cut, lead to the cut layer. */
  lemma SweepFindsOrderedPaths(edges: seq<Edge>, i: nat, cut: nat, layer: LayerId, x: LayerId)
    requires i <= cut <= |edges|
    ensures x in Legitimate(edges, i, cut, layer) <==> LeadsThrough(edges, i, cut, x, layer)
  {
    if x in Legitimate(edges, i, cut, layer) {
      LegitimateHavePaths(edges, i, cut, layer, x);
    }
    if LeadsThrough(edges, i, cut, x, layer) {
      if x == layer {
        LayerIsLegitimate(edges, i, cut, layer);
      } else {
        var path :| IsPath(edges, path, x, layer) && RunsThrough(path, i, cut);
        PathsAreLegitimate(edges, i, cut, layer, path, x);
      }
    }
  }

  // ---- edges listed topologically ----

  /** Then every path runs in list order and ends before the first edge out of the layer it leads to. */
  lemma TopologicalPathsRunForward(edges: seq<Edge>, path: seq<nat>, x: LayerId, layer: LayerId, cut: nat)
    requires Topological(edges) && IsPath(edges, path, x, layer) && cut < |edges| && edges[cut].source == layer
    ensures RunsThrough(path, path[0], cut)
  {
    forall k | 0 <= k < |path| ensures path[0] <= path[k] < cut {
      FirstIsLeast(path, k);
      LastIsGreatest(path, k);
    }
  }

  lemma {:induction false} LastIsGreatest(path: seq<nat>, k: nat)
    requires k < |path| && forall j | 0 < j < |path| :: path[j - 1] < path[j]
    ensures path[k] <= path[|path| - 1]
    decreases |path| - k
  {
    if k < |path| - 1 {
      LastIsGreatest(path, k + 1);
    }
  }

  lemma LeadsForward(edges: seq<Edge>, cut: nat, layer: LayerId, x: LayerId)
    requires Topological(edges) && cut < |edges| && edges[cut].source == layer
    ensures Leads(edges, x, layer) <==> LeadsThrough(edges, 0, cut, x, layer)
  {
    if Leads(edges, x, layer) && x != layer {
      var path :| IsPath(edges, path, x, layer);
      TopologicalPathsRunForward(edges, path, x, layer, cut);
      assert RunsThrough(path, 0, cut);
    }
  }

  /** The sweep is the reachability closure: the cut layer with all its ancestors in the whole network. */
  lemma SweepIsTheClosure(edges: seq<Edge>, cut: nat, layer: LayerId, x: LayerId)
    requires Topological(edges) && cut < |edges| && edges[cut].source == layer
    ensures x in Legitimate(edges, 0, cut, layer) <==> Leads(edges, x, layer)
  {
    SweepFindsOrderedPaths(edges, 0, cut, layer, x);
    LeadsForward(edges, cut, layer, x);
  }

  /** Every layer with a path to the cut has one in list order that ends before the cut. */
  ghost predicate OrderedToTheCut(edges: seq<Edge>, cut: nat, layer: LayerId) {
    forall x | Leads(edges, x, layer) :: LeadsThrough(edges, 0, cut, x, layer)
  }

  /** Listed in whatever order, the edges let the sweep find the closure exactly when every ancestor has such a path. */
  lemma ClosureExactlyWhenOrdered(edges: seq<Edge>, cut: nat, layer: LayerId)
    requires cut < |edges| && edges[cut].source == layer
    ensures (forall x :: x in Legitimate(edges, 0, cut, layer) <==> Leads(edges, x, layer)) <==>
            OrderedToTheCut(edges, cut, layer)
  {
    forall x ensures x in Legitimate(edges, 0, cut, layer) <==> LeadsThrough(edges, 0, cut, x, layer) {
      SweepFindsOrderedPaths(edges, 0, cut, layer, x);
    }
    forall x | LeadsThrough(edges, 0, cut, x, layer) ensures Leads(edges, x, layer) {
    }
  }

  /** The edges of the list, from position `i` on, that lie on some path into a layer. */
  ghost function EdgesInto(edges: seq<Edge>, i: nat, layer: LayerId): seq<Edge>
    requires i <= |edges|
    decreases |edges| - i
  {
    if i == |edges| then [] else
    (if Leads(edges, edges[i].target, layer) then [edges[i]] else []) + EdgesInto(edges, i + 1, layer)
  }

  lemma EdgeKeptWhenItLeads(edges: seq<Edge>, i: nat, cut: nat, layer: LayerId)
    requires Topological(edges) && i < cut < |edges| && edges[cut].source == layer
    ensures edges[i].target in Legitimate(edges, i + 1, cut, layer) <==> Leads(edges, edges[i].target, layer)
  {
    var x := edges[i].target;
    SweepFindsOrderedPaths(edges, i + 1, cut, layer, x);
    if Leads(edges, x, layer) && x != layer {
      var path :| IsPath(edges, path, x, layer);
      TopologicalPathsRunForward(edges, path, x, layer, cut);
      assert RunsThrough(path, i + 1, cut);
    }
  }

  lemma {:induction false} NoEdgeFromTheCutLeads(edges: seq<Edge>, i: nat, cut: nat, layer: LayerId)
    requires Topological(edges) && cut <= i <= |edges| && cut < |edges| && edges[cut].source == layer
    ensures EdgesInto(edges, i, layer) == []
    decreases |edges| - i
  {
    if i < |edges| {
      var x := edges[i].target;
      if Leads(edges, x, layer) && x != layer {
        var path :| IsPath(edges, path, x, layer);
        TopologicalPathsRunForward(edges, path, x, layer, cut);
        assert false;
      }
      NoEdgeFromTheCutLeads(edges, i + 1, cut, layer);
    }
  }

  /** The sweep keeps exactly the edges on some path into the layer, in their order. */
  lemma {:induction false} SweepKeepsEdgesOnPaths(edges: seq<Edge>, i: nat, cut: nat, layer: LayerId)
    requires Topological(edges) && i <= cut < |edges| && edges[cut].source == layer
    ensures Kept(edges, i, cut, layer) == EdgesInto(edges, i, layer)
    decreases cut - i
  {
    if i == cut {
      NoEdgeFromTheCutLeads(edges, i, cut, layer);
    } else {
      EdgeKeptWhenItLeads(edges, i, cut, layer);
      SweepKeepsEdgesOnPaths(edges, i + 1, cut, layer);
    }
  }

  /** Listed otherwise, an ancestor can be lost: here `a` feeds `b`, but after `b` has fed the cut layer. */
  lemma UnorderedEdgesLoseAncestors()
    ensures var edges := [Edge("b", "0", "c", "0"), Edge("a", "0", "b", "0"), Edge("c", "0", "r", "0")];
            edges[2].source == "c" && Leads(edges, "a", "c") && "a" !in Legitimate(edges, 0, 2, "c")
  {
    var edges := [Edge("b", "0", "c", "0"), Edge("a", "0", "b", "0"), Edge("c", "0", "r", "0")];
    assert IsPath(edges, [1, 0], "a", "c");
    assert Legitimate(edges, 2, 2, "c") == {"c"};
    assert "b"[0] != "c"[0] && "a"[0] != "c"[0] && "a"[0] != "b"[0];
    assert Legitimate(edges, 1, 2, "c") == {"c"};
    assert Legitimate(edges, 0, 2, "c") == {"c", "b"};
  }

  // ---- what is left is a network ----

  /** However the edges are listed, no edge that is kept has an end outside what is kept. */
  lemma {:induction false} KeptEdgesStayInside(edges: seq<Edge>, i: nat, cut: nat, layer: LayerId, e: Edge)
    requires i <= cut <= |edges| && e in Kept(edges, i, cut, layer)
    ensures e in edges && e.source in Legitimate(edges, i, cut, layer) && e.target in Legitimate(edges, i, cut, layer)
    decreases cut - i
  {
    if i < cut && e in Kept(edges, i + 1, cut, layer) {
      KeptEdgesStayInside(edges, i + 1, cut, layer, e);
    }
  }

  // ---- the program ----

  /** The position of the first element with a property, or the length of the list. */
  function First<T>(s: seq<T>, p: T -> bool): (k: nat)
    ensures k <= |s| && forall j | 0 <= j < k :: !p(s[j])
    ensures k < |s| ==> p(s[k])
  {
    if s == [] || p(s[0]) then 0 else
    var rest := First(s[1..], p);
    assert forall j | 0 < j < 1 + rest :: s[j] == s[1..][j - 1];
    1 + rest
  }

  function LeavesFrom(layer: LayerId): Edge -> bool { (e: Edge) => e.source == layer }

  function IsNamed(name: string): Layer -> bool { (l: Layer) => l.name == name }

  function IsResult(): Layer -> bool { (l: Layer) => l.kind == "Result" }

  function Redirected(edge: Edge, result: LayerId): Edge {
    edge.(target := result, targetPort := "0")
  }

  /** A port an element is taken to have only when it has dimensions. */
  predicate HasPort(ports: seq<Port>) {
    ports != [] && ports[0].dims != []
  }

  /** The result takes over the dimensions of the cut layer's output, and that output the name of the result. */
  function Relabelled(layers: seq<Layer>, k: nat, result: nat): (r: seq<Layer>)
    requires k < |layers| && result < |layers| && k != result
    requires HasPort(layers[k].outputs) && HasPort(layers[result].inputs)
    ensures |r| == |layers| && forall i | 0 <= i < |layers| :: r[i].id == layers[i].id && r[i].kind == layers[i].kind
    ensures |r[result].inputs| == |layers[result].inputs| && r[result].inputs[1..] == layers[result].inputs[1..]
    ensures r[result].inputs[0].dims == layers[k].outputs[0].dims
    ensures r[result].inputs[0].names == layers[result].inputs[0].names
    ensures r[result].inputs[0].id == layers[result].inputs[0].id
    ensures r[result].name == layers[result].name && r[result].outputs == layers[result].outputs
    ensures |r[k].outputs| == |layers[k].outputs| && r[k].outputs[1..] == layers[k].outputs[1..]
    ensures r[k].outputs[0].names == layers[result].name && r[k].outputs[0].dims == layers[k].outputs[0].dims
    ensures r[k].outputs[0].id == layers[k].outputs[0].id
    ensures r[k].name == layers[k].name && r[k].inputs == layers[k].inputs
    ensures forall i | 0 <= i < |layers| && i != k && i != result :: r[i] == layers[i]
  {
    var from, to := layers[k], layers[result];
    var shaped := to.(inputs := [to.inputs[0].(dims := from.outputs[0].dims)] + to.inputs[1..]);
    var named := from.(outputs := [from.outputs[0].(names := to.name)] + from.outputs[1..]);
    layers[result := shaped][k := named]
  }

  lemma RelabelledStaysClosed(layers: seq<Layer>, edges: seq<Edge>, k: nat, result: nat)
    requires k < |layers| && result < |layers| && k != result
    requires HasPort(layers[k].outputs) && HasPort(layers[result].inputs)
    requires Closed(layers, edges)
    ensures Closed(Relabelled(layers, k, result), edges)
  {
    forall id | IsLayer(layers, id) ensures IsLayer(Relabelled(layers, k, result), id) {
      var l :| l in layers && l.id == id;
      var i :| 0 <= i < |layers| && layers[i] == l;
      assert Relabelled(layers, k, result)[i].id == id;
    }
  }

  function WithIds(layers: seq<Layer>, ids: set<LayerId>): (r: seq<Layer>)
    ensures forall l :: l in r <==> l in layers && l.id in ids
  {
    if layers == [] then [] else
    var last := layers[|layers| - 1];
    assert layers == layers[..|layers| - 1] + [last];
    WithIds(layers[..|layers| - 1], ids) + if last.id in ids then [last] else []
  }

  /** The edges after a cut at position `cut`. */
  function CutEdges(edges: seq<Edge>, cut: nat, layer: LayerId, result: LayerId): seq<Edge>
    requires cut < |edges|
  {
    Kept(edges, 0, cut, layer) + [Redirected(edges[cut], result)]
  }

  /** The ends of every edge are layers of the network. */
  predicate Closed(layers: seq<Layer>, edges: seq<Edge>) {
    forall e | e in edges :: IsLayer(layers, e.source) && IsLayer(layers, e.target)
  }

  predicate IsLayer(layers: seq<Layer>, id: LayerId) {
    exists l :: l in layers && l.id == id
  }

  /** Cutting a network leaves a network. */
  lemma CutStaysClosed(layers: seq<Layer>, edges: seq<Edge>, cut: nat, layer: LayerId, result: Layer)
    requires Closed(layers, edges) && cut < |edges| && edges[cut].source == layer && result in layers
    ensures Closed(Remaining(layers, Legitimate(edges, 0, cut, layer) + {result.id}),
                   CutEdges(edges, cut, layer, result.id))
  {
    var ids := Legitimate(edges, 0, cut, layer) + {result.id};
    var left := Remaining(layers, ids);
    LayerIsLegitimate(edges, 0, cut, layer);
    forall e | e in CutEdges(edges, cut, layer, result.id)
      ensures IsLayer(left, e.source) && IsLayer(left, e.target)
    {
      if e in Kept(edges, 0, cut, layer) {
        KeptEdgesStayInside(edges, 0, cut, layer, e);
        LayerSurvives(layers, ids, e.source);
        LayerSurvives(layers, ids, e.target);
      } else {
        assert edges[cut] in edges;
        LayerSurvives(layers, ids, layer);
        assert result in left;
      }
    }
  }

  lemma LayerSurvives(layers: seq<Layer>, ids: set<LayerId>, id: LayerId)
    requires IsLayer(layers, id) && id in ids
    ensures IsLayer(Remaining(layers, ids), id)
  {
    var l :| l in layers && l.id == id;
    assert l in Remaining(layers, ids);
  }

  /** The network has come down to what leads to the layer, with the layer's first edge sent to the result. */
  ghost predicate IsCutAt(
      layers: seq<Layer>, edges: seq<Edge>, layers': seq<Layer>, edges': seq<Edge>, layer: LayerId, result: LayerId)
  {
    exists cut :: IsCutAtEdge(layers, edges, layers', edges', cut, layer, result)
  }

  /** No layer is dropped where the layer has the id of the result and nothing leads to it, since what is dropped is
      then asked to have an id between the two. */
  ghost predicate DropsNothing(edges: seq<Edge>, cut: nat, layer: LayerId, result: LayerId)
    requires cut <= |edges|
  {
    layer == result && forall x :: LeadsThrough(edges, 0, cut, x, layer) ==> x == layer
  }

  /** A layer is left if it leads to the cut or is the result. */
  ghost predicate Stays(edges: seq<Edge>, cut: nat, layer: LayerId, result: LayerId, id: LayerId)
    requires cut <= |edges|
  {
    DropsNothing(edges, cut, layer, result) || id == result || LeadsThrough(edges, 0, cut, id, layer)
  }

  /** The layers that are left. */
  function Remaining(layers: seq<Layer>, ids: set<LayerId>): seq<Layer> {
    if |ids| > 1 then WithIds(layers, ids) else layers
  }

  lemma OneOrMore(ids: set<LayerId>, id: LayerId)
    requires id in ids
    ensures |ids| > 1 <==> ids != {id}
  {
    assert ids == (ids - {id}) + {id};
  }

  ghost predicate IsCutAtEdge(
    layers: seq<Layer>, edges: seq<Edge>, layers': seq<Layer>, edges': seq<Edge>, cut: nat,
    layer: LayerId, result: LayerId)
  {
    && cut == First(edges, LeavesFrom(layer)) && cut < |edges|
    && (forall l :: l in layers' <==> l in layers && Stays(edges, cut, layer, result, l.id))
    && (Topological(edges) ==>
          && (forall l | l in layers :: LeadsThrough(edges, 0, cut, l.id, layer) <==> Leads(edges, l.id, layer))
          && edges' == EdgesInto(edges, 0, layer) + [Edge(layer, edges[cut].sourcePort, result, "0")])
  }

  lemma CutIsCut(layers: seq<Layer>, edges: seq<Edge>, cut: nat, layer: LayerId, result: LayerId)
    requires cut == First(edges, LeavesFrom(layer)) && cut < |edges|
    ensures IsCutAtEdge(layers, edges, Remaining(layers, Legitimate(edges, 0, cut, layer) + {result}),
                        CutEdges(edges, cut, layer, result), cut, layer, result)
  {
    LayersAreCut(layers, edges, cut, layer, result);
    if Topological(edges) {
      forall l | l in layers ensures LeadsThrough(edges, 0, cut, l.id, layer) <==> Leads(edges, l.id, layer) {
        SweepFindsOrderedPaths(edges, 0, cut, layer, l.id);
        SweepIsTheClosure(edges, cut, layer, l.id);
      }
      SweepKeepsEdgesOnPaths(edges, 0, cut, layer);
    }
  }

  lemma LayersAreCut(layers: seq<Layer>, edges: seq<Edge>, cut: nat, layer: LayerId, result: LayerId)
    requires cut < |edges| && edges[cut].source == layer
    ensures forall l :: l in Remaining(layers, Legitimate(edges, 0, cut, layer) + {result}) <==>
                        l in layers && Stays(edges, cut, layer, result, l.id)
  {
    var ids := Legitimate(edges, 0, cut, layer) + {result};
    forall x ensures x in Legitimate(edges, 0, cut, layer) <==> LeadsThrough(edges, 0, cut, x, layer) {
      SweepFindsOrderedPaths(edges, 0, cut, layer, x);
    }
    LayerIsLegitimate(edges, 0, cut, layer);
    OneOrMore(ids, layer);
    if ids == {layer} {
      assert result in ids;
    }
  }

  lemma LastOfPrefix<T>(s: seq<T>, i: nat, rest: seq<T>)
    requires i < |s|
    ensures var t := s[..i + 1] + rest;
            t[i] == s[i] && t == s[..i] + ([s[i]] + rest) && t[..i] + t[i + 1..] == s[..i] + rest
  {
  }

  /** Why no cut can be made at layer `k`, the first reason there is. */
  ghost function Obstacle(layers: seq<Layer>, edges: seq<Edge>, k: nat): CutError
    requires k < |layers|
  {
    if layers[k].outputs == [] then NoOutput
    else if layers[k].outputs[0].dims == [] then NoOutputPort
    else if !(exists l :: l in layers && l.kind == "Result") then NoResultLayer
    else if !(exists e :: e in edges && e.source == layers[k].id) then NoEdgeFromLayer
    else
      var l := layers[First(layers, IsResult())];
      if l.inputs == [] then NoResultInput else NoResultInputPort
  }

  class Network {
    var layers: seq<Layer>
    var edges: seq<Edge>

    constructor (layers: seq<Layer>, edges: seq<Edge>)
      ensures this.layers == layers && this.edges == edges
    {
      this.layers, this.edges := layers, edges;
    }

    /** Sends the first edge out of the layer to the result, drops all edges after it, and sweeps back over the
        ones before it. */
    method ChangeEdges(layer: LayerId, result: LayerId) returns (r: Result<set<LayerId>, CutError>)
      modifies this`edges
      ensures r.Ok? <==> exists e :: e in old(edges) && e.source == layer
      ensures r.Err? ==> edges == old(edges) && r.error == NoEdgeFromLayer
      ensures r.Ok? ==>
                var cut := First(old(edges), LeavesFrom(layer));
                && cut < |old(edges)| && r.value == Legitimate(old(edges), 0, cut, layer)
                && edges == CutEdges(old(edges), cut, layer, result)
    {
      var cut := First(edges, LeavesFrom(layer));
      if cut == |edges| {
        return Err(NoEdgeFromLayer);
      }
      assert edges[cut] in edges;
      ghost var before := edges;
      ghost var last := Redirected(edges[cut], result);
      edges := edges[cut := Redirected(edges[cut], result)];
      edges := edges[..cut + 1];
      assert edges == before[..cut] + [last];
      var legitimate := Sweep(before, cut, layer, last);
      return Ok(legitimate);
    }

    /** Goes up the list from the redirected edge, removing the edges of interrupted paths. */
    method Sweep(ghost before: seq<Edge>, cut: nat, layer: LayerId, ghost last: Edge) returns (legitimate: set<LayerId>)
      requires cut <= |before| && edges == before[..cut] + [last]
      modifies this`edges
      ensures legitimate == Legitimate(before, 0, cut, layer) && edges == Kept(before, 0, cut, layer) + [last]
    {
      legitimate := {layer};
      ghost var rest: seq<Edge> := [last];
      var i := cut;
      while i > 0
        invariant 0 <= i <= cut && legitimate == Legitimate(before, i, cut, layer)
        invariant rest == Kept(before, i, cut, layer) + [last] && edges == before[..i] + rest
      {
        i := i - 1;
        LastOfPrefix(before, i, rest);
        if edges[i].target in legitimate {
          legitimate := legitimate + {edges[i].source};
          rest := [before[i]] + rest;
        } else {
          edges := edges[..i] + edges[i + 1..];
        }
      }
    }

    /** What cutting at position `k` needs: dimensions to hand on and to put them in, and an edge to redirect. */
    ghost predicate CanCut(k: nat)
      reads this
    {
      && k < |layers| && HasPort(layers[k].outputs)
      && First(layers, IsResult()) < |layers| && HasPort(layers[First(layers, IsResult())].inputs)
      && exists e :: e in edges && e.source == layers[k].id
    }

    /** Cuts the network at the layer of this name, and drops every layer that no longer takes part.  Nothing is
        changed when it fails, except that a result without an input is noticed with the edges cut. */
    method DelLayers(name: string) returns (r: Outcome<CutError>)
      modifies this
      ensures r.Fail? ==> layers == old(layers)
      ensures r.Fail? && r.error != NoResultInput && r.error != NoResultInputPort ==> edges == old(edges)
      ensures r == Fail(NoSuchLayer) <==> !exists l :: l in old(layers) && l.name == name
      ensures r.Fail? && r.error != NoSuchLayer ==>
                var k := First(old(layers), IsNamed(name));
                k < |old(layers)| && r.error == Obstacle(old(layers), old(edges), k)
      ensures var k := First(old(layers), IsNamed(name));
              r.Pass? <==>
                k < |old(layers)| && (old(layers)[k].kind == "Result" || old(CanCut(First(layers, IsNamed(name)))))
      ensures r.Pass? && old(Closed(layers, edges)) ==> Closed(layers, edges)
      ensures var k, result := First(old(layers), IsNamed(name)), First(old(layers), IsResult());
              r.Pass? ==>
                if old(layers)[k].kind == "Result" then layers == old(layers) && edges == old(edges)
                else IsCutAt(Relabelled(old(layers), k, result), old(edges), layers, edges,
                             old(layers)[k].id, old(layers)[result].id)
    {
      var k := First(layers, IsNamed(name));
      if k == |layers| {
        return Fail(NoSuchLayer);
      }
      assert layers[k] in layers;
      if layers[k].kind == "Result" {
        return Pass;
      }
      r := CutAt(k);
    }

    method CutAt(k: nat) returns (r: Outcome<CutError>)
      requires k < |layers| && layers[k].kind != "Result"
      modifies this
      ensures r.Fail? ==> layers == old(layers) && r.error != NoSuchLayer
      ensures r.Fail? && r.error != NoResultInput && r.error != NoResultInputPort ==> edges == old(edges)
      ensures r.Pass? <==> old(CanCut(k))
      ensures r.Fail? ==> r.error == Obstacle(old(layers), old(edges), k)
      ensures r.Pass? && old(Closed(layers, edges)) ==> Closed(layers, edges)
      ensures var result := First(old(layers), IsResult());
              r.Pass? ==> IsCutAt(Relabelled(old(layers), k, result), old(edges), layers, edges,
                                  old(layers)[k].id, old(layers)[result].id)
    {
      if layers[k].outputs == [] {
        return Fail(NoOutput);
      }
      if layers[k].outputs[0].dims == [] {
        return Fail(NoOutputPort);
      }
      var result := First(layers, IsResult());
      if result == |layers| {
        return Fail(NoResultLayer);
      }
      ghost var before := edges;
      var legitimate := ChangeEdges(layers[k].id, layers[result].id);
      if legitimate.Err? {
        return Fail(legitimate.error);
      }
      if layers[result].inputs == [] {
        return Fail(NoResultInput);
      }
      if layers[result].inputs[0].dims == [] {
        return Fail(NoResultInputPort);
      }
      DropLayers(k, result, legitimate.value, before);
      return Pass;
    }

    /** Relabels what is cut and keeps the layers that take part. */
    method DropLayers(k: nat, result: nat, legitimate: set<LayerId>, ghost before: seq<Edge>)
      requires k < |layers| && result < |layers| && k != result
      requires HasPort(layers[k].outputs) && HasPort(layers[result].inputs)
      requires var cut := First(before, LeavesFrom(layers[k].id));
               && cut < |before| && legitimate == Legitimate(before, 0, cut, layers[k].id)
               && edges == CutEdges(before, cut, layers[k].id, layers[result].id)
      modifies this`layers
      ensures old(Closed(layers, before)) ==> Closed(layers, edges)
      ensures IsCutAt(Relabelled(old(layers), k, result), before, layers, edges,
                      old(layers)[k].id, old(layers)[result].id)
    {
      ghost var layer, target := layers[k].id, layers[result].id;
      ghost var cut := First(before, LeavesFrom(layer));
      var relabelled := Relabelled(layers, k, result);
      if Closed(layers, before) {
        RelabelledStaysClosed(layers, before, k, result);
        CutStaysClosed(relabelled, before, cut, layer, relabelled[result]);
      }
      CutIsCut(relabelled, before, cut, layer, target);
      layers := Remaining(relabelled, legitimate + {layers[result].id});
    }
  }
}
