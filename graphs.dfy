/** Graphs of units, unisi/graphs.py: the `Node` and `Edge` records, the
    image a unit is drawn with, how a `Net` turns its topology into indexed
    nodes and edges (and caches them until a public attribute changes), how
    a selection of indices is turned back into units, and `make_topology`. */
module Graphs {
  import opened Values
  import opened Common

  /** `graph_default_value`: a graph without nodes and edges. */
  const EmptyGraph: Value := Dict([Entry(Str("nodes"), List([])), Entry(Str("edges"), List([]))])

  /** `Graph.__init__`, which hands `set_defaults` type `'graph'`, the empty
      graph value and empty node and edge lists: each is filled in only
      when the attribute is missing, so a given type or a falsy value is
      kept. */
  function GraphDefaults(b: map<string, Value>): (r: map<string, Value>)
    ensures r.Keys == b.Keys + {"type", "value", "nodes", "edges"}
    ensures forall k :: k in b ==> r[k] == b[k]
    ensures "type" !in b ==> r["type"] == Str("graph")
    ensures "value" !in b ==> r["value"] == EmptyGraph
    ensures "nodes" !in b ==> r["nodes"] == List([])
    ensures "edges" !in b ==> r["edges"] == List([])
  {
    var t := if "type" in b then b else b["type" := Str("graph")];
    var v := if "value" in t then t else t["value" := EmptyGraph];
    var n := if "nodes" in v then v else v["nodes" := List([])];
    if "edges" in n then n else n["edges" := List([])]
  }

  /** The nearest class of a unit that `unit2image` tells apart. */
  datatype UnitClass =
    | BlockClass | ButtonClass | EditClass | TextClass | SwitchClass | TextAreaClass
    | TableClass | TreeClass | SelectClass | GraphClass | RangeClass | OtherUnit

  /** A unit in a net: one of the application's units (compared by
      identity, `uid`), or a `'union'` unit `make_topology` creates for a
      list. */
  datatype GUnit =
    | AppUnit(uid: nat, name: string, cls: UnitClass, utype: string)
    | UnionNode(serial: nat)
  {
    function Name(): string {
      if AppUnit? then name else "Union"
    }
    function Class(): UnitClass {
      if AppUnit? then cls else OtherUnit
    }
    function Type(): string {
      if AppUnit? then utype else "union"
    }
  }

  // ---------------------------------------------------------------------
  // Node, Edge and images

  /** A `Node`: the attributes it has (the optional ones only when truthy). */
  datatype GNode = GNode(name: Option<string>, ntype: string, image: Option<string>, color: Option<string>, size: Option<int>)

  /** An `Edge` between two ends (indices or units). */
  datatype GEdge<T> = GEdge(source: T, target: T, name: Option<string>, color: Option<string>, size: Option<int>, property: Option<Value>)

  function Opt<T>(present: bool, x: T): Option<T> {
    if present then Some(x) else None
  }

  /** `getattr(obj, attr, default)` on an optional attribute. */
  function Or<T>(o: Option<T>, default: T): T {
    if o.Some? then o.value else default
  }

  /** `Node(name, color, size, image)`. */
  function NewNode(name: string, color: string, size: int, image: string): (n: GNode)
    ensures n.ntype == if image != "" then "image" else ""
  {
    GNode(Opt(name != "", name), if image != "" then "image" else "", Opt(image != "", image),
      Opt(color != "", color), Opt(size != 0, size))
  }

  /** `Edge(source, target, name, color, size, property)`. */
  function NewEdge<T>(source: T, target: T, name: string, color: string, size: int, property: Option<Value>): (e: GEdge<T>)
    ensures e.source == source && e.target == target
  {
    GEdge(source, target, Opt(name != "", name), Opt(color != "", color), Opt(size != 0, size), property)
  }

  /** A falsy optional attribute is left out, and reading an attribute with
      its default gives back what the constructor was passed. */
  lemma NodeEdgeAttributes<T>(name: string, color: string, size: int, image: string, s: T, t: T, property: Option<Value>)
    ensures var n := NewNode(name, color, size, image);
      && (n.name.Some? <==> name != "") && Or(n.name, "") == name
      && (n.image.Some? <==> image != "") && Or(n.image, "") == image
      && (n.color.Some? <==> color != "") && Or(n.color, "") == color
      && (n.size.Some? <==> size != 0) && Or(n.size, 0) == size
    ensures var e := NewEdge(s, t, name, color, size, property);
      && (e.name.Some? <==> name != "") && Or(e.name, "") == name
      && (e.color.Some? <==> color != "") && Or(e.color, "") == color
      && (e.size.Some? <==> size != 0) && Or(e.size, 0) == size
      && e.property == property
  {
  }

  const BlockIcon := "https://img.icons8.com/fluency/48/object.png"
  const ButtonIcon := "https://img.icons8.com/ios-filled/50/doorbell.png"
  const NumberIcon := "https://img.icons8.com/fluency-systems-filled/50/123.png"
  const TextIcon := "https://img.icons8.com/sf-regular/48/abc.png"
  const SwitchIcon := "https://img.icons8.com/ios/50/toggle-on--v1.png"
  const TextAreaIcon := "https://img.icons8.com/color/48/align-cell-content-left.png"
  const TableIcon := "https://img.icons8.com/color/48/day-view.png"
  const ChartIcon := "https://img.icons8.com/ultraviolet/40/combo-chart.png"
  const TreeIcon := "https://img.icons8.com/external-flatart-icons-outline-flatarticons/64/external-tree-nature-flatart-icons-outline-flatarticons-3.png"
  const SelectIcon := "https://img.icons8.com/cotton/64/list--v2.png"
  const GraphIcon := "https://img.icons8.com/external-vitaliy-gorbachev-blue-vitaly-gorbachev/50/external-nodes-cryptocurrency-vitaliy-gorbachev-blue-vitaly-gorbachev.png"
  const RangeIcon := "https://img.icons8.com/ios/50/slider-control.png"
  const UnitIcon := "https://img.icons8.com/ios-filled/50/link--v1.png"

  /** `unit2image`: the icon for the unit's class (number and text edits,
      and tables and charts, apart). */
  function Unit2Image(u: GUnit): (r: string)
    ensures r != ""
  {
    match u.Class()
    case BlockClass => BlockIcon
    case ButtonClass => ButtonIcon
    case EditClass | TextClass => if u.Type() == "number" then NumberIcon else TextIcon
    case SwitchClass => SwitchIcon
    case TextAreaClass => TextAreaIcon
    case TableClass => if u.Type() == "table" then TableIcon else ChartIcon
    case TreeClass => TreeIcon
    case SelectClass => SelectIcon
    case GraphClass => GraphIcon
    case RangeClass => RangeIcon
    case OtherUnit => UnitIcon
  }

  /** The class `unit2image` draws a unit as: a text is drawn as an edit. */
  function DrawnAs(c: UnitClass): UnitClass {
    if c == TextClass then EditClass else c
  }

  /** Units of different kinds are drawn differently: units with the same
      icon are drawn as the same class, and agree on being a number edit or
      on being a table rather than a chart. */
  lemma Unit2ImageDistinguishes(a: GUnit, b: GUnit)
    requires Unit2Image(a) == Unit2Image(b)
    ensures DrawnAs(a.Class()) == DrawnAs(b.Class())
    ensures DrawnAs(a.Class()) == EditClass ==> (a.Type() == "number" <==> b.Type() == "number")
    ensures a.Class() == TableClass ==> (a.Type() == "table" <==> b.Type() == "table")
  {
  }

  /** The node drawn for a unit of the net. */
  function NodeFor(u: GUnit): (n: GNode)
    ensures n.ntype == "image" && n.image == Some(Unit2Image(u))
    ensures n.color == Some("white") && n.size == Some(15)
  {
    NewNode(u.Name(), "white", 15, Unit2Image(u))
  }

  // ---------------------------------------------------------------------
  // Indexing a topology

  /** A topology: each source unit (in insertion order) with its targets. */
  type Topology = seq<(GUnit, seq<GUnit>)>

  /** The units in the order `__getstate__` meets them: each source, then
      its targets. */
  function Appearances(topo: Topology): seq<GUnit> {
    if topo == [] then []
    else Appearances(topo[..|topo| - 1]) + [topo[|topo| - 1].0] + topo[|topo| - 1].1
  }

  /** Each (source, target) link of the topology, in order. */
  function LinksOf(topo: Topology): seq<(GUnit, GUnit)> {
    if topo == [] then []
    else LinksOf(topo[..|topo| - 1]) + Pairs(topo[|topo| - 1].0, topo[|topo| - 1].1)
  }

  function Pairs(s: GUnit, ts: seq<GUnit>): (r: seq<(GUnit, GUnit)>)
    ensures |r| == |ts| && forall k :: 0 <= k < |ts| ==> r[k] == (s, ts[k])
  {
    seq(|ts|, k requires 0 <= k < |ts| => (s, ts[k]))
  }

  /** The first appearance of each unit, in order. */
  function Dedup(xs: seq<GUnit>): seq<GUnit> {
    if xs == [] then []
    else
      var d := Dedup(xs[..|xs| - 1]);
      if xs[|xs| - 1] in d then d else d + [xs[|xs| - 1]]
  }

  predicate Distinct(xs: seq<GUnit>) {
    forall i, j :: 0 <= i < j < |xs| ==> xs[i] != xs[j]
  }

  /** `Dedup` holds each unit of `xs` exactly once. */
  lemma {:induction false} DedupSpec(xs: seq<GUnit>)
    ensures Distinct(Dedup(xs))
    ensures forall x :: x in Dedup(xs) <==> x in xs
  {
    if xs != [] {
      var front := xs[..|xs| - 1];
      DedupSpec(front);
      assert xs == front + [xs[|xs| - 1]];
    }
  }

  lemma DedupSnoc(xs: seq<GUnit>, x: GUnit)
    ensures Dedup(xs + [x]) == if x in Dedup(xs) then Dedup(xs) else Dedup(xs) + [x]
  {
    assert (xs + [x])[..|xs|] == xs;
  }

  /** The indexed edges `edges` stand for the links `links` over `narray`. */
  predicate EdgesFor(narray: seq<GUnit>, edges: seq<GEdge<int>>, links: seq<(GUnit, GUnit)>) {
    && |edges| == |links|
    && forall k :: 0 <= k < |edges| ==>
         && 0 <= edges[k].source < |narray| && 0 <= edges[k].target < |narray|
         && narray[edges[k].source] == links[k].0 && narray[edges[k].target] == links[k].1
         && edges[k] == NewEdge(edges[k].source, edges[k].target, "", "", 0, None)
  }

  lemma EdgesForGrow(narray: seq<GUnit>, more: seq<GUnit>, edges: seq<GEdge<int>>, links: seq<(GUnit, GUnit)>)
    requires EdgesFor(narray, edges, links)
    ensures EdgesFor(narray + more, edges, links)
  {
    forall k | 0 <= k < |edges|
      ensures (narray + more)[edges[k].source] == links[k].0 && (narray + more)[edges[k].target] == links[k].1
    {
    }
  }

  /** The nodes drawn for the units, one each. */
  predicate NodesFor(narray: seq<GUnit>, nodes: seq<GNode>) {
    |nodes| == |narray| && forall k :: 0 <= k < |narray| ==> nodes[k] == NodeFor(narray[k])
  }

  /** The index of `u` in `narray` (`index_of`), appending it and its node
      first when it is new. */
  method Visit(narray: seq<GUnit>, nodes: seq<GNode>, u: GUnit,
               ghost seen: seq<GUnit>, ghost edges: seq<GEdge<int>>, ghost links: seq<(GUnit, GUnit)>)
    returns (narray': seq<GUnit>, nodes': seq<GNode>, index: int)
    requires narray == Dedup(seen) && NodesFor(narray, nodes) && EdgesFor(narray, edges, links)
    ensures narray' == Dedup(seen + [u]) && NodesFor(narray', nodes') && EdgesFor(narray', edges, links)
    ensures |narray| <= |narray'| && forall i :: 0 <= i < |narray| ==> narray'[i] == narray[i]
    ensures 0 <= index < |narray'| && narray'[index] == u
  {
    DedupSnoc(seen, u);
    index := IndexOf(narray, u);
    if index == -1 {
      index := |narray|;
      narray', nodes' := narray + [u], nodes + [NodeFor(u)];
      VisitGrows(narray, nodes, u, edges, links);
    } else {
      narray', nodes' := narray, nodes;
    }
  }

  /** A new unit gets the next node, and the edges keep their meaning. */
  lemma VisitGrows(narray: seq<GUnit>, nodes: seq<GNode>, u: GUnit, edges: seq<GEdge<int>>, links: seq<(GUnit, GUnit)>)
    requires NodesFor(narray, nodes) && EdgesFor(narray, edges, links)
    ensures NodesFor(narray + [u], nodes + [NodeFor(u)]) && EdgesFor(narray + [u], edges, links)
  {
    EdgesForGrow(narray, [u], edges, links);
  }

  /** The inner loop of `__getstate__`: one edge from `sunit` to each of
      its targets, each target indexed on first appearance. */
  method IndexLinks(narray: seq<GUnit>, nodes: seq<GNode>, edges: seq<GEdge<int>>, sindex: int, links: seq<GUnit>,
                    ghost seen: seq<GUnit>, ghost prior: seq<(GUnit, GUnit)>)
    returns (narray': seq<GUnit>, nodes': seq<GNode>, edges': seq<GEdge<int>>)
    requires narray == Dedup(seen) && NodesFor(narray, nodes) && EdgesFor(narray, edges, prior)
    requires 0 <= sindex < |narray|
    ensures narray' == Dedup(seen + links) && NodesFor(narray', nodes')
    ensures EdgesFor(narray', edges', prior + Pairs(narray[sindex], links))
  {
    ghost var sunit := narray[sindex];
    narray', nodes', edges' := narray, nodes, edges;
    var j := 0;
    assert seen + links[..j] == seen && prior + Pairs(sunit, links[..j]) == prior;
    while j < |links|
      invariant 0 <= j <= |links|
      invariant narray' == Dedup(seen + links[..j]) && NodesFor(narray', nodes')
      invariant sindex < |narray'| && narray'[sindex] == sunit
      invariant EdgesFor(narray', edges', prior + Pairs(sunit, links[..j]))
    {
      var dunit := links[j];
      LinksSnoc(seen, prior, sunit, links, j);
      ghost var done := prior + Pairs(sunit, links[..j]);
      var dindex;
      narray', nodes', dindex := Visit(narray', nodes', dunit, seen + links[..j], edges', done);
      EdgesForSnoc(narray', edges', done, sindex, dindex);
      edges' := edges' + [NewEdge(sindex, dindex, "", "", 0, None)];
      j := j + 1;
    }
    assert links[..j] == links;
  }

  /** One more target: the units seen and the links made grow by one. */
  lemma LinksSnoc(seen: seq<GUnit>, prior: seq<(GUnit, GUnit)>, sunit: GUnit, links: seq<GUnit>, j: nat)
    requires j < |links|
    ensures seen + links[..j + 1] == seen + links[..j] + [links[j]]
    ensures prior + Pairs(sunit, links[..j + 1]) == prior + Pairs(sunit, links[..j]) + [(sunit, links[j])]
  {
    assert links[..j + 1] == links[..j] + [links[j]];
    assert Pairs(sunit, links[..j + 1]) == Pairs(sunit, links[..j]) + [(sunit, links[j])];
  }

  lemma EdgesForSnoc(narray: seq<GUnit>, edges: seq<GEdge<int>>, links: seq<(GUnit, GUnit)>, s: int, d: int)
    requires EdgesFor(narray, edges, links) && 0 <= s < |narray| && 0 <= d < |narray|
    ensures EdgesFor(narray, edges + [NewEdge(s, d, "", "", 0, None)], links + [(narray[s], narray[d])])
  {
  }

  /** The loop of `__getstate__` over the topology: the units in order of
      first appearance (a source before its targets), one node for each,
      and one edge `Edge(sindex, dindex)` per link. */
  method IndexTopology(topo: Topology) returns (narray: seq<GUnit>, nodes: seq<GNode>, edges: seq<GEdge<int>>)
    ensures narray == Dedup(Appearances(topo))
    ensures NodesFor(narray, nodes)
    ensures EdgesFor(narray, edges, LinksOf(topo))
  {
    narray, nodes, edges := [], [], [];
    var i := 0;
    while i < |topo|
      invariant 0 <= i <= |topo|
      invariant narray == Dedup(Appearances(topo[..i]))
      invariant NodesFor(narray, nodes)
      invariant EdgesFor(narray, edges, LinksOf(topo[..i]))
    {
      var (sunit, links) := topo[i];
      assert topo[..i + 1][..i] == topo[..i] && topo[..i + 1][i] == topo[i];
      var sindex;
      narray, nodes, sindex := Visit(narray, nodes, sunit, Appearances(topo[..i]), edges, LinksOf(topo[..i]));
      narray, nodes, edges := IndexLinks(narray, nodes, edges, sindex, links,
        Appearances(topo[..i]) + [sunit], LinksOf(topo[..i]));
      i := i + 1;
    }
    assert topo[..i] == topo;
  }

  /** The indexed net holds every unit of the topology exactly once, and
      each edge holds the `index_of` of its link's ends. */
  lemma IndexingSound(topo: Topology, narray: seq<GUnit>, edges: seq<GEdge<int>>)
    requires narray == Dedup(Appearances(topo)) && EdgesFor(narray, edges, LinksOf(topo))
    ensures Distinct(narray)
    ensures forall u :: u in narray <==> u in Appearances(topo)
    ensures forall k :: 0 <= k < |edges| ==>
      edges[k].source == IndexOf(narray, LinksOf(topo)[k].0) && edges[k].target == IndexOf(narray, LinksOf(topo)[k].1)
  {
    DedupSpec(Appearances(topo));
    forall k | 0 <= k < |edges|
      ensures edges[k].source == IndexOf(narray, LinksOf(topo)[k].0) && edges[k].target == IndexOf(narray, LinksOf(topo)[k].1)
    {
      DistinctIndex(narray, edges[k].source);
      DistinctIndex(narray, edges[k].target);
    }
  }

  /** In a list without repeats, `index_of` finds each item at its place. */
  lemma DistinctIndex(xs: seq<GUnit>, k: int)
    requires Distinct(xs) && 0 <= k < |xs|
    ensures IndexOf(xs, xs[k]) == k
  {
    if IndexOf(xs, xs[k]) != k {
      assert false;
    }
  }

  // ---------------------------------------------------------------------
  // Selections

  /** `_value['nodes']`: each selected unit by its `index_of` in the net,
      -1 when it is not there. */
  function SelectionIndices(narray: seq<GUnit>, sel: seq<GUnit>): (r: seq<int>)
    ensures |r| == |sel|
    ensures forall k :: 0 <= k < |sel| ==> -1 <= r[k] < |narray| && (r[k] == -1 <==> sel[k] !in narray)
    ensures forall k :: 0 <= k < |sel| && r[k] >= 0 ==> narray[r[k]] == sel[k]
  {
    seq(|sel|, k requires 0 <= k < |sel| => IndexOf(narray, sel[k]))
  }

  /** `_value['edges']`: each selected edge by the indices of its ends. */
  function EdgeIndices(narray: seq<GUnit>, sel: seq<GEdge<GUnit>>): (r: seq<GEdge<int>>)
    ensures |r| == |sel|
    ensures forall k :: 0 <= k < |sel| ==>
      && r[k].source == IndexOf(narray, sel[k].source) && r[k].target == IndexOf(narray, sel[k].target)
      && r[k].name.None? && r[k].color.None? && r[k].size.None? && r[k].property.None?
  {
    seq(|sel|, k requires 0 <= k < |sel| => NewEdge(IndexOf(narray, sel[k].source), IndexOf(narray, sel[k].target), "", "", 0, None))
  }

  /** The units the client's selected node indices stand for, with
      Python's negative indexing; None where an index is out of range
      (IndexError). */
  function UnitsAt(narray: seq<GUnit>, idx: seq<int>): (r: Option<seq<GUnit>>)
    ensures r.Some? <==> forall k :: 0 <= k < |idx| ==> PyIndex(|narray|, idx[k]).Some?
    ensures r.Some? ==> |r.value| == |idx|
    ensures r.Some? ==> forall k :: 0 <= k < |idx| ==> r.value[k] == narray[PyIndex(|narray|, idx[k]).value]
  {
    if idx == [] then Some([])
    else
      match (PyIndex(|narray|, idx[0]), UnitsAt(narray, idx[1..]))
      case (Some(p), Some(t)) => Some([narray[p]] + t)
      case _ => None
  }

  /** The unit edges the client's selected edge positions stand for. */
  function EdgesAt(narray: seq<GUnit>, edges: seq<GEdge<int>>, idx: seq<int>): (r: Option<seq<GEdge<GUnit>>>)
  {
    if idx == [] then Some([])
    else
      match PyIndex(|edges|, idx[0])
      case None => None
      case Some(p) =>
        var e := edges[p];
        match (PyIndex(|narray|, e.source), PyIndex(|narray|, e.target), EdgesAt(narray, edges, idx[1..]))
        case (Some(a), Some(b), Some(t)) => Some([NewEdge(narray[a], narray[b], "", "", 0, None)] + t)
        case _ => None
  }

  /** Sending back the indices `_value` gave the selected units gives back
      those units, when they are all in the net. */
  lemma SelectionRoundTrip(narray: seq<GUnit>, sel: seq<GUnit>)
    requires forall k :: 0 <= k < |sel| ==> sel[k] in narray
    ensures UnitsAt(narray, SelectionIndices(narray, sel)) == Some(sel)
  {
    var idx := SelectionIndices(narray, sel);
    assert forall k :: 0 <= k < |idx| ==> idx[k] >= 0 && PyIndex(|narray|, idx[k]) == Some(idx[k]);
    var r := UnitsAt(narray, idx).value;
    assert r == sel;
  }

  /** A selected unit that is not in the net is sent as -1, which the
      converter reads back as the last unit of the net. */
  lemma AbsentUnitReadsAsLast(narray: seq<GUnit>, u: GUnit)
    requires narray != [] && u !in narray
    ensures UnitsAt(narray, SelectionIndices(narray, [u])) == Some([narray[|narray| - 1]])
  {
    var idx := SelectionIndices(narray, [u]);
    assert idx[0] == -1;
    assert PyIndex(|narray|, idx[0]) == Some(|narray| - 1);
    var r := UnitsAt(narray, idx).value;
    assert r == [narray[|narray| - 1]];
  }

  /** Edge positions sent back by the client stand for the topology's
      links. */
  lemma {:induction false} EdgesAtAreLinks(narray: seq<GUnit>, edges: seq<GEdge<int>>, links: seq<(GUnit, GUnit)>, idx: seq<int>)
    requires EdgesFor(narray, edges, links)
    requires forall k :: 0 <= k < |idx| ==> 0 <= idx[k] < |edges|
    ensures EdgesAt(narray, edges, idx).Some?
    ensures |EdgesAt(narray, edges, idx).value| == |idx|
    ensures forall k :: 0 <= k < |idx| ==>
      EdgesAt(narray, edges, idx).value[k] == NewEdge(links[idx[k]].0, links[idx[k]].1, "", "", 0, None)
  {
    if idx != [] {
      EdgesAtAreLinks(narray, edges, links, idx[1..]);
      var r := EdgesAt(narray, edges, idx).value;
      var t := EdgesAt(narray, edges, idx[1..]).value;
      assert r == [NewEdge(links[idx[0]].0, links[idx[0]].1, "", "", 0, None)] + t;
      forall k | 1 <= k < |idx|
        ensures r[k] == NewEdge(links[idx[k]].0, links[idx[k]].1, "", "", 0, None)
      {
        assert r[k] == t[k - 1] && idx[k] == idx[1..][k - 1];
      }
    }
  }

  // ---------------------------------------------------------------------
  // The Net

  /** What `_value` holds: the indices `__getstate__` computed (nodes, and
      edges as index pairs), or the selection a client sent (node indices
      and edge positions). */
  datatype Selection = Indexed(nodes: seq<int>, edges: seq<GEdge<int>>) | Sent(nodeIdx: seq<int>, edgeIdx: seq<int>)

  /** `__getstate__`'s view of the net: nodes, edges and value. */
  datatype NetState = NetState(nodes: seq<GNode>, edges: seq<GEdge<int>>, value: Selection)

  class Net {
    var topology: Topology
    var selNodes: seq<GUnit>            // value['nodes']
    var selEdges: seq<GEdge<GUnit>>     // value['edges']
    var cachedNodes: Option<seq<GNode>> // _nodes
    var indexed: bool                   // _edges and _narray exist
    var cachedEdges: seq<GEdge<int>>    // _edges
    var narray: seq<GUnit>              // _narray
    var cachedValue: Option<Selection>  // _value
    var insideConverter: bool           // _inside_converter

    /** `_nodes` is only ever cached together with `_edges` and `_narray`
        built from the current topology. */
    ghost predicate Valid()
      reads this
    {
      cachedNodes.Some? ==>
        && indexed
        && narray == Dedup(Appearances(topology))
        && NodesFor(narray, cachedNodes.value)
        && EdgesFor(narray, cachedEdges, LinksOf(topology))
    }

    /** `Net(name, value, topology)`: nothing cached yet. */
    constructor (topology: Topology, selNodes: seq<GUnit>, selEdges: seq<GEdge<GUnit>>)
      ensures this.topology == topology && this.selNodes == selNodes && this.selEdges == selEdges
      ensures cachedNodes.None? && !indexed && cachedValue.None? && !insideConverter
      ensures Valid()
    {
      this.topology := topology;
      this.selNodes := selNodes;
      this.selEdges := selEdges;
      cachedNodes := None;
      indexed := false;
      cachedEdges := [];
      narray := [];
      cachedValue := None;
      insideConverter := false;
    }

    /** `__getstate__`: the nodes and edges are rebuilt only when `_nodes`
        is missing, the value indices only when `_value` is missing; what is
        cached is returned as is. */
    method GetState() returns (st: NetState)
      requires Valid()
      modifies this`cachedNodes, this`indexed, this`cachedEdges, this`narray, this`cachedValue
      ensures Valid() && cachedNodes.Some? && cachedValue.Some?
      ensures old(cachedNodes).Some? ==> cachedNodes == old(cachedNodes) && cachedEdges == old(cachedEdges) && narray == old(narray)
      ensures old(cachedValue).Some? ==> cachedValue == old(cachedValue)
      ensures old(cachedValue).None? ==> cachedValue == Some(Indexed(SelectionIndices(narray, selNodes), EdgeIndices(narray, selEdges)))
      ensures st == NetState(cachedNodes.value, cachedEdges, cachedValue.value)
    {
      if cachedNodes.None? {
        var na, nodes, edges := IndexTopology(topology);
        cachedNodes, indexed, cachedEdges, narray := Some(nodes), true, edges, na;
      }
      if cachedValue.None? {
        cachedValue := Some(Indexed(SelectionIndices(narray, selNodes), EdgeIndices(narray, selEdges)));
      }
      st := NetState(cachedNodes.value, cachedEdges, cachedValue.value);
    }

    /** `specific_changed_register`: a `_`-prefixed property, or `value`
        while the converter runs, is not a change; any other named property
        drops `_nodes` and `_value` so that the next state is rebuilt. No
        property at all is a change that keeps the caches. */
    method SpecificChangedRegister(property: Option<string>) returns (r: bool)
      modifies this`cachedNodes, this`cachedValue
      ensures var named := property.Some? && property.value != "";
        && (r <==> !(named && (property.value[0] == '_' || (property.value == "value" && insideConverter))))
        && (named && r ==> cachedNodes.None? && cachedValue.None?)
        && (!(named && r) ==> cachedNodes == old(cachedNodes) && cachedValue == old(cachedValue))
    {
      if property.Some? && property.value != "" {
        var p := property.value;
        if p[0] == '_' {
          return false;
        } else if p == "value" && insideConverter {
          return false;
        } else {
          cachedNodes := None;
          cachedValue := None;
        }
      }
      return true;
    }

    /** `changed_converter`: the client's selection is stored as `_value`
        and read back into units and edges through `_narray` and `_edges`
        (which may be stale). Without a `changed` handler of the net's own
        (`ownHandler` false) the result becomes the value, an assignment
        that is not a change of the net, as it happens inside the
        converter; with one, the handler is called with it instead and the
        value is left as it was (`handlerRaises`: the handler, user code,
        raised). `raised` where `_narray` does not exist yet
        (AttributeError), an index is out of range (IndexError) or the
        handler raised; then the converter flag stays set. */
    method ChangedConverter(nodeIdx: seq<int>, edgeIdx: seq<int>, ownHandler: bool, handlerRaises: bool) returns (raised: bool)
      modifies this`cachedValue, this`insideConverter, this`selNodes, this`selEdges
      ensures cachedValue == Some(Sent(nodeIdx, edgeIdx))
      ensures var us := UnitsAt(narray, nodeIdx);
        var es := EdgesAt(narray, cachedEdges, edgeIdx);
        && (raised <==> !indexed || us.None? || es.None? || (ownHandler && handlerRaises))
        && (insideConverter <==> raised)
        && (raised || ownHandler ==> selNodes == old(selNodes) && selEdges == old(selEdges))
        && (!raised && !ownHandler ==> selNodes == us.value && selEdges == es.value)
    {
      insideConverter := true;
      cachedValue := Some(Sent(nodeIdx, edgeIdx));
      if !indexed {
        return true;
      }
      var us := UnitsAt(narray, nodeIdx);
      var es := EdgesAt(narray, cachedEdges, edgeIdx);
      if us.None? || es.None? {
        return true;
      }
      if ownHandler {
        if handlerRaises {
          return true;
        }
      } else {
        selNodes, selEdges := us.value, es.value;
      }
      insideConverter := false;
      return false;
    }

    /** `make_topology` as written: the new topology is assigned, which
        drops the caches only when the net is reactive (assignments then go
        through `specific_changed_register`); the closing call with no
        property drops nothing. */
    method MakeTopologyAsWritten(shape: Shape, next: nat, reactive: bool)
      modifies this`topology, this`cachedNodes, this`cachedValue
      ensures topology == Dive(shape, [], next).topo
      ensures reactive && !insideConverter ==> cachedNodes.None? && cachedValue.None?
      ensures !reactive ==> cachedNodes == old(cachedNodes) && cachedValue == old(cachedValue)
    {
      topology := Dive(shape, [], next).topo;
      if reactive {
        var _ := SpecificChangedRegister(Some("topology"));
      }
      var _ := SpecificChangedRegister(None);
    }

    /** `make_topology`: the new topology, with `_nodes` and `_value`
        dropped so that the next state describes it. */
    method MakeTopology(shape: Shape, next: nat)
      modifies this`topology, this`cachedNodes, this`cachedValue
      ensures topology == Dive(shape, [], next).topo
      ensures cachedNodes.None? && cachedValue.None? && Valid()
    {
      topology := Dive(shape, [], next).topo;
      var _ := SpecificChangedRegister(Some("topology"));
      cachedNodes, cachedValue := None, None;
    }

    /** `elements` as written: it builds the state when `_nodes` is missing
        and then reads `narray`, an attribute a net never has, so it always
        raises AttributeError (None). */
    method ElementsAsWritten() returns (r: Option<seq<GUnit>>)
      requires Valid()
      modifies this`cachedNodes, this`indexed, this`cachedEdges, this`narray, this`cachedValue
      ensures r.None? && Valid()
    {
      if cachedNodes.None? {
        var _ := GetState();
      }
      r := None;
    }

    /** `elements`: the units of the net, each once, in index order. */
    method Elements() returns (r: seq<GUnit>)
      requires Valid()
      modifies this`cachedNodes, this`indexed, this`cachedEdges, this`narray, this`cachedValue
      ensures Valid() && r == narray
      ensures r == Dedup(Appearances(topology)) && Distinct(r)
      ensures forall u :: u in r <==> u in Appearances(topology)
    {
      if cachedNodes.None? {
        var _ := GetState();
      }
      r := narray;
      DedupSpec(Appearances(topology));
    }
  }

  /** A net that is not reactive keeps nodes that no longer describe its
      topology after `make_topology`: cached for an empty topology, they
      are wrong for a block linked to one unit. */
  lemma MakeTopologyLeavesStaleNodes(b: GUnit, u: GUnit)
    ensures NodesFor(Dedup(Appearances([])), [])
    ensures var t := Dive(BlockOf(b, [Single(u)]), [], 0).topo;
      t == [(b, [u])] && !NodesFor(Dedup(Appearances(t)), [])
  {
    BlockOfOne(b, u);
    var t: Topology := [(b, [u])];
    assert t[..0] == [];
    assert b in Appearances(t);
    DedupSpec(Appearances(t));
  }

  /** `make_topology` of a block holding one unit. */
  lemma BlockOfOne(b: GUnit, u: GUnit)
    ensures Dive(BlockOf(b, [Single(u)]), [], 0).topo == [(b, [u])]
  {
    var t0: Topology := [(b, [])];
    TouchEmpty(b);
    LinkFirst(b, u);
    assert [Single(u)][1..] == [];
    assert DiveItems(b, [Single(u)], [], 0) == DiveItems(b, [], Link(t0, b, u), 0);
  }

  /** The first `topo[b]` of an empty topology adds `b` with no targets. */
  lemma TouchEmpty(b: GUnit)
    ensures Touch([], b) == [(b, [])]
  {
    assert !HasSource([], b);
  }

  /** The first link from `b` is to `u`. */
  lemma LinkFirst(b: GUnit, u: GUnit)
    ensures Link([(b, [])], b, u) == [(b, [u])]
  {
    var t0: Topology := [(b, [])];
    assert t0[..0] == [] && t0[0] == (b, []);
    assert [] + [u] == [u];
  }

  // ---------------------------------------------------------------------
  // make_topology

  /** What `make_topology` is given: a unit, a block and its layout, a
      list, or something falsy (None). */
  datatype Shape = Single(u: GUnit) | BlockOf(b: GUnit, items: seq<Shape>) | ListOf(items: seq<Shape>) | Falsy

  /** `if obj:` on an element of a list or layout: a unit is always
      truthy, an empty list is not. */
  predicate Present(s: Shape) {
    !s.Falsy? && !(s.ListOf? && s.items == [])
  }

  /** Whether `k` has an entry in the topology. */
  predicate HasSource(topo: Topology, k: GUnit) {
    exists i :: 0 <= i < |topo| && topo[i].0 == k
  }

  /** `topo[k]` on the defaultdict: an entry for `k` exists afterwards. */
  function Touch(topo: Topology, k: GUnit): (r: Topology)
    ensures LinkSet(r) == LinkSet(topo) && HasSource(r, k)
  {
    if HasSource(topo, k) then topo
    else
      LinkSetSnoc(topo, (k, []));
      assert (topo + [(k, [])])[|topo|].0 == k;
      topo + [(k, [])]
  }

  /** `topo[k][c] = {}` once `topo[k]` exists: `c` joins `k`'s targets
      unless it is there. */
  function Link(topo: Topology, k: GUnit, c: GUnit): (r: Topology)
    ensures LinkSet(r) == LinkSet(topo) + {(k, c)}
  {
    if topo == [] then
      LinkSetSnoc([], (k, [c]));
      assert [] + [(k, [c])] == [(k, [c])];
      [(k, [c])]
    else
      var last := topo[|topo| - 1];
      var front := topo[..|topo| - 1];
      assert topo == front + [last];
      LinkSetSnoc(front, last);
      if last.0 == k then
        var ts := if c in last.1 then last.1 else last.1 + [c];
        LinkSetSnoc(front, (k, ts));
        front + [(k, ts)]
      else
        var f := Link(front, k, c);
        LinkSetSnoc(f, last);
        f + [last]
  }

  /** The pairs from `s` to each of `ts`. */
  function Fan(s: GUnit, ts: seq<GUnit>): set<(GUnit, GUnit)> {
    set t | t in ts :: (s, t)
  }

  /** The links of a topology as a set of pairs. */
  function LinkSet(topo: Topology): set<(GUnit, GUnit)> {
    if topo == [] then {}
    else LinkSet(topo[..|topo| - 1]) + Fan(topo[|topo| - 1].0, topo[|topo| - 1].1)
  }

  lemma LinkSetSnoc(topo: Topology, e: (GUnit, seq<GUnit>))
    ensures LinkSet(topo + [e]) == LinkSet(topo) + Fan(e.0, e.1)
  {
    assert (topo + [e])[..|topo|] == topo;
  }

  /** The result of a dive: the unit standing for the shape, the topology
      and the next free serial for a union unit. */
  datatype Dived = Dived(node: GUnit, topo: Topology, next: nat)

  /** `dive(unit)`: a list becomes a fresh union unit linked to each truthy
      item, a block is linked to each truthy entry of its layout, and a
      unit stands for itself. */
  function Dive(s: Shape, topo: Topology, next: nat): (r: Dived)
    decreases s, 1
    ensures r.next >= next
    ensures s.ListOf? || s.Falsy? ==> r.node == UnionNode(next)
  {
    match s
    case ListOf(items) =>
      var node := UnionNode(next);
      var d := DiveItems(node, items, topo, next + 1);
      Dived(node, d.topo, d.next)
    case BlockOf(b, items) =>
      var d := DiveItems(b, items, topo, next);
      Dived(b, d.topo, d.next)
    case Single(u) => Dived(u, topo, next)
    case Falsy => Dived(UnionNode(next), topo, next)
  }

  /** The loop of `dive` over `items` on behalf of `node`: `topo[node]` is
      created before the item is dived into. */
  function DiveItems(node: GUnit, items: seq<Shape>, topo: Topology, next: nat): (r: Dived)
    decreases items, 0
    ensures r.next >= next && r.node == node
  {
    if items == [] then Dived(node, topo, next)
    else if !Present(items[0]) then DiveItems(node, items[1..], topo, next)
    else
      var t := Touch(topo, node);
      var d := Dive(items[0], t, next);
      DiveItems(node, items[1..], Link(d.topo, node, d.node), d.next)
  }

  /** The parent to child pairs of a shape, and the unit standing for it:
      a description independent of the order the topology keeps. */
  datatype Fanout = Fanout(node: GUnit, links: set<(GUnit, GUnit)>, next: nat)

  function Edges(s: Shape, next: nat): Fanout
    decreases s, 1
  {
    match s
    case ListOf(items) =>
      var f := ItemEdges(UnionNode(next), items, next + 1);
      Fanout(UnionNode(next), f.links, f.next)
    case BlockOf(b, items) =>
      var f := ItemEdges(b, items, next);
      Fanout(b, f.links, f.next)
    case Single(u) => Fanout(u, {}, next)
    case Falsy => Fanout(UnionNode(next), {}, next)
  }

  function ItemEdges(node: GUnit, items: seq<Shape>, next: nat): Fanout
    decreases items, 0
  {
    if items == [] then Fanout(node, {}, next)
    else if !Present(items[0]) then ItemEdges(node, items[1..], next)
    else
      var c := Edges(items[0], next);
      var rest := ItemEdges(node, items[1..], c.next);
      Fanout(node, {(node, c.node)} + c.links + rest.links, rest.next)
  }

  /** The topology `make_topology` builds links exactly the parent to child
      pairs of the shape, and the same unit stands for it. */
  lemma {:induction false} DiveLinks(s: Shape, topo: Topology, next: nat)
    ensures Dive(s, topo, next).node == Edges(s, next).node
    ensures Dive(s, topo, next).next == Edges(s, next).next
    ensures LinkSet(Dive(s, topo, next).topo) == LinkSet(topo) + Edges(s, next).links
    decreases s, 1
  {
    match s
    case ListOf(items) =>
      DiveItemsLinks(UnionNode(next), items, topo, next + 1);
    case BlockOf(b, items) =>
      DiveItemsLinks(b, items, topo, next);
    case _ =>
  }

  lemma {:induction false} DiveItemsLinks(node: GUnit, items: seq<Shape>, topo: Topology, next: nat)
    ensures DiveItems(node, items, topo, next).next == ItemEdges(node, items, next).next
    ensures LinkSet(DiveItems(node, items, topo, next).topo) == LinkSet(topo) + ItemEdges(node, items, next).links
    decreases items, 0
  {
    if items != [] {
      if !Present(items[0]) {
        DiveItemsLinks(node, items[1..], topo, next);
      } else {
        var t := Touch(topo, node);
        DiveLinks(items[0], t, next);
        var d := Dive(items[0], t, next);
        var l := Link(d.topo, node, d.node);
        DiveItemsLinks(node, items[1..], l, d.next);
        assert LinkSet(l) == LinkSet(topo) + Edges(items[0], next).links + {(node, d.node)};
      }
    }
  }

  /** A list of units becomes one union unit linked to each of them. */
  lemma UnionLinksEach(items: seq<Shape>, next: nat)
    requires items != [] && forall k :: 0 <= k < |items| ==> items[k].Single?
    ensures Edges(ListOf(items), next).node == UnionNode(next)
    ensures Edges(ListOf(items), next).links == set k | 0 <= k < |items| :: (UnionNode(next), items[k].u)
  {
    ItemEdgesSingles(UnionNode(next), items, next + 1);
  }

  lemma {:induction false} ItemEdgesSingles(node: GUnit, items: seq<Shape>, next: nat)
    requires forall k :: 0 <= k < |items| ==> items[k].Single?
    ensures ItemEdges(node, items, next).links == set k | 0 <= k < |items| :: (node, items[k].u)
    ensures ItemEdges(node, items, next).next == next
  {
    if items != [] {
      ItemEdgesSingles(node, items[1..], next);
      var rest := set k | 0 <= k < |items[1..]| :: (node, items[1..][k].u);
      var all := set k | 0 <= k < |items| :: (node, items[k].u);
      assert all == {(node, items[0].u)} + rest by {
        forall p | p in all ensures p in {(node, items[0].u)} + rest {
          var k :| 0 <= k < |items| && p == (node, items[k].u);
          if k > 0 {
            assert items[1..][k - 1] == items[k];
          }
        }
        forall p | p in rest ensures p in all {
          var k :| 0 <= k < |items[1..]| && p == (node, items[1..][k].u);
          assert items[1..][k] == items[k + 1];
        }
      }
    }
  }
}
