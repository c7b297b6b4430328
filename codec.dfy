/** The two wire shapes of the editor: the payload it posts on save and the payload it reads on
    load, and the mappings between them and the in-memory node and edge lists. The server that
    turns one shape into the other is not part of this model. */
module Codec {
  import opened Wrappers
  import opened Text
  import opened Graph

  /** A node as posted on save: `{ id, _ntype, position, data }`. */
  datatype SavedNode = SavedNode(id: string, ntype: string, position: Position, data: NodeData)

  /** An edge as posted on save: `{ id, source, target, label }`. */
  datatype SavedEdge = SavedEdge(id: string, source: string, target: string, labelText: string)

  datatype SavePayload = SavePayload(nodes: seq<SavedNode>, edges: seq<SavedEdge>)

  /** A node as read on load: `{ id, node_type, x, y, label, content }`, with a numeric id; an
      absent label or content is the empty string. */
  datatype StoredNode = StoredNode(id: nat, nodeType: string, x: real, y: real, labelText: string, content: string)

  /** A connection as read on load: `{ from_node, to_node, condition_value }`. */
  datatype Connection = Connection(fromNode: nat, toNode: nat, conditionValue: string)

  datatype LoadPayload = LoadPayload(nodes: seq<StoredNode>, connections: seq<Connection>)

  /** The save payload: one record per node and per edge, in list order; node records carry
      the node unchanged and edge records default an empty label to "+". */
  function Encode(ns: seq<Node>, es: seq<Edge>): (p: SavePayload)
    ensures |p.nodes| == |ns| && |p.edges| == |es|
    ensures forall i :: 0 <= i < |ns| ==>
      && p.nodes[i].id == ns[i].id && p.nodes[i].ntype == ns[i].ntype
      && p.nodes[i].position == ns[i].position && p.nodes[i].data == ns[i].data
    ensures forall i :: 0 <= i < |es| ==>
      p.edges[i].id == es[i].id && p.edges[i].source == es[i].source && p.edges[i].target == es[i].target
    ensures forall i :: 0 <= i < |es| ==>
      p.edges[i].labelText != "" && (es[i].labelText != "" ==> p.edges[i].labelText == es[i].labelText)
    ensures forall i :: 0 <= i < |es| && es[i].labelText == "" ==> p.edges[i].labelText == DefaultEdgeLabel
  {
    SavePayload(
      seq(|ns|, i requires 0 <= i < |ns| => SavedNode(ns[i].id, ns[i].ntype, ns[i].position, ns[i].data)),
      seq(|es|, i requires 0 <= i < |es| =>
        var e := es[i];
        SavedEdge(e.id, e.source, e.target, if e.labelText == "" then DefaultEdgeLabel else e.labelText)))
  }

  /** A loaded node: its id printed in decimal, its coordinates as position, its label or
      "<node_type> <id>" when that is empty, and its content or "". */
  function DecodeNode(r: StoredNode): (n: Node)
    ensures n.id == DecimalString(r.id) && n.ntype == r.nodeType && n.position == Position(r.x, r.y)
    ensures n.data.content == r.content
    ensures n.data.labelText != ""
    ensures r.labelText != "" ==> n.data.labelText == r.labelText
    ensures r.labelText == "" ==> n.data.labelText == r.nodeType + " " + DecimalString(r.id)
  {
    var id := DecimalString(r.id);
    Node(id, r.nodeType, Position(r.x, r.y),
         NodeData(if r.labelText != "" then r.labelText else r.nodeType + " " + id, r.content))
  }

  /** The loaded node list: one node per record, in record order. */
  function DecodeNodes(rs: seq<StoredNode>): (ns: seq<Node>)
    ensures |ns| == |rs|
    ensures forall i :: 0 <= i < |rs| ==> ns[i].id == DecimalString(rs[i].id) && ns[i].ntype == rs[i].nodeType
  {
    seq(|rs|, i requires 0 <= i < |rs| => DecodeNode(rs[i]))
  }

  /** The id a loaded connection gets: "edge-" and its position in the list. */
  function EdgeIdAt(i: nat): string
  {
    "edge-" + DecimalString(i)
  }

  /** Connection number `i`, as an edge: its endpoints printed in decimal, its condition as
      label, or "+" when the condition is empty. */
  function DecodeConnection(c: Connection, i: nat): (e: Edge)
    ensures e.id == EdgeIdAt(i)
    ensures e.source == DecimalString(c.fromNode) && e.target == DecimalString(c.toNode)
    ensures e.labelText != "" && (c.conditionValue != "" ==> e.labelText == c.conditionValue)
    ensures c.conditionValue == "" ==> e.labelText == DefaultEdgeLabel
  {
    Edge(EdgeIdAt(i), DecimalString(c.fromNode), DecimalString(c.toNode),
         if c.conditionValue != "" then c.conditionValue else DefaultEdgeLabel)
  }

  /** The loaded edge list: one edge per connection, in connection order. */
  function DecodeEdges(cs: seq<Connection>): (es: seq<Edge>)
    ensures |es| == |cs|
    ensures forall i :: 0 <= i < |cs| ==> es[i].id == EdgeIdAt(i)
    ensures forall i :: 0 <= i < |cs| ==>
      es[i].source == DecimalString(cs[i].fromNode) && es[i].target == DecimalString(cs[i].toNode)
  {
    seq(|cs|, i requires 0 <= i < |cs| => DecodeConnection(cs[i], i))
  }

  /** Loaded edges have pairwise distinct ids and non-empty labels. */
  lemma DecodedEdgesWellFormed(cs: seq<Connection>)
    ensures LabelsSet(DecodeEdges(cs))
    ensures forall i, j :: 0 <= i < j < |cs| ==> DecodeEdges(cs)[i].id != DecodeEdges(cs)[j].id
  {
    var es := DecodeEdges(cs);
    forall i, j | 0 <= i < j < |cs| ensures es[i].id != es[j].id {
      assert es[i].id[5..] == DecimalString(i) && es[j].id[5..] == DecimalString(j);
      DecimalStringInjective(i, j);
    }
  }

  /** `Math.max(floor, ...vs)`. */
  function MaxWith(floor: nat, vs: seq<nat>): (m: nat)
    ensures floor <= m
    ensures forall i :: 0 <= i < |vs| ==> vs[i] <= m
    ensures m == floor || exists i :: 0 <= i < |vs| && vs[i] == m
  {
    if |vs| == 0 then floor
    else
      var m := MaxWith(floor, vs[..|vs| - 1]);
      if vs[|vs| - 1] > m then vs[|vs| - 1] else m
  }

  /** The lowest value the id counter takes after a load. */
  const CounterFloor: nat := 1000

  /** `Number(n.id)` for every node of a list whose ids are all decimal strings. */
  function IdNumbers(ns: seq<Node>): (vs: seq<nat>)
    requires forall i :: 0 <= i < |ns| ==> ParseDecimal(ns[i].id).Some?
    ensures |vs| == |ns|
  {
    seq(|ns|, i requires 0 <= i < |ns| => ParseDecimal(ns[i].id).value)
  }

  /** The id counter after loading `ns`: `Math.max(1000, ...ids)`. It is at least 1000 and no
      node id exceeds it. */
  function ReseedCounter(ns: seq<Node>): (c: nat)
    requires forall i :: 0 <= i < |ns| ==> ParseDecimal(ns[i].id).Some?
    ensures c >= CounterFloor && IdsAtMost(ns, c)
  {
    var vs := IdNumbers(ns);
    var c := MaxWith(CounterFloor, vs);
    assert forall i :: 0 <= i < |ns| ==> ParseDecimal(ns[i].id).value == vs[i];
    c
  }

  /** Loaded ids are numbers again: `Number(String(n.id)) == n.id`. */
  lemma DecodedIdsNumeric(rs: seq<StoredNode>)
    ensures forall i :: 0 <= i < |rs| ==> ParseDecimal(DecodeNodes(rs)[i].id) == Some(rs[i].id)
  {
    forall i | 0 <= i < |rs| ensures ParseDecimal(DecodeNodes(rs)[i].id) == Some(rs[i].id) {
      ParseDecimalString(rs[i].id);
    }
  }

  /** After a load the counter is 1000 or the largest loaded id, whichever is larger; so the
      next generated id is at least 1001 and above every loaded id. */
  lemma LoadedCounter(rs: seq<StoredNode>)
    ensures forall i :: 0 <= i < |rs| ==> ParseDecimal(DecodeNodes(rs)[i].id).Some?
    ensures var c := ReseedCounter(DecodeNodes(rs));
      && c >= CounterFloor
      && (forall i :: 0 <= i < |rs| ==> rs[i].id <= c)
      && (c == CounterFloor || exists i :: 0 <= i < |rs| && rs[i].id == c)
  {
    DecodedIdsNumeric(rs);
    var ns := DecodeNodes(rs);
    var vs := IdNumbers(ns);
    assert forall i :: 0 <= i < |rs| ==> vs[i] == rs[i].id;
  }
}

/** Lemmas about a concrete load. */
module LoadExamples {
  import opened Text
  import opened Codec

  /** A load whose largest id is 1200 sets the counter to exactly 1200, whatever it was before
      (so a counter that had reached 1500 goes down). */
  lemma LoadSetsCounterToLargestId()
    ensures ReseedCounter(DecodeNodes([StoredNode(1000, "message", 0.0, 0.0, "", ""),
                                       StoredNode(1200, "end", 0.0, 0.0, "", "")])) == 1200
  {
    var rs := [StoredNode(1000, "message", 0.0, 0.0, "", ""), StoredNode(1200, "end", 0.0, 0.0, "", "")];
    LoadedCounter(rs);
    assert rs[1].id == 1200;
  }
}

/** The server side of persistence is not part of the model: the two predicates below are an
    explicit assumption about it (it keeps node ids, copies every field under its load-side name,
    and lists connections in edge order), under which save followed by load is stated. */
module Persistence {
  import opened Text
  import opened Graph
  import opened Codec

  /** `r` is the saved node `n` under the load-side field names, with the same numeric id. */
  predicate StoredAs(n: SavedNode, r: StoredNode)
  {
    && n.id == DecimalString(r.id) && r.nodeType == n.ntype
    && r.x == n.position.x && r.y == n.position.y
    && r.labelText == n.data.labelText && r.content == n.data.content
  }

  /** `c` is the saved edge `e` under the load-side field names. */
  predicate ConnectedAs(e: SavedEdge, c: Connection)
  {
    e.source == DecimalString(c.fromNode) && e.target == DecimalString(c.toNode) && c.conditionValue == e.labelText
  }

  /** Under that assumption a load gives back the saved nodes, except that a node whose label
      was emptied comes back labelled "<type> <id>", and the saved edges renumbered
      "edge-0", "edge-1", ... and with "+" for an empty label. */
  lemma SaveThenLoad(ns: seq<Node>, es: seq<Edge>, p: LoadPayload)
    requires |p.nodes| == |ns| && |p.connections| == |es|
    requires forall i :: 0 <= i < |ns| ==> StoredAs(Encode(ns, es).nodes[i], p.nodes[i])
    requires forall i :: 0 <= i < |es| ==> ConnectedAs(Encode(ns, es).edges[i], p.connections[i])
    ensures |DecodeNodes(p.nodes)| == |ns| && |DecodeEdges(p.connections)| == |es|
    ensures forall i :: 0 <= i < |ns| && ns[i].data.labelText != "" ==> DecodeNodes(p.nodes)[i] == ns[i]
    ensures forall i :: 0 <= i < |ns| && ns[i].data.labelText == "" ==>
      DecodeNodes(p.nodes)[i] == ns[i].(data := ns[i].data.(labelText := ns[i].ntype + " " + ns[i].id))
    ensures forall i :: 0 <= i < |es| ==>
      DecodeEdges(p.connections)[i] ==
        es[i].(id := EdgeIdAt(i), labelText := if es[i].labelText == "" then DefaultEdgeLabel else es[i].labelText)
  {
    var enc := Encode(ns, es);
    forall i | 0 <= i < |ns|
      ensures DecodeNodes(p.nodes)[i].id == ns[i].id
    {
      assert enc.nodes[i].id == ns[i].id;
    }
  }

  /** With every node labelled and every edge labelled, save then load changes nothing but
      the edge ids. */
  lemma SaveThenLoadLabelled(ns: seq<Node>, es: seq<Edge>, p: LoadPayload)
    requires |p.nodes| == |ns| && |p.connections| == |es|
    requires forall i :: 0 <= i < |ns| ==> StoredAs(Encode(ns, es).nodes[i], p.nodes[i])
    requires forall i :: 0 <= i < |es| ==> ConnectedAs(Encode(ns, es).edges[i], p.connections[i])
    requires forall i :: 0 <= i < |ns| ==> ns[i].data.labelText != ""
    requires LabelsSet(es)
    ensures DecodeNodes(p.nodes) == ns
    ensures |DecodeEdges(p.connections)| == |es|
    ensures forall i :: 0 <= i < |es| ==> DecodeEdges(p.connections)[i] == es[i].(id := EdgeIdAt(i))
  {
    SaveThenLoad(ns, es, p);
  }
}
