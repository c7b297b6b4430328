/** The state of the flow editor: the node and edge lists, the two-slot edit buffer
    (`selected` is the working copy, `originalSelected` the snapshot taken on selection) and the
    id counter that feeds new node ids. Each handler of the editor is one method. */
module Builder {
  import opened Wrappers
  import opened Text
  import opened Graph
  import opened Codec

  /** The id counter the editor starts from; the first generated id is its successor, "2". */
  const InitialCounter: nat := 1

  /** Without a load, the first id `genId` hands out is "2". */
  lemma FirstGeneratedId()
    ensures DecimalString(InitialCounter + 1) == "2"
  {
  }

  class Editor {
    var nodes: seq<Node>
    var edges: seq<Edge>
    var selected: Option<Node>
    var originalSelected: Option<Node>
    /** The module-level `idCounter`: the last number handed out as a node id. */
    var idCounter: nat

    /** Every node id is a number the counter has already passed, every edge has a label, and
        the two buffer slots are either both empty or both hold the same node. */
    ghost predicate Valid()
      reads this
    {
      && IdsAtMost(nodes, idCounter)
      && LabelsSet(edges)
      && (selected.None? <==> originalSelected.None?)
      && (selected.Some? ==> selected.value.id == originalSelected.value.id)
    }

    constructor ()
      ensures Valid()
      ensures nodes == [] && edges == [] && selected == None && originalSelected == None
      ensures idCounter == InitialCounter
    {
      nodes, edges := [], [];
      selected, originalSelected := None, None;
      idCounter := InitialCounter;
    }

    /** `genId`: advance the counter and hand out its new value in decimal; no node has it. */
    method GenId() returns (id: string)
      requires Valid()
      modifies this`idCounter
      ensures Valid()
      ensures idCounter == old(idCounter) + 1 && id == DecimalString(idCounter)
      ensures !HasNode(nodes, id)
    {
      FreshId(nodes, idCounter);
      idCounter := idCounter + 1;
      id := DecimalString(idCounter);
    }

    /** `addNode(t)`, with the random canvas position given as `pos`: append one node under a
        fresh id, labelled "<t> <id>", tagged `t`, seeded with the default content for `t`. */
    method AddNode(t: string, pos: Position)
      requires Valid()
      modifies this
      ensures Valid()
      ensures idCounter == old(idCounter) + 1
      ensures |nodes| == |old(nodes)| + 1 && nodes[..|old(nodes)|] == old(nodes)
      ensures var n := nodes[|old(nodes)|];
        && n.id == DecimalString(idCounter) && !HasNode(old(nodes), n.id)
        && n.ntype == t && n.position == pos
        && n.data.labelText == t + " " + n.id && n.data.content == DefaultContent(t)
      ensures DistinctIds(old(nodes)) ==> DistinctIds(nodes)
      ensures edges == old(edges) && selected == old(selected) && originalSelected == old(originalSelected)
    {
      var id := GenId();
      var n := NewNode(t, id, pos);
      AddKeepsDistinct(nodes, n);
      ParseDecimalString(idCounter);
      nodes := nodes + [n];
      assert nodes[..|nodes| - 1] == old(nodes);
    }

    /** `onConnect`: append an edge between the two endpoints labelled "+"; the edge id is the
        one the canvas library assigns. */
    method OnConnect(edgeId: string, source: string, target: string)
      requires Valid()
      modifies this`edges
      ensures Valid()
      ensures edges == old(edges) + [Edge(edgeId, source, target, DefaultEdgeLabel)]
    {
      edges := edges + [Edge(edgeId, source, target, DefaultEdgeLabel)];
    }

    /** `onNodeClick`: the sentinel node opens the chat page (`openChat`) and leaves the buffer
        alone; any other node fills both slots. */
    method OnNodeClick(node: Node) returns (openChat: bool)
      requires Valid()
      modifies this`selected, this`originalSelected
      ensures Valid()
      ensures openChat == IsSentinel(node.data.labelText)
      ensures openChat ==> selected == old(selected) && originalSelected == old(originalSelected)
      ensures !openChat ==> selected == Some(node) && originalSelected == Some(node)
    {
      if IsSentinel(node.data.labelText) {
        return true;
      }
      originalSelected := Some(node);
      selected := Some(node);
      openChat := false;
    }

    /** `onNodeDoubleClick`, with the answer to the confirmation dialog as `confirmed`: remove
        the node and every edge touching it, and empty the buffer if it held that node. */
    method OnNodeDoubleClick(node: Node, confirmed: bool)
      requires Valid()
      modifies this`nodes, this`edges, this`selected, this`originalSelected
      ensures Valid()
      ensures !confirmed ==> nodes == old(nodes) && edges == old(edges)
      ensures confirmed ==> nodes == WithoutNode(old(nodes), node.id)
      ensures confirmed ==> edges == DetachedEdges(old(edges), node.id)
      ensures confirmed && old(selected).Some? && old(selected).value.id == node.id ==>
        selected == None && originalSelected == None
      ensures !(confirmed && old(selected).Some? && old(selected).value.id == node.id) ==>
        selected == old(selected) && originalSelected == old(originalSelected)
      ensures DistinctIds(old(nodes)) ==> DistinctIds(nodes)
      ensures EdgesClosed(old(nodes), old(edges)) ==> EdgesClosed(nodes, edges)
    {
      if confirmed {
        if DistinctIds(nodes) { DeleteKeepsDistinct(nodes, node.id); }
        if EdgesClosed(nodes, edges) { DeleteKeepsClosed(nodes, edges, node.id); }
        nodes := WithoutNode(nodes, node.id);
        edges := DetachedEdges(edges, node.id);
        if selected.Some? && selected.value.id == node.id {
          selected := None;
          originalSelected := None;
        }
      }
    }

    /** `updateSelected`: set one `data` field of the working copy; no-op with no selection. */
    method UpdateSelected(f: Field, v: string)
      requires Valid()
      modifies this`selected
      ensures Valid()
      ensures old(selected).None? ==> selected == None
      ensures old(selected).Some? ==> selected == Some(SetField(old(selected).value, f, v))
    {
      if selected.None? {
        return;
      }
      selected := Some(SetField(selected.value, f, v));
    }

    /** `saveNodeChanges`: copy the working copy's label and content into the node with its id,
        then empty the buffer; no-op with no selection. */
    method SaveNodeChanges()
      requires Valid()
      modifies this`nodes, this`selected, this`originalSelected
      ensures Valid()
      ensures old(selected).None? ==> nodes == old(nodes) && selected == None && originalSelected == None
      ensures old(selected).Some? ==> nodes == CommitEdit(old(nodes), old(selected).value)
      ensures selected == None && originalSelected == None
      ensures DistinctIds(old(nodes)) ==> DistinctIds(nodes)
    {
      if selected.None? {
        return;
      }
      nodes := CommitEdit(nodes, selected.value);
      selected := None;
      originalSelected := None;
    }

    /** `cancelNodeChanges`: show the snapshot again, then (after a short delay) empty both
        slots; the node list is untouched. */
    method CancelNodeChanges()
      requires Valid()
      modifies this`selected, this`originalSelected
      ensures Valid()
      ensures selected == None && originalSelected == None
    {
      selected := originalSelected;
      selected := None;
      originalSelected := None;
    }

    /** `onEdgeDoubleClick`, with the prompt's answer as `action` (`None` when cancelled):
        "-" removes the edge, any other answer relabels it. */
    method OnEdgeDoubleClick(edge: Edge, action: Option<string>)
      requires Valid()
      modifies this`edges
      ensures Valid()
      ensures action.None? ==> edges == old(edges)
      ensures action == Some(RemoveEdgeAnswer) ==> edges == WithoutEdge(old(edges), edge.id)
      ensures action.Some? && action.value != RemoveEdgeAnswer ==>
        edges == RelabelEdge(old(edges), edge.id, action.value)
    {
      if action == Some(RemoveEdgeAnswer) {
        edges := WithoutEdge(edges, edge.id);
      } else if action.Some? {
        edges := RelabelEdge(edges, edge.id, action.value);
      }
    }

    /** The payload `saveGraph` posts: edges keep their labels exactly, since none is empty. */
    method SaveGraph() returns (p: SavePayload)
      requires Valid()
      ensures p == Encode(nodes, edges)
      ensures forall i :: 0 <= i < |edges| ==> p.edges[i].labelText == edges[i].labelText
    {
      p := Encode(nodes, edges);
    }

    /** `loadGraph`, with the fetched payload as `response` (`None` when the request fails):
        replace both lists, reseed the counter to `max(1000, ids)` and empty the buffer. */
    method LoadGraph(response: Option<LoadPayload>)
      requires Valid()
      modifies this
      ensures Valid()
      ensures response.None? ==>
        && nodes == old(nodes) && edges == old(edges) && idCounter == old(idCounter)
        && selected == old(selected) && originalSelected == old(originalSelected)
      ensures response.Some? ==>
        && nodes == DecodeNodes(response.value.nodes) && edges == DecodeEdges(response.value.connections)
        && selected == None && originalSelected == None
      ensures response.Some? ==> idCounter >= CounterFloor
      ensures response.Some? ==>
        forall i :: 0 <= i < |response.value.nodes| ==> response.value.nodes[i].id <= idCounter
      ensures response.Some? ==>
        idCounter == CounterFloor || exists i :: 0 <= i < |response.value.nodes| && response.value.nodes[i].id == idCounter
    {
      if response.None? {
        return;
      }
      var payload := response.value;
      var nds := DecodeNodes(payload.nodes);
      var eds := DecodeEdges(payload.connections);
      LoadedCounter(payload.nodes);
      DecodedEdgesWellFormed(payload.connections);
      nodes := nds;
      edges := eds;
      idCounter := ReseedCounter(nds);
      selected := None;
      originalSelected := None;
    }
  }
}
