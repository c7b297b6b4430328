/** The flow graph as the editor holds it: canvas nodes with a type tag and a label/content pair,
    and labelled edges between node ids, with the per-operation transformations of the lists. */
module Graph {
  import opened Wrappers
  import opened Seqs
  import opened Text

  /** A canvas coordinate (a JavaScript number). */
  datatype Position = Position(x: real, y: real)

  /** The `data` object of a node: what the inspector edits. */
  datatype NodeData = NodeData(labelText: string, content: string)

  /** A canvas node. `ntype` is the `_ntype` tag; the canvas `type: 'default'` is the same for
      every node and is not modelled. */
  datatype Node = Node(id: string, ntype: string, position: Position, data: NodeData)

  /** A directed edge between two node ids; `labelText` (`label` in the source) is the routing condition. */
  datatype Edge = Edge(id: string, source: string, target: string, labelText: string)

  /** The five node kinds the sidebar offers. */
  datatype NodeKind = Greeting | UserInput | Message | Branch | End

  /** The label a new or relabelled edge gets when none is given. */
  const DefaultEdgeLabel: string := "+"

  /** The answer to the edge prompt that removes the edge. */
  const RemoveEdgeAnswer: string := "-"

  function KindTag(k: NodeKind): string
  {
    match k
    case Greeting => "greeting"
    case UserInput => "user_input"
    case Message => "message"
    case Branch => "branch"
    case End => "end"
  }

  /** The kind a type tag names, if any. */
  function KindOfTag(t: string): (k: Option<NodeKind>)
    ensures k.Some? ==> KindTag(k.value) == t
    ensures k.None? ==> forall kind: NodeKind :: KindTag(kind) != t
  {
    if t == "greeting" then Some(Greeting)
    else if t == "user_input" then Some(UserInput)
    else if t == "message" then Some(Message)
    else if t == "branch" then Some(Branch)
    else if t == "end" then Some(End)
    else None
  }

  /** The seed content of a new node: a fixed text for greeting, user_input, message and end
      nodes, and the empty string for branch nodes and for any tag outside the five. */
  function DefaultContent(t: string): (c: string)
    ensures c != "" <==> KindOfTag(t).Some? && KindOfTag(t).value != Branch
  {
    match KindOfTag(t)
    case Some(Greeting) => "Welcome! What topic do you need help with?"
    case Some(UserInput) => "Type: order / refund"
    // the source file holds this text with its ellipsis already mis-decoded as three characters
    case Some(Message) => "Here is some information\U{E2}\U{20AC}\U{A6}"
    case Some(Branch) => ""
    case Some(End) => "Goodbye!"
    case None => ""
  }

  /** The node `addNode(t)` creates under the generated id `id`. */
  function NewNode(t: string, id: string, pos: Position): Node
  {
    Node(id, t, pos, NodeData(t + " " + id, DefaultContent(t)))
  }

  function NodeId(n: Node): string
  {
    n.id
  }

  ghost predicate DistinctIds(ns: seq<Node>)
  {
    DistinctBy(ns, NodeId)
  }

  predicate HasNode(ns: seq<Node>, id: string)
  {
    exists i :: 0 <= i < |ns| && ns[i].id == id
  }

  /** Every node id is the decimal form of a number no larger than `counter`. */
  predicate IdsAtMost(ns: seq<Node>, counter: nat)
  {
    forall i :: 0 <= i < |ns| ==> ParseDecimal(ns[i].id).Some? && ParseDecimal(ns[i].id).value <= counter
  }

  /** Every edge carries a non-empty label. */
  predicate LabelsSet(es: seq<Edge>)
  {
    forall i :: 0 <= i < |es| ==> es[i].labelText != ""
  }

  /** Every edge joins two nodes of the graph. */
  predicate EdgesClosed(ns: seq<Node>, es: seq<Edge>)
  {
    forall i :: 0 <= i < |es| ==> HasNode(ns, es[i].source) && HasNode(ns, es[i].target)
  }

  /** The id after `counter` is not taken when every id is at most `counter`. */
  lemma FreshId(ns: seq<Node>, counter: nat)
    requires IdsAtMost(ns, counter)
    ensures !HasNode(ns, DecimalString(counter + 1))
    ensures IdsAtMost(ns, counter + 1)
  {
    ParseDecimalString(counter + 1);
  }

  /** Adding a node under a fresh id keeps ids distinct. */
  lemma AddKeepsDistinct(ns: seq<Node>, n: Node)
    requires !HasNode(ns, n.id)
    ensures DistinctIds(ns) ==> DistinctIds(ns + [n])
  {
    var r := ns + [n];
    if !DistinctIds(ns) { return; }
    forall i, j | 0 <= i < j < |r| ensures NodeId(r[i]) != NodeId(r[j]) {
      if j == |ns| {
        assert r[i] == ns[i];
      } else {
        assert r[i] == ns[i] && r[j] == ns[j];
      }
    }
  }

  /** The node list after deleting node `id`. */
  function WithoutNode(ns: seq<Node>, id: string): (r: seq<Node>)
    ensures !HasNode(r, id)
    ensures forall i :: 0 <= i < |r| ==> r[i] in ns
    ensures forall i :: 0 <= i < |ns| && ns[i].id != id ==> ns[i] in r
  {
    Filter(ns, (n: Node) => n.id != id)
  }

  /** The edge list after deleting node `id`: the edges that touch it go with it. */
  function DetachedEdges(es: seq<Edge>, id: string): (r: seq<Edge>)
    ensures forall i :: 0 <= i < |r| ==> r[i].source != id && r[i].target != id && r[i] in es
    ensures forall i :: 0 <= i < |es| && es[i].source != id && es[i].target != id ==> es[i] in r
  {
    Filter(es, (e: Edge) => e.source != id && e.target != id)
  }

  /** The edge list after removing edge `eid`. */
  function WithoutEdge(es: seq<Edge>, eid: string): (r: seq<Edge>)
    ensures forall i :: 0 <= i < |r| ==> r[i].id != eid && r[i] in es
    ensures forall i :: 0 <= i < |es| && es[i].id != eid ==> es[i] in r
  {
    Filter(es, (e: Edge) => e.id != eid)
  }

  /** Deletion keeps the surviving nodes and edges in their relative order. */
  lemma DeleteKeepsOrder(a: seq<Node>, b: seq<Node>, ea: seq<Edge>, eb: seq<Edge>, id: string)
    ensures WithoutNode(a + b, id) == WithoutNode(a, id) + WithoutNode(b, id)
    ensures DetachedEdges(ea + eb, id) == DetachedEdges(ea, id) + DetachedEdges(eb, id)
  {
    FilterAppend(a, b, (n: Node) => n.id != id);
    FilterAppend(ea, eb, (e: Edge) => e.source != id && e.target != id);
  }

  /** Deleting a node that is not in the list leaves the node list as it is. */
  lemma DeleteAbsentNode(ns: seq<Node>, id: string)
    requires !HasNode(ns, id)
    ensures WithoutNode(ns, id) == ns
  {
    FilterKeepsAll(ns, (n: Node) => n.id != id);
  }

  /** Deletion keeps node ids distinct. */
  lemma DeleteKeepsDistinct(ns: seq<Node>, id: string)
    requires DistinctIds(ns)
    ensures DistinctIds(WithoutNode(ns, id))
  {
    FilterKeepsDistinct(ns, (n: Node) => n.id != id, NodeId);
  }

  /** Cascading deletion leaves no dangling edge behind when there was none before. */
  lemma DeleteKeepsClosed(ns: seq<Node>, es: seq<Edge>, id: string)
    requires EdgesClosed(ns, es)
    ensures EdgesClosed(WithoutNode(ns, id), DetachedEdges(es, id))
  {
    var rn, re := WithoutNode(ns, id), DetachedEdges(es, id);
    forall i | 0 <= i < |re| ensures HasNode(rn, re[i].source) && HasNode(rn, re[i].target) {
      var k :| 0 <= k < |es| && es[k] == re[i];
      var s :| 0 <= s < |ns| && ns[s].id == es[k].source;
      var t :| 0 <= t < |ns| && ns[t].id == es[k].target;
      var s' :| 0 <= s' < |rn| && rn[s'] == ns[s];
      var t' :| 0 <= t' < |rn| && rn[t'] == ns[t];
    }
  }

  /** The node list after committing the working copy `w`: the node with `w`'s id takes `w`'s
      label and content and keeps its own id, tag and position; every other node is unchanged. */
  function CommitEdit(ns: seq<Node>, w: Node): (r: seq<Node>)
    ensures |r| == |ns|
    ensures forall i :: 0 <= i < |ns| ==>
      r[i].id == ns[i].id && r[i].ntype == ns[i].ntype && r[i].position == ns[i].position
    ensures forall i :: 0 <= i < |ns| && ns[i].id == w.id ==> r[i].data == w.data
    ensures forall i :: 0 <= i < |ns| && ns[i].id != w.id ==> r[i] == ns[i]
  {
    seq(|ns|, i requires 0 <= i < |ns| =>
      if ns[i].id == w.id then ns[i].(data := NodeData(w.data.labelText, w.data.content)) else ns[i])
  }

  /** The edge list after answering the edge prompt for `eid` with `answer` (not "-"): that
      edge's label becomes the answer, or "+" for an empty answer; nothing else changes. */
  function RelabelEdge(es: seq<Edge>, eid: string, answer: string): (r: seq<Edge>)
    ensures |r| == |es|
    ensures forall i :: 0 <= i < |es| ==>
      r[i].id == es[i].id && r[i].source == es[i].source && r[i].target == es[i].target
    ensures forall i :: 0 <= i < |es| && es[i].id == eid ==>
      r[i].labelText != "" && (answer != "" ==> r[i].labelText == answer)
    ensures forall i :: 0 <= i < |es| && es[i].id == eid && answer == "" ==> r[i].labelText == DefaultEdgeLabel
    ensures forall i :: 0 <= i < |es| && es[i].id != eid ==> r[i] == es[i]
  {
    var newLabel := if answer == "" then DefaultEdgeLabel else answer;
    seq(|es|, i requires 0 <= i < |es| => if es[i].id == eid then es[i].(labelText := newLabel) else es[i])
  }

  /** The fields of the working copy the inspector edits. */
  datatype Field = Label | Content

  /** The working copy after the inspector sets one `data` field. */
  function SetField(n: Node, f: Field, v: string): (m: Node)
    ensures m.id == n.id && m.ntype == n.ntype && m.position == n.position
    ensures f == Label ==> m.data.labelText == v && m.data.content == n.data.content
    ensures f == Content ==> m.data.content == v && m.data.labelText == n.data.labelText
  {
    match f
    case Label => n.(data := n.data.(labelText := v))
    case Content => n.(data := n.data.(content := v))
  }

  /** A node whose label, trimmed and lower-cased, is "test": clicking it opens the chat
      instead of selecting it. */
  predicate IsSentinel(caption: string): (b: bool)
    ensures b ==> !AllWhitespace(caption) && |Trim(caption)| == 4
  {
    Lower(Trim(caption)) == "test"
  }

  /** Any capitalisation of "test", with any whitespace around it, is the sentinel. */
  lemma SentinelPadded(pre: string, word: string, post: string)
    requires AllWhitespace(pre) && AllWhitespace(post)
    requires Lower(word) == "test"
    ensures IsSentinel(pre + word + post)
  {
    assert LowerChar(word[0]) == 't' && LowerChar(word[3]) == 't';
    TrimPadded(pre, word, post);
  }
}
