# Flow-builder client state, modelled in Dafny

This project models the client-side state handling of a chatbot flow builder. It has two parts.

- **The flow-graph editor** (`src/components/Builder.jsx`). The editor holds a list of canvas nodes and a list of labelled edges. It has a two-slot edit buffer: `selected` is the working copy and `originalSelected` is the snapshot taken on selection. A module-level id counter feeds new node ids. The editor's handlers add, connect, delete, select, edit, commit and cancel. It posts the graph in one wire shape on save and reads it back in another on load.
- **The chat client's turn protocol** (`src/components/TestModal.jsx`). It holds the typed message, the transcript, a `running` flag and the position token (`currentNodeId`) that the server hands out and expects back.

Modules:

- `Wrappers`: the `Option` type used for JavaScript `null`.
- `Seqs`: `Filter` (`Array.prototype.filter`) and its laws: order, keeping everything, and distinctness.
- `Text`: `trim` with the exact ECMAScript whitespace set, lower-casing, and `String(n)` / `Number(s)` for decimal ids.
- `Graph`: the node and edge datatypes, the node kinds, default contents, and the pure list transforms behind the handlers. Those transforms are delete-cascade, edge relabel/remove, commit-by-id and field edit.
- `Codec`: the save payload and the load payload, the mappings between them and the lists, and the counter reseed.
- `LoadExamples`: a concrete load showing the exact counter value.
- `Persistence`: a save-then-load statement. It holds under an explicit assumption about the server, which is not part of this model.
- `Builder`: class `Editor`. Its fields are the editor's state, and each handler is a method with a `modifies` frame. `Valid()` says three things. Every node id is a decimal number the counter has already passed. Every edge has a label. The buffer slots are both empty or both hold the same node.
- `Chat`: class `TestSession`. The asynchronous handlers are split at their `await`, so `running` is visible while a request is in flight: `BeginGreeting`/`FinishGreeting` and `BeginSend`/`FinishSend`. `FetchGreeting` and `SendMessage` run both halves.

Browser and network inputs are method parameters:

- the answer to `window.confirm` is a `bool`;
- the answer to `prompt` is an `Option<string>`;
- the `Math.random` position is a `Position`;
- the fetched load payload is an `Option`;
- the server's answer to a run request is a `RunResponse`.

The field name `label` is a reserved word in Dafny, so the model calls it `labelText`.

What the code does and does not do, as modelled:

- Loaded connections are not checked for dangling endpoints, and connecting does not check either. `EdgesClosed` is only shown to be preserved by deletion.
- Missing ids make the handlers silent no-ops. They do not raise `NotFound`.
- Cancel first shows the snapshot and then empties both slots.
- Save followed by load is not the identity. Edge ids are renumbered `edge-i`. An emptied node label comes back as `"<type> <id>"`. See `Persistence.SaveThenLoad`.
- After a load the counter is `max(1000, ids)` and `genId` pre-increments. So the next id is `max(1000, ids) + 1`. Because a load sets the counter to exactly that value, it can lower the counter (`LoadExamples.LoadSetsCounterToLargestId`). An id handed out before a load can then be handed out again after it. It never collides with a node in the list.

## Model

| member | source | states |
|---|---|---|
| Text.Trim | src/components/Builder.jsx:87 | `trim()` yields a string that neither starts nor ends with whitespace and is empty exactly when the input is all whitespace |
| Text.TrimPadded | src/components/Builder.jsx:87 | trimming a word padded on both sides with whitespace gives back exactly the word |
| Text.DecimalString | src/components/Builder.jsx:18 | `String(n)` of a counter value is a non-empty string of decimal digits |
| Text.ParseDecimal | src/components/Builder.jsx:200 | `Number(id)` on an id string gives a value exactly when the string is a non-empty run of decimal digits |
| Text.ParseDecimalString | src/components/Builder.jsx:200 | `Number(String(n)) == n` for every non-negative integer id |
| Text.DecimalStringInjective | src/components/Builder.jsx:17-18 | distinct counter values give distinct id strings, so ids from successive `genId` calls never repeat |
| Graph.KindOfTag | src/components/NodeSidebar.jsx:4-10 | a type tag names a node kind exactly when it is one of the five sidebar tags, and it names the kind whose tag it is |
| Graph.DefaultContent | src/components/Builder.jsx:73-79 | a new node's content is non-empty exactly for greeting, user_input, message and end; it is "" for branch and for any other tag |
| Graph.FreshId | src/components/Builder.jsx:17-18 | when every id is at most the counter, the id after the counter belongs to no node, and every id stays at most the advanced counter |
| Graph.AddKeepsDistinct | src/components/Builder.jsx:66-83 | appending a node whose id is not taken keeps node ids pairwise distinct |
| Graph.WithoutNode | src/components/Builder.jsx:101 | after deletion no node has the deleted id; every other node is kept, and nothing new appears |
| Graph.DetachedEdges | src/components/Builder.jsx:102-104 | after deleting a node no edge has it as source or target; every other edge is kept, and nothing new appears |
| Graph.WithoutEdge | src/components/Builder.jsx:154 | removing an edge drops exactly the edges with that id and keeps every other edge |
| Graph.DeleteKeepsOrder | src/components/Builder.jsx:101-104 | node and edge deletion distribute over concatenation, so survivors keep their relative order |
| Graph.DeleteAbsentNode | src/components/Builder.jsx:101 | deleting an id that no node has leaves the node list unchanged |
| Graph.DeleteKeepsDistinct | src/components/Builder.jsx:101 | deletion keeps node ids pairwise distinct |
| Graph.DeleteKeepsClosed | src/components/Builder.jsx:99-110 | if every edge joined two existing nodes before a cascading delete, the same holds after it |
| Graph.CommitEdit | src/components/Builder.jsx:122-128 | commit keeps length, every id, tag and position; the node with the working copy's id takes its label and content; all other nodes are unchanged |
| Graph.RelabelEdge | src/components/Builder.jsx:155-158 | relabelling sets only the chosen edge's label, to the answer or to "+" for the empty answer, and keeps ids and endpoints |
| Graph.SetField | src/components/Builder.jsx:112-118 | an inspector edit changes only the named data field of the working copy |
| Graph.IsSentinel | src/components/Builder.jsx:87 | a sentinel label is not all whitespace and trims to four characters (SentinelPadded gives the converse) |
| Graph.SentinelPadded | src/components/Builder.jsx:86-89 | any capitalisation of "test" with any surrounding whitespace is the reserved sentinel label |
| Codec.Encode | src/components/Builder.jsx:165-168 | the save payload has one record per node and per edge in list order; node records keep id, tag, position and data; edge records keep id and endpoints and turn an empty label into "+" |
| Codec.DecodeNode | src/components/Builder.jsx:182-191 | a loaded node has the decimal id, tag `node_type`, position (x, y), the stored content, and the stored label or, when that is empty, "<node_type> <id>" |
| Codec.DecodeNodes | src/components/Builder.jsx:182-191 | one node per loaded record, in record order, with the record's id printed in decimal and its `node_type` as tag |
| Codec.DecodeEdges | src/components/Builder.jsx:192-197 | one edge per connection, in order; edge i has id "edge-i" and the connection's endpoints printed in decimal |
| Codec.DecodeConnection | src/components/Builder.jsx:192-197 | connection i becomes edge "edge-i" between the decimal endpoints, labelled with its condition or "+" when that is empty |
| Codec.DecodedEdgesWellFormed | src/components/Builder.jsx:192-197 | loaded edges have pairwise distinct ids and no empty label |
| Codec.MaxWith | src/components/Builder.jsx:200 | `Math.max(floor, ...vs)` is at least the floor and every value, and is the floor or one of the values |
| Codec.ReseedCounter | src/components/Builder.jsx:200 | the reseeded counter is at least 1000 and no node id exceeds it |
| Codec.DecodedIdsNumeric | src/components/Builder.jsx:183 | every loaded id string parses back to the stored numeric id |
| LoadExamples.LoadSetsCounterToLargestId | src/components/Builder.jsx:200 | loading ids 1000 and 1200 sets the counter to exactly 1200, whatever it was before |
| Codec.LoadedCounter | src/components/Builder.jsx:198-200 | after a load the counter is at least 1000 and at least every loaded id, and is 1000 or one of the loaded ids |
| Persistence.SaveThenLoad | src/components/Builder.jsx:165-197 | assuming the server stores each saved field under its load-side name: labelled nodes come back unchanged, unlabelled ones come back labelled "<type> <id>", and edges come back renumbered "edge-i" with "+" for an empty label |
| Persistence.SaveThenLoadLabelled | src/components/Builder.jsx:165-197 | under that assumption, with every node and edge labelled, save then load changes nothing but the edge ids |
| Builder.Editor.constructor | src/components/Builder.jsx:17-24 | the editor starts with no nodes, no edges, an empty buffer and the counter at 1 |
| Builder.FirstGeneratedId | src/components/Builder.jsx:17-18 | with the counter starting at 1 and pre-incremented, the first generated id is "2" |
| Builder.Editor.GenId | src/components/Builder.jsx:17-18 | the counter advances by one and the new id is its decimal form, which no existing node has |
| Builder.Editor.AddNode | src/components/Builder.jsx:64-84 | exactly one node is appended after the unchanged old nodes; it has a fresh id, label "<t> <id>", tag t, the given position and the default content; edges and buffer are unchanged; distinct ids stay distinct |
| Builder.Editor.OnConnect | src/components/Builder.jsx:51-62 | exactly one edge, labelled "+", is appended between the given endpoints |
| Builder.Editor.OnNodeClick | src/components/Builder.jsx:86-97 | a sentinel-labelled node opens the chat and leaves both slots untouched; any other node becomes both the working copy and the snapshot |
| Builder.Editor.OnNodeDoubleClick | src/components/Builder.jsx:99-110 | without confirmation nothing changes; with it the node and every edge touching it are removed, both slots are emptied iff they held that node, and distinct ids and closed edges are preserved |
| Builder.Editor.UpdateSelected | src/components/Builder.jsx:112-118 | with no selection nothing changes; otherwise only the named field of the working copy changes, and the node list is untouched |
| Builder.Editor.SaveNodeChanges | src/components/Builder.jsx:120-136 | with no selection the node list is unchanged; otherwise the working copy is committed by id; both slots end empty |
| Builder.Editor.CancelNodeChanges | src/components/Builder.jsx:138-149 | both slots end empty and the node and edge lists are untouched |
| Builder.Editor.OnEdgeDoubleClick | src/components/Builder.jsx:151-160 | a cancelled prompt changes nothing, "-" removes only that edge, and any other answer relabels only that edge |
| Builder.Editor.SaveGraph | src/components/Builder.jsx:162-168 | the posted payload is the encoding of the current lists, and every edge label goes out unchanged |
| Builder.Editor.LoadGraph | src/components/Builder.jsx:178-210 | a failed load changes nothing; a successful one replaces both lists with the decoded payload, empties the buffer, and sets the counter to `max(1000, loaded ids)`: at least 1000 and every loaded id, and equal to 1000 or to one of them |
| Chat.BotEntries | src/components/TestModal.jsx:55-68 | the kept lines are exactly the bot lines of the response |
| Chat.BotEntriesSnoc | src/components/TestModal.jsx:56-66 | one more response line extends the bot lines by itself iff it is a bot line, so the response order is kept |
| Chat.AllBotKept | src/components/TestModal.jsx:55-68 | a response made only of bot lines is appended whole |
| Chat.CanSend | src/components/TestModal.jsx:71 | a turn may start iff no turn is running and the message is not all whitespace |
| Chat.TestSession.constructor | src/components/TestModal.jsx:6-9 | the session starts with an empty message and transcript, not running, with no position token |
| Chat.TestSession.SetMessage | src/components/TestModal.jsx:172 | typing sets the message |
| Chat.TestSession.BeginGreeting | src/components/TestModal.jsx:22-27 | the first request is in flight and carries no input and a null position |
| Chat.TestSession.FinishGreeting | src/components/TestModal.jsx:29-46 | an answer replaces the transcript with all of its lines, bot or not, and sets the token; a failure shows only the welcome line and keeps the token; running ends false |
| Chat.TestSession.FetchGreeting | src/components/TestModal.jsx:21-47 | the whole first load: a null-position, empty-input request, then the outcome of FinishGreeting |
| Chat.TestSession.BeginSend | src/components/TestModal.jsx:70-81 | when the guard fails nothing changes and nothing is sent; otherwise the input box is cleared, a turn is in flight, and the request carries the message and the current token unchanged |
| Chat.TestSession.AddBotMessages | src/components/TestModal.jsx:55-68 | the transcript grows by exactly the bot lines of the response, in response order |
| Chat.TestSession.FinishSend | src/components/TestModal.jsx:83-109 | an answer appends the user's line and then the answer's bot lines, and moves the token; a failure appends only the fallback line and keeps the token; running ends false |
| Chat.TestSession.SendMessage | src/components/TestModal.jsx:70-110 | a blocked send changes nothing; a sent turn clears the input, echoes the previous token, and ends with the transcript and token of FinishSend and not running |

## Left out

- The execution engine that walks the flow runs on the server. It is not part of this model. Its answer to each run request is a `RunResponse` parameter.
- The server-side translation between the save shape and the load shape is not part of this model. `Persistence` states save-then-load only under the explicit predicates `StoredAs` and `ConnectedAs`.
- Rendering is left out because it is presentation only: JSX, styles, resize handling, sidebar and inspector toggling, the rich-text widget, scrolling, and timestamps.
- The `loading` flag, alerts, console output and navigation are left out. Opening the chat page is reported by `OnNodeClick` as a returned `bool`.
- The pacing delays are not modelled: the 100 ms timeout in cancel and the 2 s delay between bot lines. Only their net effects are modelled.
- The canvas library's own handlers for drags and selection changes are not modelled.
- `addEdge` assigns edge ids and may skip duplicates. The model takes the edge id as a parameter and always appends.
- React's batching and stale closures are not modelled. Handlers run one at a time to completion.
- The module-level `idCounter` is shared by every editor on the page. It is modelled as a field of the one `Editor`.
- Node ids that are not decimal strings are not modelled. `Number` is modelled only on digit strings, so `ParseDecimal` gives no value where JavaScript gives `NaN`. Ids beyond 2^53 are not modelled, because JavaScript numbers lose precision there and Dafny's integers do not.
- Record ids, `from_node` and `to_node` are modelled as non-negative integers.
- Text.Lower: lower-cases ASCII letters only. This does not change the comparison with "test", because no non-ASCII character lower-cases to t, e or s.
- Graph.DefaultContent: keys inherited from `Object.prototype` (a tag such as "toString") are not modelled. In JavaScript such a tag would pick up a function value instead of "".
- A run response whose `transcript` is missing, or holds a `null` or `undefined` line, is not modelled. In the source that throws (at the loop, or at `msg.from`) after the user's line has been appended. A string or number line has no `from` of "bot" and is skipped, as `BotEntries` skips any non-bot line.
- Absent or `null` label, content and condition fields are modelled as the empty string, which the source treats the same way.
- The canvas `type: 'default'` field of every node is not modelled, and neither are the edge style and marker fields.
