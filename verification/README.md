# A Dafny model of the A2UI state server

The repository is an in-memory UI state server. An agent sends tree mutations over a sequenced
session; a daemon owns the document and a runtime projection of it (focus, input values, table
selections, key bindings); one terminal client at a time holds a lease, receives snapshots, and
acknowledges the frames it has shown. Acknowledged commits go back to the agent as events.

The model follows the program from the bottom up.

- **Document.** `Forests` holds ordered trees, `Protocol` the operations, limits and property
  schemas, `Documents` the node map and what it means for it to be valid, declaratively: the map
  encodes one rooted tree. `Validator` is the recursive validator, proved to decide exactly that.
  `Reducer` states the operations on trees, `Candidates` runs the reducer's code in place on a copy
  and is proved against it. `TreeSteps` and `Preservation` show that no helper can break the tree;
  `DocumentLaws`, `RemovalLaws` and `UpsertLaws` hold the theorems over single operations and runs,
  `OperationLaws` says what each accepted operation leaves field by field, `LimitLaws` and
  `RelocationLimits` when the limits allow it, `RelocationLaws` what moves can do, up to the engine.
- **Runtime.** `Focus`, `Bindings` and `Selections` are the three derived views, `Projections` the
  reconciliation as a function, `States` the object that does it, `ProjectionLaws` the agreement of
  projection and document along all operations. `Broker` is the bounded event queue, `BrokerLaws` its
  order.
- **Engine.** `Engines` is the engine as a state machine whose steps are its critical sections,
  `EngineMethods` the object, `EngineLaws` the publication barrier, `FocusLaws` the fate of the focus,
  `RuntimeLaws` what a renderer sees after every call, `Commits` the ledger of commits.
- **Session and daemon.** `Sessions` and `Agents` are the agent's end, with theorems over every
  envelope stream there and in `AgentLaws`. `Leases`, `Daemons` and `DaemonLaws` model the client
  handlers, the lease, the one-slot update channel and the agent's call as interleaved moves; a move
  is one region under a lock, one channel operation or one message written. `ServiceLaws` follows one
  operation, one interaction and one acknowledgement through it. `Clients` is the client's snapshot cache.
- **Terminal.** `Flex` allocates rows, `TableLayouts` plans tables, `Sanitizer` and `SanitizerLaws` clean
  text (sections 3 and 4 of RFC 3629, section 5.4 of ECMA-48). `Sums` and `Totals` are sums over sets
  and sequences, `Sequences` the laws of concatenation.

Where code changes state in place, a class or a loop does so here, and its contract ties the result
to a function; the theorems are about these functions. Strings stand for their byte sequences,
integers are unbounded, and the start document is assumed to fit the configured document size.

In one place the code breaks its documentation, and in two it may surprise. The model follows the code
in all three:

- Section 8 of `references/PROTOCOL.md` says that `props` works for containers as well as leaf widgets.
  A patch of `root` that sets a property panics, because the new document has no marker map for `root`
  (`document/document.go:37`, `document/reducer.go:235-237`). `DocumentLaws.CrashExactly` says that this
  is the only case.
- The expected number is accepted before the payload is decoded (`daemon/agent.go:39-55`). An envelope
  whose payload does not decode, or whose operation names another number, therefore uses up its number
  although nothing reaches the engine; this agrees with section 6 of `references/PROTOCOL.md`, which asks
  only for acceptance. `Agents.NumberLost` shows it, `Agents.ContiguousExactly` and `Agents.SenderStream`
  say when it does not happen.
- A table planned for a width of zero or less is in full mode whatever it needs
  (`adapter/bubbletea/table_layout.go:63-65`), the exception in `TableLayouts.WideningHelps`; no document
  speaks of it.

## Model

| member | source | states |
|---|---|---|
| Validator.ValidateInvariants | document/invariants.go:8-105 | on every node map, cyclic and dangling ones included: returns nil exactly when the document is one rooted tree with agreeing links, a true text total and all limits respected; a well-formed document is only ever refused with a `resource.*` code |
| Validator.Walker.Walk | document/invariants.go:20-67 | the recursive walk with its `seen` and `visited` sets ends on every map, marks exactly the tree below a node, and succeeds exactly when that tree respects depth and child limits |
| Validator.CountBytes | document/invariants.go:68-105 | the two byte accounts, whatever order the maps are visited in, are the declarative sums |
| Documents.EncodesUnique | document/invariants.go:20-67 | the stored links determine the tree: no node map encodes two |
| Candidates.RemoveChild | document/reducer.go:72-80 | takes every occurrence of one ID out of a child list and keeps the rest in order |
| Candidates.InsertShifting | document/reducer.go:82-91 | inserts at the index, or appends when the index is absent or outside the list |
| Candidates.Candidate.WouldCreateCycle | document/reducer.go:93-105 | climbing the parent links answers whether the target lies in the subtree of the moved node |
| Candidates.Candidate.Relocate | document/reducer.go:119-154 | parent, cycle and container checks in this order, then both child lists as one move |
| Candidates.Candidate.Overwrite | document/reducer.go:156-181 | type, text, props and explicit markers of a stored node, with the text account and the change flag |
| Candidates.Candidate.UpsertStored | document/reducer.go:117-181 | an upsert of an existing node does what the relocation and replacement rules say, error cases included |
| Candidates.Candidate.UpsertNew | document/reducer.go:184-200 | an upsert of a new ID hangs a leaf under its container at its place |
| Candidates.Candidate.ApplyProps | document/reducer.go:224-249 | shallow merge, explicit markers and table limits; the marker write on a nil map is a crash |
| Candidates.Candidate.ApplyText | document/reducer.go:251-273 | append within both text limits, on text and viewport nodes only |
| Candidates.Candidate.Sweep | document/reducer.go:286-300 | the recursive deletion takes exactly the subtree, lists it children first, and takes its text off the total |
| Candidates.Candidate.ApplyRemove | document/reducer.go:275-304 | removal cuts the ID out of its parent's list and sweeps the subtree |
| Candidates.Apply | document/reducer.go:11-52 | one transaction: validate, work on a copy, validate the result; whatever is refused or crashes returns the document unchanged |
| Preservation.DraftIntact | document/reducer.go:107-304 | from an intact document every helper that returns no error leaves a rooted tree with true accounting and bounded nodes, so the validator can only report `resource.*` codes on it; an unchanged candidate is the document itself |
| DocumentLaws.ApplySound | document/reducer.go:11-52 | soundness is kept, and the revision advances by one exactly on each real change |
| DocumentLaws.ReachableSound | document/reducer.go:11-52 | every document any sequence of operations reaches from the new one is a rooted tree within the limits, with per-node text and table bounds the validator does not check |
| DocumentLaws.CrashExactly | document/reducer.go:233-240 | the reducer panics on a sound document if and only if the operation is an acceptable `props` patch of `root` that sets at least one property |
| DocumentLaws.RootPatchCrashes | document/document.go:35-57 | the concrete input: `{"gap":2}` for `root` on the very first document |
| RemovalLaws.RemoveExactly | document/reducer.go:275-304 | removing an existing node other than `root` always succeeds, validation included; the removed list is the subtree without repeats, children before parents; every other node is unchanged but for one ID in the parent's list; the text total drops by the subtree's text; the revision advances |
| OperationLaws.NewNodeStands | document/reducer.go:184-200 | an accepted upsert of a new node leaves a leaf with its type, the sent properties and the schema's default for each other one, markers for exactly the sent ones; in its container's list it stands at the asked index, or last when there is none or it is outside the list; the container's other fields and every other node are unchanged |
| OperationLaws.StoredNodeStands | document/reducer.go:107-183 | an accepted upsert of a stored node replaces type and properties in the same way, keeps its children, and its text if the type stays; asked to move, it stands under the asked parent at the asked index of the other children, or last; nothing else changes but the two child lists |
| OperationLaws.PatchTakesEffect | document/reducer.go:224-249 | after an accepted patch each sent property has the sent value and each other one its old value, the markers are the old ones and those of the sent properties, and nothing else in the document changes |
| OperationLaws.TextExactly | document/reducer.go:251-273 | text is accepted if and only if the node exists, is a text or viewport node, and has room in its own limit, in the text total and in the document's bytes; it is then appended and nothing else changes; empty text is always accepted there and changes nothing |
| OperationLaws.MarkersTellAlways | document/reducer.go:54-70 | in every document any sequence of operations reaches: a node's properties are the schema's and the marked ones, marked ones are allowed by the schema, all others have the schema's default, and `root` has its defaults for ever |
| OperationLaws.RefusalsNamed | document/reducer.go:107-304 | each structural refusal code is returned if and only if its one reason holds: unknown node, root, unknown parent, parent inside the moved subtree, text on a node that takes none |
| OperationLaws.AcceptedWellFormed | protocol/validate.go:8-59 | whatever the transaction accepts has the version, a non-negative number, an identifier unless it is a commit, and sizes within the message limits |
| LimitLaws.CreationAccepted | document/reducer.go:11-52 | a valid upsert of a new node under a container, within the table limits, is accepted if and only if one more node, one more level below its container, one more child there, and the node's bytes with its identifier stored twice are within the limits; otherwise it is refused with a `resource.*` code |
| LimitLaws.PatchAccepted | document/reducer.go:11-52 | a valid patch is accepted if and only if the schema takes it, the table limits allow it and the changed node's bytes fit the document; one that changes nothing is accepted without being validated |
| RelocationLaws.RelocationAccepted | document/reducer.go:11-154 | an acceptable same-type, same-content upsert of a sound document is refused by the transaction exactly when a move is asked for and the target is not an existing container outside the moved subtree; otherwise it is nothing but the move, one revision later if that changes anything; a reordering under the same parent can break no limit, and a move to another parent is refused for limits exactly when that parent has no room |
| RelocationLimits.MoveLimits | document/invariants.go:17-105 | a move within one parent keeps every limit; a move to another parent keeps them exactly when the new depth of the subtree, the number of the new parent's children and the bytes, changed by the difference of the two parents' names, are within theirs: node count and text cannot matter |
| RelocationLimits.MovedBytes | document/invariants.go:68-90 | a move changes the bytes of the document by exactly the difference in length of the two parents' identifiers |
| RelocationLaws.RelocationReversed | document/reducer.go:11-154 | an accepted relocation is reversed by the upsert to the old parent and place, which is always accepted and restores every node and the text total, two revisions later if the first one changed anything |
| RelocationLaws.SubtreeMoved | document/reducer.go:117-154 | the subtree of a moved node moves with it, node for node |
| UpsertLaws.MoveFrame | document/reducer.go:72-155 | a move changes only the moved node's parent field and the two child lists; all other siblings keep their order |
| UpsertLaws.UpsertIdempotent | document/reducer.go:107-201 | an accepted upsert applied again reports no change and keeps document and revision |
| UpsertLaws.CreateThenRemove | document/reducer.go:184-200 | creating a fresh node and removing it restores every node, every sibling order and the text total, two revisions later |
| Focus.FocusOrderIs | runtime/state.go:64-69 | the traversal lists exactly the focusable nodes, each once |
| Focus.FocusOrderIsPreorder | runtime/state.go:186-203 | and in the tree's preorder: a node before all that is below it, and all of an earlier child's subtree before all of a later one's |
| Focus.FocusableIDs | runtime/state.go:186-203 | the walk returns the focusable nodes in tree preorder |
| Focus.FirstFocusable | runtime/state.go:168-184 | the recursive search finds the head of that list, or nothing |
| Bindings.BindKeys | runtime/bindings.go:18-48 | the walk computes the preorder fold of the declared items, or the code of the first conflict |
| Bindings.BindingsMeaning | runtime/bindings.go:18-48 | it succeeds exactly when all items decode and no two share a key anywhere in the tree, and then yields their union |
| Bindings.BindingsFollowContent | runtime/bindings.go:18-48 | trees with the same nodes and items bind alike whatever their shape: a move can neither cause a conflict nor change a binding |
| Selections.Reselect | runtime/table_selection.go:54-75 | a selectable table with rows, and nothing else, holds a selection, and it fits the table: index in range, row ID equal to that row's |
| Selections.SelectionFollowsRow | runtime/table_selection.go:54-75 | a selection known by row ID follows its row to the new index; otherwise it keeps its index, clamped |
| Selections.FittingSelectionStays | runtime/table_selection.go:54-75 | on a table with unique row IDs a fitting selection is a fixed point |
| States.ReconcileSelection | runtime/table_selection.go:54-75 | the search loop finds the remembered row or falls back to the clamped index |
| States.RuntimeState.ReconcileTableSelections | runtime/table_selection.go:77-96 | both loops, in any map order, give every table its reconciled selection and drop the rest |
| States.RuntimeState.Reconcile | runtime/state.go:70-137 | reconciliation on a copy: input values, focus, selections, bindings and counters; an error leaves the state as it was |
| States.RuntimeState.SetLocalFocus | runtime/state.go:139-153 | only an existing focusable node takes the focus; only a change counts as a redraw |
| States.RuntimeState.SetInputValue | runtime/state.go:155-162 | stores the value and counts a redraw only when it changed |
| States.RuntimeState.SetTableSelection | runtime/table_selection.go:105-131 | selects the clamped row of a selectable table |
| States.RuntimeState.MoveTableSelection | runtime/table_selection.go:133-153 | moves the selection by a delta, clamped |
| States.RuntimeState.Publish | runtime/publication.go:9-16 | raises the two published counters |
| Projections.ReconcileConsistent | runtime/state.go:70-137 | after reconciliation the projection agrees with the next document: input keys are exactly the input nodes, selections fit exactly the selectable non-empty tables, bindings are the fold, focus is empty or focusable, dirty revision is the document's, published <= publication <= render generation |
| ProjectionLaws.ApplyTracked | document/reducer.go:11-52 | every accepted operation accounts in its effect for each node that vanishes or changes type: what reconciliation relies on |
| Broker.EventBroker.Enqueue | runtime/events.go:47-76 | the three classes under one capacity, with coalescing and lossy telemetry |
| Broker.EventBroker.EnqueueCriticalBatch | runtime/events.go:81-94 | all events of a batch or none |
| Broker.EventBroker.NextEvent | runtime/events.go:103-128 | critical events first, then the oldest coalesced one whatever the map order, then telemetry; delivery numbers are consecutive |
| Broker.BrokerRuns | runtime/events.go:37-128 | over every run of calls: the capacity is never exceeded, accepted critical events are those delivered followed by those queued, in order, and delivered numbers are 1, 2, 3, ...; every accepted coalescible event is still queued, or the next thing that happened to its key is that a later one replaced it, or that it was delivered, once; and every one delivered or queued was accepted, with nothing in between |
| BrokerLaws.OldestGoesFirst | runtime/events.go:103-128 | over every run a coalescible event is handed out only when no waiting one was offered before it |
| BrokerLaws.TelemetryInTurn | runtime/events.go:66-128 | over every run telemetry is delivered in the order it came, each at most once; what is neither delivered nor queued was dropped by newer telemetry in a full broker, oldest first |
| BrokerLaws.RefusedExactly | runtime/events.go:47-76 | a critical event is refused exactly when the broker is full, a coalescible one when it is full and nothing waits under its key, telemetry never; what is refused changes nothing |
| EngineMethods.Engine.constructor | engine/engine.go:43-59 | effective limits, clamped event capacity, and room for no more pending commits than events |
| EngineMethods.Engine.Apply | engine/engine.go:119-141 | one operation: reducer, commit limit, reconciliation, pending commit and token, with errors reported as events |
| EngineMethods.Engine.Publish | engine/engine.go:163-190 | all pending commits are acknowledged together with the shown revision, or nothing changes |
| EngineMethods.Engine.PublishGeneration | engine/engine.go:195-205 | only the current token publishes |
| EngineMethods.Engine.PresentationSnapshot | engine/engine.go:83-109 | the snapshot is the state at one instant |
| EngineMethods.Engine.SetInput | engine/engine.go:209-221 | input values are set on input nodes only |
| EngineMethods.Engine.ActivateTableSelection | engine/engine.go:241-264 | reports the selected row of a selectable table |
| EngineMethods.Engine.Submit | engine/engine.go:266-280 | reports the value of an input |
| EngineMethods.Engine.HandleKey | engine/engine.go:301-315 | the outcome of a bound action becomes a critical event; other keys do nothing |
| Engines.PublishExactly | engine/engine.go:163-181 | publication is refused exactly when pending commits do not fit the queue, and then nothing changes; otherwise one `committed` event per pending commit, in order, naming the document's revision |
| EngineLaws.ReachableOk | engine/engine.go:43-205 | in every state any sequence of calls reaches: a sound document, an agreeing projection, a bounded queue, pending commits within the capacity, and a non-zero token whenever something waits to be shown |
| RelocationLaws.RelocationKeepsProjection | engine/engine.go:119-141 | in the engine an accepted relocation is never refused by reconciliation or backpressure, and keeps focus, selections, bindings and input values, but for the moved input itself where the operation forces its default |
| FocusLaws.FocusAfter | runtime/state.go:70-137 | in a reachable engine, after every accepted operation but `focus`, text and commit included: the focus stays where its node survives with its type and can still hold it, otherwise it is the first focusable node of the new document in tree preorder, or empty; it never appears from nothing |
| RuntimeLaws.InputsAfter | runtime/state.go:70-99 | after every accepted operation an input that is new, was no input before, or is the target of a forcing operation shows the value its properties give; every other input keeps what it showed |
| RuntimeLaws.SelectionsAfter | runtime/table_selection.go:54-96 | after every accepted operation each selectable table with rows has one selected: the remembered row wherever it went, else the nearest place to the old one, or the first row of a table that had none |
| RuntimeLaws.CountersAfter | engine/engine.go:119-141 | an accepted operation takes one new token exactly when something drawn changed or it is a commit, asks for a redraw exactly when something drawn changed, and queues exactly its own commit |
| RuntimeLaws.FocusOperation | runtime/state.go:101-111 | a valid `focus` is accepted exactly on a node that can hold the focus, which then has it |
| RuntimeLaws.CommitExactly | engine/engine.go:119-141 | a valid commit is accepted exactly when fewer than the allowed number wait, and changes nothing that is drawn |
| RuntimeLaws.TypedThenSubmitted | engine/engine.go:209-280 | typing is accepted exactly on inputs, changes exactly that value in what is presented, counts a redraw for a new value only, and a submission then sends the agent this value, unless the queue is full |
| RuntimeLaws.FocusedThenPresented | runtime/state.go:139-153 | local focus is accepted exactly on a node that can hold it, and is what is presented then |
| RuntimeLaws.SelectedThenPresented | runtime/table_selection.go:105-131 | selecting is accepted exactly on selectable tables, and the asked row, or the nearest one, is presented as selected, under its own identifier |
| RuntimeLaws.MovedByDelta | runtime/table_selection.go:133-153 | moving selects the row that many places on, or the last one on the way |
| RuntimeLaws.ConfiguredLimits | engine/engine.go:43-59 | every positive configured limit is in force, every other one has its default; commits in waiting are bounded by their limit and by the event capacity, whichever is less |
| EngineLaws.ActivationNamesRow | engine/engine.go:241-264 | activation raises an event exactly on a selectable table with rows; it names the selected row, which exists, by that row's identifier where rows have one, and the table's action |
| EngineLaws.SubmissionNamesValue | engine/engine.go:266-280 | submission raises an event exactly on an input, with the value stored for it and the input's action |
| EngineLaws.BoundKeyIsDeclared | engine/engine.go:301-315 | a bound key is declared, in the current document, by an item of the node the binding names, with the binding's key, label, action and arguments |
| EngineLaws.RefusedOnlyReported | engine/engine.go:111-141 | an operation that is not accepted leaves document, projection, pending commits and token alone; the queue gets one error event with its code and number, or nothing when it is full |
| EngineLaws.PublicationBarrier | engine/engine.go:83-205 | if a snapshot carried token g and a later `PublishGeneration(g)` returns true, then document, bindings and pending commits are those of the snapshot, exactly these commits are acknowledged, and each acknowledgement names the shown revision |
| EngineLaws.TokenShownOnce | engine/engine.go:195-205 | no token is published twice, whatever happens in between |
| EngineLaws.DrainedPublishes | engine/engine.go:163-181 | handing out the queued events always makes publication succeed |
| Commits.CommitsConserved | engine/engine.go:119-181 | over every run: the acknowledgements handed out, then those queued, answer the accepted commits one by one and in order, with a revision not older than at acceptance; the commits left over are the pending ones |
| Sessions.Session.Negotiate | session/session.go:36-67 | the hello is accepted once, with unique positive versions including the supported one and unique features |
| Sessions.HelloAccepted | session/session.go:36-67 | a hello is accepted if and only if the session is fresh and versions and features are as they must be; it is then ready, and any other hello changes nothing |
| Sessions.AgreedFeatures | session/session.go:54-66 | the agreed features are those both sides know, each once, in ascending order |
| Sessions.Session.AcceptMutation | session/session.go:69-90 | expected numbers advance, older ones are duplicates, zero and gaps close the session |
| Sessions.Session.Drain | session/session.go:92-96 | only a ready session starts draining |
| Sessions.Session.Close | session/session.go:97-97 | closing is unconditional |
| Agents.Agent.HandleEnvelope | daemon/agent.go:14-64 | sequencing, decoding, application and the update signal, branch by branch |
| AgentLaws.SlotFills | daemon/agent.go:38-57 | over every envelope stream the update slot fills if and only if the engine accepts some operation of it; while it stays empty, what a renderer would draw is unchanged |
| AgentLaws.AnswerTells | daemon/agent.go:38-57 | the answer to an operation envelope is empty if and only if the operation was accepted or is a repetition; what the engine refuses is answered with the engine's code |
| AgentLaws.OthersAnswered | daemon/agent.go:18-36 | a hello is welcomed exactly when it is addressed to this session, decodes, and is acceptable to the fresh session; other messages change nothing, and only telemetry is answered with nothing |
| Agents.Agent.DrainEvents | daemon/agent.go:68-77 | hands out everything queued, in order, with consecutive numbers, and leaves the queue empty |
| Agents.StreamOrder | daemon/agent.go:14-64 | for every envelope stream the admitted numbers are 1, 2, 3, ... without a gap, exactly the admitted envelopes that carry an operation reach the engine, in order, and the engine is what taking these once each makes of the new one |
| Agents.ContiguousExactly | daemon/agent.go:38-57 | the numbers that reach the engine, which is the replay of exactly these, are all those admitted, 1, 2, 3, ... without a gap, if and only if every admitted envelope carries a well-formed operation with the envelope's own number |
| Agents.SenderStream | daemon/agent.go:14-64 | after an accepted hello, operation envelopes numbered 1, 2, ..., n are all admitted, and they reach the engine as 1, 2, ..., n if and only if each of them carries an operation with its own number; the engine is the replay of those that do |
| Agents.NumberLost | daemon/agent.go:38-57 | the concrete input: after a hello, an undecodable envelope 1 and a good envelope 2, both numbers are used up, only 2 reaches the engine, and the engine is what that one operation makes of the new one |
| Agents.DuplicatesHarmless | session/session.go:69-90 | any number of envelopes with admitted numbers sent again, anywhere later in the stream and with whatever content, leave session, engine, update slot and log as the clean stream does |
| Agents.RetransmissionHarmless | session/session.go:69-90 | a sender that numbers its operations 1, 2, ..., n and sends any of them again, as often and as late as it likes, gets the state and the log of the clean stream |
| Agents.GapIsFinal | session/session.go:69-90 | after a gap or a zero number no operation ever reaches the engine again |
| Leases.ClientLease.Acquire | daemon/lease.go:16-25 | one owner at a time, a fresh identifier each time |
| Leases.ClientLease.Release | daemon/lease.go:27-35 | only the owner's identifier releases the lease |
| Leases.ActiveConn.Clear | daemon/daemon.go:100-106 | a handler forgets only its own connection |
| DaemonLaws.ReachableDaemonOk | daemon/server.go:60-182 | the invariant of all interleavings of the agent and any number of handlers, of any length |
| DaemonLaws.OneClient | daemon/server.go:60-172 | at most one handler holds the lease; it is the one the lease names, and the recorded connection is its own or none |
| DaemonLaws.LeaseFresh | daemon/lease.go:16-25 | a granted identifier was never granted before; a busy lease turns the handler away |
| DaemonLaws.StrangerHarmless | daemon/server.go:60-172 | no other handler can touch the engine, the update slot, the lease in use, the recorded connection or the holder |
| DaemonLaws.OnlyHolderActs | daemon/server.go:122-170 | snapshots, interactions, acknowledgements and detaches come only from the holder of the lease |
| DaemonLaws.LeaseReturns | daemon/server.go:60-172 | from every state with a taken lease at most four moves of the handler that has it, and of nobody else, free the lease |
| DaemonLaws.NoLostUpdate | daemon/server.go:91-172 | whenever the holder waits with an empty update slot and no agent call is between apply and signal, the last snapshot it wrote shows the current document, token and all else but the pending flag, across detach, failed writes and reattach |
| DaemonLaws.AcknowledgedAsShown | daemon/publication.go:5-24 | in every interleaving, when the token of a sent snapshot is acknowledged successfully, however long after the status read, the document, bindings and emitted revision are those of that snapshot |
| DaemonLaws.ClientFollows | ipc/client.go:136-144 | on the ordered stream the client's cache is always the last snapshot received |
| DaemonLaws.QuietClientIsCurrent | daemon/server.go:91-172 | end to end: once things are quiet, the client shows the current document, and acknowledging it is never stale |
| ServiceLaws.OperationReachesScreen | daemon/server.go:104-172 | from any reachable state: after the agent's call and signal, the waiting handler takes the signal and a snapshot and writes exactly what the engine presents with the operation applied |
| ServiceLaws.InteractionReachesScreen | daemon/server.go:150-158 | an interaction the engine accepts changes it, and the handler writes what it then presents; a refused one changes nothing |
| ServiceLaws.AcknowledgementPublishes | daemon/publication.go:5-24 | acknowledging the current token publishes what waits, one `committed` event for each commit, when these fit the queue; any other token changes nothing |
| Clients.Client.AcceptSnapshot | ipc/client.go:136-144 | a snapshot older than the cached one is dropped, any other replaces it |
| Clients.CachedIsNewest | ipc/client.go:136-144 | for any stream the cache holds the last snapshot of the highest generation received |
| Flex.AllocateRow | layout/flex.go:16-158 | `fits` is true exactly when minimums plus gaps fit; a row that does not fit gets its minimums; an oversized one is shrunk in the closed form to exactly the content width; otherwise spare width is grown into |
| Flex.Shrink | layout/flex.go:58-74 | round-robin shrinking ends, at exactly the content width, with k or k + 1 cells off each child, stopped at its minimum, the extra cell off a left prefix |
| Flex.ShrinkUnique | layout/flex.go:58-74 | the total decides the closed form, so it describes one result only |
| Flex.Deal | layout/flex.go:115-142 | the leftover loop hands out cells one by one to the best child that has had none |
| Flex.GrowPass | layout/flex.go:85-142 | one proportional pass as shares and dealt leftovers |
| Flex.Grow | layout/flex.go:84-155 | the repeated passes end and give the grown widths |
| Flex.GrantsAre | layout/flex.go:85-142 | one pass, for any maximums: at most one cell above the share, only where there is room, larger remainders and then lower indices first, and cells stay over only when every eligible child had one |
| Flex.GrownBounds | layout/flex.go:84-155 | growth respects maximums, touches only growing children, and leaves width over only when every growing child is at its maximum |
| Flex.QuotaGuaranteed | layout/flex.go:84-155 | with any maximums, each growing child gets at least the whole part of its quota of the spare width, or reaches its maximum |
| Flex.AllocationBounds | layout/flex.go:16-158 | a fitting allocation plus gaps never exceeds the available width, keeps maximums, keeps minimums unless a smaller maximum forbids it, and leaves width over only when every growing child is at its maximum |
| Flex.BasesHeld | layout/flex.go:30-82 | each child starts from the allowed width nearest to its basis: where these fit, a child that does not grow gets exactly its own and the others no less; where they do not, the row is filled exactly and no child loses more than one cell more than one still above its minimum |
| Flex.LargestRemainder | layout/flex.go:84-155 | without maximums growth is largest-remainder apportionment: one pass hands out everything, each child gets the floor of its quota or one more, one more only with a non-zero remainder, ties to the lower index |
| TableLayouts.Floor | adapter/bubbletea/table_layout.go:190-212 | a readable floor is at least three quarters of the preferred width and the title as far as that fits, and never more than the preferred width |
| TableLayouts.FloorIsLeast | adapter/bubbletea/table_layout.go:190-212 | and it is the least width with these properties |
| TableLayouts.ShrinkToFloors | adapter/bubbletea/table_layout.go:298-317 | taking cells off the widest column ends in the levelled closed form: one cap for all columns, one less for a left prefix, never below a floor |
| TableLayouts.LevelUnique | adapter/bubbletea/table_layout.go:298-317 | the total decides the levelled widths |
| TableLayouts.MasterColumnPrefix | adapter/bubbletea/table_layout.go:270-296 | the loop yields the longest column prefix that fits, but at least one column |
| TableLayouts.VisibleRowWindow | adapter/bubbletea/table_layout.go:142-171 | the branches compute the projection of the old offset |
| TableLayouts.PlanTableLayout | adapter/bubbletea/table_layout.go:54-102 | mode, widths, panes, visible columns and row window for every input |
| TableLayouts.ModeExactly | adapter/bubbletea/table_layout.go:54-96 | for a table with columns and a positive width: full mode if and only if the preferred widths fit, else compressed if and only if some widths from the floors up fit, else two panes if and only if the table is selectable with rows and at least four columns and some split is wide enough on both sides, else records |
| TableLayouts.PaneIsNearest | adapter/bubbletea/table_layout.go:256-268 | of all splits wide enough on both sides the master pane is nearest to two fifths of the width |
| TableLayouts.RowsFill | adapter/bubbletea/table_layout.go:104-140 | as many rows are shown as fit the height in the chosen mode, but at least one and never more than there are |
| TableLayouts.CompressedFills | adapter/bubbletea/table_layout.go:80-84 | compressed mode fills the width exactly, keeps every column between floor and preferred width, and no column above its floor is more than one wider than a shrunk one |
| TableLayouts.PanesFit | adapter/bubbletea/table_layout.go:86-93 | the panes and their separator fill the width, both are wide enough, and the master shows the longest fitting prefix, never empty and never all columns |
| TableLayouts.WideningHelps | adapter/bubbletea/table_layout.go:54-96 | widening never moves the mode away from full, if and only if the old width is positive, or the new one is not, or the new one has room for all preferred widths: a width of zero or less plans in full mode whatever the columns need |
| TableLayouts.WideningFromNothing | adapter/bubbletea/table_layout.go:63-65 | the concrete input: a one-column table widened from zero cells to one goes from full mode to records |
| TableLayouts.WindowIsNearest | adapter/bubbletea/table_layout.go:142-171 | the window shows the selection and is strictly nearer to the old offset than any other window that does |
| TableLayouts.WindowIsStable | adapter/bubbletea/table_layout.go:142-171 | so planning again does not move it |
| Sanitizer.SanitizeText | adapter/bubbletea/sanitize.go:11-180 | the loop ends on every byte string and computes the automaton's output |
| Sanitizer.SanitizedIsSafe | adapter/bubbletea/sanitize.go:7-180 | the output is valid UTF-8 without C0 controls but LF and TAB, without DEL, C1 and bidirectional overrides; the texts left as they are are exactly these, so sanitizing twice is sanitizing once |
| Sanitizer.SanitizedWithin | adapter/bubbletea/sanitize.go:35-178 | the output is a subsequence of the input with lone CR read as LF |
| SanitizerLaws.LineBreaksStay | adapter/bubbletea/sanitize.go:35-53 | behind safe text and before any other: CR LF, a lone CR and LF each become one line feed, a tab stays, and the rest is sanitized on its own |
| SanitizerLaws.CharacterVanishes | adapter/bubbletea/sanitize.go:62-101 | exactly one character vanishes for each other C0 control but ESC, DEL, an undecodable byte, a bidirectional override, and a C1 control that opens nothing |
| SanitizerLaws.SequenceVanishes | adapter/bubbletea/sanitize.go:76-178 | a control sequence or control string, opened with seven or eight bits and closed within its longest length, vanishes with its body and its terminator, and nothing else does |
| SanitizerLaws.LineFeedRescues | adapter/bubbletea/sanitize.go:129-160 | a line feed inside an open sequence ends it and stays |
| SanitizerLaws.OverlongGivenUp | adapter/bubbletea/sanitize.go:129-160 | a body that exceeds the longest length is given up at exactly that byte, and the text after it is sanitized on its own |
| SanitizerLaws.UnfinishedVanishes | adapter/bubbletea/sanitize.go:118-178 | what is still open at the end of the text vanishes, and the text before it stays |
| SanitizerLaws.ReopenedVanishes | adapter/bubbletea/sanitize.go:163-176 | ESC and a bracket inside a control string open another sequence whose length counts on, and the whole vanishes when that one is closed in time |
| SanitizerLaws.EscapePairVanishes | adapter/bubbletea/sanitize.go:106-123 | ESC before a byte that opens nothing vanishes together with that byte, even if it is a line feed |
| SanitizerLaws.EscapeStartsOver | adapter/bubbletea/sanitize.go:106-136 | an ESC inside a control sequence, or after another ESC, starts over |
| SanitizerLaws.DecodesExactly | adapter/bubbletea/sanitize.go:68-74 | the decoder is UTF-8: it finds a code point exactly when that is a scalar value whose encoding stands first |

## Left out

- JSON decoding, duplicate keys and record framing: payloads, properties and messages arrive decoded, and a failed decoding is an input.
- Protocol.ValidNormalized: does not tell `schema.invalid_props`, `schema.unknown_property` and `schema.invalid_color` apart, because the code returns whichever its map iteration meets first; error texts are not kept either.
- Engines.Step: takes the limit that the validator names as a parameter when a candidate exceeds several, because it depends on map order; that it is one of the `resource.*` codes is stated at `Candidates.Apply`.
- Broker.Event: keeps the fields the engine fills in, without message, arguments and invocation identifier.
- Candidates.Apply: is stated for intact documents, which are all that operations reach (`DocumentLaws.ReachableSound`); the code accepts any value.
- EngineMethods.Engine.HandleKey: reads the binding and queues the outcome in one step, where the code lets go of the lock in between; the runs of `Engines.Step` queue outcomes at any time, whatever is bound then.
- Document revision 0, the initial engine and the daemon: their theorems assume that the new document fits `MaxDocumentBytes`, which the constructor does not check.
- Daemons.Moved: handlers are a transition system rather than running methods, since methods here do not interleave; deadlines, sockets and goroutine scheduling appear only as moves that may fail or be delayed.
- The event channel and `WaitEvents`: they only decide when the agent drains its events.
- Action handlers and their timeouts: an outcome is an arbitrary result or error event.
- Flex.GrowPass: keeps remainders in one list with a negative mark for children that take no part, where the code lists the participating children.
- TableLayouts.Column: the display width of a sanitized title is a number, not computed from text.
- `SanitizeSingleLineText`, which replaces newlines and tabs by spaces afterwards.
- Box metrics and viewport heights (`layout/layout.go`): sizes less borders and padding, at least one.
- The renderer: turns snapshot and plan into styled terminal text, which is mostly string building by a styling library.
- Presets, themes and animation: fixed tables, and a timer that redraws while an input has the focus or a progress node is loading.
- The key router: maps terminal keys to the engine's interactions, and keeps caret and scroll offsets in the client.
- HTTP, MCP, UDP and command-line entry points, and the native actor.
