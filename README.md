# Workflow graph converter and builder state, in Dafny

This project models two parts of a browser-based workflow builder. The
builder edits graphs of nodes and connections and stores them in an
external automation engine (n8n).

- **The converter** (`src/utils/n8n-converter.ts`) translates between two
  graph formats. The builder's graph addresses nodes by id. The engine's
  workflow addresses them by name and groups connections under the source
  node's name. The model covers:
  - the two type tables and both lookups through them;
  - the node conversions in both directions;
  - export (`convertToN8nWorkflow`) and import (`convertFromN8nWorkflow`).

  Export and import are methods whose loops follow the source's `forEach`
  walks. Each method is proved equal to a declarative definition: export
  yields the grouping of resolved (source name, target name) pairs by
  source, and import yields the concatenation over entries, slots and
  targets. Lemmas about those definitions prove the round trip. When names
  are unique and non-empty and no connection dangles, `import(export(g))`
  keeps every node id and position. It also keeps the multiset of
  (source id, target id) pairs of the connections, with every handle
  reset to `output-0` / `input-0`. The non-empty condition is needed:
  import renames a nameless node, so its connections are lost (see
  "Left out").
- **The builder page state** (`src/pages/workflows/WorkflowBuilderPage.tsx`)
  is a class with the page's `nodes`, `connections` and `activeId` fields.
  It has one method per handler:
  - drag start;
  - drag end, which adds a palette node or moves a node, clamped to the canvas;
  - add node;
  - delete node, which cascades to connections.

  The methods are specified by functions of the old state. Lemmas prove
  what each handler promises and that no handler leaves a connection
  dangling. Further lemmas give the conditions under which node ids stay
  unique.

Modules:

- `Wrappers`, `Seqs` and `Strings` are generic helpers. They cover
  `find`/`filter`/`map`, `split`/`includes` on strings, and the decimal
  numerals that template literals print.
- `WorkflowBuilderTypes` and `N8nTypes` hold the two data models.
- `NodeTypeRegistry` holds the type tables.
- `N8nConverter` holds node conversion and export.
- `N8nImport` holds import.
- `ConverterRoundTrip` holds the export-then-import theorems.
- `WorkflowBuilderPage` holds the palette and the page state.

Two behaviours of the code are worth stating up front:

- A round trip does not keep a connection's ports. Export puts every
  connection into slot 0 with input index 0, so the imported handles are
  always `output-0` / `input-0`. This is
  `ConverterRoundTrip.ExportImportHandles`.
- Loading, saving and running the edited graph are no-ops or notifications
  in the page, so they are not modelled.

## Model

| member | source | states |
|---|---|---|
| NodeTypeRegistry.ToEngineType | src/utils/n8n-converter.ts:28 | the forward lookup is total: a known tag gets its table entry, any other tag the `set` type, and the result is always one of the table's engine types |
| NodeTypeRegistry.TablesAgree | src/utils/n8n-converter.ts:5-22 | each entry of the reverse table inverts an entry of the forward table, with a non-empty tag |
| NodeTypeRegistry.OwnEntryMatchesFirst | src/utils/n8n-converter.ts:45-47 | the first-match substring search stops at a key's own entry: no earlier suffix occurs in it |
| NodeTypeRegistry.ReverseOfEntry | src/utils/n8n-converter.ts:45-47 | the reverse lookup maps each engine type of the table to its own tag |
| NodeTypeRegistry.ReverseLookupBySuffix | src/utils/n8n-converter.ts:45-47 | the reverse lookup is by substring with the first entry winning: a base-package type containing the i-th suffix and no earlier entry's distinguishing letter maps to the i-th tag |
| NodeTypeRegistry.ToNodeTypeKnown | src/utils/n8n-converter.ts:45-47 | the reverse lookup always yields a tag of the forward table, `action` when nothing matches |
| NodeTypeRegistry.ToNodeType | src/utils/n8n-converter.ts:45-47 | the reverse lookup yields the tag of the first reverse-table entry whose key suffix occurs in the engine type, and `action` when no entry matches |
| NodeTypeRegistry.KeySuffix | src/utils/n8n-converter.ts:46 | computes `key.split('.')[1]`: the second dot-separated part of a table key, or the text `undefined` when the key has no dot (what `includes` receives for `undefined`) |
| NodeTypeRegistry.EntryMatches | src/utils/n8n-converter.ts:45-46 | computes the `find` predicate: a reverse-table entry matches when its key's second part occurs in the engine type |
| NodeTypeRegistry.TypeRoundTrip | src/utils/n8n-converter.ts:5-22 | forward then reverse lookup gives back every known tag, and `action` for any other tag |
| NodeTypeRegistry.EngineSuffix | src/utils/n8n-converter.ts:5-12 | every engine type export writes is `n8n-nodes-base.` followed by a non-empty name without dots |
| Strings.JoinSplit | src/utils/n8n-converter.ts:46 | `split` loses nothing: joining the parts with the separator gives back the string |
| Strings.SplitWithoutSep | src/utils/n8n-converter.ts:50 | a string without the separator splits into itself alone |
| Strings.LastSplitPart | src/utils/n8n-converter.ts:50 | the last part of `split` (what `pop()` returns) is whatever follows the last separator |
| Strings.SplitOnce | src/utils/n8n-converter.ts:50 | splitting `p.q`, where neither side has the separator, gives exactly `[p, q]` |
| Strings.NatToStringValue | src/utils/n8n-converter.ts:126 | the decimal numeral of a number reads back as that number, so different indices print differently |
| N8nConverter.ConvertToN8nNode | src/utils/n8n-converter.ts:27-38 | export keeps id, name and position as `[x, y]`, writes the forward-table engine type (a known one, the `set` type for unmapped tags), type version 1 and no webhook id, and writes the payload or `{}` |
| N8nConverter.ImportedName | src/utils/n8n-converter.ts:50 | the imported name is never empty; it is the engine name whenever that name is set, and for a nameless node whose type has no `.` it is the type itself, or `Node` when the type is empty too |
| N8nConverter.ImportedNameAfterLastDot | src/utils/n8n-converter.ts:50 | a nameless node whose type is `p.s` with no `.` in `s` is named `s`, or `Node` when `s` is empty, whatever `p` holds |
| N8nConverter.ConvertFromN8nNode | src/utils/n8n-converter.ts:43-62 | import keeps the id, takes the reverse-lookup tag (a known one), reads x and y from positions 0 and 1 of the array with 0 for a missing entry, takes the name through the `name || last type part || 'Node'` chain (never empty, the engine name when set), and writes the payload or `{}` |
| N8nConverter.Coordinate | src/utils/n8n-converter.ts:57-58 | a coordinate is the array entry at that position when the array is long enough, and 0 otherwise |
| N8nConverter.LastPartOfBaseType | src/utils/n8n-converter.ts:50 | `type.split('.').pop()` of a base-package type `n8n-nodes-base.s` is `s` |
| N8nConverter.NameRoundTrip | src/utils/n8n-converter.ts:50 | after export and import, a node keeps its name, or is named after its engine type's suffix when the name was blank |
| N8nConverter.NodeRoundTrip | src/utils/n8n-converter.ts:27-62 | export then import of a node keeps id and position, maps the type through both tables, restores the name as above and turns a missing payload into `{}` |
| N8nConverter.NodeWithId | src/utils/n8n-converter.ts:80-81 | the lookup by id returns the FIRST node with that id (no earlier node has it), and finds none exactly when no node has it |
| N8nConverter.ResolvedPairs | src/utils/n8n-converter.ts:79-93 | the connections that survive export yield at most one name pair each |
| N8nConverter.ResolvedPair | src/utils/n8n-converter.ts:80-83 | a connection yields a pair exactly when both its end ids resolve, and the pair is the names of the first nodes with those ids |
| N8nConverter.MainTarget | src/utils/n8n-converter.ts:88-90 | computes the target entry export pushes: the target name, type `main`, index 0 |
| N8nConverter.Grouped | src/utils/n8n-converter.ts:77-93 | the grouping has one entry per distinct source name, in order of first appearance, whose only slot lists that source's targets in order |
| N8nConverter.KeyIndex | src/utils/n8n-converter.ts:84 | the key test finds an entry with that name, and finds none exactly when no entry has it |
| N8nConverter.TargetsOfSnoc | src/utils/n8n-converter.ts:87-91 | one more connection adds its target at the end of its own source's list and nowhere else |
| N8nConverter.GroupedKeys | src/utils/n8n-converter.ts:84-86 | the grouping has an entry for a name exactly when some resolved connection leaves a node of that name |
| N8nConverter.GroupedSnocNew | src/utils/n8n-converter.ts:84-91 | a connection from a new source name appends `{ main: [[target]] }` under that name |
| N8nConverter.GroupedSnocOld | src/utils/n8n-converter.ts:87-91 | a connection from a known source name appends its target to that entry's slot 0, leaving the other entries unchanged |
| N8nConverter.ResolvedPairsSnoc | src/utils/n8n-converter.ts:80-83 | a connection with a missing end is dropped, and one with both ends adds its pair of names at the end |
| N8nConverter.PushTarget | src/utils/n8n-converter.ts:84-91 | the loop body, with the create-if-missing step applied to own entries only, turns the grouping of the pairs so far into the grouping with the new pair |
| N8nConverter.InheritedNameBreaksExport | src/utils/n8n-converter.ts:84-87 | as written, a connection leaving a node named `toString` throws, where the grouping has an entry for it |
| N8nConverter.PushTargetAsWritten | src/utils/n8n-converter.ts:84-91 | the loop body as written fails only for an inherited property name or for a name that already has an entry; when it succeeds the source name has an entry, and the grouping grew by one entry exactly when the name was new |
| N8nConverter.PushTargetAsWrittenElsewhere | src/utils/n8n-converter.ts:84-91 | for every name that is not an inherited property, the loop body as written builds the same grouping as `PushTarget` |
| N8nConverter.ExportStep | src/utils/n8n-converter.ts:80-92 | one turn over a connection extends the grouping of the resolved pairs so far by that connection's pair, and leaves it as it is when either end id is unknown |
| N8nConverter.GroupConnections | src/utils/n8n-converter.ts:77-93 | the `forEach` over all connections yields the grouping of every resolved pair, in connection order |
| N8nConverter.ConvertToN8nWorkflow | src/utils/n8n-converter.ts:67-102 | export maps every node in order, is inactive with no id or settings, keeps name and description, and writes the grouping of resolved connections, absent when it is empty |
| N8nConverter.ExportConnections | src/utils/n8n-converter.ts:95-101 | the exported connections are absent exactly when no connection resolves, and otherwise are the grouping of the resolved pairs |
| N8nImport.NodeNamed | src/utils/n8n-converter.ts:118 | the lookup by name returns the FIRST node with that name (no earlier node has it), and finds none exactly when no node has it |
| N8nImport.ConnectionId | src/utils/n8n-converter.ts:126 | an imported connection id starts with `conn-` and has more after it |
| N8nImport.ConnectionIdsDiffer | src/utils/n8n-converter.ts:126 | two connections between the same two nodes with different (output, position) indices get different ids |
| N8nImport.ImportedConnection | src/utils/n8n-converter.ts:125-131 | an imported connection runs from the source node's id to the target node's id |
| N8nImport.TargetConnection | src/utils/n8n-converter.ts:123-131 | computes what the innermost loop pushes for one target entry: one connection when its node name resolves, nothing otherwise |
| N8nImport.SlotConnections | src/utils/n8n-converter.ts:122-133 | computes what the innermost loop pushes for one output slot: the target entries' connections, in order |
| N8nImport.SlotsConnections | src/utils/n8n-converter.ts:121-134 | computes what the middle loop pushes for one source: the slots' connections, in slot order |
| N8nImport.EntryConnections | src/utils/n8n-converter.ts:117-135 | computes what one entry contributes: its slots' connections, or nothing when its source name is unknown or it has no `main` |
| N8nImport.EntriesConnections | src/utils/n8n-converter.ts:117-135 | computes what the outer loop pushes: the entries' contributions, in entry order |
| N8nImport.ImportConnections | src/utils/n8n-converter.ts:114-136 | computes the imported connections: none without a connections object, the entries' connections otherwise |
| N8nImport.PushSlotConnections | src/utils/n8n-converter.ts:122-133 | the inner loop appends, in order, one connection for each target whose node exists |
| N8nImport.PushSlotsConnections | src/utils/n8n-converter.ts:121-134 | the middle loop appends the connections of every slot, in slot order |
| N8nImport.ImportStep | src/utils/n8n-converter.ts:117-135 | one turn over an entry appends that entry's connections, and nothing when its source name is unknown or it lacks `main` |
| N8nImport.ImportEntries | src/utils/n8n-converter.ts:117-135 | the `forEach` over all entries yields the connections of every entry, in entry order |
| N8nImport.ConvertFromN8nWorkflow | src/utils/n8n-converter.ts:107-139 | import maps every node in order and returns the connections of the entries in order, skipping entries whose source is unknown or that lack `main`; with no connections object it returns none |
| N8nImport.SlotConnectionsSnoc | src/utils/n8n-converter.ts:122-133 | one more target adds what it yields at the end |
| N8nImport.SlotsConnectionsSnoc | src/utils/n8n-converter.ts:121-134 | one more slot adds its connections at the end |
| N8nImport.EntriesConnectionsSnoc | src/utils/n8n-converter.ts:117-135 | one more entry adds its connections at the end |
| N8nImport.PushedForResolves | src/utils/n8n-converter.ts:123-131 | a target yields a connection exactly when its name resolves. That connection has id `conn-s-t-o-k`, the resolved ids as ends, and handles `output-o` / `input-(index or 0)` |
| N8nImport.PushedInSlot | src/utils/n8n-converter.ts:122-133 | every connection a target yields is among its slot's connections |
| N8nImport.SlotMemberOrigin | src/utils/n8n-converter.ts:122-133 | every connection of a slot was yielded by one of its targets |
| N8nImport.PushedInSlots | src/utils/n8n-converter.ts:121-134 | every connection a target of any slot yields is among the source's connections |
| N8nImport.SlotsMemberOrigin | src/utils/n8n-converter.ts:121-134 | every connection of a source comes from one target of one of its slots |
| N8nImport.PushedInEntries | src/utils/n8n-converter.ts:117-135 | every connection yielded inside a resolvable entry is imported |
| N8nImport.EntriesMemberOrigin | src/utils/n8n-converter.ts:117-135 | every imported connection comes from one target of one slot of an entry whose source name resolves and which has `main` |
| N8nImport.ImportedEndpointsExist | src/utils/n8n-converter.ts:123-130 | every imported connection joins two imported nodes, and its source handle names an output slot |
| N8nImport.EntriesConnectionsAppend | src/utils/n8n-converter.ts:117-135 | import treats the entries of a concatenation one list after the other |
| N8nImport.EntriesConnectionsAt | src/utils/n8n-converter.ts:117-135 | the connections of a list of entries are those before any one entry, then that entry's, then those after it |
| N8nImport.SkippedEntry | src/utils/n8n-converter.ts:119 | an entry whose source is unknown or that lacks `main` contributes nothing: removing it changes nothing |
| ConverterRoundTrip.RoundTripNodes | src/utils/n8n-converter.ts:111 | the nodes after export and import have the same length and ids, and the same names where names were set |
| ConverterRoundTrip.RoundTripKeepsPositions | src/utils/n8n-converter.ts:56-59 | export then import keeps every node's id and position, in order |
| ConverterRoundTrip.RoundTripNodeNamed | src/utils/n8n-converter.ts:118 | with unique, non-empty names, import finds each node under its own name and with its own id |
| ConverterRoundTrip.ResolvedConnectionIds | src/utils/n8n-converter.ts:80-81 | with unique, non-empty names, a connection whose ends exist is exported under names that import resolves back to its own ends |
| ConverterRoundTrip.ResolvedEndId | src/utils/n8n-converter.ts:118 | with unique, non-empty names, the node found by id on export is found again by its name on import, with the same id |
| ConverterRoundTrip.IdPairsOfResolved | src/utils/n8n-converter.ts:79-93 | the names export writes resolve on import to the original connections' ends, in their original order |
| ConverterRoundTrip.ImportNewEntry | src/utils/n8n-converter.ts:84-86 | the entry created for a new source imports as one connection between the two ids |
| ConverterRoundTrip.ImportPushedEntry | src/utils/n8n-converter.ts:87-91 | a target pushed onto slot 0 imports as one more connection between the two ids |
| ConverterRoundTrip.SlotPushedEndpoints | src/utils/n8n-converter.ts:121-131 | one more resolving target at the end of a slot adds exactly one (source id, target id) pair at the end of that slot's connections |
| ConverterRoundTrip.ImportReplacedEntry | src/utils/n8n-converter.ts:117-135 | replacing one entry changes the imported end pairs by what that entry changes |
| ConverterRoundTrip.ImportGrouped | src/utils/n8n-converter.ts:116-135 | importing the grouping of a pair list gives the id pairs of its pairs, each as often as it occurs |
| ConverterRoundTrip.ImportedGroupedHandles | src/utils/n8n-converter.ts:129-130 | every connection imported from a grouping has handles `output-0` and `input-0` |
| ConverterRoundTrip.ExportImportEndpoints | src/utils/n8n-converter.ts:67-139 | with unique, non-empty names and no dangling connection, export then import gives back connections joining the same (source id, target id) pairs, with the same multiplicities |
| ConverterRoundTrip.ExportImportHandles | src/utils/n8n-converter.ts:129-130 | after export then import, every connection leaves from `output-0` and enters `input-0` |
| ConverterRoundTrip.BlankNameUnresolved | src/utils/n8n-converter.ts:118 | after the round trip no node is named `""`, since import names every node |
| ConverterRoundTrip.BlankGroupedKeys | src/utils/n8n-converter.ts:84-85 | pairs whose sources are all blank are grouped under the key `""` only |
| ConverterRoundTrip.BlankKeysImportNothing | src/utils/n8n-converter.ts:118-119 | a grouping under the key `""` imports no connection after the round trip |
| ConverterRoundTrip.BlankSourcesLost | src/utils/n8n-converter.ts:118-119 | a graph whose every exported connection leaves a nameless node imports no connection after the round trip |
| ConverterRoundTrip.BlankNameExport | src/utils/n8n-converter.ts:80-91 | one connection from a nameless node to a named one, with distinct ids, exports as the single pair (`""`, target name), with unique names and both ends present |
| ConverterRoundTrip.BlankNameLosesConnection | src/utils/n8n-converter.ts:118-119 | the round trip loses a connection from a nameless node: names are unique and both ends exist, yet import returns no connection |
| WorkflowBuilderPage.PaletteEntryFor | src/pages/workflows/WorkflowBuilderPage.tsx:155 | the palette lookup finds an entry with that id, and finds none exactly when no palette entry has it |
| WorkflowBuilderPage.DisplayEntry | src/pages/workflows/WorkflowBuilderPage.tsx:60 | a card is drawn with its type's palette entry, or with the last entry (`action`) when the type is not in the palette |
| WorkflowBuilderPage.PaletteIdsUnique | src/pages/workflows/WorkflowBuilderPage.tsx:30-37 | no two palette entries share an id |
| WorkflowBuilderPage.PaletteMatchesRegistry | src/pages/workflows/WorkflowBuilderPage.tsx:30-37 | every palette id is a tag of the converter's forward table, and the display fallback is the converter's import fallback `action` |
| WorkflowBuilderPage.PaletteIsRegistry | src/pages/workflows/WorkflowBuilderPage.tsx:30-37 | the palette ids are exactly the tags of the converter's forward table |
| WorkflowBuilderPage.PaletteTypeRoundTrip | src/pages/workflows/WorkflowBuilderPage.tsx:30-37 | every palette type survives export and import unchanged |
| WorkflowBuilderPage.DisplayMatchesImport | src/pages/workflows/WorkflowBuilderPage.tsx:60 | the type a card shows is the type import would give the node back |
| WorkflowBuilderPage.ClampToCanvas | src/pages/workflows/WorkflowBuilderPage.tsx:161 | the clamped coordinate is the least non-negative value not below the input |
| WorkflowBuilderPage.DropPosition | src/pages/workflows/WorkflowBuilderPage.tsx:150-161 | a drop lands at a non-negative position. Each coordinate is the pointer minus the canvas corner minus the offset (96 across, 64 down), or 0 when that is negative |
| WorkflowBuilderPage.NewNodeId | src/pages/workflows/WorkflowBuilderPage.tsx:158 | a new node id is `node-` followed by decimal digits whose value is the clock reading |
| WorkflowBuilderPage.NewNodeIdsDiffer | src/pages/workflows/WorkflowBuilderPage.tsx:158 | node ids made at different clock readings differ |
| WorkflowBuilderPage.PaletteNode | src/pages/workflows/WorkflowBuilderPage.tsx:157-162 | computes the node a palette entry creates: the clock id, the entry's id as type, the entry's name, the given position and no payload |
| WorkflowBuilderPage.RandomCoordinate | src/pages/workflows/WorkflowBuilderPage.tsx:187 | a random coordinate is at least 100 and below 100 plus the span |
| WorkflowBuilderPage.AddPosition | src/pages/workflows/WorkflowBuilderPage.tsx:187 | a node added with the button lands in [100, 500) x [100, 400) |
| WorkflowBuilderPage.MovedNodes | src/pages/workflows/WorkflowBuilderPage.tsx:168-174 | a move changes only the position of the nodes with the dragged id, and keeps length, order, ids, types, names and payloads |
| WorkflowBuilderPage.MoveIfId | src/pages/workflows/WorkflowBuilderPage.tsx:170-172 | computes the `map` callback: a node with the dragged id gets the new position, any other node is returned as it is |
| WorkflowBuilderPage.DragEndNodes | src/pages/workflows/WorkflowBuilderPage.tsx:134-180 | a drag end keeps every existing node's id, type, name and data in place, and adds at most one node at the end |
| WorkflowBuilderPage.DeleteCascade | src/pages/workflows/WorkflowBuilderPage.tsx:192-197 | after a delete, the nodes left are exactly those with another id. The connections left are exactly those touching neither end |
| WorkflowBuilderPage.NodesWithout | src/pages/workflows/WorkflowBuilderPage.tsx:194 | computes the node filter: the nodes whose id differs from the deleted one, in order |
| WorkflowBuilderPage.ConnectionsWithout | src/pages/workflows/WorkflowBuilderPage.tsx:195-196 | computes the connection filter: the connections touching the deleted id at neither end, in order |
| WorkflowBuilderPage.DeleteIdempotent | src/pages/workflows/WorkflowBuilderPage.tsx:192-197 | deleting the same node twice is deleting it once |
| WorkflowBuilderPage.DeleteAbsent | src/pages/workflows/WorkflowBuilderPage.tsx:192-197 | deleting an id nothing carries changes nothing |
| WorkflowBuilderPage.HasNodeAfterDelete | src/pages/workflows/WorkflowBuilderPage.tsx:193 | a node whose id differs from the deleted one survives the delete |
| WorkflowBuilderPage.DeleteKeepsAttached | src/pages/workflows/WorkflowBuilderPage.tsx:192-197 | thanks to the cascade, no connection dangles after a delete |
| WorkflowBuilderPage.MoveKeepsAttached | src/pages/workflows/WorkflowBuilderPage.tsx:168-174 | a move leaves no connection dangling |
| WorkflowBuilderPage.AppendKeepsAttached | src/pages/workflows/WorkflowBuilderPage.tsx:163 | adding a node leaves no connection dangling |
| WorkflowBuilderPage.DeleteKeepsUniqueIds | src/pages/workflows/WorkflowBuilderPage.tsx:193 | a delete keeps node ids unique |
| WorkflowBuilderPage.MoveKeepsUniqueIds | src/pages/workflows/WorkflowBuilderPage.tsx:168-174 | a move keeps node ids unique |
| WorkflowBuilderPage.AppendKeepsUniqueIds | src/pages/workflows/WorkflowBuilderPage.tsx:157-163 | adding a node keeps ids unique exactly when its id is not taken |
| WorkflowBuilderPage.DragEndOffCanvas | src/pages/workflows/WorkflowBuilderPage.tsx:137-148 | a drag that ends over nothing, over something other than the canvas, from a non-mouse input, or without a canvas element changes no node |
| WorkflowBuilderPage.DragEndFromPalette | src/pages/workflows/WorkflowBuilderPage.tsx:155-163 | dropping a palette type appends exactly one node after the unchanged ones. The node has the clock id, that type and the palette name, at the clamped drop position |
| WorkflowBuilderPage.DragEndMovesNode | src/pages/workflows/WorkflowBuilderPage.tsx:164-176 | dropping anything else moves exactly the nodes with the dragged id to the clamped drop position. It leaves every other node as it was, and changes nothing when no node has that id |
| WorkflowBuilderPage.DragEndKeepsAttached | src/pages/workflows/WorkflowBuilderPage.tsx:134-180 | no drag end leaves a connection dangling |
| WorkflowBuilderPage.DragEndKeepsUniqueIds | src/pages/workflows/WorkflowBuilderPage.tsx:155-176 | a drag end keeps node ids unique when the clock id is not yet in use |
| WorkflowBuilderPage.BuilderState.constructor | src/pages/workflows/WorkflowBuilderPage.tsx:110-112 | the page starts with no nodes, no connections and nothing dragged |
| WorkflowBuilderPage.BuilderState.HandleDragStart | src/pages/workflows/WorkflowBuilderPage.tsx:130-132 | a drag start records the dragged id and changes nothing else |
| WorkflowBuilderPage.BuilderState.HandleDragEnd | src/pages/workflows/WorkflowBuilderPage.tsx:134-180 | a drag end sets the nodes as the drag-end function says, keeps the connections, clears the active id on every path, and keeps every connection attached |
| WorkflowBuilderPage.BuilderState.HandleAddNode | src/pages/workflows/WorkflowBuilderPage.tsx:182-190 | adding appends one palette node at a random position and changes nothing else |
| WorkflowBuilderPage.BuilderState.HandleDeleteNode | src/pages/workflows/WorkflowBuilderPage.tsx:192-197 | a delete removes the node and every connection touching it, keeps the rest in order, and keeps every connection attached |

## Findings

| source | as written | input that shows it | evidently intended | confidence | as-written member | corrected member |
|---|---|---|---|---|---|---|
| src/utils/n8n-converter.ts:84-87 | `!n8nConnections[sourceNode.name]` also sees properties inherited from `Object.prototype`, so no entry is created for such a name and `.main[0].push` throws | a connection from a node named `toString` (or `constructor`, `valueOf`, ...) to any existing node | an entry `{ main: [[target]] }` under that name, as for every other name | high; not executed | N8nConverter.PushTargetAsWritten, N8nConverter.InheritedNameBreaksExport | N8nConverter.PushTarget |

The corrected behaviour tests for an own key. `N8nConverter.PushTarget`
proves it builds the grouping for every name, and the rest of the model
uses it. `N8nConverter.PushTargetAsWrittenElsewhere` proves that the code
as written agrees with it on every other name.

## Left out

- Rendering, dnd-kit, toasts and the DOM are left out. The canvas corner
  (absent when the canvas element is missing), `Date.now()` and the
  `Math.random()` draws are method parameters.
- `WorkflowBuilderPage.DragEndNodes` places a dropped node from the
  activator event's `clientX`/`clientY`. That is the pointer where the drag
  STARTED, not where it was released, so a node lands relative to its drag
  start. The model takes that start position as the `pointer` parameter and
  does not model the release position.
- React state updates are modelled as immediate assignments. The page's
  handlers read and write the state within one event, so batching changes
  nothing here.
- Coordinates are integers. `WorkflowBuilderPage.RandomCoordinate` drops
  the fractional part of `Math.random() * span + 100`. Pointer coordinates
  are taken as integers.
- The load effect, `handleSave` and `handleRun` are left out. They do
  nothing beyond showing notifications, and no structure is saved or run.
- The palette's icons and colour classes are left out; they only affect rendering.
- Payloads (`data`, `parameters`, `settings`) are opaque values; the
  converter never looks inside them.
- N8nConverter.Grouped: the `connections` object is modelled as a list of
  entries in insertion order. JavaScript orders keys that look like array
  indices (a node named `1`, say) first, in numeric order. That reordering
  is not modelled. For such names, the key order of the exported object is
  not the order of first appearance that `Grouped` states. The order in
  which import walks the entries, and so the order of the imported
  connections, also changes. The contents of each entry, and the multiset
  of imported connections, are not affected.
- `N8nImport.PushedForResolves` takes a target's `index` to be a number
  or absent. Values of other types, which `||` would also replace by 0
  when falsy, are not modelled.
- `NodeTypeRegistry.ToEngineType` does not model a tag that names an
  inherited object property (`constructor`, `toString`, ...). For such a
  tag, `NODE_TYPE_MAP[tag]` yields a function rather than an engine type
  string.
- An engine node whose `position` holds `0` is not distinguished from a
  missing one. `position[k] || 0` gives 0 either way, and so does
  `N8nConverter.Coordinate`.
- The export and import loops are split into helper methods. On export,
  the loop is `GroupConnections`, its body is `ExportStep`, and the push is
  `PushTarget`. On import, there is one method per loop level:
  `ImportEntries` with `ImportStep`, `PushSlotsConnections` and
  `PushSlotConnections`.
- Import with a missing `nodes` array would throw on `map`. The model
  always has a node list.
- `ConverterRoundTrip.ExportImportEndpoints` holds only when every node
  has a non-empty name, and the code does not keep that case. Export keys
  a nameless source under `""`, but import names the node after the last
  part of its engine type (`webhook`, say), so no node answers to `""`.
  Every connection that leaves a nameless node is lost, even though names
  are unique and both ends exist.
  `ConverterRoundTrip.BlankNameLosesConnection` shows one such graph, and
  `ConverterRoundTrip.BlankSourcesLost` shows it for any graph whose
  exported connections all leave nameless nodes. A connection into a
  nameless node is lost as well, because its target entry names `""` too.
  The builder page itself always names the nodes it creates.
- The round-trip theorems assume unique node names. With
  duplicate names, export merges their connections under one key and
  import binds to the first node of that name. That first-match behaviour
  is modelled (`N8nImport.NodeNamed`, `N8nConverter.NodeWithId`), but no
  round-trip statement is made for it.
- The page never enforces unique node ids. Two clock readings in the same
  millisecond give the same id. `WorkflowBuilderPage.DragEndKeepsUniqueIds`
  and `WorkflowBuilderPage.AppendKeepsUniqueIds` therefore state
  uniqueness only under the condition that the new id is unused.

