/**
 * The editing state of the workflow builder page
 * (src/pages/workflows/WorkflowBuilderPage.tsx): the node palette, the type
 * shown on a node card, and the nodes / connections / active-id state that
 * the drag handlers and the add and delete buttons change.
 */
module WorkflowBuilderPage {
  import opened Wrappers
  import opened Seqs
  import opened Strings
  import opened WorkflowBuilderTypes
  import NodeTypeRegistry

  // ---------------------------------------------------------------------------
  // Palette

  /** A palette entry; its icon and colour class only affect rendering. */
  datatype PaletteEntry = PaletteEntry(id: string, name: string)

  /** `NODE_TYPES`, in display order. */
  const NodeTypes: seq<PaletteEntry> := [
    PaletteEntry("webhook", "Webhook"),
    PaletteEntry("database", "Database"),
    PaletteEntry("email", "Email"),
    PaletteEntry("file", "File"),
    PaletteEntry("schedule", "Schedule"),
    PaletteEntry("action", "Action")
  ]

  /** Whether some palette entry has the id `tag`. */
  predicate InPalette(tag: string)
  {
    exists k :: 0 <= k < |NodeTypes| && NodeTypes[k].id == tag
  }

  /** `NODE_TYPES.find((t) => t.id === tag)`. */
  function PaletteEntryFor(tag: string): (r: Option<PaletteEntry>)
    ensures r.Some? ==> r.value in NodeTypes && r.value.id == tag
    ensures r.None? <==> !InPalette(tag)
  {
    Find(NodeTypes, (t: PaletteEntry) => t.id == tag)
  }

  /**
   * The entry a node card is drawn with: the palette entry of the node's
   * type, or the last entry ("action") when the type is not in the palette.
   */
  function DisplayEntry(nodeType: string): (r: PaletteEntry)
    ensures r in NodeTypes
    ensures InPalette(nodeType) ==> r.id == nodeType
    ensures !InPalette(nodeType) ==> r == NodeTypes[|NodeTypes| - 1]
  {
    PaletteEntryFor(nodeType).GetOr(NodeTypes[|NodeTypes| - 1])
  }

  /** No two palette entries share an id, so the lookup by id is unambiguous. */
  lemma PaletteIdsUnique(i: nat, j: nat)
    requires i < |NodeTypes| && j < |NodeTypes| && NodeTypes[i].id == NodeTypes[j].id
    ensures i == j
  {
  }

  /**
   * Every palette type is a tag of the converter's forward table, and the
   * display fallback is the tag the converter falls back to on import.
   */
  lemma PaletteMatchesRegistry(k: nat)
    requires k < |NodeTypes|
    ensures NodeTypes[k].id in NodeTypeRegistry.NodeTypeMap
    ensures NodeTypes[|NodeTypes| - 1].id == NodeTypeRegistry.DefaultNodeType
  {
  }

  /** A node made from the palette keeps its type through export and import. */
  lemma PaletteTypeRoundTrip(k: nat)
    requires k < |NodeTypes|
    ensures NodeTypeRegistry.ToNodeType(NodeTypeRegistry.ToEngineType(NodeTypes[k].id)) == NodeTypes[k].id
  {
    PaletteMatchesRegistry(k);
    NodeTypeRegistry.TypeRoundTrip(NodeTypes[k].id);
  }

  /** The palette types are exactly the tags of the converter's forward table. */
  lemma PaletteIsRegistry(tag: string)
    ensures InPalette(tag) <==> tag in NodeTypeRegistry.NodeTypeMap
  {
    if tag in NodeTypeRegistry.NodeTypeMap {
      var i := NodeTypeRegistry.TagIndex(tag);
      assert NodeTypes[i].id == tag;
    }
    if InPalette(tag) {
      var k :| 0 <= k < |NodeTypes| && NodeTypes[k].id == tag;
      PaletteMatchesRegistry(k);
    }
  }

  /** The type shown for a node is the type import would give it back. */
  lemma DisplayMatchesImport(nodeType: string)
    ensures DisplayEntry(nodeType).id
      == NodeTypeRegistry.ToNodeType(NodeTypeRegistry.ToEngineType(nodeType))
  {
    NodeTypeRegistry.TypeRoundTrip(nodeType);
    PaletteIsRegistry(nodeType);
  }

  // ---------------------------------------------------------------------------
  // New nodes and positions

  /** `Math.max(0, v)`: the least non-negative value not below `v`. */
  function ClampToCanvas(v: int): (r: int)
    ensures r >= 0 && r >= v
    ensures r == v || r == 0
  {
    if v < 0 then 0 else v
  }

  /** Horizontal offset from the pointer to a dropped node's corner (half the card width). */
  const DropOffsetX := 96

  /** Vertical offset from the pointer to a dropped node's corner. */
  const DropOffsetY := 64

  /**
   * Where a dropped node lands on a canvas whose top-left corner is at
   * `origin`. `pointer` is the activator event's pointer position, which is
   * where the drag started. Both are in viewport coordinates.
   */
  function DropPosition(pointer: Position, origin: Position): (p: Position)
    ensures p.x >= 0 && p.y >= 0
    ensures p.x + origin.x + DropOffsetX >= pointer.x && p.y + origin.y + DropOffsetY >= pointer.y
    ensures p.x == 0 || p.x + origin.x + DropOffsetX == pointer.x
    ensures p.y == 0 || p.y + origin.y + DropOffsetY == pointer.y
  {
    Position(ClampToCanvas(pointer.x - origin.x - DropOffsetX), ClampToCanvas(pointer.y - origin.y - DropOffsetY))
  }

  /** `node-${Date.now()}`. */
  function NewNodeId(now: nat): (id: string)
    ensures |id| > 5 && id[..5] == "node-"
    ensures forall i :: 5 <= i < |id| ==> '0' <= id[i] <= '9'
    ensures DecimalValue(id[5..]) == now
  {
    NatToStringValue(now);
    assert ("node-" + NatToString(now))[5..] == NatToString(now);
    "node-" + NatToString(now)
  }

  /** Two nodes created at different clock readings get different ids. */
  lemma NewNodeIdsDiffer(now1: nat, now2: nat)
    requires now1 != now2
    ensures NewNodeId(now1) != NewNodeId(now2)
  {
  }

  /** The node a palette entry creates at clock reading `now` and position `pos`; it has no payload. */
  function PaletteNode(entry: PaletteEntry, now: nat, pos: Position): (n: WorkflowNode)
  {
    WorkflowNode(NewNodeId(now), entry.id, entry.name, pos, None)
  }

  /**
   * `Math.random() * span + 100`, for a draw `r` in [0, 1); coordinates are
   * integers here, so the fractional part is dropped.
   */
  function RandomCoordinate(r: real, span: nat): (c: int)
    requires 0.0 <= r < 1.0
    ensures 100 <= c && (span > 0 ==> c < 100 + span)
  {
    (r * span as real).Floor + 100
  }

  /** The position of a node added with the button, for the draws `rx` and `ry`. */
  function AddPosition(rx: real, ry: real): (p: Position)
    requires 0.0 <= rx < 1.0 && 0.0 <= ry < 1.0
    ensures 100 <= p.x < 500 && 100 <= p.y < 400
  {
    Position(RandomCoordinate(rx, 400), RandomCoordinate(ry, 300))
  }

  // ---------------------------------------------------------------------------
  // Moving and deleting

  /** The map step of a move: the node with id `id` gets position `pos`. */
  function MoveIfId(id: string, pos: Position): WorkflowNode -> WorkflowNode
  {
    (n: WorkflowNode) => if n.id == id then n.(position := pos) else n
  }

  /** Every node whose id is `id` moved to `pos`, all else unchanged. */
  function MovedNodes(nodes: seq<WorkflowNode>, id: string, pos: Position): (r: seq<WorkflowNode>)
    ensures |r| == |nodes|
    ensures forall i :: 0 <= i < |nodes| ==>
      (r[i].id == nodes[i].id && r[i].nodeType == nodes[i].nodeType
        && r[i].name == nodes[i].name && r[i].data == nodes[i].data)
    ensures forall i :: 0 <= i < |nodes| ==> r[i].position == if nodes[i].id == id then pos else nodes[i].position
  {
    Map(MoveIfId(id, pos), nodes)
  }

  /** Whether a node survives deleting `id`. */
  function KeepsNode(id: string): WorkflowNode -> bool
  {
    (n: WorkflowNode) => n.id != id
  }

  /** Whether a connection survives deleting node `id`: it touches neither end. */
  function KeepsConnection(id: string): WorkflowConnection -> bool
  {
    (c: WorkflowConnection) => c.source != id && c.target != id
  }

  /** The nodes left after deleting `id`, in their order. */
  function NodesWithout(nodes: seq<WorkflowNode>, id: string): (r: seq<WorkflowNode>)
  {
    Filter(nodes, KeepsNode(id))
  }

  /** The connections left after deleting node `id`, in their order. */
  function ConnectionsWithout(conns: seq<WorkflowConnection>, id: string): (r: seq<WorkflowConnection>)
  {
    Filter(conns, KeepsConnection(id))
  }

  /**
   * Deleting a node removes exactly the nodes with its id and exactly the
   * connections that touch it.
   */
  lemma DeleteCascade(nodes: seq<WorkflowNode>, conns: seq<WorkflowConnection>, id: string)
    ensures forall n :: n in NodesWithout(nodes, id) <==> n in nodes && n.id != id
    ensures forall c :: c in ConnectionsWithout(conns, id) <==> c in conns && c.source != id && c.target != id
  {
    forall n | n in nodes && n.id != id
      ensures n in NodesWithout(nodes, id)
    {
      var i :| 0 <= i < |nodes| && nodes[i] == n;
      assert KeepsNode(id)(nodes[i]);
    }
    forall c | c in conns && c.source != id && c.target != id
      ensures c in ConnectionsWithout(conns, id)
    {
      var i :| 0 <= i < |conns| && conns[i] == c;
      assert KeepsConnection(id)(conns[i]);
    }
  }

  /** Deleting the same node twice is deleting it once. */
  lemma DeleteIdempotent(nodes: seq<WorkflowNode>, conns: seq<WorkflowConnection>, id: string)
    ensures NodesWithout(NodesWithout(nodes, id), id) == NodesWithout(nodes, id)
    ensures ConnectionsWithout(ConnectionsWithout(conns, id), id) == ConnectionsWithout(conns, id)
  {
    FilterKeepsAll(NodesWithout(nodes, id), KeepsNode(id));
    FilterKeepsAll(ConnectionsWithout(conns, id), KeepsConnection(id));
  }

  /** Deleting an id no node and no connection carries changes nothing. */
  lemma DeleteAbsent(nodes: seq<WorkflowNode>, conns: seq<WorkflowConnection>, id: string)
    requires forall n :: n in nodes ==> n.id != id
    requires forall c :: c in conns ==> c.source != id && c.target != id
    ensures NodesWithout(nodes, id) == nodes
    ensures ConnectionsWithout(conns, id) == conns
  {
    FilterKeepsAll(nodes, KeepsNode(id));
    FilterKeepsAll(conns, KeepsConnection(id));
  }

  // ---------------------------------------------------------------------------
  // The graph invariant

  /** Some node has id `id`. */
  predicate HasNode(nodes: seq<WorkflowNode>, id: string)
  {
    exists i :: 0 <= i < |nodes| && nodes[i].id == id
  }

  /** Every connection joins two nodes of the graph. */
  predicate Attached(nodes: seq<WorkflowNode>, conns: seq<WorkflowConnection>)
  {
    forall c :: c in conns ==> HasNode(nodes, c.source) && HasNode(nodes, c.target)
  }

  /** A node still present after deleting `id` is one whose id differs. */
  lemma HasNodeAfterDelete(nodes: seq<WorkflowNode>, id: string, other: string)
    requires HasNode(nodes, other) && other != id
    ensures HasNode(NodesWithout(nodes, id), other)
  {
    var i :| 0 <= i < |nodes| && nodes[i].id == other;
    assert KeepsNode(id)(nodes[i]);
    var r := NodesWithout(nodes, id);
    var j :| 0 <= j < |r| && r[j] == nodes[i];
  }

  /** The delete cascade leaves no connection dangling. */
  lemma DeleteKeepsAttached(nodes: seq<WorkflowNode>, conns: seq<WorkflowConnection>, id: string)
    requires Attached(nodes, conns)
    ensures Attached(NodesWithout(nodes, id), ConnectionsWithout(conns, id))
  {
    forall c | c in ConnectionsWithout(conns, id)
      ensures HasNode(NodesWithout(nodes, id), c.source) && HasNode(NodesWithout(nodes, id), c.target)
    {
      var k :| 0 <= k < |ConnectionsWithout(conns, id)| && ConnectionsWithout(conns, id)[k] == c;
      assert c in conns && KeepsConnection(id)(c);
      HasNodeAfterDelete(nodes, id, c.source);
      HasNodeAfterDelete(nodes, id, c.target);
    }
  }

  /** Moving nodes keeps every id, so no connection comes loose. */
  lemma MoveKeepsAttached(nodes: seq<WorkflowNode>, conns: seq<WorkflowConnection>, id: string, pos: Position)
    requires Attached(nodes, conns)
    ensures Attached(MovedNodes(nodes, id, pos), conns)
  {
    var r := MovedNodes(nodes, id, pos);
    forall c | c in conns
      ensures HasNode(r, c.source) && HasNode(r, c.target)
    {
      var i :| 0 <= i < |nodes| && nodes[i].id == c.source;
      var j :| 0 <= j < |nodes| && nodes[j].id == c.target;
      assert r[i].id == c.source && r[j].id == c.target;
    }
  }

  /** Appending a node keeps every id, so no connection comes loose. */
  lemma AppendKeepsAttached(nodes: seq<WorkflowNode>, conns: seq<WorkflowConnection>, n: WorkflowNode)
    requires Attached(nodes, conns)
    ensures Attached(nodes + [n], conns)
  {
    forall c | c in conns
      ensures HasNode(nodes + [n], c.source) && HasNode(nodes + [n], c.target)
    {
      var i :| 0 <= i < |nodes| && nodes[i].id == c.source;
      var j :| 0 <= j < |nodes| && nodes[j].id == c.target;
      assert (nodes + [n])[i].id == c.source && (nodes + [n])[j].id == c.target;
    }
  }

  // ---------------------------------------------------------------------------
  // Unique ids

  /** The id of a node. */
  function IdOf(n: WorkflowNode): string
  {
    n.id
  }

  /** No two nodes share an id. The page does not enforce this; the lemmas below say when it lasts. */
  predicate UniqueIds(nodes: seq<WorkflowNode>)
  {
    InjectiveOn(IdOf, nodes)
  }

  /** Deleting keeps ids unique. */
  lemma DeleteKeepsUniqueIds(nodes: seq<WorkflowNode>, id: string)
    requires UniqueIds(nodes)
    ensures UniqueIds(NodesWithout(nodes, id))
  {
    FilterInjectiveOn(IdOf, nodes, KeepsNode(id));
  }

  /** Moving keeps ids unique. */
  lemma MoveKeepsUniqueIds(nodes: seq<WorkflowNode>, id: string, pos: Position)
    requires UniqueIds(nodes)
    ensures UniqueIds(MovedNodes(nodes, id, pos))
  {
    var r := MovedNodes(nodes, id, pos);
    forall i, j | 0 <= i < |r| && 0 <= j < |r| && IdOf(r[i]) == IdOf(r[j])
      ensures i == j
    {
      assert IdOf(nodes[i]) == IdOf(nodes[j]);
    }
  }

  /** Appending a node keeps ids unique exactly when its id is not taken. */
  lemma AppendKeepsUniqueIds(nodes: seq<WorkflowNode>, n: WorkflowNode)
    requires UniqueIds(nodes)
    ensures UniqueIds(nodes + [n]) <==> !HasNode(nodes, n.id)
  {
    var r := nodes + [n];
    if HasNode(nodes, n.id) {
      var i :| 0 <= i < |nodes| && nodes[i].id == n.id;
      assert IdOf(r[i]) == IdOf(r[|nodes|]);
    } else {
      forall i, j | 0 <= i < |r| && 0 <= j < |r| && IdOf(r[i]) == IdOf(r[j])
        ensures i == j
      {
        if i < |nodes| && j < |nodes| {
          assert IdOf(nodes[i]) == IdOf(nodes[j]);
        }
      }
    }
  }

  // ---------------------------------------------------------------------------
  // Drag end

  /**
   * The nodes after a drag of `active` ends over `over`. `pointer` is the
   * pointer position when the drag was started by a mouse (absent for any
   * other input), `origin` the canvas's corner when the canvas element
   * exists, and `now` the clock reading in milliseconds.
   */
  function DragEndNodes(
    nodes: seq<WorkflowNode>, active: string, over: Option<string>,
    pointer: Option<Position>, origin: Option<Position>, now: nat): (r: seq<WorkflowNode>)
    ensures |nodes| <= |r| <= |nodes| + 1
    ensures forall i :: 0 <= i < |nodes| ==>
      (r[i].id == nodes[i].id && r[i].nodeType == nodes[i].nodeType
        && r[i].name == nodes[i].name && r[i].data == nodes[i].data)
  {
    if over.None? || over.value != "canvas" || pointer.None? || origin.None? then nodes
    else
      var pos := DropPosition(pointer.value, origin.value);
      match PaletteEntryFor(active)
      case Some(entry) => nodes + [PaletteNode(entry, now, pos)]
      case None => if HasNode(nodes, active) then MovedNodes(nodes, active, pos) else nodes
  }

  /** A drag that does not end over the canvas with a mouse, or finds no canvas, changes no node. */
  lemma DragEndOffCanvas(
    nodes: seq<WorkflowNode>, active: string, over: Option<string>,
    pointer: Option<Position>, origin: Option<Position>, now: nat)
    requires over != Some("canvas") || pointer.None? || origin.None?
    ensures DragEndNodes(nodes, active, over, pointer, origin, now) == nodes
  {
  }

  /**
   * Dropping a palette type on the canvas appends exactly one node of that
   * type and name, at a non-negative position, after the unchanged nodes.
   */
  lemma DragEndFromPalette(nodes: seq<WorkflowNode>, active: string, pointer: Position, origin: Position, now: nat)
    requires InPalette(active)
    ensures var r := DragEndNodes(nodes, active, Some("canvas"), Some(pointer), Some(origin), now);
      |r| == |nodes| + 1 && r[..|nodes|] == nodes
      && r[|nodes|].id == NewNodeId(now) && r[|nodes|].nodeType == active
      && r[|nodes|].name == PaletteEntryFor(active).value.name
      && r[|nodes|].position == DropPosition(pointer, origin)
      && r[|nodes|].position.x >= 0 && r[|nodes|].position.y >= 0
  {
    var entry := PaletteEntryFor(active).value;
    var n := PaletteNode(entry, now, DropPosition(pointer, origin));
    assert (nodes + [n])[..|nodes|] == nodes;
  }

  /**
   * Dropping anything else on the canvas moves every node with the dragged
   * id to the drop position and changes nothing else; with no such node it
   * changes nothing at all.
   */
  lemma DragEndMovesNode(nodes: seq<WorkflowNode>, active: string, pointer: Position, origin: Position, now: nat)
    requires !InPalette(active)
    ensures var r := DragEndNodes(nodes, active, Some("canvas"), Some(pointer), Some(origin), now);
      |r| == |nodes|
      && (forall i :: 0 <= i < |nodes| && nodes[i].id != active ==> r[i] == nodes[i])
      && (forall i :: 0 <= i < |nodes| && nodes[i].id == active
            ==> r[i] == nodes[i].(position := DropPosition(pointer, origin)))
  {
    var r := DragEndNodes(nodes, active, Some("canvas"), Some(pointer), Some(origin), now);
    var pos := DropPosition(pointer, origin);
    forall i | 0 <= i < |nodes| && nodes[i].id == active
      ensures r[i] == nodes[i].(position := pos)
    {
      assert HasNode(nodes, active);
    }
  }

  /** No drag end lets a connection come loose. */
  lemma DragEndKeepsAttached(
    nodes: seq<WorkflowNode>, conns: seq<WorkflowConnection>, active: string, over: Option<string>,
    pointer: Option<Position>, origin: Option<Position>, now: nat)
    requires Attached(nodes, conns)
    ensures Attached(DragEndNodes(nodes, active, over, pointer, origin, now), conns)
  {
    if over.Some? && over.value == "canvas" && pointer.Some? && origin.Some? {
      var pos := DropPosition(pointer.value, origin.value);
      match PaletteEntryFor(active)
      case Some(entry) =>
        AppendKeepsAttached(nodes, conns, PaletteNode(entry, now, pos));
      case None =>
        MoveKeepsAttached(nodes, conns, active, pos);
    }
  }

  /** A drag end keeps node ids unique when the clock reading gives an id not yet in use. */
  lemma DragEndKeepsUniqueIds(
    nodes: seq<WorkflowNode>, active: string, over: Option<string>,
    pointer: Option<Position>, origin: Option<Position>, now: nat)
    requires UniqueIds(nodes) && !HasNode(nodes, NewNodeId(now))
    ensures UniqueIds(DragEndNodes(nodes, active, over, pointer, origin, now))
  {
    if over.Some? && over.value == "canvas" && pointer.Some? && origin.Some? {
      var pos := DropPosition(pointer.value, origin.value);
      match PaletteEntryFor(active)
      case Some(entry) =>
        AppendKeepsUniqueIds(nodes, PaletteNode(entry, now, pos));
      case None =>
        MoveKeepsUniqueIds(nodes, active, pos);
    }
  }

  // ---------------------------------------------------------------------------
  // The page state

  /** The builder page's state: its nodes, its connections and the id being dragged. */
  class BuilderState {
    var nodes: seq<WorkflowNode>
    var connections: seq<WorkflowConnection>
    var activeId: Option<string>

    /** Every connection joins two nodes on the canvas. */
    predicate Valid()
      reads this
    {
      Attached(nodes, connections)
    }

    /** The page opens on an empty canvas with nothing being dragged. */
    constructor ()
      ensures Valid()
      ensures nodes == [] && connections == [] && activeId == None
    {
      nodes := [];
      connections := [];
      activeId := None;
    }

    /** `handleDragStart`: remember the id being dragged. */
    method HandleDragStart(id: string)
      requires Valid()
      modifies this
      ensures Valid()
      ensures activeId == Some(id)
      ensures nodes == old(nodes) && connections == old(connections)
    {
      activeId := Some(id);
    }

    /** `handleDragEnd`: add or move a node when the drop is on the canvas, and end the drag. */
    method HandleDragEnd(active: string, over: Option<string>, pointer: Option<Position>, origin: Option<Position>, now: nat)
      requires Valid()
      modifies this
      ensures Valid()
      ensures nodes == DragEndNodes(old(nodes), active, over, pointer, origin, now)
      ensures connections == old(connections)
      ensures activeId == None
    {
      DragEndKeepsAttached(nodes, connections, active, over, pointer, origin, now);
      if over.None? {
        activeId := None;
        return;
      }
      if over.value == "canvas" && pointer.Some? {
        if origin.None? {
          activeId := None;
          return;
        }
        var pos := DropPosition(pointer.value, origin.value);
        var nodeType := PaletteEntryFor(active);
        if nodeType.Some? {
          nodes := nodes + [PaletteNode(nodeType.value, now, pos)];
        } else if HasNode(nodes, active) {
          nodes := MovedNodes(nodes, active, pos);
        }
      }
      activeId := None;
    }

    /** `handleAddNode`: append a node of the given palette type at a random position. */
    method HandleAddNode(entry: PaletteEntry, now: nat, rx: real, ry: real)
      requires Valid()
      requires 0.0 <= rx < 1.0 && 0.0 <= ry < 1.0
      modifies this
      ensures Valid()
      ensures nodes == old(nodes) + [PaletteNode(entry, now, AddPosition(rx, ry))]
      ensures connections == old(connections) && activeId == old(activeId)
    {
      var newNode := PaletteNode(entry, now, AddPosition(rx, ry));
      AppendKeepsAttached(nodes, connections, newNode);
      nodes := nodes + [newNode];
    }

    /** `handleDeleteNode`: remove the node and every connection touching it. */
    method HandleDeleteNode(nodeId: string)
      requires Valid()
      modifies this
      ensures Valid()
      ensures nodes == NodesWithout(old(nodes), nodeId)
      ensures connections == ConnectionsWithout(old(connections), nodeId)
      ensures activeId == old(activeId)
    {
      DeleteKeepsAttached(nodes, connections, nodeId);
      nodes := NodesWithout(nodes, nodeId);
      connections := ConnectionsWithout(connections, nodeId);
    }
  }
}
