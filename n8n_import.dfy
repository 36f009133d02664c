/**
 * Import: an engine workflow back to the builder graph
 * (`convertFromN8nWorkflow` in src/utils/n8n-converter.ts).
 *
 * Engine connections name their nodes; the builder addresses nodes by id.
 * Import walks the connections object entry by entry, slot by slot and
 * target by target, and pushes one builder connection for every target whose
 * source and target names both belong to an imported node. The spec
 * functions below follow that walk from the back, so that each loop of the
 * method extends its result by one step.
 */
module N8nImport {
  import opened Wrappers
  import opened Seqs
  import opened Strings
  import opened WorkflowBuilderTypes
  import opened N8nTypes
  import opened N8nConverter

  /** `nodes.find((n) => n.name === name)`. */
  function NodeNamed(nodes: seq<WorkflowNode>, name: string): (r: Option<WorkflowNode>)
    ensures r.Some? ==> r.value in nodes && r.value.name == name
    ensures r.None? <==> forall n :: n in nodes ==> n.name != name
    ensures r.Some? ==> exists i :: 0 <= i < |nodes| && nodes[i] == r.value && forall j :: 0 <= j < i ==> nodes[j].name != name
  {
    if |nodes| == 0 then None
    else if nodes[0].name == name then Some(nodes[0])
    else NodeNamed(nodes[1..], name)
  }

  /** The id template `conn-${source}-${target}-${outputIndex}-${connectionIndex}`. */
  function ConnectionId(sourceId: string, targetId: string, outputIndex: nat, connectionIndex: nat): (r: string)
    ensures |r| > 5 && r[..5] == "conn-"
  {
    "conn-" + sourceId + "-" + targetId + "-" + NatToString(outputIndex) + "-" + NatToString(connectionIndex)
  }

  /**
   * Between the same two nodes, the ids of connections pushed for different
   * (slot, entry) positions differ: the two numerals hold no `-`.
   */
  lemma ConnectionIdsDiffer(sourceId: string, targetId: string, o1: nat, k1: nat, o2: nat, k2: nat)
    requires (o1, k1) != (o2, k2)
    ensures ConnectionId(sourceId, targetId, o1, k1) != ConnectionId(sourceId, targetId, o2, k2)
  {
    var prefix := "conn-" + sourceId + "-" + targetId + "-";
    var a := NatToString(o1) + "-" + NatToString(k1);
    var b := NatToString(o2) + "-" + NatToString(k2);
    assert ConnectionId(sourceId, targetId, o1, k1) == prefix + a;
    assert ConnectionId(sourceId, targetId, o2, k2) == prefix + b;
    if a == b {
      NoDash(o1); NoDash(k1); NoDash(o2); NoDash(k2);
      SplitOnce(NatToString(o1), '-', NatToString(k1));
      SplitOnce(NatToString(o2), '-', NatToString(k2));
      NatToStringValue(o1); NatToStringValue(k1);
      NatToStringValue(o2); NatToStringValue(k2);
    } else {
      assert (prefix + a)[|prefix|..] == a && (prefix + b)[|prefix|..] == b;
    }
  }

  /** A decimal numeral holds no `-`. */
  lemma NoDash(n: nat)
    ensures '-' !in NatToString(n)
  {
    var s := NatToString(n);
    assert forall i :: 0 <= i < |s| ==> s[i] != '-';
  }

  /** The connection pushed for target entry `t` found at `connectionIndex` of slot `outputIndex`. */
  function ImportedConnection(
    source: WorkflowNode, target: WorkflowNode, outputIndex: nat, connectionIndex: nat, t: N8nTarget): (r: WorkflowConnection)
    ensures r.source == source.id && r.target == target.id
  {
    WorkflowConnection(
      ConnectionId(source.id, target.id, outputIndex, connectionIndex),
      source.id,
      target.id,
      Some("output-" + NatToString(outputIndex)),
      Some("input-" + IntToString(t.index.GetOr(0))))
  }

  /** What the innermost loop pushes for one target entry: one connection, or none when its node is unknown. */
  function TargetConnection(
    nodes: seq<WorkflowNode>, source: WorkflowNode, outputIndex: nat, connectionIndex: nat, t: N8nTarget)
    : seq<WorkflowConnection>
  {
    match NodeNamed(nodes, t.node)
    case None => []
    case Some(target) => [ImportedConnection(source, target, outputIndex, connectionIndex, t)]
  }

  /** `TargetConnection` for slot `outputIndex`, as a function of the entry's position and value. */
  function TargetStep(nodes: seq<WorkflowNode>, source: WorkflowNode, outputIndex: nat)
    : (nat, N8nTarget) -> seq<WorkflowConnection>
  {
    (k: nat, t: N8nTarget) => TargetConnection(nodes, source, outputIndex, k, t)
  }

  /** What the innermost loop pushes for the target entries `targets` of slot `outputIndex`, in order. */
  function SlotConnections(
    nodes: seq<WorkflowNode>, source: WorkflowNode, outputIndex: nat, targets: seq<N8nTarget>)
    : seq<WorkflowConnection>
  {
    FlatMap(TargetStep(nodes, source, outputIndex), targets)
  }

  /** `SlotConnections` of one source node, as a function of the slot's position and targets. */
  function SlotStep(nodes: seq<WorkflowNode>, source: WorkflowNode): (nat, seq<N8nTarget>) -> seq<WorkflowConnection>
  {
    (o: nat, targets: seq<N8nTarget>) => SlotConnections(nodes, source, o, targets)
  }

  /** What the middle loop pushes for the output slots `slots` of one source node, in order. */
  function SlotsConnections(nodes: seq<WorkflowNode>, source: WorkflowNode, slots: seq<seq<N8nTarget>>)
    : seq<WorkflowConnection>
  {
    FlatMap(SlotStep(nodes, source), slots)
  }

  /** What one entry contributes: nothing when its source name is unknown or it has no `main`. */
  function EntryConnections(nodes: seq<WorkflowNode>, entry: (string, N8nConnectionData)): seq<WorkflowConnection>
  {
    match (NodeNamed(nodes, entry.0), entry.1.main)
    case (Some(source), Some(slots)) => SlotsConnections(nodes, source, slots)
    case _ => []
  }

  /** What the outer loop pushes for the entries `entries`, in order. */
  function EntriesConnections(nodes: seq<WorkflowNode>, entries: N8nConnections): seq<WorkflowConnection>
  {
    if |entries| == 0 then []
    else EntriesConnections(nodes, entries[..|entries| - 1]) + EntryConnections(nodes, entries[|entries| - 1])
  }

  /** The `connections` import returns; a workflow without a connections object has none. */
  function ImportConnections(nodes: seq<WorkflowNode>, connections: Option<N8nConnections>): seq<WorkflowConnection>
  {
    match connections
    case None => []
    case Some(entries) => EntriesConnections(nodes, entries)
  }

  /**
   * The innermost `forEach`: push a connection for every target entry of slot
   * `outputIndex` whose node exists, in order.
   */
  method PushSlotConnections(
    nodes: seq<WorkflowNode>, source: WorkflowNode, outputIndex: nat, outputArray: seq<N8nTarget>,
    connections: seq<WorkflowConnection>)
    returns (pushed: seq<WorkflowConnection>)
    ensures pushed == connections + SlotConnections(nodes, source, outputIndex, outputArray)
  {
    pushed := connections;
    var connectionIndex := 0;
    while connectionIndex < |outputArray|
      invariant connectionIndex <= |outputArray|
      invariant pushed == connections + SlotConnections(nodes, source, outputIndex, outputArray[..connectionIndex])
    {
      var connection := outputArray[connectionIndex];
      var targetNode := NodeNamed(nodes, connection.node);
      ghost var done := SlotConnections(nodes, source, outputIndex, outputArray[..connectionIndex]);
      ghost var step := TargetConnection(nodes, source, outputIndex, connectionIndex, connection);
      if targetNode.Some? {
        var c := ImportedConnection(source, targetNode.value, outputIndex, connectionIndex, connection);
        assert step == [c];
        pushed := pushed + [c];
      } else {
        assert step == [];
        assert pushed == pushed + step;
      }
      assert pushed == connections + done + step;
      SlotConnectionsSnoc(nodes, source, outputIndex, outputArray, connectionIndex);
      AppendAssoc(connections, done, step);
      connectionIndex := connectionIndex + 1;
    }
    WholePrefix(outputArray, connectionIndex);
  }

  /** The middle `forEach`: the connections of every output slot of one source node, slot by slot. */
  method PushSlotsConnections(
    nodes: seq<WorkflowNode>, source: WorkflowNode, slots: seq<seq<N8nTarget>>, connections: seq<WorkflowConnection>)
    returns (pushed: seq<WorkflowConnection>)
    ensures pushed == connections + SlotsConnections(nodes, source, slots)
  {
    pushed := connections;
    var outputIndex := 0;
    while outputIndex < |slots|
      invariant outputIndex <= |slots|
      invariant pushed == connections + SlotsConnections(nodes, source, slots[..outputIndex])
    {
      ghost var done := SlotsConnections(nodes, source, slots[..outputIndex]);
      pushed := PushSlotConnections(nodes, source, outputIndex, slots[outputIndex], pushed);
      SlotsConnectionsSnoc(nodes, source, slots, outputIndex);
      AppendAssoc(connections, done, SlotConnections(nodes, source, outputIndex, slots[outputIndex]));
      outputIndex := outputIndex + 1;
    }
    WholePrefix(slots, outputIndex);
  }

  /**
   * One turn of the outer `forEach` over `entries[i]`: when its source name
   * resolves and it has `main`, push the connections of its slots; the
   * connections of the first `i` entries become those of the first `i + 1`.
   */
  method ImportStep(nodes: seq<WorkflowNode>, entries: N8nConnections, i: nat, connections: seq<WorkflowConnection>)
    returns (pushed: seq<WorkflowConnection>)
    requires i < |entries|
    requires connections == EntriesConnections(nodes, entries[..i])
    ensures pushed == EntriesConnections(nodes, entries[..i + 1])
  {
    var sourceName, connectionData := entries[i].0, entries[i].1;
    var sourceNode := NodeNamed(nodes, sourceName);
    EntriesConnectionsSnoc(nodes, entries, i);
    if sourceNode.Some? && connectionData.main.Some? {
      pushed := PushSlotsConnections(nodes, sourceNode.value, connectionData.main.value, connections);
    } else {
      assert EntryConnections(nodes, entries[i]) == [];
      assert connections + [] == connections;
      pushed := connections;
    }
  }

  /** The outer `forEach`: every entry of the connections object, in order. */
  method ImportEntries(nodes: seq<WorkflowNode>, entries: N8nConnections) returns (connections: seq<WorkflowConnection>)
    ensures connections == EntriesConnections(nodes, entries)
  {
    connections := [];
    var i := 0;
    while i < |entries|
      invariant i <= |entries|
      invariant connections == EntriesConnections(nodes, entries[..i])
    {
      connections := ImportStep(nodes, entries, i, connections);
      i := i + 1;
    }
    WholePrefix(entries, i);
  }

  /**
   * `convertFromN8nWorkflow`: the mapped nodes, and the connections pushed
   * entry by entry; an entry whose source name is unknown or that has no
   * `main` is skipped.
   */
  method ConvertFromN8nWorkflow(w: N8nWorkflow) returns (nodes: seq<WorkflowNode>, connections: seq<WorkflowConnection>)
    ensures nodes == Map(ConvertFromN8nNode, w.nodes)
    ensures connections == ImportConnections(nodes, w.connections)
  {
    nodes := Map(ConvertFromN8nNode, w.nodes);
    connections := [];
    if w.connections.Some? {
      connections := ImportEntries(nodes, w.connections.value);
    }
  }

  /** One more target entry adds what it contributes at the end. */
  lemma SlotConnectionsSnoc(
    nodes: seq<WorkflowNode>, source: WorkflowNode, outputIndex: nat, targets: seq<N8nTarget>, k: nat)
    requires k < |targets|
    ensures SlotConnections(nodes, source, outputIndex, targets[..k + 1])
      == SlotConnections(nodes, source, outputIndex, targets[..k])
        + TargetConnection(nodes, source, outputIndex, k, targets[k])
  {
    FlatMapPrefix(TargetStep(nodes, source, outputIndex), targets, k);
  }

  /** One more slot adds what it contributes at the end. */
  lemma SlotsConnectionsSnoc(nodes: seq<WorkflowNode>, source: WorkflowNode, slots: seq<seq<N8nTarget>>, k: nat)
    requires k < |slots|
    ensures SlotsConnections(nodes, source, slots[..k + 1])
      == SlotsConnections(nodes, source, slots[..k]) + SlotConnections(nodes, source, k, slots[k])
  {
    FlatMapPrefix(SlotStep(nodes, source), slots, k);
  }

  /** One more entry adds what it contributes at the end. */
  lemma EntriesConnectionsSnoc(nodes: seq<WorkflowNode>, entries: N8nConnections, k: nat)
    requires k < |entries|
    ensures EntriesConnections(nodes, entries[..k + 1])
      == EntriesConnections(nodes, entries[..k]) + EntryConnections(nodes, entries[k])
  {
    assert entries[..k + 1][..k] == entries[..k];
  }

  // ---------------------------------------------------------------------------
  // What import produces

  /** Whether `c` is the connection pushed for the `k`-th target entry of slot `outputIndex`. */
  predicate PushedFor(
    nodes: seq<WorkflowNode>, source: WorkflowNode, outputIndex: nat, targets: seq<N8nTarget>, k: nat,
    c: WorkflowConnection)
  {
    k < |targets| && c in TargetConnection(nodes, source, outputIndex, k, targets[k])
  }

  /** A target entry yields a connection exactly when its node name resolves, and then that connection. */
  lemma PushedForResolves(
    nodes: seq<WorkflowNode>, source: WorkflowNode, outputIndex: nat, targets: seq<N8nTarget>, k: nat,
    c: WorkflowConnection)
    ensures PushedFor(nodes, source, outputIndex, targets, k, c)
      <==> (k < |targets| && NodeNamed(nodes, targets[k].node).Some?
        && c == ImportedConnection(source, NodeNamed(nodes, targets[k].node).value, outputIndex, k, targets[k]))
  {
  }

  /** A connection pushed for a target entry of a slot is among that slot's connections. */
  lemma PushedInSlot(
    nodes: seq<WorkflowNode>, source: WorkflowNode, outputIndex: nat, targets: seq<N8nTarget>, k: nat,
    c: WorkflowConnection)
    requires PushedFor(nodes, source, outputIndex, targets, k, c)
    ensures c in SlotConnections(nodes, source, outputIndex, targets)
  {
    InFlatMap(TargetStep(nodes, source, outputIndex), targets, k, c);
  }

  /** Every connection of a slot was pushed for one of its target entries. */
  lemma SlotMemberOrigin(
    nodes: seq<WorkflowNode>, source: WorkflowNode, outputIndex: nat, targets: seq<N8nTarget>, c: WorkflowConnection)
    returns (k: nat)
    requires c in SlotConnections(nodes, source, outputIndex, targets)
    ensures PushedFor(nodes, source, outputIndex, targets, k, c)
  {
    k := FlatMapMember(TargetStep(nodes, source, outputIndex), targets, c);
  }

  /** A connection pushed for a target entry of slot `o` is among the source node's connections. */
  lemma PushedInSlots(
    nodes: seq<WorkflowNode>, source: WorkflowNode, slots: seq<seq<N8nTarget>>, o: nat, k: nat, c: WorkflowConnection)
    requires o < |slots| && PushedFor(nodes, source, o, slots[o], k, c)
    ensures c in SlotsConnections(nodes, source, slots)
  {
    PushedInSlot(nodes, source, o, slots[o], k, c);
    InFlatMap(SlotStep(nodes, source), slots, o, c);
  }

  /** Every connection of a source node was pushed for a target entry of one of its slots. */
  lemma SlotsMemberOrigin(
    nodes: seq<WorkflowNode>, source: WorkflowNode, slots: seq<seq<N8nTarget>>, c: WorkflowConnection)
    returns (o: nat, k: nat)
    requires c in SlotsConnections(nodes, source, slots)
    ensures o < |slots| && PushedFor(nodes, source, o, slots[o], k, c)
  {
    o := FlatMapMember(SlotStep(nodes, source), slots, c);
    k := SlotMemberOrigin(nodes, source, o, slots[o], c);
  }

  /**
   * Whether `c` is pushed for target entry `k` of slot `o` of entry `e`: the
   * entry's source name resolves, it has `main`, and the target name resolves.
   */
  predicate EntryPushed(nodes: seq<WorkflowNode>, entries: N8nConnections, e: nat, o: nat, k: nat, c: WorkflowConnection)
  {
    e < |entries| && NodeNamed(nodes, entries[e].0).Some? && entries[e].1.main.Some?
    && o < |entries[e].1.main.value|
    && PushedFor(nodes, NodeNamed(nodes, entries[e].0).value, o, entries[e].1.main.value[o], k, c)
  }

  /** The imported connections of a list of entries include those of every prefix of it. */
  lemma InEntriesPrefix(nodes: seq<WorkflowNode>, entries: N8nConnections, c: WorkflowConnection)
    requires |entries| > 0 && c in EntriesConnections(nodes, entries[..|entries| - 1])
    ensures c in EntriesConnections(nodes, entries)
  {
  }

  /** A connection pushed for a resolvable target of the last entry is imported. */
  lemma PushedInLastEntry(nodes: seq<WorkflowNode>, entries: N8nConnections, e: nat, o: nat, k: nat, c: WorkflowConnection)
    requires e == |entries| - 1 && EntryPushed(nodes, entries, e, o, k, c)
    ensures c in EntriesConnections(nodes, entries)
  {
    var entry := entries[e];
    PushedInSlots(nodes, NodeNamed(nodes, entry.0).value, entry.1.main.value, o, k, c);
  }

  /** A connection pushed for a resolvable target of a resolvable entry is imported. */
  lemma {:induction false} PushedInEntries(
    nodes: seq<WorkflowNode>, entries: N8nConnections, e: nat, o: nat, k: nat, c: WorkflowConnection)
    requires EntryPushed(nodes, entries, e, o, k, c)
    ensures c in EntriesConnections(nodes, entries)
    decreases |entries|
  {
    var n := |entries| - 1;
    if e < n {
      var init := entries[..n];
      assert EntryPushed(nodes, init, e, o, k, c) by {
        assert init[e] == entries[e];
      }
      PushedInEntries(nodes, init, e, o, k, c);
      InEntriesPrefix(nodes, entries, c);
    } else {
      PushedInLastEntry(nodes, entries, e, o, k, c);
    }
  }

  /** Every imported connection was pushed for a resolvable target of a resolvable entry. */
  lemma {:induction false} EntriesMemberOrigin(nodes: seq<WorkflowNode>, entries: N8nConnections, c: WorkflowConnection)
    returns (e: nat, o: nat, k: nat)
    requires c in EntriesConnections(nodes, entries)
    ensures EntryPushed(nodes, entries, e, o, k, c)
    decreases |entries|
  {
    var n := |entries| - 1;
    var init := entries[..n];
    if c in EntriesConnections(nodes, init) {
      e, o, k := EntriesMemberOrigin(nodes, init, c);
      assert init[e] == entries[e];
    } else {
      e := n;
      o, k := SlotsMemberOrigin(nodes, NodeNamed(nodes, entries[n].0).value, entries[n].1.main.value, c);
    }
  }

  /**
   * Every imported connection joins two imported nodes: its source and target
   * are ids of nodes in `nodes`, and its handles name an output slot and an input.
   */
  lemma ImportedEndpointsExist(nodes: seq<WorkflowNode>, connections: Option<N8nConnections>, c: WorkflowConnection)
    returns (source: WorkflowNode, target: WorkflowNode, outputIndex: nat)
    requires c in ImportConnections(nodes, connections)
    ensures source in nodes && source.id == c.source
    ensures target in nodes && target.id == c.target
    ensures c.sourceHandle == Some("output-" + NatToString(outputIndex))
  {
    var entries := connections.value;
    var e, o, k := EntriesMemberOrigin(nodes, entries, c);
    source := NodeNamed(nodes, entries[e].0).value;
    var targets := entries[e].1.main.value[o];
    PushedForResolves(nodes, source, o, targets, k, c);
    target := NodeNamed(nodes, targets[k].node).value;
    outputIndex := o;
  }

  /** Import handles the entries of a concatenation one after the other. */
  lemma {:induction false} EntriesConnectionsAppend(nodes: seq<WorkflowNode>, a: N8nConnections, b: N8nConnections)
    ensures EntriesConnections(nodes, a + b) == EntriesConnections(nodes, a) + EntriesConnections(nodes, b)
    decreases |b|
  {
    if |b| == 0 {
      assert a + b == a;
    } else {
      var n := |b| - 1;
      assert (a + b)[..|a + b| - 1] == a + b[..n];
      EntriesConnectionsAppend(nodes, a, b[..n]);
      AppendAssoc(EntriesConnections(nodes, a), EntriesConnections(nodes, b[..n]), EntryConnections(nodes, b[n]));
    }
  }

  /** Import of a list of entries splits around any one of them. */
  lemma EntriesConnectionsAt(nodes: seq<WorkflowNode>, g: N8nConnections, k: nat)
    requires k < |g|
    ensures EntriesConnections(nodes, g)
      == EntriesConnections(nodes, g[..k]) + EntryConnections(nodes, g[k]) + EntriesConnections(nodes, g[k + 1..])
  {
    assert g == g[..k] + [g[k]] + g[k + 1..];
    EntriesConnectionsAppend(nodes, g[..k] + [g[k]], g[k + 1..]);
    EntriesConnectionsAppend(nodes, g[..k], [g[k]]);
    assert [g[k]][..0] == [];
  }

  /**
   * An entry whose source name matches no node, or that has no `main`, is
   * skipped: removing it changes nothing, and the other entries are imported as before.
   */
  lemma SkippedEntry(nodes: seq<WorkflowNode>, entries: N8nConnections, e: nat)
    requires e < |entries|
    requires NodeNamed(nodes, entries[e].0).None? || entries[e].1.main.None?
    ensures EntriesConnections(nodes, entries) == EntriesConnections(nodes, entries[..e] + entries[e + 1..])
  {
    var before, after := EntriesConnections(nodes, entries[..e]), EntriesConnections(nodes, entries[e + 1..]);
    EntriesConnectionsAt(nodes, entries, e);
    assert EntryConnections(nodes, entries[e]) == [];
    assert before + [] + after == before + after;
    EntriesConnectionsAppend(nodes, entries[..e], entries[e + 1..]);
  }
}
