/**
 * The converter between the builder's id-addressed graph and the engine's
 * name-addressed workflow (src/utils/n8n-converter.ts).
 */
module N8nConverter {
  import opened Wrappers
  import opened Seqs
  import opened Strings
  import opened WorkflowBuilderTypes
  import opened N8nTypes
  import opened NodeTypeRegistry

  // ---------------------------------------------------------------------------
  // Nodes

  /** The engine's `typeVersion` for every exported node. */
  const ExportTypeVersion := 1

  /** `convertToN8nNode`: same id, name and position; mapped type; payload or `{}`. */
  function ConvertToN8nNode(node: WorkflowNode): (r: N8nNode)
    ensures r.id == node.id && r.name == node.name
    ensures r.nodeType == ToEngineType(node.nodeType) && r.nodeType in NodeTypeMap.Values
    ensures r.typeVersion == 1 && r.webhookId.None?
    ensures r.position == [node.position.x, node.position.y]
    ensures r.parameters == Some(node.data.GetOr(EmptyParams))
  {
    N8nNode(
      node.id,
      node.name,
      ToEngineType(node.nodeType),
      ExportTypeVersion,
      [node.position.x, node.position.y],
      Some(node.data.GetOr(EmptyParams)),
      None)
  }

  /** `arr.pop()` on the result of a split: the last part. */
  function LastPart(parts: seq<string>): string
    requires |parts| >= 1
  {
    parts[|parts| - 1]
  }

  /** `n8nNode.name || n8nNode.type.split('.').pop() || 'Node'`. */
  function ImportedName(n: N8nNode): (r: string)
    ensures r != ""
    ensures n.name != "" ==> r == n.name
    ensures n.name == "" && '.' !in n.nodeType ==> r == (if n.nodeType != "" then n.nodeType else "Node")
  {
    if n.name != "" then n.name
    else
      var last := LastPart(Split(n.nodeType, '.'));
      assert '.' !in n.nodeType ==> last == n.nodeType by {
        if '.' !in n.nodeType { SplitWithoutSep(n.nodeType, '.'); }
      }
      if last != "" then last else "Node"
  }

  /** A nameless node is named after what follows the last `.` of its type, or `Node` when nothing does. */
  lemma ImportedNameAfterLastDot(n: N8nNode, prefix: string, suffix: string)
    requires n.name == "" && n.nodeType == prefix + "." + suffix && '.' !in suffix
    ensures ImportedName(n) == if suffix != "" then suffix else "Node"
  {
    var t := n.nodeType;
    assert forall j :: |prefix| < j < |t| ==> t[j] == suffix[j - |prefix| - 1];
    LastSplitPart(t, '.', |prefix|);
    assert t[|prefix| + 1..] == suffix;
  }

  /** `n8nNode.position[k] || 0`: a missing coordinate reads as 0. */
  function Coordinate(position: seq<int>, k: nat): (r: int)
    ensures k < |position| ==> r == position[k]
    ensures k >= |position| ==> r == 0
  {
    if k < |position| then position[k] else 0
  }

  /** `convertFromN8nNode`: same id, a known tag, a non-empty name, payload or `{}`. */
  function ConvertFromN8nNode(n: N8nNode): (r: WorkflowNode)
    ensures r.id == n.id
    ensures r.nodeType == ToNodeType(n.nodeType) && r.nodeType in NodeTypeMap
    ensures r.position == Position(Coordinate(n.position, 0), Coordinate(n.position, 1))
    ensures r.name == ImportedName(n) && r.name != "" && (n.name != "" ==> r.name == n.name)
    ensures r.data == Some(n.parameters.GetOr(EmptyParams))
  {
    ToNodeTypeKnown(n.nodeType);
    WorkflowNode(
      n.id,
      ToNodeType(n.nodeType),
      ImportedName(n),
      Position(Coordinate(n.position, 0), Coordinate(n.position, 1)),
      Some(n.parameters.GetOr(EmptyParams)))
  }

  /** The last dot-separated part of a base-package type is its suffix. */
  lemma LastPartOfBaseType(suffix: string)
    requires '.' !in suffix
    ensures LastPart(Split(BaseType(suffix), '.')) == suffix
  {
    SplitOnce(BasePackage, '.', suffix);
  }

  /** A nameless node comes back named after the suffix of the engine type it was exported as. */
  lemma NameRoundTrip(node: WorkflowNode)
    ensures ImportedName(ConvertToN8nNode(node))
      == if node.name != "" then node.name else LastPart(Split(ToEngineType(node.nodeType), '.'))
  {
    if node.name == "" {
      var suffix := EngineSuffix(node.nodeType);
      LastPartOfBaseType(suffix);
    }
  }

  /**
   * Export then import of one node keeps its id, position and name (a blank
   * name comes back as its engine type's suffix), maps the type through the
   * tables, and turns a missing payload into `{}`.
   */
  lemma NodeRoundTrip(node: WorkflowNode)
    ensures var r := ConvertFromN8nNode(ConvertToN8nNode(node));
      && r.id == node.id
      && r.position == node.position
      && r.nodeType == (if node.nodeType in NodeTypeMap then node.nodeType else DefaultNodeType)
      && r.name == (if node.name != "" then node.name else LastPart(Split(ToEngineType(node.nodeType), '.')))
      && r.data == Some(node.data.GetOr(EmptyParams))
  {
    TypeRoundTrip(node.nodeType);
    NameRoundTrip(node);
  }

  // ---------------------------------------------------------------------------
  // Export: builder graph to engine workflow

  /** `nodes.find((n) => n.id === id)`. */
  function NodeWithId(nodes: seq<WorkflowNode>, id: string): (r: Option<WorkflowNode>)
    ensures r.Some? ==> r.value in nodes && r.value.id == id
    ensures r.None? <==> forall n :: n in nodes ==> n.id != id
    ensures r.Some? ==> exists i :: 0 <= i < |nodes| && nodes[i] == r.value && forall j :: 0 <= j < i ==> nodes[j].id != id
  {
    Find(nodes, (n: WorkflowNode) => n.id == id)
  }

  /** The names of a connection's two end nodes, when both ids resolve. */
  function ResolvedPair(nodes: seq<WorkflowNode>, conn: WorkflowConnection): (r: Option<(string, string)>)
    ensures r.Some? <==> NodeWithId(nodes, conn.source).Some? && NodeWithId(nodes, conn.target).Some?
    ensures r.Some? ==> r.value == (NodeWithId(nodes, conn.source).value.name, NodeWithId(nodes, conn.target).value.name)
  {
    match (NodeWithId(nodes, conn.source), NodeWithId(nodes, conn.target))
    case (Some(source), Some(target)) => Some((source.name, target.name))
    case _ => None
  }

  /** The (source name, target name) pairs of the connections that survive export, in order. */
  function ResolvedPairs(nodes: seq<WorkflowNode>, conns: seq<WorkflowConnection>): (r: seq<(string, string)>)
    ensures |r| <= |conns|
  {
    if |conns| == 0 then []
    else
      var pair := ResolvedPair(nodes, conns[|conns| - 1]);
      ResolvedPairs(nodes, conns[..|conns| - 1]) + (if pair.Some? then [pair.value] else [])
  }

  /** The target entry export writes for every connection: `{ node, type: 'main', index: 0 }`. */
  function MainTarget(name: string): N8nTarget
  {
    N8nTarget(name, "main", Some(0))
  }

  /** The source name of a pair. */
  function SourceOf(p: (string, string)): string
  {
    p.0
  }

  /** The target entry export writes for a pair. */
  function TargetEntry(p: (string, string)): N8nTarget
  {
    MainTarget(p.1)
  }

  /** Whether a pair's source is `key`. */
  function FromKey(key: string): ((string, string)) -> bool
  {
    (p: (string, string)) => p.0 == key
  }

  /** The source names of a pair list, in order. */
  function Sources(pairs: seq<(string, string)>): seq<string>
  {
    Map(SourceOf, pairs)
  }

  /** The target entries of the pairs whose source is `key`, in order. */
  function TargetsOf(pairs: seq<(string, string)>, key: string): seq<N8nTarget>
  {
    Map(TargetEntry, Filter(pairs, FromKey(key)))
  }

  /** The value stored under `key`: a single output slot holding its targets. */
  function GroupEntry(pairs: seq<(string, string)>, key: string): (string, N8nConnectionData)
  {
    (key, N8nConnectionData(Some([TargetsOf(pairs, key)])))
  }

  /**
   * The engine connections object for a pair list: one entry per distinct
   * source name, in order of first appearance, whose only slot lists that
   * source's targets in order.
   */
  function Grouped(pairs: seq<(string, string)>): (r: N8nConnections)
    ensures |r| == |Distinct(Sources(pairs))|
    ensures forall k :: 0 <= k < |r| ==> r[k] == GroupEntry(pairs, Distinct(Sources(pairs))[k])
  {
    Map((key: string) => GroupEntry(pairs, key), Distinct(Sources(pairs)))
  }

  /** The `connections` field export writes: the grouping, or absent when it is empty. */
  function ExportConnections(nodes: seq<WorkflowNode>, conns: seq<WorkflowConnection>): (r: Option<N8nConnections>)
    ensures r.None? <==> ResolvedPairs(nodes, conns) == []
    ensures r.Some? ==> r.value == Grouped(ResolvedPairs(nodes, conns))
  {
    var pairs := ResolvedPairs(nodes, conns);
    var grouped := Grouped(pairs);
    if |grouped| > 0 then Some(grouped) else None
  }

  /** The position of `key` among an object's entries (`n8nConnections[key]`). */
  function KeyIndex(cs: N8nConnections, key: string): (r: Option<nat>)
    ensures r.Some? ==> r.value < |cs| && cs[r.value].0 == key
    ensures r.None? <==> forall k :: 0 <= k < |cs| ==> cs[k].0 != key
  {
    FirstIndex(cs, (e: (string, N8nConnectionData)) => e.0 == key)
  }

  /** One more pair adds its source at the end of the source list. */
  lemma SourcesSnoc(pairs: seq<(string, string)>, p: (string, string))
    ensures Sources(pairs + [p]) == Sources(pairs) + [p.0]
  {
    MapAppend(SourceOf, pairs, [p]);
  }

  /** One more pair adds its target at the end of its source's targets, and nowhere else. */
  lemma TargetsOfSnoc(pairs: seq<(string, string)>, p: (string, string), key: string)
    ensures TargetsOf(pairs + [p], key)
      == TargetsOf(pairs, key) + if p.0 == key then [MainTarget(p.1)] else []
  {
    FilterAppend(pairs, [p], FromKey(key));
    MapAppend(TargetEntry, Filter(pairs, FromKey(key)), Filter([p], FromKey(key)));
  }

  /** A name that is no pair's source has no targets. */
  lemma NoTargetsOfOther(pairs: seq<(string, string)>, key: string)
    requires key !in Sources(pairs)
    ensures TargetsOf(pairs, key) == []
  {
    forall q | q in pairs
      ensures !FromKey(key)(q)
    {
      var i :| 0 <= i < |pairs| && pairs[i] == q;
      assert Sources(pairs)[i] == q.0;
    }
    FilterDropsAll(pairs, FromKey(key));
  }

  /** The grouping has an entry for a name exactly when some pair has that source. */
  lemma GroupedKeys(pairs: seq<(string, string)>, key: string)
    ensures key in Sources(pairs) <==> exists k :: 0 <= k < |Grouped(pairs)| && Grouped(pairs)[k].0 == key
  {
    var keys := Distinct(Sources(pairs));
    if key in Sources(pairs) {
      var i :| 0 <= i < |Sources(pairs)| && Sources(pairs)[i] == key;
      var k :| 0 <= k < |keys| && keys[k] == key;
      assert Grouped(pairs)[k].0 == key;
    }
  }

  /** The entry of a key other than the new pair's source does not change. */
  lemma GroupEntrySnocOther(pairs: seq<(string, string)>, p: (string, string), key: string)
    requires key != p.0
    ensures GroupEntry(pairs + [p], key) == GroupEntry(pairs, key)
  {
    TargetsOfSnoc(pairs, p, key);
    assert TargetsOf(pairs, key) + [] == TargetsOf(pairs, key);
  }

  /** The entry of the new pair's source gains its target at the end. */
  lemma GroupEntrySnocSame(pairs: seq<(string, string)>, p: (string, string))
    ensures GroupEntry(pairs + [p], p.0)
      == (p.0, N8nConnectionData(Some([TargetsOf(pairs, p.0) + [MainTarget(p.1)]])))
  {
    TargetsOfSnoc(pairs, p, p.0);
  }

  /** The keys of the grouping after one more pair: the new source, when new, goes last. */
  lemma GroupedKeysSnoc(pairs: seq<(string, string)>, p: (string, string))
    ensures Distinct(Sources(pairs + [p]))
      == if p.0 in Sources(pairs) then Distinct(Sources(pairs)) else Distinct(Sources(pairs)) + [p.0]
  {
    SourcesSnoc(pairs, p);
    DistinctSnoc(Sources(pairs), p.0);
  }

  /** One more pair leaves every existing entry of another source as it was. */
  lemma GroupedSnocOthers(pairs: seq<(string, string)>, p: (string, string))
    ensures |Grouped(pairs)| <= |Grouped(pairs + [p])|
    ensures forall j :: 0 <= j < |Grouped(pairs)| && Grouped(pairs)[j].0 != p.0 ==>
      Grouped(pairs + [p])[j] == Grouped(pairs)[j]
  {
    var g, g' := Grouped(pairs), Grouped(pairs + [p]);
    ghost var keys := Distinct(Sources(pairs));
    assert keys <= Distinct(Sources(pairs + [p])) by {
      GroupedKeysSnoc(pairs, p);
    }
    forall j | 0 <= j < |g| && g[j].0 != p.0
      ensures g'[j] == g[j]
    {
      GroupEntrySnocOther(pairs, p, keys[j]);
    }
  }

  /** A pair whose source has no entry yet adds an entry at the end holding just its target. */
  lemma GroupedSnocNew(pairs: seq<(string, string)>, p: (string, string))
    requires forall k :: 0 <= k < |Grouped(pairs)| ==> Grouped(pairs)[k].0 != p.0
    ensures Grouped(pairs + [p]) == Grouped(pairs) + [(p.0, N8nConnectionData(Some([[MainTarget(p.1)]])))]
  {
    GroupedSnocNewLast(pairs, p);
    GroupedSnocOthers(pairs, p);
    SnocFromParts(Grouped(pairs), Grouped(pairs + [p]), (p.0, N8nConnectionData(Some([[MainTarget(p.1)]]))));
  }

  /** A pair whose source has no entry yet adds one entry, at the end, holding just its target. */
  lemma GroupedSnocNewLast(pairs: seq<(string, string)>, p: (string, string))
    requires forall k :: 0 <= k < |Grouped(pairs)| ==> Grouped(pairs)[k].0 != p.0
    ensures |Grouped(pairs + [p])| == |Grouped(pairs)| + 1
    ensures Grouped(pairs + [p])[|Grouped(pairs)|] == (p.0, N8nConnectionData(Some([[MainTarget(p.1)]])))
  {
    assert p.0 !in Sources(pairs) by {
      GroupedKeys(pairs, p.0);
    }
    assert Distinct(Sources(pairs + [p])) == Distinct(Sources(pairs)) + [p.0] by {
      GroupedKeysSnoc(pairs, p);
    }
    NoTargetsOfOther(pairs, p.0);
    GroupEntrySnocSame(pairs, p);
    assert [] + [MainTarget(p.1)] == [MainTarget(p.1)];
  }

  /** The grouping has at most one entry per source name. */
  lemma GroupedKeysUnique(pairs: seq<(string, string)>)
    ensures forall i, j :: 0 <= i < j < |Grouped(pairs)| ==> Grouped(pairs)[i].0 != Grouped(pairs)[j].0
  {
  }

  /** A pair whose source already has an entry adds no entry. */
  lemma GroupedSnocOldLength(pairs: seq<(string, string)>, p: (string, string), k: nat)
    requires k < |Grouped(pairs)| && Grouped(pairs)[k].0 == p.0
    ensures |Grouped(pairs + [p])| == |Grouped(pairs)|
    ensures Grouped(pairs + [p])[k] == GroupEntry(pairs + [p], p.0)
  {
    assert p.0 in Sources(pairs) by {
      GroupedKeys(pairs, p.0);
    }
    GroupedKeysSnoc(pairs, p);
  }

  /** A pair whose source has the entry at `k` appends its target to that entry's slot. */
  lemma GroupedSnocOld(pairs: seq<(string, string)>, p: (string, string), k: nat)
    requires k < |Grouped(pairs)| && Grouped(pairs)[k].0 == p.0
    ensures Grouped(pairs + [p])
      == Grouped(pairs)[k := (p.0, N8nConnectionData(Some([TargetsOf(pairs, p.0) + [MainTarget(p.1)]])))]
  {
    var g, g' := Grouped(pairs), Grouped(pairs + [p]);
    GroupedSnocOldLength(pairs, p, k);
    GroupEntrySnocSame(pairs, p);
    forall j | 0 <= j < |g| && j != k
      ensures g'[j] == g[j]
    {
      assert g[j].0 != p.0 by {
        GroupedKeysUnique(pairs);
      }
      GroupedSnocOthers(pairs, p);
    }
  }

  /** `GroupedSnocNew`, for a pair list given whole: its last pair starts a new entry. */
  lemma GroupedLastNew(pairs: seq<(string, string)>)
    requires |pairs| > 0
    requires KeyIndex(Grouped(pairs[..|pairs| - 1]), pairs[|pairs| - 1].0).None?
    ensures Grouped(pairs) == Grouped(pairs[..|pairs| - 1])
      + [(pairs[|pairs| - 1].0, N8nConnectionData(Some([[MainTarget(pairs[|pairs| - 1].1)]])))]
  {
    var init, p := pairs[..|pairs| - 1], pairs[|pairs| - 1];
    PrefixAndLast(pairs);
    GroupedSnocNew(init, p);
  }

  /** `GroupedSnocOld`, for a pair list given whole: its last pair extends the entry at `k`. */
  lemma GroupedLastOld(pairs: seq<(string, string)>, k: nat)
    requires |pairs| > 0
    requires k < |Grouped(pairs[..|pairs| - 1])| && Grouped(pairs[..|pairs| - 1])[k].0 == pairs[|pairs| - 1].0
    ensures Grouped(pairs) == Grouped(pairs[..|pairs| - 1])[k := (pairs[|pairs| - 1].0,
      N8nConnectionData(Some([TargetsOf(pairs[..|pairs| - 1], pairs[|pairs| - 1].0) + [MainTarget(pairs[|pairs| - 1].1)]])))]
  {
    var init, p := pairs[..|pairs| - 1], pairs[|pairs| - 1];
    PrefixAndLast(pairs);
    GroupedSnocOld(init, p, k);
  }

  /** One more connection contributes its resolved pair, if any, at the end. */
  lemma ResolvedPairsSnoc(nodes: seq<WorkflowNode>, conns: seq<WorkflowConnection>, i: nat)
    requires i < |conns|
    ensures ResolvedPair(nodes, conns[i]).None? ==> ResolvedPairs(nodes, conns[..i + 1]) == ResolvedPairs(nodes, conns[..i])
    ensures ResolvedPair(nodes, conns[i]).Some? ==>
      ResolvedPairs(nodes, conns[..i + 1]) == ResolvedPairs(nodes, conns[..i]) + [ResolvedPair(nodes, conns[i]).value]
  {
    assert conns[..i + 1][..i] == conns[..i];
    assert ResolvedPairs(nodes, conns[..i]) + [] == ResolvedPairs(nodes, conns[..i]);
  }

  /**
   * The body of the export loop for a connection whose ends resolve: create
   * `{ main: [[]] }` under the source name when it is missing, then push the
   * target entry into slot 0. On the grouping of `pairs` it yields the
   * grouping of `pairs` plus the new pair.
   */
  method PushTarget(cs: N8nConnections, ghost pairs: seq<(string, string)>, sourceName: string, targetName: string)
    returns (cs': N8nConnections)
    requires cs == Grouped(pairs)
    ensures cs' == Grouped(pairs + [(sourceName, targetName)])
  {
    ghost var p := (sourceName, targetName);
    var k := KeyIndex(cs, sourceName);
    var entry := MainTarget(targetName);
    if k.None? {
      var created := N8nConnectionData(Some([[]]));
      var slots := created.main.value;
      var pushed := slots[0 := slots[0] + [entry]];
      assert pushed == [[entry]] by {
        PushFirst(slots, entry);
        assert [] + [entry] == [entry];
      }
      cs' := cs + [(sourceName, N8nConnectionData(Some(pushed)))];
      GroupedSnocNew(pairs, p);
    } else {
      var idx := k.value;
      var slots := cs[idx].1.main.value;
      assert slots == [TargetsOf(pairs, sourceName)] by {
        assert Distinct(Sources(pairs))[idx] == sourceName;
      }
      var pushed := slots[0 := slots[0] + [entry]];
      assert pushed == [TargetsOf(pairs, sourceName) + [entry]] by {
        PushFirst(slots, entry);
        assert slots[1..] == [];
      }
      cs' := cs[idx := (sourceName, N8nConnectionData(Some(pushed)))];
      GroupedSnocOld(pairs, p, idx);
    }
  }

  /** The property names a plain object literal inherits from `Object.prototype`. */
  const InheritedKeys: set<string> := {
    "constructor", "hasOwnProperty", "isPrototypeOf", "propertyIsEnumerable", "toLocaleString",
    "toString", "valueOf", "__proto__", "__defineGetter__", "__defineSetter__",
    "__lookupGetter__", "__lookupSetter__"}

  /**
   * The export loop body exactly as written: the lookup `n8nConnections[name]`
   * also sees inherited properties, so for an inherited name no entry is
   * created and `.main[0].push` throws; `None` stands for that exception.
   */
  function PushTargetAsWritten(cs: N8nConnections, sourceName: string, targetName: string): (r: Option<N8nConnections>)
    ensures r.None? ==> sourceName in InheritedKeys || KeyIndex(cs, sourceName).Some?
    ensures r.Some? ==> KeyIndex(r.value, sourceName).Some?
    ensures r.Some? ==> |r.value| == |cs| + (if KeyIndex(cs, sourceName).None? then 1 else 0)
  {
    match KeyIndex(cs, sourceName)
    case None =>
      if sourceName in InheritedKeys then None
      else
        var created := cs + [(sourceName, N8nConnectionData(Some([[MainTarget(targetName)]])))];
        assert created[|cs|].0 == sourceName;
        Some(created)
    case Some(k) =>
      match cs[k].1.main
      case None => None
      case Some(slots) =>
        if |slots| == 0 then None
        else
          var pushed := cs[k := (sourceName, N8nConnectionData(Some(slots[0 := slots[0] + [MainTarget(targetName)]])))];
          assert pushed[k].0 == sourceName;
          Some(pushed)
  }

  /** A connection leaving a node named `toString` makes the export as written throw. */
  lemma InheritedNameBreaksExport(targetName: string)
    ensures PushTargetAsWritten(Grouped([]), "toString", targetName).None?
    ensures |Grouped([("toString", targetName)])| == 1
  {
    assert Sources([("toString", targetName)]) == ["toString"];
    assert Distinct(Sources([("toString", targetName)])) == ["toString"];
  }

  /** For every other source name the export as written builds the grouping. */
  lemma PushTargetAsWrittenElsewhere(pairs: seq<(string, string)>, sourceName: string, targetName: string)
    requires sourceName !in InheritedKeys
    ensures PushTargetAsWritten(Grouped(pairs), sourceName, targetName) == Some(Grouped(pairs + [(sourceName, targetName)]))
  {
    var cs, p, entry := Grouped(pairs), (sourceName, targetName), MainTarget(targetName);
    var k := KeyIndex(cs, sourceName);
    if k.None? {
      GroupedSnocNew(pairs, p);
    } else {
      var idx := k.value;
      var slots := cs[idx].1.main.value;
      assert slots == [TargetsOf(pairs, sourceName)] by {
        assert Distinct(Sources(pairs))[idx] == sourceName;
      }
      assert slots[0 := slots[0] + [entry]] == [TargetsOf(pairs, sourceName) + [entry]] by {
        PushFirst(slots, entry);
        assert slots[1..] == [];
      }
      GroupedSnocOld(pairs, p, idx);
    }
  }

  /**
   * One turn of the export loop over `connections[i]`: look both ends up by
   * id and, when both resolve, push the pair; the grouping of the first `i`
   * resolved pairs becomes the grouping of the first `i + 1`.
   */
  method ExportStep(nodes: seq<WorkflowNode>, connections: seq<WorkflowConnection>, i: nat, cs: N8nConnections)
    returns (cs': N8nConnections)
    requires i < |connections|
    requires cs == Grouped(ResolvedPairs(nodes, connections[..i]))
    ensures cs' == Grouped(ResolvedPairs(nodes, connections[..i + 1]))
  {
    var conn := connections[i];
    var sourceNode := NodeWithId(nodes, conn.source);
    var targetNode := NodeWithId(nodes, conn.target);
    ResolvedPairsSnoc(nodes, connections, i);
    if sourceNode.Some? && targetNode.Some? {
      cs' := PushTarget(cs, ResolvedPairs(nodes, connections[..i]), sourceNode.value.name, targetNode.value.name);
    } else {
      cs' := cs;
    }
  }

  /** The export loop: every connection in order, each through `ExportStep`. */
  method GroupConnections(nodes: seq<WorkflowNode>, connections: seq<WorkflowConnection>)
    returns (n8nConnections: N8nConnections)
    ensures n8nConnections == Grouped(ResolvedPairs(nodes, connections))
  {
    n8nConnections := [];
    var i := 0;
    while i < |connections|
      invariant i <= |connections|
      invariant n8nConnections == Grouped(ResolvedPairs(nodes, connections[..i]))
    {
      n8nConnections := ExportStep(nodes, connections, i, n8nConnections);
      i := i + 1;
    }
    WholePrefix(connections, i);
  }

  /** `convertToN8nWorkflow`: the mapped nodes and the grouped connections, inactive. */
  method ConvertToN8nWorkflow(
    nodes: seq<WorkflowNode>,
    connections: seq<WorkflowConnection>,
    workflowName: string,
    workflowDescription: Option<string>)
    returns (w: N8nWorkflow)
    ensures w.id.None? && w.name == workflowName && w.description == workflowDescription
    ensures !w.active && w.settings.None?
    ensures w.nodes == Map(ConvertToN8nNode, nodes)
    ensures w.connections == ExportConnections(nodes, connections)
  {
    var n8nNodes := Map(ConvertToN8nNode, nodes);
    var n8nConnections := GroupConnections(nodes, connections);
    w := N8nWorkflow(
      None,
      workflowName,
      workflowDescription,
      false,
      n8nNodes,
      if |n8nConnections| > 0 then Some(n8nConnections) else None,
      None);
  }
}
