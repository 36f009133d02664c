/**
 * Export followed by import (`convertFromN8nWorkflow(convertToN8nWorkflow(...))`
 * in src/utils/n8n-converter.ts).
 *
 * Export addresses nodes by name and import resolves names back to ids, so
 * the round trip keeps the graph only when names identify nodes: every node
 * has a name, no two nodes share one, and every connection's ends exist.
 * Under those conditions the imported connections join the same ordered
 * node-id pairs as the originals, counted with multiplicity, though they
 * come back grouped by source and with every handle reset to slot 0.
 */
module ConverterRoundTrip {
  import opened Wrappers
  import opened Seqs
  import opened Strings
  import opened WorkflowBuilderTypes
  import opened N8nTypes
  import opened N8nConverter
  import opened N8nImport

  /** The builder nodes after an export and an import: same ids, and same names where they were set. */
  function RoundTripNodes(nodes: seq<WorkflowNode>): (r: seq<WorkflowNode>)
    ensures |r| == |nodes|
    ensures forall i :: 0 <= i < |nodes| ==> r[i].id == nodes[i].id
    ensures forall i :: 0 <= i < |nodes| && nodes[i].name != "" ==> r[i].name == nodes[i].name
  {
    Map(ConvertFromN8nNode, Map(ConvertToN8nNode, nodes))
  }

  /** The round trip keeps every node's id and position, in order. */
  lemma RoundTripKeepsPositions(nodes: seq<WorkflowNode>)
    ensures |RoundTripNodes(nodes)| == |nodes|
    ensures forall i :: 0 <= i < |nodes| ==>
      (RoundTripNodes(nodes)[i].id == nodes[i].id && RoundTripNodes(nodes)[i].position == nodes[i].position)
  {
    forall i | 0 <= i < |nodes|
      ensures RoundTripNodes(nodes)[i].position == nodes[i].position
    {
      NodeRoundTrip(nodes[i]);
    }
  }

  /** No two nodes share a name. */
  predicate UniqueNames(nodes: seq<WorkflowNode>)
  {
    forall i, j :: 0 <= i < |nodes| && 0 <= j < |nodes| && nodes[i].name == nodes[j].name ==> i == j
  }

  /** Every node has a non-empty name. */
  predicate NamedNodes(nodes: seq<WorkflowNode>)
  {
    forall i :: 0 <= i < |nodes| ==> nodes[i].name != ""
  }

  /** Every connection's source and target id belongs to a node. */
  predicate EndpointsExist(nodes: seq<WorkflowNode>, conns: seq<WorkflowConnection>)
  {
    forall c :: c in conns ==> NodeWithId(nodes, c.source).Some? && NodeWithId(nodes, c.target).Some?
  }

  /** The ordered pair of node ids a connection joins. */
  function Endpoints(c: WorkflowConnection): (string, string)
  {
    (c.source, c.target)
  }

  /** Both names of every pair belong to a node of `nodes`. */
  predicate NamesResolve(nodes: seq<WorkflowNode>, pairs: seq<(string, string)>)
  {
    forall p :: p in pairs ==> NodeNamed(nodes, p.0).Some? && NodeNamed(nodes, p.1).Some?
  }

  /** The ids import finds for the two names of a pair. */
  function IdPair(nodes: seq<WorkflowNode>, p: (string, string)): (string, string)
    requires NodeNamed(nodes, p.0).Some? && NodeNamed(nodes, p.1).Some?
  {
    (NodeNamed(nodes, p.0).value.id, NodeNamed(nodes, p.1).value.id)
  }

  /** The ids import finds for every pair, in order. */
  function IdPairs(nodes: seq<WorkflowNode>, pairs: seq<(string, string)>): seq<(string, string)>
    requires NamesResolve(nodes, pairs)
  {
    if |pairs| == 0 then []
    else IdPairs(nodes, pairs[..|pairs| - 1]) + [IdPair(nodes, pairs[|pairs| - 1])]
  }

  // ---------------------------------------------------------------------------
  // Names after the round trip

  /** With unique, non-empty names, import finds each node under its own name, with its own id. */
  lemma RoundTripNodeNamed(nodes: seq<WorkflowNode>, i: nat)
    requires UniqueNames(nodes) && NamedNodes(nodes) && i < |nodes|
    ensures NodeNamed(RoundTripNodes(nodes), nodes[i].name).Some?
    ensures NodeNamed(RoundTripNodes(nodes), nodes[i].name).value.id == nodes[i].id
  {
    var rt := RoundTripNodes(nodes);
    var name := nodes[i].name;
    assert NodeNamed(rt, name).Some? by {
      assert rt[i] in rt && rt[i].name == name;
    }
    var r := NodeNamed(rt, name).value;
    var j :| 0 <= j < |rt| && rt[j] == r;
    assert nodes[j].name != "";
    assert nodes[j].name == name;
    assert j == i;
  }

  /** A connection whose ends exist comes back with its own ends, when names are unique and set. */
  lemma ResolvedConnectionIds(nodes: seq<WorkflowNode>, c: WorkflowConnection)
    requires UniqueNames(nodes) && NamedNodes(nodes)
    requires NodeWithId(nodes, c.source).Some? && NodeWithId(nodes, c.target).Some?
    ensures ResolvedPair(nodes, c).Some?
    ensures NodeNamed(RoundTripNodes(nodes), ResolvedPair(nodes, c).value.0).Some?
    ensures NodeNamed(RoundTripNodes(nodes), ResolvedPair(nodes, c).value.1).Some?
    ensures IdPair(RoundTripNodes(nodes), ResolvedPair(nodes, c).value) == Endpoints(c)
  {
    ResolvedEndId(nodes, c.source);
    ResolvedEndId(nodes, c.target);
  }

  /** The node an id resolves to is found again by its name after the round trip, with that id. */
  lemma ResolvedEndId(nodes: seq<WorkflowNode>, id: string)
    requires UniqueNames(nodes) && NamedNodes(nodes) && NodeWithId(nodes, id).Some?
    ensures NodeNamed(RoundTripNodes(nodes), NodeWithId(nodes, id).value.name).Some?
    ensures NodeNamed(RoundTripNodes(nodes), NodeWithId(nodes, id).value.name).value.id == id
  {
    var i :| 0 <= i < |nodes| && nodes[i] == NodeWithId(nodes, id).value;
    RoundTripNodeNamed(nodes, i);
  }

  /** One more pair whose names resolve adds its ids at the end. */
  lemma IdPairsSnoc(nodes: seq<WorkflowNode>, pairs: seq<(string, string)>, p: (string, string))
    requires NamesResolve(nodes, pairs) && NodeNamed(nodes, p.0).Some? && NodeNamed(nodes, p.1).Some?
    ensures NamesResolve(nodes, pairs + [p])
    ensures IdPairs(nodes, pairs + [p]) == IdPairs(nodes, pairs) + [IdPair(nodes, p)]
  {
    assert (pairs + [p])[..|pairs|] == pairs;
  }

  /** The pairs of a list of connections whose last one resolves end with that one's pair. */
  lemma ResolvedPairsLast(nodes: seq<WorkflowNode>, conns: seq<WorkflowConnection>)
    requires |conns| > 0 && ResolvedPair(nodes, conns[|conns| - 1]).Some?
    ensures ResolvedPairs(nodes, conns)
      == ResolvedPairs(nodes, conns[..|conns| - 1]) + [ResolvedPair(nodes, conns[|conns| - 1]).value]
  {
  }

  /** Import gives the ids of the original connections' ends, in their original order. */
  lemma {:induction false} IdPairsOfResolved(nodes: seq<WorkflowNode>, conns: seq<WorkflowConnection>)
    requires UniqueNames(nodes) && NamedNodes(nodes) && EndpointsExist(nodes, conns)
    ensures NamesResolve(RoundTripNodes(nodes), ResolvedPairs(nodes, conns))
    ensures IdPairs(RoundTripNodes(nodes), ResolvedPairs(nodes, conns)) == Map(Endpoints, conns)
  {
    if |conns| > 0 {
      var rt := RoundTripNodes(nodes);
      var n := |conns| - 1;
      var init, c := conns[..n], conns[n];
      assert EndpointsExist(nodes, init) by {
        assert forall x :: x in init ==> x in conns;
      }
      IdPairsOfResolved(nodes, init);
      ResolvedConnectionIds(nodes, c);
      ResolvedPairsLast(nodes, conns);
      IdPairsSnoc(rt, ResolvedPairs(nodes, init), ResolvedPair(nodes, c).value);
      MapSnoc(Endpoints, conns);
    }
  }

  // ---------------------------------------------------------------------------
  // Import of a grouping

  /** Import handles one more entry after the others. */
  lemma EntriesConnectionsSnocEntry(nodes: seq<WorkflowNode>, g: N8nConnections, entry: (string, N8nConnectionData))
    ensures EntriesConnections(nodes, g + [entry]) == EntriesConnections(nodes, g) + EntryConnections(nodes, entry)
  {
    assert (g + [entry])[..|g|] == g;
  }

  /** A slot holding one target entry whose node exists imports as one connection between the two ids. */
  lemma SingleTargetSlot(nodes: seq<WorkflowNode>, source: WorkflowNode, name: string)
    requires NodeNamed(nodes, name).Some?
    ensures Map(Endpoints, SlotConnections(nodes, source, 0, [MainTarget(name)]))
      == [(source.id, NodeNamed(nodes, name).value.id)]
  {
    FlatMapSingle(TargetStep(nodes, source, 0), MainTarget(name));
  }

  /** The entry export creates for a new source imports as the one connection to its first target. */
  lemma ImportNewEntry(nodes: seq<WorkflowNode>, g: N8nConnections, p: (string, string))
    requires NodeNamed(nodes, p.0).Some? && NodeNamed(nodes, p.1).Some?
    ensures multiset(Map(Endpoints, EntriesConnections(nodes, g + [(p.0, N8nConnectionData(Some([[MainTarget(p.1)]])))])))
      == multiset(Map(Endpoints, EntriesConnections(nodes, g))) + multiset{IdPair(nodes, p)}
  {
    var entry := (p.0, N8nConnectionData(Some([[MainTarget(p.1)]])));
    var source := NodeNamed(nodes, p.0).value;
    EntriesConnectionsSnocEntry(nodes, g, entry);
    SingleSlotEntry(nodes, p.0, [MainTarget(p.1)]);
    SingleTargetSlot(nodes, source, p.1);
    MapAppend(Endpoints, EntriesConnections(nodes, g), EntryConnections(nodes, entry));
  }

  /** A one-slot entry imports as the connections of that slot. */
  lemma SingleSlotEntry(nodes: seq<WorkflowNode>, key: string, targets: seq<N8nTarget>)
    requires NodeNamed(nodes, key).Some?
    ensures EntryConnections(nodes, (key, N8nConnectionData(Some([targets]))))
      == SlotConnections(nodes, NodeNamed(nodes, key).value, 0, targets)
  {
    FlatMapSingle(SlotStep(nodes, NodeNamed(nodes, key).value), targets);
  }

  /** Pushing a target whose node exists onto the only slot of an entry adds that one connection. */
  lemma ImportPushedEntry(nodes: seq<WorkflowNode>, key: string, targets: seq<N8nTarget>, p: (string, string))
    requires p.0 == key && NodeNamed(nodes, p.0).Some? && NodeNamed(nodes, p.1).Some?
    ensures Map(Endpoints, EntryConnections(nodes, (key, N8nConnectionData(Some([targets + [MainTarget(p.1)]])))))
      == Map(Endpoints, EntryConnections(nodes, (key, N8nConnectionData(Some([targets]))))) + [IdPair(nodes, p)]
  {
    SingleSlotEntry(nodes, key, targets);
    SingleSlotEntry(nodes, key, targets + [MainTarget(p.1)]);
    SlotPushedEndpoints(nodes, NodeNamed(nodes, key).value, targets, p.1);
  }

  /** Pushing a target whose node exists onto slot 0 adds the pair of the two ids at the end. */
  lemma SlotPushedEndpoints(nodes: seq<WorkflowNode>, source: WorkflowNode, targets: seq<N8nTarget>, name: string)
    requires NodeNamed(nodes, name).Some?
    ensures Map(Endpoints, SlotConnections(nodes, source, 0, targets + [MainTarget(name)]))
      == Map(Endpoints, SlotConnections(nodes, source, 0, targets)) + [(source.id, NodeNamed(nodes, name).value.id)]
  {
    var c := ImportedConnection(source, NodeNamed(nodes, name).value, 0, |targets|, MainTarget(name));
    FlatMapSnoc(TargetStep(nodes, source, 0), targets, MainTarget(name));
    assert SlotConnections(nodes, source, 0, targets + [MainTarget(name)])
      == SlotConnections(nodes, source, 0, targets) + [c];
    MapAppend(Endpoints, SlotConnections(nodes, source, 0, targets), [c]);
  }

  /** Replacing entry `k` changes the imported pairs by what the entry itself changes. */
  lemma ImportReplacedEntry(nodes: seq<WorkflowNode>, g: N8nConnections, k: nat, entry: (string, N8nConnectionData))
    requires k < |g|
    ensures multiset(Map(Endpoints, EntriesConnections(nodes, g[k := entry])))
        + multiset(Map(Endpoints, EntryConnections(nodes, g[k])))
      == multiset(Map(Endpoints, EntriesConnections(nodes, g)))
        + multiset(Map(Endpoints, EntryConnections(nodes, entry)))
  {
    var g' := g[k := entry];
    EntriesConnectionsAt(nodes, g, k);
    EntriesConnectionsAt(nodes, g', k);
    assert g'[..k] == g[..k] && g'[k + 1..] == g[k + 1..];
    var a, b := EntriesConnections(nodes, g[..k]), EntriesConnections(nodes, g[k + 1..]);
    MapAppend(Endpoints, a + EntryConnections(nodes, g[k]), b);
    MapAppend(Endpoints, a, EntryConnections(nodes, g[k]));
    MapAppend(Endpoints, a + EntryConnections(nodes, entry), b);
    MapAppend(Endpoints, a, EntryConnections(nodes, entry));
  }

  /** The ids of a non-empty pair list end with those of its last pair. */
  lemma IdPairsLast(nodes: seq<WorkflowNode>, pairs: seq<(string, string)>)
    requires |pairs| > 0 && NamesResolve(nodes, pairs)
    ensures NamesResolve(nodes, pairs[..|pairs| - 1])
    ensures NodeNamed(nodes, pairs[|pairs| - 1].0).Some? && NodeNamed(nodes, pairs[|pairs| - 1].1).Some?
    ensures multiset(IdPairs(nodes, pairs))
      == multiset(IdPairs(nodes, pairs[..|pairs| - 1])) + multiset{IdPair(nodes, pairs[|pairs| - 1])}
  {
    assert pairs[|pairs| - 1] in pairs;
  }

  /** Pushing a resolvable pair's target into the single slot of entry `k` imports one more connection. */
  lemma ImportReplacedPushed(nodes: seq<WorkflowNode>, g: N8nConnections, k: nat, ts: seq<N8nTarget>, p: (string, string))
    requires k < |g| && g[k] == (p.0, N8nConnectionData(Some([ts])))
    requires NodeNamed(nodes, p.0).Some? && NodeNamed(nodes, p.1).Some?
    ensures multiset(Map(Endpoints, EntriesConnections(nodes, g[k := (p.0, N8nConnectionData(Some([ts + [MainTarget(p.1)]])))])))
      == multiset(Map(Endpoints, EntriesConnections(nodes, g))) + multiset{IdPair(nodes, p)}
  {
    var entry := (p.0, N8nConnectionData(Some([ts + [MainTarget(p.1)]])));
    ImportReplacedEntry(nodes, g, k, entry);
    ImportPushedEntry(nodes, p.0, ts, p);
    ExchangeOne(Map(Endpoints, EntriesConnections(nodes, g[k := entry])), Map(Endpoints, EntryConnections(nodes, g[k])),
      Map(Endpoints, EntriesConnections(nodes, g)), Map(Endpoints, EntryConnections(nodes, entry)), IdPair(nodes, p));
  }

  /** The last pair of a list whose source is new imports as one more connection. */
  lemma ImportGroupedLastNew(nodes: seq<WorkflowNode>, pairs: seq<(string, string)>)
    requires |pairs| > 0
    requires NodeNamed(nodes, pairs[|pairs| - 1].0).Some? && NodeNamed(nodes, pairs[|pairs| - 1].1).Some?
    requires KeyIndex(Grouped(pairs[..|pairs| - 1]), pairs[|pairs| - 1].0).None?
    ensures multiset(Map(Endpoints, EntriesConnections(nodes, Grouped(pairs))))
      == multiset(Map(Endpoints, EntriesConnections(nodes, Grouped(pairs[..|pairs| - 1]))))
        + multiset{IdPair(nodes, pairs[|pairs| - 1])}
  {
    GroupedLastNew(pairs);
    ImportNewEntry(nodes, Grouped(pairs[..|pairs| - 1]), pairs[|pairs| - 1]);
  }

  /** The last pair of a list whose source already has entry `k` imports as one more connection. */
  lemma ImportGroupedLastOld(nodes: seq<WorkflowNode>, pairs: seq<(string, string)>, k: nat)
    requires |pairs| > 0
    requires NodeNamed(nodes, pairs[|pairs| - 1].0).Some? && NodeNamed(nodes, pairs[|pairs| - 1].1).Some?
    requires k < |Grouped(pairs[..|pairs| - 1])| && Grouped(pairs[..|pairs| - 1])[k].0 == pairs[|pairs| - 1].0
    ensures multiset(Map(Endpoints, EntriesConnections(nodes, Grouped(pairs))))
      == multiset(Map(Endpoints, EntriesConnections(nodes, Grouped(pairs[..|pairs| - 1]))))
        + multiset{IdPair(nodes, pairs[|pairs| - 1])}
  {
    var init, p := pairs[..|pairs| - 1], pairs[|pairs| - 1];
    var g, ts := Grouped(init), TargetsOf(init, p.0);
    var entry := (p.0, N8nConnectionData(Some([ts + [MainTarget(p.1)]])));
    GroupedLastOld(pairs, k);
    assert g[k] == (p.0, N8nConnectionData(Some([ts]))) by {
      assert Distinct(Sources(init))[k] == p.0;
    }
    ImportReplacedPushed(nodes, g, k, ts, p);
  }

  /** Importing the grouping of a pair list gives the ids of its pairs, in some order. */
  lemma {:induction false} ImportGrouped(nodes: seq<WorkflowNode>, pairs: seq<(string, string)>)
    requires NamesResolve(nodes, pairs)
    ensures multiset(Map(Endpoints, EntriesConnections(nodes, Grouped(pairs)))) == multiset(IdPairs(nodes, pairs))
    decreases |pairs|
  {
    if |pairs| == 0 {
      assert |Grouped(pairs)| == 0;
    } else {
      var init, p := pairs[..|pairs| - 1], pairs[|pairs| - 1];
      IdPairsLast(nodes, pairs);
      ImportGrouped(nodes, init);
      var k := KeyIndex(Grouped(init), p.0);
      if k.None? {
        ImportGroupedLastNew(nodes, pairs);
      } else {
        ImportGroupedLastOld(nodes, pairs, k.value);
      }
    }
  }

  /** A connection pushed for slot `o` and target entry `k` carries the handles named after them. */
  lemma PushedHandles(
    nodes: seq<WorkflowNode>, source: WorkflowNode, o: nat, targets: seq<N8nTarget>, k: nat, c: WorkflowConnection)
    requires PushedFor(nodes, source, o, targets, k, c)
    ensures c.sourceHandle == Some("output-" + NatToString(o))
    ensures c.targetHandle == Some("input-" + IntToString(targets[k].index.GetOr(0)))
  {
    PushedForResolves(nodes, source, o, targets, k, c);
  }

  /** Every target entry export writes enters input 0. */
  lemma TargetsOfIndex(pairs: seq<(string, string)>, key: string, k: nat)
    requires k < |TargetsOf(pairs, key)|
    ensures TargetsOf(pairs, key)[k].index == Some(0)
  {
    assert TargetsOf(pairs, key)[k] == TargetEntry(Filter(pairs, FromKey(key))[k]);
  }

  /** The handles import writes for output 0 and input 0. */
  lemma HandlesZero()
    ensures "output-" + NatToString(0) == "output-0" && "input-" + IntToString(0) == "input-0"
  {
    assert NatToString(0) == "0";
  }

  /** Every connection imported from a grouping leaves from output 0 and enters input 0. */
  lemma ImportedGroupedHandles(nodes: seq<WorkflowNode>, pairs: seq<(string, string)>, c: WorkflowConnection)
    requires c in EntriesConnections(nodes, Grouped(pairs))
    ensures c.sourceHandle == Some("output-0") && c.targetHandle == Some("input-0")
  {
    var g := Grouped(pairs);
    var e, o, k := EntriesMemberOrigin(nodes, g, c);
    var key := g[e].0;
    var targets := TargetsOf(pairs, key);
    assert g[e].1.main.value == [targets] by {
      assert g[e] == GroupEntry(pairs, Distinct(Sources(pairs))[e]);
    }
    PushedHandles(nodes, NodeNamed(nodes, key).value, o, g[e].1.main.value[o], k, c);
    TargetsOfIndex(pairs, key, k);
    assert o == 0;
    HandlesZero();
  }

  // ---------------------------------------------------------------------------
  // The round trip

  /**
   * Exporting a builder graph whose nodes have unique, non-empty names and
   * whose connections all join existing nodes, then importing the result,
   * gives back connections joining the same ordered pairs of node ids, each
   * as often as before.
   */
  lemma ExportImportEndpoints(nodes: seq<WorkflowNode>, conns: seq<WorkflowConnection>)
    requires UniqueNames(nodes) && NamedNodes(nodes) && EndpointsExist(nodes, conns)
    ensures multiset(Map(Endpoints, ImportConnections(RoundTripNodes(nodes), ExportConnections(nodes, conns))))
      == multiset(Map(Endpoints, conns))
  {
    var rt, pairs := RoundTripNodes(nodes), ResolvedPairs(nodes, conns);
    IdPairsOfResolved(nodes, conns);
    ImportGrouped(rt, pairs);
    if ExportConnections(nodes, conns).None? {
      assert |Grouped(pairs)| == 0;
    }
  }

  /** Import names every node, so no node answers to the blank name. */
  lemma BlankNameUnresolved(nodes: seq<WorkflowNode>)
    ensures NodeNamed(RoundTripNodes(nodes), "").None?
  {
    var exported := Map(ConvertToN8nNode, nodes);
    var rt := Map(ConvertFromN8nNode, exported);
    assert forall i :: 0 <= i < |rt| ==> rt[i].name == ImportedName(exported[i]);
    assert forall n :: n in rt ==> n.name != "";
  }

  /** Pairs whose sources are all blank are grouped under the blank key only. */
  lemma BlankGroupedKeys(pairs: seq<(string, string)>)
    requires forall i :: 0 <= i < |pairs| ==> pairs[i].0 == ""
    ensures forall k :: 0 <= k < |Grouped(pairs)| ==> Grouped(pairs)[k].0 == ""
  {
    var sources := Sources(pairs);
    assert forall i :: 0 <= i < |sources| ==> sources[i] == "";
  }

  /**
   * A grouping keyed by the blank name alone imports nothing after the round
   * trip, whatever the nodes.
   */
  lemma BlankKeysImportNothing(nodes: seq<WorkflowNode>, pairs: seq<(string, string)>)
    requires forall i :: 0 <= i < |pairs| ==> pairs[i].0 == ""
    ensures EntriesConnections(RoundTripNodes(nodes), Grouped(pairs)) == []
  {
    var rt, g := RoundTripNodes(nodes), Grouped(pairs);
    BlankNameUnresolved(nodes);
    BlankGroupedKeys(pairs);
    var imported := EntriesConnections(rt, g);
    if imported != [] {
      var e, o, k := EntriesMemberOrigin(rt, g, imported[0]);
      assert false;
    }
  }

  /** A graph whose every exported connection leaves a nameless node imports no connection after the round trip. */
  lemma BlankSourcesLost(nodes: seq<WorkflowNode>, conns: seq<WorkflowConnection>)
    requires forall i :: 0 <= i < |ResolvedPairs(nodes, conns)| ==> ResolvedPairs(nodes, conns)[i].0 == ""
    ensures ImportConnections(RoundTripNodes(nodes), ExportConnections(nodes, conns)) == []
  {
    BlankKeysImportNothing(nodes, ResolvedPairs(nodes, conns));
  }

  /** Export of one connection from a nameless node to a named one: a single pair keyed `""`. */
  lemma BlankNameExport(a: WorkflowNode, b: WorkflowNode, c: WorkflowConnection)
    requires a.name == "" && b.name != "" && a.id != b.id && c.source == a.id && c.target == b.id
    ensures UniqueNames([a, b]) && EndpointsExist([a, b], [c])
    ensures ResolvedPairs([a, b], [c]) == [("", b.name)]
  {
    var nodes := [a, b];
    assert a in nodes && b in nodes;
    assert NodeWithId(nodes, a.id) == Some(a) && NodeWithId(nodes, b.id) == Some(b);
    assert [c][..0] == [];
  }

  /**
   * The round trip needs non-empty names: a connection from a nameless node
   * to a named one is exported under the key `""`, but import names the
   * nameless node after its type, so the key finds no node and the
   * connection is lost, although names are unique and both ends exist.
   */
  lemma BlankNameLosesConnection(a: WorkflowNode, b: WorkflowNode, c: WorkflowConnection)
    requires a.name == "" && b.name != "" && a.id != b.id && c.source == a.id && c.target == b.id
    ensures UniqueNames([a, b]) && EndpointsExist([a, b], [c])
    ensures Map(Endpoints, [c]) == [(a.id, b.id)]
    ensures ImportConnections(RoundTripNodes([a, b]), ExportConnections([a, b], [c])) == []
  {
    BlankNameExport(a, b, c);
    BlankSourcesLost([a, b], [c]);
  }

  /** After the round trip every connection leaves from output 0 and enters input 0. */
  lemma ExportImportHandles(nodes: seq<WorkflowNode>, conns: seq<WorkflowConnection>, c: WorkflowConnection)
    requires c in ImportConnections(RoundTripNodes(nodes), ExportConnections(nodes, conns))
    ensures c.sourceHandle == Some("output-0") && c.targetHandle == Some("input-0")
  {
    ImportedGroupedHandles(RoundTripNodes(nodes), ResolvedPairs(nodes, conns), c);
  }
}
