/**
 * The engine's graph: nodes addressed by name (src/types/n8n.ts).
 */
module N8nTypes {
  import opened Wrappers
  import opened WorkflowBuilderTypes

  /** `N8nNode`; `nodeType` is the source's `type` field, `position` its `number[]`. */
  datatype N8nNode = N8nNode(
    id: string,
    name: string,
    nodeType: string,
    typeVersion: int,
    position: seq<int>,
    parameters: Option<Params>,
    webhookId: Option<string>)

  /** One `{ node, type, index }` entry of an output slot; `connType` is the source's `type` field. */
  datatype N8nTarget = N8nTarget(node: string, connType: string, index: Option<int>)

  /** The value stored under a source node's name: `{ main: [slot0, slot1, ...] }`. */
  datatype N8nConnectionData = N8nConnectionData(main: Option<seq<seq<N8nTarget>>>)

  /**
   * The `connections` object, as its entries in iteration order. JavaScript
   * iterates string keys in insertion order (keys that look like array indices
   * come first; that reordering is not modelled). An object holds each key
   * at most once, while this list could repeat one; export only ever builds
   * lists with distinct keys, and the import lemmas hold for any list.
   */
  type N8nConnections = seq<(string, N8nConnectionData)>

  /** `N8nWorkflow` (the timestamp and tag fields are left out). */
  datatype N8nWorkflow = N8nWorkflow(
    id: Option<string>,
    name: string,
    description: Option<string>,
    active: bool,
    nodes: seq<N8nNode>,
    connections: Option<N8nConnections>,
    settings: Option<Params>)
}
