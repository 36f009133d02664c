/**
 * The builder's own graph: nodes and connections addressed by id
 * (src/types/workflow-builder.ts).
 */
module WorkflowBuilderTypes {
  import opened Wrappers

  /**
   * An engine payload (`data`, `parameters`, `settings`). The converter never looks
   * inside one; it only passes it on, so its shape is a plain JSON value.
   */
  datatype Json =
    | JNull
    | JBool(b: bool)
    | JNumber(n: int)
    | JString(s: string)
    | JArray(items: seq<Json>)
    | JObject(fields: seq<(string, Json)>)

  /** A `Record<string, any>`. */
  type Params = map<string, Json>

  /** The empty object literal `{}`. */
  const EmptyParams: Params := map[]

  /** A canvas position; coordinates are modelled as integers. */
  datatype Position = Position(x: int, y: int)

  /** `WorkflowNode`; `nodeType` is the source's `type` field. */
  datatype WorkflowNode = WorkflowNode(
    id: string,
    nodeType: string,
    name: string,
    position: Position,
    data: Option<Params>)

  /** `WorkflowConnection`: an edge from node id `source` to node id `target`. */
  datatype WorkflowConnection = WorkflowConnection(
    id: string,
    source: string,
    target: string,
    sourceHandle: Option<string>,
    targetHandle: Option<string>)
}
