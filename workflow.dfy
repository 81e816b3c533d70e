/**
 * The document-level part of the importer (python/comfy_to_nuke.py): finding
 * the node and link lists of a LiteGraph export, resolving a node's type name
 * to the kind of host node that stands for it, and the first-widget file
 * heuristic used for Read nodes.
 */
module Workflow {
  import opened Base
  import opened Json

  /** The node and link lists `ComfyUIWorkflow` holds. */
  datatype Document = Document(nodes: Value, links: Value)

  /** `v or []` */
  function OrEmpty(v: Value): Value {
    Or(v, List([]))
  }

  /**
   * `ComfyUIWorkflow.from_json`. A document that is not a dict has no `.get`
   * and raises (None). The top-level lists are used when the top-level node
   * list is truthy; otherwise a dict under "graph" supplies both lists, its
   * links replacing the top-level ones. A missing or falsy list becomes [].
   */
  function FromJson(data: Value): (r: Option<Document>)
    ensures r.None? <==> !data.Dict?
    ensures r.Some? ==> Truthy(r.value.nodes) || r.value.nodes == List([])
    ensures r.Some? ==> Truthy(r.value.links) || r.value.links == List([])
    ensures data.Dict? && Truthy(Get(data.fields, "nodes")) ==>
      r == Some(Document(Get(data.fields, "nodes"), OrEmpty(Get(data.fields, "links"))))
    ensures data.Dict? && !Truthy(Get(data.fields, "nodes")) && Get(data.fields, "graph").Dict? ==>
      var g := Get(data.fields, "graph").fields;
      r == Some(Document(OrEmpty(Get(g, "nodes")), OrEmpty(Get(g, "links"))))
    ensures data.Dict? && !Truthy(Get(data.fields, "nodes")) && !Get(data.fields, "graph").Dict? ==>
      r == Some(Document(List([]), OrEmpty(Get(data.fields, "links"))))
  {
    if !data.Dict? then None
    else
      var nodes := OrEmpty(Get(data.fields, "nodes"));
      var links := OrEmpty(Get(data.fields, "links"));
      var graph := Get(data.fields, "graph");
      if !Truthy(nodes) && graph.Dict? then
        Some(Document(OrEmpty(Get(graph.fields, "nodes")), OrEmpty(Get(graph.fields, "links"))))
      else
        Some(Document(nodes, links))
  }

  // ---------------------------------------------------------------------------
  // Type resolution
  // ---------------------------------------------------------------------------

  /** The host node classes the importer creates. */
  datatype Kind = Read | Write | NoOp

  /** `NODE_TYPE_MAP`; every other type name becomes a NoOp placeholder. */
  const NodeTypeMap: map<string, Kind> :=
    map["LoadImage" := Read, "SaveImage" := Write, "SaveImageSimple" := Write]

  /**
   * `node.get("type") or node.get("class_type") or "Unknown"`: the first truthy
   * of the two fields, so an empty string falls through like a missing field.
   */
  function TypeValue(node: map<string, Value>): (t: Value)
    ensures Truthy(t)
    ensures Truthy(Get(node, "type")) ==> t == Get(node, "type")
    ensures !Truthy(Get(node, "type")) && Truthy(Get(node, "class_type")) ==> t == Get(node, "class_type")
    ensures !Truthy(Get(node, "type")) && !Truthy(Get(node, "class_type")) ==> t == Str("Unknown")
  {
    Or(Or(Get(node, "type"), Get(node, "class_type")), Str("Unknown"))
  }

  /**
   * `NODE_TYPE_MAP.get(ctype, "NoOp")`. A list or dict type value cannot be
   * looked up: `dict.get` raises TypeError (None).
   */
  function KindOf(t: Value): (k: Option<Kind>)
    ensures k.None? <==> !Hashable(t)
    ensures k == Some(Read) <==> t == Str("LoadImage")
    ensures k == Some(Write) <==> t == Str("SaveImage") || t == Str("SaveImageSimple")
    ensures Hashable(t) && !(t.Str? && t.s in {"LoadImage", "SaveImage", "SaveImageSimple"}) ==> k == Some(NoOp)
  {
    if !Hashable(t) then None
    else if t.Str? && t.s in NodeTypeMap then Some(NodeTypeMap[t.s])
    else Some(NoOp)
  }

  /** The name `_create_nuke_node_for_comfy` asks `_safe_name` for: `f"CU_{ctype}"`. */
  function RequestedName(t: Value): string
    requires Hashable(t)
  {
    "CU_" + PyStr(t)
  }

  // ---------------------------------------------------------------------------
  // Widgets
  // ---------------------------------------------------------------------------

  /**
   * `_get_file_from_widgets`: the first widget value, when "widgets_values" is
   * a non-empty list whose first element is a non-empty string.
   */
  function WidgetFile(node: map<string, Value>): (r: Option<string>)
    ensures r.Some? <==>
      var w := Get(node, "widgets_values");
      w.List? && |w.items| > 0 && w.items[0].Str? && w.items[0].s != ""
    ensures r.Some? ==> r.value == Get(node, "widgets_values").items[0].s && r.value != ""
  {
    var w := OrEmpty(Get(node, "widgets_values"));
    if !w.List? || w.items == [] then None
    else
      var v := w.items[0];
      if v.Str? && v.s != "" then Some(v.s) else None
  }
}
