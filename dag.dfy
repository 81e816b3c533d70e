/**
 * The host side of the importer (python/comfy_to_nuke.py): the node graph the
 * import writes into, unique node naming (`_safe_name`), node creation
 * (`_create_nuke_node_for_comfy`), connecting (`_connect_nodes`) and the
 * create-then-connect sequence of `import_comfyui_workflow`.
 */
module Dag {
  import opened Base
  import opened Json
  import opened Workflow
  import opened Layout
  import opened Links

  /** A node the import created, with the knobs it set. */
  datatype HostNode = HostNode(
    kind: Kind,
    name: string,
    labelText: string,            // the "label" knob
    file: Option<string>,         // Read: the "file" knob, from the first widget value
    colorspace: Option<string>,   // Write: the "colorspace" knob
    xy: Option<(int, int)>,       // set by setXYpos
    comfyType: Option<string>,    // the "comfy_type" text knob
    entry: Option<Value>,         // the node entry the "comfy_json" knob serialises
    maxInputs: int)               // what the host's maxInputs() reports for the node

  datatype UndoMark = BeginUndo | EndUndo

  /** How `import_comfyui_workflow` ends: an escaping exception, the "No nodes" message, or the summary. */
  datatype ImportOutcome = Raised | NoNodes | Imported(nodeCount: nat, linkCount: nat)

  // ---------------------------------------------------------------------------
  // Unique names
  // ---------------------------------------------------------------------------

  /** The name `_safe_name` tries when its counter is `idx`: `base`, then `base_2`, `base_3`, ... */
  function Candidate(base: string, idx: nat): string {
    if idx <= 1 then base else base + "_" + NatToString(idx)
  }

  lemma CandidateInjective(base: string, i: nat, j: nat)
    requires 1 <= i && 1 <= j && Candidate(base, i) == Candidate(base, j)
    ensures i == j
  {
    if i >= 2 && j >= 2 {
      assert NatToString(i) == Candidate(base, i)[|base| + 1..];
      assert NatToString(j) == Candidate(base, j)[|base| + 1..];
      NatToStringInjective(i, j);
    }
  }

  predicate StartsWith(s: string, prefix: string) {
    |prefix| <= |s| && s[..|prefix|] == prefix
  }

  /**
   * The naming rule of `_safe_name(base)`, where `taken` is the set of names
   * `nuke.exists` answers true for: `base` itself when free, otherwise
   * `base_k` for the smallest k >= 2 that is free.
   */
  ghost predicate IsSafeName(name: string, base: string, taken: set<string>) {
    && name !in taken
    && (base !in taken ==> name == base)
    && (base in taken ==>
          exists k :: 2 <= k && name == Candidate(base, k) && forall j :: 2 <= j < k ==> Candidate(base, j) in taken)
  }

  /** The rule leaves no choice: for given names, at most one name satisfies it. */
  lemma SafeNameUnique(a: string, b: string, base: string, taken: set<string>)
    requires IsSafeName(a, base, taken) && IsSafeName(b, base, taken)
    ensures a == b
  {
    if base in taken {
      var ka :| 2 <= ka && a == Candidate(base, ka) && forall j :: 2 <= j < ka ==> Candidate(base, j) in taken;
      var kb :| 2 <= kb && b == Candidate(base, kb) && forall j :: 2 <= j < kb ==> Candidate(base, j) in taken;
      FreeBoundsSearch(base, taken, ka, kb);
      FreeBoundsSearch(base, taken, kb, ka);
    }
  }

  /** A free candidate `k` bounds any run of taken candidates from 2 up to `m`. */
  lemma FreeBoundsSearch(base: string, taken: set<string>, k: nat, m: nat)
    requires 2 <= k && Candidate(base, k) !in taken
    requires forall j :: 2 <= j < m ==> Candidate(base, j) in taken
    ensures m <= k
  {
  }

  /** When `base` is taken but `base_2` is free, as on a second import of the same workflow, the name is `base_2`. */
  lemma SecondImportSuffix(name: string, base: string, taken: set<string>)
    requires IsSafeName(name, base, taken)
    requires base in taken && base + "_2" !in taken
    ensures name == base + "_2"
  {
    assert NatToString(2) == "2";
    assert Candidate(base, 2) == base + "_2";
    var k :| 2 <= k && name == Candidate(base, k) && forall j :: 2 <= j < k ==> Candidate(base, j) in taken;
    FreeBoundsSearch(base, taken, 2, k);
  }

  /**
   * `_safe_name(base)`: the name the rule above picks. The result starts with
   * `base` and is never `base_1`.
   */
  method SafeName(base: string, taken: set<string>) returns (name: string)
    ensures IsSafeName(name, base, taken)
    ensures StartsWith(name, base) && name != base + "_1"
  {
    name := base;
    var idx := 1;
    ghost var tried: set<string> := {};
    while name in taken
      invariant 1 <= idx && name == Candidate(base, idx)
      invariant tried <= taken && |tried| == idx - 1
      invariant forall s :: s in tried ==> exists j :: 1 <= j < idx && s == Candidate(base, j)
      invariant forall j :: 1 <= j < idx ==> Candidate(base, j) in taken
      decreases |taken| - |tried|
    {
      if name in tried {
        var j :| 1 <= j < idx && name == Candidate(base, j);
        CandidateInjective(base, idx, j);
        assert false;
      }
      tried := tried + {name};
      assert |tried| <= |taken| by {
        assert tried <= taken;
        SubsetCardinality(tried, taken);
      }
      idx := idx + 1;
      name := base + "_" + NatToString(idx);
    }
    assert idx >= 2 ==> name == Candidate(base, idx);
    if idx >= 2 {
      assert NatToString(1) == "1";
      if name == base + "_1" {
        assert NatToString(idx) == name[|base| + 1..];
        NatToStringInjective(idx, 1);
      }
    }
  }

  lemma {:induction false} SubsetCardinality<T>(a: set<T>, b: set<T>)
    requires a <= b
    ensures |a| <= |b|
    decreases a
  {
    if a != {} {
      var x :| x in a;
      SubsetCardinality(a - {x}, b - {x});
    }
  }

  // ---------------------------------------------------------------------------
  // Node creation
  // ---------------------------------------------------------------------------

  /** The names of a list of nodes. */
  function NamesOf(ns: seq<HostNode>): set<string> {
    set h | 0 <= h < |ns| :: ns[h].name
  }

  lemma NamesOfSnoc(ns: seq<HostNode>, x: HostNode)
    ensures NamesOf(ns + [x]) == NamesOf(ns) + {x.name}
  {
    var xs := ns + [x];
    assert xs[|ns|] == x;
    forall n | n in NamesOf(xs)
      ensures n in NamesOf(ns) + {x.name}
    {
      var h :| 0 <= h < |xs| && xs[h].name == n;
      if h < |ns| {
        assert xs[h] == ns[h];
      }
    }
    forall n | n in NamesOf(ns)
      ensures n in NamesOf(xs)
    {
      var h :| 0 <= h < |ns| && ns[h].name == n;
      assert xs[h] == ns[h];
    }
  }

  /**
   * The class the created node ends up with: the mapped kind, or a NoOp when
   * creating the mapped Read or Write node raises (`createFails`).
   */
  function FinalKind(node: map<string, Value>, createFails: Kind -> bool): Kind {
    match KindOf(TypeValue(node))
    case Some(k) => if k != NoOp && createFails(k) then NoOp else k
    case None => NoOp
  }

  /** The node `_create_nuke_node_for_comfy` returns, named `name`. */
  function NewHostNode(node: map<string, Value>, name: string, createFails: Kind -> bool, maxInputsOf: Kind -> int): HostNode
    requires Hashable(TypeValue(node))
  {
    var t := TypeValue(node);
    var kind := FinalKind(node, createFails);
    HostNode(kind, name, PyStr(t),
      if kind == Read then WidgetFile(node) else None,
      if kind == Write then Some("sRGB") else None,
      None, None, None, maxInputsOf(kind))
  }

  /** The same node once the import has positioned and tagged it. */
  function Finished(node: map<string, Value>, name: string, positions: map<int, (int, int)>,
                    createFails: Kind -> bool, maxInputsOf: Kind -> int): HostNode
    requires Hashable(TypeValue(node))
  {
    var id := AsInt(Get(node, "id"));
    NewHostNode(node, name, createFails, maxInputsOf).(
      xy := if id.Some? && id.value in positions then Some(positions[id.value]) else None,
      comfyType := Some(PyStr(TypeValue(node))),
      entry := Some(Dict(node)))
  }

  /** The int id of a node entry, when it has one. */
  function IdOf(v: Value): (r: Option<int>)
    ensures r.Some? ==> v.Dict?
  {
    if v.Dict? then AsInt(Get(v.fields, "id")) else None
  }

  /** The indices of the entries with an int id: the entries that get a host node, in order. */
  function IdIndices(items: seq<Value>): (r: seq<nat>)
    ensures forall j :: 0 <= j < |r| ==> r[j] < |items| && IdOf(items[r[j]]).Some?
  {
    if items == [] then []
    else IdIndices(items[..|items| - 1]) + (if IdOf(items[|items| - 1]).Some? then [|items| - 1] else [])
  }

  /**
   * The `created` dict after the creation loop, when the first new node gets
   * handle `first`: each id maps to the node created for it (the last one, for
   * a repeated id).
   */
  function CreatedRefs(items: seq<Value>, first: nat, createFails: Kind -> bool, maxInputsOf: Kind -> int): map<int, NodeRef> {
    if items == [] then map[]
    else
      var init := items[..|items| - 1];
      var prev := CreatedRefs(init, first, createFails, maxInputsOf);
      var n := items[|items| - 1];
      match IdOf(n)
      case None => prev
      case Some(k) => prev[k := NodeRef(first + |IdIndices(init)|, maxInputsOf(FinalKind(n.fields, createFails)))]
  }

  lemma CreatedRefsStep(items: seq<Value>, i: nat, first: nat, createFails: Kind -> bool, maxInputsOf: Kind -> int)
    requires i < |items|
    ensures CreatedRefs(items[..i + 1], first, createFails, maxInputsOf) ==
      match IdOf(items[i])
      case None => CreatedRefs(items[..i], first, createFails, maxInputsOf)
      case Some(k) =>
        CreatedRefs(items[..i], first, createFails, maxInputsOf)[k :=
          NodeRef(first + |IdIndices(items[..i])|, maxInputsOf(FinalKind(items[i].fields, createFails)))]
  {
    assert items[..i + 1][..i] == items[..i];
  }

  /** The distinct int ids among the entries. */
  function IdSet(items: seq<Value>): set<int> {
    set i | 0 <= i < |items| && IdOf(items[i]).Some? :: IdOf(items[i]).value
  }

  /** The ids of a list are those of all but its last entry, plus the last entry's id. */
  lemma IdSetStep(items: seq<Value>)
    requires items != []
    ensures var last := items[|items| - 1];
      IdSet(items) == IdSet(items[..|items| - 1]) + (if IdOf(last).Some? then {IdOf(last).value} else {})
  {
    var init := items[..|items| - 1];
    var last := |items| - 1;
    var extra: set<int> := if IdOf(items[last]).Some? then {IdOf(items[last]).value} else {};
    forall k | k in IdSet(items)
      ensures k in IdSet(init) + extra
    {
      var i :| 0 <= i < |items| && IdOf(items[i]).Some? && IdOf(items[i]).value == k;
      if i < last {
        assert init[i] == items[i];
      }
    }
    forall k | k in IdSet(init) + extra
      ensures k in IdSet(items)
    {
      if k in IdSet(init) {
        var i :| 0 <= i < |init| && IdOf(init[i]).Some? && IdOf(init[i]).value == k;
        assert items[i] == init[i];
      }
    }
  }

  /** The created dict holds one node per distinct int id, so its size is the number of distinct ids. */
  lemma {:induction false} CreatedRefsKeys(items: seq<Value>, first: nat, createFails: Kind -> bool, maxInputsOf: Kind -> int)
    ensures CreatedRefs(items, first, createFails, maxInputsOf).Keys == IdSet(items)
    ensures |CreatedRefs(items, first, createFails, maxInputsOf)| == |IdSet(items)|
  {
    var refs := CreatedRefs(items, first, createFails, maxInputsOf);
    if items != [] {
      CreatedRefsKeys(items[..|items| - 1], first, createFails, maxInputsOf);
      IdSetStep(items);
    }
    assert |refs| == |refs.Keys|;
  }

  /** Entries without an int id create nothing: the number of nodes created is the number of entries with one. */
  lemma {:induction false} IdIndicesCount(items: seq<Value>)
    ensures |IdIndices(items)| == |set i | 0 <= i < |items| && IdOf(items[i]).Some?|
  {
    if items != [] {
      var init := items[..|items| - 1];
      IdIndicesCount(init);
      assert forall i :: 0 <= i < |init| ==> init[i] == items[i];
      var withId := set i | 0 <= i < |items| && IdOf(items[i]).Some?;
      var initWithId := set i | 0 <= i < |init| && IdOf(init[i]).Some?;
      if IdOf(items[|items| - 1]).Some? {
        assert withId == initWithId + {|items| - 1};
      } else {
        assert withId == initWithId;
      }
    }
  }

  // ---------------------------------------------------------------------------
  // Connections
  // ---------------------------------------------------------------------------

  /** The inputs after the given setInput calls, in order. */
  function Apply(inputs: map<(nat, nat), nat>, calls: seq<Connection>): map<(nat, nat), nat> {
    if calls == [] then inputs
    else
      var c := calls[|calls| - 1];
      Apply(inputs, calls[..|calls| - 1])[(c.dst, c.slot) := c.src]
  }

  /** The setInput calls change only the inputs they name. */
  lemma {:induction false} ApplyTouchesOnlyCalledInputs(inputs: map<(nat, nat), nat>, calls: seq<Connection>, key: (nat, nat))
    requires forall c :: c in calls ==> (c.dst, c.slot) != key
    ensures key in Apply(inputs, calls) <==> key in inputs
    ensures key in inputs ==> Apply(inputs, calls)[key] == inputs[key]
  {
    if calls != [] {
      var init := calls[..|calls| - 1];
      assert forall c :: c in init ==> c in calls;
      ApplyTouchesOnlyCalledInputs(inputs, init, key);
    }
  }

  // ---------------------------------------------------------------------------
  // The whole import
  // ---------------------------------------------------------------------------

  /** The node entries of the document, when its node list is a list. */
  function NodeEntries(data: Value): seq<Value> {
    match FromJson(data)
    case Some(doc) => if doc.nodes.List? then doc.nodes.items else []
    case None => []
  }

  /** The link entries the connect loop visits. */
  function LinkEntries(data: Value): seq<Value> {
    match FromJson(data)
    case Some(doc) => (match LinkItems(doc.links) case Some(xs) => xs case None => [])
    case None => []
  }

  /** The import finds no nodes and only shows a message. */
  predicate FindsNoNodes(data: Value) {
    FromJson(data).Some? && !Truthy(FromJson(data).value.nodes)
  }

  /** Every step of the import completes without an exception escaping. */
  predicate Completes(data: Value) {
    && FromJson(data).Some?
    && var doc := FromJson(data).value;
    && Truthy(doc.nodes)
    && doc.nodes.List?
    && Positions(doc.nodes.items).Some?
    && TypesHashable(doc.nodes.items)
    && LinkItems(doc.links).Some?
  }

  /** Every entry with an int id has a type value that can be looked up. */
  predicate TypesHashable(items: seq<Value>) {
    forall i :: 0 <= i < |items| && IdOf(items[i]).Some? ==> Hashable(TypeValue(items[i].fields))
  }

  lemma TypesHashableStep(items: seq<Value>, i: nat)
    requires i < |items| && TypesHashable(items[..i])
    requires IdOf(items[i]).Some? ==> Hashable(TypeValue(items[i].fields))
    ensures TypesHashable(items[..i + 1])
  {
    assert forall j :: 0 <= j < i ==> items[..i + 1][j] == items[..i][j];
  }

  lemma TypesHashableFails(items: seq<Value>, i: nat)
    requires i < |items| && IdOf(items[i]).Some? && !Hashable(TypeValue(items[i].fields))
    ensures !TypesHashable(items)
  {
  }

  /** Entry `f` is the first entry with an int id whose type value cannot be looked up. */
  predicate FirstUnhashable(items: seq<Value>, f: int) {
    && 0 <= f < |items|
    && IdOf(items[f]).Some?
    && !Hashable(TypeValue(items[f].fields))
    && TypesHashable(items[..f])
  }

  /**
   * `made` are the nodes the creation loop makes for `items`, in order: one
   * per entry with an int id, of the kind its type maps to, positioned and
   * tagged, and named by `_safe_name` from "CU_" and its type, given the
   * names `taken` before the loop and those of the nodes made before it.
   */
  ghost predicate BuiltFrom(made: seq<HostNode>, items: seq<Value>, positions: map<int, (int, int)>,
                            taken: set<string>, createFails: Kind -> bool, maxInputsOf: Kind -> int)
  {
    var order := IdIndices(items);
    && |made| == |order|
    && forall j :: 0 <= j < |made| ==>
         var node := items[order[j]].fields;
         && Hashable(TypeValue(node))
         && made[j] == Finished(node, made[j].name, positions, createFails, maxInputsOf)
         && IsSafeName(made[j].name, RequestedName(TypeValue(node)), taken + NamesOf(made[..j]))
  }

  lemma BuiltFromStep(made: seq<HostNode>, items: seq<Value>, i: nat, x: HostNode, positions: map<int, (int, int)>,
                      taken: set<string>, createFails: Kind -> bool, maxInputsOf: Kind -> int)
    requires i < |items| && BuiltFrom(made, items[..i], positions, taken, createFails, maxInputsOf)
    requires IdOf(items[i]).Some? && Hashable(TypeValue(items[i].fields))
    requires x == Finished(items[i].fields, x.name, positions, createFails, maxInputsOf)
    requires IsSafeName(x.name, RequestedName(TypeValue(items[i].fields)), taken + NamesOf(made))
    ensures BuiltFrom(made + [x], items[..i + 1], positions, taken, createFails, maxInputsOf)
  {
    assert items[..i + 1][..i] == items[..i];
    assert IdIndices(items[..i + 1]) == IdIndices(items[..i]) + [i];
    assert (made + [x])[..|made|] == made;
    assert forall j :: 0 <= j < |made| ==> (made + [x])[..j] == made[..j];
  }

  /** Every node the loop makes has a name that was not taken before it. */
  lemma BuiltFromFresh(made: seq<HostNode>, items: seq<Value>, positions: map<int, (int, int)>,
                       taken: set<string>, createFails: Kind -> bool, maxInputsOf: Kind -> int)
    requires BuiltFrom(made, items, positions, taken, createFails, maxInputsOf)
    ensures forall h :: 0 <= h < |made| ==> made[h].name !in taken
  {
    forall h | 0 <= h < |made|
      ensures made[h].name !in taken
    {
      assert IsSafeName(made[h].name, RequestedName(TypeValue(items[IdIndices(items)[h]].fields)), taken + NamesOf(made[..h]));
    }
  }

  lemma BuiltFromSkip(made: seq<HostNode>, items: seq<Value>, i: nat, positions: map<int, (int, int)>,
                      taken: set<string>, createFails: Kind -> bool, maxInputsOf: Kind -> int)
    requires i < |items| && BuiltFrom(made, items[..i], positions, taken, createFails, maxInputsOf)
    requires IdOf(items[i]).None?
    ensures BuiltFrom(made, items[..i + 1], positions, taken, createFails, maxInputsOf)
  {
    assert items[..i + 1][..i] == items[..i];
    assert IdIndices(items[..i + 1]) == IdIndices(items[..i]);
  }

  /**
   * The creation loop after the first `i` entries: the graph holds `base`
   * followed by the nodes `made`, the names are `taken` and theirs, and
   * `refs` is the created dict so far.
   */
  ghost predicate LoopState(items: seq<Value>, i: nat, made: seq<HostNode>, refs: map<int, NodeRef>,
                            nodes: seq<HostNode>, names: set<string>, base: seq<HostNode>, taken: set<string>,
                            positions: map<int, (int, int)>, createFails: Kind -> bool, maxInputsOf: Kind -> int)
  {
    && i <= |items|
    && nodes == base + made
    && names == taken + NamesOf(made)
    && TypesHashable(items[..i])
    && refs == CreatedRefs(items[..i], |base|, createFails, maxInputsOf)
    && BuiltFrom(made, items[..i], positions, taken, createFails, maxInputsOf)
  }

  /** An entry with an int id adds its finished node, under the name `_safe_name` picks. */
  lemma LoopStateAdd(items: seq<Value>, i: nat, made: seq<HostNode>, refs: map<int, NodeRef>,
                     base: seq<HostNode>, taken: set<string>, positions: map<int, (int, int)>,
                     createFails: Kind -> bool, maxInputsOf: Kind -> int, x: HostNode)
    requires i < |items| && items[i].Dict? && IdOf(items[i]).Some?
    requires LoopState(items, i, made, refs, base + made, taken + NamesOf(made), base, taken, positions, createFails, maxInputsOf)
    requires Hashable(TypeValue(items[i].fields))
    requires x == Finished(items[i].fields, x.name, positions, createFails, maxInputsOf)
    requires IsSafeName(x.name, RequestedName(TypeValue(items[i].fields)), taken + NamesOf(made))
    ensures LoopState(items, i + 1, made + [x], refs[IdOf(items[i]).value := NodeRef(|base + made|, x.maxInputs)],
                      (base + made) + [x], (taken + NamesOf(made)) + {x.name}, base, taken, positions, createFails, maxInputsOf)
  {
    var k := IdOf(items[i]).value;
    assert |made| == |IdIndices(items[..i])|;
    assert x.maxInputs == maxInputsOf(FinalKind(items[i].fields, createFails));
    assert refs[k := NodeRef(|base + made|, x.maxInputs)] == CreatedRefs(items[..i + 1], |base|, createFails, maxInputsOf) by {
      CreatedRefsStep(items, i, |base|, createFails, maxInputsOf);
    }
    BuiltFromStep(made, items, i, x, positions, taken, createFails, maxInputsOf);
    NamesOfSnoc(made, x);
    TypesHashableStep(items, i);
    assert (base + made) + [x] == base + (made + [x]);
  }

  /** An entry without an int id changes nothing but the position in the list. */
  lemma LoopStateSkip(items: seq<Value>, i: nat, made: seq<HostNode>, refs: map<int, NodeRef>,
                      nodes: seq<HostNode>, names: set<string>, base: seq<HostNode>, taken: set<string>,
                      positions: map<int, (int, int)>, createFails: Kind -> bool, maxInputsOf: Kind -> int)
    requires i < |items| && items[i].Dict? && IdOf(items[i]).None?
    requires LoopState(items, i, made, refs, nodes, names, base, taken, positions, createFails, maxInputsOf)
    ensures LoopState(items, i + 1, made, refs, nodes, names, base, taken, positions, createFails, maxInputsOf)
  {
    assert items[..i + 1][..i] == items[..i];
    BuiltFromSkip(made, items, i, positions, taken, createFails, maxInputsOf);
    CreatedRefsStep(items, i, |base|, createFails, maxInputsOf);
    TypesHashableStep(items, i);
  }

  /**
   * The host node graph as the import sees it: the names `nuke.exists`
   * reports, the nodes the import created (a handle is an index), the inputs
   * it connected and the undo brackets it opened and closed.
   */
  class DagState {
    var names: set<string>
    var nodes: seq<HostNode>
    var inputs: map<(nat, nat), nat>
    var undo: seq<UndoMark>

    /** Every created node's name exists in the graph, and no two share a name. */
    ghost predicate Valid()
      reads this
    {
      && (forall h :: 0 <= h < |nodes| ==> nodes[h].name in names)
      && (forall h, g :: 0 <= h < g < |nodes| ==> nodes[h].name != nodes[g].name)
    }

    constructor (existing: set<string>)
      ensures Valid()
      ensures names == existing && nodes == [] && inputs == map[] && undo == []
    {
      names := existing;
      nodes := [];
      inputs := map[];
      undo := [];
    }

    /**
     * `_create_nuke_node_for_comfy(node)`: None when the type value cannot be
     * looked up (the TypeError escapes); otherwise a node of the mapped kind,
     * under the name `_safe_name` picks for "CU_" and the type.
     */
    method CreateNode(node: map<string, Value>, createFails: Kind -> bool, maxInputsOf: Kind -> int)
      returns (handle: Option<nat>)
      requires Valid()
      modifies this`nodes, this`names
      ensures Valid()
      ensures handle.None? <==> !Hashable(TypeValue(node))
      ensures handle.None? ==> nodes == old(nodes) && names == old(names)
      ensures handle.Some? ==>
        && handle.value == |old(nodes)|
        && |nodes| == |old(nodes)| + 1
        && nodes[..|old(nodes)|] == old(nodes)
        && nodes[handle.value] == NewHostNode(node, nodes[handle.value].name, createFails, maxInputsOf)
        && IsSafeName(nodes[handle.value].name, RequestedName(TypeValue(node)), old(names))
        && names == old(names) + {nodes[handle.value].name}
    {
      var t := TypeValue(node);
      if KindOf(t).None? {
        return None;
      }
      var name := SafeName(RequestedName(t), names);
      nodes := nodes + [NewHostNode(node, name, createFails, maxInputsOf)];
      names := names + {name};
      handle := Some(|nodes| - 1);
    }

    /** `setXYpos` and the two tag knobs on node `h`; names and the rest stay. */
    method PlaceAndTag(h: nat, xy: Option<(int, int)>, comfyType: string, entry: Value)
      requires Valid() && h < |nodes|
      modifies this`nodes
      ensures Valid()
      ensures nodes == old(nodes)[h := old(nodes)[h].(xy := xy, comfyType := Some(comfyType), entry := Some(entry))]
    {
      nodes := nodes[h := nodes[h].(xy := xy, comfyType := Some(comfyType), entry := Some(entry))];
      assert forall g :: 0 <= g < |nodes| ==> nodes[g].name == old(nodes)[g].name;
    }

    /**
     * One pass of the creation loop for an entry with an int id: create the
     * node, move it to its canvas position when it has one, and tag it. None
     * when the type lookup raises, and then nothing changes.
     */
    method AddNode(n: map<string, Value>, positions: map<int, (int, int)>,
                   createFails: Kind -> bool, maxInputsOf: Kind -> int)
      returns (h: Option<nat>)
      requires Valid()
      modifies this`nodes, this`names
      ensures Valid()
      ensures h.None? <==> !Hashable(TypeValue(n))
      ensures h.None? ==> nodes == old(nodes) && names == old(names)
      ensures h.Some? ==>
        && h.value == |old(nodes)| < |nodes|
        && nodes == old(nodes) + [nodes[h.value]]
        && nodes[h.value] == Finished(n, nodes[h.value].name, positions, createFails, maxInputsOf)
        && IsSafeName(nodes[h.value].name, RequestedName(TypeValue(n)), old(names))
        && names == old(names) + {nodes[h.value].name}
    {
      h := CreateNode(n, createFails, maxInputsOf);
      if h.None? {
        return;
      }
      ghost var before := nodes;
      var nid := AsInt(Get(n, "id"));
      var xy := if nid.Some? && nid.value in positions then Some(positions[nid.value]) else None;
      PlaceAndTag(h.value, xy, PyStr(TypeValue(n)), Dict(n));
      assert nodes[..|old(nodes)|] == before[..|old(nodes)|] == old(nodes);
      assert nodes == old(nodes) + [nodes[h.value]];
    }

    /** The creation loop's state, `LoopState` of the current nodes and names. */
    ghost predicate CreatedSoFar(items: seq<Value>, i: nat, made: seq<HostNode>, refs: map<int, NodeRef>,
                                 base: seq<HostNode>, taken: set<string>, positions: map<int, (int, int)>,
                                 createFails: Kind -> bool, maxInputsOf: Kind -> int)
      reads this
    {
      LoopState(items, i, made, refs, nodes, names, base, taken, positions, createFails, maxInputsOf)
    }

    /** One iteration of the creation loop: entry `i` adds its node, or raises. */
    method CreateStep(items: seq<Value>, i: nat, refs: map<int, NodeRef>, ghost made: seq<HostNode>,
                      ghost base: seq<HostNode>, ghost taken: set<string>, positions: map<int, (int, int)>,
                      createFails: Kind -> bool, maxInputsOf: Kind -> int)
      returns (next: Option<map<int, NodeRef>>, ghost made': seq<HostNode>)
      requires Valid() && i < |items| && items[i].Dict?
      requires CreatedSoFar(items, i, made, refs, base, taken, positions, createFails, maxInputsOf)
      modifies this`nodes, this`names
      ensures Valid()
      ensures next.None? ==> FirstUnhashable(items, i) && nodes == old(nodes) && names == old(names) && made' == made
      ensures next.Some? ==> CreatedSoFar(items, i + 1, made', next.value, base, taken, positions, createFails, maxInputsOf)
    {
      var n := items[i].fields;
      var nid := AsInt(Get(n, "id"));
      if nid.Some? {
        var h := AddNode(n, positions, createFails, maxInputsOf);
        if h.None? {
          TypesHashableFails(items, i);
          return None, made;
        }
        ghost var x := nodes[h.value];
        LoopStateAdd(items, i, made, refs, base, taken, positions, createFails, maxInputsOf, x);
        next := Some(refs[nid.value := NodeRef(h.value, nodes[h.value].maxInputs)]);
        made' := made + [x];
      } else {
        LoopStateSkip(items, i, made, refs, nodes, names, base, taken, positions, createFails, maxInputsOf);
        next := Some(refs);
        made' := made;
      }
    }

    /**
     * The creation loop of `import_comfyui_workflow` over entries that are all
     * dicts: one node per entry with an int id, positioned and tagged. None
     * when a type lookup raises; the nodes created before it stay.
     */
    method CreateAll(items: seq<Value>, positions: map<int, (int, int)>,
                     createFails: Kind -> bool, maxInputsOf: Kind -> int)
      returns (created: Option<map<int, NodeRef>>)
      requires Valid()
      requires forall i :: 0 <= i < |items| ==> items[i].Dict?
      modifies this`nodes, this`names
      ensures Valid()
      ensures |old(nodes)| <= |nodes| && nodes[..|old(nodes)|] == old(nodes)
      ensures forall h :: |old(nodes)| <= h < |nodes| ==> nodes[h].name !in old(names)
      ensures names == old(names) + NamesOf(nodes[|old(nodes)|..])
      ensures created.Some? <==> TypesHashable(items)
      // a raise leaves the finished nodes of the entries before the first unhashable type
      ensures created.None? ==>
        exists f :: (FirstUnhashable(items, f)
          && BuiltFrom(nodes[|old(nodes)|..], items[..f], positions, old(names), createFails, maxInputsOf))
      ensures created.Some? ==>
        && created.value == CreatedRefs(items, |old(nodes)|, createFails, maxInputsOf)
        && BuiltFrom(nodes[|old(nodes)|..], items, positions, old(names), createFails, maxInputsOf)
    {
      var refs: map<int, NodeRef> := map[];
      ghost var made: seq<HostNode> := [];
      var i := 0;
      assert nodes == old(nodes) + made && names == old(names) + NamesOf(made);
      while i < |items|
        invariant 0 <= i <= |items|
        invariant Valid()
        invariant CreatedSoFar(items, i, made, refs, old(nodes), old(names), positions, createFails, maxInputsOf)
      {
        var next;
        next, made := CreateStep(items, i, refs, made, old(nodes), old(names), positions, createFails, maxInputsOf);
        if next.None? {
          assert nodes[|old(nodes)|..] == made;
          assert FirstUnhashable(items, i);
          TypesHashableFails(items, i);
          BuiltFromFresh(made, items[..i], positions, old(names), createFails, maxInputsOf);
          return None;
        }
        refs := next.value;
        i := i + 1;
      }
      assert items[..i] == items;
      assert nodes[|old(nodes)|..] == made;
      BuiltFromFresh(made, items, positions, old(names), createFails, maxInputsOf);
      created := Some(refs);
    }

    /**
     * `_connect_nodes(links, by_id)`: makes the setInput call of every entry
     * that resolves, and counts the calls that did not raise.
     */
    method ConnectNodes(links: seq<Value>, byId: map<int, NodeRef>, raises: Connection -> bool)
      returns (connections: nat)
      modifies this`inputs
      ensures connections == |Performed(links, byId, raises)|
      ensures inputs == Apply(old(inputs), Performed(links, byId, raises))
    {
      connections := 0;
      var i := 0;
      while i < |links|
        invariant 0 <= i <= |links|
        invariant connections == |Performed(links[..i], byId, raises)|
        invariant inputs == Apply(old(inputs), Performed(links[..i], byId, raises))
      {
        assert links[..i + 1][..i] == links[..i];
        var r := ResolveLink(links[i], byId);
        if r.Some? && !raises(r.value) {
          inputs := inputs[(r.value.dst, r.value.slot) := r.value.src];
          connections := connections + 1;
          ghost var made := Performed(links[..i + 1], byId, raises);
          assert made[..|made| - 1] == Performed(links[..i], byId, raises);
        }
        i := i + 1;
      }
      assert links[..i] == links;
    }

    /**
     * `import_comfyui_workflow` from the parsed document on: positions, then
     * inside one undo bracket the nodes and the connections. An empty node
     * list or an exception before the bracket changes nothing; once opened the
     * bracket is always closed.
     */
    method ImportWorkflow(data: Value, createFails: Kind -> bool, maxInputsOf: Kind -> int, raises: Connection -> bool)
      returns (outcome: ImportOutcome)
      requires Valid()
      modifies this
      ensures Valid()
      ensures outcome.NoNodes? <==> FindsNoNodes(data)
      ensures outcome.Imported? <==> Completes(data)
      ensures undo == old(undo) + [BeginUndo, EndUndo]
           || (undo == old(undo) && nodes == old(nodes) && names == old(names) && inputs == old(inputs))
      ensures outcome.NoNodes? ==> undo == old(undo) && nodes == old(nodes) && names == old(names) && inputs == old(inputs)
      ensures |old(nodes)| <= |nodes| && nodes[..|old(nodes)|] == old(nodes)
      ensures forall h :: |old(nodes)| <= h < |nodes| ==> nodes[h].name !in old(names)
      ensures names == old(names) + NamesOf(nodes[|old(nodes)|..])
      // the bracket is opened exactly when the positions are computed for a truthy node list
      ensures undo == old(undo) + [BeginUndo, EndUndo] <==>
        FromJson(data).Some? && Truthy(FromJson(data).value.nodes) && FromJson(data).value.nodes.List?
        && Positions(NodeEntries(data)).Some?
      ensures outcome.Raised? ==> inputs == old(inputs)
      // a raise inside the undo bracket: during creation, or when the links cannot be iterated
      ensures outcome.Raised? && undo != old(undo) ==>
        && FromJson(data).Some? && FromJson(data).value.nodes.List?
        && var items := NodeEntries(data);
        && Positions(items).Some?
        && (TypesHashable(items) ==>
              && LinkItems(FromJson(data).value.links).None?
              && BuiltFrom(nodes[|old(nodes)|..], items, Positions(items).value, old(names), createFails, maxInputsOf))
        && (!TypesHashable(items) ==>
              exists f :: (FirstUnhashable(items, f)
                && BuiltFrom(nodes[|old(nodes)|..], items[..f], Positions(items).value, old(names), createFails, maxInputsOf)))
      ensures outcome.Imported? ==>
        var items := NodeEntries(data);
        var refs := CreatedRefs(items, |old(nodes)|, createFails, maxInputsOf);
        var made := Performed(LinkEntries(data), refs, raises);
        && undo == old(undo) + [BeginUndo, EndUndo]
        && Positions(items).Some?
        && BuiltFrom(nodes[|old(nodes)|..], items, Positions(items).value, old(names), createFails, maxInputsOf)
        && outcome.nodeCount == |IdSet(items)|
        && outcome.linkCount == |made|
        && inputs == Apply(old(inputs), made)
    {
      var doc := FromJson(data);
      if doc.None? {
        return Raised;
      }
      var wf := doc.value;
      if !Truthy(wf.nodes) {
        return NoNodes;
      }
      if !wf.nodes.List? {
        // iterating a non-list node value raises before any node is created
        return Raised;
      }
      var items := wf.nodes.items;
      var positions := ComputePositions(items);
      if positions.None? {
        return Raised;
      }
      PositionsDefined(items);
      forall i | 0 <= i < |items|
        ensures items[i].Dict?
      {
        assert !StepOf(items[i]).Raises?;
      }

      undo := undo + [BeginUndo];
      var created := CreateAll(items, positions.value, createFails, maxInputsOf);
      if created.None? {
        undo := undo + [EndUndo];
        return Raised;
      }
      var linkItems := LinkItems(wf.links);
      if linkItems.None? {
        undo := undo + [EndUndo];
        return Raised;
      }
      var connected := ConnectNodes(linkItems.value, created.value, raises);
      undo := undo + [EndUndo];
      CreatedRefsKeys(items, |old(nodes)|, createFails, maxInputsOf);
      outcome := Imported(|created.value|, connected);
    }
  }
}
