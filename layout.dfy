/**
 * `_compute_positions` (python/comfy_to_nuke.py): the canvas position of each
 * node, keyed by node id.
 */
module Layout {
  import opened Base
  import opened Json

  /** `int(float(v))` for the values `float()` accepts here: ints, bools, floats. */
  function Coordinate(v: Value): Option<int> {
    match v
    case Float(r, _) => Some(Truncate(r))
    case _ => AsInt(v)
  }

  /** `n.get("pos") or n.get("position") or [0, 0]` */
  function PosValue(node: map<string, Value>): Value {
    Or(Or(Get(node, "pos"), Get(node, "position")), List([Int(0), Int(0)]))
  }

  /** What visiting one node entry does to the map. */
  datatype Step = Raises | NoEntry | Entry(id: int, xy: (int, int))

  /**
   * One iteration of the loop. An entry that is not a dict has no `.get` and
   * raises; a node without an int id, or whose position is not a list of at
   * least two elements, adds nothing; otherwise both coordinates are coerced,
   * and a coordinate `float()` rejects raises.
   */
  function StepOf(n: Value): (r: Step)
    ensures !n.Dict? ==> r == Raises
    ensures n.Dict? && AsInt(Get(n.fields, "id")).None? ==> r == NoEntry
    ensures n.Dict? && AsInt(Get(n.fields, "id")).Some?
            && !Truthy(Get(n.fields, "pos")) && !Truthy(Get(n.fields, "position")) ==>
      r == Entry(AsInt(Get(n.fields, "id")).value, (0, 0))
    ensures n.Dict? && Truthy(Get(n.fields, "pos")) && !(Get(n.fields, "pos").List? && |Get(n.fields, "pos").items| >= 2) ==>
      r == NoEntry
    ensures r.Entry? ==> n.Dict? && Some(r.id) == AsInt(Get(n.fields, "id"))
    // the position is the first truthy of "pos" and "position", else [0, 0]
    ensures n.Dict? && AsInt(Get(n.fields, "id")).Some? && !(PosValue(n.fields).List? && |PosValue(n.fields).items| >= 2) ==>
      r == NoEntry
    ensures n.Dict? && AsInt(Get(n.fields, "id")).Some? && PosValue(n.fields).List? && |PosValue(n.fields).items| >= 2 ==>
      var p := PosValue(n.fields).items;
      if Coordinate(p[0]).Some? && Coordinate(p[1]).Some? then
        r == Entry(AsInt(Get(n.fields, "id")).value, (Coordinate(p[0]).value, Coordinate(p[1]).value))
      else r == Raises
  {
    if !n.Dict? then Raises
    else
      var nid := AsInt(Get(n.fields, "id"));
      var p := PosValue(n.fields);
      if nid.Some? && p.List? && |p.items| >= 2 then
        match (Coordinate(p.items[0]), Coordinate(p.items[1]))
        case (Some(x), Some(y)) => Entry(nid.value, (x, y))
        case _ => Raises
      else NoEntry
  }

  /** Visiting `n` writes an entry for id `k`. */
  predicate EntryFor(n: Value, k: int) {
    StepOf(n).Entry? && StepOf(n).id == k
  }

  /** The map the loop has built after visiting `nodes`, or None once it raised. */
  function Positions(nodes: seq<Value>): Option<map<int, (int, int)>> {
    if nodes == [] then Some(map[])
    else
      match Positions(nodes[..|nodes| - 1])
      case None => None
      case Some(m) =>
        match StepOf(nodes[|nodes| - 1])
        case Raises => None
        case NoEntry => Some(m)
        case Entry(k, xy) => Some(m[k := xy])
  }

  /** `_compute_positions(nodes)`, with None for a raised exception. */
  method ComputePositions(nodes: seq<Value>) returns (pos: Option<map<int, (int, int)>>)
    ensures pos == Positions(nodes)
  {
    var m: map<int, (int, int)> := map[];
    var i := 0;
    while i < |nodes|
      invariant 0 <= i <= |nodes|
      invariant Positions(nodes[..i]) == Some(m)
    {
      assert nodes[..i + 1][..i] == nodes[..i];
      var step := StepOf(nodes[i]);
      if step.Raises? {
        PositionsRaised(nodes, i + 1);
        return None;
      } else if step.Entry? {
        m := m[step.id := step.xy];
      }
      i := i + 1;
    }
    assert nodes[..i] == nodes;
    return Some(m);
  }

  /** Once a prefix has raised, so has every longer list. */
  lemma {:induction false} PositionsRaised(nodes: seq<Value>, i: nat)
    requires i <= |nodes| && Positions(nodes[..i]).None?
    ensures Positions(nodes).None?
    decreases |nodes| - i
  {
    if i < |nodes| {
      assert nodes[..i + 1][..i] == nodes[..i];
      PositionsRaised(nodes, i + 1);
    } else {
      assert nodes[..i] == nodes;
    }
  }

  /** The positions are computed exactly when no entry raises. */
  lemma {:induction false} PositionsDefined(nodes: seq<Value>)
    ensures Positions(nodes).Some? <==> forall i :: 0 <= i < |nodes| ==> !StepOf(nodes[i]).Raises?
  {
    if nodes != [] {
      var init := nodes[..|nodes| - 1];
      PositionsDefined(init);
      assert forall i :: 0 <= i < |init| ==> init[i] == nodes[i];
    }
  }

  /**
   * Only nodes that contribute an entry have one: an id is a key of the map
   * exactly when some node with that id has a usable position.
   */
  lemma {:induction false} PositionsKeys(nodes: seq<Value>, m: map<int, (int, int)>)
    requires Positions(nodes) == Some(m)
    ensures forall k :: k in m <==> exists i :: 0 <= i < |nodes| && EntryFor(nodes[i], k)
  {
    if nodes != [] {
      var init := nodes[..|nodes| - 1];
      var last := |nodes| - 1;
      var m0 :| Positions(init) == Some(m0);
      PositionsKeys(init, m0);
      assert forall i :: 0 <= i < |init| ==> init[i] == nodes[i];
      forall k
        ensures k in m <==> exists i :: 0 <= i < |nodes| && EntryFor(nodes[i], k)
      {
        if k in m0 {
          var i :| 0 <= i < |init| && EntryFor(init[i], k);
          assert EntryFor(nodes[i], k);
        }
        if EntryFor(nodes[last], k) {
          assert k in m;
        }
      }
    }
  }

  /**
   * A later node with the same id overwrites an earlier one: the entry of an id
   * is the position of the last node with that id that has a usable position.
   */
  lemma {:induction false} PositionsLastWins(nodes: seq<Value>, m: map<int, (int, int)>, i: nat)
    requires Positions(nodes) == Some(m)
    requires i < |nodes| && StepOf(nodes[i]).Entry?
    requires forall j :: i < j < |nodes| ==> !EntryFor(nodes[j], StepOf(nodes[i]).id)
    ensures StepOf(nodes[i]).id in m && m[StepOf(nodes[i]).id] == StepOf(nodes[i]).xy
  {
    var init := nodes[..|nodes| - 1];
    var last := |nodes| - 1;
    var m0 :| Positions(init) == Some(m0);
    if i < last {
      assert forall j :: 0 <= j < |init| ==> init[j] == nodes[j];
      PositionsLastWins(init, m0, i);
    }
  }
}
