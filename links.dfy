/**
 * Link resolution of `_connect_nodes` (python/comfy_to_nuke.py): which link
 * entries turn into a `dst.setInput(slot, src)` call, between which created
 * nodes and on which input slot.
 */
module Links {
  import opened Base
  import opened Json

  /** A created node as `by_id` holds it: its host handle and what its `maxInputs()` reports. */
  datatype NodeRef = NodeRef(handle: nat, maxInputs: int)

  /** One `dst.setInput(slot, src)` call, between host handles. */
  datatype Connection = Connection(dst: nat, slot: nat, src: nat)

  /** The fields of a link entry that `_connect_nodes` uses (the source slot is read but unused). */
  datatype LinkEnds = LinkEnds(srcId: Value, dstId: Value, dstSlot: Value)

  /**
   * The two accepted shapes: a list of at least five elements
   * `[id, src_id, src_slot, dst_id, dst_slot, ...]`, or a dict whose fields are
   * picked by `or` chains (so a falsy value such as id 0 falls through to the
   * next key). Anything else is skipped (None).
   */
  function LinkFields(link: Value): (r: Option<LinkEnds>)
    ensures r.Some? <==> (link.List? && |link.items| >= 5) || link.Dict?
    ensures link.List? && |link.items| >= 5 ==> r == Some(LinkEnds(link.items[1], link.items[3], link.items[4]))
  {
    match link
    case List(xs) => if |xs| >= 5 then Some(LinkEnds(xs[1], xs[3], xs[4])) else None
    case Dict(d) =>
      Some(LinkEnds(
        Or(Or(Get(d, "from"), Get(d, "src")), Get(d, "output")),
        Or(Or(Get(d, "to"), Get(d, "dst")), Get(d, "input")),
        Or(Or(Get(d, "to_slot"), Get(d, "dst_slot")), Int(0))))
    case _ => None
  }

  /** `int(dst_slot) if isinstance(dst_slot, (int, float)) else 0` */
  function RequestedSlot(v: Value): int {
    match v
    case Float(r, _) => Truncate(r)
    case _ => if AsInt(v).Some? then AsInt(v).value else 0
  }

  /** `max(1, int(dst.maxInputs()))`; when the call raises the source also uses 1. */
  function InputCount(reported: int): int {
    if reported >= 1 then reported else 1
  }

  /** `by_id.get(v)` after the `isinstance(v, int)` check. */
  function Endpoint(v: Value, byId: map<int, NodeRef>): Option<NodeRef> {
    match AsInt(v)
    case Some(k) => if k in byId then Some(byId[k]) else None
    case None => None
  }

  /**
   * The `setInput` call a link entry leads to, or None when the entry is
   * skipped: wrong shape, a non-int endpoint id, or an endpoint that was not
   * created. The slot always lies within the destination's input range, whose
   * size is at least 1 even when the node reports 0 inputs; a requested slot
   * outside that range (or not a number) becomes 0.
   */
  function ResolveLink(link: Value, byId: map<int, NodeRef>): (r: Option<Connection>)
    ensures r.Some? <==>
      LinkFields(link).Some? &&
      Endpoint(LinkFields(link).value.srcId, byId).Some? &&
      Endpoint(LinkFields(link).value.dstId, byId).Some?
    ensures r.Some? ==>
      var e := LinkFields(link).value;
      var dst := Endpoint(e.dstId, byId).value;
      var n := InputCount(dst.maxInputs);
      && r.value.src == Endpoint(e.srcId, byId).value.handle
      && r.value.dst == dst.handle
      && 0 <= r.value.slot < n
      && n >= 1 && n >= dst.maxInputs
      && (0 <= RequestedSlot(e.dstSlot) < n ==> r.value.slot == RequestedSlot(e.dstSlot))
      && (!(0 <= RequestedSlot(e.dstSlot) < n) ==> r.value.slot == 0)
  {
    match LinkFields(link)
    case None => None
    case Some(e) =>
      match (Endpoint(e.srcId, byId), Endpoint(e.dstId, byId))
      case (Some(src), Some(dst)) =>
        var inputs := InputCount(dst.maxInputs);
        var slot := RequestedSlot(e.dstSlot);
        Some(Connection(dst.handle, if slot < 0 || slot >= inputs then 0 else slot, src.handle))
      case _ => None
  }

  /**
   * The entries `for link in links` visits. Iterating a number or None raises
   * TypeError (None). Iterating a string or a dict yields strings, which are
   * all skipped, so they contribute no entries here.
   */
  function LinkItems(links: Value): (r: Option<seq<Value>>)
    ensures links.List? ==> r == Some(links.items)
    ensures links.Str? || links.Dict? ==> r == Some([])
    ensures r.None? <==> links.Null? || links.Bool? || links.Int? || links.Float?
  {
    match links
    case List(xs) => Some(xs)
    case Str(_) => Some([])
    case Dict(_) => Some([])
    case _ => None
  }

  /**
   * The `setInput` calls `_connect_nodes` makes and that do not raise, in
   * order; `raises` is the host's answer to whether a call raises.
   */
  function Performed(links: seq<Value>, byId: map<int, NodeRef>, raises: Connection -> bool): seq<Connection> {
    if links == [] then []
    else
      var prev := Performed(links[..|links| - 1], byId, raises);
      match ResolveLink(links[|links| - 1], byId)
      case Some(c) => if raises(c) then prev else prev + [c]
      case None => prev
  }

  /** Every link entry adds at most one connection. */
  lemma {:induction false} PerformedBound(links: seq<Value>, byId: map<int, NodeRef>, raises: Connection -> bool)
    ensures |Performed(links, byId, raises)| <= |links|
  {
    if links != [] {
      PerformedBound(links[..|links| - 1], byId, raises);
    }
  }

  /** The connections of a concatenation are those of its parts, in order. */
  lemma {:induction false} PerformedAppend(a: seq<Value>, b: seq<Value>, byId: map<int, NodeRef>, raises: Connection -> bool)
    ensures Performed(a + b, byId, raises) == Performed(a, byId, raises) + Performed(b, byId, raises)
    decreases |b|
  {
    if b == [] {
      assert a + b == a;
    } else {
      var b0 := b[..|b| - 1];
      assert (a + b)[..|a + b| - 1] == a + b0;
      PerformedAppend(a, b0, byId, raises);
    }
  }

  /**
   * A skipped entry affects no other: removing an entry that resolves to no
   * connection leaves the connections of the rest unchanged.
   */
  lemma SkippedLinkIsInert(a: seq<Value>, bad: Value, b: seq<Value>, byId: map<int, NodeRef>, raises: Connection -> bool)
    requires ResolveLink(bad, byId).None?
    ensures Performed(a + [bad] + b, byId, raises) == Performed(a + b, byId, raises)
  {
    PerformedAppend(a + [bad], b, byId, raises);
    PerformedAppend(a, [bad], byId, raises);
    PerformedAppend(a, b, byId, raises);
    assert Performed([bad], byId, raises) == [] by {
      assert [bad][..0] == [];
    }
  }

  /**
   * Every connection made targets a created node on a slot inside its input
   * range, and comes from a created node.
   */
  lemma {:induction false} PerformedSlotsInRange(links: seq<Value>, byId: map<int, NodeRef>, raises: Connection -> bool)
    ensures forall c :: c in Performed(links, byId, raises) ==>
      !raises(c) &&
      (exists d :: d in byId && byId[d].handle == c.dst && c.slot < InputCount(byId[d].maxInputs)) &&
      (exists s :: s in byId && byId[s].handle == c.src)
  {
    if links != [] {
      var init := links[..|links| - 1];
      PerformedSlotsInRange(init, byId, raises);
      var r := ResolveLink(links[|links| - 1], byId);
      if r.Some? && !raises(r.value) {
        var e := LinkFields(links[|links| - 1]).value;
        var d := AsInt(e.dstId).value;
        var s := AsInt(e.srcId).value;
        assert byId[d].handle == r.value.dst && r.value.slot < InputCount(byId[d].maxInputs);
        assert byId[s].handle == r.value.src;
      }
    }
  }

  /**
   * The `max_inputs > 0` guard never skips a link: when every entry resolves
   * and no call raises, every entry is connected.
   */
  lemma {:induction false} AllResolvedAllConnected(links: seq<Value>, byId: map<int, NodeRef>, raises: Connection -> bool)
    requires forall i :: 0 <= i < |links| ==> ResolveLink(links[i], byId).Some? && !raises(ResolveLink(links[i], byId).value)
    ensures |Performed(links, byId, raises)| == |links|
  {
    if links != [] {
      var init := links[..|links| - 1];
      assert forall i :: 0 <= i < |init| ==> init[i] == links[i];
      AllResolvedAllConnected(init, byId, raises);
    }
  }

  /** In the dict form an id of 0 is falsy and counts as absent when no later key supplies one. */
  lemma DictZeroIdSkipped(d: map<string, Value>, byId: map<int, NodeRef>)
    requires Get(d, "from") == Int(0) && "src" !in d && "output" !in d
    ensures ResolveLink(Dict(d), byId).None?
  {
  }
}
