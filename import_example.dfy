/**
 * A worked import: three nodes (ids 1, 2, 3 of types LoadImage, Unknown and
 * SaveImage) and two links (1 -> 2 and 2 -> 3, both on slot 0).
 */
module ImportExample {
  import opened Base
  import opened Json
  import opened Workflow
  import opened Layout
  import opened Links
  import opened Dag

  function Node(id: int, t: string): Value {
    Dict(map["id" := Int(id), "type" := Str(t)])
  }

  function Link(id: int, src: int, dst: int): Value {
    List([Int(id), Int(src), Int(0), Int(dst), Int(0)])
  }

  function SampleNodes(): seq<Value> {
    [Node(1, "LoadImage"), Node(2, "Unknown"), Node(3, "SaveImage")]
  }

  function SampleDocument(): Value {
    Dict(map["nodes" := List(SampleNodes()), "links" := List([Link(1, 1, 2), Link(2, 2, 3)])])
  }

  lemma ExampleCompletes()
    ensures Completes(SampleDocument())
    ensures NodeEntries(SampleDocument()) == SampleNodes()
    ensures LinkEntries(SampleDocument()) == [Link(1, 1, 2), Link(2, 2, 3)]
  {
    SamplePositions();
  }

  /** Every sample node has a position, (0, 0) by default. */
  lemma SamplePositions()
    ensures Positions(SampleNodes()).Some?
  {
    var items := SampleNodes();
    assert StepOf(items[0]) == Entry(1, (0, 0));
    assert StepOf(items[1]) == Entry(2, (0, 0));
    assert StepOf(items[2]) == Entry(3, (0, 0));
    assert items[..1][..0] == [] && items[..1][0] == items[0];
    assert Positions(items[..1]).Some?;
    assert items[..2][..1] == items[..1] && items[..2][1] == items[1];
    assert Positions(items[..2]).Some?;
    assert items[..3] == items;
  }

  /** The three nodes become a Read, a NoOp and a Write, one per id. */
  lemma ExampleNodes(createFails: Kind -> bool)
    ensures |IdSet(SampleNodes())| == 3
    ensures !createFails(Read) ==> FinalKind(SampleNodes()[0].fields, createFails) == Read
    ensures FinalKind(SampleNodes()[1].fields, createFails) == NoOp
    ensures !createFails(Write) ==> FinalKind(SampleNodes()[2].fields, createFails) == Write
  {
    var items := SampleNodes();
    assert IdOf(items[0]) == Some(1) && IdOf(items[1]) == Some(2) && IdOf(items[2]) == Some(3);
    assert IdSet(items) == {1, 2, 3};
  }

  /** The created dict maps each id to the node created for it, in creation order. */
  lemma ExampleRefs(first: nat, createFails: Kind -> bool, maxInputsOf: Kind -> int)
    ensures var refs := CreatedRefs(SampleNodes(), first, createFails, maxInputsOf);
      && refs.Keys == {1, 2, 3}
      && refs[1].handle == first && refs[2].handle == first + 1 && refs[3].handle == first + 2
  {
    var items := SampleNodes();
    assert IdOf(items[0]) == Some(1) && IdOf(items[1]) == Some(2) && IdOf(items[2]) == Some(3);
    assert items[..0] == [] && items[..3] == items;
    assert items[..2][..1] == items[..1] && items[..1][..0] == [] && items[..2][1] == items[1] && items[..1][0] == items[0];
    assert |IdIndices(items[..1])| == 1;
    assert |IdIndices(items[..2])| == 2;
    CreatedRefsStep(items, 0, first, createFails, maxInputsOf);
    CreatedRefsStep(items, 1, first, createFails, maxInputsOf);
    CreatedRefsStep(items, 2, first, createFails, maxInputsOf);
  }

  /** Both links are connected, on slot 0, between the nodes created for their ids. */
  lemma ExampleLinks(first: nat, createFails: Kind -> bool, maxInputsOf: Kind -> int, raises: Connection -> bool)
    requires forall c :: !raises(c)
    ensures Performed(LinkEntries(SampleDocument()), CreatedRefs(SampleNodes(), first, createFails, maxInputsOf), raises) ==
      [Connection(first + 1, 0, first), Connection(first + 2, 0, first + 1)]
  {
    ExampleCompletes();
    ExampleRefs(first, createFails, maxInputsOf);
    var refs := CreatedRefs(SampleNodes(), first, createFails, maxInputsOf);
    var links := [Link(1, 1, 2), Link(2, 2, 3)];
    assert ResolveLink(links[0], refs) == Some(Connection(first + 1, 0, first));
    assert ResolveLink(links[1], refs) == Some(Connection(first + 2, 0, first + 1));
    assert links[..1][..0] == [] && links[..2] == links && links[..2][..1] == links[..1];
    assert links[..1][0] == links[0] && links[1] == links[|links| - 1] && links[..|links| - 1] == links[..1];
    assert Performed(links[..1], refs, raises) == [Connection(first + 1, 0, first)];
    assert LinkEntries(SampleDocument()) == links;
  }

  /**
   * Importing the document into any graph reports 3 nodes and 2 connected
   * links, whatever the node classes report, and adds three nodes named by
   * `_safe_name` against the names the graph had.
   */
  method ImportSample(graph: DagState, createFails: Kind -> bool, maxInputsOf: Kind -> int)
    returns (outcome: ImportOutcome)
    requires graph.Valid()
    modifies graph
    ensures graph.Valid()
    ensures outcome == Imported(3, 2)
    ensures |graph.nodes| == |old(graph.nodes)| + 3 && graph.nodes[..|old(graph.nodes)|] == old(graph.nodes)
    ensures graph.names == old(graph.names) + NamesOf(graph.nodes[|old(graph.nodes)|..])
    ensures Positions(SampleNodes()).Some? && BuiltFrom(graph.nodes[|old(graph.nodes)|..], SampleNodes(), Positions(SampleNodes()).value,
                      old(graph.names), createFails, maxInputsOf)
  {
    var raises: Connection -> bool := _ => false;
    outcome := graph.ImportWorkflow(SampleDocument(), createFails, maxInputsOf, raises);
    ExampleCompletes();
    ExampleNodes(createFails);
    ExampleRequestedNames();
    ExampleLinks(|old(graph.nodes)|, createFails, maxInputsOf, raises);
  }

  /** Importing the document into a fresh graph, whichever names already exist, reports 3 nodes and 2 links. */
  method ImportThreeNodes(existing: set<string>, createFails: Kind -> bool, maxInputsOf: Kind -> int)
    returns (outcome: ImportOutcome)
    ensures outcome == Imported(3, 2)
  {
    var graph := new DagState(existing);
    outcome := ImportSample(graph, createFails, maxInputsOf);
  }

  /** The three nodes are the ones the creation loop visits, requesting these names. */
  lemma ExampleRequestedNames()
    ensures IdIndices(SampleNodes()) == [0, 1, 2]
    ensures forall j :: 0 <= j < 3 ==> Hashable(TypeValue(SampleNodes()[j].fields))
    ensures RequestedName(TypeValue(SampleNodes()[0].fields)) == "CU_LoadImage"
    ensures RequestedName(TypeValue(SampleNodes()[1].fields)) == "CU_Unknown"
    ensures RequestedName(TypeValue(SampleNodes()[2].fields)) == "CU_SaveImage"
  {
    var items := SampleNodes();
    assert IdOf(items[0]) == Some(1) && IdOf(items[1]) == Some(2) && IdOf(items[2]) == Some(3);
    assert items[..3] == items && items[..3][..2] == items[..2] && items[..2][..1] == items[..1] && items[..1][..0] == [];
    assert items[..2][1] == items[1] && items[..1][0] == items[0];
    assert IdIndices(items[..1]) == [0];
    assert IdIndices(items[..2]) == [0, 1];
  }

  /** Into a graph without names, the sample's nodes get exactly their requested names. */
  lemma SampleNamesFresh(made: seq<HostNode>, positions: map<int, (int, int)>,
                         createFails: Kind -> bool, maxInputsOf: Kind -> int)
    requires BuiltFrom(made, SampleNodes(), positions, {}, createFails, maxInputsOf)
    ensures |made| == 3
    ensures made[0].name == "CU_LoadImage" && made[1].name == "CU_Unknown" && made[2].name == "CU_SaveImage"
  {
    ExampleRequestedNames();
    assert made[..0] == [] && NamesOf([]) == {};
    assert made[0].name == "CU_LoadImage";
    assert made[..1] == [] + [made[0]];
    NamesOfSnoc([], made[0]);
    assert NamesOf(made[..1]) == {"CU_LoadImage"};
    assert made[1].name == "CU_Unknown";
    assert made[..2] == made[..1] + [made[1]];
    NamesOfSnoc(made[..1], made[1]);
    assert NamesOf(made[..2]) == {"CU_LoadImage", "CU_Unknown"};
  }

  /** After the first import, "CU_LoadImage" is taken and "CU_LoadImage_2" is not. */
  lemma SampleNamesTaken(made: seq<HostNode>)
    requires |made| == 3
    requires made[0].name == "CU_LoadImage" && made[1].name == "CU_Unknown" && made[2].name == "CU_SaveImage"
    ensures "CU_LoadImage" in NamesOf(made) && "CU_LoadImage_2" !in NamesOf(made)
  {
    assert made[0].name in NamesOf(made);
  }

  /** With "CU_LoadImage" taken and "CU_LoadImage_2" free, the sample's first node is "CU_LoadImage_2". */
  lemma SampleNamesSuffixed(made: seq<HostNode>, positions: map<int, (int, int)>, taken: set<string>,
                            createFails: Kind -> bool, maxInputsOf: Kind -> int)
    requires BuiltFrom(made, SampleNodes(), positions, taken, createFails, maxInputsOf)
    requires "CU_LoadImage" in taken && "CU_LoadImage_2" !in taken
    ensures |made| == 3 && made[0].name == "CU_LoadImage_2"
  {
    ExampleRequestedNames();
    assert made[..0] == [] && taken + NamesOf([]) == taken;
    assert "CU_LoadImage" + "_2" == "CU_LoadImage_2";
    SecondImportSuffix(made[0].name, "CU_LoadImage", taken);
  }

  /**
   * Importing the document twice into a graph that starts empty: the first
   * import names its first node "CU_LoadImage"; the second, finding the
   * first import's names taken, names its first node "CU_LoadImage_2".
   */
  method ImportTwice(createFails: Kind -> bool, maxInputsOf: Kind -> int) returns (first: string, again: string)
    ensures first == "CU_LoadImage" && again == "CU_LoadImage_2"
  {
    var graph := new DagState({});
    var one := ImportSample(graph, createFails, maxInputsOf);
    assert graph.nodes[0..] == graph.nodes;
    assert graph.names == NamesOf(graph.nodes);
    SampleNamesFresh(graph.nodes, Positions(SampleNodes()).value, createFails, maxInputsOf);
    SampleNamesTaken(graph.nodes);
    first := graph.nodes[0].name;
    var two := ImportSample(graph, createFails, maxInputsOf);
    SampleNamesSuffixed(graph.nodes[3..], Positions(SampleNodes()).value, NamesOf(graph.nodes[..3]), createFails, maxInputsOf);
    again := graph.nodes[3].name;
  }

  /** A document whose second node has a list as its type. */
  function ListTypeDocument(): Value {
    Dict(map["nodes" := List([Node(1, "LoadImage"), Dict(map["id" := Int(2), "type" := List([Int(0)])])]), "links" := List([])])
  }

  /**
   * The type lookup of the second node raises inside the undo bracket: the
   * bracket is still closed, the first node stays behind, and nothing is
   * connected.
   */
  method ImportStopsAtListType(existing: set<string>, createFails: Kind -> bool, maxInputsOf: Kind -> int)
    returns (outcome: ImportOutcome, created: nat)
    ensures outcome == Raised && created == 1
  {
    var graph := new DagState(existing);
    var raises: Connection -> bool := _ => false;
    ListTypeFacts();
    outcome := graph.ImportWorkflow(ListTypeDocument(), createFails, maxInputsOf, raises);
    ghost var items := NodeEntries(ListTypeDocument());
    ghost var f :| FirstUnhashable(items, f)
      && BuiltFrom(graph.nodes[0..], items[..f], Positions(items).value, existing, createFails, maxInputsOf);
    assert items[..1][..0] == [] && items[..1][0] == items[0];
    assert IdIndices(items[..1]) == [0];
    created := |graph.nodes|;
  }

  lemma ListTypeFacts()
    ensures var items := NodeEntries(ListTypeDocument());
      && FromJson(ListTypeDocument()).Some? && Truthy(FromJson(ListTypeDocument()).value.nodes)
      && FromJson(ListTypeDocument()).value.nodes.List?
      && |items| == 2 && Positions(items).Some?
      && IdOf(items[0]).Some? && Hashable(TypeValue(items[0].fields))
      && IdOf(items[1]).Some? && !Hashable(TypeValue(items[1].fields))
      && !TypesHashable(items)
  {
    var items := NodeEntries(ListTypeDocument());
    assert StepOf(items[0]) == Entry(1, (0, 0));
    assert StepOf(items[1]) == Entry(2, (0, 0));
    assert items[..1][..0] == [] && items[..1][0] == items[0];
    assert Positions(items[..1]).Some?;
    assert items[..2] == items && items[..2][..1] == items[..1];
    assert TypeValue(items[1].fields) == List([Int(0)]);
    TypesHashableFails(items, 1);
  }
}
