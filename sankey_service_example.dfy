/** The diagram built from a small, fixed history: five sankey nodes and
    four applications, worked through application by application. */
module SankeyServiceExample {
  import opened Common
  import opened SankeyNodeService
  import opened SankeyService

  const Applied := NodeInfo("Applied", "yellow", false)
  const PhoneScreen := NodeInfo("Phone screen", "green", false)
  const Rejected := NodeInfo("Rejected", "red", true)

  /** The nodes of the diagram's own example: the two permanent nodes, and
      states 1, 3 and 10 in "Applied", "Phone screen" and the terminal
      "Rejected". */
  function ExampleNodes(): seq<SankeyNode> {
    [SankeyNode(1, "Ghosted", "grey", [], false, true),
     SankeyNode(2, "In Progress", "blue", [], false, true),
     SankeyNode(3, "Applied", "yellow", [1], false, false),
     SankeyNode(4, "Phone screen", "green", [3], false, false),
     SankeyNode(5, "Rejected", "red", [10], true, false)]
  }

  lemma ExampleTracked()
    ensures TrackedEvents(ExampleNodes()) == ExampleTrackedMap()
  {
    var ns := ExampleNodes();
    TrackedEventsSnoc(ns[..0], ns[0]);
    assert ns[..0] + [ns[0]] == ns[..1];
    TrackedEventsSnoc(ns[..1], ns[1]);
    assert ns[..1] + [ns[1]] == ns[..2];
    assert TrackedEvents(ns[..2]) == map[];
    TrackedEventsSnoc(ns[..2], ns[2]);
    assert ns[..2] + [ns[2]] == ns[..3];
    TrackIdsOne(map[], 1, Applied);
    TrackedEventsSnoc(ns[..3], ns[3]);
    assert ns[..3] + [ns[3]] == ns[..4];
    TrackIdsOne(map[1 := Applied], 3, PhoneScreen);
    TrackedEventsSnoc(ns[..4], ns[4]);
    assert ns[..4] + [ns[4]] == ns;
    TrackIdsOne(map[1 := Applied, 3 := PhoneScreen], 10, Rejected);
  }

  /** `TrackedEvents` one node at a time. */
  lemma TrackedEventsSnoc(ns: seq<SankeyNode>, n: SankeyNode)
    ensures TrackedEvents(ns + [n]) == TrackIds(TrackedEvents(ns), n.applicationStateIds, InfoOf(n))
  {
    assert (ns + [n])[..|ns|] == ns;
  }

  lemma TrackIdsOne(m: map<int, NodeInfo>, id: int, info: NodeInfo)
    ensures TrackIds(m, [id], info) == m[id := info]
  {
    assert [id][..0] == [];
  }

  function ExampleTrackedMap(): map<int, NodeInfo> {
    map[1 := Applied, 3 := PhoneScreen, 10 := Rejected]
  }

  /** The untracked states 2 and 4 drop out of the visits. */
  lemma ExampleVisits()
    ensures Visits([1], ExampleTrackedMap()) == [1]
    ensures Visits([1, 10], ExampleTrackedMap()) == [1, 10]
    ensures Visits([1, 2, 3], ExampleTrackedMap()) == [1, 3]
    ensures Visits([1, 2, 3, 4], ExampleTrackedMap()) == [1, 3]
  {
    ExampleFirstByName();
    ExampleTrackedOnly();
  }

  lemma ExampleTrackedOnly()
    ensures TrackedOnly([1], ExampleTrackedMap()) == [1]
    ensures TrackedOnly([1, 10], ExampleTrackedMap()) == [1, 10]
    ensures TrackedOnly([1, 2, 3], ExampleTrackedMap()) == [1, 3]
    ensures TrackedOnly([1, 2, 3, 4], ExampleTrackedMap()) == [1, 3]
  {
    var m := ExampleTrackedMap();
    assert 1 in m && 2 !in m && 3 in m && 4 !in m && 10 in m;
    TrackedOnlyShort(m);
    TrackedOnlyThree(m);
    TrackedOnlyFour(m);
  }

  /** `TrackedOnly` one id at a time. */
  lemma TrackedOnlySnoc(ids: seq<int>, x: int, m: map<int, NodeInfo>)
    ensures TrackedOnly(ids + [x], m) == TrackedOnly(ids, m) + (if x in m then [x] else [])
  {
    assert (ids + [x])[..|ids|] == ids;
  }

  lemma TrackedOnlyShort(m: map<int, NodeInfo>)
    requires 1 in m && 10 in m
    ensures TrackedOnly([1], m) == [1]
    ensures TrackedOnly([1, 10], m) == [1, 10]
  {
    TrackedOnlySnoc([], 1, m);
    assert [] + [1] == [1];
    TrackedOnlySnoc([1], 10, m);
    assert [1] + [10] == [1, 10];
  }

  lemma TrackedOnlyThree(m: map<int, NodeInfo>)
    requires 1 in m && 2 !in m && 3 in m
    ensures TrackedOnly([1, 2, 3], m) == [1, 3]
  {
    TrackedOnlySnoc([], 1, m);
    assert [] + [1] == [1];
    TrackedOnlySnoc([1], 2, m);
    assert [1] + [2] == [1, 2];
    TrackedOnlySnoc([1, 2], 3, m);
    assert [1, 2] + [3] == [1, 2, 3];
  }

  lemma TrackedOnlyFour(m: map<int, NodeInfo>)
    requires 1 in m && 2 !in m && 3 in m && 4 !in m
    ensures TrackedOnly([1, 2, 3, 4], m) == [1, 3]
  {
    TrackedOnlyThree(m);
    TrackedOnlySnoc([1, 2, 3], 4, m);
    assert [1, 2, 3] + [4] == [1, 2, 3, 4];
  }

  lemma ExampleFirstByName()
    ensures FirstByName([1], ExampleTrackedMap()) == [1]
    ensures FirstByName([1, 10], ExampleTrackedMap()) == [1, 10]
    ensures FirstByName([1, 3], ExampleTrackedMap()) == [1, 3]
  {
    var m := ExampleTrackedMap();
    assert 1 in m && 3 in m && 10 in m;
    assert m[1].name == "Applied" && m[3].name == "Phone screen" && m[10].name == "Rejected";
    FirstByNameNames(m);
  }

  /** `FirstByName` one id at a time. */
  lemma FirstByNameSnoc(ids: seq<int>, x: int, m: map<int, NodeInfo>)
    requires AllTracked(ids, m) && x in m
    ensures AllTracked(ids + [x], m)
    ensures FirstByName(ids + [x], m)
      == FirstByName(ids, m) + (if NameSeen(ids, m, m[x].name) then [] else [x])
  {
    assert (ids + [x])[..|ids|] == ids;
    assert (ids + [x])[|ids|] == x;
  }

  lemma FirstByNameNames(m: map<int, NodeInfo>)
    requires 1 in m && 3 in m && 10 in m
    requires m[1].name != m[10].name && m[1].name != m[3].name
    ensures FirstByName([1], m) == [1]
    ensures FirstByName([1, 10], m) == [1, 10]
    ensures FirstByName([1, 3], m) == [1, 3]
  {
    FirstByNameOne(m);
    FirstByNameTwo(m, 10);
    FirstByNameTwo(m, 3);
  }

  lemma FirstByNameOne(m: map<int, NodeInfo>)
    requires 1 in m
    ensures FirstByName([1], m) == [1]
  {
    FirstByNameSnoc([], 1, m);
    assert [] + [1] == [1];
  }

  lemma FirstByNameTwo(m: map<int, NodeInfo>, x: int)
    requires 1 in m && x in m && m[1].name != m[x].name
    ensures FirstByName([1, x], m) == [1, x]
  {
    FirstByNameOne(m);
    assert !NameSeen([1], m, m[x].name);
    FirstByNameSnoc([1], x, m);
    assert [1] + [x] == [1, x];
  }

  const ExampleGhosted := NodeInfo("Ghosted", "grey", false)
  const ExampleInProgress := NodeInfo("In Progress", "blue", false)

  /** The diagram after the first `n` applications of the example. */
  function ExampleDiagram(n: nat): SankeyData {
    if n == 0 then SankeyData([], [])
    else if n == 1 then
      SankeyData([DiagramNode("Applied", "yellow", false, 1), DiagramNode("Ghosted", "grey", false, 1)],
                 [DiagramLink("Applied", "Ghosted", 1)])
    else if n == 2 then
      SankeyData([DiagramNode("Applied", "yellow", false, 2), DiagramNode("Ghosted", "grey", false, 1),
                  DiagramNode("Rejected", "red", true, 1)],
                 [DiagramLink("Applied", "Ghosted", 1), DiagramLink("Applied", "Rejected", 1)])
    else if n == 3 then
      SankeyData([DiagramNode("Applied", "yellow", false, 3), DiagramNode("Ghosted", "grey", false, 1),
                  DiagramNode("Rejected", "red", true, 1), DiagramNode("Phone screen", "green", false, 1),
                  DiagramNode("In Progress", "blue", false, 1)],
                 [DiagramLink("Applied", "Ghosted", 1), DiagramLink("Applied", "Rejected", 1),
                  DiagramLink("Applied", "Phone screen", 1),
                  DiagramLink("Phone screen", "In Progress", 1)])
    else
      SankeyData([DiagramNode("Applied", "yellow", false, 4), DiagramNode("Ghosted", "grey", false, 1),
                  DiagramNode("Rejected", "red", true, 1), DiagramNode("Phone screen", "green", false, 2),
                  DiagramNode("In Progress", "blue", false, 2)],
                 [DiagramLink("Applied", "Ghosted", 1), DiagramLink("Applied", "Rejected", 1),
                  DiagramLink("Applied", "Phone screen", 2),
                  DiagramLink("Phone screen", "In Progress", 2)])
  }

  function ExampleApplications(): seq<Application> {
    [Application([1], true), Application([1, 10], false),
     Application([1, 2, 3], false), Application([1, 2, 3, 4], false)]
  }

  // One walk and one finish per application.

  lemma Walk1()
    ensures VisitAll(Walk(ExampleDiagram(0), None), [1], ExampleTrackedMap())
            == Walk(SankeyData([DiagramNode("Applied", "yellow", false, 1)], []), Some(1))
  {
    assert [1][..0] == [];
  }

  lemma Finish1()
    ensures Finish(Walk(SankeyData([DiagramNode("Applied", "yellow", false, 1)], []), Some(1)),
                   ExampleApplications()[0], ExampleTrackedMap(), ExampleGhosted, ExampleInProgress)
            == ExampleDiagram(1)
  {
    assert FindNode([DiagramNode("Applied", "yellow", false, 1)], "Ghosted") == 1;
    assert FindLink([], "Applied", "Ghosted") == 0;
  }

  lemma Walk2a()
    ensures VisitAll(Walk(ExampleDiagram(1), None), [1], ExampleTrackedMap())
            == Walk(SankeyData([DiagramNode("Applied", "yellow", false, 2),
                                DiagramNode("Ghosted", "grey", false, 1)],
                               ExampleDiagram(1).links), Some(1))
  {
    assert [1][..0] == [];
  }

  lemma Walk2()
    ensures VisitAll(Walk(ExampleDiagram(1), None), [1, 10], ExampleTrackedMap())
            == Walk(ExampleDiagram(2), Some(10))
  {
    Walk2a();
    assert [1, 10][..1] == [1];
  }

  lemma Walk3a()
    ensures VisitAll(Walk(ExampleDiagram(2), None), [1], ExampleTrackedMap())
            == Walk(SankeyData([DiagramNode("Applied", "yellow", false, 3),
                                DiagramNode("Ghosted", "grey", false, 1),
                                DiagramNode("Rejected", "red", true, 1)],
                               ExampleDiagram(2).links), Some(1))
  {
    assert [1][..0] == [];
  }

  lemma Walk3()
    ensures VisitAll(Walk(ExampleDiagram(2), None), [1, 3], ExampleTrackedMap())
            == Walk(SankeyData([DiagramNode("Applied", "yellow", false, 3),
                                DiagramNode("Ghosted", "grey", false, 1),
                                DiagramNode("Rejected", "red", true, 1),
                                DiagramNode("Phone screen", "green", false, 1)],
                               ExampleDiagram(2).links
                               + [DiagramLink("Applied", "Phone screen", 1)]), Some(3))
  {
    Walk3a();
    assert [1, 3][..1] == [1];
  }

  lemma Finish3()
    ensures Finish(Walk(SankeyData([DiagramNode("Applied", "yellow", false, 3),
                                    DiagramNode("Ghosted", "grey", false, 1),
                                    DiagramNode("Rejected", "red", true, 1),
                                    DiagramNode("Phone screen", "green", false, 1)],
                                   ExampleDiagram(2).links
                                   + [DiagramLink("Applied", "Phone screen", 1)]), Some(3)),
                   ExampleApplications()[2], ExampleTrackedMap(), ExampleGhosted, ExampleInProgress)
            == ExampleDiagram(3)
  {
  }

  lemma Walk4a()
    ensures VisitAll(Walk(ExampleDiagram(3), None), [1], ExampleTrackedMap())
            == Walk(SankeyData(Before4Nodes(), ExampleDiagram(3).links), Some(1))
  {
    assert [1][..0] == [];
  }

  /** The nodes of the fourth application's walk, after its first visit and
      after both. */
  function Before4Nodes(): seq<DiagramNode> {
    [DiagramNode("Applied", "yellow", false, 4), DiagramNode("Ghosted", "grey", false, 1),
     DiagramNode("Rejected", "red", true, 1), DiagramNode("Phone screen", "green", false, 1),
     DiagramNode("In Progress", "blue", false, 1)]
  }

  function After4Nodes(): seq<DiagramNode> {
    [DiagramNode("Applied", "yellow", false, 4), DiagramNode("Ghosted", "grey", false, 1),
     DiagramNode("Rejected", "red", true, 1), DiagramNode("Phone screen", "green", false, 2),
     DiagramNode("In Progress", "blue", false, 1)]
  }

  function After4Links(): seq<DiagramLink> {
    [DiagramLink("Applied", "Ghosted", 1), DiagramLink("Applied", "Rejected", 1),
     DiagramLink("Applied", "Phone screen", 2), DiagramLink("Phone screen", "In Progress", 1)]
  }

  lemma Walk4()
    ensures VisitAll(Walk(ExampleDiagram(3), None), [1, 3], ExampleTrackedMap())
            == Walk(SankeyData(After4Nodes(), After4Links()), Some(3))
  {
    Walk4a();
    assert [1, 3][..1] == [1];
    Walk4Finds();
  }

  lemma Walk4Finds()
    ensures FindNode(Before4Nodes(), "Phone screen") == 3
    ensures FindLink(ExampleDiagram(3).links, "Applied", "Phone screen") == 2
  {
  }

  lemma Finish4()
    ensures Finish(Walk(SankeyData(After4Nodes(), After4Links()), Some(3)),
                   ExampleApplications()[3], ExampleTrackedMap(), ExampleGhosted, ExampleInProgress)
            == ExampleDiagram(4)
  {
    assert FindNode(After4Nodes(), "In Progress") == 4;
    assert FindLink(After4Links(), "Phone screen", "In Progress") == 3;
  }

  lemma Step1()
    ensures ApplicationStep(ExampleDiagram(0), ExampleApplications()[0], ExampleTrackedMap(),
                            ExampleGhosted, ExampleInProgress) == ExampleDiagram(1)
  {
    ExampleVisits();
    Walk1();
    Finish1();
  }

  lemma Step2()
    ensures ApplicationStep(ExampleDiagram(1), ExampleApplications()[1], ExampleTrackedMap(),
                            ExampleGhosted, ExampleInProgress) == ExampleDiagram(2)
  {
    ExampleVisits();
    Walk2();
  }

  lemma Step3()
    ensures ApplicationStep(ExampleDiagram(2), ExampleApplications()[2], ExampleTrackedMap(),
                            ExampleGhosted, ExampleInProgress) == ExampleDiagram(3)
  {
    ExampleVisits();
    Walk3();
    Finish3();
  }

  lemma Step4()
    ensures ApplicationStep(ExampleDiagram(3), ExampleApplications()[3], ExampleTrackedMap(),
                            ExampleGhosted, ExampleInProgress) == ExampleDiagram(4)
  {
    ExampleVisits();
    Walk4();
    Finish4();
  }

  /** One application of each kind from the diagram's example: ghosted after
      applying; rejected; phone screen reached past the untracked state 2;
      the same with the untracked state 4 after it. Values and flows add up
      per name, nodes and links in order of first appearance. */
  lemma MixedHistoryExample()
    ensures SankeyDataOf(ExampleNodes(), ExampleApplications()) == Ok(ExampleDiagram(4))
  {
    ExampleTracked();
    ExamplePermanentNodes();
    AllApplications();
    AggregateOfNodes(ExampleNodes(), ExampleApplications(), ExampleTrackedMap(),
                     ExampleGhosted, ExampleInProgress, ExampleDiagram(4));
  }

  /** The two permanent nodes are found, as the ghosted and the in-progress
      node. */
  lemma ExamplePermanentNodes()
    ensures MapToNode(ExampleNodes(), GhostedNodeId) == Ok(ExampleGhosted)
    ensures MapToNode(ExampleNodes(), InProgressNodeId) == Ok(ExampleInProgress)
  {
  }

  /** With both permanent nodes found, the diagram is the aggregation. */
  lemma AggregateOfNodes(ns: seq<SankeyNode>, apps: seq<Application>, tracked: map<int, NodeInfo>,
                         ghosted: NodeInfo, inProgress: NodeInfo, d: SankeyData)
    requires MapToNode(ns, GhostedNodeId) == Ok(ghosted)
    requires MapToNode(ns, InProgressNodeId) == Ok(inProgress)
    requires TrackedEvents(ns) == tracked
    requires Aggregate(apps, tracked, ghosted, inProgress) == d
    ensures SankeyDataOf(ns, apps) == Ok(d)
  {
  }

  /** All four applications. */
  lemma AllApplications()
    ensures Aggregate(ExampleApplications(), ExampleTrackedMap(), ExampleGhosted,
                      ExampleInProgress) == ExampleDiagram(4)
  {
    Prefixes(4);
    assert ExampleApplications()[..4] == ExampleApplications();
  }

  /** The diagram after the first `n` applications. */
  lemma {:induction false} Prefixes(n: nat)
    requires n <= 4
    ensures Aggregate(ExampleApplications()[..n], ExampleTrackedMap(), ExampleGhosted,
                      ExampleInProgress) == ExampleDiagram(n)
  {
    var apps := ExampleApplications();
    if n > 0 {
      Prefixes(n - 1);
      assert apps[..n][..n - 1] == apps[..n - 1];
      assert apps[..n][n - 1] == apps[n - 1];
      PrefixStep(n);
    }
  }

  /** The `n`-th application moves the diagram from its `n - 1`-th state to
      its `n`-th. */
  lemma PrefixStep(n: nat)
    requires 1 <= n <= 4
    ensures ApplicationStep(ExampleDiagram(n - 1), ExampleApplications()[n - 1],
                            ExampleTrackedMap(), ExampleGhosted, ExampleInProgress)
            == ExampleDiagram(n)
  {
    if n == 1 { Step1(); }
    else if n == 2 { Step2(); }
    else if n == 3 { Step3(); }
    else { Step4(); }
  }
}
