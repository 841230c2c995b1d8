/** The sankey aggregator: turns the applications' event histories into the
    nodes and links of the flow diagram. Each application walks through the
    sankey nodes its events fall in (first visit of each node name only),
    every visit counts one towards the node's value, every step from one
    node to the next counts one towards the link's flow, and an application
    whose last node is not terminal flows on into the "ghosted" or the
    "in progress" node. */
module SankeyService {
  import opened Common
  import opened EventFlowPersistence
  import opened SankeyNodePersistence
  import opened SankeyNodeService

  /** What a state id is tracked as: the name, colour and terminal flag of
      its sankey node. */
  datatype NodeInfo = NodeInfo(name: string, color: string, isTerminal: bool)

  /** A node of the diagram; `value` counts the visits. */
  datatype DiagramNode = DiagramNode(name: string, color: string, isTerminal: bool, value: int)

  /** A link of the diagram between two node names; `flow` counts the steps. */
  datatype DiagramLink = DiagramLink(from: string, to: string, flow: int)

  datatype SankeyData = SankeyData(nodes: seq<DiagramNode>, links: seq<DiagramLink>)

  /** An application as the aggregator reads it: the status ids of its events,
      in order, and whether it has been ghosted. */
  datatype Application = Application(statusIds: seq<int>, ghosted: bool)

  function InfoOf(n: SankeyNode): NodeInfo {
    NodeInfo(n.name, n.color, n.isTerminal)
  }

  // ---------------------------------------------------------------------
  // The permanent nodes and the tracked states
  // ---------------------------------------------------------------------

  /** `mapToNode`: the first node with the id. Reading `name` of the missing
      node is a TypeError. */
  function MapToNode(ns: seq<SankeyNode>, id: int): (r: Result<NodeInfo>)
    ensures r.Ok? <==> exists k :: 0 <= k < |ns| && ns[k].id == id
    ensures r.Ok? ==> exists k :: 0 <= k < |ns| && ns[k].id == id && r.value == InfoOf(ns[k])
                                  && forall j :: 0 <= j < k ==> ns[j].id != id
    ensures r.Err? ==> r.failure == TypeError("name")
  {
    if ns == [] then Err(TypeError("name"))
    else if ns[0].id == id then Ok(InfoOf(ns[0]))
    else
      var r := MapToNode(ns[1..], id);
      assert forall k :: 0 < k < |ns| ==> ns[k] == ns[1..][k - 1];
      r
  }

  /** Records every id of `ids` as `info`, one assignment after the other. */
  function TrackIds(m: map<int, NodeInfo>, ids: seq<int>, info: NodeInfo)
    : (r: map<int, NodeInfo>)
    ensures forall k :: k in r <==> k in m || k in ids
    ensures forall k :: k in ids ==> r[k] == info
    ensures forall k :: k in m && k !in ids ==> r[k] == m[k]
  {
    if ids == [] then m
    else
      var init := ids[..|ids| - 1];
      assert forall k :: k in ids <==> k in init || k == ids[|ids| - 1];
      TrackIds(m, init, info)[ids[|ids| - 1] := info]
  }

  /** The `trackedEvents` map: node after node, each of its state ids mapped
      to the node's name, colour and terminal flag. */
  function TrackedEvents(ns: seq<SankeyNode>): map<int, NodeInfo> {
    if ns == [] then map[]
    else
      var last := ns[|ns| - 1];
      TrackIds(TrackedEvents(ns[..|ns| - 1]), last.applicationStateIds, InfoOf(last))
  }

  /** A state id is tracked exactly when some node links it, and then as the
      LAST such node: a later node overwrites an earlier one. */
  lemma {:induction false} TrackedEventsLastWins(ns: seq<SankeyNode>, id: int)
    ensures id in TrackedEvents(ns) <==>
      (exists k :: 0 <= k < |ns| && id in ns[k].applicationStateIds)
    ensures forall k :: 0 <= k < |ns| && id in ns[k].applicationStateIds
                        && (forall j :: k < j < |ns| ==> id !in ns[j].applicationStateIds)
                        ==> id in TrackedEvents(ns) && TrackedEvents(ns)[id] == InfoOf(ns[k])
  {
    TrackedIff(ns, id);
    forall k | 0 <= k < |ns| && id in ns[k].applicationStateIds
               && (forall j :: k < j < |ns| ==> id !in ns[j].applicationStateIds)
      ensures id in TrackedEvents(ns) && TrackedEvents(ns)[id] == InfoOf(ns[k])
    {
      TrackedAt(ns, id, k);
    }
  }

  lemma {:induction false} TrackedIff(ns: seq<SankeyNode>, id: int)
    ensures id in TrackedEvents(ns) <==>
      (exists k :: 0 <= k < |ns| && id in ns[k].applicationStateIds)
  {
    if ns != [] {
      var init := ns[..|ns| - 1];
      var last := ns[|ns| - 1];
      TrackedIff(init, id);
      assert TrackedEvents(ns) == TrackIds(TrackedEvents(init), last.applicationStateIds, InfoOf(last));
      if id in TrackedEvents(ns) && id !in last.applicationStateIds {
        var k :| 0 <= k < |init| && id in init[k].applicationStateIds;
        assert ns[k] == init[k];
      }
      if k :| 0 <= k < |init| && id in ns[k].applicationStateIds {
        assert ns[k] == init[k];
      }
    }
  }

  lemma {:induction false} TrackedAt(ns: seq<SankeyNode>, id: int, k: int)
    requires 0 <= k < |ns| && id in ns[k].applicationStateIds
    requires forall j :: k < j < |ns| ==> id !in ns[j].applicationStateIds
    ensures id in TrackedEvents(ns) && TrackedEvents(ns)[id] == InfoOf(ns[k])
  {
    var init := ns[..|ns| - 1];
    var last := ns[|ns| - 1];
    assert TrackedEvents(ns) == TrackIds(TrackedEvents(init), last.applicationStateIds, InfoOf(last));
    if k < |init| {
      assert id !in last.applicationStateIds;
      assert ns[k] == init[k];
      assert forall j :: k < j < |init| ==> init[j] == ns[j];
      TrackedAt(init, id, k);
    }
  }

  /** The `reduce` that builds `trackedEvents`, one assignment at a time. */
  method BuildTrackedEvents(ns: seq<SankeyNode>) returns (m: map<int, NodeInfo>)
    ensures m == TrackedEvents(ns)
  {
    m := map[];
    var i := 0;
    while i < |ns|
      invariant 0 <= i <= |ns|
      invariant m == TrackedEvents(ns[..i])
    {
      var ids := ns[i].applicationStateIds;
      var info := InfoOf(ns[i]);
      ghost var m0 := m;
      var j := 0;
      while j < |ids|
        invariant 0 <= j <= |ids|
        invariant m == TrackIds(m0, ids[..j], info)
      {
        m := m[ids[j] := info];
        assert ids[..j + 1][..j] == ids[..j];
        j := j + 1;
      }
      assert ids[..|ids|] == ids;
      assert ns[..i + 1][..i] == ns[..i];
      i := i + 1;
    }
    assert ns[..|ns|] == ns;
  }

  // ---------------------------------------------------------------------
  // The visits of one application
  // ---------------------------------------------------------------------

  predicate AllTracked(vs: seq<int>, tracked: map<int, NodeInfo>) {
    forall i :: 0 <= i < |vs| ==> vs[i] in tracked
  }

  /** No two ids of `vs` are tracked under the same node name. */
  predicate DistinctNames(vs: seq<int>, tracked: map<int, NodeInfo>)
    requires AllTracked(vs, tracked)
  {
    forall i, j :: 0 <= i < j < |vs| ==> tracked[vs[i]].name != tracked[vs[j]].name
  }

  /** Some id of `vs` is tracked under `name`. */
  predicate NameSeen(vs: seq<int>, tracked: map<int, NodeInfo>, name: string)
    requires AllTracked(vs, tracked)
  {
    exists j :: 0 <= j < |vs| && tracked[vs[j]].name == name
  }

  /** The first `filter`: the status ids that are tracked, in event order. */
  function TrackedOnly(statusIds: seq<int>, tracked: map<int, NodeInfo>): (r: seq<int>)
    ensures forall v :: v in r <==> v in statusIds && v in tracked
    ensures AllTracked(r, tracked)
  {
    if statusIds == [] then []
    else
      var init := statusIds[..|statusIds| - 1];
      var last := statusIds[|statusIds| - 1];
      assert forall v :: v in statusIds <==> v in init || v == last;
      TrackedOnly(init, tracked) + (if last in tracked then [last] else [])
  }

  /** The second `filter`: an id stays when no earlier id has its node name,
      so each node name is visited once, at its first event. */
  function FirstByName(vs: seq<int>, tracked: map<int, NodeInfo>): (r: seq<int>)
    requires AllTracked(vs, tracked)
    ensures forall v :: v in r ==> v in vs
    ensures AllTracked(r, tracked)
    ensures DistinctNames(r, tracked)
    ensures forall v :: v in vs ==> NameSeen(r, tracked, tracked[v].name)
  {
    if vs == [] then []
    else
      var init := vs[..|vs| - 1];
      var last := vs[|vs| - 1];
      assert forall v :: v in vs <==> v in init || v == last;
      var rest := FirstByName(init, tracked);
      if NameSeen(init, tracked, tracked[last].name) then
        assert NameSeen(rest, tracked, tracked[last].name) by {
          var j :| 0 <= j < |init| && tracked[init[j]].name == tracked[last].name;
          assert init[j] in init;
        }
        rest
      else
        var r := rest + [last];
        assert forall i :: 0 <= i < |rest| ==> tracked[r[i]].name != tracked[last].name by {
          forall i | 0 <= i < |rest| ensures tracked[r[i]].name != tracked[last].name {
            assert rest[i] in init;
            var j :| 0 <= j < |init| && init[j] == rest[i];
          }
        }
        assert forall v :: v in vs ==> NameSeen(r, tracked, tracked[v].name) by {
          forall v | v in vs ensures NameSeen(r, tracked, tracked[v].name) {
            if v == last {
              assert r[|rest|] == last;
            } else {
              var j :| 0 <= j < |rest| && tracked[rest[j]].name == tracked[v].name;
              assert r[j] == rest[j];
            }
          }
        }
        r
  }

  /** The nodes an application visits: its tracked status ids, each node name
      once. */
  function Visits(statusIds: seq<int>, tracked: map<int, NodeInfo>): (vs: seq<int>)
    ensures AllTracked(vs, tracked)
  {
    FirstByName(TrackedOnly(statusIds, tracked), tracked)
  }

  /** No id before position `i` of `vs` has the name of `vs[i]`: `findIndex`
      on that name finds `i`. */
  predicate FirstOfName(vs: seq<int>, tracked: map<int, NodeInfo>, i: int)
    requires AllTracked(vs, tracked) && 0 <= i < |vs|
  {
    forall j :: 0 <= j < i ==> tracked[vs[j]].name != tracked[vs[i]].name
  }

  /** Every kept id is the first event of its node name among the tracked
      ones. */
  lemma {:induction false} FirstByNameKeepsFirst(vs: seq<int>, tracked: map<int, NodeInfo>)
    requires AllTracked(vs, tracked)
    ensures forall w :: w in FirstByName(vs, tracked) ==>
      exists i :: 0 <= i < |vs| && vs[i] == w && FirstOfName(vs, tracked, i)
  {
    if vs != [] {
      var init := vs[..|vs| - 1];
      FirstByNameKeepsFirst(init, tracked);
      var last := vs[|vs| - 1];
      assert FirstByName(vs, tracked) == FirstByName(init, tracked)
        + (if NameSeen(init, tracked, tracked[last].name) then [] else [last]);
      forall w | w in FirstByName(vs, tracked)
        ensures exists i :: 0 <= i < |vs| && vs[i] == w && FirstOfName(vs, tracked, i)
      {
        if w in FirstByName(init, tracked) {
          var i :| 0 <= i < |init| && init[i] == w && FirstOfName(init, tracked, i);
          FirstInLonger(vs, tracked, i);
        } else {
          FirstAtEnd(vs, tracked);
        }
      }
    }
  }

  /** A first occurrence stays first when an id is appended. */
  lemma FirstInLonger(vs: seq<int>, tracked: map<int, NodeInfo>, i: int)
    requires AllTracked(vs, tracked) && 0 <= i < |vs| - 1
    requires FirstOfName(vs[..|vs| - 1], tracked, i)
    ensures vs[..|vs| - 1][i] == vs[i] && FirstOfName(vs, tracked, i)
  {
    assert forall j :: 0 <= j <= i ==> vs[..|vs| - 1][j] == vs[j];
  }

  /** An appended id whose name was not seen before is a first occurrence. */
  lemma FirstAtEnd(vs: seq<int>, tracked: map<int, NodeInfo>)
    requires AllTracked(vs, tracked) && vs != []
    requires !NameSeen(vs[..|vs| - 1], tracked, tracked[vs[|vs| - 1]].name)
    ensures FirstOfName(vs, tracked, |vs| - 1)
  {
    var init := vs[..|vs| - 1];
    forall j | 0 <= j < |vs| - 1
      ensures tracked[vs[j]].name != tracked[vs[|vs| - 1]].name
    {
      assert vs[j] == init[j];
    }
  }

  /** An application visits some node exactly when one of its events is
      tracked. */
  lemma VisitsEmpty(statusIds: seq<int>, tracked: map<int, NodeInfo>)
    ensures Visits(statusIds, tracked) == [] <==> forall s :: s in statusIds ==> s !in tracked
  {
    var t := TrackedOnly(statusIds, tracked);
    if s :| s in statusIds && s in tracked {
      assert s in t;
      assert NameSeen(Visits(statusIds, tracked), tracked, tracked[s].name);
    }
    if Visits(statusIds, tracked) != [] {
      assert Visits(statusIds, tracked)[0] in t;
    }
  }

  // ---------------------------------------------------------------------
  // The diagram: adding one visit or one step
  // ---------------------------------------------------------------------

  /** `nodes.find` by name: the first position holding the name, or `|nodes|`. */
  function FindNode(nodes: seq<DiagramNode>, name: string): (i: nat)
    ensures i <= |nodes|
    ensures i < |nodes| ==> nodes[i].name == name
    ensures forall j :: 0 <= j < i ==> nodes[j].name != name
  {
    if nodes == [] then 0
    else if nodes[0].name == name then 0
    else 1 + FindNode(nodes[1..], name)
  }

  /** `links.find` by both ends. */
  function FindLink(links: seq<DiagramLink>, from: string, to: string): (i: nat)
    ensures i <= |links|
    ensures i < |links| ==> links[i].from == from && links[i].to == to
    ensures forall j :: 0 <= j < i ==> !(links[j].from == from && links[j].to == to)
  {
    if links == [] then 0
    else if links[0].from == from && links[0].to == to then 0
    else 1 + FindLink(links[1..], from, to)
  }

  /** `addNode`: one more visit of `info.name`. An existing node of that name
      counts one up and keeps its colour; otherwise a node with value 1 goes
      at the end. */
  function WithNode(nodes: seq<DiagramNode>, info: NodeInfo): (r: seq<DiagramNode>)
    ensures (exists k :: 0 <= k < |nodes| && nodes[k].name == info.name) ==>
      |r| == |nodes| &&
      exists k :: 0 <= k < |nodes| && nodes[k].name == info.name
                  && r == nodes[k := nodes[k].(value := nodes[k].value + 1)]
    ensures (forall k :: 0 <= k < |nodes| ==> nodes[k].name != info.name) ==>
      r == nodes + [DiagramNode(info.name, info.color, info.isTerminal, 1)]
  {
    var i := FindNode(nodes, info.name);
    if i < |nodes| then nodes[i := nodes[i].(value := nodes[i].value + 1)]
    else nodes + [DiagramNode(info.name, info.color, info.isTerminal, 1)]
  }

  /** `addLink`: one more step from `from` to `to`, counted on the existing
      link or on a new link with flow 1 at the end. */
  function WithLink(links: seq<DiagramLink>, from: string, to: string): (r: seq<DiagramLink>)
    ensures (exists k :: 0 <= k < |links| && links[k].from == from && links[k].to == to) ==>
      |r| == |links| &&
      exists k :: 0 <= k < |links| && links[k].from == from && links[k].to == to
                  && r == links[k := links[k].(flow := links[k].flow + 1)]
    ensures (forall k :: 0 <= k < |links| ==> !(links[k].from == from && links[k].to == to)) ==>
      r == links + [DiagramLink(from, to, 1)]
  {
    var i := FindLink(links, from, to);
    if i < |links| then links[i := links[i].(flow := links[i].flow + 1)]
    else links + [DiagramLink(from, to, 1)]
  }

  // ---------------------------------------------------------------------
  // The walk of one application and the whole aggregation
  // ---------------------------------------------------------------------

  /** The diagram so far and `previousEventId`. */
  datatype Walk = Walk(data: SankeyData, previous: Option<int>)

  predicate PreviousTracked(w: Walk, tracked: map<int, NodeInfo>) {
    w.previous.Some? ==> w.previous.value in tracked
  }

  /** One visit of the `forEach`: count the node; with no (truthy) previous
      id remember this one; with a previous id of another name count the
      step and move on. */
  function VisitStep(w: Walk, s: int, tracked: map<int, NodeInfo>): (r: Walk)
    requires s in tracked && PreviousTracked(w, tracked)
    ensures PreviousTracked(r, tracked)
  {
    var nodes := WithNode(w.data.nodes, tracked[s]);
    if !TruthyId(w.previous) then Walk(SankeyData(nodes, w.data.links), Some(s))
    else if tracked[w.previous.value].name == tracked[s].name then
      Walk(SankeyData(nodes, w.data.links), w.previous)
    else
      var links := WithLink(w.data.links, tracked[w.previous.value].name, tracked[s].name);
      Walk(SankeyData(nodes, links), Some(s))
  }

  function VisitAll(w: Walk, vs: seq<int>, tracked: map<int, NodeInfo>): (r: Walk)
    requires AllTracked(vs, tracked) && PreviousTracked(w, tracked)
    ensures PreviousTracked(r, tracked)
  {
    if vs == [] then w
    else VisitStep(VisitAll(w, vs[..|vs| - 1], tracked), vs[|vs| - 1], tracked)
  }

  /** `VisitAll` one visit at a time. */
  lemma VisitAllSnoc(w: Walk, vs: seq<int>, i: int, tracked: map<int, NodeInfo>)
    requires 0 <= i < |vs| && AllTracked(vs, tracked) && PreviousTracked(w, tracked)
    ensures AllTracked(vs[..i], tracked) && AllTracked(vs[..i + 1], tracked)
    ensures VisitAll(w, vs[..i + 1], tracked)
            == VisitStep(VisitAll(w, vs[..i], tracked), vs[i], tracked)
  {
    assert vs[..i + 1][..i] == vs[..i];
  }

  /** The node an application flows on into when its last node is not
      terminal. */
  function Trailing(app: Application, ghosted: NodeInfo, inProgress: NodeInfo): NodeInfo {
    if app.ghosted then ghosted else inProgress
  }

  /** After the visits: a truthy previous id whose node is not terminal adds
      a visit of the trailing node and a step into it. */
  function Finish(w: Walk, app: Application, tracked: map<int, NodeInfo>,
                  ghosted: NodeInfo, inProgress: NodeInfo): (r: SankeyData)
    requires PreviousTracked(w, tracked)
    ensures !(TruthyId(w.previous) && !tracked[w.previous.value].isTerminal) ==> r == w.data
    ensures TruthyId(w.previous) && !tracked[w.previous.value].isTerminal ==>
      var end := Trailing(app, ghosted, inProgress);
      TotalValue(r.nodes) == TotalValue(w.data.nodes) + 1
      && TotalFlow(r.links) == TotalFlow(w.data.links) + 1
      && (exists k :: 0 <= k < |r.nodes| && r.nodes[k].name == end.name)
      && (exists k :: 0 <= k < |r.links| && r.links[k].from == tracked[w.previous.value].name
                                         && r.links[k].to == end.name)
  {
    if TruthyId(w.previous) && !tracked[w.previous.value].isTerminal then
      var end := Trailing(app, ghosted, inProgress);
      var from := tracked[w.previous.value].name;
      WithNodeFacts(w.data.nodes, end);
      WithLinkTotal(w.data.links, from, end.name);
      WithNodeNamed(w.data.nodes, end);
      WithLinkNamed(w.data.links, from, end.name);
      SankeyData(WithNode(w.data.nodes, end), WithLink(w.data.links, from, end.name))
    else w.data
  }

  /** After `addNode` a node of that name is in the list. */
  lemma WithNodeNamed(nodes: seq<DiagramNode>, info: NodeInfo)
    ensures var r := WithNode(nodes, info);
      exists k :: 0 <= k < |r| && r[k].name == info.name
  {
    var r := WithNode(nodes, info);
    if k :| 0 <= k < |nodes| && nodes[k].name == info.name {
      var j :| 0 <= j < |nodes| && nodes[j].name == info.name
               && r == nodes[j := nodes[j].(value := nodes[j].value + 1)];
      assert r[j].name == info.name;
    } else {
      assert r[|nodes|].name == info.name;
    }
  }

  /** After `addLink` a link with those ends is in the list. */
  lemma WithLinkNamed(links: seq<DiagramLink>, from: string, to: string)
    ensures var r := WithLink(links, from, to);
      exists k :: 0 <= k < |r| && r[k].from == from && r[k].to == to
  {
    var r := WithLink(links, from, to);
    if k :| 0 <= k < |links| && links[k].from == from && links[k].to == to {
      var j :| 0 <= j < |links| && links[j].from == from && links[j].to == to
               && r == links[j := links[j].(flow := links[j].flow + 1)];
      assert r[j].from == from && r[j].to == to;
    } else {
      assert r[|links|].from == from && r[|links|].to == to;
    }
  }

  /** One application's contribution, on top of `data`; an application none
      of whose events is tracked leaves the diagram as it is. */
  function ApplicationStep(data: SankeyData, app: Application, tracked: map<int, NodeInfo>,
                           ghosted: NodeInfo, inProgress: NodeInfo): (r: SankeyData)
    ensures !HasTrackedEvent(app, tracked) ==> r == data
  {
    VisitsEmpty(app.statusIds, tracked);
    var w := VisitAll(Walk(data, None), Visits(app.statusIds, tracked), tracked);
    Finish(w, app, tracked, ghosted, inProgress)
  }

  /** The applications one after the other, from an empty diagram; when no
      application has a tracked event the diagram stays empty. */
  function Aggregate(apps: seq<Application>, tracked: map<int, NodeInfo>,
                     ghosted: NodeInfo, inProgress: NodeInfo): (r: SankeyData)
    ensures (forall a :: a in apps ==> !HasTrackedEvent(a, tracked)) ==> r == SankeyData([], [])
  {
    if apps == [] then SankeyData([], [])
    else
      assert apps[|apps| - 1] in apps;
      assert forall a :: a in apps[..|apps| - 1] ==> a in apps;
      ApplicationStep(Aggregate(apps[..|apps| - 1], tracked, ghosted, inProgress),
                      apps[|apps| - 1], tracked, ghosted, inProgress)
  }

  /** `Aggregate` one application at a time. */
  lemma AggregateSnoc(apps: seq<Application>, a: int, tracked: map<int, NodeInfo>,
                      ghosted: NodeInfo, inProgress: NodeInfo)
    requires 0 <= a < |apps|
    ensures Aggregate(apps[..a + 1], tracked, ghosted, inProgress)
            == ApplicationStep(Aggregate(apps[..a], tracked, ghosted, inProgress),
                               apps[a], tracked, ghosted, inProgress)
  {
    assert apps[..a + 1][..a] == apps[..a];
  }

  /** `getSankeyData` over the listed nodes: a TypeError unless nodes 1 and
      2 exist, otherwise the aggregation; no applications give an empty
      diagram. */
  function SankeyDataOf(ns: seq<SankeyNode>, apps: seq<Application>): (r: Result<SankeyData>)
    ensures r.Err? <==> (forall k :: 0 <= k < |ns| ==> ns[k].id != GhostedNodeId)
                        || (forall k :: 0 <= k < |ns| ==> ns[k].id != InProgressNodeId)
    ensures r.Err? ==> r.failure == TypeError("name")
    ensures r.Ok? && apps == [] ==> r.value == SankeyData([], [])
  {
    var ghosted := MapToNode(ns, GhostedNodeId);
    var inProgress := MapToNode(ns, InProgressNodeId);
    if ghosted.Err? then Err(ghosted.failure)
    else if inProgress.Err? then Err(inProgress.failure)
    else Ok(Aggregate(apps, TrackedEvents(ns), ghosted.value, inProgress.value))
  }

  // ---------------------------------------------------------------------
  // Properties of the aggregation
  // ---------------------------------------------------------------------

  /** One node per name. */
  predicate UniqueNodeNames(nodes: seq<DiagramNode>) {
    forall i, j :: 0 <= i < j < |nodes| ==> nodes[i].name != nodes[j].name
  }

  /** One link per pair of ends. */
  predicate UniqueLinkEnds(links: seq<DiagramLink>) {
    forall i, j :: 0 <= i < j < |links| ==>
      !(links[i].from == links[j].from && links[i].to == links[j].to)
  }

  predicate NoSelfLinks(links: seq<DiagramLink>) {
    forall i :: 0 <= i < |links| ==> links[i].from != links[i].to
  }

  predicate WellFormed(d: SankeyData) {
    UniqueNodeNames(d.nodes) && UniqueLinkEnds(d.links)
  }

  /** The sum of the node values. */
  function TotalValue(nodes: seq<DiagramNode>): int {
    if nodes == [] then 0 else TotalValue(nodes[..|nodes| - 1]) + nodes[|nodes| - 1].value
  }

  /** The sum of the link flows. */
  function TotalFlow(links: seq<DiagramLink>): int {
    if links == [] then 0 else TotalFlow(links[..|links| - 1]) + links[|links| - 1].flow
  }

  lemma {:induction false} TotalValueUpdate(nodes: seq<DiagramNode>, i: int, n: DiagramNode)
    requires 0 <= i < |nodes|
    ensures TotalValue(nodes[i := n]) == TotalValue(nodes) - nodes[i].value + n.value
  {
    var init := nodes[..|nodes| - 1];
    if i == |nodes| - 1 {
      assert nodes[i := n][..|nodes| - 1] == init;
    } else {
      assert nodes[i := n][..|nodes| - 1] == init[i := n];
      TotalValueUpdate(init, i, n);
    }
  }

  lemma {:induction false} TotalFlowUpdate(links: seq<DiagramLink>, i: int, l: DiagramLink)
    requires 0 <= i < |links|
    ensures TotalFlow(links[i := l]) == TotalFlow(links) - links[i].flow + l.flow
  {
    var init := links[..|links| - 1];
    if i == |links| - 1 {
      assert links[i := l][..|links| - 1] == init;
    } else {
      assert links[i := l][..|links| - 1] == init[i := l];
      TotalFlowUpdate(init, i, l);
    }
  }

  /** `addNode` keeps one node per name and adds exactly one to the total
      value. */
  lemma WithNodeFacts(nodes: seq<DiagramNode>, info: NodeInfo)
    ensures UniqueNodeNames(nodes) ==> UniqueNodeNames(WithNode(nodes, info))
    ensures TotalValue(WithNode(nodes, info)) == TotalValue(nodes) + 1
  {
    var i := FindNode(nodes, info.name);
    if i < |nodes| {
      TotalValueUpdate(nodes, i, nodes[i].(value := nodes[i].value + 1));
    } else {
      assert (nodes + [DiagramNode(info.name, info.color, info.isTerminal, 1)])[..|nodes|] == nodes;
    }
  }

  /** `addLink` keeps one link per pair of ends, adds exactly one to the total
      flow, and adds no self-link unless asked to link a name to itself. */
  lemma WithLinkFacts(links: seq<DiagramLink>, from: string, to: string)
    ensures UniqueLinkEnds(links) ==> UniqueLinkEnds(WithLink(links, from, to))
    ensures NoSelfLinks(links) && from != to ==> NoSelfLinks(WithLink(links, from, to))
    ensures TotalFlow(WithLink(links, from, to)) == TotalFlow(links) + 1
  {
    WithLinkShape(links, from, to);
    WithLinkTotal(links, from, to);
  }

  lemma WithLinkShape(links: seq<DiagramLink>, from: string, to: string)
    ensures UniqueLinkEnds(links) ==> UniqueLinkEnds(WithLink(links, from, to))
    ensures NoSelfLinks(links) && from != to ==> NoSelfLinks(WithLink(links, from, to))
  {
  }

  lemma WithLinkTotal(links: seq<DiagramLink>, from: string, to: string)
    ensures TotalFlow(WithLink(links, from, to)) == TotalFlow(links) + 1
  {
    var i := FindLink(links, from, to);
    if i < |links| {
      TotalFlowUpdate(links, i, links[i].(flow := links[i].flow + 1));
    } else {
      assert (links + [DiagramLink(from, to, 1)])[..|links|] == links;
    }
  }

  /** The visits keep one node per name, one link per pair of ends, and add
      no self-link: a step between two ids of the same name is skipped. */
  lemma {:induction false} VisitAllKeepsShape(w: Walk, vs: seq<int>, tracked: map<int, NodeInfo>)
    requires AllTracked(vs, tracked) && PreviousTracked(w, tracked)
    requires WellFormed(w.data)
    ensures WellFormed(VisitAll(w, vs, tracked).data)
    ensures NoSelfLinks(w.data.links) ==> NoSelfLinks(VisitAll(w, vs, tracked).data.links)
  {
    if vs != [] {
      var init := vs[..|vs| - 1];
      var s := vs[|vs| - 1];
      VisitAllKeepsShape(w, init, tracked);
      var u := VisitAll(w, init, tracked);
      WithNodeFacts(u.data.nodes, tracked[s]);
      if TruthyId(u.previous) && tracked[u.previous.value].name != tracked[s].name {
        WithLinkFacts(u.data.links, tracked[u.previous.value].name, tracked[s].name);
      }
    }
  }

  /** With no state id 0 tracked, the visits of `vs` from a fresh walk add
      `|vs|` to the total value and `|vs| - 1` to the total flow: the first
      visit starts the chain, each later one extends it by a step. */
  lemma {:induction false} VisitAllBalance(data: SankeyData, vs: seq<int>,
                                           tracked: map<int, NodeInfo>)
    requires AllTracked(vs, tracked) && DistinctNames(vs, tracked) && 0 !in tracked
    ensures var w := VisitAll(Walk(data, None), vs, tracked);
      (vs == [] ==> w == Walk(data, None))
      && (vs != [] ==> w.previous == Some(vs[|vs| - 1])
                       && TotalValue(w.data.nodes) == TotalValue(data.nodes) + |vs|
                       && TotalFlow(w.data.links) == TotalFlow(data.links) + |vs| - 1)
  {
    if vs != [] {
      var init := vs[..|vs| - 1];
      var s := vs[|vs| - 1];
      assert forall i :: 0 <= i < |init| ==> init[i] == vs[i];
      VisitAllBalance(data, init, tracked);
      var u := VisitAll(Walk(data, None), init, tracked);
      WithNodeFacts(u.data.nodes, tracked[s]);
      if init != [] {
        assert tracked[vs[|vs| - 2]].name != tracked[s].name;
        WithLinkFacts(u.data.links, tracked[vs[|vs| - 2]].name, tracked[s].name);
      }
    }
  }

  /** Some event of the application is tracked. */
  predicate HasTrackedEvent(app: Application, tracked: map<int, NodeInfo>) {
    exists s :: s in app.statusIds && s in tracked
  }

  /** Each application keeps the diagram well formed; it adds no self-link
      as long as no non-terminal tracked name is also the name of a trailing
      node. */
  lemma ApplicationStepKeepsShape(data: SankeyData, app: Application,
                                  tracked: map<int, NodeInfo>,
                                  ghosted: NodeInfo, inProgress: NodeInfo)
    requires WellFormed(data)
    ensures WellFormed(ApplicationStep(data, app, tracked, ghosted, inProgress))
    ensures NoSelfLinks(data.links) && TrailingNamesApart(tracked, ghosted, inProgress) ==>
            NoSelfLinks(ApplicationStep(data, app, tracked, ghosted, inProgress).links)
  {
    var vs := Visits(app.statusIds, tracked);
    VisitAllKeepsShape(Walk(data, None), vs, tracked);
    var w := VisitAll(Walk(data, None), vs, tracked);
    if TruthyId(w.previous) && !tracked[w.previous.value].isTerminal {
      var end := Trailing(app, ghosted, inProgress);
      WithNodeFacts(w.data.nodes, end);
      WithLinkFacts(w.data.links, tracked[w.previous.value].name, end.name);
    }
  }

  /** No tracked name of a non-terminal node is the name of a trailing node. */
  predicate TrailingNamesApart(tracked: map<int, NodeInfo>, ghosted: NodeInfo,
                               inProgress: NodeInfo)
  {
    forall k :: k in tracked && !tracked[k].isTerminal ==>
      tracked[k].name != ghosted.name && tracked[k].name != inProgress.name
  }

  /** The diagram has one node per name and one link per pair of ends; when
      no non-terminal tracked name is a trailing node's name, no link goes
      from a node to itself. */
  lemma {:induction false} AggregateKeepsShape(apps: seq<Application>,
                                               tracked: map<int, NodeInfo>,
                                               ghosted: NodeInfo, inProgress: NodeInfo)
    ensures WellFormed(Aggregate(apps, tracked, ghosted, inProgress))
    ensures TrailingNamesApart(tracked, ghosted, inProgress) ==>
            NoSelfLinks(Aggregate(apps, tracked, ghosted, inProgress).links)
  {
    if apps != [] {
      var init := apps[..|apps| - 1];
      AggregateKeepsShape(init, tracked, ghosted, inProgress);
      ApplicationStepKeepsShape(Aggregate(init, tracked, ghosted, inProgress),
                                apps[|apps| - 1], tracked, ghosted, inProgress);
    }
  }

  /** With no state id 0 tracked, an application with a tracked event adds
      one more to the total value than to the total flow, any other nothing. */
  lemma ApplicationStepBalance(data: SankeyData, app: Application,
                               tracked: map<int, NodeInfo>,
                               ghosted: NodeInfo, inProgress: NodeInfo)
    requires 0 !in tracked
    ensures var d := ApplicationStep(data, app, tracked, ghosted, inProgress);
      TotalValue(d.nodes) - TotalFlow(d.links)
      == TotalValue(data.nodes) - TotalFlow(data.links)
         + (if HasTrackedEvent(app, tracked) then 1 else 0)
  {
    var vs := Visits(app.statusIds, tracked);
    VisitsEmpty(app.statusIds, tracked);
    VisitAllBalance(data, vs, tracked);
    var w := VisitAll(Walk(data, None), vs, tracked);
    if TruthyId(w.previous) && !tracked[w.previous.value].isTerminal {
      var end := Trailing(app, ghosted, inProgress);
      WithNodeFacts(w.data.nodes, end);
      WithLinkFacts(w.data.links, tracked[w.previous.value].name, end.name);
    }
  }

  /** The number of applications with a tracked event. */
  function CountTracked(apps: seq<Application>, tracked: map<int, NodeInfo>): nat {
    if apps == [] then 0
    else
      CountTracked(apps[..|apps| - 1], tracked)
      + (if HasTrackedEvent(apps[|apps| - 1], tracked) then 1 else 0)
  }

  /** Conservation: with no state id 0 tracked, the node values add up to the
      link flows plus one per application that shows in the diagram, since
      each such application is one chain of visits joined by steps. */
  lemma {:induction false} AggregateBalance(apps: seq<Application>,
                                            tracked: map<int, NodeInfo>,
                                            ghosted: NodeInfo, inProgress: NodeInfo)
    requires 0 !in tracked
    ensures var d := Aggregate(apps, tracked, ghosted, inProgress);
      TotalValue(d.nodes) == TotalFlow(d.links) + CountTracked(apps, tracked)
  {
    if apps != [] {
      var init := apps[..|apps| - 1];
      AggregateBalance(init, tracked, ghosted, inProgress);
      ApplicationStepBalance(Aggregate(init, tracked, ghosted, inProgress),
                             apps[|apps| - 1], tracked, ghosted, inProgress);
    }
  }

  // ---------------------------------------------------------------------
  // The imperative aggregation
  // ---------------------------------------------------------------------

  /** The `nodes` and `links` arrays `addNode` and `addLink` update. */
  class SankeyAccumulator {
    var nodes: seq<DiagramNode>
    var links: seq<DiagramLink>

    constructor ()
      ensures nodes == [] && links == []
    {
      nodes := [];
      links := [];
    }

    function Data(): SankeyData
      reads this
    {
      SankeyData(nodes, links)
    }

    method AddNode(info: NodeInfo)
      modifies this
      ensures nodes == WithNode(old(nodes), info)
      ensures links == old(links)
    {
      var i := 0;
      while i < |nodes| && nodes[i].name != info.name
        invariant 0 <= i <= |nodes|
        invariant forall j :: 0 <= j < i ==> nodes[j].name != info.name
      {
        i := i + 1;
      }
      if i < |nodes| {
        nodes := nodes[i := nodes[i].(value := nodes[i].value + 1)];
      } else {
        nodes := nodes + [DiagramNode(info.name, info.color, info.isTerminal, 1)];
      }
    }

    method AddLink(from: string, to: string)
      modifies this
      ensures links == WithLink(old(links), from, to)
      ensures nodes == old(nodes)
    {
      var i := 0;
      while i < |links| && !(links[i].from == from && links[i].to == to)
        invariant 0 <= i <= |links|
        invariant forall j :: 0 <= j < i ==> !(links[j].from == from && links[j].to == to)
      {
        i := i + 1;
      }
      if i < |links| {
        links := links[i := links[i].(flow := links[i].flow + 1)];
      } else {
        links := links + [DiagramLink(from, to, 1)];
      }
    }
  }

  /** One visit of the `forEach` body on `acc`: count the node, and count a
      step from the previous node when it has another name. */
  method VisitNode(acc: SankeyAccumulator, previous: Option<int>, s: int,
                   tracked: map<int, NodeInfo>) returns (next: Option<int>)
    requires s in tracked && PreviousTracked(Walk(acc.Data(), previous), tracked)
    modifies acc
    ensures Walk(acc.Data(), next) == VisitStep(Walk(old(acc.Data()), previous), s, tracked)
  {
    acc.AddNode(tracked[s]);
    next := previous;
    if !TruthyId(previous) {
      next := Some(s);
    } else if tracked[previous.value].name != tracked[s].name {
      acc.AddLink(tracked[previous.value].name, tracked[s].name);
      next := Some(s);
    }
  }

  /** After the `forEach`: the trailing node and the step into it. */
  method FinishApplication(acc: SankeyAccumulator, previous: Option<int>, app: Application,
                           tracked: map<int, NodeInfo>, ghosted: NodeInfo, inProgress: NodeInfo)
    requires PreviousTracked(Walk(acc.Data(), previous), tracked)
    modifies acc
    ensures acc.Data() == Finish(Walk(old(acc.Data()), previous), app, tracked, ghosted, inProgress)
  {
    if TruthyId(previous) && !tracked[previous.value].isTerminal {
      var end := Trailing(app, ghosted, inProgress);
      acc.AddNode(end);
      acc.AddLink(tracked[previous.value].name, end.name);
    }
  }

  /** The walk of one application on `acc`, finished by the trailing step. */
  method RunApplication(acc: SankeyAccumulator, app: Application, tracked: map<int, NodeInfo>,
                        ghosted: NodeInfo, inProgress: NodeInfo)
    modifies acc
    ensures acc.Data() == ApplicationStep(old(acc.Data()), app, tracked, ghosted, inProgress)
  {
    ghost var start := Walk(acc.Data(), None);
    var vs := Visits(app.statusIds, tracked);
    var previous: Option<int> := None;
    var i := 0;
    while i < |vs|
      invariant 0 <= i <= |vs|
      invariant AllTracked(vs[..i], tracked)
      invariant PreviousTracked(Walk(acc.Data(), previous), tracked)
      invariant Walk(acc.Data(), previous) == VisitAll(start, vs[..i], tracked)
    {
      previous := VisitNode(acc, previous, vs[i], tracked);
      VisitAllSnoc(start, vs, i, tracked);
      i := i + 1;
    }
    assert vs[..|vs|] == vs;
    FinishApplication(acc, previous, app, tracked, ghosted, inProgress);
  }

  /** `getSankeyData`: the nodes come from the node service; the result is
      the aggregation of the applications. */
  method GetSankeyData(t: SankeyNodeTables, flowTables: EventFlowTables, apps: seq<Application>)
    returns (r: Result<SankeyData>)
    ensures r == SankeyDataOf(GetAllSankeyNodes(t, flowTables), apps)
  {
    var ns := SankeyNodesOf(t.sankeyNodes, t.sankeyLinks, flowTables.applicationFlow);
    var ghosted := MapToNode(ns, GhostedNodeId);
    var inProgress := MapToNode(ns, InProgressNodeId);
    if ghosted.Err? {
      return Err(ghosted.failure);
    }
    if inProgress.Err? {
      return Err(inProgress.failure);
    }
    var tracked := BuildTrackedEvents(ns);
    var acc := new SankeyAccumulator();
    var a := 0;
    while a < |apps|
      invariant 0 <= a <= |apps|
      invariant acc.Data() == Aggregate(apps[..a], tracked, ghosted.value, inProgress.value)
    {
      RunApplication(acc, apps[a], tracked, ghosted.value, inProgress.value);
      AggregateSnoc(apps, a, tracked, ghosted.value, inProgress.value);
      a := a + 1;
    }
    assert apps[..|apps|] == apps;
    r := Ok(acc.Data());
  }
}
