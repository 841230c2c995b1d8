/** The `sankeyNodes` and `sankeyLinks` tables: a node is a named, coloured
    group in the flow diagram, a link row puts one application state into
    a node. */
module SankeyNodePersistence {
  import opened Common
  import opened CommaList
  import opened EventFlowPersistence

  datatype NodeRow = NodeRow(id: int, name: string, color: string)

  datatype LinkRow = LinkRow(sankeyNodeId: int, applicationStateId: int)

  /** One row of the node listing query. */
  datatype NodeListing = NodeListing(
    id: int,
    name: string,
    color: string,
    applicationStateIds: Option<string>,
    isTerminal: int)

  /** Rows in rowid order: every id larger than the ones before it. */
  predicate IncreasingIds(nodes: seq<NodeRow>) {
    forall i, j :: 0 <= i < j < |nodes| ==> nodes[i].id < nodes[j].id
  }

  /** The rowid SQLite gives the next inserted node: one past the largest
      (1 in an empty table). */
  function NextNodeId(nodes: seq<NodeRow>): (id: int)
    requires IncreasingIds(nodes)
    ensures forall n :: n in nodes ==> n.id < id
  {
    if nodes == [] then 1 else nodes[|nodes| - 1].id + 1
  }

  /** The state ids of a node's link rows, in table order. */
  function LinkedStates(links: seq<LinkRow>, nodeId: int): (states: seq<int>)
    ensures forall s :: s in states <==> LinkRow(nodeId, s) in links
  {
    if links == [] then []
    else
      var rest := LinkedStates(links[1..], nodeId);
      assert forall l :: l in links <==> l == links[0] || l in links[1..];
      if links[0].sankeyNodeId == nodeId then [links[0].applicationStateId] + rest else rest
  }

  /** The states of a node over two runs of link rows. */
  lemma {:induction false} LinkedStatesAppend(a: seq<LinkRow>, b: seq<LinkRow>, nodeId: int)
    ensures LinkedStates(a + b, nodeId) == LinkedStates(a, nodeId) + LinkedStates(b, nodeId)
  {
    if a == [] {
      assert a + b == b;
    } else {
      assert (a + b)[0] == a[0] && (a + b)[1..] == a[1..] + b;
      LinkedStatesAppend(a[1..], b, nodeId);
    }
  }

  /** Whether a state has a row in `applicationFlow`, i.e. any next step. */
  predicate HasNextStep(flow: seq<FlowRow>, state: int) {
    Targets(flow, state) != []
  }

  /** The `isTerminal` column: `NOT EXISTS` a flow row leaving the link's
      state. The link is a bare column of the group; SQLite takes it from
      the group's last row. With no link the state is NULL, no flow row
      matches it, and the node reads as terminal. */
  function TerminalColumn(states: seq<int>, flow: seq<FlowRow>): int {
    if states == [] then 1
    else if HasNextStep(flow, states[|states| - 1]) then 0
    else 1
  }

  /** The node listing query: every node once, with or without links. */
  function ListNodes(nodes: seq<NodeRow>, links: seq<LinkRow>, flow: seq<FlowRow>)
    : (r: seq<NodeListing>)
    ensures |r| == |nodes|
    ensures forall k :: 0 <= k < |nodes| ==>
      r[k].id == nodes[k].id && r[k].name == nodes[k].name && r[k].color == nodes[k].color
      && r[k].applicationStateIds == GroupConcat(LinkedStates(links, nodes[k].id))
      && r[k].isTerminal == TerminalColumn(LinkedStates(links, nodes[k].id), flow)
  {
    seq(|nodes|, k requires 0 <= k < |nodes| =>
        var states := LinkedStates(links, nodes[k].id);
        NodeListing(nodes[k].id, nodes[k].name, nodes[k].color,
                    GroupConcat(states), TerminalColumn(states, flow)))
  }

  /** `isTerminal` does not depend on which link SQLite picks as long as the
      node's states agree: all without next steps reads 1, all with next
      steps reads 0. A node without links reads 1 with NULL ids. */
  lemma TerminalColumnBounds(states: seq<int>, flow: seq<FlowRow>)
    ensures states == [] ==> TerminalColumn(states, flow) == 1 && GroupConcat(states).None?
    ensures (forall s :: s in states ==> !HasNextStep(flow, s)) ==> TerminalColumn(states, flow) == 1
    ensures (states != [] && forall s :: s in states ==> HasNextStep(flow, s))
            ==> TerminalColumn(states, flow) == 0
    ensures TerminalColumn(states, flow) == 0 ==> exists s :: s in states && HasNextStep(flow, s)
  {
    if states != [] {
      assert states[|states| - 1] in states;
    }
  }

  /** `UPDATE sankeyNodes SET name, color WHERE id = ?`. */
  function RenameNode(nodes: seq<NodeRow>, id: int, name: string, color: string)
    : (r: seq<NodeRow>)
    ensures |r| == |nodes|
    ensures forall k :: 0 <= k < |nodes| ==> r[k].id == nodes[k].id
    ensures forall k :: 0 <= k < |nodes| && nodes[k].id != id ==> r[k] == nodes[k]
    ensures forall k :: 0 <= k < |nodes| && nodes[k].id == id ==>
      r[k].name == name && r[k].color == color
  {
    seq(|nodes|, k requires 0 <= k < |nodes| =>
        if nodes[k].id == id then NodeRow(id, name, color) else nodes[k])
  }

  /** `DELETE FROM sankeyNodes WHERE id = ?`. */
  function RemoveNode(nodes: seq<NodeRow>, id: int): (r: seq<NodeRow>)
    ensures forall n: NodeRow :: n.id == id ==> multiset(r)[n] == 0
    ensures forall n: NodeRow :: n.id != id ==> multiset(r)[n] == multiset(nodes)[n]
  {
    Filter(nodes, (n: NodeRow) => n.id != id)
  }

  /** `DELETE FROM sankeyLinks WHERE sankeyNodeId = ?`. */
  function RemoveLinksOfNode(links: seq<LinkRow>, nodeId: int): (r: seq<LinkRow>)
    ensures forall l: LinkRow :: l.sankeyNodeId == nodeId ==> multiset(r)[l] == 0
    ensures forall l: LinkRow :: l.sankeyNodeId != nodeId ==> multiset(r)[l] == multiset(links)[l]
  {
    Filter(links, (l: LinkRow) => l.sankeyNodeId != nodeId)
  }

  /** `DELETE FROM sankeyLinks WHERE applicationStateId = ?`: across all nodes. */
  function RemoveLinksOfState(links: seq<LinkRow>, stateId: int): (r: seq<LinkRow>)
    ensures forall l: LinkRow :: l.applicationStateId == stateId ==> multiset(r)[l] == 0
    ensures forall l: LinkRow ::
      l.applicationStateId != stateId ==> multiset(r)[l] == multiset(links)[l]
  {
    Filter(links, (l: LinkRow) => l.applicationStateId != stateId)
  }

  /** Removing rows keeps the remaining ones in rowid order. */
  lemma {:induction false} FilterKeepsIncreasing(nodes: seq<NodeRow>, keep: NodeRow -> bool)
    requires IncreasingIds(nodes)
    ensures IncreasingIds(Filter(nodes, keep))
  {
    if nodes != [] {
      FilterKeepsIncreasing(nodes[1..], keep);
      var rest := Filter(nodes[1..], keep);
      forall k | 0 <= k < |rest| ensures nodes[0].id < rest[k].id {
        assert rest[k] in multiset(rest);
        assert rest[k] in multiset(nodes[1..]);
      }
      if keep(nodes[0]) {
        IncreasingCons(nodes[0], rest);
      }
    }
  }

  /** A row whose id is below every id of an increasing table may go in
      front. */
  lemma IncreasingCons(h: NodeRow, nodes: seq<NodeRow>)
    requires IncreasingIds(nodes)
    requires forall k :: 0 <= k < |nodes| ==> h.id < nodes[k].id
    ensures IncreasingIds([h] + nodes)
  {
    var r := [h] + nodes;
    forall i, j | 0 <= i < j < |r| ensures r[i].id < r[j].id {
      assert r[j] == nodes[j - 1];
      if i > 0 {
        assert r[i] == nodes[i - 1];
      }
    }
  }

  class SankeyNodeTables {
    var sankeyNodes: seq<NodeRow>
    var sankeyLinks: seq<LinkRow>

    predicate Valid()
      reads this
    {
      IncreasingIds(sankeyNodes)
    }

    constructor (nodes: seq<NodeRow>, links: seq<LinkRow>)
      requires IncreasingIds(nodes)
      ensures Valid()
      ensures sankeyNodes == nodes && sankeyLinks == links
    {
      sankeyNodes := nodes;
      sankeyLinks := links;
    }

    /** `selectSankeyNodes`; `isTerminal` reads the event-flow table. */
    function SelectSankeyNodes(flow: seq<FlowRow>): seq<NodeListing>
      reads this
    {
      ListNodes(sankeyNodes, sankeyLinks, flow)
    }

    /** `insertSankeyNode`: a new node row, whose id is returned. */
    method InsertSankeyNode(name: string, color: string) returns (id: int)
      requires Valid()
      modifies this
      ensures Valid()
      ensures id == NextNodeId(old(sankeyNodes))
      ensures sankeyNodes == old(sankeyNodes) + [NodeRow(id, name, color)]
      ensures sankeyLinks == old(sankeyLinks)
    {
      id := NextNodeId(sankeyNodes);
      sankeyNodes := sankeyNodes + [NodeRow(id, name, color)];
    }

    /** `insertSankeyLink`: exactly one more link row. */
    method InsertSankeyLink(sankeyNodeId: int, applicationStateId: int)
      modifies this
      ensures sankeyLinks == old(sankeyLinks) + [LinkRow(sankeyNodeId, applicationStateId)]
      ensures sankeyNodes == old(sankeyNodes)
    {
      sankeyLinks := sankeyLinks + [LinkRow(sankeyNodeId, applicationStateId)];
    }

    /** `updateSankeyNode`: name and colour only; links untouched. */
    method UpdateSankeyNode(id: int, name: string, color: string)
      modifies this
      ensures sankeyNodes == RenameNode(old(sankeyNodes), id, name, color)
      ensures sankeyLinks == old(sankeyLinks)
      ensures old(Valid()) ==> Valid()
    {
      sankeyNodes := RenameNode(sankeyNodes, id, name, color);
    }

    /** `deleteSankeyLinksBySankeyNodeId`. */
    method DeleteSankeyLinksBySankeyNodeId(sankeyNodeId: int)
      modifies this
      ensures sankeyLinks == RemoveLinksOfNode(old(sankeyLinks), sankeyNodeId)
      ensures sankeyNodes == old(sankeyNodes)
    {
      sankeyLinks := RemoveLinksOfNode(sankeyLinks, sankeyNodeId);
    }

    /** `deleteSankeyLinksByApplicationStateId`. */
    method DeleteSankeyLinksByApplicationStateId(applicationStateId: int)
      modifies this
      ensures sankeyLinks == RemoveLinksOfState(old(sankeyLinks), applicationStateId)
      ensures sankeyNodes == old(sankeyNodes)
    {
      sankeyLinks := RemoveLinksOfState(sankeyLinks, applicationStateId);
    }

    /** `deleteSankeyNode`: the node's links go first, then the node row. */
    method DeleteSankeyNode(id: int)
      requires Valid()
      modifies this
      ensures Valid()
      ensures sankeyLinks == RemoveLinksOfNode(old(sankeyLinks), id)
      ensures sankeyNodes == RemoveNode(old(sankeyNodes), id)
    {
      DeleteSankeyLinksBySankeyNodeId(id);
      FilterKeepsIncreasing(sankeyNodes, (n: NodeRow) => n.id != id);
      sankeyNodes := RemoveNode(sankeyNodes, id);
    }
  }
}
