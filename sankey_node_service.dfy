/** The sankey-node service: the named, coloured groups of application
    states drawn in the flow diagram. Nodes 1 ("ghosted") and 2 ("in
    progress") are permanent: they cannot be deleted and their state links
    are not edited. */
module SankeyNodeService {
  import opened Common
  import opened CommaList
  import opened EventFlowPersistence
  import opened SankeyNodePersistence
  import opened EventFlowSettingService

  const GhostedNodeId := 1
  const InProgressNodeId := 2

  /** `permanentNodeIds.includes(id)`. */
  predicate IsPermanent(id: int) {
    id == GhostedNodeId || id == InProgressNodeId
  }

  /** A node as the service returns it. */
  datatype SankeyNode = SankeyNode(
    id: int,
    name: string,
    color: string,
    applicationStateIds: seq<int>,
    isTerminal: bool,
    isPermanent: bool)

  /** The node form: a missing field is `None`. */
  datatype NodeInput = NodeInput(
    name: Option<string>,
    color: Option<string>,
    applicationStateIds: Option<seq<int>>)

  /** The form after `sanitize`. */
  datatype SanitizedNode = SanitizedNode(name: string, color: string, applicationStateIds: seq<int>)

  // ---------------------------------------------------------------------
  // Reading the nodes
  // ---------------------------------------------------------------------

  /** `getAllSankeyNodes` over the tables: each node once, in table order,
      with the states of its link rows read back from the grouped column,
      terminal when the column reads 1, permanent for ids 1 and 2. */
  function SankeyNodesOf(nodes: seq<NodeRow>, links: seq<LinkRow>, flow: seq<FlowRow>)
    : (r: seq<SankeyNode>)
    ensures |r| == |nodes|
    ensures forall k :: 0 <= k < |nodes| ==>
      r[k].id == nodes[k].id && r[k].name == nodes[k].name && r[k].color == nodes[k].color
      && r[k].applicationStateIds == LinkedStates(links, nodes[k].id)
      && (r[k].isTerminal <==> TerminalColumn(LinkedStates(links, nodes[k].id), flow) == 1)
      && (r[k].isPermanent <==> IsPermanent(nodes[k].id))
  {
    var listing := ListNodes(nodes, links, flow);
    assert forall k :: 0 <= k < |listing| ==> WellFormedIdList(listing[k].applicationStateIds)
                                              && ParseIdList(listing[k].applicationStateIds)
                                                 == LinkedStates(links, nodes[k].id) by {
      forall k | 0 <= k < |listing|
        ensures WellFormedIdList(listing[k].applicationStateIds)
        ensures ParseIdList(listing[k].applicationStateIds) == LinkedStates(links, nodes[k].id)
      {
        ParseGroupConcat(LinkedStates(links, nodes[k].id));
      }
    }
    seq(|listing|, k requires 0 <= k < |listing| =>
        SankeyNode(listing[k].id, listing[k].name, listing[k].color,
                   ParseIdList(listing[k].applicationStateIds),
                   listing[k].isTerminal == 1, IsPermanent(listing[k].id)))
  }

  /** `getAllSankeyNodes`: every node of the table once, in table order,
      with the states its link rows name. */
  function GetAllSankeyNodes(t: SankeyNodeTables, flowTables: EventFlowTables): (r: seq<SankeyNode>)
    reads t, flowTables
    ensures |r| == |t.sankeyNodes|
    ensures forall k :: 0 <= k < |r| ==>
      r[k].id == t.sankeyNodes[k].id && r[k].name == t.sankeyNodes[k].name
      && r[k].color == t.sankeyNodes[k].color
      && r[k].applicationStateIds == LinkedStates(t.sankeyLinks, t.sankeyNodes[k].id)
      && (r[k].isTerminal <==>
            TerminalColumn(LinkedStates(t.sankeyLinks, t.sankeyNodes[k].id),
                           flowTables.applicationFlow) == 1)
      && (r[k].isPermanent <==> IsPermanent(t.sankeyNodes[k].id))
  {
    SankeyNodesOf(t.sankeyNodes, t.sankeyLinks, flowTables.applicationFlow)
  }

  // ---------------------------------------------------------------------
  // Validation and sanitizing
  // ---------------------------------------------------------------------

  predicate IsHexDigit(c: char) {
    '0' <= c <= '9' || 'a' <= c <= 'f' || 'A' <= c <= 'F'
  }

  /** `/^#[0-9A-Fa-f]{6}$/`. */
  predicate IsHexColor(s: string) {
    |s| == 7 && s[0] == '#' && forall i :: 1 <= i < 7 ==> IsHexDigit(s[i])
  }

  /** The first id that names no state of the map, deleted ones counting
      as present. */
  function MissingState(entries: seq<EventFlowEntry>, ids: seq<int>): (m: Option<int>)
    ensures m.None? <==> forall i :: 0 <= i < |ids| ==> FindEntry(entries, ids[i]).Some?
    ensures m.Some? ==>
      exists i :: 0 <= i < |ids| && ids[i] == m.value && FindEntry(entries, m.value).None?
        && forall j :: 0 <= j < i ==> FindEntry(entries, ids[j]).Some?
  {
    if ids == [] then None
    else if FindEntry(entries, ids[0]).None? then Some(ids[0])
    else
      var m := MissingState(entries, ids[1..]);
      if m.Some? then
        var i :| 0 <= i < |ids[1..]| && ids[1..][i] == m.value && FindEntry(entries, m.value).None?
          && forall j :: 0 <= j < i ==> FindEntry(entries, ids[1..][j]).Some?;
        assert ids[i + 1] == m.value;
        assert forall j :: 1 <= j < i + 1 ==> ids[j] == ids[1..][j - 1];
        m
      else m
  }

  /** `validateAndSanitizeSankeyNodeInput`: name, then colour, then colour
      format, then each state id in order; the name is trimmed after
      validation and a missing id list becomes empty. */
  function ValidateAndSanitizeSankeyNodeInput(input: NodeInput, entries: seq<EventFlowEntry>)
    : (r: Result<SanitizedNode>)
    ensures !Present(input.name) ==> r == Err(Thrown("Name is required"))
    ensures Present(input.name) && !Present(input.color) ==> r == Err(Thrown("Color is required"))
    ensures Present(input.name) && Present(input.color) && !IsHexColor(input.color.value)
            ==> r == Err(Thrown("Color must be a valid hex color"))
    ensures r.Ok? <==>
      (Present(input.name) && Present(input.color) && IsHexColor(input.color.value)
       && (input.applicationStateIds.Some? ==>
             forall n :: n in input.applicationStateIds.value ==> FindEntry(entries, n).Some?))
    ensures Present(input.name) && Present(input.color) && IsHexColor(input.color.value) && r.Err? ==>
      input.applicationStateIds.Some?
      && var ids := input.applicationStateIds.value;
         exists i :: 0 <= i < |ids| && FindEntry(entries, ids[i]).None?
           && (forall j :: 0 <= j < i ==> FindEntry(entries, ids[j]).Some?)
           && r == Err(Thrown("Application state id " + IntToString(ids[i]) + " does not exist"))
    ensures r.Ok? ==>
      r.value.name == Trim(input.name.value) && r.value.color == input.color.value
      && r.value.applicationStateIds
         == (if input.applicationStateIds.Some? then input.applicationStateIds.value else [])
  {
    if !Present(input.name) then Err(Thrown("Name is required"))
    else if !Present(input.color) then Err(Thrown("Color is required"))
    else if !IsHexColor(input.color.value) then Err(Thrown("Color must be a valid hex color"))
    else
      var ids := if input.applicationStateIds.Some? then input.applicationStateIds.value else [];
      var missing := MissingState(entries, ids);
      if missing.Some? then
        assert missing.value in ids;
        Err(Thrown("Application state id " + IntToString(missing.value) + " does not exist"))
      else
        assert forall n :: n in ids ==> FindEntry(entries, n).Some? by {
          forall n | n in ids ensures FindEntry(entries, n).Some? {
            var i :| 0 <= i < |ids| && ids[i] == n;
          }
        }
        Ok(SanitizedNode(Trim(input.name.value), input.color.value, ids))
  }

  // ---------------------------------------------------------------------
  // The service operations
  // ---------------------------------------------------------------------

  /** The link rows `insertSankeyLink` adds for a list of states. */
  function LinksFrom(nodeId: int, ids: seq<int>): (rows: seq<LinkRow>)
    ensures |rows| == |ids|
    ensures forall k :: 0 <= k < |ids| ==> rows[k] == LinkRow(nodeId, ids[k])
  {
    seq(|ids|, k requires 0 <= k < |ids| => LinkRow(nodeId, ids[k]))
  }

  /** Adds one link row per state, in list order. */
  method InsertLinks(t: SankeyNodeTables, nodeId: int, ids: seq<int>)
    modifies t
    ensures t.sankeyLinks == old(t.sankeyLinks) + LinksFrom(nodeId, ids)
    ensures t.sankeyNodes == old(t.sankeyNodes)
  {
    var i := 0;
    while i < |ids|
      invariant 0 <= i <= |ids|
      invariant t.sankeyLinks == old(t.sankeyLinks) + LinksFrom(nodeId, ids[..i])
      invariant t.sankeyNodes == old(t.sankeyNodes)
    {
      t.InsertSankeyLink(nodeId, ids[i]);
      assert LinksFrom(nodeId, ids[..i + 1]) == LinksFrom(nodeId, ids[..i]) + [LinkRow(nodeId, ids[i])];
      i := i + 1;
    }
    assert ids[..i] == ids;
  }

  /** Both permanent nodes are in the table. */
  predicate HasPermanentNodes(nodes: seq<NodeRow>) {
    (exists n :: n in nodes && n.id == GhostedNodeId) && (exists n :: n in nodes && n.id == InProgressNodeId)
  }

  /** `addSankeyNode`: a new node after every existing one, linked to the
      form's states in order. */
  method AddSankeyNode(t: SankeyNodeTables, flowTables: EventFlowTables, input: NodeInput)
    returns (r: Result<seq<SankeyNode>>)
    requires t.Valid()
    modifies t
    ensures t.Valid()
    ensures var v := ValidateAndSanitizeSankeyNodeInput(input, GetEventFlowMap(flowTables));
      (v.Err? ==> r == Err(v.failure) && unchanged(t))
      && (v.Ok? ==>
            var id := NextNodeId(old(t.sankeyNodes));
            t.sankeyNodes == old(t.sankeyNodes) + [NodeRow(id, v.value.name, v.value.color)]
            && t.sankeyLinks == old(t.sankeyLinks) + LinksFrom(id, v.value.applicationStateIds)
            && r == Ok(GetAllSankeyNodes(t, flowTables)))
    ensures old(HasPermanentNodes(t.sankeyNodes)) ==> HasPermanentNodes(t.sankeyNodes)
  {
    var v := ValidateAndSanitizeSankeyNodeInput(input, GetEventFlowMap(flowTables));
    if v.Err? {
      return Err(v.failure);
    }
    ghost var nodes0 := t.sankeyNodes;
    var id := t.InsertSankeyNode(v.value.name, v.value.color);
    InsertLinks(t, id, v.value.applicationStateIds);
    assert forall n :: n in nodes0 ==> n in t.sankeyNodes;
    r := Ok(GetAllSankeyNodes(t, flowTables));
  }

  /** `updateSankeyNode`: name and colour always change; a permanent node
      keeps its links, any other node has them replaced by the form's. */
  method UpdateSankeyNode(t: SankeyNodeTables, flowTables: EventFlowTables, id: Option<int>,
                          input: NodeInput)
    returns (r: Result<seq<SankeyNode>>)
    requires t.Valid()
    modifies t
    ensures t.Valid()
    ensures !TruthyId(id) ==> r == Err(Thrown("Id is required")) && unchanged(t)
    ensures TruthyId(id) ==>
      var v := ValidateAndSanitizeSankeyNodeInput(input, GetEventFlowMap(flowTables));
      (v.Err? ==> r == Err(v.failure) && unchanged(t))
      && (v.Ok? ==>
            t.sankeyNodes == RenameNode(old(t.sankeyNodes), id.value, v.value.name, v.value.color)
            && t.sankeyLinks
               == (if IsPermanent(id.value) then old(t.sankeyLinks)
                   else RemoveLinksOfNode(old(t.sankeyLinks), id.value)
                        + LinksFrom(id.value, v.value.applicationStateIds))
            && r == Ok(GetAllSankeyNodes(t, flowTables)))
    ensures old(HasPermanentNodes(t.sankeyNodes)) ==> HasPermanentNodes(t.sankeyNodes)
  {
    if !TruthyId(id) {
      return Err(Thrown("Id is required"));
    }
    var v := ValidateAndSanitizeSankeyNodeInput(input, GetEventFlowMap(flowTables));
    if v.Err? {
      return Err(v.failure);
    }
    ghost var nodes0 := t.sankeyNodes;
    t.UpdateSankeyNode(id.value, v.value.name, v.value.color);
    RenameKeepsIds(nodes0, id.value, v.value.name, v.value.color);
    if !IsPermanent(id.value) {
      t.DeleteSankeyLinksBySankeyNodeId(id.value);
      InsertLinks(t, id.value, v.value.applicationStateIds);
    }
    r := Ok(GetAllSankeyNodes(t, flowTables));
  }

  /** `deleteSankeyNode`: refuses the permanent nodes; otherwise the node's
      links go, then (again, with the node row) in the persistence call. */
  method DeleteSankeyNode(t: SankeyNodeTables, id: int) returns (r: Result<()>)
    requires t.Valid()
    modifies t
    ensures t.Valid()
    ensures IsPermanent(id) ==> r == Err(Thrown("Cannot delete a permanent node")) && unchanged(t)
    ensures !IsPermanent(id) ==>
      r == Ok(())
      && t.sankeyLinks == RemoveLinksOfNode(old(t.sankeyLinks), id)
      && t.sankeyNodes == RemoveNode(old(t.sankeyNodes), id)
    ensures forall n: NodeRow :: IsPermanent(n.id) ==>
      multiset(t.sankeyNodes)[n] == multiset(old(t.sankeyNodes))[n]
  {
    if IsPermanent(id) {
      return Err(Thrown("Cannot delete a permanent node"));
    }
    ghost var links0 := t.sankeyLinks;
    t.DeleteSankeyLinksBySankeyNodeId(id);
    t.DeleteSankeyNode(id);
    FilterIdempotent(links0, (l: LinkRow) => l.sankeyNodeId != id);
    r := Ok(());
  }

  // ---------------------------------------------------------------------
  // Properties of the operations
  // ---------------------------------------------------------------------

  /** Renaming keeps every id, so both permanent nodes stay. */
  lemma RenameKeepsIds(nodes: seq<NodeRow>, id: int, name: string, color: string)
    ensures forall n :: n in nodes ==>
      exists m :: m in RenameNode(nodes, id, name, color) && m.id == n.id
  {
    var r := RenameNode(nodes, id, name, color);
    forall n | n in nodes ensures exists m :: m in r && m.id == n.id {
      var k :| 0 <= k < |nodes| && nodes[k] == n;
      assert r[k] in r;
    }
  }

  /** The states of a node written by `LinksFrom` read back as the list. */
  lemma {:induction false} LinkedStatesOfLinksFrom(nodeId: int, ids: seq<int>)
    ensures LinkedStates(LinksFrom(nodeId, ids), nodeId) == ids
  {
    if ids != [] {
      var rows := LinksFrom(nodeId, ids);
      assert rows[1..] == LinksFrom(nodeId, ids[1..]);
      LinkedStatesOfLinksFrom(nodeId, ids[1..]);
    }
  }

  /** Link rows of another node do not show in this node's states. */
  lemma {:induction false} LinkedStatesOfOtherNode(nodeId: int, other: int, ids: seq<int>)
    requires nodeId != other
    ensures LinkedStates(LinksFrom(other, ids), nodeId) == []
  {
    if ids != [] {
      var rows := LinksFrom(other, ids);
      assert rows[1..] == LinksFrom(other, ids[1..]);
      LinkedStatesOfOtherNode(nodeId, other, ids[1..]);
    }
  }

  /** A node no link row names has no states. */
  lemma {:induction false} LinkedStatesOfAbsentNode(links: seq<LinkRow>, nodeId: int)
    requires forall l :: l in links ==> l.sankeyNodeId != nodeId
    ensures LinkedStates(links, nodeId) == []
  {
    if links != [] {
      assert links[0] in links;
      LinkedStatesOfAbsentNode(links[1..], nodeId);
    }
  }

  lemma LinkedStatesAfterRemove(links: seq<LinkRow>, nodeId: int)
    ensures LinkedStates(RemoveLinksOfNode(links, nodeId), nodeId) == []
  {
    var rest := RemoveLinksOfNode(links, nodeId);
    forall l | l in rest ensures l.sankeyNodeId != nodeId {
      assert l in multiset(rest);
    }
    LinkedStatesOfAbsentNode(rest, nodeId);
  }

  /** Round trip of `addSankeyNode`: the new node is listed last with the
      form's name, colour and exactly its states in order, and every other
      node reads as before. It needs that no link row already names the new
      id. */
  lemma AddedNodeRoundTrip(nodes: seq<NodeRow>, links: seq<LinkRow>, flow: seq<FlowRow>,
                           s: SanitizedNode)
    requires IncreasingIds(nodes)
    requires forall l :: l in links ==> l.sankeyNodeId != NextNodeId(nodes)
    ensures var id := NextNodeId(nodes);
      var before := SankeyNodesOf(nodes, links, flow);
      var after := SankeyNodesOf(nodes + [NodeRow(id, s.name, s.color)],
                                 links + LinksFrom(id, s.applicationStateIds), flow);
      |after| == |before| + 1
      && after[|nodes|].id == id && after[|nodes|].name == s.name && after[|nodes|].color == s.color
      && after[|nodes|].applicationStateIds == s.applicationStateIds
      && forall k :: 0 <= k < |nodes| ==> after[k] == before[k]
  {
    var id := NextNodeId(nodes);
    var added := LinksFrom(id, s.applicationStateIds);
    LinkedStatesAppend(links, added, id);
    LinkedStatesOfLinksFrom(id, s.applicationStateIds);
    LinkedStatesOfAbsentNode(links, id);
    forall k | 0 <= k < |nodes|
      ensures LinkedStates(links + added, nodes[k].id) == LinkedStates(links, nodes[k].id)
    {
      assert nodes[k] in nodes;
      LinkedStatesAppend(links, added, nodes[k].id);
      LinkedStatesOfOtherNode(nodes[k].id, id, s.applicationStateIds);
    }
  }

  /** `updateSankeyNode` on a node that is not permanent: its states read
      back as exactly the form's, in order. On a permanent node they read
      as before. */
  lemma UpdatedNodeStates(links: seq<LinkRow>, id: int, ids: seq<int>)
    ensures LinkedStates(RemoveLinksOfNode(links, id) + LinksFrom(id, ids), id) == ids
  {
    LinkedStatesAppend(RemoveLinksOfNode(links, id), LinksFrom(id, ids), id);
    LinkedStatesAfterRemove(links, id);
    LinkedStatesOfLinksFrom(id, ids);
  }

  /** After a delete no node row and no link row carries the id, and the
      other nodes read as before. */
  lemma DeletedNodeGone(nodes: seq<NodeRow>, links: seq<LinkRow>, flow: seq<FlowRow>, id: int)
    ensures forall n :: n in RemoveNode(nodes, id) ==> n.id != id
    ensures LinkedStates(RemoveLinksOfNode(links, id), id) == []
    ensures forall other :: other != id ==>
      LinkedStates(RemoveLinksOfNode(links, id), other) == LinkedStates(links, other)
  {
    forall n | n in RemoveNode(nodes, id) ensures n.id != id {
      assert n in multiset(RemoveNode(nodes, id));
    }
    LinkedStatesAfterRemove(links, id);
    forall other | other != id
      ensures LinkedStates(RemoveLinksOfNode(links, id), other) == LinkedStates(links, other)
    {
      RemoveOtherLinks(links, id, other);
    }
  }

  lemma {:induction false} RemoveOtherLinks(links: seq<LinkRow>, id: int, other: int)
    requires other != id
    ensures LinkedStates(RemoveLinksOfNode(links, id), other) == LinkedStates(links, other)
  {
    if links != [] {
      RemoveOtherLinks(links[1..], id, other);
      assert links == [links[0]] + links[1..];
      var keep := (l: LinkRow) => l.sankeyNodeId != id;
      assert RemoveLinksOfNode(links, id)
             == (if keep(links[0]) then [links[0]] else []) + RemoveLinksOfNode(links[1..], id);
      LinkedStatesAppend(if keep(links[0]) then [links[0]] else [], RemoveLinksOfNode(links[1..], id), other);
    }
  }
}
