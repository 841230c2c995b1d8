/** The `applicationStates` and `applicationFlow` tables and the SQL
    statements the event-flow service runs against them. A state row is never
    removed (deletion only raises `isDeleted`); a flow row is one allowed
    transition from `applicationStateId` to `nextApplicationStateId`. */
module EventFlowPersistence {
  import opened Common
  import opened CommaList

  datatype StateRow = StateRow(
    id: int,
    name: string,
    displayOrder: int,
    alwaysAvailable: int,
    initialStep: int,
    isDeleted: int)

  datatype FlowRow = FlowRow(applicationStateId: int, nextApplicationStateId: int)

  /** One row of the listing query: the state's columns and the
      `GROUP_CONCAT` of its next-step ids (NULL when it has none). */
  datatype StateListing = StateListing(state: StateRow, availableNextStepIds: Option<string>)

  predicate UniqueIds(rows: seq<StateRow>) {
    forall i, j :: 0 <= i < j < |rows| ==> rows[i].id != rows[j].id
  }

  /** `IFNULL(MAX(displayOrder), 0)` over every row, deleted ones included. */
  function MaxDisplayOrder(rows: seq<StateRow>): (m: int)
    ensures forall r :: r in rows ==> r.displayOrder <= m
    ensures rows == [] ==> m == 0
    ensures rows != [] ==> exists r :: r in rows && r.displayOrder == m
  {
    if rows == [] then 0
    else if |rows| == 1 then rows[0].displayOrder
    else
      var m := MaxDisplayOrder(rows[1..]);
      assert forall r :: r in rows ==> r == rows[0] || r in rows[1..];
      if rows[0].displayOrder > m then rows[0].displayOrder else m
  }

  /** The largest id in the table, 0 for an empty one. */
  function MaxId(rows: seq<StateRow>): (m: int)
    ensures forall r :: r in rows ==> r.id <= m
    ensures rows == [] ==> m == 0
    ensures rows != [] ==> exists r :: r in rows && r.id == m
  {
    if rows == [] then 0
    else if |rows| == 1 then rows[0].id
    else
      var m := MaxId(rows[1..]);
      assert forall r :: r in rows ==> r == rows[0] || r in rows[1..];
      if rows[0].id > m then rows[0].id else m
  }

  /** The rowid SQLite gives the next inserted state: one past the largest
      (1 in an empty table). */
  function NextId(rows: seq<StateRow>): (id: int)
    ensures forall r :: r in rows ==> r.id < id
  {
    MaxId(rows) + 1
  }

  /** The targets of the flow rows leaving `id`, in table order. */
  function Targets(flow: seq<FlowRow>, id: int): (targets: seq<int>)
    ensures forall n :: n in targets <==> FlowRow(id, n) in flow
  {
    if flow == [] then []
    else
      var rest := Targets(flow[1..], id);
      assert forall f :: f in flow <==> f == flow[0] || f in flow[1..];
      if flow[0].applicationStateId == id then [flow[0].nextApplicationStateId] + rest else rest
  }

  predicate SortedByDisplayOrder(rows: seq<StateRow>) {
    forall i, j :: 0 <= i < j < |rows| ==> rows[i].displayOrder <= rows[j].displayOrder
  }

  function InsertByDisplayOrder(x: StateRow, sorted: seq<StateRow>): (r: seq<StateRow>)
    requires SortedByDisplayOrder(sorted)
    ensures SortedByDisplayOrder(r)
    ensures multiset(r) == multiset(sorted) + multiset{x}
  {
    if sorted == [] then [x]
    else if x.displayOrder <= sorted[0].displayOrder then
      SortedCons(x, sorted);
      [x] + sorted
    else
      var rest := InsertByDisplayOrder(x, sorted[1..]);
      assert sorted == [sorted[0]] + sorted[1..];
      BoundedBelow(rest, sorted[1..], x, sorted[0].displayOrder);
      SortedCons(sorted[0], rest);
      [sorted[0]] + rest
  }

  /** A row no later than every row of a sorted table may go in front. */
  lemma SortedCons(h: StateRow, rows: seq<StateRow>)
    requires SortedByDisplayOrder(rows)
    requires forall k :: 0 <= k < |rows| ==> h.displayOrder <= rows[k].displayOrder
    ensures SortedByDisplayOrder([h] + rows)
  {
    var r := [h] + rows;
    forall i, j | 0 <= i < j < |r| ensures r[i].displayOrder <= r[j].displayOrder {
      assert r[j] == rows[j - 1];
      if i > 0 {
        assert r[i] == rows[i - 1];
      }
    }
  }

  /** Inserting a row whose id is new keeps the ids unique. */
  lemma {:induction false} InsertKeepsUniqueIds(x: StateRow, sorted: seq<StateRow>)
    requires SortedByDisplayOrder(sorted) && UniqueIds(sorted)
    requires forall y :: y in sorted ==> y.id != x.id
    ensures UniqueIds(InsertByDisplayOrder(x, sorted))
  {
    if sorted != [] && x.displayOrder > sorted[0].displayOrder {
      var rest := InsertByDisplayOrder(x, sorted[1..]);
      InsertKeepsUniqueIds(x, sorted[1..]);
      forall k | 0 <= k < |rest| ensures rest[k].id != sorted[0].id {
        assert rest[k] in multiset(rest);
        assert rest[k] == x || rest[k] in multiset(sorted[1..]);
      }
    }
  }

  /** Every element of a permutation of `rest + [x]` is at least `low` when
      `x` and the elements of `rest` are. */
  lemma BoundedBelow(r: seq<StateRow>, rest: seq<StateRow>, x: StateRow, low: int)
    requires multiset(r) == multiset(rest) + multiset{x}
    requires low <= x.displayOrder
    requires forall y :: y in rest ==> low <= y.displayOrder
    ensures forall k :: 0 <= k < |r| ==> low <= r[k].displayOrder
  {
    forall k | 0 <= k < |r| ensures low <= r[k].displayOrder {
      assert r[k] in multiset(r);
      assert r[k] == x || r[k] in multiset(rest);
    }
  }

  /** `ORDER BY displayOrder ASC`; rows with equal orders keep table order. */
  function SortByDisplayOrder(rows: seq<StateRow>): (r: seq<StateRow>)
    ensures SortedByDisplayOrder(r)
    ensures multiset(r) == multiset(rows)
  {
    if rows == [] then []
    else
      assert rows == [rows[0]] + rows[1..];
      InsertByDisplayOrder(rows[0], SortByDisplayOrder(rows[1..]))
  }

  /** Sorting a table with unique ids keeps them unique. */
  lemma {:induction false} SortKeepsUniqueIds(rows: seq<StateRow>)
    requires UniqueIds(rows)
    ensures UniqueIds(SortByDisplayOrder(rows))
  {
    if rows != [] {
      var tail := SortByDisplayOrder(rows[1..]);
      SortKeepsUniqueIds(rows[1..]);
      forall y | y in tail ensures y.id != rows[0].id {
        assert y in multiset(rows[1..]);
        var j :| 0 <= j < |rows[1..]| && rows[1..][j] == y;
        assert rows[j + 1] == y;
      }
      InsertKeepsUniqueIds(rows[0], tail);
    }
  }

  /** The listing query: every state once, deleted ones included, ordered by
      `displayOrder`, each with the grouped targets of its flow rows. */
  function ListStates(states: seq<StateRow>, flow: seq<FlowRow>): (r: seq<StateListing>)
    ensures |r| == |states|
    ensures multiset(StatesOf(r)) == multiset(states)
    ensures forall y :: y in StatesOf(r) <==> y in states
    ensures SortedByDisplayOrder(StatesOf(r))
    ensures forall k :: 0 <= k < |r| ==>
      r[k].availableNextStepIds == GroupConcat(Targets(flow, r[k].state.id))
  {
    var sorted := SortByDisplayOrder(states);
    assert |sorted| == |multiset(sorted)| == |states|;
    var r := seq(|sorted|, k requires 0 <= k < |sorted| =>
                 StateListing(sorted[k], GroupConcat(Targets(flow, sorted[k].id))));
    assert StatesOf(r) == sorted;
    assert forall y :: y in sorted <==> y in states by {
      forall y ensures y in sorted <==> y in states {
        assert y in sorted <==> y in multiset(sorted);
        assert y in states <==> y in multiset(states);
      }
    }
    r
  }

  function StatesOf(listing: seq<StateListing>): (rows: seq<StateRow>)
    ensures |rows| == |listing|
    ensures forall k :: 0 <= k < |listing| ==> rows[k] == listing[k].state
  {
    seq(|listing|, k requires 0 <= k < |listing| => listing[k].state)
  }

  /** The listing keeps the table's ids unique. */
  lemma ListingKeepsUniqueIds(states: seq<StateRow>, flow: seq<FlowRow>)
    requires UniqueIds(states)
    ensures UniqueIds(StatesOf(ListStates(states, flow)))
  {
    SortKeepsUniqueIds(states);
    assert StatesOf(ListStates(states, flow)) == SortByDisplayOrder(states);
  }

  /** `UPDATE ... SET name, alwaysAvailable, initialStep WHERE id = ?`. */
  function UpdateFields(rows: seq<StateRow>, id: int, name: string, alwaysAvailable: int,
                        initialStep: int): (r: seq<StateRow>)
    ensures |r| == |rows|
    ensures forall k :: 0 <= k < |rows| ==>
      r[k].id == rows[k].id && r[k].displayOrder == rows[k].displayOrder
      && r[k].isDeleted == rows[k].isDeleted
    ensures forall k :: 0 <= k < |rows| && rows[k].id != id ==> r[k] == rows[k]
    ensures forall k :: 0 <= k < |rows| && rows[k].id == id ==>
      r[k].name == name && r[k].alwaysAvailable == alwaysAvailable
      && r[k].initialStep == initialStep
  {
    seq(|rows|, k requires 0 <= k < |rows| =>
        if rows[k].id == id
        then rows[k].(name := name, alwaysAvailable := alwaysAvailable, initialStep := initialStep)
        else rows[k])
  }

  /** `UPDATE applicationStates SET isDeleted = 1 WHERE id = ?`. */
  function SoftDelete(rows: seq<StateRow>, id: int): (r: seq<StateRow>)
    ensures |r| == |rows|
    ensures forall k :: 0 <= k < |rows| ==> r[k] == rows[k].(isDeleted := r[k].isDeleted)
    ensures forall k :: 0 <= k < |rows| ==>
      r[k].isDeleted == if rows[k].id == id then 1 else rows[k].isDeleted
  {
    seq(|rows|, k requires 0 <= k < |rows| =>
        if rows[k].id == id then rows[k].(isDeleted := 1) else rows[k])
  }

  /** The display-order swap statement: the row `id1` gets `displayOrder2`,
      the row `id2` gets `displayOrder1` (the first `WHEN` wins when the
      ids are equal), every other row is left alone. */
  function SwapDisplayOrders(rows: seq<StateRow>, id1: int, id2: int,
                             displayOrder1: int, displayOrder2: int): (r: seq<StateRow>)
    ensures |r| == |rows|
    ensures forall k :: 0 <= k < |rows| ==> r[k] == rows[k].(displayOrder := r[k].displayOrder)
    ensures forall k :: 0 <= k < |rows| ==>
      r[k].displayOrder == (if rows[k].id == id1 then displayOrder2
                            else if rows[k].id == id2 then displayOrder1
                            else rows[k].displayOrder)
  {
    seq(|rows|, k requires 0 <= k < |rows| =>
        if rows[k].id == id1 then rows[k].(displayOrder := displayOrder2)
        else if rows[k].id == id2 then rows[k].(displayOrder := displayOrder1)
        else rows[k])
  }

  /** `DELETE FROM applicationFlow WHERE applicationStateId = ?`. */
  function RemoveBySource(flow: seq<FlowRow>, id: int): (r: seq<FlowRow>)
    ensures forall f: FlowRow :: f.applicationStateId == id ==> multiset(r)[f] == 0
    ensures forall f: FlowRow :: f.applicationStateId != id ==> multiset(r)[f] == multiset(flow)[f]
  {
    Filter(flow, (f: FlowRow) => f.applicationStateId != id)
  }

  /** `DELETE FROM applicationFlow WHERE nextApplicationStateId = ?`. */
  function RemoveByTarget(flow: seq<FlowRow>, id: int): (r: seq<FlowRow>)
    ensures forall f: FlowRow :: f.nextApplicationStateId == id ==> multiset(r)[f] == 0
    ensures forall f: FlowRow :: f.nextApplicationStateId != id ==> multiset(r)[f] == multiset(flow)[f]
  {
    Filter(flow, (f: FlowRow) => f.nextApplicationStateId != id)
  }

  class EventFlowTables {
    var applicationStates: seq<StateRow>
    var applicationFlow: seq<FlowRow>

    /** State ids are the table's primary key. */
    predicate Valid()
      reads this
    {
      UniqueIds(applicationStates)
    }

    constructor (states: seq<StateRow>, flow: seq<FlowRow>)
      requires UniqueIds(states)
      ensures Valid()
      ensures applicationStates == states && applicationFlow == flow
    {
      applicationStates := states;
      applicationFlow := flow;
    }

    /** `selectApplicationStates`. */
    function SelectApplicationStates(): seq<StateListing>
      reads this
    {
      ListStates(applicationStates, applicationFlow)
    }

    /** `insertApplicationState`: appends a live row after every existing
        display order and returns its id. */
    method InsertApplicationState(name: string, alwaysAvailable: int, initialStep: int)
      returns (id: int)
      requires Valid()
      modifies this
      ensures Valid()
      ensures id == NextId(old(applicationStates))
      ensures applicationStates == old(applicationStates)
        + [StateRow(id, name, MaxDisplayOrder(old(applicationStates)) + 1,
                    alwaysAvailable, initialStep, 0)]
      ensures applicationFlow == old(applicationFlow)
    {
      id := NextId(applicationStates);
      var row := StateRow(id, name, MaxDisplayOrder(applicationStates) + 1,
                          alwaysAvailable, initialStep, 0);
      assert row !in applicationStates;
      applicationStates := applicationStates + [row];
    }

    /** `updateApplicationState`: only the name and the two flags change. */
    method UpdateApplicationState(id: int, name: string, alwaysAvailable: int, initialStep: int)
      modifies this
      ensures applicationStates
        == UpdateFields(old(applicationStates), id, name, alwaysAvailable, initialStep)
      ensures applicationFlow == old(applicationFlow)
      ensures old(Valid()) ==> Valid()
    {
      applicationStates := UpdateFields(applicationStates, id, name, alwaysAvailable, initialStep);
    }

    /** `deleteApplicationState`: a soft delete. */
    method DeleteApplicationState(id: int)
      modifies this
      ensures applicationStates == SoftDelete(old(applicationStates), id)
      ensures applicationFlow == old(applicationFlow)
      ensures old(Valid()) ==> Valid()
    {
      applicationStates := SoftDelete(applicationStates, id);
    }

    /** `removeApplicationStateFromFlowById`: drops the state's outgoing edges. */
    method RemoveApplicationStateFromFlowById(id: int)
      modifies this
      ensures applicationFlow == RemoveBySource(old(applicationFlow), id)
      ensures applicationStates == old(applicationStates)
    {
      applicationFlow := RemoveBySource(applicationFlow, id);
    }

    /** `removeApplicationStateFromFlowByNextStepId`: drops the edges into the state. */
    method RemoveApplicationStateFromFlowByNextStepId(id: int)
      modifies this
      ensures applicationFlow == RemoveByTarget(old(applicationFlow), id)
      ensures applicationStates == old(applicationStates)
    {
      applicationFlow := RemoveByTarget(applicationFlow, id);
    }

    /** `insertApplicationFlow`: one more edge, duplicates allowed. */
    method InsertApplicationFlow(applicationStepId: int, nextStepId: int)
      modifies this
      ensures applicationFlow == old(applicationFlow) + [FlowRow(applicationStepId, nextStepId)]
      ensures applicationStates == old(applicationStates)
    {
      applicationFlow := applicationFlow + [FlowRow(applicationStepId, nextStepId)];
    }

    /** `swapDisplayOrderOfApplicationStates`. */
    method SwapDisplayOrderOfApplicationStates(id1: int, id2: int,
                                               displayOrder1: int, displayOrder2: int)
      modifies this
      ensures applicationStates
        == SwapDisplayOrders(old(applicationStates), id1, id2, displayOrder1, displayOrder2)
      ensures applicationFlow == old(applicationFlow)
      ensures old(Valid()) ==> Valid()
    {
      applicationStates := SwapDisplayOrders(applicationStates, id1, id2,
                                             displayOrder1, displayOrder2);
    }
  }

  /** The order of a state row, if the table has one with that id. */
  function OrderOf(rows: seq<StateRow>, id: int): Option<int> {
    if rows == [] then None
    else if rows[0].id == id then Some(rows[0].displayOrder)
    else OrderOf(rows[1..], id)
  }

  /** When the caller passes the orders the two rows really have, the swap
      exchanges them; and swapping back with the new orders restores the table. */
  lemma {:induction false} SwapIsExchange(rows: seq<StateRow>, id1: int, id2: int,
                                          displayOrder1: int, displayOrder2: int)
    requires UniqueIds(rows) && id1 != id2
    requires OrderOf(rows, id1) == Some(displayOrder1)
    requires OrderOf(rows, id2) == Some(displayOrder2)
    ensures OrderOf(SwapDisplayOrders(rows, id1, id2, displayOrder1, displayOrder2), id1)
            == Some(displayOrder2)
    ensures OrderOf(SwapDisplayOrders(rows, id1, id2, displayOrder1, displayOrder2), id2)
            == Some(displayOrder1)
    ensures SwapDisplayOrders(SwapDisplayOrders(rows, id1, id2, displayOrder1, displayOrder2),
                              id1, id2, displayOrder2, displayOrder1) == rows
  {
    var once := SwapDisplayOrders(rows, id1, id2, displayOrder1, displayOrder2);
    OrderOfSwapped(rows, id1, id1, id2, displayOrder1, displayOrder2);
    OrderOfSwapped(rows, id2, id1, id2, displayOrder1, displayOrder2);
    var twice := SwapDisplayOrders(once, id1, id2, displayOrder2, displayOrder1);
    forall k | 0 <= k < |rows| ensures twice[k] == rows[k] {
      if rows[k].id == id1 {
        OrderOfAt(rows, k);
      } else if rows[k].id == id2 {
        OrderOfAt(rows, k);
      }
    }
  }

  lemma {:induction false} OrderOfAt(rows: seq<StateRow>, k: nat)
    requires UniqueIds(rows) && k < |rows|
    ensures OrderOf(rows, rows[k].id) == Some(rows[k].displayOrder)
  {
    if k > 0 {
      OrderOfAt(rows[1..], k - 1);
    }
  }

  lemma {:induction false} OrderOfSwapped(rows: seq<StateRow>, id: int, id1: int, id2: int,
                                          displayOrder1: int, displayOrder2: int)
    requires OrderOf(rows, id).Some?
    ensures OrderOf(SwapDisplayOrders(rows, id1, id2, displayOrder1, displayOrder2), id)
            == Some(if id == id1 then displayOrder2 else if id == id2 then displayOrder1
                    else OrderOf(rows, id).value)
  {
    var r := SwapDisplayOrders(rows, id1, id2, displayOrder1, displayOrder2);
    if rows[0].id != id {
      assert r[1..] == SwapDisplayOrders(rows[1..], id1, id2, displayOrder1, displayOrder2);
      OrderOfSwapped(rows[1..], id, id1, id2, displayOrder1, displayOrder2);
    }
  }

  /** Deleting is final and repeatable: a second delete changes nothing, and
      no row moves or loses its display order. */
  lemma SoftDeleteIdempotent(rows: seq<StateRow>, id: int)
    ensures SoftDelete(SoftDelete(rows, id), id) == SoftDelete(rows, id)
  {
  }

  /** A freshly inserted state comes after every existing one in the listing order. */
  lemma InsertedStateIsLast(rows: seq<StateRow>, name: string, alwaysAvailable: int,
                            initialStep: int)
    ensures var row := StateRow(NextId(rows), name, MaxDisplayOrder(rows) + 1,
                                alwaysAvailable, initialStep, 0);
            forall r :: r in rows ==> r.displayOrder < row.displayOrder && r.id != row.id
  {
  }
}
