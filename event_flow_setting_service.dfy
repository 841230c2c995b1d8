/** The event-flow setting service: the configurable state machine of
    application states. It reads the listing query into the event-flow map
    (each state with the next steps an application in it may take), validates
    and sanitizes the settings form, and creates, updates, soft-deletes and
    reorders states. */
module EventFlowSettingService {
  import opened Common
  import opened CommaList
  import opened EventFlowPersistence
  import opened SankeyNodePersistence

  /** A state with its usable next steps: `{...applicationState, availableNextStepIds}`. */
  datatype EventFlowEntry = EventFlowEntry(state: StateRow, availableNextStepIds: seq<int>)

  /** The settings form: a missing field is `None`. */
  datatype StateInput = StateInput(
    name: Option<string>,
    alwaysAvailable: Option<int>,
    initialStep: Option<int>,
    availableNextStepIds: Option<seq<int>>)

  /** The form after `sanitize`. */
  datatype SanitizedState = SanitizedState(
    name: string,
    alwaysAvailable: int,
    initialStep: int,
    availableNextStepIds: seq<int>)

  /** The arguments of a reorder request. */
  datatype SwapArgs = SwapArgs(id1: int, id2: int, displayOrder1: int, displayOrder2: int)

  // ---------------------------------------------------------------------
  // Building the event-flow map
  // ---------------------------------------------------------------------

  /** `applicationStateMap.get(id)`: the map is filled in listing order, so a
      later row with the same id overwrites an earlier one. */
  function LookupState(listing: seq<StateListing>, id: int): (r: Option<StateRow>)
    ensures r.None? <==> forall k :: 0 <= k < |listing| ==> listing[k].state.id != id
    ensures r.Some? ==>
      (r.value.id == id
       && exists k :: 0 <= k < |listing| && listing[k].state == r.value
            && forall j :: k < j < |listing| ==> listing[j].state.id != id)
  {
    if listing == [] then None
    else if listing[|listing| - 1].state.id == id then Some(listing[|listing| - 1].state)
    else LookupState(listing[..|listing| - 1], id)
  }

  /** The filter on next steps: a known state that is not deleted. */
  predicate UsableNextStep(listing: seq<StateListing>, id: int) {
    var s := LookupState(listing, id);
    s.Some? && s.value.isDeleted == 0
  }

  /** The parsed next-step column, keeping the usable ids in column order. */
  function NextStepsOf(listing: seq<StateListing>, column: Option<string>): (ids: seq<int>)
    requires WellFormedIdList(column)
    ensures forall n :: n in ids <==> n in ParseIdList(column) && UsableNextStep(listing, n)
  {
    var parsed := ParseIdList(column);
    var ids := Filter(parsed, (n: int) => UsableNextStep(listing, n));
    assert forall n :: n in ids <==> n in parsed && UsableNextStep(listing, n) by {
      forall n ensures n in ids <==> n in parsed && UsableNextStep(listing, n) {
        assert n in ids <==> n in multiset(ids);
        assert n in parsed <==> n in multiset(parsed);
      }
    }
    ids
  }

  function ProcessApplicationStates(listing: seq<StateListing>): (entries: seq<EventFlowEntry>)
    requires forall k :: 0 <= k < |listing| ==> WellFormedIdList(listing[k].availableNextStepIds)
    ensures |entries| == |listing|
    ensures forall k :: 0 <= k < |listing| ==> entries[k].state == listing[k].state
  {
    seq(|listing|, k requires 0 <= k < |listing| =>
        EventFlowEntry(listing[k].state, NextStepsOf(listing, listing[k].availableNextStepIds)))
  }

  /** Every grouped column of the listing parses. */
  lemma ListingWellFormed(states: seq<StateRow>, flow: seq<FlowRow>)
    ensures var listing := ListStates(states, flow);
      forall k :: 0 <= k < |listing| ==> WellFormedIdList(listing[k].availableNextStepIds)
  {
    var listing := ListStates(states, flow);
    forall k | 0 <= k < |listing|
      ensures WellFormedIdList(listing[k].availableNextStepIds)
    {
      ParseGroupConcat(Targets(flow, listing[k].state.id));
    }
  }

  /** The event-flow map of the two tables. */
  function EventFlowMapOf(states: seq<StateRow>, flow: seq<FlowRow>): seq<EventFlowEntry> {
    ListingWellFormed(states, flow);
    ProcessApplicationStates(ListStates(states, flow))
  }

  /** `getEventFlowMap`: one entry per state row of the table, each for a
      row of the table, in display order. */
  function GetEventFlowMap(t: EventFlowTables): (m: seq<EventFlowEntry>)
    reads t
    ensures |m| == |t.applicationStates|
    ensures forall k :: 0 <= k < |m| ==> m[k].state in t.applicationStates
    ensures forall i, j :: 0 <= i < j < |m| ==> m[i].state.displayOrder <= m[j].state.displayOrder
  {
    EventFlowMapRows(t.applicationStates, t.applicationFlow);
    EventFlowMapSorted(t.applicationStates, t.applicationFlow);
    EventFlowMapOf(t.applicationStates, t.applicationFlow)
  }

  /** The map has one entry per state row, each for a row of the table. */
  lemma EventFlowMapRows(states: seq<StateRow>, flow: seq<FlowRow>)
    ensures var m := EventFlowMapOf(states, flow);
      |m| == |states| && forall k :: 0 <= k < |m| ==> m[k].state in states
  {
    var listing := ListStates(states, flow);
    var m := EventFlowMapOf(states, flow);
    forall k | 0 <= k < |m| ensures m[k].state in states {
      assert m[k].state == StatesOf(listing)[k];
      assert StatesOf(listing)[k] in StatesOf(listing);
    }
  }

  /** A state row with this id exists and is not deleted. */
  predicate Live(states: seq<StateRow>, id: int) {
    exists r :: r in states && r.id == id && r.isDeleted == 0
  }

  predicate UniqueEntryIds(entries: seq<EventFlowEntry>) {
    forall i, j :: 0 <= i < j < |entries| ==> entries[i].state.id != entries[j].state.id
  }

  lemma SameIdSameRow(rows: seq<StateRow>, a: StateRow, b: StateRow)
    requires UniqueIds(rows) && a in rows && b in rows && a.id == b.id
    ensures a == b
  {
    var i :| 0 <= i < |rows| && rows[i] == a;
    var j :| 0 <= j < |rows| && rows[j] == b;
    assert i == j;
  }

  /** The map lists the states in the listing's display order. */
  lemma EventFlowMapSorted(states: seq<StateRow>, flow: seq<FlowRow>)
    ensures var m := EventFlowMapOf(states, flow);
      forall i, j :: 0 <= i < j < |m| ==> m[i].state.displayOrder <= m[j].state.displayOrder
  {
    var listing := ListStates(states, flow);
    var m := EventFlowMapOf(states, flow);
    assert forall k :: 0 <= k < |m| ==> m[k].state == StatesOf(listing)[k];
    assert SortedByDisplayOrder(StatesOf(listing));
  }

  /** The map holds every state row once, deleted ones included, ordered
      by display order. */
  lemma EventFlowMapStates(states: seq<StateRow>, flow: seq<FlowRow>)
    requires UniqueIds(states)
    ensures var m := EventFlowMapOf(states, flow);
      |m| == |states|
      && UniqueEntryIds(m)
      && (forall e :: e in m ==> e.state in states)
      && (forall y :: y in states ==> exists k :: 0 <= k < |m| && m[k].state == y)
      && (forall i, j :: 0 <= i < j < |m| ==> m[i].state.displayOrder <= m[j].state.displayOrder)
  {
    var m := EventFlowMapOf(states, flow);
    EventFlowMapRows(states, flow);
    EventFlowMapSorted(states, flow);
    EventFlowMapCovers(states, flow);
    EventFlowMapUnique(states, flow);
    forall e | e in m ensures e.state in states {
      var k :| 0 <= k < |m| && m[k] == e;
    }
  }

  /** Every state row of the table has an entry. */
  lemma EventFlowMapCovers(states: seq<StateRow>, flow: seq<FlowRow>)
    ensures var m := EventFlowMapOf(states, flow);
      forall y :: y in states ==> exists k :: 0 <= k < |m| && m[k].state == y
  {
    var listing := ListStates(states, flow);
    var m := EventFlowMapOf(states, flow);
    forall y | y in states ensures exists k :: 0 <= k < |m| && m[k].state == y {
      assert y in StatesOf(listing);
      var k :| 0 <= k < |listing| && StatesOf(listing)[k] == y;
      assert m[k].state == y;
    }
  }

  /** Unique ids in the table give unique ids in the map. */
  lemma EventFlowMapUnique(states: seq<StateRow>, flow: seq<FlowRow>)
    requires UniqueIds(states)
    ensures UniqueEntryIds(EventFlowMapOf(states, flow))
  {
    var listing := ListStates(states, flow);
    var m := EventFlowMapOf(states, flow);
    ListingKeepsUniqueIds(states, flow);
    assert forall k :: 0 <= k < |m| ==> m[k].state == StatesOf(listing)[k];
  }

  lemma StateInMap(states: seq<StateRow>, flow: seq<FlowRow>, y: StateRow)
    requires UniqueIds(states) && y in states
    ensures exists k :: 0 <= k < |EventFlowMapOf(states, flow)| && EventFlowMapOf(states, flow)[k].state == y
  {
    EventFlowMapStates(states, flow);
  }

  /** The map's filter on next steps is liveness in the table. */
  lemma UsableIsLive(states: seq<StateRow>, flow: seq<FlowRow>, n: int)
    requires UniqueIds(states)
    ensures UsableNextStep(ListStates(states, flow), n) <==> Live(states, n)
  {
    var listing := ListStates(states, flow);
    var s := LookupState(listing, n);
    if s.Some? {
      var k :| 0 <= k < |listing| && listing[k].state == s.value;
      assert s.value == StatesOf(listing)[k];
      assert s.value in states;
      if Live(states, n) {
        var r :| r in states && r.id == n && r.isDeleted == 0;
        SameIdSameRow(states, r, s.value);
      }
    }
  }

  /** The next steps of a state in the map are exactly the targets of its
      flow rows that name an existing, not deleted state. */
  lemma EventFlowMapNextSteps(states: seq<StateRow>, flow: seq<FlowRow>)
    requires UniqueIds(states)
    ensures var m := EventFlowMapOf(states, flow);
      forall k, n :: 0 <= k < |m| ==>
        (n in m[k].availableNextStepIds
         <==> FlowRow(m[k].state.id, n) in flow && Live(states, n))
  {
    forall k, n | 0 <= k < |EventFlowMapOf(states, flow)|
      ensures var e := EventFlowMapOf(states, flow)[k];
        n in e.availableNextStepIds <==> FlowRow(e.state.id, n) in flow && Live(states, n)
    {
      NextStepAt(states, flow, k, n);
    }
  }

  lemma NextStepAt(states: seq<StateRow>, flow: seq<FlowRow>, k: int, n: int)
    requires UniqueIds(states)
    requires 0 <= k < |EventFlowMapOf(states, flow)|
    ensures var e := EventFlowMapOf(states, flow)[k];
      n in e.availableNextStepIds <==> FlowRow(e.state.id, n) in flow && Live(states, n)
  {
    var listing := ListStates(states, flow);
    ListingWellFormed(states, flow);
    var e := ProcessApplicationStates(listing)[k];
    assert e.availableNextStepIds == NextStepsOf(listing, listing[k].availableNextStepIds);
    UsableIsLive(states, flow, n);
    ParseGroupConcat(Targets(flow, listing[k].state.id));
  }

  // ---------------------------------------------------------------------
  // Validation and sanitizing
  // ---------------------------------------------------------------------

  /** `eventFlowMap.find((e) => e.id === id)`: the first entry with the id. */
  function FindEntry(entries: seq<EventFlowEntry>, id: int): (r: Option<EventFlowEntry>)
    ensures r.None? <==> forall k :: 0 <= k < |entries| ==> entries[k].state.id != id
    ensures r.Some? ==>
      (r.value.state.id == id
       && exists k :: 0 <= k < |entries| && entries[k] == r.value
            && forall j :: 0 <= j < k ==> entries[j].state.id != id)
  {
    if entries == [] then None
    else if entries[0].state.id == id then Some(entries[0])
    else
      var r := FindEntry(entries[1..], id);
      if r.Some? then
        var k :| 0 <= k < |entries[1..]| && entries[1..][k] == r.value
          && forall j :: 0 <= j < k ==> entries[1..][j].state.id != id;
        assert entries[k + 1] == r.value;
        r
      else r
  }

  /** The complaint `validate` raises for one next-step id, if any. */
  function NextStepFailure(entries: seq<EventFlowEntry>, id: int): (f: Option<Failure>)
    ensures f.None? <==> FindEntry(entries, id).Some? && FindEntry(entries, id).value.state.isDeleted == 0
    ensures FindEntry(entries, id).None?
            ==> f == Some(Thrown("Application state with id " + IntToString(id) + " not found"))
    ensures FindEntry(entries, id).Some? && FindEntry(entries, id).value.state.isDeleted != 0
            ==> f == Some(Thrown("Application state with id " + IntToString(id) + " is deleted"))
  {
    var e := FindEntry(entries, id);
    if e.None? then Some(Thrown("Application state with id " + IntToString(id) + " not found"))
    else if e.value.state.isDeleted != 0 then
      Some(Thrown("Application state with id " + IntToString(id) + " is deleted"))
    else None
  }

  /** The `forEach` over next steps: the first failing id decides the error. */
  function CheckNextSteps(entries: seq<EventFlowEntry>, ids: seq<int>): (f: Option<Failure>)
    ensures f.None? <==> forall i :: 0 <= i < |ids| ==> NextStepFailure(entries, ids[i]).None?
    ensures f.Some? ==>
      exists i :: 0 <= i < |ids| && f == NextStepFailure(entries, ids[i])
        && forall j :: 0 <= j < i ==> NextStepFailure(entries, ids[j]).None?
  {
    if ids == [] then None
    else
      var head := NextStepFailure(entries, ids[0]);
      if head.Some? then head
      else
        var f := CheckNextSteps(entries, ids[1..]);
        if f.Some? then
          var i :| 0 <= i < |ids[1..]| && f == NextStepFailure(entries, ids[1..][i])
            && forall j :: 0 <= j < i ==> NextStepFailure(entries, ids[1..][j]).None?;
          assert ids[i + 1] == ids[1..][i];
          assert forall j :: 1 <= j < i + 1 ==> ids[j] == ids[1..][j - 1];
          f
        else f
  }

  /** `input.x || 0`. */
  function OrZero(x: Option<int>): (r: int)
    ensures TruthyId(x) ==> r == x.value
    ensures !TruthyId(x) ==> r == 0
  {
    if TruthyId(x) then x.value else 0
  }

  /** `validateAndSanitizeApplicationState`: a name is required, and every
      next step must be a state of the map that is not deleted; a missing
      next-step list fails when `forEach` is read from it. The name is
      trimmed after validation, so a blank name passes as the empty name. */
  function ValidateAndSanitizeApplicationState(input: StateInput, entries: seq<EventFlowEntry>)
    : (r: Result<SanitizedState>)
    ensures r.Ok? <==>
      (Present(input.name) && input.availableNextStepIds.Some?
       && forall n :: n in input.availableNextStepIds.value ==> NextStepFailure(entries, n).None?)
    ensures !Present(input.name) ==> r == Err(Thrown("Application state name is required"))
    ensures Present(input.name) && input.availableNextStepIds.None?
            ==> r == Err(TypeError("forEach"))
    ensures Present(input.name) && input.availableNextStepIds.Some? && r.Err? ==>
      var ids := input.availableNextStepIds.value;
      exists i :: 0 <= i < |ids| && Some(r.failure) == NextStepFailure(entries, ids[i])
        && forall j :: 0 <= j < i ==> NextStepFailure(entries, ids[j]).None?
    ensures r.Ok? ==> r.value == SanitizedState(Trim(input.name.value),
      OrZero(input.alwaysAvailable), OrZero(input.initialStep), input.availableNextStepIds.value)
  {
    if !Present(input.name) then Err(Thrown("Application state name is required"))
    else if input.availableNextStepIds.None? then Err(TypeError("forEach"))
    else
      var ids := input.availableNextStepIds.value;
      var f := CheckNextSteps(entries, ids);
      if f.Some? then Err(f.value)
      else
        assert forall n :: n in ids ==> NextStepFailure(entries, n).None? by {
          forall n | n in ids ensures NextStepFailure(entries, n).None? {
            var i :| 0 <= i < |ids| && ids[i] == n;
          }
        }
        Ok(SanitizedState(Trim(input.name.value), OrZero(input.alwaysAvailable),
                          OrZero(input.initialStep), ids))
  }

  /** The next steps a validated form names are live states of the tables. */
  lemma ValidatedNextStepsAreLive(input: StateInput, states: seq<StateRow>, flow: seq<FlowRow>)
    requires UniqueIds(states)
    requires ValidateAndSanitizeApplicationState(input, EventFlowMapOf(states, flow)).Ok?
    ensures forall n :: n in input.availableNextStepIds.value ==> Live(states, n)
  {
    var m := EventFlowMapOf(states, flow);
    EventFlowMapStates(states, flow);
    forall n | n in input.availableNextStepIds.value ensures Live(states, n) {
      assert NextStepFailure(m, n).None?;
      var e := FindEntry(m, n).value;
      assert e in m;
      assert e.state in states;
    }
  }

  /** A blank name passes validation and is stored empty. */
  lemma BlankNameAccepted(entries: seq<EventFlowEntry>)
    ensures ValidateAndSanitizeApplicationState(StateInput(Some(" "), None, None, Some([])), entries)
            == Ok(SanitizedState("", 0, 0, []))
  {
    assert Trim(" ") == "" by {
      assert AllWhitespace(" ");
    }
  }

  // ---------------------------------------------------------------------
  // The service operations
  // ---------------------------------------------------------------------

  /** The flow rows `insertApplicationFlow` adds for a list of next steps. */
  function FlowRowsFrom(from: int, ids: seq<int>): (rows: seq<FlowRow>)
    ensures |rows| == |ids|
    ensures forall k :: 0 <= k < |ids| ==> rows[k] == FlowRow(from, ids[k])
  {
    seq(|ids|, k requires 0 <= k < |ids| => FlowRow(from, ids[k]))
  }

  /** Adds one flow row per next step, in list order. */
  method InsertFlowRows(t: EventFlowTables, from: int, ids: seq<int>)
    modifies t
    ensures t.applicationFlow == old(t.applicationFlow) + FlowRowsFrom(from, ids)
    ensures t.applicationStates == old(t.applicationStates)
  {
    var i := 0;
    while i < |ids|
      invariant 0 <= i <= |ids|
      invariant t.applicationFlow == old(t.applicationFlow) + FlowRowsFrom(from, ids[..i])
      invariant t.applicationStates == old(t.applicationStates)
    {
      t.InsertApplicationFlow(from, ids[i]);
      assert FlowRowsFrom(from, ids[..i + 1]) == FlowRowsFrom(from, ids[..i]) + [FlowRow(from, ids[i])];
      i := i + 1;
    }
    assert ids[..i] == ids;
  }

  /** The writes of `createApplicationState` once the form is sanitized. */
  method InsertSanitizedState(t: EventFlowTables, s: SanitizedState)
    requires t.Valid()
    modifies t
    ensures t.Valid()
    ensures t.applicationStates == old(t.applicationStates) + [CreatedRow(old(t.applicationStates), s)]
    ensures t.applicationFlow
            == old(t.applicationFlow) + FlowRowsFrom(NextId(old(t.applicationStates)), s.availableNextStepIds)
  {
    var id := t.InsertApplicationState(s.name, s.alwaysAvailable, s.initialStep);
    InsertFlowRows(t, id, s.availableNextStepIds);
  }

  /** `createApplicationState`: a new live state after every display order,
      with one flow row per next step; the result is the new map. */
  method CreateApplicationState(t: EventFlowTables, input: StateInput)
    returns (r: Result<seq<EventFlowEntry>>)
    requires t.Valid()
    modifies t
    ensures t.Valid()
    ensures var v := ValidateAndSanitizeApplicationState(input, old(GetEventFlowMap(t)));
      (v.Err? ==> r == Err(v.failure) && unchanged(t))
      && (v.Ok? ==>
            var id := NextId(old(t.applicationStates));
            t.applicationStates == old(t.applicationStates) + [CreatedRow(old(t.applicationStates), v.value)]
            && t.applicationFlow == old(t.applicationFlow) + FlowRowsFrom(id, v.value.availableNextStepIds)
            && r == Ok(GetEventFlowMap(t)))
  {
    var v := ValidateAndSanitizeApplicationState(input, GetEventFlowMap(t));
    if v.Err? {
      return Err(v.failure);
    }
    InsertSanitizedState(t, v.value);
    r := Ok(GetEventFlowMap(t));
  }

  /** `updateApplicationState`: the name and flags change and the state's
      outgoing edges are replaced by the form's next steps. */
  method UpdateApplicationState(t: EventFlowTables, id: Option<int>, input: StateInput)
    returns (r: Result<seq<EventFlowEntry>>)
    requires t.Valid()
    modifies t
    ensures t.Valid()
    ensures !TruthyId(id) ==> r == Err(Thrown("Application state id is required")) && unchanged(t)
    ensures TruthyId(id) ==>
      var v := ValidateAndSanitizeApplicationState(input, old(GetEventFlowMap(t)));
      (v.Err? ==> r == Err(v.failure) && unchanged(t))
      && (v.Ok? ==>
            t.applicationStates == UpdateFields(old(t.applicationStates), id.value, v.value.name,
                                                v.value.alwaysAvailable, v.value.initialStep)
            && t.applicationFlow == RemoveBySource(old(t.applicationFlow), id.value)
                                    + FlowRowsFrom(id.value, v.value.availableNextStepIds)
            && r == Ok(GetEventFlowMap(t)))
  {
    if !TruthyId(id) {
      return Err(Thrown("Application state id is required"));
    }
    var v := ValidateAndSanitizeApplicationState(input, GetEventFlowMap(t));
    if v.Err? {
      return Err(v.failure);
    }
    var s := v.value;
    t.UpdateApplicationState(id.value, s.name, s.alwaysAvailable, s.initialStep);
    t.RemoveApplicationStateFromFlowById(id.value);
    InsertFlowRows(t, id.value, s.availableNextStepIds);
    r := Ok(GetEventFlowMap(t));
  }

  predicate ActiveInitial(row: StateRow) {
    row.initialStep == 1 && row.isDeleted == 0
  }

  /** Some live state is an initial step. */
  predicate HasActiveInitial(rows: seq<StateRow>) {
    exists row :: row in rows && ActiveInitial(row)
  }

  /** The entries `deleteApplicationState` counts as initial states. */
  function InitialEntries(entries: seq<EventFlowEntry>): seq<EventFlowEntry> {
    Filter(entries, (e: EventFlowEntry) => ActiveInitial(e.state))
  }

  /** The guard of `deleteApplicationState`: the state is the one initial state. */
  predicate DeleteRefused(entries: seq<EventFlowEntry>, id: int) {
    var initial := InitialEntries(entries);
    |initial| == 1 && initial[0].state.id == id
  }

  /** `deleteApplicationState`: refuses to delete the only live initial
      state; otherwise soft-deletes the state, removes the flow rows into it
      and its sankey links. No successful delete leaves the machine without
      a live initial state that had one. */
  method DeleteApplicationState(t: EventFlowTables, nodes: SankeyNodeTables, id: Option<int>)
    returns (r: Result<seq<EventFlowEntry>>)
    requires t.Valid()
    modifies t, nodes
    ensures t.Valid()
    ensures !TruthyId(id) ==> r == Err(Thrown("Application state id is required"))
                              && unchanged(t) && unchanged(nodes)
    ensures TruthyId(id) && DeleteRefused(old(GetEventFlowMap(t)), id.value) ==>
      r == Err(Thrown("Cannot delete the only initial application state"))
      && unchanged(t) && unchanged(nodes)
    ensures TruthyId(id) && !DeleteRefused(old(GetEventFlowMap(t)), id.value) ==>
      t.applicationStates == SoftDelete(old(t.applicationStates), id.value)
      && t.applicationFlow == RemoveByTarget(old(t.applicationFlow), id.value)
      && nodes.sankeyLinks == RemoveLinksOfState(old(nodes.sankeyLinks), id.value)
      && nodes.sankeyNodes == old(nodes.sankeyNodes)
      && r == Ok(GetEventFlowMap(t))
    ensures old(HasActiveInitial(t.applicationStates)) ==> HasActiveInitial(t.applicationStates)
  {
    if !TruthyId(id) {
      return Err(Thrown("Application state id is required"));
    }
    var entries := GetEventFlowMap(t);
    if DeleteRefused(entries, id.value) {
      return Err(Thrown("Cannot delete the only initial application state"));
    }
    if HasActiveInitial(t.applicationStates) {
      DeleteGuardIsExact(t.applicationStates, t.applicationFlow, id.value);
    }
    t.DeleteApplicationState(id.value);
    t.RemoveApplicationStateFromFlowByNextStepId(id.value);
    nodes.DeleteSankeyLinksByApplicationStateId(id.value);
    r := Ok(GetEventFlowMap(t));
  }

  /** `swapOrderOfApplicationStates`. */
  method SwapOrderOfApplicationStates(t: EventFlowTables, args: SwapArgs)
    returns (r: seq<EventFlowEntry>)
    requires t.Valid()
    modifies t
    ensures t.Valid()
    ensures t.applicationStates == SwapDisplayOrders(old(t.applicationStates), args.id1, args.id2,
                                                     args.displayOrder1, args.displayOrder2)
    ensures t.applicationFlow == old(t.applicationFlow)
    ensures r == GetEventFlowMap(t)
  {
    t.SwapDisplayOrderOfApplicationStates(args.id1, args.id2, args.displayOrder1, args.displayOrder2);
    r := GetEventFlowMap(t);
  }

  // ---------------------------------------------------------------------
  // Properties of the operations
  // ---------------------------------------------------------------------

  lemma {:induction false} UniqueEntriesOnce(m: seq<EventFlowEntry>, x: EventFlowEntry)
    requires UniqueEntryIds(m)
    ensures multiset(m)[x] <= 1
  {
    if m != [] {
      assert m == [m[0]] + m[1..];
      UniqueEntriesOnce(m[1..], x);
    }
  }

  /** A row with another id survives the soft delete unchanged. */
  lemma SurvivesSoftDelete(states: seq<StateRow>, row: StateRow, id: int)
    requires row in states && ActiveInitial(row) && row.id != id
    ensures HasActiveInitial(SoftDelete(states, id))
  {
    var k :| 0 <= k < |states| && states[k] == row;
    assert SoftDelete(states, id)[k] == row;
  }

  /** The delete guard is exact: when the tables have a live initial state,
      a delete is refused precisely when it would leave none. */
  lemma DeleteGuardIsExact(states: seq<StateRow>, flow: seq<FlowRow>, id: int)
    requires UniqueIds(states) && HasActiveInitial(states)
    ensures DeleteRefused(EventFlowMapOf(states, flow), id)
            <==> !HasActiveInitial(SoftDelete(states, id))
  {
    var m := EventFlowMapOf(states, flow);
    EventFlowMapStates(states, flow);
    InitialEntriesMembership(m);
    if DeleteRefused(m, id) {
      RefusedLeavesNone(states, m, id);
    } else {
      AllowedLeavesOne(states, m, id);
    }
  }

  lemma InitialEntriesMembership(m: seq<EventFlowEntry>)
    ensures forall e :: e in InitialEntries(m) <==> e in m && ActiveInitial(e.state)
  {
    var initial := InitialEntries(m);
    forall e ensures e in initial <==> e in m && ActiveInitial(e.state) {
      assert e in initial <==> e in multiset(initial);
      assert e in m <==> e in multiset(m);
    }
  }

  /** When the map has every row once, two initial entries have two ids. */
  lemma InitialEntriesDistinct(m: seq<EventFlowEntry>)
    requires UniqueEntryIds(m) && |InitialEntries(m)| >= 2
    ensures InitialEntries(m)[0].state.id != InitialEntries(m)[1].state.id
  {
    var initial := InitialEntries(m);
    var a, b := initial[0], initial[1];
    InitialEntriesMembership(m);
    if a.state.id == b.state.id {
      assert a in initial && b in initial;
      var ia :| 0 <= ia < |m| && m[ia] == a;
      var ib :| 0 <= ib < |m| && m[ib] == b;
      assert ia == ib;
      assert initial == [a, a] + initial[2..];
      assert multiset(initial)[a] >= 2;
      UniqueEntriesOnce(m, a);
      assert false;
    }
  }

  lemma RefusedLeavesNone(states: seq<StateRow>, m: seq<EventFlowEntry>, id: int)
    requires forall y :: y in states ==> exists k :: 0 <= k < |m| && m[k].state == y
    requires forall e :: e in InitialEntries(m) <==> e in m && ActiveInitial(e.state)
    requires DeleteRefused(m, id)
    ensures !HasActiveInitial(SoftDelete(states, id))
  {
    var initial := InitialEntries(m);
    var after := SoftDelete(states, id);
    forall k | 0 <= k < |states| ensures !ActiveInitial(after[k]) {
      assert states[k] in states;
      var j :| 0 <= j < |m| && m[j].state == states[k];
      assert m[j] in m;
      assert ActiveInitial(states[k]) ==> m[j] == initial[0];
    }
  }

  lemma AllowedLeavesOne(states: seq<StateRow>, m: seq<EventFlowEntry>, id: int)
    requires HasActiveInitial(states) && UniqueEntryIds(m)
    requires forall e :: e in m ==> e.state in states
    requires forall y :: y in states ==> exists k :: 0 <= k < |m| && m[k].state == y
    requires forall e :: e in InitialEntries(m) <==> e in m && ActiveInitial(e.state)
    requires !DeleteRefused(m, id)
    ensures HasActiveInitial(SoftDelete(states, id))
  {
    var initial := InitialEntries(m);
    var row :| row in states && ActiveInitial(row);
    if row.id != id {
      SurvivesSoftDelete(states, row, id);
    } else {
      var j :| 0 <= j < |m| && m[j].state == row;
      assert m[j] in m;
      assert m[j] in initial;
      if |initial| == 1 {
        assert initial[0] in initial;
        assert initial[0].state in states;
        SurvivesSoftDelete(states, initial[0].state, id);
      } else {
        InitialEntriesDistinct(m);
        var other := if initial[0].state.id != id then initial[0] else initial[1];
        assert other in initial;
        assert other.state in states;
        SurvivesSoftDelete(states, other.state, id);
      }
    }
  }

  /** The edges out of `id` after appending `FlowRowsFrom(id, ids)` to a
      flow with none are the ids. */
  lemma FlowRowsFromEdges(flow: seq<FlowRow>, id: int, ids: seq<int>)
    requires forall f :: f in flow ==> f.applicationStateId != id
    ensures forall n :: FlowRow(id, n) in flow + FlowRowsFrom(id, ids) <==> n in ids
  {
    var flow' := flow + FlowRowsFrom(id, ids);
    forall n ensures FlowRow(id, n) in flow' <==> n in ids {
      if n in ids {
        var i :| 0 <= i < |ids| && ids[i] == n;
        assert flow'[|flow| + i] == FlowRow(id, n);
      }
      if FlowRow(id, n) in flow' {
        var i :| 0 <= i < |flow'| && flow'[i] == FlowRow(id, n);
        if i >= |flow| {
          assert ids[i - |flow|] == n;
        }
      }
    }
  }

  /** No edge leaves `id` once `removeApplicationStateFromFlowById` ran. */
  lemma RemovedBySourceHasNoEdge(flow: seq<FlowRow>, id: int)
    ensures forall f :: f in RemoveBySource(flow, id) ==> f.applicationStateId != id
  {
    forall f | f in RemoveBySource(flow, id) ensures f.applicationStateId != id {
      assert f in multiset(RemoveBySource(flow, id));
    }
  }

  /** Appending the created row keeps ids unique and live states live. */
  lemma AppendedRow(states: seq<StateRow>, row: StateRow)
    requires UniqueIds(states) && row.id == NextId(states)
    ensures UniqueIds(states + [row])
    ensures forall n :: Live(states, n) ==> Live(states + [row], n)
  {
    forall i | 0 <= i < |states| ensures states[i].id != row.id {
      assert states[i] in states;
    }
    forall n | Live(states, n) ensures Live(states + [row], n) {
      var w :| w in states && w.id == n && w.isDeleted == 0;
      assert w in states + [row];
    }
  }

  /** Updating names and flags keeps ids unique and live states live. */
  lemma UpdatedRows(states: seq<StateRow>, id: int, s: SanitizedState)
    requires UniqueIds(states)
    ensures UniqueIds(UpdateFields(states, id, s.name, s.alwaysAvailable, s.initialStep))
    ensures forall n ::
      Live(states, n) ==> Live(UpdateFields(states, id, s.name, s.alwaysAvailable, s.initialStep), n)
  {
    var states' := UpdateFields(states, id, s.name, s.alwaysAvailable, s.initialStep);
    forall n | Live(states, n) ensures Live(states', n) {
      var w :| w in states && w.id == n && w.isDeleted == 0;
      var j :| 0 <= j < |states| && states[j] == w;
      assert states'[j] in states';
    }
  }

  /** The row `insertApplicationState` appends for a sanitized form. */
  function CreatedRow(states: seq<StateRow>, s: SanitizedState): (row: StateRow)
    ensures row.id == NextId(states) && row.isDeleted == 0
    ensures row.name == s.name && row.alwaysAvailable == s.alwaysAvailable
            && row.initialStep == s.initialStep
    ensures forall r :: r in states ==> r.displayOrder < row.displayOrder
  {
    StateRow(NextId(states), s.name, MaxDisplayOrder(states) + 1, s.alwaysAvailable, s.initialStep, 0)
  }

  /** Round trip of `createApplicationState`, first half: the new row is in
      the map that the operation returns. */
  lemma CreatedStateListed(states: seq<StateRow>, flow: seq<FlowRow>, s: SanitizedState)
    requires UniqueIds(states)
    ensures var m := EventFlowMapOf(states + [CreatedRow(states, s)],
                                    flow + FlowRowsFrom(NextId(states), s.availableNextStepIds));
      exists k :: 0 <= k < |m| && m[k].state == CreatedRow(states, s)
  {
    var row := CreatedRow(states, s);
    AppendedRow(states, row);
    StateInMap(states + [row], flow + FlowRowsFrom(NextId(states), s.availableNextStepIds), row);
  }

  /** Round trip of `createApplicationState`, second half: the map's entry
      for the new id is the new row, and its next steps are exactly the
      form's ids. It needs that no flow row already leaves the new id. */
  lemma CreatedStateRoundTrip(states: seq<StateRow>, flow: seq<FlowRow>, s: SanitizedState)
    requires UniqueIds(states)
    requires forall n :: n in s.availableNextStepIds ==> Live(states, n)
    requires forall f :: f in flow ==> f.applicationStateId != NextId(states)
    ensures var m := EventFlowMapOf(states + [CreatedRow(states, s)],
                                    flow + FlowRowsFrom(NextId(states), s.availableNextStepIds));
      forall k, n :: 0 <= k < |m| && m[k].state.id == NextId(states) ==>
        m[k].state == CreatedRow(states, s)
        && (n in m[k].availableNextStepIds <==> n in s.availableNextStepIds)
  {
    var id := NextId(states);
    var row := CreatedRow(states, s);
    var states' := states + [row];
    var flow' := flow + FlowRowsFrom(id, s.availableNextStepIds);
    AppendedRow(states, row);
    FlowRowsFromEdges(flow, id, s.availableNextStepIds);
    EventFlowMapStates(states', flow');
    var m := EventFlowMapOf(states', flow');
    assert row in states';
    forall k, n | 0 <= k < |m| && m[k].state.id == id
      ensures m[k].state == row && (n in m[k].availableNextStepIds <==> n in s.availableNextStepIds)
    {
      assert m[k] in m;
      SameIdSameRow(states', m[k].state, row);
      NextStepAt(states', flow', k, n);
    }
  }

  /** `updateApplicationState` replaces the outgoing edges: afterwards the
      state's next steps are exactly the form's ids, whatever they were. */
  lemma UpdateReplacesNextSteps(states: seq<StateRow>, flow: seq<FlowRow>, id: int,
                                s: SanitizedState)
    requires UniqueIds(states)
    requires forall n :: n in s.availableNextStepIds ==> Live(states, n)
    ensures var m := EventFlowMapOf(
                       UpdateFields(states, id, s.name, s.alwaysAvailable, s.initialStep),
                       RemoveBySource(flow, id) + FlowRowsFrom(id, s.availableNextStepIds));
      forall k, n :: 0 <= k < |m| && m[k].state.id == id ==>
        (n in m[k].availableNextStepIds <==> n in s.availableNextStepIds)
  {
    var states' := UpdateFields(states, id, s.name, s.alwaysAvailable, s.initialStep);
    var flow' := RemoveBySource(flow, id) + FlowRowsFrom(id, s.availableNextStepIds);
    UpdatedRows(states, id, s);
    RemovedBySourceHasNoEdge(flow, id);
    FlowRowsFromEdges(RemoveBySource(flow, id), id, s.availableNextStepIds);
    var m := EventFlowMapOf(states', flow');
    forall k, n | 0 <= k < |m| && m[k].state.id == id
      ensures n in m[k].availableNextStepIds <==> n in s.availableNextStepIds
    {
      NextStepAt(states', flow', k, n);
    }
  }
}
