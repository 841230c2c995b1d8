/** The status part of the application overview: which event-flow entry
    an application is at, whether it can move on, and the entries its
    next-step menu offers. Rendering is not modelled; a menu item stands for
    the entry it would move the application to. */
module ApplicationOverview {
  import opened Common
  import opened EventFlowPersistence
  import opened EventFlowSettingService

  /** A menu item: the state it records an event for, and the text shown. */
  datatype MenuItem = MenuItem(stateId: int, name: string)

  function ItemOf(e: EventFlowEntry): MenuItem {
    MenuItem(e.state.id, e.state.name)
  }

  /** `eventFlowMap.find((e) => e.id === application.statusId)`: a null
      status matches no entry. */
  function CurrentStep(entries: seq<EventFlowEntry>, statusId: Option<int>)
    : (r: Option<EventFlowEntry>)
    ensures r.None? <==>
      statusId.None? || forall k :: 0 <= k < |entries| ==> entries[k].state.id != statusId.value
    ensures r.Some? ==>
      r.value.state.id == statusId.value
      && exists k :: 0 <= k < |entries| && entries[k] == r.value
           && forall j :: 0 <= j < k ==> entries[j].state.id != statusId.value
  {
    if statusId.None? then None else FindEntry(entries, statusId.value)
  }

  /** `canApplicationProgress`: the current step exists and has somewhere to
      go. */
  predicate CanProgress(entries: seq<EventFlowEntry>, statusId: Option<int>) {
    var step := CurrentStep(entries, statusId);
    step.Some? && |step.value.availableNextStepIds| > 0
  }

  /** The entries offered whatever the status: always available and not
      deleted. */
  predicate AlwaysOffered(e: EventFlowEntry) {
    e.state.alwaysAvailable != 0 && e.state.isDeleted == 0
  }

  /** The test `filter` applies to the map for the next steps. */
  function IsNextStep(nextIds: seq<int>): (p: EventFlowEntry -> bool)
    ensures forall e :: p(e) <==> e.state.id in nextIds
  {
    (e: EventFlowEntry) => e.state.id in nextIds
  }

  /** One menu item per entry, in order. */
  function Items(s: seq<EventFlowEntry>): (r: seq<MenuItem>)
    ensures |r| == |s|
    ensures forall i :: 0 <= i < |s| ==> r[i] == ItemOf(s[i])
  {
    if s == [] then [] else [ItemOf(s[0])] + Items(s[1..])
  }

  /** The menu items of the entries whose id is one of `nextIds`, in
      event-flow order. */
  function NextStepItems(entries: seq<EventFlowEntry>, nextIds: seq<int>): (r: seq<MenuItem>)
    ensures |r| <= |entries|
    ensures forall m :: m in r <==>
      exists k :: 0 <= k < |entries| && entries[k].state.id in nextIds && m == ItemOf(entries[k])
  {
    if entries == [] then []
    else
      var rest := NextStepItems(entries[1..], nextIds);
      assert forall k :: 0 < k < |entries| ==> entries[k] == entries[1..][k - 1];
      assert forall k :: 0 <= k < |entries[1..]| ==> entries[1..][k] == entries[k + 1];
      if entries[0].state.id in nextIds then [ItemOf(entries[0])] + rest else rest
  }

  /** The menu items of the always-available, non-deleted entries, in
      event-flow order. */
  function AlwaysAvailableItems(entries: seq<EventFlowEntry>): (r: seq<MenuItem>)
    ensures |r| <= |entries|
    ensures forall m :: m in r <==>
      exists k :: 0 <= k < |entries| && AlwaysOffered(entries[k]) && m == ItemOf(entries[k])
  {
    if entries == [] then []
    else
      var rest := AlwaysAvailableItems(entries[1..]);
      assert forall k :: 0 < k < |entries| ==> entries[k] == entries[1..][k - 1];
      assert forall k :: 0 <= k < |entries[1..]| ==> entries[1..][k] == entries[k + 1];
      if AlwaysOffered(entries[0]) then [ItemOf(entries[0])] + rest else rest
  }

  /** The next-step items are the map filtered by the next-step test, one
      item per entry that passes, in event-flow order. */
  lemma {:induction false} NextStepItemsInMapOrder(entries: seq<EventFlowEntry>, nextIds: seq<int>)
    ensures NextStepItems(entries, nextIds) == Items(Filter(entries, IsNextStep(nextIds)))
  {
    if entries != [] {
      NextStepItemsInMapOrder(entries[1..], nextIds);
      ItemsCons(entries[0], Filter(entries[1..], IsNextStep(nextIds)));
    }
  }

  /** The always-available items are the map filtered by `AlwaysOffered`,
      one item per entry that passes, in event-flow order. */
  lemma {:induction false} AlwaysAvailableItemsInMapOrder(entries: seq<EventFlowEntry>)
    ensures AlwaysAvailableItems(entries) == Items(Filter(entries, AlwaysOffered))
  {
    if entries != [] {
      AlwaysAvailableItemsInMapOrder(entries[1..]);
      ItemsCons(entries[0], Filter(entries[1..], AlwaysOffered));
    }
  }

  lemma ItemsCons(e: EventFlowEntry, s: seq<EventFlowEntry>)
    ensures Items([e] + s) == [ItemOf(e)] + Items(s)
  {
    assert ([e] + s)[1..] == s;
  }

  /** The next-step menu: the current step's next steps, then the
      always-available entries. The next-step test reads the current step's
      next ids once per entry, so without a current step it fails on the
      first entry; an empty map is never tested and gives an empty menu. */
  function NextStepsMenu(entries: seq<EventFlowEntry>, statusId: Option<int>)
    : (r: Result<seq<MenuItem>>)
    ensures r.Err? <==> entries != [] && CurrentStep(entries, statusId).None?
    ensures r.Err? ==> r.failure == TypeError("availableNextStepIds")
    ensures entries == [] ==> r == Ok([])
    ensures r.Ok? && entries != [] ==>
      var next := CurrentStep(entries, statusId).value.availableNextStepIds;
      r.value == NextStepItems(entries, next) + AlwaysAvailableItems(entries)
      && forall m :: m in r.value <==>
        (exists k :: 0 <= k < |entries| && entries[k].state.id in next && m == ItemOf(entries[k]))
        || (exists k :: 0 <= k < |entries| && AlwaysOffered(entries[k]) && m == ItemOf(entries[k]))
  {
    var step := CurrentStep(entries, statusId);
    if entries == [] then Ok([])
    else if step.None? then Err(TypeError("availableNextStepIds"))
    else Ok(NextStepItems(entries, step.value.availableNextStepIds) + AlwaysAvailableItems(entries))
  }

  /** What the status area shows: the button's text and whether it is
      disabled, and whether the ghost bar is drawn. */
  datatype StatusView = StatusView(buttonText: Option<string>, disabled: bool, showGhostBar: bool)

  function StatusViewOf(entries: seq<EventFlowEntry>, statusId: Option<int>): (r: StatusView)
    ensures r.disabled <==> !CanProgress(entries, statusId)
    ensures r.showGhostBar <==> !r.disabled
    ensures r.buttonText.Some? <==> CurrentStep(entries, statusId).Some?
    ensures r.buttonText.Some? ==> r.buttonText.value == CurrentStep(entries, statusId).value.state.name
  {
    var step := CurrentStep(entries, statusId);
    var can := CanProgress(entries, statusId);
    StatusView(if step.Some? then Some(step.value.state.name) else None, !can, can)
  }

  /** An application that can progress has a menu, and when its next ids
      name entries of the map, the menu opens with one of them. */
  lemma {:induction false} ProgressMenuStartsWithNextStep(entries: seq<EventFlowEntry>,
                                                          statusId: Option<int>)
    requires CanProgress(entries, statusId)
    requires var next := CurrentStep(entries, statusId).value.availableNextStepIds;
      forall n :: n in next ==> exists k :: 0 <= k < |entries| && entries[k].state.id == n
    ensures NextStepsMenu(entries, statusId).Ok?
    ensures var menu := NextStepsMenu(entries, statusId).value;
      var next := CurrentStep(entries, statusId).value.availableNextStepIds;
      |menu| > 0 && menu[0].stateId in next
  {
    var next := CurrentStep(entries, statusId).value.availableNextStepIds;
    assert next[0] in next;
    var k :| 0 <= k < |entries| && entries[k].state.id == next[0];
    var items := NextStepItems(entries, next);
    assert ItemOf(entries[k]) in items;
    assert items[0] in items;
    var j :| 0 <= j < |entries| && entries[j].state.id in next && items[0] == ItemOf(entries[j]);
  }

  /** The menu keeps event-flow order, not the order of the next ids, and an
      always-available entry that is also a next step is offered twice. */
  lemma MenuOrderAndRepeats()
    ensures var applied := EventFlowEntry(StateRow(1, "Applied", 1, 0, 1, 0), [3, 2]);
      var screen := EventFlowEntry(StateRow(2, "Screen", 2, 0, 0, 0), []);
      var rejected := EventFlowEntry(StateRow(3, "Rejected", 3, 1, 0, 0), []);
      NextStepsMenu([applied, screen, rejected], Some(1))
      == Ok([MenuItem(2, "Screen"), MenuItem(3, "Rejected"), MenuItem(3, "Rejected")])
  {
    var applied := EventFlowEntry(StateRow(1, "Applied", 1, 0, 1, 0), [3, 2]);
    var screen := EventFlowEntry(StateRow(2, "Screen", 2, 0, 0, 0), []);
    var rejected := EventFlowEntry(StateRow(3, "Rejected", 3, 1, 0, 0), []);
    assert CurrentStep([applied, screen, rejected], Some(1)) == Some(applied);
    MenuOfThree(applied, screen, rejected, Some(1));
  }

  /** The menu of a three-entry map whose first entry is current, names the
      other two as next steps, and whose last entry is always available. */
  lemma MenuOfThree(a: EventFlowEntry, b: EventFlowEntry, c: EventFlowEntry, statusId: Option<int>)
    requires CurrentStep([a, b, c], statusId) == Some(a)
    requires a.state.id !in a.availableNextStepIds
    requires b.state.id in a.availableNextStepIds && c.state.id in a.availableNextStepIds
    requires !AlwaysOffered(a) && !AlwaysOffered(b) && AlwaysOffered(c)
    ensures NextStepsMenu([a, b, c], statusId) == Ok([ItemOf(b), ItemOf(c), ItemOf(c)])
  {
    var entries := [a, b, c];
    FilterLastTwo(a, b, c, IsNextStep(a.availableNextStepIds));
    FilterLastOne(a, b, c, AlwaysOffered);
    ItemsTwo(b, c);
    ItemsOne(c);
    NextStepItemsInMapOrder(entries, a.availableNextStepIds);
    AlwaysAvailableItemsInMapOrder(entries);
    var next := NextStepItems(entries, a.availableNextStepIds);
    var always := AlwaysAvailableItems(entries);
    assert next == [ItemOf(b), ItemOf(c)];
    assert always == [ItemOf(c)];
    assert NextStepsMenu(entries, statusId) == Ok(next + always);
    assert next + always == [ItemOf(b), ItemOf(c), ItemOf(c)];
  }

  /** A three-entry map whose last two entries pass. */
  lemma FilterLastTwo(a: EventFlowEntry, b: EventFlowEntry, c: EventFlowEntry,
                      keep: EventFlowEntry -> bool)
    requires !keep(a) && keep(b) && keep(c)
    ensures Filter([a, b, c], keep) == [b, c]
  {
    FilterSingle(c, keep);
    FilterPair(b, c, keep);
    FilterTriple(a, b, c, keep);
    assert [b] + [c] == [b, c];
  }

  /** A three-entry map whose last entry alone passes. */
  lemma FilterLastOne(a: EventFlowEntry, b: EventFlowEntry, c: EventFlowEntry,
                      keep: EventFlowEntry -> bool)
    requires !keep(a) && !keep(b) && keep(c)
    ensures Filter([a, b, c], keep) == [c]
  {
    FilterSingle(c, keep);
    FilterPair(b, c, keep);
    FilterTriple(a, b, c, keep);
  }

  lemma FilterSingle(c: EventFlowEntry, keep: EventFlowEntry -> bool)
    ensures Filter([c], keep) == if keep(c) then [c] else []
  {
    assert [c][1..] == [];
  }

  lemma FilterPair(b: EventFlowEntry, c: EventFlowEntry, keep: EventFlowEntry -> bool)
    ensures Filter([b, c], keep) == if keep(b) then [b] + Filter([c], keep) else Filter([c], keep)
  {
    assert [b, c][1..] == [c];
  }

  lemma FilterTriple(a: EventFlowEntry, b: EventFlowEntry, c: EventFlowEntry,
                     keep: EventFlowEntry -> bool)
    ensures Filter([a, b, c], keep)
            == if keep(a) then [a] + Filter([b, c], keep) else Filter([b, c], keep)
  {
    assert [a, b, c][1..] == [b, c];
  }

  lemma ItemsOne(a: EventFlowEntry)
    ensures Items([a]) == [ItemOf(a)]
  {
    ItemsCons(a, []);
    assert [a] + [] == [a];
  }

  lemma ItemsTwo(a: EventFlowEntry, b: EventFlowEntry)
    ensures Items([a, b]) == [ItemOf(a), ItemOf(b)]
  {
    ItemsCons(a, [b]);
    ItemsOne(b);
    assert [a] + [b] == [a, b];
  }
}
