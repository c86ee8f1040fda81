/** The panel's selection state and the handlers that change it:
    `handleClear`, `handleRowHighlighted` and the visibility test of
    `renderSidebar` (src/index.tsx:56-67, 93-126). */
module Selection {
  import opened Events

  /** The component state `{ selectedIds, selectedData }`; `data` is `None`
      for `null`. */
  datatype SelectionState = SelectionState(ids: seq<int>, data: Option<Event>)

  /** The state the constructor sets. */
  const Initial := SelectionState([], None)

  /** `events.find(v => v.id === id)`: the first event carrying `id`. */
  function Find(events: seq<Event>, id: int): (r: Option<Event>)
    ensures r.None? <==> forall i :: 0 <= i < |events| ==> events[i].id != id
    ensures r.Some? ==> exists i :: 0 <= i < |events| && events[i] == r.value && FirstWithId(events, i, id)
    decreases |events|
  {
    if events == [] then None
    else if events[0].id == id then
      assert FirstWithId(events, 0, id);
      Some(events[0])
    else
      var r := Find(events[1..], id);
      assert r.Some? ==> exists i :: 0 <= i < |events| && events[i] == r.value && FirstWithId(events, i, id) by {
        if r.Some? {
          var k :| 0 <= k < |events[1..]| && events[1..][k] == r.value && FirstWithId(events[1..], k, id);
          assert FirstWithId(events, k + 1, id) by {
            forall j | 0 <= j < k + 1 ensures events[j].id != id {
              if j > 0 { assert events[j] == events[1..][j - 1]; }
            }
          }
        }
      }
      r
  }

  /** Position `i` holds the first event of the list with id `id`. */
  ghost predicate FirstWithId(events: seq<Event>, i: int, id: int)
  {
    && 0 <= i < |events|
    && events[i].id == id
    && forall j :: 0 <= j < i ==> events[j].id != id
  }

  /** `selectedId`: the single highlighted key, or `None` (for `null`) when
      zero or several rows are highlighted. */
  function SelectedId(keys: seq<int>): Option<int>
  {
    if |keys| != 1 then None else Some(keys[0])
  }

  /** The state after `handleRowHighlighted(keys)`, given the persisted
      `events` (`None` when absent). */
  function Highlighted(s: SelectionState, events: Option<seq<Event>>, keys: seq<int>): (r: SelectionState)
    // Toggle-off: the one highlighted key is already selected, or the list
    // is absent. Only the ids are reset; the detail record stays.
    ensures (|keys| == 1 && keys[0] in s.ids) || events.None? ==> r == SelectionState([], s.data)
    // A new key that resolves selects it, with its first event as detail.
    ensures && events.Some? && |keys| == 1 && keys[0] !in s.ids
            && Find(events.value, keys[0]).Some? ==>
              r == SelectionState([keys[0]], Find(events.value, keys[0]))
    // Zero or several keys, or a key matching no event: nothing changes.
    ensures && events.Some?
            && (|keys| != 1 || (keys[0] !in s.ids && Find(events.value, keys[0]).None?)) ==>
              r == s
    ensures Consistent(s) ==> Consistent(r)
  {
    var selectedId := SelectedId(keys);
    if (selectedId.Some? && selectedId.value in s.ids) || events.None? then
      SelectionState([], s.data)
    else if selectedId.None? then
      s
    else
      match Find(events.value, selectedId.value)
      case Some(found) => SelectionState([selectedId.value], Some(found))
      case None => s
  }

  /** The record `renderSidebar` shows: none unless `selectedData` is set and
      `selectedIds[0]` is truthy, that is present and not 0. */
  function Sidebar(s: SelectionState): (r: Option<Event>)
    ensures r.Some? <==> s.data.Some? && |s.ids| > 0 && s.ids[0] != 0
    ensures r.Some? ==> r == s.data
  {
    if s.data.None? || |s.ids| == 0 || s.ids[0] == 0 then None else s.data
  }

  /** At most one id is selected, and a selected id is that of the detail
      record. Every reachable state keeps this. */
  ghost predicate Consistent(s: SelectionState)
  {
    && |s.ids| <= 1
    && (s.ids != [] ==> s.data.Some? && s.data.value.id == s.ids[0])
  }

  /** In a consistent state the sidebar shows the selected event, and never
      the event with id 0. */
  lemma SidebarShowsSelected(s: SelectionState)
    requires Consistent(s)
    ensures Sidebar(s).Some? ==> Sidebar(s).value.id == s.ids[0] && Sidebar(s).value.id != 0
    ensures s.data.Some? && s.ids == [s.data.value.id] && s.data.value.id != 0 ==> Sidebar(s) == s.data
  {
  }

  /** Highlighting a single key twice in a row: when the key resolves, it is
      deselected if it was not selected before and selected again if it was. */
  lemma HighlightTwice(s: SelectionState, events: seq<Event>, key: int)
    requires Find(events, key).Some?
    ensures key !in s.ids ==> Highlighted(Highlighted(s, Some(events), [key]), Some(events), [key]).ids == []
    ensures key in s.ids ==> Highlighted(Highlighted(s, Some(events), [key]), Some(events), [key]).ids == [key]
  {
  }

  /** Highlighting a key that no event carries never selects it. */
  lemma StaleKeyNotSelected(s: SelectionState, events: Option<seq<Event>>, key: int)
    requires events.Some? ==> forall i :: 0 <= i < |events.value| ==> events.value[i].id != key
    ensures key !in Highlighted(s, events, [key]).ids
  {
  }

  /** With the first event numbered 0, highlighting its row selects it, yet
      the sidebar stays empty: `!selectedId` reads the id 0 as no selection. */
  lemma EventZeroSelectedButHidden(events: seq<Event>)
    requires events != [] && events[0].id == 0
    ensures Highlighted(Initial, Some(events), [0]) == SelectionState([0], Some(events[0]))
    ensures Sidebar(Highlighted(Initial, Some(events), [0])).None?
  {
  }

  /** The panel component: the persisted `events` it receives from the host
      and its selection state. */
  class Plugin {
    var events: Option<seq<Event>>
    var selectedIds: seq<int>
    var selectedData: Option<Event>

    function State(): SelectionState
      reads this
    {
      SelectionState(selectedIds, selectedData)
    }

    ghost predicate Valid()
      reads this
    {
      Consistent(State())
    }

    /** The constructor: no id selected, no detail record. */
    constructor (persistedEvents: Option<seq<Event>>)
      ensures events == persistedEvents
      ensures State() == Initial && Valid()
      ensures Sidebar(State()).None?
    {
      events := persistedEvents;
      selectedIds := [];
      selectedData := None;
    }

    /** `handleClear`: empties the selected ids and the persisted list; the
      detail record is kept but the sidebar shows nothing. */
    method HandleClear()
      modifies this
      ensures Valid()
      ensures events == Some([])
      ensures selectedIds == [] && selectedData == old(selectedData)
      ensures Sidebar(State()).None?
    {
      selectedIds := [];
      events := Some([]);
    }

    /** `handleRowHighlighted(keys)`: the new state is `Highlighted` of the
      old one; the persisted list is not touched. */
    method HandleRowHighlighted(keys: seq<int>)
      modifies this`selectedIds, this`selectedData
      ensures old(Valid()) ==> Valid()
      ensures State() == Highlighted(old(State()), events, keys)
    {
      var selectedId := if |keys| != 1 then None else Some(keys[0]);
      if (selectedId.Some? && selectedId.value in selectedIds) || events.None? {
        selectedIds := [];
        return;
      }
      if selectedId.Some? {
        var found := Find(events.value, selectedId.value);
        if found.Some? {
          selectedIds := [selectedId.value];
          selectedData := found;
        }
      }
    }
  }
}
