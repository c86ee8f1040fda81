# Event-log panel core, modelled in Dafny

This project models the logic of a debugging-tool panel plugin that shows a
stream of structured log events. The host pushes each incoming message
through a reducer. The reducer appends `'action'` messages to the persisted
event list. Every stored event is projected onto a table row. When the user
highlights rows or presses "Clear events", a small selection state machine
decides which single event the detail sidebar shows.

All of this lives in `src/index.tsx`. The project follows it in four modules:

- `events.dfy` (`Events`): the stored event (`Row` in the source, here
  `Event`), its `data` record as an ordered list of entries, and `Option`
  for values that may be `undefined` or `null`.
- `event_log.dfy` (`EventLog`): `persistedStateReducer` as the pure function
  `Reducer`, and the host's message-by-message replay. The id helper
  `getDataWithID` from `src/utils/functions` is not part of this model. It is
  a function parameter that returns `None` where the real helper would throw.
  The id policy is proved only under an assumed contract for that helper.
- `row_projection.dfy` (`RowProjection`): `formatData` and `buildRow`. They
  produce a row's key, its column filter values, its composite filter value
  and the `key = value` lines of its data column, each line as its key and
  value. `JSON.stringify` is a function parameter.
- `selection.dfy` (`Selection`): the component state
  `{ selectedIds, selectedData }` and the highlight transition as pure
  functions. The sidebar visibility test is a function too. A class `Plugin`
  holds the component's fields and has the methods `HandleClear` and
  `HandleRowHighlighted`. Each method is proved against those functions. It
  also keeps the invariant `Consistent`: at most one id is selected, and
  that id belongs to the detail record.

The intended behaviour of the panel differs from the code in a few places. The
model follows the code:

- Highlighting zero rows, or several rows, leaves the selection unchanged
  when the event list is present. So does highlighting an id that matches no
  event. The intended rule is that the selection becomes empty in all these
  cases.
- If the event list is absent, any highlight resets the selected ids, even
  one with zero or several keys.
- Clearing resets only `selectedIds` and leaves `selectedData` stale. The
  sidebar still shows nothing afterwards, because it needs a selected id.
- The sidebar treats the id 0 as "no selection". Ids are meant to start at
  0, so selecting the first event never shows its detail
  (`Selection.EventZeroSelectedButHidden`).
- The intended id rule is that a new event gets the largest id plus one, or
  0 in an empty log. That rule lives in the helper, whose code is not shown. The
  model proves only what follows if the helper keeps that rule
  (`EventLog.ReplayNumbersEvents`).
- Because `![]` is false in JavaScript, an empty list counts as present. Only
  an `undefined` or `null` list is read as `[]` by the reducer. Of the
  possible list values, only an absent one makes every highlight reset the
  selected ids.

## Model

| member | source | states |
|---|---|---|
| `EventLog.Reducer` | src/index.tsx:73-91 | An `'action'` message whose entry the id helper builds gives a list one longer than the stored one (an absent list counts as `[]`). Its prefix is the stored list, in order, and the helper's entry comes last. Any other kind, or a helper that throws, returns the state unchanged. |
| `EventLog.Replay` | src/index.tsx:73-91 | Feeding any sequence of messages through the reducer keeps the stored list as a prefix of the result, so the log is append-only. |
| `EventLog.MaxId` | src/index.tsx:82 | The largest id of a non-empty list: it bounds every id and is the id of some event. This is the basis of the next-id rule the helper is assumed to follow. |
| `EventLog.NextIdOfNumberedLog` | src/index.tsx:82 | In a log whose ids equal their positions, the next id (largest plus one, or 0 when empty) is the log's length. |
| `EventLog.StampingHelperAssignsNextId` | src/index.tsx:82 | A helper that stamps the payload with the next id keeps the assumed contract, so the contract can be met. |
| `EventLog.ReducerKeepsIdsPositions` | src/index.tsx:76-83 | With a helper that assigns the next id, one reducer step keeps every id equal to its position. |
| `EventLog.ReplayNumbersEvents` | src/index.tsx:73-91 | With such a helper, replaying any messages from an empty or absent log gives ids 0, 1, 2 and so on. The ids are unique and strictly increasing in append order. |
| `EventLog.ReplayIgnoresUnknownKinds` | src/index.tsx:85-86 | Any number of messages of unrecognised kinds leave the persisted state exactly as it was. |
| `RowProjection.Lines` | src/index.tsx:47-51 | There is one line per record entry, in the record's iteration order, and each line carries that entry's key and value. |
| `RowProjection.EntriesOfLines` | src/index.tsx:47-51 | The data column's lines give back the record's entries exactly: no entry is lost, reordered or invented. |
| `RowProjection.FormatData` | src/index.tsx:41-54 | An absent record renders as nothing. A present record renders as exactly its entries as `key = value` lines, in order, and an empty record renders as no lines. |
| `RowProjection.CompositeFilter` | src/index.tsx:154 | The composite filter value is the service, one space, then the event name. |
| `RowProjection.SplitCompositeFilter` | src/index.tsx:154 | If the service has no space, splitting the composite filter value at its first space gives back the service and the event name. |
| `RowProjection.BuildRow` | src/index.tsx:128-156 | The row key is the event id. The level, scope, eventName and message filter values are the raw fields, and the data column filters on the raw record. The data column shows the lines of `FormatData` of the record (without the stray U+FE0F that follows them). The export text is the serialiser's output, and the composite filter value is service plus event name. |
| `Selection.Find` | src/index.tsx:109 | Lookup finds nothing exactly when no event has the id. Otherwise it returns the first event with that id. |
| `Selection.Highlighted` | src/index.tsx:99-117 | A single key that is already selected, or an absent list, resets the ids and keeps the detail record. A new single key that matches an event selects that key, with the first matching event as detail. Zero or several keys, or an unmatched key, change nothing. Each step keeps `Consistent`. |
| `Selection.Sidebar` | src/index.tsx:119-126 | The sidebar shows a record exactly when `selectedData` is set and `selectedIds[0]` exists and is not 0. The record shown is `selectedData`. |
| `Selection.SidebarShowsSelected` | src/index.tsx:119-125 | In a consistent state the sidebar shows the selected event, and never the event with id 0. |
| `Selection.HighlightTwice` | src/index.tsx:103-115 | Highlighting the same matching key twice deselects it if it was not selected before. If it was selected, it ends up selected again. |
| `Selection.StaleKeyNotSelected` | src/index.tsx:109-116 | A key that no stored event carries is never selected. |
| `Selection.EventZeroSelectedButHidden` | src/index.tsx:122 | When the first event has id 0, highlighting it from the initial state selects it, but the sidebar stays empty. |
| `Selection.Plugin.constructor` | src/index.tsx:59-64 | The component starts with no selected ids, no detail record and no sidebar. |
| `Selection.Plugin.HandleClear` | src/index.tsx:93-97 | The persisted list becomes `[]` and the selected ids become `[]`. `selectedData` is untouched, the sidebar shows nothing, and the state stays consistent. |
| `Selection.Plugin.HandleRowHighlighted` | src/index.tsx:99-117 | The new selection is `Highlighted` of the old one and the persisted list, and the list itself is not changed. A consistent state stays consistent. |

## Left out

- Rendering is not modelled because it is presentation: `render`, the styled containers, `SearchableTable`, `DetailSidebar`, `SideBar`, the plugin base class, its lifecycle and its prop injection. This includes the mapping of the event list onto rows inside `render`.
- The display values of the level, scope, eventName and message columns are JSX elements and are not modelled; only their filter values are. The level and scope values end with a stray U+FE0F character (src/index.tsx:132, 136). The eventName value is the output of `formatEvent` (src/index.tsx:140). The message value is the raw message (src/index.tsx:144).
- `RowProjection.BuildRow`: the data column's display value is `formatData` of the record followed by a stray U+FE0F character (src/index.tsx:148). The model gives only the lines and drops that trailing character.
- `getDataWithID` and `formatEvent` come from `src/utils/functions`, which is not part of this model. The id helper is a parameter, and a thrown error is its `None` result.
- `JSON.stringify(row, null, 2)` is a library serialiser. It is the parameter `stringify` of `RowProjection.BuildRow`.
- The rendering of one data line is JSX presentation and is not modelled: the key, a separate red `=` element and the value (src/index.tsx:48-50). A line is modelled as its key and value only. How React renders each kind of value (numbers, booleans, nested objects) is not modelled either.
- `setState` is modelled as a synchronous field assignment, without batching or asynchrony.
- A `persistedState` that is itself `null` is not modelled. The reducer would catch the resulting TypeError and return it. The host always supplies at least the default state `{ events: [] }`.
- The model does not tell an `undefined` event list from a `null` one. Both are `None`, which is all the reducer and the highlight handler can tell apart.
- The host writing a replayed persisted state back into the component's `events` is not modelled. `Selection.Plugin.events` changes only through `HandleClear`.
- `EventLog.ReplayNumbersEvents`: the ids 0, 1, 2 and so on are proved only for an id helper that is assumed to assign the largest id plus one (0 when empty). The helper's code is not shown.
- `Selection.Plugin.HandleRowHighlighted`: the keys are typed `any` in the source and are modelled as integers. Non-numeric keys, and the special treatment of `NaN` by `includes`, are not modelled.
- Numbers in a `data` record are modelled as integers. Floating point is out of scope.
- `src/config.ts` holds static column labels and widths and has no behaviour.
