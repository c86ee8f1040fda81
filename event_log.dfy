/** The persisted event log and the reducer through which the host replays
    every incoming message (src/index.tsx:69-91). */
module EventLog {
  import opened Events

  /** The only message kind the reducer recognises. */
  const ActionMethod: string := "action"

  /** The persisted state; `events` is `None` when the stored list is absent. */
  datatype PersistedState = PersistedState(events: Option<seq<Event>>)

  /** The state the host starts from: `{ events: [] }`. */
  const DefaultPersistedState := PersistedState(Some([]))

  /** The id helper `getDataWithID(events, data)` of src/utils/functions,
      which is not part of this model. `None` stands for a thrown error. */
  type IdAssigner = (seq<Event>, Event) -> Option<Event>

  /** One message from the host: its kind and its payload. */
  datatype Message = Message(kind: string, payload: Event)

  /** The stored list, with an absent list read as empty. */
  function StoredEvents(state: PersistedState): seq<Event>
  {
    match state.events
    case Some(events) => events
    case None => []
  }

  /** `persistedStateReducer`: an `'action'` message appends the event built
      by the id helper; any other kind, or a failing helper, leaves the state
      as it was. */
  function Reducer(state: PersistedState, kind: string, payload: Event, getDataWithId: IdAssigner): (r: PersistedState)
    ensures kind != ActionMethod ==> r == state
    ensures getDataWithId(StoredEvents(state), payload).None? ==> r == state
    ensures kind == ActionMethod && getDataWithId(StoredEvents(state), payload).Some? ==>
      && r.events.Some?
      && |r.events.value| == |StoredEvents(state)| + 1
      && r.events.value[..|StoredEvents(state)|] == StoredEvents(state)
      && r.events.value[|StoredEvents(state)|] == getDataWithId(StoredEvents(state), payload).value
  {
    if kind == ActionMethod then
      var last := StoredEvents(state);
      match getDataWithId(last, payload)
      case Some(entry) => PersistedState(Some(last + [entry]))
      case None => state
    else
      state
  }

  /** The host feeding a sequence of messages through the reducer, one at a
      time. The stored list only ever grows at its end. */
  function Replay(state: PersistedState, messages: seq<Message>, getDataWithId: IdAssigner): (r: PersistedState)
    ensures |StoredEvents(state)| <= |StoredEvents(r)|
    ensures StoredEvents(r)[..|StoredEvents(state)|] == StoredEvents(state)
    decreases |messages|
  {
    if messages == [] then state
    else Replay(Reducer(state, messages[0].kind, messages[0].payload, getDataWithId), messages[1..], getDataWithId)
  }

  /** The largest id in a non-empty list. */
  function MaxId(events: seq<Event>): (m: int)
    requires events != []
    ensures forall i :: 0 <= i < |events| ==> events[i].id <= m
    ensures exists i :: 0 <= i < |events| && events[i].id == m
    decreases |events|
  {
    if |events| == 1 then events[0].id
    else
      var front := MaxId(events[..|events| - 1]);
      assert forall i :: 0 <= i < |events| - 1 ==> events[..|events| - 1][i] == events[i];
      if front < events[|events| - 1].id then events[|events| - 1].id else front
  }

  /** The id the event log is meant to give its next entry: one more than the
      largest id stored, or 0 for an empty log. */
  function NextId(events: seq<Event>): int
  {
    if events == [] then 0 else MaxId(events) + 1
  }

  /** An assumed contract for the unseen id helper: when it succeeds, the
      event it returns carries `NextId` of the list it was given. */
  ghost predicate AssignsNextId(getDataWithId: IdAssigner)
  {
    forall events, payload :: getDataWithId(events, payload).Some? ==>
      getDataWithId(events, payload).value.id == NextId(events)
  }

  /** Every event's id is its position in the log: ids start at 0 and are
      unique and strictly increasing in append order. */
  ghost predicate IdsArePositions(events: seq<Event>)
  {
    forall i :: 0 <= i < |events| ==> events[i].id == i
  }

  ghost predicate StrictlyIncreasingIds(events: seq<Event>)
  {
    forall i, j :: 0 <= i < j < |events| ==> events[i].id < events[j].id
  }

  /** In a log whose ids are its positions, the next id is the log's length. */
  lemma NextIdOfNumberedLog(events: seq<Event>)
    requires IdsArePositions(events)
    ensures NextId(events) == |events|
  {
  }

  /** One reducer step keeps ids equal to positions, under the assumed
      contract of the id helper. */
  lemma ReducerKeepsIdsPositions(state: PersistedState, kind: string, payload: Event, getDataWithId: IdAssigner)
    requires AssignsNextId(getDataWithId)
    requires IdsArePositions(StoredEvents(state))
    ensures IdsArePositions(StoredEvents(Reducer(state, kind, payload, getDataWithId)))
  {
    // The helper stamps the new entry with NextId, which here is the length.
    NextIdOfNumberedLog(StoredEvents(state));
  }

  /** An id helper that stamps the payload with `NextId` keeps the assumed
      contract, so the contract can be met. */
  lemma StampingHelperAssignsNextId()
    ensures AssignsNextId((events: seq<Event>, payload: Event) => Some(payload.(id := NextId(events))))
  {
  }

  /** Replaying any messages, starting from an empty or absent log (or any log
      numbered 0, 1, 2, ...), with an id helper that keeps its assumed
      contract, yields ids 0, 1, 2, ... in append order: unique and strictly
      increasing. */
  lemma {:induction false} ReplayNumbersEvents(state: PersistedState, messages: seq<Message>, getDataWithId: IdAssigner)
    requires AssignsNextId(getDataWithId)
    requires IdsArePositions(StoredEvents(state))
    ensures IdsArePositions(StoredEvents(Replay(state, messages, getDataWithId)))
    ensures StrictlyIncreasingIds(StoredEvents(Replay(state, messages, getDataWithId)))
    decreases |messages|
  {
    if messages != [] {
      var next := Reducer(state, messages[0].kind, messages[0].payload, getDataWithId);
      ReducerKeepsIdsPositions(state, messages[0].kind, messages[0].payload, getDataWithId);
      ReplayNumbersEvents(next, messages[1..], getDataWithId);
    }
  }

  /** Messages of an unrecognised kind, however many, leave the state as it
      was. */
  lemma {:induction false} ReplayIgnoresUnknownKinds(state: PersistedState, messages: seq<Message>, getDataWithId: IdAssigner)
    requires forall i :: 0 <= i < |messages| ==> messages[i].kind != ActionMethod
    ensures Replay(state, messages, getDataWithId) == state
    decreases |messages|
  {
    if messages != [] {
      ReplayIgnoresUnknownKinds(state, messages[1..], getDataWithId);
    }
  }
}
