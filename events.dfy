/** The data model of the event-log panel: the stored event (`Row` in
    src/index.tsx:29-39) and the values it carries. */
module Events {

  /** Presence or absence of a value. `None` stands for a JavaScript
      `undefined` or `null`, the values that fail a truthiness test. */
  datatype Option<+T> = None | Some(value: T)

  /** A value stored under a key of an event's `data` record. The record is
      typed `Record<string, any>`, so a value may be of any JSON kind. */
  datatype Value =
    | Text(s: string)
    | Number(n: int)
    | Flag(b: bool)
    | Null
    | Composite(entries: seq<(string, Value)>)

  /** The `data` record as its entries, in the record's own iteration order. */
  type Data = seq<(string, Value)>

  /** One stored log event. `data` is `None` when the record is absent. */
  datatype Event = Event(
    id: int,
    level: string,
    service: string,
    scope: string,
    eventName: string,
    message: string,
    data: Option<Data>,
    error: Option<string>,
    time: string)
}
