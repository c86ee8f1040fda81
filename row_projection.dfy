/** The projection of one stored event onto a table row: `formatData` and
    `buildRow` (src/index.tsx:41-54, 128-156). */
module RowProjection {
  import opened Events

  /** One `key = value` line of the data column. */
  datatype DataLine = DataLine(key: string, value: Value)

  /** A text column: only its filter value is modelled. */
  datatype TextColumn = TextColumn(filterValue: string)

  /** The data column: the rendered lines (`None` for the `null` that an
      absent record renders as) and, as filter value, the raw record. */
  datatype DataColumn = DataColumn(lines: Option<seq<DataLine>>, filterValue: Option<Data>)

  datatype Columns = Columns(
    level: TextColumn,
    scope: TextColumn,
    eventName: TextColumn,
    message: TextColumn,
    data: DataColumn)

  /** A table row: its columns, its key, its export text and the composite
      filter value used by free-text search. */
  datatype Row = Row(columns: Columns, key: int, copyText: string, filterValue: string)

  /** One line per record entry, in the record's order. */
  function Lines(entries: Data): (lines: seq<DataLine>)
    ensures |lines| == |entries|
    ensures forall i :: 0 <= i < |entries| ==>
      lines[i].key == entries[i].0 && lines[i].value == entries[i].1
    decreases |entries|
  {
    if entries == [] then []
    else [DataLine(entries[0].0, entries[0].1)] + Lines(entries[1..])
  }

  /** The entries a list of lines shows, in order. */
  function Entries(lines: seq<DataLine>): (entries: Data)
    ensures |entries| == |lines|
    decreases |lines|
  {
    if lines == [] then []
    else [(lines[0].key, lines[0].value)] + Entries(lines[1..])
  }

  /** The lines of the data column show the record back exactly. */
  lemma {:induction false} EntriesOfLines(entries: Data)
    ensures Entries(Lines(entries)) == entries
    decreases |entries|
  {
    if entries != [] {
      EntriesOfLines(entries[1..]);
      assert Lines(entries)[1..] == Lines(entries[1..]);
    }
  }

  /** `formatData`: nothing for an absent record, otherwise one line per
      entry in the record's iteration order (no lines for an empty record). */
  function FormatData(data: Option<Data>): (r: Option<seq<DataLine>>)
    ensures r.None? <==> data.None?
    ensures data.Some? ==> |r.value| == |data.value|
    ensures data.Some? ==> forall i :: 0 <= i < |data.value| ==>
      r.value[i] == DataLine(data.value[i].0, data.value[i].1)
  {
    match data
    case None => None
    case Some(entries) => Some(Lines(entries))
  }

  /** The composite filter value: service and event name joined by a space. */
  function CompositeFilter(service: string, eventName: string): (f: string)
    ensures |f| == |service| + 1 + |eventName|
    ensures f[..|service|] == service && f[|service|] == ' ' && f[|service| + 1..] == eventName
  {
    service + " " + eventName
  }

  /** `buildRow`. `stringify` stands for `JSON.stringify(row, null, 2)`. */
  function BuildRow(row: Event, stringify: Event -> string): (r: Row)
    ensures r.key == row.id
    ensures r.filterValue == CompositeFilter(row.service, row.eventName)
    ensures r.columns.level.filterValue == row.level
    ensures r.columns.scope.filterValue == row.scope
    ensures r.columns.eventName.filterValue == row.eventName
    ensures r.columns.message.filterValue == row.message
    ensures r.columns.data.filterValue == row.data
    ensures r.columns.data.lines == FormatData(row.data)
    ensures r.copyText == stringify(row)
  {
    Row(
      Columns(
        TextColumn(row.level),
        TextColumn(row.scope),
        TextColumn(row.eventName),
        TextColumn(row.message),
        DataColumn(FormatData(row.data), row.data)),
      row.id,
      stringify(row),
      CompositeFilter(row.service, row.eventName))
  }

  /** Splits a string at its first space; no space gives the whole string and
      an empty rest. */
  function SplitAtSpace(s: string): (parts: (string, string))
    decreases |s|
  {
    if s == [] then ("", "")
    else if s[0] == ' ' then ("", s[1..])
    else
      var rest := SplitAtSpace(s[1..]);
      ([s[0]] + rest.0, rest.1)
  }

  /** When the service name has no space, the composite filter value gives
      back the service and the event name it was built from. */
  lemma {:induction false} SplitCompositeFilter(service: string, eventName: string)
    requires forall i :: 0 <= i < |service| ==> service[i] != ' '
    ensures SplitAtSpace(CompositeFilter(service, eventName)) == (service, eventName)
    decreases |service|
  {
    if service != [] {
      var f := CompositeFilter(service, eventName);
      assert f[1..] == CompositeFilter(service[1..], eventName);
      SplitCompositeFilter(service[1..], eventName);
      assert f[0] == service[0] != ' ';
      assert [service[0]] + service[1..] == service;
    }
  }
}
