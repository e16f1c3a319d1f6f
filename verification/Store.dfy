/** The execution store: one record per execution and a log of events. */
module Stores {
  import opened Wrappers
  import opened Json

  datatype Phase = Pending | Running | Waiting | Suspended | Cancelled | Faulted | Completed {
    predicate Terminal() {
      Cancelled? || Faulted? || Completed?
    }
  }

  datatype Record = Record(
    id: string, workflow: string, phase: Phase, context: Value, pointer: Value, error: Option<Value>)

  datatype Event = Event(id: string, sequence: nat, kind: string)

  class Store {
    var records: map<string, Record>
    var events: seq<Event>

    constructor ()
      ensures records == map[] && events == []
    {
      records, events := map[], [];
    }

    method Create(record: Record)
      modifies this
      ensures records == old(records)[record.id := record] && events == old(events)
    {
      records := records[record.id := record];
    }

    method Load(id: string) returns (r: Option<Record>)
      ensures r == if id in records then Some(records[id]) else None
    {
      r := if id in records then Some(records[id]) else None;
    }

    method Update(record: Record)
      modifies this
      ensures records == old(records)[record.id := record] && events == old(events)
    {
      records := records[record.id := record];
    }

    method AppendEvent(event: Event)
      modifies this
      ensures records == old(records) && events == old(events) + [event]
    {
      events := events + [event];
    }
  }
}
