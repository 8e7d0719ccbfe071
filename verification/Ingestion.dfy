// The idempotency registry and the hand-over of one event to the broker.
module Ingestion {
  import opened Common
  import opened Keys
  import opened Lake

  // One event as a connector (or a polling client) delivers it.
  datatype Arrival = Arrival(psp: string, eventType: string, payload: Payload, contentHash: string)

  // Result of the blocking publish: acknowledged, lost, or stored by the
  // broker although the publish timed out.
  datatype Publish = BrokerAck | BrokerLost | BrokerStoredUnacked

  function KeyOf(a: Arrival): Option<string> {
    IngestKey(a.psp, a.eventType, a.payload, a.contentHash)
  }

  function MessageOf(a: Arrival, key: string): Message {
    Message(a.psp, a.eventType, a.payload, a.contentHash, key)
  }

  // occurrence_count of a key; zero when it has no row.
  function Occurrences(rows: map<string, nat>, key: string): nat {
    if key in rows then rows[key] else 0
  }

  // The upsert of `check_and_register_idempotency_key`.
  function Register(rows: map<string, nat>, key: string): map<string, nat> {
    rows[key := Occurrences(rows, key) + 1]
  }

  class KeyRegistry {
    var rows: map<string, nat>

    constructor ()
      ensures rows == map[]
    {
      rows := map[];
    }

    method CheckAndRegister(key: string) returns (isNew: bool, count: nat)
      modifies this
      ensures rows == Register(old(rows), key)
      ensures isNew <==> key !in old(rows)
      ensures count == Occurrences(rows, key)
    {
      isNew := key !in rows;
      count := if isNew then 1 else rows[key] + 1;
      rows := rows[key := count];
    }

    method Rollback(saved: map<string, nat>)
      modifies this
      ensures rows == saved
    {
      rows := saved;
    }
  }

  class EventLog {
    var entries: seq<Entry>

    constructor ()
      ensures entries == []
    {
      entries := [];
    }

    method Produce(m: Message, p: Publish) returns (acked: bool)
      modifies this
      ensures acked <==> p.BrokerAck?
      ensures entries == if p.BrokerLost? then old(entries) else old(entries) + [Event(m)]
    {
      if !p.BrokerLost? {
        entries := entries + [Event(m)];
      }
      acked := p.BrokerAck?;
    }
  }

  // The response: an error, or (is_new, key).
  datatype Response = Error503 | Ok200(isNew: bool, key: string)

  // `ingest_event` with nobody else around.
  function IngestAlone(rows: map<string, nat>, log: seq<Entry>, a: Arrival, p: Publish)
    : (map<string, nat>, seq<Entry>, Response)
  {
    match KeyOf(a)
    case None => (rows, log, Error503)
    case Some(key) =>
      if key in rows then (Register(rows, key), log, Ok200(false, key))
      else
        var log' := if p.BrokerLost? then log else log + [Event(MessageOf(a, key))];
        if p.BrokerAck? then (Register(rows, key), log', Ok200(true, key)) else (rows, log', Error503)
  }

  method IngestEvent(a: Arrival, p: Publish, registry: KeyRegistry, log: EventLog) returns (r: Response)
    modifies registry, log
    ensures (registry.rows, log.entries, r) == IngestAlone(old(registry.rows), old(log.entries), a, p)
  {
    hide KeyOf, MessageOf;
    var key := KeyOf(a);
    if key.None? {
      return Error503;
    }
    var saved := registry.rows;
    var isNew, _ := registry.CheckAndRegister(key.value);
    if !isNew {
      return Ok200(false, key.value);
    }
    var acked := log.Produce(MessageOf(a, key.value), p);
    if acked {
      r := Ok200(true, key.value);
    } else {
      registry.Rollback(saved);
      r := Error503;
    }
  }
}
