/** The envelopes the agent sends over the websocket. Each one is a JSON
    object with the keys `system_id`, `timestamp` and `type`, followed by
    the payload keys of its kind. */
module Messages {
  import opened Json
  import opened Services

  /** The keys after `type`, and what they hold. */
  datatype Payload =
    | Nothing                                         // the `get_watch_services` request
    | Hardware(hardware: Json)                        // "hardware"
    | Usage(usage: Json, watched: seq<StatusRecord>)  // "usage", "watched_services"
    | ServiceList(services: seq<ServiceEntry>)        // "services"
    | Failure(error: string)                          // "error", from `send_error`
    | Success(ok: string)                             // "ok", from `send_success`

  /** One outbound message. `timestamp` is the `time.time()` reading taken
      when the envelope was built; the clock is a parameter of the model. */
  datatype Envelope = Envelope(systemId: string, timestamp: real, kind: string, payload: Payload)

  /** The payload as the entries of the dict that `json.dumps` encodes. */
  function PayloadFields(p: Payload): seq<(string, Json)>
  {
    match p
    case Nothing => []
    case Hardware(h) => [("hardware", h)]
    case Usage(u, w) =>
      [("usage", u), ("watched_services", JArr(seq(|w|, i requires 0 <= i < |w| => StatusJson(w[i]))))]
    case ServiceList(s) => [("services", JArr(seq(|s|, i requires 0 <= i < |s| => EntryJson(s[i]))))]
    case Failure(e) => [("error", JStr(e))]
    case Success(m) => [("ok", JStr(m))]
  }

  /** The keys of the encoded envelope, in order. */
  function Keys(e: Envelope): seq<string>
  {
    var fields := PayloadFields(e.payload);
    ["system_id", "timestamp", "type"] + seq(|fields|, i requires 0 <= i < |fields| => fields[i].0)
  }

  /** No key of an envelope repeats, so none of the dict literals the agent
      sends loses an entry to a later one with the same key. */
  lemma KeysDistinct(e: Envelope)
    ensures forall i, j :: 0 <= i < j < |Keys(e)| ==> Keys(e)[i] != Keys(e)[j]
  {
  }

  /** `send_error(ws, kind, error)`. */
  function ErrorEnvelope(systemId: string, now: real, kind: string, error: string): (e: Envelope)
    ensures Keys(e) == ["system_id", "timestamp", "type", "error"]
    ensures e.systemId == systemId && e.timestamp == now && e.kind == kind
    ensures PayloadFields(e.payload) == [("error", JStr(error))]
  {
    Envelope(systemId, now, kind, Failure(error))
  }

  /** `send_success(ws, kind, ok)`; `ok` defaults to the empty string. */
  function SuccessEnvelope(systemId: string, now: real, kind: string, ok: string): (e: Envelope)
    ensures Keys(e) == ["system_id", "timestamp", "type", "ok"]
    ensures e.systemId == systemId && e.timestamp == now && e.kind == kind
    ensures PayloadFields(e.payload) == [("ok", JStr(ok))]
  {
    Envelope(systemId, now, kind, Success(ok))
  }
}
