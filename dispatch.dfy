/** `handle_message`: one inbound websocket message, the reply it sends and
    what it does to the watch list. The two OS helpers it may call,
    `list_services` and `restart_service`, are parameters: `listing` is what
    `list_services()` returns or raises, and `restart(n)` is what
    `restart_service(n)` returns or raises. */
module Dispatch {
  import opened Outcomes
  import opened Json
  import opened Services
  import opened Messages

  /** An inbound message as `json.loads` sees it: text it cannot decode
      (`JSONDecodeError`, which the handler catches), a message on which it
      raises anything else (`UnicodeDecodeError` on a binary frame that is
      not UTF-8, `RecursionError` on very deep nesting), or the value it
      decodes to. */
  datatype Frame = Undecodable | LoadFails(message: string) | Decoded(value: Json)

  /** A frame on which `handle_message` raises. */
  predicate Raising(f: Frame)
  {
    f.LoadFails? || (f.Decoded? && !f.value.JObj?)
  }

  /** What one call of `handle_message` did. `sent` is the envelope it sent,
      if any. `watch` is the watch list afterwards. `escaped` is the text of
      an exception that left the handler, if any; such an exception ends the
      receive loop. */
  datatype Handled = Handled(sent: Option<Envelope>, watch: Json, escaped: Option<string>)

  /** The message type of a decoded object: `data.get("type", "unknown")`. */
  function MsgType(fields: seq<(string, Json)>): Json
  {
    Get(fields, "type", JStr("unknown"))
  }

  predicate Known(t: Json)
  {
    t == JStr("get_services") || t == JStr("set_watch_services") || t == JStr("restart_service")
  }

  /** The `AttributeError` that `data.get` raises on a decoded value that is
      not a dict. */
  function NoGet(v: Json): string
  {
    "'" + TypeName(v) + "' object has no attribute 'get'"
  }

  /** The reply to a `restart_service` request naming `name`. */
  function RestartReply(systemId: string, now: real, name: Json,
                        restart: Json -> Call<RestartRecord>): Envelope
  {
    if !Truthy(name) then ErrorEnvelope(systemId, now, "restart_service", "Missing service name")
    else
      match restart(name)
      case Returns(_) =>
        SuccessEnvelope(systemId, now, "restart_service", "Service " + Str(name) + " restarted successfully.")
      case Raises(m) => ErrorEnvelope(systemId, now, "restart_service", m)
  }

  /** The branches of `handle_message` for a decoded object `fields`: the
      reply and the watch list afterwards. */
  function Command(systemId: string, now: real, watch: Json, fields: seq<(string, Json)>,
                   listing: Call<seq<ServiceEntry>>,
                   restart: Json -> Call<RestartRecord>): (r: (Envelope, Json))
    ensures r.0.systemId == systemId && r.0.timestamp == now
    ensures r.1 != watch ==> MsgType(fields) == JStr("set_watch_services")
  {
    var t := MsgType(fields);
    if t == JStr("get_services") then
      match listing
      case Returns(services) => (Envelope(systemId, now, "get_services", ServiceList(services)), watch)
      case Raises(m) => (ErrorEnvelope(systemId, now, "get_services", m), watch)
    else if t == JStr("set_watch_services") then
      (SuccessEnvelope(systemId, now, "set_watch_services", ""), Get(fields, "services", JArr([])))
    else if t == JStr("restart_service") then
      (RestartReply(systemId, now, Get(fields, "service", JNull), restart), watch)
    else
      (ErrorEnvelope(systemId, now, "unknown", "Unknown message type"), watch)
  }

  /** `handle_message(ws, frame)` with `watch` the value of `WATCH_SERVICES`
      on entry and `now` the clock reading taken for the reply. */
  function HandleMessage(systemId: string, now: real, watch: Json, frame: Frame,
                         listing: Call<seq<ServiceEntry>>,
                         restart: Json -> Call<RestartRecord>): (h: Handled)
    ensures h.escaped.Some? <==> Raising(frame)
    ensures frame.LoadFails? ==> h.escaped == Some(frame.message) && h.watch == watch
    ensures frame.Decoded? && !frame.value.JObj? ==> h.escaped == Some(NoGet(frame.value)) && h.watch == watch
    ensures h.sent.Some? <==> frame.Decoded? && frame.value.JObj?
    ensures h.sent.Some? ==> h.sent.value.systemId == systemId && h.sent.value.timestamp == now
  {
    match frame
    case Undecodable => Handled(None, watch, None)
    case LoadFails(m) => Handled(None, watch, Some(m))
    case Decoded(JObj(fields)) =>
      var r := Command(systemId, now, watch, fields, listing, restart);
      Handled(Some(r.0), r.1, None)
    case Decoded(v) => Handled(None, watch, Some(NoGet(v)))
  }

  /** A message that does not decode is dropped: no reply, no change and
      no exception. */
  lemma UndecodableIsSilent(systemId: string, now: real, watch: Json,
                            listing: Call<seq<ServiceEntry>>, restart: Json -> Call<RestartRecord>)
    ensures HandleMessage(systemId, now, watch, Undecodable, listing, restart) == Handled(None, watch, None)
  {
  }

  /** An object whose `type` is missing or not one of the three known kinds
      gets exactly one reply, the `unknown` error, and changes nothing. */
  lemma UnknownType(systemId: string, now: real, watch: Json, fields: seq<(string, Json)>,
                    listing: Call<seq<ServiceEntry>>, restart: Json -> Call<RestartRecord>)
    requires !Known(MsgType(fields))
    ensures HandleMessage(systemId, now, watch, Decoded(JObj(fields)), listing, restart)
         == Handled(Some(ErrorEnvelope(systemId, now, "unknown", "Unknown message type")), watch, None)
  {
  }

  /** A missing `type` is the unknown kind. */
  lemma MissingType(fields: seq<(string, Json)>)
    requires forall k :: 0 <= k < |fields| ==> fields[k].0 != "type"
    ensures !Known(MsgType(fields))
  {
  }

  /** `set_watch_services` replaces the watch list wholesale with the
      request's `services` (an empty list when absent) and replies with
      an empty success. */
  lemma SetWatch(systemId: string, now: real, watch: Json, fields: seq<(string, Json)>,
                 listing: Call<seq<ServiceEntry>>, restart: Json -> Call<RestartRecord>)
    requires MsgType(fields) == JStr("set_watch_services")
    ensures var h := HandleMessage(systemId, now, watch, Decoded(JObj(fields)), listing, restart);
            h.watch == Get(fields, "services", JArr([]))
            && h.sent == Some(Envelope(systemId, now, "set_watch_services", Success("")))
            && h.escaped.None?
  {
  }

  /** Only `set_watch_services` changes the watch list. */
  lemma WatchOnlySetBySetWatch(systemId: string, now: real, watch: Json, frame: Frame,
                               listing: Call<seq<ServiceEntry>>, restart: Json -> Call<RestartRecord>)
    requires HandleMessage(systemId, now, watch, frame, listing, restart).watch != watch
    ensures frame.Decoded? && frame.value.JObj? && MsgType(frame.value.fields) == JStr("set_watch_services")
  {
  }

  /** A `restart_service` request without a truthy `service` gets the
      "Missing service name" error, and what the restart helper would have
      done plays no part: it is not called. */
  lemma RestartNeedsName(systemId: string, now: real, watch: Json, fields: seq<(string, Json)>,
                         listing: Call<seq<ServiceEntry>>,
                         restart: Json -> Call<RestartRecord>, restart': Json -> Call<RestartRecord>)
    requires MsgType(fields) == JStr("restart_service") && !Truthy(Get(fields, "service", JNull))
    ensures HandleMessage(systemId, now, watch, Decoded(JObj(fields)), listing, restart)
         == HandleMessage(systemId, now, watch, Decoded(JObj(fields)), listing, restart')
         == Handled(Some(ErrorEnvelope(systemId, now, "restart_service", "Missing service name")), watch, None)
  {
  }

  /** With a truthy name, the reply is a success whenever the restart
      helper returns, even a record with `success` false, and an error
      carrying the exception text exactly when it raises. */
  lemma RestartReplies(systemId: string, now: real, watch: Json, fields: seq<(string, Json)>,
                       listing: Call<seq<ServiceEntry>>, restart: Json -> Call<RestartRecord>)
    requires MsgType(fields) == JStr("restart_service")
    requires var n := Get(fields, "service", JNull); Truthy(n)
    ensures var n := Get(fields, "service", JNull);
            var h := HandleMessage(systemId, now, watch, Decoded(JObj(fields)), listing, restart);
            h.watch == watch && h.escaped.None?
            && (restart(n).Returns? <==>
                  h.sent == Some(Envelope(systemId, now, "restart_service",
                                          Success("Service " + Str(n) + " restarted successfully."))))
            && (restart(n).Raises? ==>
                  h.sent == Some(Envelope(systemId, now, "restart_service", Failure(restart(n).message))))
  {
  }

  /** `get_services` replies with the listed services, or with the error
      text when listing raises; only this kind consults the listing. */
  lemma GetServices(systemId: string, now: real, watch: Json, fields: seq<(string, Json)>,
                    listing: Call<seq<ServiceEntry>>, listing': Call<seq<ServiceEntry>>,
                    restart: Json -> Call<RestartRecord>)
    ensures var h := HandleMessage(systemId, now, watch, Decoded(JObj(fields)), listing, restart);
            MsgType(fields) == JStr("get_services") ==>
              h.watch == watch && h.escaped.None?
              && h.sent == Some(match listing
                                case Returns(s) => Envelope(systemId, now, "get_services", ServiceList(s))
                                case Raises(m) => Envelope(systemId, now, "get_services", Failure(m)))
    ensures MsgType(fields) != JStr("get_services") ==>
              (HandleMessage(systemId, now, watch, Decoded(JObj(fields)), listing, restart)
               == HandleMessage(systemId, now, watch, Decoded(JObj(fields)), listing', restart))
  {
  }

  /** Every reply is of the kind of the request it answers, or `unknown`. */
  lemma ReplyKind(systemId: string, now: real, watch: Json, fields: seq<(string, Json)>,
                  listing: Call<seq<ServiceEntry>>, restart: Json -> Call<RestartRecord>)
    ensures var kind := Command(systemId, now, watch, fields, listing, restart).0.kind;
            && (kind == "get_services" || kind == "set_watch_services"
                || kind == "restart_service" || kind == "unknown")
            && (if Known(MsgType(fields)) then JStr(kind) == MsgType(fields) else kind == "unknown")
  {
    var e := Command(systemId, now, watch, fields, listing, restart).0;
    var t := MsgType(fields);
    if t == JStr("get_services") {
      assert e.kind == "get_services";
    } else if t == JStr("set_watch_services") {
      assert e.kind == "set_watch_services";
    } else if t == JStr("restart_service") {
      assert e.kind == "restart_service";
    } else {
      assert e.kind == "unknown";
    }
  }
}
