/** The agent process: its identity, its platform and the watch list
    (`WATCH_SERVICES`). `handle_message` replaces the watch list, and every
    tick of `send_loop` reports on it. The watch list outlives each
    connection. */
module Client {
  import opened Outcomes
  import opened Text
  import opened Json
  import opened Services
  import opened Messages
  import opened Dispatch
  import opened Watch
  import opened Connection

  /** One tick of `send_loop`: the `usage_info` envelope, or the exception
      that ends the loop. `usage` is what `get_usage_info()` returned. */
  function UsageReport(systemId: string, os: string, watch: Json, now: real, usage: Json,
                       probe: Json -> Proc): (r: Call<Envelope>)
    ensures r.Raises? <==> !Iterable(watch)
    ensures r.Raises? ==> r.message == NotIterable(watch)
    ensures r.Returns? ==> r.value.systemId == systemId && r.value.timestamp == now
    ensures r.Returns? ==> r.value.kind == "usage_info"
    ensures r.Returns? ==> r.value.payload == Usage(usage, WatchedRecords(os, Members(watch).value, probe))
  {
    match WatchedStatus(os, watch, probe)
    case Raises(m) => Raises(m)
    case Returns(records) => Returns(Envelope(systemId, now, "usage_info", Usage(usage, records)))
  }

  /** `restart_service` on `os`, given its `sc stop`/`systemctl restart`
      outcome `stop` and its `sc start` outcome `start`. */
  function Restarter(os: string, stop: Proc, start: Proc): Json -> Call<RestartRecord>
  {
    n => RestartService(os, n, stop, start)
  }

  /** What happens while a connection is open, in the order the two loops
      ran: a tick of `send_loop`, or a message that `receive_loop` hands to
      `handle_message` together with the outcomes of the OS calls it may
      make. */
  datatype Event =
    | Tick(now: real, usage: Json, probe: Json -> Proc)
    | Inbound(now: real, frame: Frame, listRun: Proc, stop: Proc, start: Proc)

  /** What the loops of one connection did: the envelopes sent, the watch
      list afterwards, and the exception that ended the connection, if any. */
  datatype Trace = Trace(sent: seq<Envelope>, watch: Json, ended: Option<string>)

  function Sent(o: Option<Envelope>): seq<Envelope>
  {
    if o.Some? then [o.value] else []
  }

  /** The loops run from `events[i]` on with watch list `watch`, until an
      event raises. */
  function ReplayFrom(systemId: string, os: string, watch: Json, events: seq<Event>, i: nat): Trace
    requires i <= |events|
    decreases |events| - i
  {
    if i == |events| then Trace([], watch, None)
    else
      match events[i]
      case Tick(now, usage, probe) =>
        (match UsageReport(systemId, os, watch, now, usage, probe)
         case Raises(m) => Trace([], watch, Some(m))
         case Returns(e) =>
           var rest := ReplayFrom(systemId, os, watch, events, i + 1);
           Trace([e] + rest.sent, rest.watch, rest.ended))
      case Inbound(now, frame, listRun, stop, start) =>
        var h := Dispatch.HandleMessage(systemId, now, watch, frame, Listing(os, listRun), Restarter(os, stop, start));
        if h.escaped.Some? then Trace([], h.watch, h.escaped)
        else
          var rest := ReplayFrom(systemId, os, h.watch, events, i + 1);
          Trace(Sent(h.sent) + rest.sent, rest.watch, rest.ended)
  }

  /** What ends a connection's loops: the `TypeError` of a tick on a watch
      list that is not iterable, the `AttributeError` of a frame that
      decodes to a non-object, or what `json.loads` raised on a frame.
      None of these is `InvalidURI` or `InvalidHandshake`, so `transmit`
      counts such a pass as an `Other` ending and connects again
      (`Connection.TransientPass`). */
  lemma {:induction false} ReplayEnded(systemId: string, os: string, watch: Json, events: seq<Event>, i: nat)
    requires i <= |events|
    decreases |events| - i
    ensures var tr := ReplayFrom(systemId, os, watch, events, i);
            tr.ended.Some? ==>
              || (exists w: Json :: !Iterable(w) && tr.ended.value == NotIterable(w))
              || (exists v: Json :: !v.JObj? && tr.ended.value == NoGet(v))
              || (exists j :: i <= j < |events| && events[j].Inbound? && events[j].frame == LoadFails(tr.ended.value))
  {
    if i < |events| {
      var tr := ReplayFrom(systemId, os, watch, events, i);
      match events[i]
      case Tick(now, usage, probe) =>
        if UsageReport(systemId, os, watch, now, usage, probe).Raises? {
          assert !Iterable(watch) && tr.ended.value == NotIterable(watch);
        } else {
          ReplayEnded(systemId, os, watch, events, i + 1);
        }
      case Inbound(now, frame, listRun, stop, start) =>
        var h := Dispatch.HandleMessage(systemId, now, watch, frame, Listing(os, listRun), Restarter(os, stop, start));
        if h.escaped.Some? {
          if frame.Decoded? {
            assert !frame.value.JObj? && tr.ended.value == NoGet(frame.value);
          } else {
            assert events[i].frame == LoadFails(tr.ended.value);
          }
        } else {
          ReplayEnded(systemId, os, h.watch, events, i + 1);
        }
    }
  }

  /** The watch list after one event. */
  function StepWatch(systemId: string, os: string, watch: Json, ev: Event): Json
  {
    match ev
    case Tick(_, _, _) => watch
    case Inbound(now, frame, listRun, stop, start) =>
      Dispatch.HandleMessage(systemId, now, watch, frame, Listing(os, listRun), Restarter(os, stop, start)).watch
  }

  /** One event: a loop that is still running after it goes on from the
      watch list it left, and a raising frame ends the loops there. */
  lemma ReplayStep(systemId: string, os: string, watch: Json, events: seq<Event>, i: nat)
    requires i < |events|
    ensures ReplayFrom(systemId, os, watch, events, i).ended.None?
            ==> ReplayFrom(systemId, os, StepWatch(systemId, os, watch, events[i]), events, i + 1).ended.None?
    ensures events[i].Inbound? && Raising(events[i].frame) ==> ReplayFrom(systemId, os, watch, events, i).ended.Some?
  {
  }

  /** A frame on which `handle_message` raises ends the loops, at that
      frame or earlier. */
  lemma {:induction false} RaisingFrameEnds(systemId: string, os: string, watch: Json, events: seq<Event>, i: nat, j: nat)
    requires i <= j < |events| && events[j].Inbound? && Raising(events[j].frame)
    decreases j - i
    ensures ReplayFrom(systemId, os, watch, events, i).ended.Some?
  {
    ReplayStep(systemId, os, watch, events, i);
    if i < j {
      RaisingFrameEnds(systemId, os, StepWatch(systemId, os, watch, events[i]), events, i + 1, j);
    }
  }

  /** Messages alone, none of them raising, never end the loops. */
  lemma {:induction false} QuietFramesRun(systemId: string, os: string, watch: Json, events: seq<Event>, i: nat)
    requires i <= |events|
    requires forall j :: i <= j < |events| ==> events[j].Inbound? && !Raising(events[j].frame)
    decreases |events| - i
    ensures ReplayFrom(systemId, os, watch, events, i).ended.None?
  {
    if i < |events| {
      var e := events[i];
      var h := Dispatch.HandleMessage(systemId, e.now, watch, e.frame, Listing(os, e.listRun), Restarter(os, e.stop, e.start));
      QuietFramesRun(systemId, os, h.watch, events, i + 1);
    }
  }

  /** A frame that neither raises nor sets a watch list that cannot be
      iterated. */
  predicate KeepsIterable(f: Frame)
  {
    && !Raising(f)
    && (f.Decoded? && f.value.JObj? && MsgType(f.value.fields) == JStr("set_watch_services")
        ==> Iterable(Get(f.value.fields, "services", JArr([]))))
  }

  /** Ticks on an iterable watch list and frames that keep it iterable never
      end the loops: together with `ReplayEnded` and `RaisingFrameEnds`, a
      connection ends exactly when one of its events raises. */
  lemma {:induction false} QuietRun(systemId: string, os: string, watch: Json, events: seq<Event>, i: nat)
    requires i <= |events| && Iterable(watch)
    requires forall j :: i <= j < |events| ==> (events[j].Inbound? ==> KeepsIterable(events[j].frame))
    decreases |events| - i
    ensures ReplayFrom(systemId, os, watch, events, i).ended.None?
  {
    if i < |events| {
      var next := StepWatch(systemId, os, watch, events[i]);
      QuietStep(systemId, os, watch, events, i);
      QuietRun(systemId, os, next, events, i + 1);
    }
  }

  /** An event that does not raise passes the loops on, with a watch list
      that stays iterable. */
  lemma QuietStep(systemId: string, os: string, watch: Json, events: seq<Event>, i: nat)
    requires i < |events| && Iterable(watch)
    requires events[i].Inbound? ==> KeepsIterable(events[i].frame)
    ensures Iterable(StepWatch(systemId, os, watch, events[i]))
    ensures ReplayFrom(systemId, os, watch, events, i).ended
         == ReplayFrom(systemId, os, StepWatch(systemId, os, watch, events[i]), events, i + 1).ended
  {
    if events[i].Inbound? {
      var e := events[i];
      var listing, restart := Listing(os, e.listRun), Restarter(os, e.stop, e.start);
      var h := Dispatch.HandleMessage(systemId, e.now, watch, e.frame, listing, restart);
      if h.watch != watch {
        WatchOnlySetBySetWatch(systemId, e.now, watch, e.frame, listing, restart);
        SetWatch(systemId, e.now, watch, e.frame.value.fields, listing, restart);
      }
    }
  }

  function Kinds(sent: seq<Envelope>): (kinds: seq<string>)
    ensures |kinds| == |sent| && forall i :: 0 <= i < |sent| ==> kinds[i] == sent[i].kind
  {
    seq(|sent|, i requires 0 <= i < |sent| => sent[i].kind)
  }

  /** Every envelope is a usage tick or a reply and carries `systemId`. */
  ghost predicate FromLoops(systemId: string, sent: seq<Envelope>)
  {
    forall k :: 0 <= k < |sent| ==> sent[k].kind in LoopKinds && sent[k].systemId == systemId
  }

  lemma FromLoopsConcat(systemId: string, a: seq<Envelope>, b: seq<Envelope>)
    requires FromLoops(systemId, a) && FromLoops(systemId, b)
    ensures FromLoops(systemId, a + b)
  {
    forall k | 0 <= k < |a + b|
      ensures (a + b)[k].kind in LoopKinds && (a + b)[k].systemId == systemId
    {
      if k >= |a| {
        assert (a + b)[k] == b[k - |a|];
      }
    }
  }

  /** Everything the loops send carries the agent's identifier and is a
      usage tick or a reply. */
  lemma {:induction false} ReplayKinds(systemId: string, os: string, watch: Json, events: seq<Event>, i: nat)
    requires i <= |events|
    decreases |events| - i
    ensures FromLoops(systemId, ReplayFrom(systemId, os, watch, events, i).sent)
  {
    if i < |events| {
      match events[i]
      case Tick(now, usage, probe) =>
        var u := UsageReport(systemId, os, watch, now, usage, probe);
        if u.Returns? {
          ReplayKinds(systemId, os, watch, events, i + 1);
          FromLoopsConcat(systemId, [u.value], ReplayFrom(systemId, os, watch, events, i + 1).sent);
        }
      case Inbound(now, frame, listRun, stop, start) =>
        var h := Dispatch.HandleMessage(systemId, now, watch, frame, Listing(os, listRun), Restarter(os, stop, start));
        if h.escaped.None? {
          if frame.Decoded? {
            ReplyKind(systemId, now, watch, frame.value.fields, Listing(os, listRun), Restarter(os, stop, start));
            assert Sent(h.sent)
                == [Command(systemId, now, watch, frame.value.fields, Listing(os, listRun), Restarter(os, stop, start)).0];
          }
          ReplayKinds(systemId, os, h.watch, events, i + 1);
          FromLoopsConcat(systemId, Sent(h.sent), ReplayFrom(systemId, os, h.watch, events, i + 1).sent);
        }
    }
  }

  /** A `set_watch_services` request followed by a tick: the tick reports
      on exactly the names the request gave, in its order. */
  lemma SetWatchThenTick(systemId: string, os: string, watch: Json, t: real, fields: seq<(string, Json)>,
                         names: seq<Json>, listRun: Proc, stop: Proc, start: Proc,
                         t': real, usage: Json, probe: Json -> Proc)
    requires MsgType(fields) == JStr("set_watch_services")
    requires Get(fields, "services", JArr([])) == JArr(names)
    ensures var tr := ReplayFrom(systemId, os, watch,
                                 [Inbound(t, Decoded(JObj(fields)), listRun, stop, start), Tick(t', usage, probe)], 0);
            && tr.ended.None? && tr.watch == JArr(names) && |tr.sent| == 2
            && tr.sent[0] == Envelope(systemId, t, "set_watch_services", Success(""))
            && tr.sent[1].kind == "usage_info" && tr.sent[1].payload.Usage?
            && |tr.sent[1].payload.watched| == |names|
            && forall i :: 0 <= i < |names| ==> tr.sent[1].payload.watched[i].name == names[i]
  {
    var events := [Inbound(t, Decoded(JObj(fields)), listRun, stop, start), Tick(t', usage, probe)];
    SetWatch(systemId, t, watch, fields, Listing(os, listRun), Restarter(os, stop, start));
    WatchedNames(os, names, probe);
    var h := Dispatch.HandleMessage(systemId, t, watch, events[0].frame, Listing(os, listRun), Restarter(os, stop, start));
    var u := UsageReport(systemId, os, JArr(names), t', usage, probe);
    assert ReplayFrom(systemId, os, JArr(names), events, 2) == Trace([], JArr(names), None);
    assert ReplayFrom(systemId, os, JArr(names), events, 1) == Trace([u.value], JArr(names), None);
    assert ReplayFrom(systemId, os, watch, events, 0) == Trace(Sent(h.sent) + [u.value], JArr(names), None);
  }

  /** A message that does not decode leaves the connection running and the
      watch list as it was, and sends nothing. */
  lemma UndecodableKeepsSession(systemId: string, os: string, watch: Json, events: seq<Event>, i: nat)
    requires i < |events| && events[i].Inbound? && events[i].frame == Undecodable
    ensures ReplayFrom(systemId, os, watch, events, i) == ReplayFrom(systemId, os, watch, events, i + 1)
  {
    var e := events[i];
    UndecodableIsSilent(systemId, e.now, watch, Listing(os, e.listRun), Restarter(os, e.stop, e.start));
  }

  class Agent {
    /** `SYSTEM_ID`, set once from the configuration. */
    const systemId: string
    /** What `platform.system()` reports. */
    const os: string
    /** `WATCH_SERVICES`. */
    var watch: Json

    constructor(systemId: string, os: string)
      ensures this.systemId == systemId && this.os == os && watch == JArr([])
    {
      this.systemId := systemId;
      this.os := os;
      watch := JArr([]);
    }

    /** `handle_message`, with the outcomes of the OS calls it may make. */
    method HandleMessage(now: real, frame: Frame, listRun: Proc, stop: Proc, start: Proc)
      returns (sent: Option<Envelope>, escaped: Option<string>)
      modifies this
      ensures Handled(sent, watch, escaped)
           == Dispatch.HandleMessage(systemId, now, old(watch), frame, Listing(os, listRun), Restarter(os, stop, start))
    {
      sent, escaped := None, None;
      match frame {
        case Undecodable =>
        case LoadFails(m) =>
          escaped := Some(m);
        case Decoded(data) =>
          if !data.JObj? {
            escaped := Some(NoGet(data));
            return;
          }
          var msgType := MsgType(data.fields);
          ghost var reply := Command(systemId, now, watch, data.fields, Listing(os, listRun), Restarter(os, stop, start));
          assert Dispatch.HandleMessage(systemId, now, watch, frame, Listing(os, listRun), Restarter(os, stop, start))
              == Handled(Some(reply.0), reply.1, None);
          if msgType == JStr("get_services") {
            var services := ListServices(os, listRun);
            match services {
              case Returns(s) => sent := Some(Envelope(systemId, now, "get_services", ServiceList(s)));
              case Raises(e) => sent := Some(ErrorEnvelope(systemId, now, "get_services", e));
            }
          } else if msgType == JStr("set_watch_services") {
            watch := Get(data.fields, "services", JArr([]));
            sent := Some(SuccessEnvelope(systemId, now, "set_watch_services", ""));
          } else if msgType == JStr("restart_service") {
            var name := Get(data.fields, "service", JNull);
            if Truthy(name) {
              var result := RestartService(os, name, stop, start);
              assert Restarter(os, stop, start)(name) == result;
              match result {
                case Returns(_) =>
                  sent := Some(SuccessEnvelope(systemId, now, "restart_service",
                                               "Service " + Str(name) + " restarted successfully."));
                case Raises(e) => sent := Some(ErrorEnvelope(systemId, now, "restart_service", e));
              }
            } else {
              sent := Some(ErrorEnvelope(systemId, now, "restart_service", "Missing service name"));
            }
          } else {
            sent := Some(ErrorEnvelope(systemId, now, "unknown", "Unknown message type"));
          }
      }
    }

    /** One tick of `send_loop`. */
    method Tick(now: real, usage: Json, probe: Json -> Proc) returns (r: Call<Envelope>)
      ensures r == UsageReport(systemId, os, watch, now, usage, probe)
    {
      var names := Members(watch);
      match names {
        case Raises(e) =>
          r := Raises(e);
        case Returns(ns) =>
          var records := WatchedServicesStatus(os, ns, probe);
          r := Returns(Envelope(systemId, now, "usage_info", Usage(usage, records)));
      }
    }

    /** One connection of `transmit`: the watch-list request, the hardware
        description, then the two loops' events in the order they ran, until
        one of them raises. `hardware` is what `get_hardware_info()` returned. */
    method Session(opening: real, described: real, hardware: Json, events: seq<Event>)
      returns (sent: seq<Envelope>, ended: Option<string>)
      modifies this
      ensures var tr := ReplayFrom(systemId, os, old(watch), events, 0);
              && sent == [Envelope(systemId, opening, "get_watch_services", Nothing),
                          Envelope(systemId, described, "hardware_info", Hardware(hardware))] + tr.sent
              && watch == tr.watch && ended == tr.ended
      ensures SessionOrder(Kinds(sent))
      ensures forall k :: 0 <= k < |sent| ==> sent[k].systemId == systemId
    {
      ghost var initial := watch;
      var out: seq<Envelope> := [];
      ended := None;
      var i := 0;
      while i < |events| && ended.None?
        invariant 0 <= i <= |events|
        invariant ended.None? ==>
                    var rest := ReplayFrom(systemId, os, watch, events, i);
                    ReplayFrom(systemId, os, initial, events, 0) == Trace(out + rest.sent, rest.watch, rest.ended)
        invariant ended.Some? ==> ReplayFrom(systemId, os, initial, events, 0) == Trace(out, watch, ended)
      {
        match events[i] {
          case Tick(now, usage, probe) =>
            var r := Tick(now, usage, probe);
            match r {
              case Raises(e) =>
                ended := Some(e);
              case Returns(env) =>
                ConcatAssoc(out, [env], ReplayFrom(systemId, os, watch, events, i + 1).sent);
                out := out + [env];
            }
          case Inbound(now, frame, listRun, stop, start) =>
            var reply, escaped := HandleMessage(now, frame, listRun, stop, start);
            if escaped.None? {
              ConcatAssoc(out, Sent(reply), ReplayFrom(systemId, os, watch, events, i + 1).sent);
            } else {
              assert reply.None?;
            }
            out := out + Sent(reply);
            ended := escaped;
        }
        i := i + 1;
      }
      assert out + [] == out;
      sent := [Envelope(systemId, opening, "get_watch_services", Nothing),
               Envelope(systemId, described, "hardware_info", Hardware(hardware))] + out;
      ReplayKinds(systemId, os, initial, events, 0);
      SessionOrderShape(Kinds(sent));
    }
  }
}
