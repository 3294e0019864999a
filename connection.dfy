/** `transmit`: the reconnect delay, what ends the retry loop, and the order
    in which one connection's messages go out. The websocket itself, the
    sleeps and the two concurrent loops are outside the model; what each
    session ended with is given. */
module Connection {
  import opened Outcomes

  /** Python's `min(a, b)` and `max(a, b)` on floats: the first argument
      unless the second is strictly smaller (greater). */
  function Min(a: real, b: real): real
  {
    if b < a then b else a
  }

  function Max(a: real, b: real): real
  {
    if b > a then b else a
  }

  /** `reconnect_delay = min(max(interval, 1.0), 30.0)`, in seconds. */
  function ReconnectDelay(interval: real): (d: real)
    ensures 1.0 <= d <= 30.0
    ensures 1.0 <= interval <= 30.0 ==> d == interval
    ensures interval < 1.0 ==> d == 1.0
    ensures interval > 30.0 ==> d == 30.0
  {
    Min(Max(interval, 1.0), 30.0)
  }

  /** The exception that ended one pass of `transmit`'s loop: a connection
      attempt, or the session it opened, raised it. */
  datatype Ending =
    | InvalidURI(message: string)
    | InvalidHandshake(message: string)
    | Other(message: string)   // anything else, including what escapes a session (Client.ReplayEnded)

  /** The two websocket exceptions that `transmit` turns into `SystemExit`. */
  predicate Fatal(e: Ending)
  {
    e.InvalidURI? || e.InvalidHandshake?
  }

  function ConfigError(e: Ending): string
  {
    "WebSocket configuration error: " + e.message
  }

  /** What `transmit` did over a run of sessions: the sleep before each
      retry, and the `SystemExit` text if it stopped. With no fatal ending
      the loop is still retrying after the last given session. */
  datatype Run = Run(sleeps: seq<real>, exit: Option<string>)

  /** The loop from the pass that ends as `ends[i]`, sleeping `delay`
      before each retry. */
  function RetriesFrom(delay: real, ends: seq<Ending>, i: nat): Run
    requires i <= |ends|
    decreases |ends| - i
  {
    if i == |ends| then Run([], None)
    else if Fatal(ends[i]) then Run([], Some(ConfigError(ends[i])))
    else
      var rest := RetriesFrom(delay, ends, i + 1);
      Run([delay] + rest.sleeps, rest.exit)
  }

  function Retries(interval: real, ends: seq<Ending>): Run
  {
    RetriesFrom(ReconnectDelay(interval), ends, 0)
  }

  /** From pass `i` on: every sleep is `delay`; one sleep per non-fatal
      pass up to the first fatal one, which sets the exit text; without a
      fatal pass, one sleep per pass. */
  lemma {:induction false} RetriesFromShape(delay: real, ends: seq<Ending>, i: nat)
    requires i <= |ends|
    decreases |ends| - i
    ensures var r := RetriesFrom(delay, ends, i);
            && i + |r.sleeps| <= |ends|
            && (forall k :: 0 <= k < |r.sleeps| ==> r.sleeps[k] == delay)
            && (forall j :: i <= j < i + |r.sleeps| ==> !Fatal(ends[j]))
            && (r.exit.None? <==> i + |r.sleeps| == |ends|)
            && (r.exit.Some? ==> Fatal(ends[i + |r.sleeps|]) && r.exit.value == ConfigError(ends[i + |r.sleeps|]))
  {
    if i < |ends| && !Fatal(ends[i]) {
      RetriesFromShape(delay, ends, i + 1);
    }
  }

  /** `transmit` waits the same clamped delay before every retry, stops
      exactly when a pass ends fatally, and then only at the first such
      pass, with that pass's message; otherwise it retries every time. */
  lemma RetriesShape(interval: real, ends: seq<Ending>)
    ensures var r := Retries(interval, ends);
            && |r.sleeps| <= |ends|
            && (forall k :: 0 <= k < |r.sleeps| ==> r.sleeps[k] == ReconnectDelay(interval))
            && (forall k :: 0 <= k < |r.sleeps| ==> 1.0 <= r.sleeps[k] <= 30.0)
            && (r.exit.Some? <==> exists j :: 0 <= j < |ends| && Fatal(ends[j]))
            && (r.exit.Some? ==> |r.sleeps| < |ends| && r.exit.value == ConfigError(ends[|r.sleeps|]))
            && (forall j :: 0 <= j < |r.sleeps| ==> !Fatal(ends[j]))
            && (r.exit.None? ==> |r.sleeps| == |ends|)
  {
    RetriesFromShape(ReconnectDelay(interval), ends, 0);
  }

  /** A pass that ends in anything but the two websocket exceptions costs
      one sleep of the clamped delay, and the loop goes on as before. */
  lemma TransientPass(interval: real, m: string, ends: seq<Ending>)
    ensures Retries(interval, [Other(m)] + ends)
         == Run([ReconnectDelay(interval)] + Retries(interval, ends).sleeps, Retries(interval, ends).exit)
  {
    RetriesFromCons(ReconnectDelay(interval), Other(m), ends, 0);
  }

  lemma {:induction false} RetriesFromCons(delay: real, e: Ending, ends: seq<Ending>, i: nat)
    requires i <= |ends|
    decreases |ends| - i
    ensures RetriesFrom(delay, [e] + ends, i + 1) == RetriesFrom(delay, ends, i)
  {
    assert ([e] + ends)[i + 1..] == ends[i..];
    if i < |ends| {
      assert ([e] + ends)[i + 1] == ends[i];
      RetriesFromCons(delay, e, ends, i + 1);
    }
  }

  /** The `while True` loop of `transmit`, run over the given passes. */
  method Transmit(interval: real, ends: seq<Ending>) returns (r: Run)
    ensures r == Retries(interval, ends)
  {
    var delay := ReconnectDelay(interval);
    var sleeps: seq<real> := [];
    var i := 0;
    while i < |ends|
      invariant 0 <= i <= |ends|
      invariant Retries(interval, ends)
             == Run(sleeps + RetriesFrom(delay, ends, i).sleeps, RetriesFrom(delay, ends, i).exit)
    {
      if Fatal(ends[i]) {
        return Run(sleeps, Some(ConfigError(ends[i])));
      }
      var rest := RetriesFrom(delay, ends, i + 1).sleeps;
      assert sleeps + ([delay] + rest) == (sleeps + [delay]) + rest;
      sleeps := sleeps + [delay];
      i := i + 1;
    }
    return Run(sleeps, None);
  }

  // ----- the order of one connection's messages -----

  /** Where a connection is in its fixed opening: nothing sent yet, the
      watch-list request sent, or the hardware description sent and the
      send and receive loops running. */
  datatype Phase = Opened | Requested | Serving

  /** The kinds the two loops send: the usage tick and the four replies of
      `handle_message`. */
  const LoopKinds := ["usage_info", "get_services", "set_watch_services", "restart_service", "unknown"]

  function Step(p: Phase, kind: string): Option<Phase>
  {
    match p
    case Opened => if kind == "get_watch_services" then Some(Requested) else None
    case Requested => if kind == "hardware_info" then Some(Serving) else None
    case Serving => if kind in LoopKinds then Some(Serving) else None
  }

  /** The phase after sending `kinds[i..]` from `p`, or `None` when a
      message is out of order. */
  function Walk(p: Phase, kinds: seq<string>, i: nat): Option<Phase>
    requires i <= |kinds|
    decreases |kinds| - i
  {
    if i == |kinds| then Some(p)
    else
      match Step(p, kinds[i])
      case None => None
      case Some(q) => Walk(q, kinds, i + 1)
  }

  /** The kinds a connection sent, in order, follow the opening. */
  predicate SessionOrder(kinds: seq<string>)
  {
    Walk(Opened, kinds, 0).Some?
  }

  lemma {:induction false} WalkServing(kinds: seq<string>, i: nat)
    requires i <= |kinds|
    decreases |kinds| - i
    ensures Walk(Serving, kinds, i).Some? <==> forall j :: i <= j < |kinds| ==> kinds[j] in LoopKinds
  {
    if i < |kinds| {
      WalkServing(kinds, i + 1);
    }
  }

  /** The opening in plain terms: the watch-list request first, the
      hardware description second, and only loop messages after them. */
  lemma SessionOrderShape(kinds: seq<string>)
    ensures SessionOrder(kinds) <==>
              && (|kinds| > 0 ==> kinds[0] == "get_watch_services")
              && (|kinds| > 1 ==> kinds[1] == "hardware_info")
              && (forall j :: 2 <= j < |kinds| ==> kinds[j] in LoopKinds)
  {
    if |kinds| > 0 && kinds[0] == "get_watch_services" {
      assert Walk(Opened, kinds, 0) == Walk(Requested, kinds, 1);
      if |kinds| > 1 && kinds[1] == "hardware_info" {
        assert Walk(Requested, kinds, 1) == Walk(Serving, kinds, 2);
        WalkServing(kinds, 2);
      }
    }
  }

  /** No usage tick goes out before the hardware description. */
  lemma HardwareBeforeUsage(kinds: seq<string>, j: nat)
    requires SessionOrder(kinds) && j < |kinds| && kinds[j] == "usage_info"
    ensures j >= 2 && kinds[1] == "hardware_info"
  {
    SessionOrderShape(kinds);
  }
}
