/** `load_config`: the checks applied to the decoded `config.toml` table.
    Reading and decoding the file are outside the model: the table is
    given, or `None` when opening or decoding the file raised. */
module Config {
  import opened Outcomes
  import opened Text
  import opened Json

  /** One value of the decoded table as `load_config` uses it: the text
      `str()` gives for it, and the number `float()` makes of it (`None`
      when `float()` raises). */
  datatype Setting = Setting(text: string, number: Option<real>)

  /** The triple `load_config` returns. */
  datatype Settings = Settings(systemId: string, url: string, interval: real)

  const DefaultInterval := 10.0

  /** `str(cfg.get(key, ""))`. */
  function TextOf(table: seq<(string, Setting)>, key: string): string
  {
    match Lookup(table, key)
    case None => ""
    case Some(v) => v.text
  }

  /** `float(cfg.get("interval", 10.0))`, or `None` when `float()` raises. */
  function IntervalOf(table: seq<(string, Setting)>): Option<real>
  {
    match Lookup(table, "interval")
    case None => Some(DefaultInterval)
    case Some(v) => v.number
  }

  predicate WsScheme(url: string)
  {
    StartsWith(url, "ws://") || StartsWith(url, "wss://")
  }

  // The `SystemExit` texts; `path` is the text of the configuration path.

  function MissingId(path: string): string
  {
    "Missing 'system-identifier' in " + path + "; please set it to a unique identifier for this machine."
  }

  function MissingUrl(path: string): string
  {
    "Missing 'url' in " + path + "; please set it to your WebSocket server URL."
  }

  function BadUrl(path: string): string
  {
    "Invalid 'url' in " + path + "; must start with 'ws://' or 'wss://'."
  }

  function BadInterval(path: string): string
  {
    "Invalid 'interval' in " + path + "; must be a positive number."
  }

  /** What the outer `except Exception` raises instead of any other
      exception. `SystemExit` is not an `Exception`, so the four texts above
      pass through it unchanged. */
  function FixConfig(path: string): string
  {
    "Please fix the configuration file at " + path + " and try again."
  }

  /** `load_config()`: the checks in source order, the first failure
      ending the call. */
  function LoadConfig(path: string, table: Option<seq<(string, Setting)>>): (r: Call<Settings>)
    ensures r.Returns? ==> r.value.systemId != [] && r.value.url != [] && WsScheme(r.value.url)
    ensures r.Returns? ==> r.value.interval > 0.0
  {
    match table
    case None => Raises(FixConfig(path))
    case Some(cfg) =>
      var id := Strip(TextOf(cfg, "system-identifier"));
      if id == [] then Raises(MissingId(path))
      else
        var url := Strip(TextOf(cfg, "url"));
        if url == [] then Raises(MissingUrl(path))
        else if !WsScheme(url) then Raises(BadUrl(path))
        else
          match IntervalOf(cfg)
          case None => Raises(FixConfig(path))
          case Some(interval) =>
            if interval <= 0.0 then Raises(BadInterval(path))
            else Returns(Settings(id, url, interval))
  }

  /** The configuration is accepted exactly when every check passes, and
      the triple holds the stripped identifier and url and the interval. */
  lemma Accepts(path: string, cfg: seq<(string, Setting)>)
    ensures var r := LoadConfig(path, Some(cfg));
            var id := Strip(TextOf(cfg, "system-identifier"));
            var url := Strip(TextOf(cfg, "url"));
            r.Returns? <==> id != [] && url != [] && WsScheme(url)
                            && IntervalOf(cfg).Some? && IntervalOf(cfg).value > 0.0
    ensures var r := LoadConfig(path, Some(cfg));
            r.Returns? ==>
              r.value == Settings(Strip(TextOf(cfg, "system-identifier")), Strip(TextOf(cfg, "url")),
                                  IntervalOf(cfg).value)
  {
  }

  /** Without an `interval` key the interval is 10 seconds. */
  lemma DefaultsToTen(path: string, cfg: seq<(string, Setting)>)
    requires forall k :: 0 <= k < |cfg| ==> cfg[k].0 != "interval"
    ensures IntervalOf(cfg) == Some(10.0)
    ensures LoadConfig(path, Some(cfg)).Returns? ==> LoadConfig(path, Some(cfg)).value.interval == 10.0
  {
    Accepts(path, cfg);
  }

  /** The checks run in order and the first failing one decides the
      error. */
  lemma FirstFailure(path: string, cfg: seq<(string, Setting)>)
    ensures var r := LoadConfig(path, Some(cfg));
            var id := Strip(TextOf(cfg, "system-identifier"));
            var url := Strip(TextOf(cfg, "url"));
            (id == [] ==> r == Raises(MissingId(path)))
            && (id != [] && url == [] ==> r == Raises(MissingUrl(path)))
            && (id != [] && url != [] && !WsScheme(url) ==> r == Raises(BadUrl(path)))
            && (id != [] && url != [] && WsScheme(url) && IntervalOf(cfg).None? ==>
                  r == Raises(FixConfig(path)))
            && (id != [] && url != [] && WsScheme(url) && IntervalOf(cfg).Some? && IntervalOf(cfg).value <= 0.0 ==>
                  r == Raises(BadInterval(path)))
  {
  }

  /** A file that cannot be read or decoded gives the generic message. */
  lemma Unreadable(path: string)
    ensures LoadConfig(path, None) == Raises(FixConfig(path))
  {
  }
}
