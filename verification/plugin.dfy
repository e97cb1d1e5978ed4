/**
 * The plugin's decisions (`FirmwareQuotaPlugin`, src/index.ts:86-128).
 *
 * The host is an object whose state the plugin changes: the records it
 * logs through `client.app.log` and the quota requests it issues (each
 * identified by the bearer key it carries). Each request's result is
 * supplied as a `FetchOutcome`. Activation resolves the key once and
 * returns the hooks; the `event` hook exists only when a key was found,
 * and it keeps that key.
 */
module Plugin {
  import opened Wrappers
  import Credentials
  import Quota

  datatype Level = Warn | Info | Debug

  datatype LogRecord = LogRecord(service: string, level: Level, message: string)

  /** A host event, known by its `type`. */
  datatype Event = Event(kind: string)

  /** The object the plugin returns: empty, or holding the `event` handler with its captured key. */
  datatype Hooks = NoHooks | EventHook(apiKey: string)

  const Service: string := "firmware-quota"

  const NoKeyWarning: string := "No Firmware.ai API key found. Set FIRMWARE_API_KEY environment variable."

  const IdleEventKind: string := "session.idle"

  /** What the plugin does to the host: the log it appends to and the requests it issues. */
  class Host {
    var log: seq<LogRecord>
    var requests: seq<string>

    constructor ()
      ensures log == [] && requests == []
    {
      log := [];
      requests := [];
    }

    /** `client.app.log`. */
    method Log(level: Level, message: string)
      modifies this
      ensures log == old(log) + [LogRecord(Service, level, message)]
      ensures requests == old(requests)
    {
      log := log + [LogRecord(Service, level, message)];
    }

    /** `fetchQuota(apiKey)`: one request with the key, its outcome mapped to a quota or null. */
    method Fetch(apiKey: string, outcome: Quota.FetchOutcome) returns (quota: Option<Quota.QuotaInfo>)
      modifies this
      ensures requests == old(requests) + [apiKey]
      ensures log == old(log)
      ensures quota == Quota.FetchQuota(outcome)
    {
      requests := requests + [apiKey];
      quota := Quota.FetchQuota(outcome);
    }
  }

  /**
   * Activation. The key is resolved once; without one the plugin warns and
   * returns no handler, with one it issues one request, reports, and
   * returns a handler that keeps the key.
   */
  method Activate(host: Host, env: Option<string>, fs: Credentials.FileSystem, outcome: Quota.FetchOutcome)
    returns (hooks: Hooks)
    modifies host
    ensures var key := Credentials.Resolve(env, fs);
      && hooks == (if key.Some? then EventHook(key.value) else NoHooks)
      && host.requests == old(host.requests) + StartupRequests(key)
      && host.log == old(host.log) + StartupLog(key, outcome)
  {
    var apiKey, _ := Credentials.GetApiKey(env, fs);
    if apiKey.None? || apiKey.value == "" {
      host.Log(Warn, NoKeyWarning);
      return NoHooks;
    }
    var quota := host.Fetch(apiKey.value, outcome);
    if quota.Some? {
      host.Log(Info, Quota.FormatQuotaMessage(quota.value));
    }
    return EventHook(apiKey.value);
  }

  /** The requests activation issues: one with the key, or none without a key. */
  function StartupRequests(key: Option<string>): seq<string> {
    if key.Some? then [key.value] else []
  }

  /** The records activation logs: the warning without a key, else the startup report. */
  function StartupLog(key: Option<string>, outcome: Quota.FetchOutcome): seq<LogRecord> {
    if key.Some? then StartupReport(Quota.FetchQuota(outcome)) else [LogRecord(Service, Warn, NoKeyWarning)]
  }

  /** The records a startup request leaves: the full report on success, nothing otherwise. */
  function StartupReport(quota: Option<Quota.QuotaInfo>): seq<LogRecord> {
    if quota.Some? then [LogRecord(Service, Info, Quota.FormatQuotaMessage(quota.value))] else []
  }

  /** The records an idle request leaves: the abbreviated report on success, nothing otherwise. */
  function IdleReport(quota: Option<Quota.QuotaInfo>): seq<LogRecord> {
    if quota.Some? then [LogRecord(Service, Debug, Quota.IdleMessage(quota.value))] else []
  }

  /**
   * The `event` handler. An idle event issues one request with the key kept
   * at activation, and logs the abbreviated report exactly when it
   * succeeds; any other event does nothing.
   */
  method OnEvent(host: Host, hooks: Hooks, event: Event, outcome: Quota.FetchOutcome)
    requires hooks.EventHook?
    modifies host
    ensures event.kind == IdleEventKind ==>
      && host.requests == old(host.requests) + [hooks.apiKey]
      && host.log == old(host.log) + IdleReport(Quota.FetchQuota(outcome))
    ensures event.kind != IdleEventKind ==>
      host.requests == old(host.requests) && host.log == old(host.log)
  {
    if event.kind == IdleEventKind {
      var quota := host.Fetch(hooks.apiKey, outcome);
      if quota.Some? {
        host.Log(Debug, Quota.IdleMessage(quota.value));
      }
    }
  }

  /**
   * A host's view of one activation followed by an idle event and an event
   * of another kind: every request carries the key resolved at activation
   * (the handler never resolves it again), the idle event adds only its
   * debug report, and the other event adds nothing. Without a key there is
   * no handler to deliver events to.
   */
  method ActivateThenEvents(env: Option<string>, fs: Credentials.FileSystem,
                            startup: Quota.FetchOutcome, idle: Quota.FetchOutcome, other: Event)
    returns (log: seq<LogRecord>, requests: seq<string>)
    requires other.kind != IdleEventKind
    ensures var key := Credentials.Resolve(env, fs);
      && (key.None? ==> log == [LogRecord(Service, Warn, NoKeyWarning)] && requests == [])
      && (key.Some? ==>
            && requests == [key.value, key.value]
            && log == StartupReport(Quota.FetchQuota(startup)) + IdleReport(Quota.FetchQuota(idle)))
  {
    var host := new Host();
    var hooks := Activate(host, env, fs, startup);
    if hooks.EventHook? {
      OnEvent(host, hooks, Event(IdleEventKind), idle);
      OnEvent(host, hooks, other, idle);
    }
    return host.log, host.requests;
  }

  /** How many records of a level a log holds. */
  function CountLevel(log: seq<LogRecord>, level: Level): nat {
    if log == [] then 0 else (if log[0].level == level then 1 else 0) + CountLevel(log[1..], level)
  }

  /**
   * Activation without a key logs exactly one record, a warning, and issues
   * no request; with a key it logs no warning, issues exactly one request,
   * and logs one info record, the full report, exactly when the request
   * succeeded.
   */
  lemma StartupCounts(key: Option<string>, outcome: Quota.FetchOutcome)
    ensures key.None? ==>
      && StartupLog(key, outcome) == [LogRecord(Service, Warn, NoKeyWarning)]
      && CountLevel(StartupLog(key, outcome), Warn) == 1
      && StartupRequests(key) == []
    ensures key.Some? ==>
      && CountLevel(StartupLog(key, outcome), Warn) == 0
      && StartupRequests(key) == [key.value]
      && CountLevel(StartupLog(key, outcome), Info) == |StartupLog(key, outcome)| == (if outcome.Ok? then 1 else 0)
    ensures key.Some? && outcome.Ok? ==>
      StartupLog(key, outcome)[0].message == Quota.FormatQuotaMessage(Quota.FetchQuota(outcome).value)
  {
  }

  /**
   * An idle event's request logs at most one record, at debug level, and
   * exactly one when the request succeeded: the abbreviated report.
   */
  lemma IdleCounts(outcome: Quota.FetchOutcome)
    ensures var log := IdleReport(Quota.FetchQuota(outcome));
      && CountLevel(log, Debug) == |log| == (if outcome.Ok? then 1 else 0)
      && (outcome.Ok? ==> log[0].message == Quota.IdleMessage(Quota.FetchQuota(outcome).value))
  {
  }
}
