/**
 * `AppBundle\EventHandler\EventHandler`: a Monolog handler that forwards
 * every record above DEBUG to Keboola Storage as an event, once a Storage
 * API client has been given to it.
 */
module EventHandling {
  import opened Optional
  import opened OrderedMap
  import opened Php

  /** Monolog's level numbers. */
  const DEBUG := 100
  const INFO := 200
  const NOTICE := 250
  const WARNING := 300
  const ERROR := 400
  const CRITICAL := 500
  const ALERT := 550
  const EMERGENCY := 600

  predicate IsLevel(level: int) {
    level in {DEBUG, INFO, NOTICE, WARNING, ERROR, CRITICAL, ALERT, EMERGENCY}
  }

  const AppName := "docker-lgr-bundle"
  const HiddenMessage := "Application error"
  const SupportHint := "Contact support@keboola.com"

  /** `Event::TYPE_INFO`, `TYPE_WARN` and `TYPE_ERROR`. */
  datatype EventType = InfoEvent | WarnEvent | ErrorEvent

  /** A Storage event; `runId` is `None` when the client has no run id. */
  datatype Event = Event(component: string, message: string, description: Option<string>, runId: Option<string>,
                         params: Dict<Value>, results: Dict<Value>, eventType: EventType)

  /** A log record; a key the record lacks reads as `Null`. */
  datatype Record = Record(level: int, message: string, http: Value, context: Value)

  /**
   * The Storage API client as far as the handler uses it: its run id and
   * the events created through it.
   */
  class StorageClient {
    const token: string
    const url: string
    var runId: Option<string>
    var events: seq<Event>

    constructor(token: string, url: string)
      ensures this.token == token && this.url == url && runId == None && events == []
    {
      this.token := token;
      this.url := url;
      runId := None;
      events := [];
    }

    method SetRunId(runId: string)
      modifies this
      ensures this.runId == Some(runId) && events == old(events)
    {
      this.runId := Some(runId);
    }

    method CreateEvent(event: Event)
      modifies this
      ensures events == old(events) + [event] && runId == old(runId)
    {
      events := events + [event];
    }
  }

  /** The event type a level maps to. */
  function TypeOf(level: int): EventType {
    if level == ERROR || level == CRITICAL || level == EMERGENCY || level == ALERT then ErrorEvent
    else if level == WARNING || level == NOTICE then WarnEvent
    else InfoEvent
  }

  /** The event `handle` creates for a record, for a client with the given run id. */
  function EventFor(appName: string, runId: Option<string>, record: Record): (e: Event)
    ensures e.component == appName && e.runId == runId && e.eventType == TypeOf(record.level)
  {
    var severe := record.level == CRITICAL || record.level == EMERGENCY || record.level == ALERT;
    var params := if record.http != Null then [("http", record.http)] else [];
    var withException := if IsSet(record.context, "exceptionId") then [("exceptionId", At(record.context, "exceptionId"))] else [];
    var results := withException + if IsSet(record.context, "job") then [("job", At(record.context, "job"))] else [];
    Event(appName, if severe then HiddenMessage else record.message, if severe then Some(SupportHint) else None,
          runId, params, results, TypeOf(record.level))
  }

  /**
   * For the standard levels above DEBUG: the event is an error exactly from
   * ERROR up, a warning for NOTICE and WARNING, information for INFO; the
   * record's own message is replaced, and a support hint added, exactly for
   * the levels above ERROR.
   */
  lemma {:induction false} EventSeverity(appName: string, runId: Option<string>, record: Record)
    requires IsLevel(record.level) && record.level != DEBUG
    ensures var e := EventFor(appName, runId, record);
      (e.eventType == ErrorEvent <==> record.level >= ERROR)
      && (e.eventType == WarnEvent <==> NOTICE <= record.level < ERROR)
      && (e.eventType == InfoEvent <==> record.level == INFO)
      && (e.description.Some? <==> record.level > ERROR)
      && (record.level <= ERROR ==> e.message == record.message)
      && (record.level > ERROR ==> e.message == HiddenMessage && e.description == Some(SupportHint))
  {
  }

  /** Any level outside Monolog's list is reported as information with its message unchanged. */
  lemma {:induction false} UnknownLevelIsInfo(appName: string, runId: Option<string>, record: Record)
    requires !IsLevel(record.level)
    ensures EventFor(appName, runId, record).eventType == InfoEvent
    ensures EventFor(appName, runId, record).message == record.message
  {
  }

  /**
   * The event's parameters hold only the record's `http` entry, when set;
   * its results hold only the context's `exceptionId` and `job`, when set.
   */
  lemma {:induction false} EventCopiesContext(appName: string, runId: Option<string>, record: Record)
    ensures var e := EventFor(appName, runId, record);
      Get(e.params, "http") == (if record.http != Null then Some(record.http) else None)
      && (forall k :: k in Keys(e.params) ==> k == "http")
      && Get(e.results, "exceptionId") == (if IsSet(record.context, "exceptionId") then Some(At(record.context, "exceptionId")) else None)
      && Get(e.results, "job") == (if IsSet(record.context, "job") then Some(At(record.context, "job")) else None)
      && (forall k :: k in Keys(e.results) ==> k == "exceptionId" || k == "job")
  {
    var e := EventFor(appName, runId, record);
    assert Keys(e.params) == (if record.http != Null then ["http"] else []);
    var ex := if IsSet(record.context, "exceptionId") then ["exceptionId"] else [];
    var jb := if IsSet(record.context, "job") then ["job"] else [];
    assert Keys(e.results) == ex + jb;
  }

  class EventHandler {
    var appName: string
    var storageApiClient: StorageClient?

    constructor()
      ensures appName == AppName && storageApiClient == null
    {
      appName := AppName;
      storageApiClient := null;
    }

    method SetStorageApiClient(client: StorageClient)
      modifies this
      ensures storageApiClient == client && appName == old(appName)
    {
      storageApiClient := client;
    }

    /**
     * `handle`: without a client, or for a DEBUG record, nothing is sent
     * and the result is false; otherwise the record's event is created
     * through the client and the result is true.
     */
    method Handle(record: Record) returns (handled: bool)
      modifies storageApiClient
      ensures handled <==> storageApiClient != null && record.level != DEBUG
      ensures storageApiClient != null ==> storageApiClient.runId == old(storageApiClient.runId)
      ensures handled ==>
                storageApiClient.events == old(storageApiClient.events) + [EventFor(appName, storageApiClient.runId, record)]
      ensures !handled && storageApiClient != null ==> storageApiClient.events == old(storageApiClient.events)
    {
      if storageApiClient == null || record.level == DEBUG {
        return false;
      }
      var event := Event(appName, record.message, None, storageApiClient.runId, [], [], InfoEvent);
      var params: Dict<Value> := [];
      if record.http != Null {
        params := params + [("http", record.http)];
      }
      event := event.(params := params);
      var results: Dict<Value> := [];
      if IsSet(record.context, "exceptionId") {
        results := results + [("exceptionId", At(record.context, "exceptionId"))];
      }
      if IsSet(record.context, "job") {
        results := results + [("job", At(record.context, "job"))];
      }
      event := event.(results := results);
      var eventType: EventType;
      if record.level == ERROR {
        eventType := ErrorEvent;
      } else if record.level == CRITICAL || record.level == EMERGENCY || record.level == ALERT {
        eventType := ErrorEvent;
        event := event.(message := HiddenMessage, description := Some(SupportHint));
      } else if record.level == WARNING || record.level == NOTICE {
        eventType := WarnEvent;
      } else {
        eventType := InfoEvent;
      }
      event := event.(eventType := eventType);
      assert event == EventFor(appName, storageApiClient.runId, record);
      storageApiClient.CreateEvent(event);
      return true;
    }
  }
}
