/**
 * A model of the export cycle of a metrics exporter's base class: the
 * validation of an optional URL suffix, the composition of the target URL,
 * and the fixed sequence start log, fetch, deserialize, report, with the
 * error log and rethrow on failure and the runtime log that always closes a
 * cycle that got past validation.
 *
 * The collaborators (content provider, JSON deserializer, the subclass's
 * metric reporter) are abstract results handed to each cycle. The observable
 * behaviour of a cycle is the sequence of events it appends to the
 * exporter's trace, its outcome, and the collector mapping it leaves.
 */
module Exporters {

  datatype Option<T> = None | Some(value: T)

  /** What a cycle can throw: its own ArgumentException for a bad suffix, or
      whatever exception a collaborator threw, which the cycle passes on
      unchanged. */
  datatype Exception =
    | ArgumentException(suffix: string)
    | Thrown(message: string)

  datatype Result<T> = Ok(value: T) | Err(error: Exception)

  /** How a cycle ends: normally, or by (re)throwing an exception. */
  datatype Outcome = Success | Failure(error: Exception)

  /** The runtime type the response body is deserialized into. */
  datatype ComponentType = ComponentType(name: string)

  /** An opaque handle for a deserialized object (a null result is one of them). */
  datatype Component = Component(handle: nat)

  /** An opaque handle for one named metric collector. */
  datatype Collector = Collector(handle: nat)

  type Collectors = map<string, Collector>

  /** What a call of the reporter leaves behind: the collector mapping it may
      have changed (also when it throws part-way) and how it ended. */
  datatype Reported = Reported(collectors: Collectors, outcome: Outcome)

  /** The behaviour of the collaborators during one cycle. */
  datatype Collaborators = Collaborators(
    fetch: string -> Result<string>,
    deserialize: (string, ComponentType) -> Result<Component>,
    report: (Component, Collectors) -> Reported)

  /** The observable steps of a cycle: log entries and calls to collaborators. */
  datatype Event =
    | LogStarted(exporter: string)
    | Fetch(url: string)
    | Deserialize(content: string, componentType: ComponentType)
    | Report(component: Component)
    | LogError(exporter: string, error: Exception, content: string)
    | LogRuntime

  predicate IsRuntimeLog(e: Event) { e.LogRuntime? }
  predicate IsErrorLog(e: Event) { e.LogError? }
  predicate IsFetch(e: Event) { e.Fetch? }

  /** The number of events of `events` that satisfy `p`. */
  function Occurrences(events: seq<Event>, p: Event -> bool): (n: nat)
    ensures n <= |events|
  {
    if events == [] then 0
    else (if p(events[0]) then 1 else 0) + Occurrences(events[1..], p)
  }

  lemma {:induction false} OccurrencesAppend(a: seq<Event>, b: seq<Event>, p: Event -> bool)
    ensures Occurrences(a + b, p) == Occurrences(a, p) + Occurrences(b, p)
  {
    if a == [] {
      assert a + b == b;
    } else {
      assert (a + b)[1..] == a[1..] + b;
      OccurrencesAppend(a[1..], b, p);
    }
  }

  lemma {:induction false} OccurrencesNone(events: seq<Event>, p: Event -> bool)
    requires forall i :: 0 <= i < |events| ==> !p(events[i])
    ensures Occurrences(events, p) == 0
  {
    if events != [] {
      OccurrencesNone(events[1..], p);
    }
  }

  /** Ordinal prefix test. */
  predicate StartsWith(s: string, prefix: string) {
    |prefix| <= |s| && s[..|prefix|] == prefix
  }

  /** The suffix test of the source: not the empty string, and starts with "/". */
  predicate IsValidSuffix(s: string) {
    s != "" && StartsWith(s, "/")
  }

  /** The non-empty test is implied by the prefix test: a valid suffix is
      exactly one whose first character is '/'. */
  lemma ValidSuffixIffLeadingSlash(s: string)
    ensures IsValidSuffix(s) <==> |s| > 0 && s[0] == '/'
  {
    if |s| > 0 && s[0] == '/' {
      assert s[..1] == "/";
    }
  }

  /** The URL a cycle fetches, or the ArgumentException it throws at once. */
  function ComposeUrl(endpoint: string, suffix: Option<string>): (r: Result<string>)
    ensures r.Ok? <==> suffix.None? || IsValidSuffix(suffix.value)
    ensures r.Err? ==> r.error == ArgumentException(suffix.value)
    ensures r.Ok? ==> StartsWith(r.value, endpoint)
    ensures r.Ok? && suffix.None? ==> r.value == endpoint
    ensures r.Ok? && suffix.Some? ==> |r.value| == |endpoint| + |suffix.value|
  {
    match suffix
    case None => Ok(endpoint)
    case Some(s) => if IsValidSuffix(s) then Ok(endpoint + s) else Err(ArgumentException(s))
  }

  /** The inverse of ComposeUrl on its successful results: which suffix a
      composed URL was built from. */
  function SuffixOf(endpoint: string, url: string): Option<string>
    requires StartsWith(url, endpoint)
  {
    if |url| == |endpoint| then None else Some(url[|endpoint|..])
  }

  lemma SuffixOfComposeUrl(endpoint: string, suffix: Option<string>)
    requires ComposeUrl(endpoint, suffix).Ok?
    ensures SuffixOf(endpoint, ComposeUrl(endpoint, suffix).value) == suffix
    ensures suffix.Some? ==> ComposeUrl(endpoint, suffix).value == endpoint + suffix.value
  {
    if suffix.Some? {
      var url := endpoint + suffix.value;
      assert url[|endpoint|..] == suffix.value;
    }
  }

  /** What the try block leaves behind: its events, the last value of the
      local `content`, how it ended, and the collector mapping. */
  datatype Attempt = Attempt(events: seq<Event>, content: string, outcome: Outcome, collectors: Collectors)

  /** The try block: start log, fetch, deserialize, report; the first
      collaborator that fails ends it. `content` stays the empty string until
      a fetch succeeds. */
  function TryExport(exporter: string, url: string, componentType: ComponentType,
                     io: Collaborators, collectors: Collectors): Attempt
  {
    match io.fetch(url)
    case Err(e) => Attempt([LogStarted(exporter), Fetch(url)], "", Failure(e), collectors)
    case Ok(content) =>
      match io.deserialize(content, componentType)
      case Err(e) =>
        Attempt([LogStarted(exporter), Fetch(url), Deserialize(content, componentType)],
                content, Failure(e), collectors)
      case Ok(component) =>
        var reported := io.report(component, collectors);
        Attempt([LogStarted(exporter), Fetch(url), Deserialize(content, componentType), Report(component)],
                content, reported.outcome, reported.collectors)
  }

  datatype CycleResult = CycleResult(events: seq<Event>, outcome: Outcome, collectors: Collectors)

  /** The part of the export operation after validation: the try block, the
      catch handler that logs the error with the content seen so far and
      rethrows it, and the finally block that logs the runtime. */
  function Guarded(exporter: string, url: string, componentType: ComponentType,
                   io: Collaborators, collectors: Collectors): CycleResult
  {
    var a := TryExport(exporter, url, componentType, io, collectors);
    var handler := if a.outcome.Failure? then [LogError(exporter, a.outcome.error, a.content)] else [];
    CycleResult(a.events + handler + [LogRuntime], a.outcome, a.collectors)
  }

  /** One call of the export operation: validation first, throwing before
      anything is logged or called, then the guarded part. */
  function Cycle(endpoint: string, exporter: string, componentType: ComponentType,
                 suffix: Option<string>, io: Collaborators, collectors: Collectors): CycleResult
  {
    match ComposeUrl(endpoint, suffix)
    case Err(e) => CycleResult([], Failure(e), collectors)
    case Ok(url) => Guarded(exporter, url, componentType, io, collectors)
  }

  /** An invalid suffix fails with an ArgumentException and leaves no trace at
      all: no logs, no collaborator calls, collectors untouched. */
  lemma InvalidSuffixFailsFast(endpoint: string, exporter: string, componentType: ComponentType,
                               s: string, io: Collaborators, collectors: Collectors)
    requires !IsValidSuffix(s)
    ensures Cycle(endpoint, exporter, componentType, Some(s), io, collectors)
      == CycleResult([], Failure(ArgumentException(s)), collectors)
  {
  }

  /** The URL the cycle fetches is the composed one, and it is fetched exactly
      once, right after the start log: the bare endpoint for no suffix,
      endpoint + suffix for a valid one. */
  lemma FetchesComposedUrl(endpoint: string, exporter: string, componentType: ComponentType,
                           suffix: Option<string>, io: Collaborators, collectors: Collectors)
    requires suffix.None? || IsValidSuffix(suffix.value)
    ensures var c := Cycle(endpoint, exporter, componentType, suffix, io, collectors);
            var url := if suffix.None? then endpoint else endpoint + suffix.value;
            |c.events| >= 2 && c.events[0] == LogStarted(exporter) && c.events[1] == Fetch(url)
            && Occurrences(c.events, IsFetch) == 1
  {
    var url := ComposeUrl(endpoint, suffix).value;
    var c := Cycle(endpoint, exporter, componentType, suffix, io, collectors);
    assert c.events == [LogStarted(exporter), Fetch(url)] + c.events[2..];
    OccurrencesAppend([LogStarted(exporter), Fetch(url)], c.events[2..], IsFetch);
    OccurrencesNone(c.events[2..], IsFetch);
  }

  /** A successful cycle is exactly start log, fetch, deserialize of the
      fetched content, report of the deserialized component, runtime log; and
      a cycle succeeds only when all three collaborators do. */
  lemma SuccessTrace(endpoint: string, exporter: string, componentType: ComponentType,
                     suffix: Option<string>, io: Collaborators, collectors: Collectors)
    ensures var c := Cycle(endpoint, exporter, componentType, suffix, io, collectors);
            var url := ComposeUrl(endpoint, suffix);
            c.outcome == Success
            <==>
            url.Ok? && io.fetch(url.value).Ok?
            && io.deserialize(io.fetch(url.value).value, componentType).Ok?
            && io.report(io.deserialize(io.fetch(url.value).value, componentType).value, collectors).outcome == Success
    ensures var c := Cycle(endpoint, exporter, componentType, suffix, io, collectors);
            var url := ComposeUrl(endpoint, suffix);
            c.outcome == Success ==>
              var content := io.fetch(url.value).value;
              var component := io.deserialize(content, componentType).value;
              c.events == [LogStarted(exporter), Fetch(url.value), Deserialize(content, componentType),
                           Report(component), LogRuntime]
              && c.collectors == io.report(component, collectors).collectors
  {
  }

  /** A failed fetch: no deserialize, no report, the error log carries the
      empty string as content, the fetch error is rethrown, collectors untouched. */
  lemma FetchFailureTrace(endpoint: string, exporter: string, componentType: ComponentType,
                          suffix: Option<string>, io: Collaborators, collectors: Collectors)
    requires ComposeUrl(endpoint, suffix).Ok?
    requires io.fetch(ComposeUrl(endpoint, suffix).value).Err?
    ensures var c := Cycle(endpoint, exporter, componentType, suffix, io, collectors);
            var url := ComposeUrl(endpoint, suffix).value;
            var e := io.fetch(url).error;
            c.events == [LogStarted(exporter), Fetch(url), LogError(exporter, e, ""), LogRuntime]
            && c.outcome == Failure(e) && c.collectors == collectors
  {
  }

  /** A failed deserialize: no report, the error log carries the fetched
      content verbatim, the deserializer's error is rethrown. */
  lemma DeserializeFailureTrace(endpoint: string, exporter: string, componentType: ComponentType,
                                suffix: Option<string>, io: Collaborators, collectors: Collectors)
    requires ComposeUrl(endpoint, suffix).Ok?
    requires io.fetch(ComposeUrl(endpoint, suffix).value).Ok?
    requires io.deserialize(io.fetch(ComposeUrl(endpoint, suffix).value).value, componentType).Err?
    ensures var c := Cycle(endpoint, exporter, componentType, suffix, io, collectors);
            var url := ComposeUrl(endpoint, suffix).value;
            var content := io.fetch(url).value;
            var e := io.deserialize(content, componentType).error;
            c.events == [LogStarted(exporter), Fetch(url), Deserialize(content, componentType),
                         LogError(exporter, e, content), LogRuntime]
            && c.outcome == Failure(e) && c.collectors == collectors
  {
  }

  /** A failed report: the error log carries the fetched content verbatim,
      the reporter's error is rethrown, and whatever the reporter did to the
      collectors before failing is kept. */
  lemma ReportFailureTrace(endpoint: string, exporter: string, componentType: ComponentType,
                           suffix: Option<string>, io: Collaborators, collectors: Collectors)
    requires ComposeUrl(endpoint, suffix).Ok?
    requires io.fetch(ComposeUrl(endpoint, suffix).value).Ok?
    requires io.deserialize(io.fetch(ComposeUrl(endpoint, suffix).value).value, componentType).Ok?
    requires io.report(io.deserialize(io.fetch(ComposeUrl(endpoint, suffix).value).value, componentType).value,
                       collectors).outcome.Failure?
    ensures var c := Cycle(endpoint, exporter, componentType, suffix, io, collectors);
            var url := ComposeUrl(endpoint, suffix).value;
            var content := io.fetch(url).value;
            var component := io.deserialize(content, componentType).value;
            var reported := io.report(component, collectors);
            c.events == [LogStarted(exporter), Fetch(url), Deserialize(content, componentType),
                         Report(component), LogError(exporter, reported.outcome.error, content), LogRuntime]
            && c.outcome == reported.outcome && c.collectors == reported.collectors
  {
  }

  /** After validation, the runtime log occurs exactly once and is the last
      event, whether the cycle succeeded or failed; an invalid suffix logs
      no runtime. */
  lemma RuntimeLogExactlyOnce(endpoint: string, exporter: string, componentType: ComponentType,
                              suffix: Option<string>, io: Collaborators, collectors: Collectors)
    ensures var c := Cycle(endpoint, exporter, componentType, suffix, io, collectors);
            Occurrences(c.events, IsRuntimeLog) == (if ComposeUrl(endpoint, suffix).Ok? then 1 else 0)
            && (ComposeUrl(endpoint, suffix).Ok? ==> c.events != [] && c.events[|c.events| - 1] == LogRuntime)
  {
    match ComposeUrl(endpoint, suffix)
    case Err(_) =>
    case Ok(url) =>
      var events := Guarded(exporter, url, componentType, io, collectors).events;
      var before := events[..|events| - 1];
      assert events == before + [LogRuntime];
      OccurrencesNone(before, IsRuntimeLog);
      OccurrencesAppend(before, [LogRuntime], IsRuntimeLog);
  }

  /** Every failure after validation logs exactly one error, carrying the
      very exception the cycle rethrows; a success logs none. Nothing is
      swallowed: the outcome is a failure exactly when the error was logged
      or the suffix was rejected. */
  lemma ErrorLogExactlyOnce(endpoint: string, exporter: string, componentType: ComponentType,
                            suffix: Option<string>, io: Collaborators, collectors: Collectors)
    ensures var c := Cycle(endpoint, exporter, componentType, suffix, io, collectors);
            Occurrences(c.events, IsErrorLog)
              == (if ComposeUrl(endpoint, suffix).Ok? && c.outcome.Failure? then 1 else 0)
    ensures var c := Cycle(endpoint, exporter, componentType, suffix, io, collectors);
            forall i :: 0 <= i < |c.events| && c.events[i].LogError? ==>
              c.outcome == Failure(c.events[i].error) && c.events[i].exporter == exporter
  {
    match ComposeUrl(endpoint, suffix)
    case Err(_) =>
    case Ok(url) =>
      var a := TryExport(exporter, url, componentType, io, collectors);
      var handler := if a.outcome.Failure? then [LogError(exporter, a.outcome.error, a.content)] else [];
      assert Guarded(exporter, url, componentType, io, collectors).events == a.events + (handler + [LogRuntime]);
      OccurrencesNone(a.events, IsErrorLog);
      OccurrencesAppend(a.events, handler + [LogRuntime], IsErrorLog);
  }

  /** Over a run of cycles, each cycle adds one runtime log when it got past
      validation and one error log when it then failed. */
  lemma CycleExtendsCounts(trace: seq<Event>, endpoint: string, exporter: string, componentType: ComponentType,
                           suffix: Option<string>, io: Collaborators, collectors: Collectors)
    ensures var c := Cycle(endpoint, exporter, componentType, suffix, io, collectors);
            var validated := ComposeUrl(endpoint, suffix).Ok?;
            Occurrences(trace + c.events, IsRuntimeLog) == Occurrences(trace, IsRuntimeLog) + (if validated then 1 else 0)
            && Occurrences(trace + c.events, IsErrorLog)
               == Occurrences(trace, IsErrorLog) + (if validated && c.outcome.Failure? then 1 else 0)
  {
    var c := Cycle(endpoint, exporter, componentType, suffix, io, collectors);
    OccurrencesAppend(trace, c.events, IsRuntimeLog);
    OccurrencesAppend(trace, c.events, IsErrorLog);
    RuntimeLogExactlyOnce(endpoint, exporter, componentType, suffix, io, collectors);
    ErrorLogExactlyOnce(endpoint, exporter, componentType, suffix, io, collectors);
  }

  /** The position of each kind of event in the fixed order of a cycle. */
  function Stage(e: Event): nat {
    match e
    case LogStarted(_) => 0
    case Fetch(_) => 1
    case Deserialize(_, _) => 2
    case Report(_) => 3
    case LogError(_, _, _) => 4
    case LogRuntime => 5
  }

  /** The events of a cycle come in strictly increasing stage order: nothing
      happens twice, and nothing happens out of order (no report before the
      deserialize, no error log after the runtime log, ...). */
  lemma CycleOrdered(endpoint: string, exporter: string, componentType: ComponentType,
                     suffix: Option<string>, io: Collaborators, collectors: Collectors)
    ensures var c := Cycle(endpoint, exporter, componentType, suffix, io, collectors);
            forall i, j :: 0 <= i < j < |c.events| ==> Stage(c.events[i]) < Stage(c.events[j])
  {
  }

  /** A collaborator is called only when the earlier ones succeeded: a
      deserialize follows a successful fetch of that very content, a report
      follows a successful deserialize of that very component. */
  lemma CallsFollowSuccess(endpoint: string, exporter: string, componentType: ComponentType,
                           suffix: Option<string>, io: Collaborators, collectors: Collectors)
    ensures var c := Cycle(endpoint, exporter, componentType, suffix, io, collectors);
            forall i :: 0 <= i < |c.events| && c.events[i].Deserialize? ==>
              ComposeUrl(endpoint, suffix).Ok?
              && io.fetch(ComposeUrl(endpoint, suffix).value) == Ok(c.events[i].content)
              && c.events[i].componentType == componentType
    ensures var c := Cycle(endpoint, exporter, componentType, suffix, io, collectors);
            forall i :: 0 <= i < |c.events| && c.events[i].Report? ==>
              exists j :: 0 <= j < i && c.events[j].Deserialize?
                && io.deserialize(c.events[j].content, componentType) == Ok(c.events[i].component)
  {
    var c := Cycle(endpoint, exporter, componentType, suffix, io, collectors);
    forall i | 0 <= i < |c.events| && c.events[i].Report?
      ensures exists j :: 0 <= j < i && c.events[j].Deserialize?
                && io.deserialize(c.events[j].content, componentType) == Ok(c.events[i].component)
    {
      assert i == 3 && c.events[2].Deserialize?;
    }
  }

  /** The base class itself never changes the collectors: they change only
      through a call of the reporter, and then they are what it left. */
  lemma CollectorsOnlyChangedByReport(endpoint: string, exporter: string, componentType: ComponentType,
                                      suffix: Option<string>, io: Collaborators, collectors: Collectors)
    ensures var c := Cycle(endpoint, exporter, componentType, suffix, io, collectors);
            (forall i :: 0 <= i < |c.events| ==> !c.events[i].Report?) ==> c.collectors == collectors
    ensures var c := Cycle(endpoint, exporter, componentType, suffix, io, collectors);
            forall i :: 0 <= i < |c.events| && c.events[i].Report? ==>
              c.collectors == io.report(c.events[i].component, collectors).collectors
  {
    var url := ComposeUrl(endpoint, suffix);
    if url.Ok? && io.fetch(url.value).Ok? {
      var content := io.fetch(url.value).value;
      var component := io.deserialize(content, componentType);
      if component.Ok? {
        var c := Cycle(endpoint, exporter, componentType, suffix, io, collectors);
        assert c.events[3] == Report(component.value);
      }
    }
  }

  /**
   * The exporter: bound to one endpoint and one component type at
   * construction, owning the collector mapping its reporter fills, and
   * recording in `Trace` everything its cycles log and call, in order.
   */
  class BaseExporter {
    const EndpointUrl: string
    const ComponentType: ComponentType
    /** The name of the concrete exporter's runtime type, used to tag its logs. */
    const TypeName: string
    var Collectors: Collectors
    var Trace: seq<Event>

    constructor (endpointUrl: string, componentType: ComponentType, typeName: string)
      ensures EndpointUrl == endpointUrl && ComponentType == componentType && TypeName == typeName
      ensures Collectors == map[] && Trace == []
    {
      EndpointUrl := endpointUrl;
      ComponentType := componentType;
      TypeName := typeName;
      Collectors := map[];
      Trace := [];
    }

    /** One export cycle with an optional URL suffix. */
    method ExportMetrics(suffix: Option<string>, io: Collaborators) returns (outcome: Outcome)
      modifies this
      ensures var c := Cycle(EndpointUrl, TypeName, ComponentType, suffix, io, old(Collectors));
              Trace == old(Trace) + c.events && Collectors == c.collectors && outcome == c.outcome
      ensures Occurrences(Trace, IsRuntimeLog)
              == old(Occurrences(Trace, IsRuntimeLog)) + (if ComposeUrl(EndpointUrl, suffix).Ok? then 1 else 0)
      ensures Occurrences(Trace, IsErrorLog)
              == old(Occurrences(Trace, IsErrorLog))
                 + (if ComposeUrl(EndpointUrl, suffix).Ok? && outcome.Failure? then 1 else 0)
    {
      CycleExtendsCounts(Trace, EndpointUrl, TypeName, ComponentType, suffix, io, Collectors);
      var fullEndpointUri := EndpointUrl;
      if suffix.Some? {
        if suffix.value != "" && StartsWith(suffix.value, "/") {
          fullEndpointUri := fullEndpointUri + suffix.value;
        } else {
          return Failure(ArgumentException(suffix.value));
        }
      }
      assert ComposeUrl(EndpointUrl, suffix) == Ok(fullEndpointUri);
      outcome := ExportTo(fullEndpointUri, io);
    }

    /** The guarded part of a cycle, against an already composed URL. */
    method ExportTo(fullEndpointUri: string, io: Collaborators) returns (outcome: Outcome)
      modifies this
      ensures var g := Guarded(TypeName, fullEndpointUri, ComponentType, io, old(Collectors));
              Trace == old(Trace) + g.events && Collectors == g.collectors && outcome == g.outcome
    {
      ghost var trace0 := Trace;
      var content := "";
      var thrown: Option<Exception> := None;
      // try
      Trace := Trace + [LogStarted(TypeName)];
      Trace := Trace + [Fetch(fullEndpointUri)];
      var fetched := io.fetch(fullEndpointUri);
      if fetched.Err? {
        thrown := Some(fetched.error);
        assert Trace == trace0 + [LogStarted(TypeName), Fetch(fullEndpointUri)];
      } else {
        content := fetched.value;
        Trace := Trace + [Deserialize(content, ComponentType)];
        var component := io.deserialize(content, ComponentType);
        if component.Err? {
          thrown := Some(component.error);
          assert Trace == trace0 + [LogStarted(TypeName), Fetch(fullEndpointUri), Deserialize(content, ComponentType)];
        } else {
          Trace := Trace + [Report(component.value)];
          var reported := io.report(component.value, Collectors);
          Collectors := reported.collectors;
          if reported.outcome.Failure? {
            thrown := Some(reported.outcome.error);
          }
          assert Trace == trace0 + [LogStarted(TypeName), Fetch(fullEndpointUri), Deserialize(content, ComponentType), Report(component.value)];
        }
      }
      // catch: log with the content seen so far, then rethrow
      if thrown.Some? {
        Trace := Trace + [LogError(TypeName, thrown.value, content)];
      }
      // finally
      Trace := Trace + [LogRuntime];
      outcome := if thrown.Some? then Failure(thrown.value) else Success;
    }
  }
}
