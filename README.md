# Export cycle of the metrics exporter base class

This project models `BaseExporter`, the abstract base class of the metrics
exporters. An exporter is bound to one endpoint URL and one component type.
Each export cycle does the following, in this order:

1. It checks an optional URL suffix and composes the target URL.
2. It logs that the cycle started.
3. It fetches the response body from the content provider.
4. It deserializes the body into the component type.
5. It hands the component to the subclass's `ReportMetrics`, which updates the collector mapping.

When any of steps 2–5 fails, the cycle logs an error with the content seen so
far and rethrows the same exception. It then always logs the runtime. The
suffix check of step 1 runs before all of this: a rejected suffix throws at
once.

Everything is in `base_exporter.dfy`, in the single module `Exporters`:

- `ComposeUrl` is the suffix check and URL join. It is a pure function. The join is plain sequence concatenation.
- `TryExport`, `Guarded` and `Cycle` are the reference definitions of one cycle:
  - `TryExport` is the try block.
  - `Guarded` adds the catch handler and the finally block.
  - `Cycle` puts the validation in front.

  A cycle is described by three things: the events it appends, its outcome, and the collector mapping it leaves.
- The class `BaseExporter` holds the constructor's readonly fields, the `Collectors` mapping and a `Trace: seq<Event>` field. `Trace` records every log entry and every collaborator call in order.
  - `ExportMetrics` is the imperative model of `ExportMetricsAsync`. It validates the suffix, then calls `ExportTo`, which models the try/catch/finally part.
  - Both methods are proved against `Cycle` and `Guarded`.

The collaborators are given to every call as a `Collaborators` value, as abstract results:
- `fetch` maps a URL to `Ok(content)` or `Err(e)`; it is the content provider's answer during this cycle.
- `deserialize` maps content and a component type to `Ok(component)` or `Err(e)`; it stands for the JSON deserializer.
- `report` maps a component and the current collectors to the collector mapping it leaves together with `Success` or `Failure(e)`. It stands for `ReportMetrics`, which may have changed the collectors even when it throws.

`Component` and `Collector` are opaque handles. A collaborator's exception is one `Thrown` value; the base class never looks at its kind.

An empty suffix is rejected: line 58 tests `!= string.Empty` before
`StartsWith("/")`, in line with the doc comment at line 50 (a suffix starts
with "/"). `ComposeUrl` does the same.

Counting events of a kind in a trace is done by the helper `Occurrences`; its
lemma `OccurrencesAppend` (counts distribute over concatenation) is what the
exactly-once lemmas below are proved with.

## Model

| member | source | states |
|---|---|---|
| Exporters.ComposeUrl | src/Core/Exporters/Concrete/BaseExporter.cs:54-66 | the URL is produced exactly when the suffix is absent or is a valid suffix (non-empty and starting with "/"); otherwise the result is an ArgumentException carrying the suffix; a produced URL starts with the endpoint, is the bare endpoint for an absent suffix, and is as long as endpoint and suffix together |
| Exporters.SuffixOfComposeUrl | src/Core/Exporters/Concrete/BaseExporter.cs:54-61 | a composed URL is `EndpointUrl + suffix` for a valid suffix, and splitting off the endpoint gives back exactly the suffix that was passed in (none for an absent one) |
| Exporters.ValidSuffixIffLeadingSlash | src/Core/Exporters/Concrete/BaseExporter.cs:58 | the suffix test accepts exactly the strings whose first character is '/' (the separate non-empty test is implied) |
| Exporters.InvalidSuffixFailsFast | src/Core/Exporters/Concrete/BaseExporter.cs:62-66 | an empty or non-"/" suffix fails with ArgumentException and the cycle appends no event: no start log, no fetch, deserialize or report, no error log, no runtime log; collectors unchanged |
| Exporters.FetchesComposedUrl | src/Core/Exporters/Concrete/BaseExporter.cs:54-61 | after validation the fetch is called exactly once, right after the start log, with the bare endpoint for no suffix and with endpoint + suffix otherwise |
| Exporters.SuccessTrace | src/Core/Exporters/Concrete/BaseExporter.cs:75-79 | a cycle succeeds if and only if the suffix is accepted and fetch, deserialize and report all succeed; its events are then exactly start log, fetch(url), deserialize(content, component type), report(component), runtime log, and the collectors are what the reporter left |
| Exporters.FetchFailureTrace | src/Core/Exporters/Concrete/BaseExporter.cs:69-85 | when fetch fails, its events are start log, fetch, error log with the empty string as content, runtime log; there is no deserialize and no report; the fetch error is rethrown; collectors unchanged |
| Exporters.DeserializeFailureTrace | src/Core/Exporters/Concrete/BaseExporter.cs:77-85 | when deserialize fails, no report is made, the error log carries the fetched content verbatim, the deserializer's error is rethrown, and collectors are unchanged |
| Exporters.ReportFailureTrace | src/Core/Exporters/Concrete/BaseExporter.cs:79-85 | when the reporter fails, the error log carries the fetched content verbatim and the reporter's error is rethrown; the collectors are whatever the reporter left |
| Exporters.RuntimeLogExactlyOnce | src/Core/Exporters/Concrete/BaseExporter.cs:87-91 | a cycle that passed validation has exactly one runtime log, and it is the last event, whether it succeeded or failed; a rejected suffix logs none |
| Exporters.ErrorLogExactlyOnce | src/Core/Exporters/Concrete/BaseExporter.cs:82-85 | a cycle that passed validation logs exactly one error when it fails and none when it succeeds; every error log carries the exporter's type name and the very exception the cycle returns (nothing swallowed) |
| Exporters.CycleExtendsCounts | src/Core/Exporters/Concrete/BaseExporter.cs:82-91 | appending a cycle's events to any trace adds one runtime log if the suffix was accepted, and one error log if the cycle then failed |
| Exporters.CycleOrdered | src/Core/Exporters/Concrete/BaseExporter.cs:75-90 | the events of every cycle come in strictly increasing order start, fetch, deserialize, report, error log, runtime log, so no step happens twice or out of order |
| Exporters.CallsFollowSuccess | src/Core/Exporters/Concrete/BaseExporter.cs:77-79 | a deserialize is called only with content that a fetch of the composed URL returned, and with the bound component type; a report is called only with a component that an earlier deserialize in the cycle produced |
| Exporters.CollectorsOnlyChangedByReport | src/Core/Exporters/Concrete/BaseExporter.cs:40-44 | a cycle with no report call leaves the collectors as they were; otherwise they are what the reporter left, so the base class itself never modifies them |
| Exporters.BaseExporter.constructor | src/Core/Exporters/Concrete/BaseExporter.cs:28-41 | the endpoint, component type and type name are the ones given; the collector mapping and the trace start empty |
| Exporters.BaseExporter.ExportMetrics | src/Core/Exporters/Concrete/BaseExporter.cs:52-92 | appends exactly the events of `Cycle` to the trace, leaves the collectors `Cycle` gives and returns its outcome; the trace's runtime-log count grows by one when the suffix is accepted, and its error-log count grows by one when the cycle then fails |
| Exporters.BaseExporter.ExportTo | src/Core/Exporters/Concrete/BaseExporter.cs:69-91 | the try/catch/finally part: appends exactly the events of `Guarded` for the composed URL, leaves its collectors and returns its outcome |

## Left out

- HTTP transport: the content provider is the `fetch` result given to each call. Retries, timeouts and status codes are its own business and are not modelled.
- JSON deserialization: `JsonConvert.DeserializeObject` with a runtime type is the abstract `deserialize` result. A null result is one of the opaque `Component` values.
- Prometheus collectors and the concrete `ReportMetrics` subclasses: collectors are opaque handles in a map. The reporter is an arbitrary function of the component and the current mapping.
- Wall-clock timing: the `Stopwatch` is not modelled. Only the occurrence of the runtime log is recorded, not the elapsed value.
- Logging details: message text and the `BeginScope` dictionary are not modelled. The start log carries the exporter's type name, which is the scope tag. The logger itself is assumed never to throw.
- `GetType().Name` is the runtime type of the concrete subclass. It is therefore a constructor argument (`typeName`) of the model.
- The content provider, `PrometheusUtils` and the logger are injected in the source's constructor. They are not fields of the model: `PrometheusUtils` is unused by the base class, and the others appear only through the per-call collaborators and the trace.
- async/await suspension and the thread safety of `ConcurrentDictionary` are not modelled. Concurrent cycles are out of scope for this sequential model.
- The subclass's ability to replace `Collectors` outright (its setter is protected) is covered only inside `report`, which may return any mapping.
- `ComposeUrl`: `String.StartsWith(string)` in .NET compares culture-sensitively; the model uses an ordinal prefix test. The two can differ in both directions: .NET may accept a suffix with ignorable characters before the "/", which the model rejects, and may reject a "/" followed by a combining mark (such as "/\u0301x"), which the model accepts.
- A null `EndpointUrl` is not modelled: the endpoint is always a string.
