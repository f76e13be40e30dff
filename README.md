# gradle-to-trace-converter, modelled in Dafny

The converter reads a trace of Gradle build operations and writes it out in other formats.
The trace is either a flat log of Start, Finish and Progress events or a tree of nested records.
The output formats are:

- Chrome trace events;
- a Perfetto packet stream;
- a CSV timeline of task executions and transformation steps;
- a CSV table of artifact transforms.

This project models the core of that program in Dafny, one module per Kotlin file:

| module | Kotlin file | form |
|---|---|---|
| `OperationLog` | `BuildOperationLog.kt` | `visitLogs` as a method with a loop, proved against a left fold `RunFrom` of one step per log |
| `TraceConversion` | `TraceConverter.kt` | `convert`/`helper` as methods that append to the event list, proved against the function `ForestEvents` |
| `TraceEvents` | `TraceEvent.kt` | the event record and its defaults |
| `OperationRecord` | `BuildOperationRecord.kt` | the nested record, its progress entries and their accessors |
| `ChromeTrace` | `TraceToChromeTraceConverter.kt` | a class with the converter's fields, whose methods append packets to a sequence |
| `Timeline` | `TraceToTimelineConverter.kt` | a class holding the node list; `compressAttributes` as a method with a loop |
| `TransformCsv` | `TraceToTransformCsvConverter.kt` | a class holding the identity-keyed table and its key order |
| `Operations` | `operations.kt` | decoders of task and transformation details |
| `BuildopsOperations` | `buildops/operations.kt` | the later decoders: component variants, capabilities, configurations |
| `BuildopsDetails` | `buildops/details.kt` | the details-class predicates |
| `Unpacking` | `unpacking.kt` | the earliest transformation identity and the braced attribute rendering |
| `UtilUnpacking` | `util/unpacking.kt` | the unbraced attribute rendering |
| `Csv` | `csv.kt` | field escaping and row composition, with a CSV field reader as partner |
| `UtilCsv` | `util/csv.kt` | the same over nullable fields |

Three helper modules stand in for the Kotlin and Gson library behaviour the code relies on:

- `Values`: JSON-like payloads (`Map<String, *>` as an ordered entry list), `Option`/`Result`, and the casts `as String`, `as Map<...>` and `!!`. A failed cast is an `Err`.
- `Strings`: `joinToString`, `split`, `substringBeforeLast`, `Long.toString` and lexicographic order.
- `Sorting`: a stable sort by key, standing for `sortedBy` and `toSortedMap`.

Kotlin code that can throw (a failed cast, `!!` on null, the `IllegalArgumentException` of an unknown component identifier) returns a `Result`.
A converter's visit that fails leaves its state unchanged.

## Model

| member | source | states |
|---|---|---|
| OperationLog.VisitLogs | app/src/main/kotlin/org/gradle/tools/trace/app/BuildOperationLog.kt:78-112 | the loop makes exactly the visitor calls of the step-by-step specification, and the processed count equals the number of logs |
| OperationLog.StepEffects | app/src/main/kotlin/org/gradle/tools/trace/app/BuildOperationLog.kt:86-104 | an admitted Start adds or overwrites only its own id; a filtered Start changes nothing; a Finish of an open id removes only that id and invokes its stored callback with (start, finish); a Finish of an unknown id changes nothing; a Progress is always forwarded |
| OperationLog.UnfilteredVisitsEveryStart | app/src/main/kotlin/org/gradle/tools/trace/app/BuildOperationLog.kt:88-93 | with no include and no exclude rule, every Start is visited exactly once, in log order |
| OperationLog.EveryProgressForwarded | app/src/main/kotlin/org/gradle/tools/trace/app/BuildOperationLog.kt:103 | whatever the filters, every Progress reaches the visitor, in log order |
| OperationLog.PostVisitInvokedAtMostOnce | app/src/main/kotlin/org/gradle/tools/trace/app/BuildOperationLog.kt:93-101 | a callback is invoked only after the visit that returned it, with that visit's start and a Finish of the same id, and never twice |
| OperationLog.OpenOperationsWereVisited | app/src/main/kotlin/org/gradle/tools/trace/app/BuildOperationLog.kt:90-93 | only visited starts enter the open-operation map, each under its own id |
| OperationLog.RunFromConsistent | app/src/main/kotlin/org/gradle/tools/trace/app/BuildOperationLog.kt:86-104 | every step keeps the open-operation map and the calls made so far consistent with each other |
| OperationLog.StepIds | app/src/main/kotlin/org/gradle/tools/trace/app/BuildOperationLog.kt:86-101 | one step seen through ids: which id it visits and which ids it leaves open |
| OperationLog.TestTraceUnfiltered | app/src/test/kotlin/org/gradle/tools/trace/app/BuildOperationVisitorTest.kt:8-43 | unfiltered, the test trace visits operations 1 to 8 in order |
| OperationLog.TestTraceFiltered | app/src/test/kotlin/org/gradle/tools/trace/app/BuildOperationVisitorTest.kt:46-55 | with the test's include and exclude rules, the visited ids are exactly 1, 2, 3, 5, 7: inclusion passes through an open parent, and an excluded ancestor stays unvisited |
| TraceConversion.Convert | app/src/main/kotlin/org/gradle/tools/trace/app/TraceConverter.kt:5-35 | the events are those of the top-level records, in input order |
| TraceConversion.Helper | app/src/main/kotlin/org/gradle/tools/trace/app/TraceConverter.kt:8-30 | a record's events are appended to what was there before |
| TraceConversion.AddProgressEvents | app/src/main/kotlin/org/gradle/tools/trace/app/TraceConverter.kt:15-23 | one "i" event per progress entry is appended, in order |
| TraceConversion.AddChildEvents | app/src/main/kotlin/org/gradle/tools/trace/app/TraceConverter.kt:24 | the children's events are appended in list order |
| TraceConversion.ForestEventCount | app/src/main/kotlin/org/gradle/tools/trace/app/TraceConverter.kt:8-30 | there are two events per record plus one per progress entry, over the whole tree |
| TraceConversion.RecordLayout | app/src/main/kotlin/org/gradle/tools/trace/app/TraceConverter.kt:9-29 | a record's events are its "B" (named, at startTime·1000), then its unnamed "i" events (at time·1000, args details and detailsClassName), then its children's events, then its "E" (named, at endTime·1000) |
| TraceConversion.BeginsInPreorder | app/src/main/kotlin/org/gradle/tools/trace/app/TraceConverter.kt:9-13 | the "B" events are the records in depth-first preorder |
| TraceConversion.EndsInPostorder | app/src/main/kotlin/org/gradle/tools/trace/app/TraceConverter.kt:24-29 | the "E" events are the records in depth-first postorder |
| TraceConversion.ForestBalanced | app/src/main/kotlin/org/gradle/tools/trace/app/TraceConverter.kt:9-29 | "B" and "E" events balance: equal totals, and no prefix closes more than it opened |
| TraceEvents.NewTraceEvent | app/src/main/kotlin/org/gradle/tools/trace/app/TraceEvent.kt:5-33 | the phase and timestamp are as given; pid and tid default to 1, categories to ""; name, duration, scope and args default to null |
| OperationRecord.CopyMap | app/src/main/kotlin/org/gradle/tools/trace/app/BuildOperationRecord.kt:37-38 | a null map stays null; otherwise the copy has the same entries in the same order |
| OperationRecord.NewRecord | app/src/main/kotlin/org/gradle/tools/trace/app/BuildOperationRecord.kt:18-39 | details and result are null exactly when their arguments are, and copies of them otherwise; every other field is as given |
| OperationRecord.NewProgress | app/src/main/kotlin/org/gradle/tools/trace/app/BuildOperationRecord.kt:59-68 | a progress entry's details are null exactly when the argument is |
| OperationRecord.DetailsType | app/src/main/kotlin/org/gradle/tools/trace/app/BuildOperationRecord.kt:48-49 | there is no details class exactly when there is no details class name |
| OperationRecord.ResultType | app/src/main/kotlin/org/gradle/tools/trace/app/BuildOperationRecord.kt:52-53 | there is no result class exactly when there is no result class name |
| OperationRecord.ProgressDetailsType | app/src/main/kotlin/org/gradle/tools/trace/app/BuildOperationRecord.kt:71-72 | the same for a progress entry |
| OperationRecord.HasDetailsOfTypeCases | app/src/main/kotlin/org/gradle/tools/trace/app/BuildOperationRecord.kt:42-45 | without a details class a record or progress entry has details of no type; with one, exactly the types assignable from it |
| OperationRecord.ToStringInjective | app/src/main/kotlin/org/gradle/tools/trace/app/BuildOperationRecord.kt:55-57 | the `BuildOperationRecord{id->displayName}` rendering tells records with different ids or names apart |
| ChromeTrace.ToDebugAnnotations | app/src/main/kotlin/org/gradle/tools/trace/app/TraceToChromeTraceConverter.kt:140-149 | a dict annotation of the given name; null args give no entries; otherwise one entry per map entry, named by its key, in order |
| ChromeTrace.EntryAnnotationsAt | app/src/main/kotlin/org/gradle/tools/trace/app/TraceToChromeTraceConverter.kt:143-148 | a nested map becomes a nested dict and any other value its string |
| ChromeTrace.AnnotationsRoundTrip | app/src/main/kotlin/org/gradle/tools/trace/app/TraceToChromeTraceConverter.kt:140-149 | a map of strings and nested maps of strings is read back unchanged from its annotations |
| ChromeTrace.NewThreadIdDense | app/src/main/kotlin/org/gradle/tools/trace/app/TraceToChromeTraceConverter.kt:134-138 | thread ids stay 1, 2, 3, …, one per name; a known name keeps its id |
| ChromeTrace.ThreadTrackUuidsDistinct | app/src/main/kotlin/org/gradle/tools/trace/app/TraceToChromeTraceConverter.kt:63-81 | no two thread descriptors written share a track uuid |
| ChromeTrace.TrackDeclaredOnce | app/src/main/kotlin/org/gradle/tools/trace/app/TraceToChromeTraceConverter.kt:63-81 | once a thread is declared, later visits reuse its uuid and write no descriptor for it |
| ChromeTrace.AddThreadKnown | app/src/main/kotlin/org/gradle/tools/trace/app/TraceToChromeTraceConverter.kt:74-80 | adding a thread makes exactly that (pid, tid) known, with the new uuid, and changes no other entry |
| ChromeTrace.WithProcessKeepsThreads | app/src/main/kotlin/org/gradle/tools/trace/app/TraceToChromeTraceConverter.kt:48-61 | declaring a process changes nothing about its threads, and declaring it twice is declaring it once |
| ChromeTrace.TraceToChromeTraceConverter.constructor | app/src/main/kotlin/org/gradle/tools/trace/app/TraceToChromeTraceConverter.kt:21-28 | no packets, the uuid counter at 1, and empty track and thread tables |
| ChromeTrace.TraceToChromeTraceConverter.WriteTracePacket | app/src/main/kotlin/org/gradle/tools/trace/app/TraceToChromeTraceConverter.kt:36-39 | one packet is appended and the packet count goes up by one |
| ChromeTrace.TraceToChromeTraceConverter.OnFirstRecord | app/src/main/kotlin/org/gradle/tools/trace/app/TraceToChromeTraceConverter.kt:111-132 | the origin becomes the start's time, and the snapshot of clock 64 at 0 in milliseconds with the boot-time clock at the origin is written |
| ChromeTrace.TraceToChromeTraceConverter.GetThreadId | app/src/main/kotlin/org/gradle/tools/trace/app/TraceToChromeTraceConverter.kt:134-138 | the stored id of a known name; a new name gets size + 1, which is stored |
| ChromeTrace.TraceToChromeTraceConverter.DeclareProcess | app/src/main/kotlin/org/gradle/tools/trace/app/TraceToChromeTraceConverter.kt:48-61 | a process descriptor is written only for an unknown pid, which then gets an empty thread table |
| ChromeTrace.TraceToChromeTraceConverter.DeclareThread | app/src/main/kotlin/org/gradle/tools/trace/app/TraceToChromeTraceConverter.kt:63-81 | a known thread keeps its uuid; a new one takes the counter's value, the counter goes up by one, and its descriptor is written |
| ChromeTrace.TraceToChromeTraceConverter.WriteSlice | app/src/main/kotlin/org/gradle/tools/trace/app/TraceToChromeTraceConverter.kt:83-94 | writing a slice event leaves the track tables as they are |
| ChromeTrace.TraceToChromeTraceConverter.WorkerTrack | app/src/main/kotlin/org/gradle/tools/trace/app/TraceToChromeTraceConverter.kt:47-81 | the track of worker lease 0 and thread `getThreadId("")`, with its descriptors written only the first time |
| ChromeTrace.TraceToChromeTraceConverter.Visit | app/src/main/kotlin/org/gradle/tools/trace/app/TraceToChromeTraceConverter.kt:41-109 | the snapshot comes first on the first visit, then descriptors only where new, then a slice begin at startTime minus origin; the returned callback holds a declared track; descriptors stay one per process and thread, with distinct uuids |
| ChromeTrace.TraceToChromeTraceConverter.FinishSlice | app/src/main/kotlin/org/gradle/tools/trace/app/TraceToChromeTraceConverter.kt:96-108 | the callback writes a slice end at endTime minus origin, on the track its slice began on |
| Timeline.VisitNodesCases | app/src/main/kotlin/org/gradle/tools/trace/app/TraceToTimelineConverter.kt:34-42 | a visit adds one node of the matching type for a task or transformation step, none otherwise, and fails only on a recognised record |
| Timeline.VisitNodesTiming | app/src/main/kotlin/org/gradle/tools/trace/app/TraceToTimelineConverter.kt:54-55 | a node starts when its record starts and lasts until the record ends |
| Timeline.TaskNodeFields | app/src/main/kotlin/org/gradle/tools/trace/app/TraceToTimelineConverter.kt:47-56 | a task node is described by its task path; its project path is the task path up to its last ':', or all of it without one |
| Timeline.TaskProjectPathExample | app/src/main/kotlin/org/gradle/tools/trace/app/TraceToTimelineConverter.kt:53 | ":app:compile" gives the project path ":app" |
| Timeline.CompressedEmptyIff | app/src/main/kotlin/org/gradle/tools/trace/app/TraceToTimelineConverter.kt:82-97 | the compressed attributes are empty exactly when every attribute keeps its value |
| Timeline.IdenticalAttributesCompressEmpty | app/src/main/kotlin/org/gradle/tools/trace/app/TraceToTimelineConverter.kt:84-86 | identical attribute maps compress to "" |
| Timeline.CompressedLookupsOnly | app/src/main/kotlin/org/gradle/tools/trace/app/TraceToTimelineConverter.kt:84-85 | `fromAttributes` is consulted only at the keys of `toAttributes` |
| Timeline.FromOnlyAttributeIgnored | app/src/main/kotlin/org/gradle/tools/trace/app/TraceToTimelineConverter.kt:84-95 | an attribute present only in `fromAttributes` never shows in the description |
| Timeline.AppendedPiece | app/src/main/kotlin/org/gradle/tools/trace/app/TraceToTimelineConverter.kt:86-94 | an unchanged attribute adds nothing; a new one adds ` name(to)`; a changed one adds ` name(from->to)` |
| Timeline.CompressAttributes | app/src/main/kotlin/org/gradle/tools/trace/app/TraceToTimelineConverter.kt:82-97 | the loop builds the pieces of the entries of `toAttributes`, in order |
| Timeline.HeaderColumns | app/src/main/kotlin/org/gradle/tools/trace/app/TraceToTimelineConverter.kt:100-109 | the header holds the eight column names in order, and no line break |
| Timeline.ComposeRowRoundTrip | app/src/main/kotlin/org/gradle/tools/trace/app/TraceToTimelineConverter.kt:111-120 | a row reads back as the node's eight fields, its numbers as the node's numbers |
| Timeline.OutputLines | app/src/main/kotlin/org/gradle/tools/trace/app/TraceToTimelineConverter.kt:25-29 | without line breaks in text fields, the output's lines are the header and one row per node, in visit order |
| Timeline.TraceToTimelineConverter.constructor | app/src/main/kotlin/org/gradle/tools/trace/app/TraceToTimelineConverter.kt:20 | the node list starts empty |
| Timeline.TraceToTimelineConverter.Visit | app/src/main/kotlin/org/gradle/tools/trace/app/TraceToTimelineConverter.kt:34-42 | the node list grows by exactly the nodes of the record, and is unchanged on failure |
| Timeline.TraceToTimelineConverter.OnExecuteTask | app/src/main/kotlin/org/gradle/tools/trace/app/TraceToTimelineConverter.kt:44-59 | the task's node is appended exactly when its details decode |
| Timeline.TraceToTimelineConverter.OnExecuteTransform | app/src/main/kotlin/org/gradle/tools/trace/app/TraceToTimelineConverter.kt:61-80 | the transformation's node, described by its component and changed attributes, is appended exactly when its identity decodes |
| Timeline.TraceToTimelineConverter.Output | app/src/main/kotlin/org/gradle/tools/trace/app/TraceToTimelineConverter.kt:25-29 | the loop writes the header, then a line break and a row per node |
| TransformCsv.NewTransformInfo | app/src/main/kotlin/org/gradle/tools/trace/app/TraceToTransformCsvConverter.kt:7-15 | a new entry has one invocation and no execution time (-1) |
| TransformCsv.ClassificationExclusive | app/src/main/kotlin/org/gradle/tools/trace/app/TraceToTransformCsvConverter.kt:36-44 | no record is both an identification and an execution |
| TransformCsv.DecodeAttributes | app/src/main/kotlin/org/gradle/tools/trace/app/TraceToTransformCsvConverter.kt:57-58 | the attribute list decodes exactly when every element is a map of nullable strings, one attribute per element |
| TransformCsv.AttributesSortedByName | app/src/main/kotlin/org/gradle/tools/trace/app/TraceToTransformCsvConverter.kt:97-100 | the attributes are rendered in name order, null names first, each exactly once |
| TransformCsv.EmptyAttributes | app/src/main/kotlin/org/gradle/tools/trace/app/TraceToTransformCsvConverter.kt:97-100 | an empty list renders as "{}" |
| TransformCsv.RenderAttributesRoundTrip | app/src/main/kotlin/org/gradle/tools/trace/app/TraceToTransformCsvConverter.kt:100 | the braced rendering reads back as the attributes, when names hold no ',' or '=' and values no ',' |
| TransformCsv.OtherWorkSkipped | app/src/main/kotlin/org/gradle/tools/trace/app/TraceToTransformCsvConverter.kt:17-20 | an execution of any other work type is passed over |
| TransformCsv.IdentifyEffect | app/src/main/kotlin/org/gradle/tools/trace/app/TraceToTransformCsvConverter.kt:60-71 | a first identification inserts a new entry, last in order; a repeated one only counts one more invocation; no other entry changes |
| TransformCsv.ExecuteEffect | app/src/main/kotlin/org/gradle/tools/trace/app/TraceToTransformCsvConverter.kt:76-95 | an execution sets the execution time of its known entry only while it has none; an unknown identity or other work changes nothing |
| TransformCsv.VisitKeepsValid | app/src/main/kotlin/org/gradle/tools/trace/app/TraceToTransformCsvConverter.kt:35-47 | every visit keeps the identities distinct, equal to the keys, each entry under its own identity |
| TransformCsv.RunKeys | app/src/main/kotlin/org/gradle/tools/trace/app/TraceToTransformCsvConverter.kt:22 | entries are never removed, and the keys gathered are exactly the identified ids |
| TransformCsv.OneRowPerIdentity | app/src/main/kotlin/org/gradle/tools/trace/app/TraceToTransformCsvConverter.kt:28-30 | one output row per distinct identity |
| TransformCsv.RowRoundTrip | app/src/main/kotlin/org/gradle/tools/trace/app/TraceToTransformCsvConverter.kt:29 | a row reads back as the entry's seven fields, when identity, type and component hold no ',' or '"' and the renderings no '"' |
| TransformCsv.TraceToTransformCsvConverter.constructor | app/src/main/kotlin/org/gradle/tools/trace/app/TraceToTransformCsvConverter.kt:22 | the table starts empty |
| TransformCsv.TraceToTransformCsvConverter.Visit | app/src/main/kotlin/org/gradle/tools/trace/app/TraceToTransformCsvConverter.kt:35-47 | the table becomes its specified update, and is unchanged on failure |
| TransformCsv.TraceToTransformCsvConverter.OnIdentifyTransform | app/src/main/kotlin/org/gradle/tools/trace/app/TraceToTransformCsvConverter.kt:50-73 | the decoded identification updates the table as specified |
| TransformCsv.TraceToTransformCsvConverter.Identified | app/src/main/kotlin/org/gradle/tools/trace/app/TraceToTransformCsvConverter.kt:60-71 | the in-place count or insert matches the specified update |
| TransformCsv.TraceToTransformCsvConverter.OnExecuteTransform | app/src/main/kotlin/org/gradle/tools/trace/app/TraceToTransformCsvConverter.kt:76-95 | the decoded execution updates the table as specified |
| TransformCsv.TraceToTransformCsvConverter.Output | app/src/main/kotlin/org/gradle/tools/trace/app/TraceToTransformCsvConverter.kt:27-30 | the header, then a line break and a row per entry, in insertion order |
| Operations.ProjectRendering | app/src/main/kotlin/org/gradle/tools/trace/app/operations.kt:6-9 | a project renders as its path alone exactly when the build path is ":" or empty, and as build path plus project path otherwise |
| Operations.ModuleRendering | app/src/main/kotlin/org/gradle/tools/trace/app/operations.kt:11-13 | `group:module:version` splits back into its three parts |
| Operations.UnknownRendering | app/src/main/kotlin/org/gradle/tools/trace/app/operations.kt:15-17 | `displayName (className)` splits at '(' into the two names |
| Operations.UnpackPrecedence | app/src/main/kotlin/org/gradle/tools/trace/app/operations.kt:72-87 | Project, then Module, then Unknown, then error; a non-string value is an error |
| Operations.UnpackComponentFields | app/src/main/kotlin/org/gradle/tools/trace/app/operations.kt:72-87 | an identifier's fields decode back to the identifier |
| Operations.ExecuteTaskFromRecordCopies | app/src/main/kotlin/org/gradle/tools/trace/app/operations.kt:30-39 | the four details are taken over unchanged; decoding fails exactly when one is missing or mistyped |
| Operations.ExecuteTaskRoundTrip | app/src/main/kotlin/org/gradle/tools/trace/app/operations.kt:30-39 | the recorded details decode back to the task details |
| Operations.SortedAttributes | app/src/main/kotlin/org/gradle/tools/trace/app/operations.kt:64-67 | the attribute map sorted by key, every entry kept |
| Operations.TransformationFromRecord | app/src/main/kotlin/org/gradle/tools/trace/app/operations.kt:57-70 | the source, from and to attribute maps come out sorted by key, every entry of the identity's map kept |
| BuildopsOperations.ExecuteTaskFromStartAgrees | app/src/main/kotlin/org/gradle/tools/trace/app/buildops/operations.kt:17-26 | reading a start's task details agrees with the earlier decoder |
| BuildopsOperations.ExecuteTaskFromStartRoundTrip | app/src/main/kotlin/org/gradle/tools/trace/app/buildops/operations.kt:17-26 | the recorded details decode back to the task details |
| BuildopsOperations.ComponentToStringAgrees | app/src/main/kotlin/org/gradle/tools/trace/app/buildops/operations.kt:32-43 | the three renderings match those of the earlier revision |
| BuildopsOperations.FromMapAgrees | app/src/main/kotlin/org/gradle/tools/trace/app/buildops/operations.kt:46-61 | `fromMap` decodes exactly as the earlier `unpackComponentIdentifier` |
| BuildopsOperations.FromMapPrecedence | app/src/main/kotlin/org/gradle/tools/trace/app/buildops/operations.kt:55-60 | Project, then Module, then Unknown, then error |
| BuildopsOperations.CapabilityRendering | app/src/main/kotlin/org/gradle/tools/trace/app/buildops/operations.kt:76-78 | a capability splits back into three parts exactly when it has a version, and two otherwise |
| BuildopsOperations.CapabilitiesFromList | app/src/main/kotlin/org/gradle/tools/trace/app/buildops/operations.kt:91-97 | the capabilities keep their number and order; any undecodable element is an error |
| BuildopsOperations.CapabilitiesRoundTrip | app/src/main/kotlin/org/gradle/tools/trace/app/buildops/operations.kt:91-97 | recorded capabilities decode back to themselves |
| BuildopsOperations.ComponentVariantFromMap | app/src/main/kotlin/org/gradle/tools/trace/app/buildops/operations.kt:83-99 | the component, the attributes as they are, and the capabilities element by element |
| BuildopsOperations.DependenciesFromMap | app/src/main/kotlin/org/gradle/tools/trace/app/buildops/operations.kt:128-134 | no configuration exactly when the field is absent or null |
| BuildopsOperations.TransformationFromMap | app/src/main/kotlin/org/gradle/tools/trace/app/buildops/operations.kt:122-137 | paths and artifact name are copied, and the configuration is null exactly when the field is absent or null |
| BuildopsOperations.StepDetailsFromStart | app/src/main/kotlin/org/gradle/tools/trace/app/buildops/operations.kt:152-162 | the source, from and to attributes come out sorted by key, every entry kept |
| BuildopsDetails.DetailsKinds | app/src/main/kotlin/org/gradle/tools/trace/app/buildops/details.kt:5-9 | each predicate holds exactly for its class name; a null class name makes both false; they are never both true |
| Unpacking.IsStepAgrees | app/src/main/kotlin/org/gradle/tools/trace/app/unpacking.kt:4-5 | the predicate holds exactly for the step-details class name |
| Unpacking.FromTraceDetails | app/src/main/kotlin/org/gradle/tools/trace/app/unpacking.kt:21-34 | the component is taken as the string it is; the attribute maps are sorted by key, every entry kept |
| Unpacking.EmptyAttributesMap | app/src/main/kotlin/org/gradle/tools/trace/app/unpacking.kt:38-39 | an empty map renders as "{}" |
| Unpacking.AttributesMapRoundTrip | app/src/main/kotlin/org/gradle/tools/trace/app/unpacking.kt:38-39 | the braced rendering reads back entry by entry, in order |
| UtilUnpacking.EmptyAttributesMap | app/src/main/kotlin/org/gradle/tools/trace/app/util/unpacking.kt:4-5 | an empty map renders as "", with no braces |
| UtilUnpacking.AttributesMapRoundTrip | app/src/main/kotlin/org/gradle/tools/trace/app/util/unpacking.kt:4-5 | the ", "-separated rendering reads back entry by entry, in order |
| Csv.ConvertToCsvValue | app/src/main/kotlin/org/gradle/tools/trace/app/csv.kt:7-12 | a field without ',' or '"' is unchanged; otherwise it is between quotes |
| Csv.ConvertToCsvValueRoundTrip | app/src/main/kotlin/org/gradle/tools/trace/app/csv.kt:7-12 | reading back an escaped field gives the field |
| Csv.ConvertToCsvValueInjective | app/src/main/kotlin/org/gradle/tools/trace/app/csv.kt:7-12 | different fields escape differently |
| Csv.ParseComposeRoundTrip | app/src/main/kotlin/org/gradle/tools/trace/app/csv.kt:5 | a composed row reads back as its fields, in argument order |
| Csv.LineBreakNotQuoted | app/src/main/kotlin/org/gradle/tools/trace/app/csv.kt:8 | a line break alone does not cause quoting |
| Csv.RowHasNo | app/src/main/kotlin/org/gradle/tools/trace/app/csv.kt:5-12 | a row holds a character other than ',' and '"' only when a field does |
| UtilCsv.SameEscaping | app/src/main/kotlin/org/gradle/tools/trace/app/util/csv.kt:6-11 | a non-null field is escaped exactly as in csv.kt |
| UtilCsv.QuotedFieldShape | app/src/main/kotlin/org/gradle/tools/trace/app/util/csv.kt:7-8 | a quoted field starts and ends with '"', and its inner part is the field with quotes doubled |
| UtilCsv.ComposeMatchesNonNullRow | app/src/main/kotlin/org/gradle/tools/trace/app/util/csv.kt:4 | the row is the csv.kt row with every null replaced by the empty field |
| UtilCsv.ParseComposeRoundTrip | app/src/main/kotlin/org/gradle/tools/trace/app/util/csv.kt:4-11 | a composed row reads back as its fields, null as the empty field |
| Strings.SubstringBeforeLast | app/src/main/kotlin/org/gradle/tools/trace/app/TraceToTimelineConverter.kt:53 | the string up to its last ':', or all of it without one |
| Strings.IntToStringRoundTrip | app/src/main/kotlin/org/gradle/tools/trace/app/TraceToTimelineConverter.kt:114-119 | a rendered number reads back as the number |
| Sorting.SortByCorrect | app/src/main/kotlin/org/gradle/tools/trace/app/TraceToTransformCsvConverter.kt:99 | the sort orders by key and only rearranges its input |
| Sorting.SortByStable | app/src/main/kotlin/org/gradle/tools/trace/app/TraceToTransformCsvConverter.kt:99 | the sort is stable: the elements whose keys are tied with any given key keep their relative order |
| Values.ToSortedMapCorrect | app/src/main/kotlin/org/gradle/tools/trace/app/operations.kt:64-67 | `toSortedMap` orders the entries by key and keeps every entry |

## Left out

- Protobuf encoding in `TraceToChromeTraceConverter.kt`: packets are values of a `TracePacket` datatype, appended to a sequence instead of written to a coded output stream. The trusted packet sequence id, which is 1 on every packet, is left out.
- The boot-time clock is an abstract clock id; its protobuf number is not part of this model.
- `AtomicLong`: the uuid counter is a plain field, since the converter is single-threaded.
- File writes, `println` and `System.err` diagnostics in the `convert` methods: the model returns the text written, or leaves the message out.
- The closing `println` of `visitLogs` (BuildOperationLog.kt:111), which reports how many logs were processed: `OperationLog.VisitLogs` returns the count instead of printing it.
- `App.kt` (command line, Gson line reading, output file naming) and `BuildOperationLogAdapterFactory.kt` (Gson adapters) are not part of this model.
- `BuildOperationVisitor.visitRecords`, which drives the timeline and transform converters over nested records, is not part of this model. Each converter's `Visit` is modelled on its own.
- Reflection in `detailsType`/`resultType`/`hasDetailsOfType`: a class is its name, and `isAssignableFrom` is an abstract `Assignable` predicate passed in.
- The Kotlin `Regex` engine: include and exclude rules are abstract predicates on the display name, each optional.
- The `Stream`/`AutoCloseable` handling of `BuildOperationLogs`: the logs are a sequence.
- Id parsing by `toString().toDouble().toLong()` goes through floating point. An id is a JSON integer, and any other shape is an error.
- Unchecked casts to `Map<String, String>`: the model checks every value when the map is cast, while Kotlin would fail only when a value is read.
- Maps (`Fields`, `StringMap`) are entry sequences, which can hold a key twice where a Kotlin or Gson map cannot. On such input `Get` returns the first entry with the key and `ToSortedMap` keeps both entries where a `TreeMap` keeps one; the properties that depend on it (`Timeline.IdenticalAttributesCompressEmpty`) require distinct keys, and inputs with a repeated key are outside what the model describes.
- String order: `StrLe` is lexicographic order on characters, whereas Java's `String.compareTo` compares UTF-16 code units.
- `Int`/`Long` overflow: `invocationCount`, `packetCount`, the `count` of `visitLogs` (BuildOperationLog.kt:82, 108), the timestamp multiplications and the duration subtractions are unbounded integers.
- Gson reads numbers as doubles, so Kotlin's `toString` of a number in a map shows "1.0"; `Values.Show` renders integers without a fraction.
- `TransformInfo` is mutated in place in Kotlin; the model replaces the map's value with the updated record. No other reference to the record exists, so nothing observable differs.
- A `PostVisit` callback is represented by the index of the visitor call that returned it; what the visitor does inside the callback is outside this model.
- OperationLog.StartToString, OperationLog.FinishToString, OperationLog.ProgressToString and OperationRecord.ProgressToString render debug strings. They are modelled, but no property is stated about them.
