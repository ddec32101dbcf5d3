# Verification of the YOLOX pipeline's stateful core

This project models the parts of a YOLOX deployment in which something can go wrong between steps, and proves
what they promise.

- **KPI collector** (`Kpis`, `KpiSender`, `KpiRuns`, `KpiMerging`). Trace events are merged into per-plugin
  records; a complete record becomes a measurement, which is added to the group of its stream and frame; a group
  is published when it is full, or by an observer thread when it has not changed for 1100 ms. `KpiSender.Sink` is
  the imperative form, each method proved against a function on `State`. `KpiRuns` lets the trace thread, the
  observer and the command handler interleave at the granularity of the mutex, and proves an invariant of all
  reachable states. `KpiMerging` shows what the order of events does and does not influence.
- **Keys and text** (`RequestKeys`, `RequestIds`, `FieldText`): packed 64-bit request ids, the string hash, and the
  printing of trace fields.
- **Graph surgery** (`Onnx`, `SliceToConv`, `GraphRewrite`, `GraphMeaning`, `TailSurgery`, `PruneTail`,
  `HostAssembly`, `PruneMeaning`, `Surgery`). `Onnx` gives meaning to Slice with step 2, to Conv without padding, and to the
  Reshape, Concat and Transpose of the detection head, as the ONNX operator specification has them; every other
  node is an arbitrary function. Both list edits, the Slice replacement and the removal of the head, are proved
  against the list they leave, and that list is proved to compute what the original graph does, the removed head
  being rebuilt on the host; `Surgery` composes the two for the script as a whole.
- **Detections** (`Nms`, `Pixels`, `Detections`, `Levels`, `Decoder`): greedy suppression, what its overlap ratio
  counts, class selection, the anchor layout of multi-level outputs, and grid decoding.
- **Post-processing plan** (`Postprocess`, `PlanMeaning`): the name-to-slot interpreter and the dataflow graph it
  computes.
- **Accelerator client and address cache** (`Modular`, `MlaClient`, `SlotCache`): batch splitting with 64-bit
  wrap-around, and the 64-slot table of buffer addresses.

## Findings

Five properties hold only under a condition, which is proved to be exact:

- A reported measurement can lose its plugin id: a remote-core event carries none, and merging never fills it in. All
  orders of four events report alike exactly when the events agree on their labels
  (`KpiMerging.EveryOrderReportsAlike`), which parsed events with a named plugin never do
  (`NamedPluginsDependOnOrder`; an instance is `PluginIdDependsOnOrder`).
- The plan interpreter's dictionary is a bijection exactly when at most one plugin has several outputs
  (`PlanMeaning.BijectionExactly`). A plan with more that runs ends with a name without a slot of its own
  (`SecondSplitCrowds`), and for a family of plans the result then depends on the order of plugins (`TwoMoreSplits`).
- The frame part of an issued request id is not cut to 32 bits. Its upper bits must be set in the hash for the two kinds
  of event to meet (`RequestIds.EventsMeetForPlainNamesExactly`); the frame id -1, which a buffer without metadata
  leaves in place, misses (`EventsWithoutFrameMiss`, `UnsetFrameExample`).
- `1 << i` in the address cache is a shift of a 32-bit int over 64 slots. On a machine that shifts modulo 32, a
  lookup of buffer 0 after another buffer hits a slot that was never filled (`SlotCache.AnswersAreFresh`, with the
  instance `BufferZeroAfterAnother`).
- The Slice replacement ignores the slice's end and the image's channels and extents, and reads only axes 2, 3 and
  (with start 0) -2 correctly (`SliceToConv.ReplacementIsExact`).

## Model

| member | source | states |
|---|---|---|
| `KpiRuns.Conservation` | yolox_s_opt_no_reshapes_mpk_rtspsrc/dependencies/gst_app/live_trace_reader/plugins/kpi_sender/kpi_sender.c:283-367 | over every interleaving of trace, observer and command steps: of each (stream, frame) key, what was published, then what is pending, then what is in flight is exactly what was converted, once each and in order |
| `KpiRuns.MessagesAreHomogeneous` | yolox_s_opt_no_reshapes_mpk_rtspsrc/dependencies/gst_app/live_trace_reader/plugins/kpi_sender/kpi_sender.c:232-250 | all measurements of one message have the message's frame id and the stream hash of its key; its stream id is that of the first one |
| `KpiRuns.GroupSizes` | yolox_s_opt_no_reshapes_mpk_rtspsrc/dependencies/gst_app/live_trace_reader/plugins/kpi_sender/kpi.c:353-417 | pending groups are never empty and never full; a message sent on a full group carries max(1, plugins_count) measurements, a timeout message fewer |
| `KpiRuns.SweepLeavesOnlyFreshGroups` | yolox_s_opt_no_reshapes_mpk_rtspsrc/dependencies/gst_app/live_trace_reader/plugins/kpi_sender/kpi_sender.c:386-406 | a sweep keeps a group, unchanged, if and only if its true age is at most 1100 ms; the unsigned age never wraps |
| `KpiRuns.GroupsChange` | yolox_s_opt_no_reshapes_mpk_rtspsrc/dependencies/gst_app/live_trace_reader/plugins/kpi_sender/kpi.c:353-377 | a group that is there after a step is as it was before, except that the step that adds the measurement in flight appends it to the group of its stream hash and frame and sets the group's time to the time of that step |
| `KpiRuns.SweepAlwaysPossible` | yolox_s_opt_no_reshapes_mpk_rtspsrc/dependencies/gst_app/live_trace_reader/plugins/kpi_sender/kpi_sender.c:378-409 | the observer is never stuck: in every reachable state a sweep has a next state |
| `KpiRuns.RequestIdsAlwaysMatch` | yolox_s_opt_no_reshapes_mpk_rtspsrc/dependencies/gst_app/live_trace_reader/plugins/kpi_sender/kpi.c:209-240 | in every reachable state records lie under their own request id, so merging fails if and only if a custom event meets an existing record |
| `KpiRuns.Invariant` | yolox_s_opt_no_reshapes_mpk_rtspsrc/dependencies/gst_app/live_trace_reader/plugins/kpi_sender/kpi_sender.c:283-412 | every reachable state satisfies the collector's invariant |
| `KpiRuns.EventKeepsInv` | yolox_s_opt_no_reshapes_mpk_rtspsrc/dependencies/gst_app/live_trace_reader/plugins/kpi_sender/kpi_sender.c:286-352 | absorbing one trace keeps the invariant, in particular conservation |
| `KpiRuns.AddKeepsInv` | yolox_s_opt_no_reshapes_mpk_rtspsrc/dependencies/gst_app/live_trace_reader/plugins/kpi_sender/kpi_sender.c:354-367 | the critical section of the trace thread keeps the invariant |
| `KpiRuns.SweepKeepsInv` | yolox_s_opt_no_reshapes_mpk_rtspsrc/dependencies/gst_app/live_trace_reader/plugins/kpi_sender/kpi_sender.c:386-406 | one pass of the observer keeps the invariant |
| `KpiRuns.HandedOverByAdding` | yolox_s_opt_no_reshapes_mpk_rtspsrc/dependencies/gst_app/live_trace_reader/plugins/kpi_sender/kpi_sender.c:356-362 | adding a measurement and publishing its group if full neither loses, repeats nor reorders a measurement |
| `KpiRuns.HandedOverBySweep` | yolox_s_opt_no_reshapes_mpk_rtspsrc/dependencies/gst_app/live_trace_reader/plugins/kpi_sender/kpi_sender.c:393-405 | a sweep moves whole stale groups to messages, each once, and leaves the others alone |
| `KpiMerging.OtherKeysDoNotMatter` | yolox_s_opt_no_reshapes_mpk_rtspsrc/dependencies/gst_app/live_trace_reader/plugins/kpi_sender/kpi_sender.c:297-367 | in any run, the open record and the reports of a key are those of a collector that saw only this key's accepted events |
| `KpiMerging.FourEventsGiveOneReport` | yolox_s_opt_no_reshapes_mpk_rtspsrc/dependencies/gst_app/live_trace_reader/plugins/kpi_sender/kpi_sender.c:297-367 | the four events of a remote-core measurement, in any order and interleaved with anything, yield no report before the fourth and exactly one then; in it each event's time stands in the field that the event's kind and name call for, the execution time is the kernel's, and the labels are those of the first event or the first one set |
| `KpiMerging.TwoEventsGiveOneReport` | yolox_s_opt_no_reshapes_mpk_rtspsrc/dependencies/gst_app/live_trace_reader/plugins/kpi_sender/kpi.c:37-63 | for any other type start and end suffice: no report before the second, exactly one then, with the plugin's two times, no kernel times, and the execution time between the two |
| `KpiMerging.FirstEventOpens` | yolox_s_opt_no_reshapes_mpk_rtspsrc/dependencies/gst_app/live_trace_reader/plugins/kpi_sender/kpi.c:182-207 | the first event of a key, of whatever kind, opens a record with its labels and at most its one time, and nothing else happens |
| `KpiMerging.CustomEventOnlyLabels` | yolox_s_opt_no_reshapes_mpk_rtspsrc/dependencies/gst_app/live_trace_reader/plugins/kpi_sender/kpi.c:175-240 | a custom event for an existing record fills in labels that were missing, and is then dropped without a report |
| `KpiMerging.PcieStartIsKept` | yolox_s_opt_no_reshapes_mpk_rtspsrc/dependencies/gst_app/live_trace_reader/plugins/kpi_sender/kpi_sender.c:303-317 | the start event of a PCIe source leaves its time under the key without stream and with frame -1 |
| `KpiMerging.PcieEndIsReported` | yolox_s_opt_no_reshapes_mpk_rtspsrc/dependencies/gst_app/live_trace_reader/plugins/kpi_sender/kpi_sender.c:319-338 | its end event is reported at once, with its own time and labels and the start time from that key, if and only if a start time is kept there |
| `KpiMerging.EveryOrderReportsAlike` | yolox_s_opt_no_reshapes_mpk_rtspsrc/dependencies/gst_app/live_trace_reader/plugins/kpi_sender/kpi.c:182-240 | a test on four events alone: all their orders report the same measurement but for the plugin id if and only if they agree on the type and, as far as set, on stream id and query id; and the same plugin id too if and only if they agree on it |
| `KpiMerging.NamedPluginsDependOnOrder` | yolox_s_opt_no_reshapes_mpk_rtspsrc/dependencies/gst_app/live_trace_reader/plugins/kpi_sender/trace.c:132-193 | parsed events of which one names its plugin always have two orders with different reports, because kernel events carry no name |
| `KpiMerging.OrderIndependence` | yolox_s_opt_no_reshapes_mpk_rtspsrc/dependencies/gst_app/live_trace_reader/plugins/kpi_sender/kpi.c:137-240 | two given orders of the same four events report the same four times; the reports are equal if and only if the first plugin text and type and the first set stream id and query id are |
| `KpiMerging.PluginIdDependsOnOrder` | yolox_s_opt_no_reshapes_mpk_rtspsrc/dependencies/gst_app/live_trace_reader/plugins/kpi_sender/kpi.c:194-198 | four events that the trace parser can yield, in two orders with different reports: merging never fills in a plugin id |
| `KpiMerging.SwappedFirstEvents` | yolox_s_opt_no_reshapes_mpk_rtspsrc/dependencies/gst_app/live_trace_reader/plugins/kpi_sender/kpi.c:182-240 | swapping a first event without plugin id with a second one that has one always changes the report |
| `KpiMerging.CommonStream` | yolox_s_opt_no_reshapes_mpk_rtspsrc/dependencies/gst_app/live_trace_reader/plugins/kpi_sender/kpi.c:230-233 | a stream id common to all events that carry one is found wherever these stand |
| `KpiMerging.ReportedWhenComplete` | yolox_s_opt_no_reshapes_mpk_rtspsrc/dependencies/gst_app/live_trace_reader/plugins/kpi_sender/kpi_sender.c:303-367 | until it is complete a record is the summary of its events (latest times, first labels); then exactly that summary is reported |
| `KpiMerging.FourthEventCompletes` | yolox_s_opt_no_reshapes_mpk_rtspsrc/dependencies/gst_app/live_trace_reader/plugins/kpi_sender/kpi.c:66-77 | four events that fill distinct timestamps complete a remote-core record at the fourth, never earlier |
| `KpiSender.Sink.Consume` | yolox_s_opt_no_reshapes_mpk_rtspsrc/dependencies/gst_app/live_trace_reader/plugins/kpi_sender/kpi_sender.c:286-369 | one event message changes the two maps, the conversions and the publications as `Consumed` says: merge or store, PCIe end, conversion, group, publication |
| `KpiSender.Sink.MergeOrStore` | yolox_s_opt_no_reshapes_mpk_rtspsrc/dependencies/gst_app/live_trace_reader/plugins/kpi_sender/kpi_sender.c:301-312 | finds or creates the record of the trace's key; yields none exactly when merging fails |
| `KpiSender.Sink.TakePcieStart` | yolox_s_opt_no_reshapes_mpk_rtspsrc/dependencies/gst_app/live_trace_reader/plugins/kpi_sender/kpi_sender.c:319-338 | a PCIe end event takes its plugin start from the record stored without a stream under frame -1, if there is one |
| `KpiSender.Sink.ReportIfReady` | yolox_s_opt_no_reshapes_mpk_rtspsrc/dependencies/gst_app/live_trace_reader/plugins/kpi_sender/kpi_sender.c:341-367 | a complete record is converted, delivered and removed; an incomplete one stays |
| `KpiSender.Sink.Report` | yolox_s_opt_no_reshapes_mpk_rtspsrc/dependencies/gst_app/live_trace_reader/plugins/kpi_sender/kpi_sender.c:350-367 | the part for a complete record: it is converted, delivered and removed, and nothing else is; what the measurement says is stated in `FourEventsGiveOneReport` and `TwoEventsGiveOneReport` |
| `KpiSender.Sink.StorePluginKpi` | yolox_s_opt_no_reshapes_mpk_rtspsrc/dependencies/gst_app/live_trace_reader/plugins/kpi_sender/kpi.c:266-280 | a record is stored under its own request id; the other records stay |
| `KpiSender.Sink.RemovePluginKpi` | yolox_s_opt_no_reshapes_mpk_rtspsrc/dependencies/gst_app/live_trace_reader/plugins/kpi_sender/kpi.c:328-341 | the record of the given hash and frame goes; the other records stay |
| `KpiSender.Sink.PublishStale` | yolox_s_opt_no_reshapes_mpk_rtspsrc/dependencies/gst_app/live_trace_reader/plugins/kpi_sender/kpi_sender.c:398-404 | one more stale group of a pass is published and gone |
| `KpiSender.Sink.AddAndPublish` | yolox_s_opt_no_reshapes_mpk_rtspsrc/dependencies/gst_app/live_trace_reader/plugins/kpi_sender/kpi_sender.c:356-362 | the group grows by the measurement, and is published whole and dropped once it has plugins_count of them |
| `KpiSender.Sink.AddJsonNode` | yolox_s_opt_no_reshapes_mpk_rtspsrc/dependencies/gst_app/live_trace_reader/plugins/kpi_sender/kpi.c:353-377 | the measurement is appended to its group, which is created on demand, and the group's time is updated |
| `KpiSender.Sink.PopJsonNode` | yolox_s_opt_no_reshapes_mpk_rtspsrc/dependencies/gst_app/live_trace_reader/plugins/kpi_sender/kpi.c:394-417 | removes and returns the first measurement of a group; the emptied group is dropped |
| `KpiSender.Sink.MakePipelineKpi` | yolox_s_opt_no_reshapes_mpk_rtspsrc/dependencies/gst_app/live_trace_reader/plugins/kpi_sender/kpi.c:443-477 | pops a whole group in order into one message with the frame id of its key |
| `KpiSender.Sink.PublishPipelineKpi` | yolox_s_opt_no_reshapes_mpk_rtspsrc/dependencies/gst_app/live_trace_reader/plugins/kpi_sender/kpi_sender.c:232-250 | publishes one group as one message with its first measurement's stream id, and drops the group |
| `KpiSender.Sink.Observe` | yolox_s_opt_no_reshapes_mpk_rtspsrc/dependencies/gst_app/live_trace_reader/plugins/kpi_sender/kpi_sender.c:384-406 | the pass with a restarting iterator ends, and publishes exactly the stale groups, each once |
| `KpiSender.Sink.SetPushToMqtt` | yolox_s_opt_no_reshapes_mpk_rtspsrc/dependencies/gst_app/live_trace_reader/plugins/kpi_sender/kpi_sender.c:88-93 | a start or stop command changes only the publishing flag |
| `KpiSender.Sink.constructor` | yolox_s_opt_no_reshapes_mpk_rtspsrc/dependencies/gst_app/live_trace_reader/plugins/kpi_sender/kpi_sender.c:133-169 | a new sink has empty maps and does not publish |
| `Kpis.PluginKpi.FromTrace` | yolox_s_opt_no_reshapes_mpk_rtspsrc/dependencies/gst_app/live_trace_reader/plugins/kpi_sender/kpi.c:182-207 | a new record has the trace's labels and its one timestamp |
| `Kpis.PluginKpi.InsertTimestamp` | yolox_s_opt_no_reshapes_mpk_rtspsrc/dependencies/gst_app/live_trace_reader/plugins/kpi_sender/kpi.c:137-180 | sets the one timestamp chosen by event name and type; fails exactly on another request id or a custom event |
| `Kpis.PluginKpi.MergeTrace` | yolox_s_opt_no_reshapes_mpk_rtspsrc/dependencies/gst_app/live_trace_reader/plugins/kpi_sender/kpi.c:209-240 | fills in an empty stream id and query id, and inserts the timestamp, for the same request id only |
| `Kpis.PluginKpi.IsReady` | yolox_s_opt_no_reshapes_mpk_rtspsrc/dependencies/gst_app/live_trace_reader/plugins/kpi_sender/kpi_sender.c:343-348 | ready if and only if the plugin timestamps are set, and for a remote-core type the kernel ones too |
| `Kpis.TypeIsOfFirstPart` | yolox_s_opt_no_reshapes_mpk_rtspsrc/dependencies/gst_app/live_trace_reader/plugins/kpi_sender/trace.c:158-174 | the type of an event is that of the first listed part that occurs in its name, and unknown if none does |
| `Kpis.ElapsedLeadsTo` | yolox_s_opt_no_reshapes_mpk_rtspsrc/dependencies/gst_app/live_trace_reader/plugins/kpi_sender/kpi_sender.c:397 | the unsigned difference of two times is the one that leads from the first to the second modulo 2^64 |
| `RequestKeys.BitsRoundTrip` | yolox_s_opt_no_reshapes_mpk_rtspsrc/dependencies/gst_app/live_trace_reader/plugins/kpi_sender/kpi.c:261-264 | packing hash and frame id into 64 bits and unpacking are inverse to each other |
| `RequestKeys.HashString` | yolox_s_opt_no_reshapes_mpk_rtspsrc/dependencies/gst_app/live_trace_reader/plugins/kpi_sender/utils.c:285-298 | the loop computes the FNV-1a fold of the string's bytes |
| `RequestIds.EventsMeetForPlainNamesExactly` | yolox_s_opt_no_reshapes_mpk_rtspsrc/plugins/processmla/gstsimaaiprocessmla.cpp:968-970 | for names without escaped characters a remote-core event and a plugin event of one measurement share a key if and only if the frame bits above 32 are all set in the hash |
| `RequestIds.EventsWithoutFrameMiss` | yolox_s_opt_no_reshapes_mpk_rtspsrc/plugins/processmla/gstsimaaiprocessmla.cpp:1075 | for the unset frame id -1 they share one if and only if all bits of the hash are set |
| `RequestIds.UnsetFrameExample` | yolox_s_opt_no_reshapes_mpk_rtspsrc/plugins/processmla/gstsimaaiprocessmla.cpp:968-970 | a node name with which they do not, when no frame metadata arrives |
| `RequestIds.EventsMeetForPlainNames` | yolox_s_opt_no_reshapes_mpk_rtspsrc/dependencies/gst_app/live_trace_reader/plugins/kpi_sender/trace.c:132-156 | they always share one for frame ids below 2^32 and names without escaped characters |
| `FieldText.ParseString` | yolox_s_opt_no_reshapes_mpk_rtspsrc/dependencies/gst_app/live_trace_reader/plugins/kpi_sender/utils.c:67-133 | the loop appends the escaped string to the buffer |
| `FieldText.EscapeAppends` | yolox_s_opt_no_reshapes_mpk_rtspsrc/dependencies/gst_app/live_trace_reader/plugins/kpi_sender/utils.c:67-133 | text is printed character by character |
| `FieldText.PrintedQuotes` | yolox_s_opt_no_reshapes_mpk_rtspsrc/dependencies/gst_app/live_trace_reader/plugins/kpi_sender/utils.c:76-90 | backslash, quotes and question mark are printed after a backslash |
| `FieldText.PrintedControls` | yolox_s_opt_no_reshapes_mpk_rtspsrc/dependencies/gst_app/live_trace_reader/plugins/kpi_sender/utils.c:97-124 | the letters that stand for control characters |
| `FieldText.PrintedHex` | yolox_s_opt_no_reshapes_mpk_rtspsrc/dependencies/gst_app/live_trace_reader/plugins/kpi_sender/utils.c:91-129 | all other control characters are printed as two lower-case hexadecimal digits |
| `FieldText.UnescapeEscape` | yolox_s_opt_no_reshapes_mpk_rtspsrc/dependencies/gst_app/live_trace_reader/plugins/kpi_sender/utils.c:74-130 | a decoder recovers every string from its printed form |
| `FieldText.EscapeInjective` | yolox_s_opt_no_reshapes_mpk_rtspsrc/dependencies/gst_app/live_trace_reader/plugins/kpi_sender/utils.c:74-130 | different strings are never printed alike |
| `FieldText.EscapedIsPrintable` | yolox_s_opt_no_reshapes_mpk_rtspsrc/dependencies/gst_app/live_trace_reader/plugins/kpi_sender/utils.c:91-129 | printed text has no control characters |
| `FieldText.EscapeUnchanged` | yolox_s_opt_no_reshapes_mpk_rtspsrc/dependencies/gst_app/live_trace_reader/plugins/kpi_sender/utils.c:76-95 | a string is printed unchanged if and only if it has no special character |
| `FieldText.SafeShiftLeft` | yolox_s_opt_no_reshapes_mpk_rtspsrc/dependencies/gst_app/live_trace_reader/plugins/kpi_sender/utils.c:55-63 | repeated shifts by 63 bits multiply by 2^shift modulo 2^64, for any shift |
| `FieldText.PrintBinary` | yolox_s_opt_no_reshapes_mpk_rtspsrc/dependencies/gst_app/live_trace_reader/plugins/kpi_sender/utils.c:195-206 | appends "0b" and exactly `length` binary digits, which read back as the value modulo 2^length |
| `GraphRewrite.Graph.ReplaceSliceWithConv` | yolox_surgery_no_reshape.py:11-100 | every Slice whose steps are [2] has become a Conv, in its own place, with its first input and output, the new weight's name and the kernel shape and strides for its axis; every other node is as it was; one weight for each such Slice is appended, in order, with one tap set per channel or none |
| `GraphRewrite.RewrittenReplaces` | yolox_surgery_no_reshape.py:46-86 | the same of the list that the edit is proved to leave |
| `GraphRewrite.NewWeightsAdded` | yolox_surgery_no_reshape.py:53-88 | of the appended weights: names, shapes and all elements, one for each such Slice in list order |
| `GraphRewrite.Graph.RemoveAll` | yolox_surgery_no_reshape.py:91-93 | removing by equality leaves exactly the nodes that are not replaceable, in order |
| `GraphRewrite.Graph.InsertAll` | yolox_surgery_no_reshape.py:95-97 | inserting at the original indices, in order, rebuilds the list with Convs in the Slices' places |
| `GraphRewrite.RemovalStep` | yolox_surgery_no_reshape.py:91-93 | each removal takes out the first remaining replaceable node, also among equal nodes |
| `GraphRewrite.InsertionStep` | yolox_surgery_no_reshape.py:95-97 | each insertion completes the list up to the next recorded index |
| `GraphMeaning.RewritePreservesMeaning` | yolox_surgery_no_reshape.py:23-100 | every tensor name but the added weights evaluates to what it did before, whatever the other nodes compute |
| `GraphMeaning.ReplacedValue` | yolox_surgery_no_reshape.py:46-84 | an eligible Slice and its Conv yield the same tensor from the same input |
| `SliceToConv.ReplacementIsExact` | yolox_surgery_no_reshape.py:49-84 | for all images of given extents, also of one row or column, the Conv equals the Slice if and only if channels, extents, start, end and axis pass the stated test |
| `SliceToConv.FullSlices` | yolox_surgery_no_reshape.py:53-65 | a slice to the end of its axis passes that test's extent condition if and only if the extent is even or the start is 1 |
| `SliceToConv.NotReplacedDiffers` | yolox_surgery_no_reshape.py:51-65 | an all-one image distinguishes the Conv from every Slice that fails the test |
| `SliceToConv.BuildWeights` | yolox_surgery_no_reshape.py:53-65 | the loops set exactly these elements of the array to 1 and leave all others 0 |
| `SliceToConv.WeightsAreSet` | yolox_surgery_no_reshape.py:53-65 | which elements of the kernel are 1, for every start and axis: at most one in each channel's own filter |
| `SliceToConv.TapWindow` | yolox_surgery_no_reshape.py:56-65 | such a kernel picks one element of the window, or yields zero |
| `PruneTail.Model.RemoveLastNode` | yolox_surgery_no_reshape.py:103-119 | the last node goes; the node that feeds it takes over its output name; all other nodes are as they were, in order |
| `PruneTail.Model.CutBranch` | yolox_surgery_no_reshape.py:272-283 | one branch ends in a new graph output `output_<n>`, declared last, and its Reshape is gone; all other nodes are as they were, in order |
| `PruneTail.Model.CutBranches` | yolox_surgery_no_reshape.py:272-283 | all branches are cut in the order of the Concat's inputs; which nodes remain, under which names |
| `PruneTail.Model.PruneTail` | yolox_surgery_no_reshape.py:266-290 | the script's cut as a whole: exactly Transpose, Concat and Reshapes are gone, the first outputs of the branches are `output_0`, `output_1`, ..., every other name is as it was, and the graph outputs are declared accordingly |
| `PruneTail.DeclaredOutputsAre` | yolox_surgery_no_reshape.py:280-290 | the old output is no longer declared, the others stay in their order, and one new output for each branch follows |
| `PruneTail.OutNamesDistinct` | yolox_surgery_no_reshape.py:280-281 | the generated output names are distinct and differ from the old one |
| `PruneTail.DecimalReads` | yolox_surgery_no_reshape.py:280-281 | branch numbers are printed in decimal digits that read back as the number, without leading zeros |
| `TailSurgery.OverwriteIsRenaming` | yolox_surgery_no_reshape.py:112-114 | overwriting the output of the node found by name renames that tensor at its producer only |
| `TailSurgery.RemovalIsGone` | yolox_surgery_no_reshape.py:119 | removing the found node removes the producer of that name and nothing else |
| `PruneMeaning.PrunedEval` | yolox_surgery_no_reshape.py:266-290 | pruning keeps every tensor value outside the cut, under its new name if renamed |
| `PruneMeaning.BranchesSurvive` | yolox_surgery_no_reshape.py:272-283 | each new output of the pruned graph carries what its branch computed in the whole graph |
| `PruneMeaning.HostRebuildsOutput` | run_onnx.py:111-118 | the host's prediction from the declared outputs of the pruned graph (transpose, drop the batch, flatten, join) raises nothing and is the output of the graph before the cut, for any number and size of branches |
| `HostAssembly.HostAccepts` | run_onnx.py:113-118 | the host accepts the transposed branch tensors and joins their levels in order |
| `Surgery.OptimizedGraphRebuildsOutput` | yolox_surgery_no_reshape.py:266-290 | end to end: the declared outputs of the optimized graph are the original branch tensors in order, and the host's prediction from them is the original graph's output |
| `PruneTail.DeclaredOfOnlyOutput` | yolox_surgery_no_reshape.py:280-290 | of a graph with one output, exactly the new outputs are declared after the cut, in the order of the branches |
| `Surgery.Optimize` | yolox_surgery_no_reshape.py:266-290 | Slice replacement and cut in sequence: which nodes the script leaves and how each looks, the weights it adds, and the outputs it declares |
| `Surgery.TailRewritten` | yolox_surgery_no_reshape.py:266-270 | replacing Slices leaves the head where the cut looks for it |
| `Surgery.NewNamesAreNotHead` | yolox_surgery_no_reshape.py:69-81 | no added weight is named like a tensor that the cut removes, renames or introduces |
| `HostAssembly.HeadIsReassembled` | run_onnx.py:113-118 | Reshape, Concat and Transpose of the branches equal the host's transpose, flatten and concatenate |
| `HostAssembly.BothRoutesAt` | utils.py:226-230 | at each anchor both routes hold the value of one channel at that anchor's cell |
| `Nms.Suppress` | utils.py:304-332 | the shrinking loop ends and returns the greedy list |
| `Nms.GreedyIsTheKeptSet` | utils.py:308-330 | a candidate is kept if and only if every earlier kept one spares it, and this set is unique |
| `Nms.KeptAndDropped` | utils.py:312-330 | kept boxes are pairwise within the threshold; every dropped box has a kept suppressor of at least its score |
| `Nms.SuppressedDoNotMatter` | utils.py:287-332 | deleting any suppressed candidates changes nothing; suppressing twice is suppressing once |
| `Nms.GroupsAreIndependent` | utils.py:287-332 | a group of boxes without excess overlap across its border is suppressed as if it were alone |
| `Nms.GroupsMerge` | utils.py:287-332 | so the result is the score-order merge of what is kept of the group and of the others, each alone |
| `Nms.GreedyIsSift` | utils.py:308-330 | the loop that filters the candidates equals one pass that remembers what it kept |
| `Detections.OverlapRatio` | utils.py:301-324 | on boxes with ordered corners the ratio has a positive denominator, is symmetric, lies in [0, 1] and is 1 on a box itself |
| `Pixels.RatioCountsPixels` | utils.py:301-327 | for boxes with integer corners, areas, intersection and union are the numbers of pixels in a box, in both and in either; a box is spared if and only if common pixels divided by covered pixels is at most the threshold |
| `Pixels.LengthsAreDistances` | utils.py:302-320 | for real corners, lengths grow one to one with the distance of the corners and do not depend on where these are |
| `Detections.FromCentreIsProper` | run_onnx.py:124-128 | the corners have the given centre, width and height; they are ordered if and only if width and height are not negative |
| `Detections.HighThresholdKeepsAll` | utils.py:327 | a threshold of 1 or more suppresses nothing |
| `Detections.MulticlassNms` | utils.py:336-371 | no result if and only if no row passes the filter; else rows are input rows with first best class and score above the threshold, in falling score order, pairwise within the overlap threshold, and every other passing row overlaps a reported row of at least its score |
| `Detections.GatherCovers` | yolox_s_opt_no_reshapes_mpk_rtspsrc/plugins/yolox_postproc_overlay/payload.py:95-110 | every row that passes the score filter is reported or suppressed by a reported row |
| `Detections.ArgMax` | utils.py:350 | the first index of a largest score |
| `Detections.Valid` | utils.py:353-361 | exactly the rows whose best score exceeds the threshold, in input order |
| `Detections.SecondFilterDropsNothing` | run_onnx.py:135-139 | the callers' second score filter leaves every detection result as it is |
| `Detections.FilterKeeps` | run_onnx.py:135-139 | that filter keeps exactly the rows above its threshold |
| `Decoder.GetModelOutputs` | utils.py:209-232 | raises exactly on an empty list, a wrong rank or batch size, no channels, or unequal channel counts; else joins the flattened levels |
| `Decoder.Concatenate` | utils.py:230 | joins the levels if and only if there is one and all have equally many channels |
| `Decoder.GetModelOutputsFlat` | yolox_s_opt_no_reshapes_mpk_rtspsrc/plugins/yolox_postproc_overlay/payload.py:45-62 | cuts the flat buffer into the levels' rows, and fails exactly on a buffer too short |
| `Decoder.FlatAndListAgree` | yolox_s_opt_no_reshapes_mpk_rtspsrc/plugins/yolox_postproc_overlay/payload.py:45-62 | the flat version on the serialized levels returns the joined levels, which is what the list version returns on these levels as arrays, whatever follows in the buffer |
| `Decoder.DemoPostprocess` | utils.py:236-283 | raises, leaving all as it was, exactly if the cells do not broadcast to the rows or two columns are missing; else each row has the cell that row-by-row, level-by-level counting gives it, and with s = 8 * 2^level its columns become (value + x) * s, (value + y) * s, exp(value) * s, exp(value) * s, all others staying as they were |
| `Decoder.CellsOfImage` | utils.py:247-268 | there are three levels (four with p6) of height / s by width / s cells, and the list of cells counts them row by row, level by level |
| `Decoder.PredictionMeetsItsCell` | utils.py:209-283 | the row at a cell's anchor is the cell's channel vector; its decoded centre, divided by the stride and floored, names the cell again if and only if the raw offset is in [0, 1) |
| `Decoder.CentreNamesItsCell` | utils.py:270-274 | the same for one coordinate |
| `Levels.AnchorsAreCells` | utils.py:254-268 | anchors and (level, row, column) cells correspond one to one |
| `Levels.CellAtAnchor` | utils.py:226-230 | in the joined list each level's cell stands at its anchor |
| `Levels.FlattenAt` | utils.py:227 | row-major flattening puts cell (y, x) at y * w + x |
| `Postprocess.PostprocessOutput` | get_fps/apis/pipeline.py:346-406 | the loop with its flags, slot list and dictionary returns the slots of `Run`, as a bare value if and only if there is exactly one, and an error exactly when `Run` has one |
| `Postprocess.NumberOutputs` | get_fps/apis/pipeline.py:394-399 | the loop links output i of a multi-output plugin to slot i |
| `PlanMeaning.SingleExactly` | get_fps/apis/pipeline.py:406 | in terms of the plan, with fresh names and at most one multi-output plugin: a bare value is returned if and only if no active plugin has several outputs |
| `PlanMeaning.BijectionExactly` | get_fps/apis/pipeline.py:353-406 | a test on the plan alone: after a successful run the dictionary is a bijection from live names to slots if and only if at most one active plugin has several outputs; it then represents the graph's meaning |
| `PlanMeaning.InterpreterRefinesGraph` | get_fps/apis/pipeline.py:353-406 | with at most one multi-output plugin, the live names after a run are those produced and not consumed, and each slot holds the graph's value of its name |
| `PlanMeaning.SecondSplitCrowds` | get_fps/apis/pipeline.py:390-399 | a second multi-output plugin leaves a name without a slot of its own, to the end of the run |
| `PlanMeaning.TwoMoreSplits` | get_fps/apis/pipeline.py:390-399 | plans that run and end with two names per slot, and whose result depends on the order, for any input value |
| `PlanMeaning.RunsExactly` | get_fps/apis/pipeline.py:364-404 | with at most one multi-output plugin, a plan runs if and only if it is topological, reads no tensor twice, splits by unpacking only, and its equations have a solution |
| `PlanMeaning.SplitStep` | get_fps/apis/pipeline.py:390-399 | one step of that: a multi-output plugin keeps the bijection if and only if its input was the only live name |
| `PlanMeaning.SingleStep` | get_fps/apis/pipeline.py:383-404 | a single-output step keeps it always |
| `PlanMeaning.MeaningIsUnique` | get_fps/apis/pipeline.py:364-404 | the equations of a plan in topological order have one solution only |
| `PlanMeaning.OrderDoesNotMatter` | get_fps/apis/pipeline.py:364-406 | of a plan that runs with at most one multi-output plugin, any order with the same first plugin runs if and only if it is topological, and then returns the same output list |
| `PlanMeaning.ReorderedRuns` | get_fps/apis/pipeline.py:364-404 | the half about raising: such an order raises no error |
| `PlanMeaning.PassThroughIsTransparent` | get_fps/apis/pipeline.py:366-368 | pass-through plugins never affect the result |
| `MlaClient.BuildAddrList` | yolox_s_opt_no_reshapes_mpk_rtspsrc/core/dispatcher-lite/mla_client.c:66-77 | address k is start + k * size modulo 2^64 |
| `MlaClient.AddressesAre` | yolox_s_opt_no_reshapes_mpk_rtspsrc/core/dispatcher-lite/mla_client.c:66-77 | every address list that a call is given is plain arithmetic modulo 2^64 |
| `MlaClient.Client.RunBatch` | yolox_s_opt_no_reshapes_mpk_rtspsrc/core/dispatcher-lite/mla_client.c:83-114 | one call with both address lists; -1 if and only if the call fails |
| `MlaClient.Client.RunModel` | yolox_s_opt_no_reshapes_mpk_rtspsrc/core/dispatcher-lite/mla_client.c:116-205 | all four strategies: rejected sizes, single run, one native batch, chunks |
| `MlaClient.Client.RunChunks` | yolox_s_opt_no_reshapes_mpk_rtspsrc/core/dispatcher-lite/mla_client.c:158-201 | the calls made are a prefix of the chunk calls; all of them on success, and on failure the failed one comes after full chunks that all completed |
| `MlaClient.ChunksTile` | yolox_s_opt_no_reshapes_mpk_rtspsrc/core/dispatcher-lite/mla_client.c:164-200 | read in call order, the chunks' addresses are those of one pass over the batch |
| `MlaClient.ChunkSizes` | yolox_s_opt_no_reshapes_mpk_rtspsrc/core/dispatcher-lite/mla_client.c:169-196 | no call exceeds the model's batch size, none is empty, and all but the last are full |
| `MlaClient.ChunkSplit` | yolox_s_opt_no_reshapes_mpk_rtspsrc/core/dispatcher-lite/mla_client.c:164-189 | the number of calls is the ceiling quotient |
| `MlaClient.AddressOfAdvanced` | yolox_s_opt_no_reshapes_mpk_rtspsrc/core/dispatcher-lite/mla_client.c:180-183 | advancing the base and indexing from it equals indexing from the start, modulo 2^64 |
| `SlotCache.Cache.FindBufferById` | yolox_s_opt_no_reshapes_mpk_rtspsrc/core/simamm/simamm.c:67-96 | a hit, a newly filled slot or -1; slots in use stay a prefix that matches the word, with distinct ids and their addresses |
| `SlotCache.Cache.BufferIdToPaddr` | yolox_s_opt_no_reshapes_mpk_rtspsrc/core/simamm/simamm.c:97-112 | answers as `Answer` says, on a hit, on a new slot and after overflow |
| `SlotCache.AnswersAreFresh` | yolox_s_opt_no_reshapes_mpk_rtspsrc/core/simamm/simamm.c:67-112 | over any sequence of lookups every answer is what a fresh attach gives: always with one bit per slot; with the written int shift if and only if buffer 0 is not looked up, comes first, or lies at address 0 |
| `SlotCache.FirstBuffersAreStored` | yolox_s_opt_no_reshapes_mpk_rtspsrc/core/simamm/simamm.c:80-92 | of distinct buffers exactly the first 64 get a slot; with the written int shift, the first 32 (if buffer 0 is not among them) |
| `SlotCache.BufferZeroAfterAnother` | yolox_s_opt_no_reshapes_mpk_rtspsrc/core/simamm/simamm.c:74 | a run in which the int shift answers wrongly |
| `SlotCache.TakenSlots` | yolox_s_opt_no_reshapes_mpk_rtspsrc/core/simamm/simamm.c:74-81 | which slots the word makes look taken, for either reading of the shift |

## Left out

- MQTT, LTTng, babeltrace and GStreamer: a trace is taken as a parsed record with 32-bit hash and frame id (`Trace.Parsed` says which of these the parser yields); publishing appends to a log and does not fail.
- JSON text, the pipeline id and process id of a message: a message is a value; the execution time is kept in whole microseconds.
- Reference counts, frees, and the branches for NULL arguments, which no caller modelled here reaches.
- The address that `strstr` returns is cut to an int in the source; it is read here as found or not found.
- A PCIe end event without plugin id: the source dereferences it, so `Trace.WellFormed` demands one. The missing stream id is printed as "(null)", as glibc does.
- PCIe end events in the order results of `KpiMerging`: they take a timestamp from another key's record. What becomes of them is stated in `KpiMerging.PcieEndIsReported`.
- A batch of several messages is consumed one `Consume` after another; a trace that cannot be parsed is skipped.
- Groups are values of the map, not heap objects of their own: aliasing between them is not captured.
- Finalization of the sink, which drops what is pending.
- KpiSender.Sink.Consume: covers a call without interleaving; interleavings are covered by `KpiRuns`, whose steps split it at the mutex.
- Integers of more than 64 bits, which the trace library does not have.
- Octal, decimal and hexadecimal integers. The hexadecimal branch shifts by 64, which C leaves undefined, for lengths 61 to 63.
- Floats are reals: rounding, infinities and NaN are not modelled, except that a zero denominator never counts as within the threshold. `exp` is an arbitrary function, and the sort by score is any permutation that sorts.
- Detections.MulticlassNms: takes the sorted order of the valid scores as a parameter, and demands at least one class per row, as `argmax` does.
- Decoder.GetModelOutputsFlat: takes any number of levels with any common channel count; the source has three with 85.
- Decoder.DemoPostprocess: works on one image of the batch.
- Postprocess.PostprocessOutput: the transforms and the number of parts of a result are parameters, and every error is the same error.
- PlanMeaning.BijectionExactly: speaks of plans in which no tensor name is produced twice, and that have at least one active plugin.
- SliceToConv.ReplacementIsExact: leaves out an empty batch, and axes that a rank-4 tensor does not have.
- Graph attributes other than kernel shape, strides, axis and permutation; tensors of other ranks and element types. Slice inputs that are not one-element lists are treated as not found.
- GraphMeaning.RewritePreservesMeaning: assumes that the new weight names are new, that no node writes to an initializer, and that each replaced slice passes the exact test on the image it meets.
- The unseen helper library: its lookups are modelled as "the first node with an output of that name", removing and adding outputs as list edits. The script's shape arguments of new outputs are left out.
- PruneTail.Model.PruneTail: demands that the graph ends in the head (`HasTail`), each name with one producer; the branch of `remove_node` for a node that is not last has no caller.
- `replace_reshape_with_split_concat`, which has only a commented-out call.
- MlaClient.Client.RunModel: the accelerator runtime is a log with an arbitrary pattern of failures; a failed single run is only logged in the source, and so reports 0.
- SlotCache.Cache.FindBufferById: virtual addresses and failing attaches are left out; the undefined shift is modelled in two ways, as the bit that is meant and as a shift modulo 32 with sign extension.
- Caps negotiation, allocators, buffer pools, property setters, image input and drawing, quantization, the top-k utility: string building or calls into foreign libraries.
