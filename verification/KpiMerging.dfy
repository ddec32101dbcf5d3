/** The order in which the events of one measurement arrive, and what is interleaved with them, does not matter. */
module KpiMerging {
  import opened RequestKeys
  import opened Kpis
  import opened KpiSender
  import opened KpiRuns
  import opened Seqs
  import opened Wrappers

  /** What a collector that saw the events of one key only would hold: the open record and its reports. */
  datatype Slate = Slate(open: Option<Record>, reports: seq<KpiNode>)

  function Enter(s: Slate, t: Trace): Slate {
    if s.open.Some? && t.eventType.Custom? then s.(open := Some(s.open.value.Merged(t))) else
    var r := if s.open.Some? then s.open.value.Merged(t) else NewRecord(t);
    if r.Complete() then Slate(None, s.reports + [r.ToJson()]) else s.(open := Some(r))
  }

  function EnterAll(es: seq<Trace>): Slate {
    if es == [] then Slate(None, []) else Enter(EnterAll(es[..|es| - 1]), es[|es| - 1])
  }

  function PushAt(ops: seq<Op>): bool {
    if ops == [] then false
    else if ops[|ops| - 1].Toggle? then ops[|ops| - 1].push
    else PushAt(ops[..|ops| - 1])
  }

  /** The events of one key that arrived while publishing was switched on. */
  function Accepted(ops: seq<Op>, id: Key): seq<Trace> {
    if ops == [] then [] else
    var before, op := ops[..|ops| - 1], ops[|ops| - 1];
    Accepted(before, id) + if op.Event? && op.t.RequestId() == id && PushAt(before) then [op.t] else []
  }

  function ReportsOf(converted: seq<Conversion>, id: Key): seq<KpiNode> {
    if converted == [] then [] else
    var last := converted[|converted| - 1];
    ReportsOf(converted[..|converted| - 1], id) + if last.request == id then [last.node] else []
  }

  function OpenRecord(s: State, id: Key): Option<Record> {
    if id in s.records && !(s.inFlight.Some? && s.inFlight.value.request == id) then Some(s.records[id]) else None
  }

  function SlateOf(s: State, id: Key): Slate {
    Slate(OpenRecord(s, id), ReportsOf(s.converted, id))
  }

  lemma ReportsOneMore(converted: seq<Conversion>, c: Conversion, id: Key)
    ensures ReportsOf(converted + [c], id) == ReportsOf(converted, id) + if c.request == id then [c.node] else []
  {
    assert (converted + [c])[..|converted|] == converted;
  }

  lemma AbsorbOwnEvent(s: State, t: Trace)
    requires RecordsKeyed(s.records) && s.inFlight.None? && s.pushToMqtt && t.WellFormed() && !t.PcieEnd()
    ensures SlateOf(Absorb(s, t), t.RequestId()) == Enter(SlateOf(s, t.RequestId()), t)
  {
    var id := t.RequestId();
    var stored := Stored(s.records, t);
    if !MergeFails(s.records, t) {
      assert stored[id := Current(stored, t)] == stored;
      if stored[id].Complete() {
        ReportsOneMore(s.converted, Conversion(id, stored[id].ToJson()), id);
      }
    }
  }

  lemma AbsorbElsewhere(s: State, t: Trace, id: Key)
    requires s.inFlight.None? && t.WellFormed() && t.RequestId() != id
    ensures
      var s' := Absorb(s, t);
      && (id in s'.records <==> id in s.records)
      && (id in s.records ==> s'.records[id] == s.records[id])
      && s'.converted == s.converted + (if s'.inFlight.Some? then [s'.inFlight.value] else [])
      && (s'.inFlight.Some? ==> s'.inFlight.value.request == t.RequestId())
  {
    hide NewRecord, Current, Hash, Contains;
  }

  lemma AbsorbOtherEvent(s: State, t: Trace, id: Key)
    requires s.inFlight.None? && t.WellFormed() && (t.RequestId() != id || !s.pushToMqtt)
    ensures SlateOf(Absorb(s, t), id) == SlateOf(s, id)
  {
    if s.pushToMqtt {
      AbsorbElsewhere(s, t, id);
      hide Absorb;
      if Absorb(s, t).inFlight.Some? {
        ReportsOneMore(s.converted, Absorb(s, t).inFlight.value, id);
      }
    }
  }

  /** A step changes the slate of a key only if it is an accepted event of that key. */
  lemma StepOnSlate(pluginsCount: nat, clock: u64, s: State, op: Op, s': State, id: Key)
    requires Step(pluginsCount, clock, s, op, s') && RecordsKeyed(s.records)
    requires op.Event? && op.t.RequestId() == id && s.pushToMqtt ==> !op.t.PcieEnd()
    ensures SlateOf(s', id) == if op.Event? && op.t.RequestId() == id && s.pushToMqtt then Enter(SlateOf(s, id), op.t)
                               else SlateOf(s, id)
    ensures s'.pushToMqtt == if op.Toggle? then op.push else s.pushToMqtt
  {
    match op
    case Event(t) =>
      if t.RequestId() == id && s.pushToMqtt {
        AbsorbOwnEvent(s, t);
      } else {
        AbsorbOtherEvent(s, t, id);
      }
    case _ =>
  }

  /** In any run, the state of a key is that of a collector that saw this key's accepted events alone. */
  lemma {:induction false} OtherKeysDoNotMatter(pluginsCount: nat, ops: seq<Op>, s: State, id: Key)
    requires Reaches(pluginsCount, ops, s)
    requires forall i :: 0 <= i < |Accepted(ops, id)| ==> !Accepted(ops, id)[i].PcieEnd()
    ensures s.pushToMqtt == PushAt(ops)
    ensures SlateOf(s, id) == EnterAll(Accepted(ops, id))
  {
    if ops != [] {
      var before, op := ops[..|ops| - 1], ops[|ops| - 1];
      var prev :| Reaches(pluginsCount, before, prev) && Step(pluginsCount, Clock(before), prev, op, s);
      var earlier := Accepted(before, id);
      assert earlier <= Accepted(ops, id);
      OtherKeysDoNotMatter(pluginsCount, before, prev, id);
      RequestIdsKeyed(pluginsCount, before, prev);
      if op.Event? && op.t.RequestId() == id && prev.pushToMqtt {
        assert Accepted(ops, id)[|earlier|] == op.t && Accepted(ops, id)[..|earlier|] == earlier;
      } else {
        assert Accepted(ops, id) == earlier;
      }
      StepOnSlate(pluginsCount, Clock(before), prev, op, s, id);
    }
  }

  lemma RequestIdsKeyed(pluginsCount: nat, ops: seq<Op>, s: State)
    requires Reaches(pluginsCount, ops, s)
    ensures RecordsKeyed(s.records)
  {
    Invariant(pluginsCount, ops, s);
  }

  // What a sequence of events of one key adds up to, independently of the folding.

  function Latest(es: seq<Trace>, slot: Slot): u64 {
    if es == [] then 0
    else if es[|es| - 1].SlotFilled() == Some(slot) then es[|es| - 1].timestamp
    else Latest(es[..|es| - 1], slot)
  }

  function FirstStream(es: seq<Trace>): string {
    if es == [] then ""
    else if es[0].streamId != "" then es[0].streamId
    else FirstStream(es[1..])
  }

  function FirstQid(es: seq<Trace>): bv32 {
    if es == [] then QUERY_ID_INVALID
    else if es[0].qid != QUERY_ID_INVALID then es[0].qid
    else FirstQid(es[1..])
  }

  function Summary(es: seq<Trace>): Record
    requires es != []
  {
    Record(es[0].frame, es[0].pluginId, es[0].elementHash, es[0].pluginType, FirstStream(es), FirstQid(es),
           Latest(es, KernelStart), Latest(es, KernelEnd), Latest(es, PluginStart), Latest(es, PluginEnd))
  }

  lemma {:induction false} FirstsOneMore(es: seq<Trace>, t: Trace)
    ensures FirstStream(es + [t]) == if FirstStream(es) == "" then t.streamId else FirstStream(es)
    ensures FirstQid(es + [t]) == if FirstQid(es) == QUERY_ID_INVALID then t.qid else FirstQid(es)
  {
    if es != [] {
      assert (es + [t])[1..] == es[1..] + [t];
      FirstsOneMore(es[1..], t);
    } else {
      assert (es + [t])[1..] == [];
    }
  }

  lemma LatestOneMore(es: seq<Trace>, t: Trace, slot: Slot)
    ensures Latest(es + [t], slot) == if t.SlotFilled() == Some(slot) then t.timestamp else Latest(es, slot)
  {
    assert (es + [t])[..|es|] == es;
  }

  lemma StampAfterTrace(r: Record, t: Trace, slot: Slot)
    ensures r.WithTrace(t).Stamp(slot) == if t.SlotFilled() == Some(slot) then t.timestamp else r.Stamp(slot)
  {
  }

  predicate SameButStamps(r: Record, q: Record) {
    r == q.(kernelStart := r.kernelStart, kernelEnd := r.kernelEnd, pluginStart := r.pluginStart,
            pluginEnd := r.pluginEnd)
  }

  lemma EqualByStamps(r: Record, q: Record)
    requires SameButStamps(r, q) && forall slot: Slot :: r.Stamp(slot) == q.Stamp(slot)
    ensures r == q
  {
    assert r.Stamp(KernelStart) == q.Stamp(KernelStart) && r.Stamp(KernelEnd) == q.Stamp(KernelEnd);
    assert r.Stamp(PluginStart) == q.Stamp(PluginStart) && r.Stamp(PluginEnd) == q.Stamp(PluginEnd);
  }

  lemma SummaryOneMore(es: seq<Trace>, t: Trace)
    ensures Summary(es + [t]) == if es == [] then NewRecord(t) else Summary(es).Merged(t)
  {
    var r := if es == [] then NewRecord(t) else Summary(es).Merged(t);
    forall slot: Slot
      ensures Summary(es + [t]).Stamp(slot) == r.Stamp(slot)
    {
      StampOneMore(es, t, slot);
    }
    LabelsOneMore(es, t);
    hide Summary, NewRecord;
    EqualByStamps(Summary(es + [t]), r);
  }

  lemma LabelsOneMore(es: seq<Trace>, t: Trace)
    ensures SameButStamps(Summary(es + [t]), if es == [] then NewRecord(t) else Summary(es).Merged(t))
  {
    FirstsOneMore(es, t);
    assert (es + [t])[0] == if es == [] then t else es[0];
    hide Contains, Latest, FirstStream, FirstQid;
  }

  lemma StampOneMore(es: seq<Trace>, t: Trace, slot: Slot)
    ensures Summary(es + [t]).Stamp(slot) == (if es == [] then NewRecord(t) else Summary(es).Merged(t)).Stamp(slot)
  {
    LatestOneMore(es, t, slot);
    StampOfSummary(es + [t], slot);
    if es == [] {
      StampAfterTrace(EmptyRecord(t), t, slot);
    } else {
      StampOfSummary(es, slot);
      StampAfterTrace(Summary(es).Labelled(t), t, slot);
    }
  }

  /** Until a record is complete it is the summary of its events; at that moment the summary is reported. */
  lemma {:induction false} ReportedWhenComplete(es: seq<Trace>)
    requires es != []
    requires forall i :: 0 < i < |es| ==> !Summary(es[..i]).Complete()
    ensures EnterAll(es) == if Summary(es).Complete() then Slate(None, [Summary(es).ToJson()])
                            else Slate(Some(Summary(es)), [])
  {
    var before, t := es[..|es| - 1], es[|es| - 1];
    assert es == before + [t];
    SummaryOneMore(before, t);
    if before != [] {
      assert forall i :: 0 < i < |before| ==> before[..i] == es[..i];
      ReportedWhenComplete(before);
      assert !Summary(es[..|before|]).Complete();
    }
  }

  /** The four events of a remote-core measurement: kernel and plugin, start and end, in some order. */
  ghost predicate FourEvents(es: seq<Trace>, id: Key) {
    && |es| == 4
    && (forall i :: 0 <= i < 4 ==>
          && es[i].RequestId() == id && es[i].SlotFilled().Some? && es[i].timestamp != 0
          && es[i].pluginType in ["CVU", "EV74", "MLA", "M4"])
    && (forall i, j :: 0 <= i < j < 4 ==> es[i].SlotFilled() != es[j].SlotFilled())
  }

  /** The time of the event that fills a slot, when there is only one. */
  lemma {:induction false} LatestOfUnique(es: seq<Trace>, i: nat)
    requires i < |es| && es[i].SlotFilled().Some?
    requires forall j :: 0 <= j < |es| && j != i ==> es[j].SlotFilled() != es[i].SlotFilled()
    ensures Latest(es, es[i].SlotFilled().value) == es[i].timestamp
  {
    if i < |es| - 1 {
      LatestOfUnique(es[..|es| - 1], i);
    }
  }

  lemma {:induction false} LatestOfUnfilled(es: seq<Trace>, slot: Slot)
    requires forall j :: 0 <= j < |es| ==> es[j].SlotFilled() != Some(slot)
    ensures Latest(es, slot) == 0
  {
    if es != [] {
      LatestOfUnfilled(es[..|es| - 1], slot);
    }
  }

  lemma StampOfSummary(es: seq<Trace>, slot: Slot)
    requires es != []
    ensures Summary(es).Stamp(slot) == Latest(es, slot)
  {
  }

  lemma EventOf(es: seq<Trace>, id: Key, slot: Slot) returns (i: nat)
    requires FourEvents(es, id)
    ensures i < 4 && es[i].SlotFilled() == Some(slot)
  {
    var a, b, c := es[0].SlotFilled(), es[1].SlotFilled(), es[2].SlotFilled();
    i := if a == Some(slot) then 0 else if b == Some(slot) then 1 else if c == Some(slot) then 2 else 3;
  }

  lemma FourthEventCompletes(es: seq<Trace>, id: Key)
    requires FourEvents(es, id)
    ensures Summary(es).Complete()
    ensures forall i :: 0 < i < 4 ==> !Summary(es[..i]).Complete()
    ensures forall i :: 0 <= i < 4 ==> Summary(es).Stamp(es[i].SlotFilled().value) == es[i].timestamp
  {
    forall i | 0 <= i < 4
      ensures Summary(es).Stamp(es[i].SlotFilled().value) == es[i].timestamp
    {
      LatestOfUnique(es, i);
      StampOfSummary(es, es[i].SlotFilled().value);
    }
    forall slot: Slot
      ensures Summary(es).Stamp(slot) != 0
    {
      var i := EventOf(es, id, slot);
    }
    assert Summary(es).Stamp(KernelStart) != 0 && Summary(es).Stamp(KernelEnd) != 0;
    assert Summary(es).Stamp(PluginStart) != 0 && Summary(es).Stamp(PluginEnd) != 0;
    forall i | 0 < i < 4
      ensures !Summary(es[..i]).Complete()
    {
      LatestOfUnfilled(es[..i], es[3].SlotFilled().value);
      StampOfSummary(es[..i], es[3].SlotFilled().value);
      IncompleteWithoutStamp(Summary(es[..i]), es[3].SlotFilled().value);
    }
  }

  lemma IncompleteWithoutStamp(r: Record, slot: Slot)
    requires r.Stamp(slot) == 0 && r.RemoteCore()
    ensures !r.Complete()
  {
  }

  /** The time that a report gives for an event: of the kernel for a remote-core event, else of the plugin. */
  function TimeIn(report: KpiNode, t: Trace): u64 {
    if Contains(t.eventName, "remote_core") then
      if t.eventType == Start then report.kernelStart else report.kernelEnd
    else if t.eventType == Start then report.pluginStart
    else report.pluginEnd
  }

  lemma TimeOfStamp(r: Record, t: Trace)
    requires t.SlotFilled().Some?
    ensures TimeIn(r.ToJson(), t) == r.Stamp(t.SlotFilled().value)
  {
    hide Contains;
  }

  lemma ReportOfFour(es: seq<Trace>, id: Key)
    requires FourEvents(es, id)
    ensures
      var report := Summary(es).ToJson();
      && (forall i :: 0 <= i < 4 ==> TimeIn(report, es[i]) == es[i].timestamp)
      && (report.kernelStart <= report.kernelEnd ==>
            report.executionMicros == report.kernelEnd - report.kernelStart)
      && report.frame == id.low && report.pluginType == es[0].pluginType
      && report.pluginId == (if es[0].pluginId.Some? then es[0].pluginId.value else "")
      && report.streamId == FirstStream(es)
      && report.qid == (if FirstQid(es) == 0xFFFF_FFFF then None else Some(FirstQid(es)))
  {
    FourthEventCompletes(es, id);
    forall i | 0 <= i < 4
      ensures TimeIn(Summary(es).ToJson(), es[i]) == es[i].timestamp
    {
      TimeOfStamp(Summary(es), es[i]);
    }
    assert es[0].RequestId() == id;
    CompleteExecution(Summary(es), id);
    hide TimeIn, FourEvents;
  }

  lemma CompleteExecution(r: Record, id: Key)
    requires r.Complete() && r.RequestId() == id
    ensures
      var report := r.ToJson();
      && (r.kernelStart != 0 && r.kernelEnd != 0 && report.kernelStart <= report.kernelEnd ==>
            report.executionMicros == report.kernelEnd - report.kernelStart)
      && ((r.kernelStart == 0 || r.kernelEnd == 0) && report.pluginStart <= report.pluginEnd ==>
            report.executionMicros == report.pluginEnd - report.pluginStart)
      && report.frame == id.low && report.streamId == r.streamId && report.pluginType == r.pluginType
      && report.qid == (if r.qid == 0xFFFF_FFFF then None else Some(r.qid))
  {
  }

  /**
   * One measurement from four events. Whatever is interleaved, nothing is reported for the key before its
   * fourth event, and then one measurement with the four timestamps.
   */
  lemma FourEventsGiveOneReport(pluginsCount: nat, ops: seq<Op>, s: State, id: Key, es: seq<Trace>, arrived: nat)
    requires Reaches(pluginsCount, ops, s)
    requires FourEvents(es, id) && forall i :: 0 <= i < 4 ==> !es[i].PcieEnd()
    requires arrived <= 4 && Accepted(ops, id) == es[..arrived]
    ensures arrived < 4 ==> ReportsOf(s.converted, id) == []
    ensures arrived == 4 ==>
      && OpenRecord(s, id) == None
      && |ReportsOf(s.converted, id)| == 1
      && var report := ReportsOf(s.converted, id)[0];
      && report == Summary(es).ToJson()
      && (forall i :: 0 <= i < 4 ==> TimeIn(report, es[i]) == es[i].timestamp)
      && (report.kernelStart <= report.kernelEnd ==>
            report.executionMicros == report.kernelEnd - report.kernelStart)
      && report.frame == id.low && report.pluginType == es[0].pluginType
      && report.pluginId == (if es[0].pluginId.Some? then es[0].pluginId.value else "")
      && report.streamId == FirstStream(es)
      && report.qid == (if FirstQid(es) == 0xFFFF_FFFF then None else Some(FirstQid(es)))
  {
    OtherKeysDoNotMatter(pluginsCount, ops, s, id);
    FourEventsEntered(es, id, arrived);
    ReportOfFour(es, id);
    hide FourEvents, Summary, Reaches, TimeIn, Contains, FirstStream, FirstQid, EnterAll, Accepted;
  }

  // Plugins without a kernel of their own

  /** The two events of such a measurement, in some order. */
  ghost predicate TwoEvents(es: seq<Trace>, id: Key) {
    && |es| == 2 && es[0].eventType != es[1].eventType
    && forall i :: 0 <= i < 2 ==>
         && es[i].RequestId() == id && !Contains(es[i].eventName, "remote_core") && es[i].eventType in [Start, End]
         && es[i].timestamp != 0 && es[i].pluginType !in ["CVU", "EV74", "MLA", "M4"]
  }

  lemma SecondEventCompletes(es: seq<Trace>, id: Key)
    requires TwoEvents(es, id)
    ensures Summary(es).Complete() && !Summary(es[..1]).Complete()
    ensures Summary(es).kernelStart == 0 == Summary(es).kernelEnd
    ensures forall i :: 0 <= i < 2 ==> TimeIn(Summary(es).ToJson(), es[i]) == es[i].timestamp
  {
    assert es == [es[0], es[1]];
    LatestOfUnique(es, 0);
    LatestOfUnique(es, 1);
    LatestOfUnfilled(es, KernelStart);
    LatestOfUnfilled(es, KernelEnd);
    LatestOfUnfilled(es[..1], es[1].SlotFilled().value);
    hide Contains, Latest, FirstStream, FirstQid;
  }

  /** Whatever is interleaved, nothing is reported before the second event, and then one measurement. */
  lemma TwoEventsGiveOneReport(pluginsCount: nat, ops: seq<Op>, s: State, id: Key, es: seq<Trace>, arrived: nat)
    requires Reaches(pluginsCount, ops, s)
    requires TwoEvents(es, id) && forall i :: 0 <= i < 2 ==> !es[i].PcieEnd()
    requires arrived <= 2 && Accepted(ops, id) == es[..arrived]
    ensures arrived < 2 ==> ReportsOf(s.converted, id) == []
    ensures arrived == 2 ==>
      && OpenRecord(s, id) == None
      && |ReportsOf(s.converted, id)| == 1
      && var report := ReportsOf(s.converted, id)[0];
      && (forall i :: 0 <= i < 2 ==> TimeIn(report, es[i]) == es[i].timestamp)
      && report.kernelStart == 0 == report.kernelEnd
      && (report.pluginStart <= report.pluginEnd ==>
            report.executionMicros == report.pluginEnd - report.pluginStart)
      && report.frame == id.low && report.streamId == FirstStream(es)
  {
    OtherKeysDoNotMatter(pluginsCount, ops, s, id);
    TwoEventsEntered(es, id, arrived);
    SecondEventCompletes(es, id);
    assert es[0].RequestId() == id;
    CompleteExecution(Summary(es), id);
    hide TwoEvents, Reaches, TimeIn, Contains, EnterAll, Accepted;
  }

  lemma TwoEventsEntered(es: seq<Trace>, id: Key, arrived: nat)
    requires TwoEvents(es, id) && arrived <= 2
    ensures arrived < 2 ==> EnterAll(es[..arrived]).reports == []
    ensures arrived == 2 ==> EnterAll(es[..arrived]) == Slate(None, [Summary(es).ToJson()])
  {
    SecondEventCompletes(es, id);
    if arrived > 0 {
      ReportedUpTo(es, arrived);
      assert es[..2] == es;
    }
  }

  // Single events

  /** The first event of a key opens a record with its labels and its one time. */
  lemma FirstEventOpens(s: State, t: Trace)
    requires s.pushToMqtt && t.WellFormed() && !t.PcieEnd() && t.RequestId() !in s.records
    ensures
      var remote := Contains(t.eventName, "remote_core");
      Absorb(s, t) == s.(records := s.records[Key(t.elementHash, t.frame) :=
        Record(t.frame, t.pluginId, t.elementHash, t.pluginType, t.streamId, t.qid,
               if remote && t.eventType == Start then t.timestamp else 0,
               if remote && t.eventType == End then t.timestamp else 0,
               if !remote && t.eventType == Start then t.timestamp else 0,
               if !remote && t.eventType == End then t.timestamp else 0)])
  {
    hide Contains, Hash;
    var stored := Stored(s.records, t);
    assert stored[t.RequestId() := Current(stored, t)] == stored;
  }

  /** An event that neither starts nor ends anything only adds labels that were missing, and reports nothing. */
  lemma CustomEventOnlyLabels(s: State, t: Trace)
    requires s.pushToMqtt && t.eventType.Custom? && RecordsKeyed(s.records) && t.RequestId() in s.records
    ensures
      var r := s.records[t.RequestId()];
      Absorb(s, t) == s.(records := s.records[t.RequestId() :=
        r.(streamId := if r.streamId == "" then t.streamId else r.streamId,
           qid := if r.qid == 0xFFFF_FFFF then t.qid else r.qid)])
  {
    hide Contains, Hash;
  }

  // The PCIe source, whose start event is sent before its buffer is known

  /** What such a source sends at its start: its own name, no stream, and frame -1. */
  ghost predicate PcieSourceStart(t: Trace, name: string) {
    && t.RequestId() == Key(Hash(name + "(null)"), 0xFFFF_FFFF) && t.eventType == Start
    && !Contains(t.eventName, "remote_core")
  }

  ghost predicate PcieSourceEnd(t: Trace, name: string) {
    && t.pluginId == Some(name) && t.eventType == End && t.pluginType !in ["CVU", "EV74", "MLA", "M4"]
    && Contains(t.eventName, "PCIe") && !Contains(t.eventName, "remote_core")
  }

  /** The start event leaves its time under the key of the nameless buffer. */
  lemma PcieStartIsKept(s: State, t: Trace, name: string)
    requires PcieSourceStart(t, name) && s.pushToMqtt && RecordsKeyed(s.records)
    requires t.RequestId() !in s.records && t.pluginType !in ["CVU", "EV74", "MLA", "M4"]
    ensures t.WellFormed()
    ensures
      var s' := Absorb(s, t);
      && t.RequestId() in s'.records && s'.records[t.RequestId()].pluginStart == t.timestamp
      && s'.converted == s.converted
  {
    hide Contains, Hash;
  }

  /**
   * The end event is reported at once, with its own time and labels and the start time kept under that key; without
   * that start event nothing is reported.
   */
  lemma PcieEndIsReported(s: State, t: Trace, name: string)
    requires PcieSourceEnd(t, name) && s.pushToMqtt && RecordsKeyed(s.records)
    requires t.RequestId() !in s.records && t.RequestId() != Key(Hash(name + "(null)"), 0xFFFF_FFFF)
    requires t.timestamp != 0
    ensures
      var s', startKey := Absorb(s, t), Key(Hash(name + "(null)"), 0xFFFF_FFFF);
      if startKey !in s.records || s.records[startKey].pluginStart == 0 then
        s'.converted == s.converted && t.RequestId() in s'.records
      else
        && |s'.converted| == |s.converted| + 1 && s'.converted[..|s.converted|] == s.converted
        && var report := s'.converted[|s.converted|].node;
        && report.pluginStart == s.records[startKey].pluginStart && report.pluginEnd == t.timestamp
        && report.frame == t.frame && report.streamId == t.streamId && report.pluginId == name
  {
    hide Contains, Hash;
  }

  lemma FourEventsEntered(es: seq<Trace>, id: Key, arrived: nat)
    requires FourEvents(es, id) && arrived <= 4
    ensures arrived < 4 ==> EnterAll(es[..arrived]).reports == []
    ensures arrived == 4 ==> EnterAll(es[..arrived]) == Slate(None, [Summary(es).ToJson()])
  {
    FourthEventCompletes(es, id);
    if arrived > 0 {
      ReportedUpTo(es, arrived);
      assert es[..4] == es;
    }
  }

  lemma ReportedUpTo(es: seq<Trace>, n: nat)
    requires 0 < n <= |es| && forall i :: 0 < i < n ==> !Summary(es[..i]).Complete()
    ensures EnterAll(es[..n]) == if Summary(es[..n]).Complete() then Slate(None, [Summary(es[..n]).ToJson()])
                                 else Slate(Some(Summary(es[..n])), [])
  {
    hide Summary;
    assert forall i :: 0 < i < n ==> es[..n][..i] == es[..i];
    ReportedWhenComplete(es[..n]);
  }

  /** The common stream id is found wherever the events that carry it stand. */
  lemma {:induction false} CommonStream(es: seq<Trace>, stream: string)
    requires forall i :: 0 <= i < |es| ==> es[i].streamId == "" || es[i].streamId == stream
    requires exists i :: 0 <= i < |es| && es[i].streamId == stream
    ensures FirstStream(es) == stream
  {
    if es[0].streamId == "" && stream != "" {
      var i :| 0 <= i < |es| && es[i].streamId == stream;
      assert es[1..][i - 1].streamId == stream;
      CommonStream(es[1..], stream);
    } else if stream == "" && |es| > 1 {
      assert es[1..][0].streamId == "";
      CommonStream(es[1..], stream);
    }
  }

  /**
   * Order independence. Two arrival orders of the same four events report the same times. They report the
   * same measurement if and only if the first event is of the same plugin and type in both, and the first
   * stream id and query id that are set agree: merging never fills in a plugin id or a type.
   */
  lemma OrderIndependence(es: seq<Trace>, fs: seq<Trace>, id: Key)
    requires FourEvents(es, id) && FourEvents(fs, id) && multiset(es) == multiset(fs)
    ensures EnterAll(es) == Slate(None, [Summary(es).ToJson()]) && EnterAll(fs) == Slate(None, [Summary(fs).ToJson()])
    ensures forall slot: Slot :: Summary(es).Stamp(slot) == Summary(fs).Stamp(slot)
    ensures EnterAll(es) == EnterAll(fs) <==>
      && Summary(es).PluginText() == Summary(fs).PluginText()
      && es[0].pluginType == fs[0].pluginType
      && FirstStream(es) == FirstStream(fs)
      && FirstQid(es) == FirstQid(fs)
  {
    FourthEventCompletes(es, id);
    FourthEventCompletes(fs, id);
    ReportedWhenComplete(es);
    ReportedWhenComplete(fs);
    forall slot: Slot
      ensures Summary(es).Stamp(slot) == Summary(fs).Stamp(slot)
    {
      var i := EventOf(es, id, slot);
      assert es[i] in multiset(fs);
      var j :| 0 <= j < 4 && fs[j] == es[i];
    }
    assert es[0].RequestId() == id == fs[0].RequestId();
    SameReport(Summary(es), Summary(fs));
  }

  lemma SameReport(r: Record, q: Record)
    requires r.RequestId() == q.RequestId() && forall slot: Slot :: r.Stamp(slot) == q.Stamp(slot)
    ensures r.ToJson() == q.ToJson() <==>
      r.PluginText() == q.PluginText() && r.pluginType == q.pluginType && r.streamId == q.streamId && r.qid == q.qid
  {
    assert r.Stamp(KernelStart) == q.Stamp(KernelStart) && r.Stamp(KernelEnd) == q.Stamp(KernelEnd);
    assert r.Stamp(PluginStart) == q.Stamp(PluginStart) && r.Stamp(PluginEnd) == q.Stamp(PluginEnd);
  }

  /** Swapping the first two of four events changes the report if they name different plugins. */
  lemma SwappedFirstEvents(es: seq<Trace>, id: Key)
    requires FourEvents(es, id) && es[0].pluginId == None && es[1].pluginId.Some? && es[1].pluginId.value != ""
    ensures FourEvents([es[1], es[0], es[2], es[3]], id)
    ensures multiset([es[1], es[0], es[2], es[3]]) == multiset(es)
    ensures EnterAll([es[1], es[0], es[2], es[3]]).reports != EnterAll(es).reports
  {
    var fs := [es[1], es[0], es[2], es[3]];
    SwappedAreFourEvents(es, id);
    OrderIndependence(es, fs, id);
    PluginTextOfSummary(es);
    PluginTextOfSummary(fs);
    hide Summary;
  }

  lemma SwappedAreFourEvents(es: seq<Trace>, id: Key)
    requires FourEvents(es, id)
    ensures FourEvents([es[1], es[0], es[2], es[3]], id)
    ensures multiset([es[1], es[0], es[2], es[3]]) == multiset(es)
  {
    assert es == [es[0], es[1], es[2], es[3]];
    hide Contains;
  }

  lemma PluginTextOfSummary(es: seq<Trace>)
    requires es != []
    ensures Summary(es).PluginText() == if es[0].pluginId.Some? then es[0].pluginId.value else ""
  {
  }

  // All orders of the same events

  predicate UniformPlugin(es: seq<Trace>) {
    forall i, j :: 0 <= i < |es| && 0 <= j < |es| ==> TextOf(es[i].pluginId) == TextOf(es[j].pluginId)
  }

  function TextOf(text: Option<string>): string { if text.Some? then text.value else "" }

  /** One type; one stream id and one query id among the events that carry any. */
  predicate UniformLabels(es: seq<Trace>) {
    && (forall i, j :: 0 <= i < |es| && 0 <= j < |es| ==> es[i].pluginType == es[j].pluginType)
    && (forall i, j :: 0 <= i < |es| && 0 <= j < |es| ==>
          es[i].streamId == "" || es[j].streamId == "" || es[i].streamId == es[j].streamId)
    && (forall i, j :: 0 <= i < |es| && 0 <= j < |es| ==>
          es[i].qid == QUERY_ID_INVALID || es[j].qid == QUERY_ID_INVALID || es[i].qid == es[j].qid)
  }

  lemma FourEventsReordered(es: seq<Trace>, fs: seq<Trace>, id: Key)
    requires FourEvents(es, id) && multiset(fs) == multiset(es)
    ensures FourEvents(fs, id)
  {
    assert |fs| == |multiset(fs)| == |multiset(es)| == 4;
    forall i | 0 <= i < 4
      ensures fs[i].RequestId() == id && fs[i].SlotFilled().Some? && fs[i].timestamp != 0
      ensures fs[i].pluginType in ["CVU", "EV74", "MLA", "M4"]
    {
      assert fs[i] in multiset(fs);
      var a := PlaceOf(es, fs[i]);
    }
    forall i, j | 0 <= i < j < 4
      ensures fs[i].SlotFilled() != fs[j].SlotFilled()
    {
      var a, b := TwoPlaces(es, fs, i, j);
    }
  }

  lemma {:induction false} FirstStreamFound(es: seq<Trace>)
    ensures FirstStream(es) != "" ==> exists i :: 0 <= i < |es| && es[i].streamId == FirstStream(es)
    ensures FirstStream(es) == "" ==> forall i :: 0 <= i < |es| ==> es[i].streamId == ""
  {
    if es != [] && es[0].streamId == "" {
      FirstStreamFound(es[1..]);
      if i :| 0 <= i < |es[1..]| && es[1..][i].streamId == FirstStream(es) {
        assert es[i + 1].streamId == FirstStream(es);
      }
      assert forall i :: 0 < i < |es| ==> es[i] == es[1..][i - 1];
    }
  }

  lemma {:induction false} FirstQidFound(es: seq<Trace>)
    ensures FirstQid(es) != QUERY_ID_INVALID ==> exists i :: 0 <= i < |es| && es[i].qid == FirstQid(es)
    ensures FirstQid(es) == QUERY_ID_INVALID ==> forall i :: 0 <= i < |es| ==> es[i].qid == QUERY_ID_INVALID
  {
    if es != [] && es[0].qid == QUERY_ID_INVALID {
      FirstQidFound(es[1..]);
      if i :| 0 <= i < |es[1..]| && es[1..][i].qid == FirstQid(es) {
        assert es[i + 1].qid == FirstQid(es);
      }
      assert forall i :: 0 < i < |es| ==> es[i] == es[1..][i - 1];
    }
  }

  lemma SameFirstStream(es: seq<Trace>, fs: seq<Trace>)
    requires multiset(es) == multiset(fs) && UniformLabels(es)
    ensures FirstStream(es) == FirstStream(fs)
  {
    FirstStreamFound(es);
    FirstStreamFound(fs);
    if FirstStream(es) != "" {
      var i :| 0 <= i < |es| && es[i].streamId == FirstStream(es);
      assert es[i] in multiset(es);
      var j := PlaceOf(fs, es[i]);
    }
    if FirstStream(fs) != "" {
      var i :| 0 <= i < |fs| && fs[i].streamId == FirstStream(fs);
      assert fs[i] in multiset(fs);
      var j := PlaceOf(es, fs[i]);
    }
  }

  lemma SameFirstQid(es: seq<Trace>, fs: seq<Trace>)
    requires multiset(es) == multiset(fs) && UniformLabels(es)
    ensures FirstQid(es) == FirstQid(fs)
  {
    FirstQidFound(es);
    FirstQidFound(fs);
    if FirstQid(es) != QUERY_ID_INVALID {
      var i :| 0 <= i < |es| && es[i].qid == FirstQid(es);
      assert es[i] in multiset(es);
      var j := PlaceOf(fs, es[i]);
    }
    if FirstQid(fs) != QUERY_ID_INVALID {
      var i :| 0 <= i < |fs| && fs[i].qid == FirstQid(fs);
      assert fs[i] in multiset(fs);
      var j := PlaceOf(es, fs[i]);
    }
  }

  /** The two orders lead to the same labels, leaving the plugin id aside. */
  ghost predicate SameLabels(es: seq<Trace>, fs: seq<Trace>)
    requires es != [] && fs != []
  {
    es[0].pluginType == fs[0].pluginType && FirstStream(es) == FirstStream(fs) && FirstQid(es) == FirstQid(fs)
  }

  lemma UniformGivesSameLabels(es: seq<Trace>, fs: seq<Trace>)
    requires multiset(es) == multiset(fs) && UniformLabels(es) && es != [] && fs != []
    ensures SameLabels(es, fs)
  {
    SameFirstStream(es, fs);
    SameFirstQid(es, fs);
    assert fs[0] in multiset(fs);
    var i := PlaceOf(es, fs[0]);
  }

  /** The same events, event `i` first. */
  function Fronted(es: seq<Trace>, i: nat): seq<Trace>
    requires i < |es|
  {
    [es[i]] + Omitting(es, i)
  }

  lemma FrontedIsReordered(es: seq<Trace>, i: nat)
    requires i < |es|
    ensures multiset(Fronted(es, i)) == multiset(es)
  {
    MultisetOmitting(es, i);
  }

  lemma SameLabelsGiveUniform(es: seq<Trace>)
    requires es != [] && forall i :: 0 <= i < |es| ==> SameLabels(es, Fronted(es, i))
    ensures UniformLabels(es)
  {
    forall i | 0 <= i < |es|
      ensures es[i].pluginType == es[0].pluginType
      ensures es[i].streamId != "" ==> es[i].streamId == FirstStream(es)
      ensures es[i].qid != QUERY_ID_INVALID ==> es[i].qid == FirstQid(es)
    {
      assert SameLabels(es, Fronted(es, i));
    }
  }

  /** What is reported for the events in this order, without its plugin id. */
  function Anonymous(es: seq<Trace>): seq<KpiNode> {
    var reports := EnterAll(es).reports;
    seq(|reports|, i requires 0 <= i < |reports| => reports[i].(pluginId := ""))
  }

  lemma OrdersCompared(es: seq<Trace>, fs: seq<Trace>, id: Key)
    requires FourEvents(es, id) && multiset(fs) == multiset(es)
    ensures fs != []
    ensures Anonymous(es) == Anonymous(fs) <==> SameLabels(es, fs)
    ensures EnterAll(es) == EnterAll(fs) <==> SameLabels(es, fs) && TextOf(es[0].pluginId) == TextOf(fs[0].pluginId)
  {
    FourEventsReordered(es, fs, id);
    OrderIndependence(es, fs, id);
    assert es[0].RequestId() == id == fs[0].RequestId();
    AnonymousSummaries(es, fs, id);
  }

  lemma AnonymousSummaries(es: seq<Trace>, fs: seq<Trace>, id: Key)
    requires FourEvents(es, id) && FourEvents(fs, id)
    requires EnterAll(es) == Slate(None, [Summary(es).ToJson()]) && EnterAll(fs) == Slate(None, [Summary(fs).ToJson()])
    requires forall slot: Slot :: Summary(es).Stamp(slot) == Summary(fs).Stamp(slot)
    requires Summary(es).RequestId() == Summary(fs).RequestId()
    ensures Anonymous(es) == Anonymous(fs) <==> SameLabels(es, fs)
  {
    hide FourEvents;
    assert Anonymous(es) == [Summary(es).ToJson().(pluginId := "")];
    assert Anonymous(fs) == [Summary(fs).ToJson().(pluginId := "")];
    hide EnterAll, Latest, FirstStream, FirstQid, Anonymous;
    SameAnonymousReport(Summary(es), Summary(fs));
  }

  lemma SameAnonymousReport(r: Record, q: Record)
    requires r.RequestId() == q.RequestId() && forall slot: Slot :: r.Stamp(slot) == q.Stamp(slot)
    ensures r.ToJson().(pluginId := "") == q.ToJson().(pluginId := "") <==>
      r.pluginType == q.pluginType && r.streamId == q.streamId && r.qid == q.qid
  {
    assert r.Stamp(KernelStart) == q.Stamp(KernelStart) && r.Stamp(KernelEnd) == q.Stamp(KernelEnd);
    assert r.Stamp(PluginStart) == q.Stamp(PluginStart) && r.Stamp(PluginEnd) == q.Stamp(PluginEnd);
  }

  /**
   * Whether the order matters, as a test on the events alone. All orders of four events report the same
   * measurement, apart from its plugin id, exactly when the events agree on the type and on the stream id and
   * query id as far as they carry any; and the same plugin id too exactly when they agree on that.
   */
  lemma EveryOrderReportsAlike(es: seq<Trace>, id: Key)
    requires FourEvents(es, id)
    ensures (forall fs :: multiset(fs) == multiset(es) ==> Anonymous(fs) == Anonymous(es)) <==> UniformLabels(es)
    ensures (forall fs :: multiset(fs) == multiset(es) ==> EnterAll(fs) == EnterAll(es))
      <==> UniformLabels(es) && UniformPlugin(es)
  {
    hide FourEvents, Anonymous, EnterAll;
    if UniformLabels(es) {
      forall fs: seq<Trace> | multiset(fs) == multiset(es)
        ensures Anonymous(fs) == Anonymous(es)
        ensures UniformPlugin(es) ==> EnterAll(fs) == EnterAll(es)
      {
        AlikeWhenUniform(es, fs, id);
      }
    }
    if !UniformLabels(es) || !UniformPlugin(es) {
      var fs := SomeOrderDiffers(es, id);
    }
  }

  lemma AlikeWhenUniform(es: seq<Trace>, fs: seq<Trace>, id: Key)
    requires FourEvents(es, id) && multiset(fs) == multiset(es) && UniformLabels(es)
    ensures Anonymous(fs) == Anonymous(es)
    ensures UniformPlugin(es) ==> EnterAll(fs) == EnterAll(es)
  {
    OrdersCompared(es, fs, id);
    UniformGivesSameLabels(es, fs);
    assert fs[0] in multiset(fs);
    var i := PlaceOf(es, fs[0]);
  }

  lemma SomeOrderDiffers(es: seq<Trace>, id: Key) returns (fs: seq<Trace>)
    requires FourEvents(es, id) && (!UniformLabels(es) || !UniformPlugin(es))
    ensures multiset(fs) == multiset(es) && EnterAll(fs) != EnterAll(es)
    ensures !UniformLabels(es) ==> Anonymous(fs) != Anonymous(es)
  {
    var i: nat;
    if !UniformLabels(es) {
      i := DifferentLabels(es);
    } else {
      i := DifferentPlugin(es);
    }
    fs := Fronted(es, i);
    FrontedIsReordered(es, i);
    OrdersCompared(es, fs, id);
    hide FourEvents, UniformLabels, UniformPlugin;
  }

  lemma DifferentLabels(es: seq<Trace>) returns (i: nat)
    requires es != [] && !UniformLabels(es)
    ensures i < |es| && !SameLabels(es, Fronted(es, i))
  {
    if forall i :: 0 <= i < |es| ==> SameLabels(es, Fronted(es, i)) {
      SameLabelsGiveUniform(es);
    }
    i :| 0 <= i < |es| && !SameLabels(es, Fronted(es, i));
  }

  lemma DifferentPlugin(es: seq<Trace>) returns (i: nat)
    requires es != [] && !UniformPlugin(es)
    ensures i < |es| && TextOf(es[0].pluginId) != TextOf(Fronted(es, i)[0].pluginId)
  {
    i :| 0 <= i < |es| && TextOf(es[i].pluginId) != TextOf(es[0].pluginId);
  }

  /** The order of parsed events always matters, if any of them names its plugin: the kernel events cannot. */
  lemma NamedPluginsDependOnOrder(es: seq<Trace>, id: Key, i: nat)
    requires FourEvents(es, id) && (forall j :: 0 <= j < 4 ==> es[j].Parsed()) && i < 4 && TextOf(es[i].pluginId) != ""
    ensures exists fs :: multiset(fs) == multiset(es) && EnterAll(fs) != EnterAll(es)
  {
    EveryOrderReportsAlike(es, id);
    var k := EventOf(es, id, KernelStart);
    assert es[k].RemoteCore();
    assert TextOf(es[k].pluginId) == "";
  }

  lemma Lacks(text: string, part: string, k: nat)
    requires k < |part| && part[k] !in text
    ensures !Contains(text, part)
  {
    forall i | 0 <= i <= |text|
      ensures !(part <= text[i..])
    {
      if i + k < |text| {
        assert text[i..][k] == text[i + k];
        assert text[i + k] in text;
      }
    }
  }

  lemma MlaName(name: string)
    requires "MLA" <= name && '6' !in name && 'V' !in name
    ensures TypeOfName(name) == "MLA"
  {
    Lacks(name, "A65", 1);
    Lacks(name, "CVU", 1);
    Lacks(name, "EV74", 1);
    assert "MLA" <= name[0..];
  }

  /** Four events as they are parsed: a kernel event comes first in one order, and a plugin event in the other. */
  lemma PluginIdDependsOnOrder() returns (es: seq<Trace>, fs: seq<Trace>, id: Key)
    ensures FourEvents(es, id) && FourEvents(fs, id) && multiset(es) == multiset(fs)
    ensures forall i :: 0 <= i < 4 ==> es[i].Parsed()
    ensures EnterAll(es).reports != EnterAll(fs).reports
  {
    var kernel, plugin := KernelAndPlugin();
    id := kernel.RequestId();
    es := StartsAndEnds(kernel, plugin);
    fs := [es[1], es[0], es[2], es[3]];
    SwappedFirstEvents(es, id);
  }

  lemma KernelAndPlugin() returns (kernel: Trace, plugin: Trace)
    ensures kernel.Parsed() && plugin.Parsed() && kernel.RemoteCore() && !plugin.RemoteCore()
    ensures kernel.eventType == plugin.eventType == Start && kernel.pluginType == plugin.pluginType == "MLA"
    ensures kernel.RequestId() == plugin.RequestId() && kernel.timestamp != 0 && plugin.timestamp != 0
    ensures kernel.pluginId == None && plugin.pluginId == Some("mla")
  {
    hide Contains, TypeOfName, Hash;
    KernelName();
    PluginName();
    var hash := Hash("mla" + "s");
    kernel := Trace(10, 1, None, hash, "MLA", Start, "MLA " + REMOTE_CORE, "", QUERY_ID_INVALID);
    plugin := Trace(5, 1, Some("mla"), hash, "MLA", Start, "MLA", "s", QUERY_ID_INVALID);
  }

  lemma KernelName()
    ensures TypeOfName("MLA " + REMOTE_CORE) == "MLA" && Contains("MLA " + REMOTE_CORE, REMOTE_CORE)
  {
    var name := "MLA " + REMOTE_CORE;
    assert REMOTE_CORE <= name[4..];
    MlaName(name);
  }

  lemma PluginName()
    ensures TypeOfName("MLA") == "MLA" && !Contains("MLA", REMOTE_CORE)
  {
    Lacks("MLA", REMOTE_CORE, 0);
    MlaName("MLA");
  }

  lemma StartsAndEnds(kernel: Trace, plugin: Trace) returns (es: seq<Trace>)
    requires kernel.Parsed() && plugin.Parsed() && kernel.RemoteCore() && !plugin.RemoteCore()
    requires kernel.eventType == plugin.eventType == Start && kernel.pluginType == plugin.pluginType == "MLA"
    requires kernel.RequestId() == plugin.RequestId() && kernel.timestamp != 0 && plugin.timestamp != 0
    ensures es == [kernel, plugin, kernel.(eventType := End), plugin.(eventType := End)]
    ensures FourEvents(es, kernel.RequestId()) && forall i :: 0 <= i < 4 ==> es[i].Parsed()
  {
    hide Contains, TypeOfName;
    es := [kernel, plugin, kernel.(eventType := End), plugin.(eventType := End)];
  }
}
