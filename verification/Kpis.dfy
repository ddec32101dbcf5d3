/** Trace events and the per-plugin records they are merged into. */
module Kpis {
  import opened RequestKeys
  import opened Wrappers

  const REMOTE_CORE := "remote_core"
  const PCIE := "PCIe"
  const QUERY_ID_INVALID: bv32 := 0xFFFF_FFFF

  predicate Contains(text: string, part: string) {
    exists i :: 0 <= i <= |text| && part <= text[i..]
  }

  function TypeOfName(name: string): string {
    if Contains(name, "A65") then "A65"
    else if Contains(name, "CVU") || Contains(name, "EV74") then "CVU"
    else if Contains(name, "MLA") || Contains(name, "M4") then "MLA"
    else if Contains(name, "AllegroDecoder") then "AllegroDecoder"
    else if Contains(name, "AllegroEncoder") then "AllegroEncoder"
    else if Contains(name, PCIE) then PCIE
    else "UNKNOWN"
  }

  /** `part` occurs in `text`. */
  lemma ContainsMeans(text: string, part: string)
    ensures Contains(text, part) <==> exists before, after :: text == before + part + after
  {
    if Contains(text, part) {
      var i :| 0 <= i <= |text| && part <= text[i..];
      assert text == text[..i] + part + text[i..][|part|..];
    }
    if before, after :| text == before + part + after {
      assert text[|before|..] == part + after;
    }
  }

  /** The type is that of the first part in this list that occurs in the name. */
  lemma TypeIsOfFirstPart(name: string, i: nat)
    ensures
      var parts := ["A65", "CVU", "EV74", "MLA", "M4", "AllegroDecoder", "AllegroEncoder", "PCIe"];
      var types := ["A65", "CVU", "CVU", "MLA", "MLA", "AllegroDecoder", "AllegroEncoder", "PCIe"];
      && (i < 8 && Contains(name, parts[i]) && (forall j :: 0 <= j < i ==> !Contains(name, parts[j])) ==>
            TypeOfName(name) == types[i])
      && ((forall j :: 0 <= j < 8 ==> !Contains(name, parts[j])) ==> TypeOfName(name) == "UNKNOWN")
  {
    hide Contains;
    var parts := ["A65", "CVU", "EV74", "MLA", "M4", "AllegroDecoder", "AllegroEncoder", "PCIe"];
    assert parts[0] == "A65" && parts[1] == "CVU" && parts[2] == "EV74" && parts[3] == "MLA";
    assert parts[4] == "M4" && parts[5] == "AllegroDecoder" && parts[6] == "AllegroEncoder" && parts[7] == "PCIe";
  }

  datatype EventType = Start | End | Custom(code: bv32)

  datatype Trace = Trace(
    timestamp: u64,
    frame: bv32,
    pluginId: Option<string>,
    elementHash: bv32,
    pluginType: string,
    eventType: EventType,
    eventName: string,
    streamId: string,
    qid: bv32)
  {
    function RequestId(): Key { Key(elementHash, frame) }

    predicate RemoteCore() { Contains(eventName, REMOTE_CORE) }

    /** The end event of a PCIe element, whose start event was sent under another key. */
    predicate PcieEnd() { Contains(eventName, PCIE) && eventType.End? }

    /**
     * What the trace parser yields: the type is read off the event name; a remote-core event carries only a
     * request id; a plugin event carries names, whose hash is taken if a stream id comes with it.
     */
    predicate Parsed() {
      && pluginType == TypeOfName(eventName)
      && if RemoteCore() then pluginId == None && streamId == ""
         else pluginId.Some? && (elementHash == Hash(pluginId.value + streamId) || (elementHash == 0 && streamId == ""))
    }

    /** A PCIe end event is raised by a plugin and so carries its plugin id. */
    predicate WellFormed() { PcieEnd() ==> pluginId.Some? }

    /** The timestamp of a record that this event fills in, if any. */
    function SlotFilled(): Option<Slot> {
      match eventType
      case Start => Some(if RemoteCore() then KernelStart else PluginStart)
      case End => Some(if RemoteCore() then KernelEnd else PluginEnd)
      case Custom(_) => None
    }

    /** The key under which the start event of a PCIe element was stored: no stream, frame -1. */
    function PcieStartId(): Key
      requires pluginId.Some?
    {
      Key(Hash(pluginId.value + "(null)"), 0xFFFF_FFFF)
    }
  }

  datatype Slot = KernelStart | KernelEnd | PluginStart | PluginEnd

  /** The value of a `PluginKpi` object. A timestamp of zero has not been set. */
  datatype Record = Record(
    frame: bv32,
    pluginId: Option<string>,
    elementHash: bv32,
    pluginType: string,
    streamId: string,
    qid: bv32,
    kernelStart: u64,
    kernelEnd: u64,
    pluginStart: u64,
    pluginEnd: u64)
  {
    function RequestId(): Key { Key(elementHash, frame) }

    function Stamp(slot: Slot): u64 {
      match slot
      case KernelStart => kernelStart
      case KernelEnd => kernelEnd
      case PluginStart => pluginStart
      case PluginEnd => pluginEnd
    }

    function WithStamp(slot: Slot, t: u64): Record {
      match slot
      case KernelStart => this.(kernelStart := t)
      case KernelEnd => this.(kernelEnd := t)
      case PluginStart => this.(pluginStart := t)
      case PluginEnd => this.(pluginEnd := t)
    }

    function WithTrace(t: Trace): (r: Record)
      ensures r.RequestId() == RequestId()
    {
      if t.SlotFilled().Some? then WithStamp(t.SlotFilled().value, t.timestamp) else this
    }

    /** Only an empty stream id or query id is filled in by a later event. */
    function Labelled(t: Trace): Record {
      this.(streamId := if streamId == "" then t.streamId else streamId,
            qid := if qid == QUERY_ID_INVALID then t.qid else qid)
    }

    function Merged(t: Trace): (r: Record)
      ensures r.RequestId() == RequestId()
    {
      Labelled(t).WithTrace(t)
    }

    predicate RemoteCore() { pluginType in ["CVU", "EV74", "MLA", "M4"] }

    /** Ready to be reported: a remote-core record needs all four timestamps, others the plugin's two. */
    predicate Complete() {
      && pluginStart != 0 && pluginEnd != 0
      && (RemoteCore() ==> kernelStart != 0 && kernelEnd != 0)
    }

    function ToJson(): KpiNode {
      KpiNode(frame, PluginText(), pluginType, streamId, if qid == QUERY_ID_INVALID then None else Some(qid),
              kernelStart, kernelEnd, pluginStart, pluginEnd,
              if kernelStart != 0 && kernelEnd != 0 then Elapsed(kernelStart, kernelEnd)
              else Elapsed(pluginStart, pluginEnd))
    }

    function PluginText(): string { if pluginId.Some? then pluginId.value else "" }
  }

  /** Unsigned 64-bit `to - from`. */
  function Elapsed(from: u64, to: u64): u64 {
    (to - from) % 0x1_0000_0000_0000_0000
  }

  /** It is the one distance that leads from `from` to `to`, around the end of the range if need be. */
  lemma ElapsedLeadsTo(from: u64, to: u64)
    ensures (from + Elapsed(from, to)) % 0x1_0000_0000_0000_0000 == to
  {
  }

  lemma ElapsedForwards(from: u64, to: u64)
    requires from <= to
    ensures Elapsed(from, to) == to - from
  {
  }

  function EmptyRecord(t: Trace): Record {
    Record(t.frame, t.pluginId, t.elementHash, t.pluginType, t.streamId, t.qid, 0, 0, 0, 0)
  }

  function NewRecord(t: Trace): (r: Record)
    ensures r.RequestId() == t.RequestId()
  {
    EmptyRecord(t).WithTrace(t)
  }

  /** One finished plugin measurement, as reported. */
  datatype KpiNode = KpiNode(
    frame: bv32,
    pluginId: string,
    pluginType: string,
    streamId: string,
    qid: Option<bv32>,
    kernelStart: u64,
    kernelEnd: u64,
    pluginStart: u64,
    pluginEnd: u64,
    executionMicros: u64)
  {
    /** The (stream, frame) group this measurement is published with. */
    function GroupKey(): Key { Key(Hash(streamId), frame) }
  }

  class PluginKpi {
    const frame: bv32
    const pluginId: Option<string>
    const elementHash: bv32
    const pluginType: string
    var streamId: string
    var qid: bv32
    var kernelStart: u64
    var kernelEnd: u64
    var pluginStart: u64
    var pluginEnd: u64

    function Value(): Record
      reads this
    {
      Record(frame, pluginId, elementHash, pluginType, streamId, qid, kernelStart, kernelEnd, pluginStart, pluginEnd)
    }

    constructor FromTrace(t: Trace)
      ensures Value() == NewRecord(t)
    {
      frame, pluginId, elementHash, pluginType := t.frame, t.pluginId, t.elementHash, t.pluginType;
      streamId, qid := t.streamId, t.qid;
      kernelStart, kernelEnd, pluginStart, pluginEnd := 0, 0, 0, 0;
      new;
      var _ := InsertTimestamp(t);
    }

    method InsertTimestamp(t: Trace) returns (ok: bool)
      modifies this
      ensures Value() == if old(Value()).RequestId() == t.RequestId() then old(Value()).WithTrace(t) else old(Value())
      ensures ok <==> Value().RequestId() == t.RequestId() && !t.eventType.Custom?
    {
      if t.RequestId() != Key(elementHash, frame) {
        return false;
      }
      if t.RemoteCore() {
        if t.eventType.Start? {
          kernelStart := t.timestamp;
          return true;
        } else if t.eventType.End? {
          kernelEnd := t.timestamp;
          return true;
        }
      } else {
        if t.eventType.Start? {
          pluginStart := t.timestamp;
          return true;
        } else if t.eventType.End? {
          pluginEnd := t.timestamp;
          return true;
        }
      }
      return false;
    }

    method MergeTrace(t: Trace) returns (ok: bool)
      modifies this
      ensures Value() == if old(Value()).RequestId() == t.RequestId() then old(Value()).Merged(t) else old(Value())
      ensures ok <==> Value().RequestId() == t.RequestId() && !t.eventType.Custom?
    {
      if t.RequestId() != Key(elementHash, frame) {
        return false;
      }
      if |streamId| == 0 && |t.streamId| != 0 {
        streamId := t.streamId;
      }
      if qid == QUERY_ID_INVALID {
        qid := t.qid;
      }
      ok := InsertTimestamp(t);
    }

    method IsReady() returns (ready: bool)
      ensures ready <==> Value().Complete()
      ensures ready <==>
        && pluginStart != 0 && pluginEnd != 0
        && (pluginType in ["CVU", "EV74", "MLA", "M4"] ==> kernelStart != 0 && kernelEnd != 0)
    {
      if pluginType in ["CVU", "EV74", "MLA", "M4"] {
        ready := (pluginStart != 0 && pluginEnd != 0) && (kernelStart != 0 && kernelEnd != 0);
      } else {
        ready := pluginStart != 0 && pluginEnd != 0;
      }
    }
  }
}
