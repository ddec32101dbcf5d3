/** The collector: traces are folded into records, finished records are grouped, groups are published. */
module KpiSender {
  import opened RequestKeys
  import opened Kpis
  import opened Seqs
  import opened Wrappers

  const THRESHOLD_TIME_MS := 1000 + 100

  datatype Group = Group(nodes: seq<KpiNode>, lastUpdated: u64)

  /** What one MQTT message about a pipeline frame carries. */
  datatype Message = Message(key: Key, frame: bv32, streamId: string, plugins: seq<KpiNode>)

  datatype Cause = GroupFull | TimedOut
  datatype Publication = Publication(message: Message, cause: Cause)

  /** A record turned into a measurement, with the request id it was collected under. */
  datatype Conversion = Conversion(request: Key, node: KpiNode)

  /**
   * The shared state, with the history of conversions and publications. `inFlight` is the
   * measurement that the trace thread has converted but not yet added under the mutex.
   */
  datatype State = State(
    records: map<Key, Record>,
    groups: map<Key, Group>,
    pushToMqtt: bool,
    inFlight: Option<Conversion>,
    converted: seq<Conversion>,
    published: seq<Publication>)

  const INITIAL := State(map[], map[], false, None, [], [])

  /** Unsigned age of a group, in milliseconds. */
  predicate Stale(g: Group, now: u64) {
    Elapsed(g.lastUpdated, now) > THRESHOLD_TIME_MS
  }

  function MessageOf(key: Key, nodes: seq<KpiNode>): Message
    requires nodes != []
  {
    Message(key, key.low, nodes[0].streamId, nodes)
  }

  /** The records after a trace was merged into the record of its key, or a new record was stored. */
  function Stored(records: map<Key, Record>, t: Trace): map<Key, Record> {
    var id := t.RequestId();
    if id !in records then records[id := NewRecord(t)]
    else if records[id].RequestId() != id then records
    else records[id := records[id].Merged(t)]
  }

  /** Merging fails on a record of another key, and on a custom event for an existing record. */
  predicate MergeFails(records: map<Key, Record>, t: Trace) {
    t.RequestId() in records && (records[t.RequestId()].RequestId() != t.RequestId() || t.eventType.Custom?)
  }

  /** The record of the trace's key, given the plugin start of the PCIe start event if it is a PCIe end. */
  function Current(stored: map<Key, Record>, t: Trace): Record
    requires t.WellFormed() && t.RequestId() in stored && (t.PcieEnd() ==> t.PcieStartId() in stored)
  {
    var r := stored[t.RequestId()];
    if t.PcieEnd() then r.(pluginStart := stored[t.PcieStartId()].pluginStart) else r
  }

  /** A complete record is converted; it is in flight until it has been added to its group. */
  function Convert(s: State, id: Key): State
    requires id in s.records
  {
    if !s.records[id].Complete() then s else
    var c := Conversion(id, s.records[id].ToJson());
    s.(inFlight := Some(c), converted := s.converted + [c])
  }

  /** The part of `consume` before the mutex: merge the trace, and convert the record if it is ready. */
  function Absorb(s: State, t: Trace): State
    requires t.WellFormed()
  {
    var stored := Stored(s.records, t);
    if !s.pushToMqtt then s
    else if MergeFails(s.records, t) || (t.PcieEnd() && t.PcieStartId() !in stored) then s.(records := stored)
    else Convert(s.(records := stored[t.RequestId() := Current(stored, t)]), t.RequestId())
  }

  /** The measurements pending under a key. */
  function NodesAt(groups: map<Key, Group>, key: Key): seq<KpiNode> {
    if key in groups then groups[key].nodes else []
  }

  /** The groups after a measurement was added to its group, and a group that became full was published. */
  function GroupsAfter(groups: map<Key, Group>, node: KpiNode, now: u64, pluginsCount: nat): map<Key, Group> {
    var nodes := NodesAt(groups, node.GroupKey()) + [node];
    if |nodes| >= pluginsCount then groups - {node.GroupKey()} else groups[node.GroupKey() := Group(nodes, now)]
  }

  function PublishedBy(groups: map<Key, Group>, node: KpiNode, pluginsCount: nat): seq<Publication> {
    var nodes := NodesAt(groups, node.GroupKey()) + [node];
    if |nodes| >= pluginsCount then [Publication(MessageOf(node.GroupKey(), nodes), GroupFull)] else []
  }

  /** The part of `consume` under the mutex, and the removal of the converted record. */
  function Deliver(s: State, now: u64, pluginsCount: nat): State
    requires s.inFlight.Some?
  {
    var c := s.inFlight.value;
    s.(inFlight := None,
       records := s.records - {c.request},
       groups := GroupsAfter(s.groups, c.node, now, pluginsCount),
       published := s.published + PublishedBy(s.groups, c.node, pluginsCount))
  }

  /** A whole call of `consume`, when nothing else runs in between. */
  function Consumed(s: State, t: Trace, now: u64, pluginsCount: nat): State
    requires t.WellFormed()
  {
    Delivered(Absorb(s, t), now, pluginsCount)
  }

  function Delivered(s: State, now: u64, pluginsCount: nat): State {
    if s.inFlight.Some? then Deliver(s, now, pluginsCount) else s
  }

  function Reported(s: State, id: Key, now: u64, pluginsCount: nat): State
    requires id in s.records
  {
    Delivered(Convert(s, id), now, pluginsCount)
  }

  lemma ReportedParts(s: State, id: Key, now: u64, pluginsCount: nat)
    requires id in s.records && s.inFlight.None?
    ensures Reported(s, id, now, pluginsCount) ==
      if !s.records[id].Complete() then s else
      var node := s.records[id].ToJson();
      State(s.records - {id}, GroupsAfter(s.groups, node, now, pluginsCount), s.pushToMqtt, None,
            s.converted + [Conversion(id, node)], s.published + PublishedBy(s.groups, node, pluginsCount))
  {
  }

  lemma ConsumedWhenStored(s: State, t: Trace, now: u64, pluginsCount: nat)
    requires t.WellFormed() && s.pushToMqtt && !MergeFails(s.records, t)
    requires t.PcieEnd() ==> t.PcieStartId() in Stored(s.records, t)
    ensures
      var stored := Stored(s.records, t);
      Consumed(s, t, now, pluginsCount)
        == Reported(s.(records := if t.PcieEnd() then stored[t.RequestId() := Current(stored, t)] else stored),
                    t.RequestId(), now, pluginsCount)
  {
    var stored := Stored(s.records, t);
    if !t.PcieEnd() {
      assert stored[t.RequestId() := Current(stored, t)] == stored;
    }
  }

  /** `order` lists some stale groups, none of them twice. */
  ghost predicate StaleKeys(groups: map<Key, Group>, now: u64, order: seq<Key>) {
    && (forall k :: k in order ==> k in groups && Stale(groups[k], now))
    && (forall i, j :: 0 <= i < j < |order| ==> order[i] != order[j])
  }

  /** `order` lists every stale group once: the order in which a hash table happens to yield them. */
  ghost predicate StaleOrder(groups: map<Key, Group>, now: u64, order: seq<Key>) {
    StaleKeys(groups, now, order) && forall k :: k in groups && Stale(groups[k], now) ==> k in order
  }

  lemma OneMoreStale(groups: map<Key, Group>, now: u64, order: seq<Key>, key: Key)
    requires StaleKeys(groups, now, order)
    requires key in groups && Stale(groups[key], now) && key !in order
    ensures StaleKeys(groups, now, order + [key])
  {
  }

  function TimeoutsOf(groups: map<Key, Group>, order: seq<Key>): seq<Publication>
    requires forall k :: k in order ==> k in groups && groups[k].nodes != []
  {
    if order == [] then [] else
    var last := |order| - 1;
    TimeoutsOf(groups, order[..last])
      + [Publication(MessageOf(order[last], groups[order[last]].nodes), TimedOut)]
  }

  ghost predicate NonEmptyGroups(groups: map<Key, Group>) {
    forall k :: k in groups ==> groups[k].nodes != []
  }

  /** One pass of the observer thread while it holds the mutex. */
  ghost predicate Swept(s: State, now: u64, s': State) {
    && NonEmptyGroups(s.groups)
    && exists order :: StaleOrder(s.groups, now, order) && s' == AfterTimeouts(s, order)
  }

  ghost function AfterTimeouts(s: State, order: seq<Key>): State
    requires forall k :: k in order ==> k in s.groups && s.groups[k].nodes != []
  {
    s.(groups := Without(s.groups, order),
       published := s.published + TimeoutsOf(s.groups, order))
  }

  /** The group under `key` now holds `nodes`; without measurements it is dropped. */
  function WithNodes(groups: map<Key, Group>, key: Key, nodes: seq<KpiNode>): map<Key, Group> {
    if key !in groups || nodes == [] then groups - {key}
    else groups[key := groups[key].(nodes := nodes)]
  }

  function Popped(groups: map<Key, Group>, key: Key): map<Key, Group>
    requires NonEmptyGroups(groups)
  {
    WithNodes(groups, key, if key in groups then groups[key].nodes[1..] else [])
  }

  lemma PopOfRest(groups: map<Key, Group>, key: Key, nodes: seq<KpiNode>)
    requires key in groups && NonEmptyGroups(groups)
    ensures NonEmptyGroups(WithNodes(groups, key, nodes))
    ensures NodesAt(WithNodes(groups, key, nodes), key) == nodes
    ensures Popped(WithNodes(groups, key, nodes), key)
         == WithNodes(groups, key, if nodes == [] then [] else nodes[1..])
  {
  }

  ghost function Without(groups: map<Key, Group>, order: seq<Key>): map<Key, Group> {
    map k | k in groups && k !in order :: groups[k]
  }

  lemma WithoutOneMore(groups: map<Key, Group>, order: seq<Key>, key: Key)
    requires NonEmptyGroups(groups) && key in groups && forall k :: k in order ==> k in groups
    ensures Without(groups, order) - {key} == Without(groups, order + [key])
    ensures TimeoutsOf(groups, order + [key])
         == TimeoutsOf(groups, order) + TimeoutsOf(groups, [key])
    ensures TimeoutsOf(groups, [key]) == [Publication(MessageOf(key, groups[key].nodes), TimedOut)]
  {
    assert (order + [key])[..|order|] == order;
    assert forall k :: k in order + [key] <==> k in order || k == key;
  }

  lemma SweepDone(groups: map<Key, Group>, now: u64, order: seq<Key>, left: map<Key, Group>)
    requires StaleKeys(groups, now, order) && left == Without(groups, order)
    requires forall k :: k in left ==> !Stale(left[k], now)
    ensures StaleOrder(groups, now, order)
  {
    assert forall k :: k in groups ==> k in order || (k in left && left[k] == groups[k]);
  }

  class Sink {
    var pluginKpiMap: map<Key, PluginKpi>
    var jsonKpiMap: map<Key, Group>
    var pushToMqtt: bool
    const pluginsCount: nat
    ghost var converted: seq<Conversion>
    ghost var published: seq<Publication>

    /** Distinct keys own distinct records, and no group is empty. */
    ghost predicate Valid()
      reads this`pluginKpiMap, this`jsonKpiMap
    {
      && (forall j, k :: j in pluginKpiMap && k in pluginKpiMap && j != k ==> pluginKpiMap[j] != pluginKpiMap[k])
      && NonEmptyGroups(jsonKpiMap)
    }

    ghost function Records(): map<Key, Record>
      reads this`pluginKpiMap, pluginKpiMap.Values
    {
      map k | k in pluginKpiMap :: pluginKpiMap[k].Value()
    }

    ghost function Value(): State
      reads this, pluginKpiMap.Values
    {
      State(Records(), jsonKpiMap, pushToMqtt, None, converted, published)
    }

    constructor (pluginsCount: nat)
      ensures Valid() && Value() == INITIAL && this.pluginsCount == pluginsCount && pluginKpiMap == map[]
    {
      this.pluginsCount := pluginsCount;
      pluginKpiMap, jsonKpiMap := map[], map[];
      pushToMqtt := false;
      converted, published := [], [];
    }

    method SetPushToMqtt(push: bool)
      modifies this`pushToMqtt
      ensures Value() == old(Value()).(pushToMqtt := push)
    {
      pushToMqtt := push;
    }

    method AddJsonNode(id: Key, node: KpiNode, now: u64)
      requires Valid()
      modifies this`jsonKpiMap
      ensures Valid()
      ensures jsonKpiMap == old(jsonKpiMap)[id := Group(NodesAt(old(jsonKpiMap), id) + [node], now)]
    {
      if id !in jsonKpiMap {
        jsonKpiMap := jsonKpiMap[id := Group([], now)];
      }
      var list := jsonKpiMap[id];
      list := list.(nodes := list.nodes + [node]);
      jsonKpiMap := jsonKpiMap[id := list.(lastUpdated := now)];
    }

    method PopJsonNode(id: Key) returns (node: Option<KpiNode>)
      requires Valid()
      modifies this`jsonKpiMap
      ensures Valid()
      ensures node == (if id in old(jsonKpiMap) then Some(old(jsonKpiMap)[id].nodes[0]) else None)
      ensures jsonKpiMap == Popped(old(jsonKpiMap), id)
    {
      if id !in jsonKpiMap {
        return None;
      }
      var list := jsonKpiMap[id];
      node := Some(list.nodes[0]);
      list := list.(nodes := list.nodes[1..]);
      if |list.nodes| == 0 {
        jsonKpiMap := jsonKpiMap - {id};
      } else {
        jsonKpiMap := jsonKpiMap[id := list];
      }
    }

    /** Pops the whole group, in order, into one message. */
    method MakePipelineKpi(id: Key, streamId: string) returns (message: Message)
      requires Valid() && id in jsonKpiMap
      modifies this`jsonKpiMap
      ensures Valid()
      ensures jsonKpiMap == old(jsonKpiMap) - {id}
      ensures message == Message(id, id.low, streamId, old(jsonKpiMap)[id].nodes)
    {
      ghost var before, all := jsonKpiMap, jsonKpiMap[id].nodes;
      var plugins := [];
      var next := PopJsonNode(id);
      PopOfRest(before, id, all[1..]);
      while next.Some?
        invariant Valid()
        invariant |plugins| <= |all| && plugins == all[..|plugins|]
        invariant next == if |plugins| < |all| then Some(all[|plugins|]) else None
        invariant jsonKpiMap == WithNodes(before, id, if next.Some? then all[|plugins| + 1..] else [])
        decreases |all| - |plugins|
      {
        TakeOneMore(all, |plugins|);
        plugins := plugins + [next.value];
        PopOfRest(before, id, all[|plugins|..]);
        next := PopJsonNode(id);
      }
      assert all[..|all|] == all;
      message := Message(id, id.low, streamId, plugins);
    }

    method PublishPipelineKpi(key: Key, ghost cause: Cause)
      requires Valid() && key in jsonKpiMap
      modifies this`jsonKpiMap, this`published
      ensures Valid()
      ensures jsonKpiMap == old(jsonKpiMap) - {key}
      ensures published == old(published) + [Publication(MessageOf(key, old(jsonKpiMap)[key].nodes), cause)]
    {
      var streamId := jsonKpiMap[key].nodes[0].streamId;
      var message := MakePipelineKpi(key, streamId);
      published := published + [Publication(message, cause)];
    }

    /** One event message. Returns are the `continue`s of the loop over messages. */
    method Consume(t: Trace, now: u64)
      requires Valid() && t.WellFormed()
      modifies this`pluginKpiMap, this`jsonKpiMap, this`converted, this`published, pluginKpiMap.Values
      ensures Valid() && Value() == Consumed(old(Value()), t, now, pluginsCount)
    {
      if !pushToMqtt {
        return;
      }
      var kpi := MergeOrStore(t);
      if kpi == null {
        return;
      }
      if t.PcieEnd() {
        var found := TakePcieStart(t, kpi);
        if !found {
          return;
        }
      }
      ConsumedWhenStored(old(Value()), t, now, pluginsCount);
      ReportIfReady(kpi, t.RequestId(), now);
    }

    method MergeOrStore(t: Trace) returns (kpi: PluginKpi?)
      requires Valid()
      modifies this`pluginKpiMap, pluginKpiMap.Values
      ensures Valid() && fresh(pluginKpiMap.Values - old(pluginKpiMap.Values))
      ensures Records() == Stored(old(Records()), t)
      ensures kpi == null <==> MergeFails(old(Records()), t)
      ensures kpi != null ==> t.RequestId() in pluginKpiMap && kpi == pluginKpiMap[t.RequestId()]
      ensures kpi != null ==> kpi.Value().RequestId() == t.RequestId()
    {
      var id := t.RequestId();
      if id in pluginKpiMap {
        kpi := pluginKpiMap[id];
        assert Records()[id] == kpi.Value();
        var ok := kpi.MergeTrace(t);
        assert Records() == old(Records())[id := kpi.Value()];
        if !ok {
          kpi := null;
        }
      } else {
        kpi := new PluginKpi.FromTrace(t);
        assert kpi.Value().RequestId() == id;
        assert Records() == old(Records());
        StorePluginKpi(kpi);
      }
    }

    method StorePluginKpi(kpi: PluginKpi)
      requires Valid() && kpi !in pluginKpiMap.Values
      modifies this`pluginKpiMap
      ensures Valid() && pluginKpiMap == old(pluginKpiMap)[kpi.Value().RequestId() := kpi]
      ensures Records() == old(Records())[kpi.Value().RequestId() := kpi.Value()]
    {
      pluginKpiMap := pluginKpiMap[Key(kpi.elementHash, kpi.frame) := kpi];
    }

    method TakePcieStart(t: Trace, kpi: PluginKpi) returns (found: bool)
      requires Valid() && t.pluginId.Some? && t.RequestId() in pluginKpiMap && kpi == pluginKpiMap[t.RequestId()]
      modifies kpi`pluginStart
      ensures found <==> t.PcieStartId() in old(Records())
      ensures Records() == if !found then old(Records()) else old(Records())[t.RequestId() :=
        old(Records())[t.RequestId()].(pluginStart := old(Records())[t.PcieStartId()].pluginStart)]
    {
      var start := t.PcieStartId();
      found := start in pluginKpiMap;
      if found {
        assert Records()[start] == pluginKpiMap[start].Value() && Records()[t.RequestId()] == kpi.Value();
        kpi.pluginStart := pluginKpiMap[start].pluginStart;
      }
    }

    method RemovePluginKpi(elementHash: bv32, frame: bv32)
      requires Valid()
      modifies this`pluginKpiMap
      ensures Valid() && pluginKpiMap == old(pluginKpiMap) - {Key(elementHash, frame)}
      ensures Records() == old(Records()) - {Key(elementHash, frame)}
    {
      pluginKpiMap := pluginKpiMap - {Key(elementHash, frame)};
    }

    method ReportIfReady(kpi: PluginKpi, ghost id: Key, now: u64)
      requires Valid()
      requires id in pluginKpiMap && kpi == pluginKpiMap[id] && kpi.Value().RequestId() == id
      modifies this`pluginKpiMap, this`jsonKpiMap, this`converted, this`published
      ensures Valid() && Value() == Reported(old(Value()), id, now, pluginsCount)
    {
      hide Reported, GroupsAfter, PublishedBy, Hash;
      var ready := kpi.IsReady();
      assert kpi.Value() == Records()[id];
      ReportedParts(Value(), id, now, pluginsCount);
      if ready {
        Report(kpi, id, now);
      }
    }

    /** Converts a complete record, delivers the measurement and removes the record. */
    method Report(kpi: PluginKpi, ghost id: Key, now: u64)
      requires Valid()
      requires id in pluginKpiMap && kpi == pluginKpiMap[id] && kpi.Value().RequestId() == id
      modifies this`pluginKpiMap, this`jsonKpiMap, this`converted, this`published
      ensures Valid() && pluginKpiMap == old(pluginKpiMap) - {id} && Records() == old(Records()) - {id}
      ensures jsonKpiMap == GroupsAfter(old(jsonKpiMap), old(kpi.Value()).ToJson(), now, pluginsCount)
      ensures converted == old(converted) + [Conversion(id, old(kpi.Value()).ToJson())]
      ensures published == old(published) + PublishedBy(old(jsonKpiMap), old(kpi.Value()).ToJson(), pluginsCount)
    {
      hide GroupsAfter, PublishedBy, Hash;
      var node := kpi.Value().ToJson();
      converted := converted + [Conversion(id, node)];
      AddAndPublish(node, now);
      assert Records() == old(Records());
      RemovePluginKpi(kpi.elementHash, kpi.frame);
    }

    /** The critical section of `consume`. */
    method AddAndPublish(node: KpiNode, now: u64)
      requires Valid()
      modifies this`jsonKpiMap, this`published
      ensures Valid()
      ensures jsonKpiMap == GroupsAfter(old(jsonKpiMap), node, now, pluginsCount)
      ensures published == old(published) + PublishedBy(old(jsonKpiMap), node, pluginsCount)
    {
      var key := node.GroupKey();
      AddJsonNode(key, node, now);
      if |jsonKpiMap[key].nodes| >= pluginsCount {
        PublishPipelineKpi(key, GroupFull);
      }
    }

    /** Publishes one more stale group of those that a pass began with. */
    method PublishStale(key: Key, now: u64, ghost before: map<Key, Group>, ghost order: seq<Key>,
                        ghost earlier: seq<Publication>)
      requires Valid() && key in jsonKpiMap && Stale(jsonKpiMap[key], now)
      requires NonEmptyGroups(before) && StaleKeys(before, now, order) && jsonKpiMap == Without(before, order)
      requires published == earlier + TimeoutsOf(before, order)
      modifies this`jsonKpiMap, this`published
      ensures Valid() && StaleKeys(before, now, order + [key]) && jsonKpiMap == Without(before, order + [key])
      ensures published == earlier + TimeoutsOf(before, order + [key])
    {
      WithoutOneMore(before, order, key);
      OneMoreStale(before, now, order, key);
      AppendAssociates(earlier, TimeoutsOf(before, order), TimeoutsOf(before, [key]));
      PublishPipelineKpi(key, TimedOut);
    }

    /** One iteration of the observer loop. Publishing invalidates the iterator, so the pass restarts. */
    method Observe(now: u64)
      requires Valid()
      modifies this`jsonKpiMap, this`published
      ensures Valid() && Swept(old(Value()), now, Value())
    {
      ghost var before, order: seq<Key> := jsonKpiMap, [];
      var remaining := jsonKpiMap.Keys;
      while remaining != {}
        invariant Valid() && StaleKeys(before, now, order)
        invariant jsonKpiMap == Without(before, order) && remaining <= jsonKpiMap.Keys
        invariant forall k :: k in jsonKpiMap && k !in remaining ==> !Stale(jsonKpiMap[k], now)
        invariant published == old(published) + TimeoutsOf(before, order)
        decreases jsonKpiMap.Keys, remaining
      {
        var key :| key in remaining;
        remaining := remaining - {key};
        if Elapsed(jsonKpiMap[key].lastUpdated, now) > THRESHOLD_TIME_MS {
          PublishStale(key, now, before, order, old(published));
          order := order + [key];
          remaining := jsonKpiMap.Keys;
        }
      }
      SweepDone(before, now, order, jsonKpiMap);
      assert Value() == AfterTimeouts(old(Value()), order);
      hide Without, TimeoutsOf, StaleOrder, StaleKeys;
    }
  }
}
