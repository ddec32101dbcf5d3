/** What holds in every state that the trace thread, the observer and the command handler can reach together. */
module KpiRuns {
  import opened RequestKeys
  import opened Kpis
  import opened KpiSender
  import opened Seqs

  /**
   * Atomic steps. A trace is absorbed by the trace thread alone; its measurement is added in a later
   * step, under the mutex, so that the other threads may run in between.
   */
  datatype Op = Event(t: Trace) | Add(now: u64) | Sweep(now: u64) | Toggle(push: bool)

  ghost predicate Step(pluginsCount: nat, clock: u64, s: State, op: Op, s': State) {
    match op
    case Event(t) => s.inFlight.None? && t.WellFormed() && s' == Absorb(s, t)
    case Add(now) => s.inFlight.Some? && clock <= now && s' == Deliver(s, now, pluginsCount)
    case Sweep(now) => clock <= now && Swept(s, now, s')
    case Toggle(push) => s' == s.(pushToMqtt := push)
  }

  /** The latest reading of the monotonic clock, which is only read under the mutex. */
  function Clock(ops: seq<Op>): u64 {
    if ops == [] then 0 else
    match ops[|ops| - 1]
    case Add(now) => now
    case Sweep(now) => now
    case _ => Clock(ops[..|ops| - 1])
  }

  /** Some interleaving of the steps `ops` ends in `s`. */
  ghost predicate Reaches(pluginsCount: nat, ops: seq<Op>, s: State) {
    if ops == [] then s == INITIAL else
    var before := ops[..|ops| - 1];
    exists prev :: Reaches(pluginsCount, before, prev) && Step(pluginsCount, Clock(before), prev, ops[|ops| - 1], s)
  }

  /** All measurements handed to MQTT under `key`, in order. */
  function HandedOver(published: seq<Publication>, key: Key): seq<KpiNode> {
    if published == [] then [] else
    var last := published[|published| - 1].message;
    HandedOver(published[..|published| - 1], key) + if last.key == key then last.plugins else []
  }

  /** All measurements of `key` that were converted, in order. */
  function ConvertedFor(converted: seq<Conversion>, key: Key): seq<KpiNode> {
    if converted == [] then [] else
    var last := converted[|converted| - 1].node;
    ConvertedFor(converted[..|converted| - 1], key) + if last.GroupKey() == key then [last] else []
  }

  function InFlightFor(s: State, key: Key): seq<KpiNode> {
    if s.inFlight.Some? && s.inFlight.value.node.GroupKey() == key then [s.inFlight.value.node] else []
  }

  ghost predicate OfKey(nodes: seq<KpiNode>, key: Key) {
    nodes != [] && forall i :: 0 <= i < |nodes| ==> nodes[i].GroupKey() == key
  }

  ghost predicate GroupsOk(pluginsCount: nat, clock: u64, groups: map<Key, Group>) {
    forall k :: k in groups ==>
      && OfKey(groups[k].nodes, k)
      && |groups[k].nodes| < pluginsCount
      && groups[k].lastUpdated <= clock
  }

  ghost predicate PublicationOk(pluginsCount: nat, p: Publication) {
    && OfKey(p.message.plugins, p.message.key)
    && p.message == MessageOf(p.message.key, p.message.plugins)
    && match p.cause
       case GroupFull => |p.message.plugins| == if pluginsCount == 0 then 1 else pluginsCount
       case TimedOut => |p.message.plugins| < pluginsCount
  }

  ghost predicate RecordsKeyed(records: map<Key, Record>) {
    forall k :: k in records ==> records[k].RequestId() == k
  }

  ghost predicate Conserved(s: State) {
    forall k :: HandedOver(s.published, k) + NodesAt(s.groups, k) + InFlightFor(s, k) == ConvertedFor(s.converted, k)
  }

  ghost predicate Inv(pluginsCount: nat, clock: u64, s: State) {
    && RecordsKeyed(s.records)
    && GroupsOk(pluginsCount, clock, s.groups)
    && (forall i :: 0 <= i < |s.published| ==> PublicationOk(pluginsCount, s.published[i]))
    && (s.inFlight.Some? ==> s.inFlight.value.request in s.records)
    && Conserved(s)
  }

  lemma AbsorbShape(s: State, t: Trace)
    requires RecordsKeyed(s.records) && s.inFlight.None? && t.WellFormed()
    ensures
      var s' := Absorb(s, t);
      && RecordsKeyed(s'.records)
      && s'.groups == s.groups && s'.published == s.published
      && s'.converted == s.converted + (if s'.inFlight.Some? then [s'.inFlight.value] else [])
      && (s'.inFlight.Some? ==> s'.inFlight.value.request in s'.records)
  {
    var stored := Stored(s.records, t);
    assert RecordsKeyed(stored);
    if !MergeFails(s.records, t) && (t.PcieEnd() ==> t.PcieStartId() in stored) {
      assert RecordsKeyed(stored[t.RequestId() := Current(stored, t)]);
    }
  }

  lemma ConvertedOneMore(converted: seq<Conversion>, c: Conversion, k: Key)
    ensures ConvertedFor(converted + [c], k)
         == ConvertedFor(converted, k) + if c.node.GroupKey() == k then [c.node] else []
  {
    assert (converted + [c])[..|converted|] == converted;
  }

  lemma HandedOverOneMore(published: seq<Publication>, p: Publication, k: Key)
    ensures HandedOver(published + [p], k)
         == HandedOver(published, k) + if p.message.key == k then p.message.plugins else []
  {
    assert (published + [p])[..|published|] == published;
  }

  lemma EventKeepsInv(pluginsCount: nat, clock: u64, s: State, t: Trace)
    requires Inv(pluginsCount, clock, s) && s.inFlight.None? && t.WellFormed()
    ensures Inv(pluginsCount, clock, Absorb(s, t))
  {
    AbsorbShape(s, t);
    var s' := Absorb(s, t);
    forall k
      ensures HandedOver(s'.published, k) + NodesAt(s'.groups, k) + InFlightFor(s', k) == ConvertedFor(s'.converted, k)
    {
      assert HandedOver(s.published, k) + NodesAt(s.groups, k) + InFlightFor(s, k) == ConvertedFor(s.converted, k);
      if s'.inFlight.Some? {
        ConvertedOneMore(s.converted, s'.inFlight.value, k);
      } else {
        assert s'.converted == s.converted;
      }
    }
  }

  lemma GroupsAfterOk(pluginsCount: nat, clock: u64, groups: map<Key, Group>, node: KpiNode, now: u64)
    requires GroupsOk(pluginsCount, clock, groups) && clock <= now
    ensures GroupsOk(pluginsCount, now, GroupsAfter(groups, node, now, pluginsCount))
    ensures forall p :: p in PublishedBy(groups, node, pluginsCount) ==> PublicationOk(pluginsCount, p)
  {
  }

  /** Adding a measurement to its group, and publishing the group if that filled it, loses and repeats nothing. */
  lemma HandedOverByAdding(pluginsCount: nat, published: seq<Publication>, groups: map<Key, Group>, node: KpiNode,
                           now: u64, k: Key)
    ensures HandedOver(published + PublishedBy(groups, node, pluginsCount), k)
              + NodesAt(GroupsAfter(groups, node, now, pluginsCount), k)
         == HandedOver(published, k) + NodesAt(groups, k) + if node.GroupKey() == k then [node] else []
  {
    var nodes := NodesAt(groups, node.GroupKey()) + [node];
    if |nodes| >= pluginsCount {
      HandedOverOneMore(published, PublishedBy(groups, node, pluginsCount)[0], k);
    } else {
      assert published + PublishedBy(groups, node, pluginsCount) == published;
    }
    AppendAssociates(HandedOver(published, k), NodesAt(groups, k), [node]);
  }

  lemma AddKeepsInv(pluginsCount: nat, clock: u64, s: State, now: u64)
    requires Inv(pluginsCount, clock, s) && s.inFlight.Some? && clock <= now
    ensures Inv(pluginsCount, now, Deliver(s, now, pluginsCount))
  {
    var node := s.inFlight.value.node;
    GroupsAfterOk(pluginsCount, clock, s.groups, node, now);
    var s' := Deliver(s, now, pluginsCount);
    forall k
      ensures HandedOver(s'.published, k) + NodesAt(s'.groups, k) + InFlightFor(s', k) == ConvertedFor(s'.converted, k)
    {
      HandedOverByAdding(pluginsCount, s.published, s.groups, node, now, k);
      assert HandedOver(s.published, k) + NodesAt(s.groups, k) + InFlightFor(s, k) == ConvertedFor(s.converted, k);
    }
  }

  /** The timeout messages of one sweep hand over each stale group once. */
  lemma {:induction false} HandedOverByTimeouts(published: seq<Publication>, groups: map<Key, Group>, order: seq<Key>,
                                                k: Key)
    requires NonEmptyGroups(groups) && forall j :: j in order ==> j in groups
    requires forall i, j :: 0 <= i < j < |order| ==> order[i] != order[j]
    ensures HandedOver(published + TimeoutsOf(groups, order), k)
         == HandedOver(published, k) + if k in order then groups[k].nodes else []
  {
    if order == [] {
      assert published + TimeoutsOf(groups, order) == published;
    } else {
      var last := |order| - 1;
      var fewer := published + TimeoutsOf(groups, order[..last]);
      HandedOverByTimeouts(published, groups, order[..last], k);
      assert (published + TimeoutsOf(groups, order))[..|fewer|] == fewer;
      assert k in order <==> k in order[..last] || k == order[last];
    }
  }

  lemma {:induction false} TimeoutsOk(pluginsCount: nat, clock: u64, groups: map<Key, Group>, order: seq<Key>)
    requires GroupsOk(pluginsCount, clock, groups) && forall j :: j in order ==> j in groups
    ensures forall i :: 0 <= i < |TimeoutsOf(groups, order)| ==>
      PublicationOk(pluginsCount, TimeoutsOf(groups, order)[i])
  {
    if order != [] {
      TimeoutsOk(pluginsCount, clock, groups, order[..|order| - 1]);
    }
  }

  /** A sweep moves the stale groups, whole, to the published messages. */
  lemma HandedOverBySweep(published: seq<Publication>, groups: map<Key, Group>, order: seq<Key>, k: Key)
    requires NonEmptyGroups(groups) && forall j :: j in order ==> j in groups
    requires forall i, j :: 0 <= i < j < |order| ==> order[i] != order[j]
    ensures HandedOver(published + TimeoutsOf(groups, order), k) + NodesAt(Without(groups, order), k)
         == HandedOver(published, k) + NodesAt(groups, k)
  {
    HandedOverByTimeouts(published, groups, order, k);
  }

  lemma SweepKeepsInv(pluginsCount: nat, clock: u64, s: State, now: u64, s': State)
    requires Inv(pluginsCount, clock, s) && clock <= now && Swept(s, now, s')
    ensures Inv(pluginsCount, now, s')
  {
    var order :| StaleOrder(s.groups, now, order) && s' == AfterTimeouts(s, order);
    TimeoutsOk(pluginsCount, clock, s.groups, order);
    assert GroupsOk(pluginsCount, now, s'.groups);
    forall k
      ensures HandedOver(s'.published, k) + NodesAt(s'.groups, k) + InFlightFor(s', k) == ConvertedFor(s'.converted, k)
    {
      HandedOverBySweep(s.published, s.groups, order, k);
      assert HandedOver(s.published, k) + NodesAt(s.groups, k) + InFlightFor(s, k) == ConvertedFor(s.converted, k);
    }
  }

  lemma {:induction false} Invariant(pluginsCount: nat, ops: seq<Op>, s: State)
    requires Reaches(pluginsCount, ops, s)
    ensures Inv(pluginsCount, Clock(ops), s)
  {
    if ops != [] {
      var before, clock := ops[..|ops| - 1], Clock(ops[..|ops| - 1]);
      var prev :| Reaches(pluginsCount, before, prev) && Step(pluginsCount, clock, prev, ops[|ops| - 1], s);
      Invariant(pluginsCount, before, prev);
      match ops[|ops| - 1]
      case Event(t) => EventKeepsInv(pluginsCount, clock, prev, t);
      case Add(now) => AddKeepsInv(pluginsCount, clock, prev, now);
      case Sweep(now) => SweepKeepsInv(pluginsCount, clock, prev, now, s);
      case Toggle(_) =>
    }
  }

  /**
   * Conservation and order. Of every (stream, frame) key, the measurements already published, then those
   * still grouped, then the one in flight are exactly the measurements converted, each once and in order.
   */
  lemma {:induction false} Conservation(pluginsCount: nat, ops: seq<Op>, s: State, key: Key)
    requires Reaches(pluginsCount, ops, s)
    ensures HandedOver(s.published, key) + NodesAt(s.groups, key) + InFlightFor(s, key)
      == ConvertedFor(s.converted, key)
  {
    Invariant(pluginsCount, ops, s);
  }

  /** A message speaks of one frame and one stream hash only. */
  lemma {:induction false} MessagesAreHomogeneous(pluginsCount: nat, ops: seq<Op>, s: State, i: nat, j: nat)
    requires Reaches(pluginsCount, ops, s)
    requires i < |s.published| && j < |s.published[i].message.plugins|
    ensures
      var m := s.published[i].message;
      && m.plugins[j].frame == m.frame && Hash(m.plugins[j].streamId) == m.key.high
      && m.streamId == m.plugins[0].streamId
  {
    Invariant(pluginsCount, ops, s);
  }

  /**
   * Group sizes: a message sent because its group was full carries max(1, plugins_count) measurements, a
   * timeout message fewer; no pending group is empty or full.
   */
  lemma {:induction false} GroupSizes(pluginsCount: nat, ops: seq<Op>, s: State)
    requires Reaches(pluginsCount, ops, s)
    ensures forall k :: k in s.groups ==> 1 <= |s.groups[k].nodes| < pluginsCount
    ensures forall i :: 0 <= i < |s.published| ==>
      var size := |s.published[i].message.plugins|;
      if s.published[i].cause.GroupFull? then size == (if pluginsCount == 0 then 1 else pluginsCount)
      else 1 <= size < pluginsCount
  {
    Invariant(pluginsCount, ops, s);
  }

  /** Records are stored under their own request id, so a merge can only fail on a custom event. */
  lemma {:induction false} RequestIdsAlwaysMatch(pluginsCount: nat, ops: seq<Op>, s: State, t: Trace)
    requires Reaches(pluginsCount, ops, s)
    ensures forall k :: k in s.records ==> s.records[k].RequestId() == k
    ensures MergeFails(s.records, t) <==> t.RequestId() in s.records && t.eventType.Custom?
  {
    Invariant(pluginsCount, ops, s);
  }

  /** After a sweep no group is older than the threshold, and the unsigned age it was judged by is its true age. */
  lemma {:induction false} SweepLeavesOnlyFreshGroups(pluginsCount: nat, ops: seq<Op>, s: State, now: u64, s': State,
                                                      key: Key)
    requires Reaches(pluginsCount, ops, s) && Clock(ops) <= now && Swept(s, now, s')
    requires key in s.groups
    ensures Elapsed(s.groups[key].lastUpdated, now) == now - s.groups[key].lastUpdated
    ensures key in s'.groups <==> now - s.groups[key].lastUpdated <= 1100
    ensures key in s'.groups ==> s'.groups[key] == s.groups[key]
  {
    GroupsAlwaysOk(pluginsCount, ops, s);
    ElapsedForwards(s.groups[key].lastUpdated, now);
    var order :| StaleOrder(s.groups, now, order) && s' == AfterTimeouts(s, order);
    assert s'.groups == Without(s.groups, order);
    assert key in order <==> Stale(s.groups[key], now);
  }

  lemma GroupsAlwaysOk(pluginsCount: nat, ops: seq<Op>, s: State)
    requires Reaches(pluginsCount, ops, s)
    ensures GroupsOk(pluginsCount, Clock(ops), s.groups)
  {
    Invariant(pluginsCount, ops, s);
  }

  /** The observer is never blocked: a sweep is possible in every reachable state. */
  lemma SweepAlwaysPossible(pluginsCount: nat, ops: seq<Op>, s: State, now: u64) returns (s': State)
    requires Reaches(pluginsCount, ops, s) && Clock(ops) <= now
    ensures Step(pluginsCount, Clock(ops), s, Sweep(now), s')
  {
    Invariant(pluginsCount, ops, s);
    var order := StaleListing(s.groups, s.groups.Keys, now);
    s' := AfterTimeouts(s, order);
  }

  lemma StaleListing(groups: map<Key, Group>, keys: set<Key>, now: u64) returns (order: seq<Key>)
    requires keys <= groups.Keys
    ensures StaleKeys(groups, now, order)
    ensures forall k :: k in order <==> k in keys && Stale(groups[k], now)
    decreases keys
  {
    if keys == {} {
      order := [];
    } else {
      var key :| key in keys;
      order := StaleListing(groups, keys - {key}, now);
      if Stale(groups[key], now) {
        OneMoreStale(groups, now, order, key);
        order := order + [key];
      }
    }
  }

  /**
   * How a group can change in one step: the measurement in flight is appended, and the group's time is that of the
   * addition; otherwise a group that is still there is as it was.
   */
  lemma GroupsChange(pluginsCount: nat, clock: u64, s: State, op: Op, s': State, key: Key)
    requires Step(pluginsCount, clock, s, op, s') && key in s'.groups
    ensures
      if op.Add? && key == Key(Hash(s.inFlight.value.node.streamId), s.inFlight.value.node.frame) then
        && s'.groups[key].nodes == (if key in s.groups then s.groups[key].nodes else []) + [s.inFlight.value.node]
        && s'.groups[key].lastUpdated == op.now
      else key in s.groups && s'.groups[key] == s.groups[key]
  {
  }
}
