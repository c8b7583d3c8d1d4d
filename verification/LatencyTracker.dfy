/**
 * The input dispatcher's latency tracker: it follows every dispatched input event
 * until it is old enough ("mature"), merges the completion reports the receiving
 * connections send for it, and then hands the finished timeline to a processor.
 *
 * Two structures are kept side by side: `timelines`, from input event id to its
 * timeline, and `eventTimes`, the multimap from event time to id used to find the
 * oldest events. `Valid` is the invariant that ties them together.
 */
module LatencyTracker {
  import opened Wrappers
  import opened EventTimes

  // Raw action codes of the Android NDK input header.
  const AMOTION_EVENT_ACTION_MASK: bv32 := 0xff
  const AMOTION_EVENT_ACTION_DOWN: bv32 := 0
  const AMOTION_EVENT_ACTION_UP: bv32 := 1
  const AMOTION_EVENT_ACTION_MOVE: bv32 := 2
  const AMOTION_EVENT_ACTION_HOVER_MOVE: bv32 := 7
  const AMOTION_EVENT_ACTION_SCROLL: bv32 := 8
  const AKEY_EVENT_ACTION_DOWN: bv32 := 0
  const AKEY_EVENT_ACTION_UP: bv32 := 1

  /** The identity of a connected input device, as `InputDeviceInfo` reports it. */
  datatype InputDeviceInfo = InputDeviceInfo(id: int, vendor: int, product: int)

  datatype InputEventType = Motion | Key | OtherEventType

  datatype InputEventActionType =
    | MotionActionDown | MotionActionMove | MotionActionUp | MotionActionHoverMove
    | MotionActionScroll | KeyAction | UnknownInputEvent

  datatype DispatchTimeline = DispatchTimeline(deliveryTime: int, consumeTime: int, finishTime: int)

  /** The per-connection record: a dispatch part and a graphics part, each set at most once. */
  datatype ConnectionTimeline = ConnectionTimeline(
    dispatch: Option<DispatchTimeline>,
    graphics: Option<seq<int>>)

  /** The record one input event accumulates; the connection map is keyed by the
      connection token. Usage sources are opaque tags. */
  datatype InputEventTimeline = InputEventTimeline(
    eventTime: int,
    readTime: int,
    vendorId: int,
    productId: int,
    sources: set<int>,
    actionType: InputEventActionType,
    connections: map<int, ConnectionTimeline>)

  datatype Tracker = Tracker(
    anrTimeout: int,
    timelines: map<int, InputEventTimeline>,
    eventTimes: seq<Entry>,
    inputDevices: seq<InputDeviceInfo>)

  /** A tracker after an operation, with the timelines it handed to the processor, in order. */
  datatype Step = Step(tracker: Tracker, reported: seq<InputEventTimeline>)

  /** `ConnectionTimeline::setDispatchTimeline` and `setGraphicsTimeline` are not part of
      this model: they are passed in, and `None` stands for a failed merge. */
  type DispatchMerge = (ConnectionTimeline, DispatchTimeline) -> Option<ConnectionTimeline>
  type GraphicsMerge = (ConnectionTimeline, seq<int>) -> Option<ConnectionTimeline>

  /** Every id in `timelines` is the value of exactly one `eventTimes` entry and every entry's
      id is tracked, under the same event time; the multimap is in time order. */
  ghost predicate Valid(t: Tracker) {
    && Sorted(t.eventTimes)
    && (forall id :: IdsOf(t.eventTimes)[id] == if id in t.timelines then 1 else 0)
    && (forall e :: e in t.eventTimes ==>
          e.id in t.timelines && t.timelines[e.id].eventTime == e.eventTime)
  }

  /** A new tracker: nothing tracked, no device known. */
  function NewTracker(anrTimeout: int): (t: Tracker)
    ensures Valid(t)
    ensures t.timelines == map[] && t.eventTimes == []
  {
    Tracker(anrTimeout, map[], [], [])
  }

  /** `isMatureEvent`: strictly older than the timeout. */
  predicate IsMatureEvent(eventTime: int, now: int, anrTimeout: int) {
    now - eventTime > anrTimeout
  }

  /** Maturity only grows as time passes, and older events mature first. */
  lemma MaturityMonotone(eventTime: int, eventTime': int, now: int, now': int, anrTimeout: int)
    requires IsMatureEvent(eventTime, now, anrTimeout)
    requires eventTime' <= eventTime && now <= now'
    ensures IsMatureEvent(eventTime', now', anrTimeout)
    ensures !IsMatureEvent(eventTime, eventTime + anrTimeout, anrTimeout)
  {
  }

  /** `reportAndPruneMatureRecords(now)`: report and drop entries from the oldest on, while
      they are mature. The model stops where the source aborts (an entry without a timeline),
      which `Valid` rules out. */
  function Prune(t: Tracker, now: int): (r: Step)
    ensures r.tracker.anrTimeout == t.anrTimeout && r.tracker.inputDevices == t.inputDevices
    ensures |r.tracker.eventTimes| <= |t.eventTimes|
    ensures r.tracker.eventTimes == t.eventTimes[|t.eventTimes| - |r.tracker.eventTimes|..]
    ensures |r.reported| == |t.eventTimes| - |r.tracker.eventTimes|
    ensures forall id :: id in r.tracker.timelines ==>
              id in t.timelines && r.tracker.timelines[id] == t.timelines[id]
    decreases |t.eventTimes|
  {
    if t.eventTimes == [] then Step(t, [])
    else
      var oldest := t.eventTimes[0];
      if !IsMatureEvent(oldest.eventTime, now, t.anrTimeout) || oldest.id !in t.timelines then
        Step(t, [])
      else
        var timeline := t.timelines[oldest.id];
        var rest := Prune(t.(timelines := t.timelines - {oldest.id},
                             eventTimes := t.eventTimes[1..]), now);
        Step(rest.tracker, [timeline] + rest.reported)
  }

  /** Dropping the oldest entry together with its timeline keeps the invariant. */
  lemma DropOldestValid(t: Tracker)
    requires Valid(t) && t.eventTimes != []
    ensures Valid(t.(timelines := t.timelines - {t.eventTimes[0].id},
                     eventTimes := t.eventTimes[1..]))
  {
    var s := t.eventTimes;
    var head := s[0];
    assert head in s;
    assert IdsOf(s) == multiset{head.id} + IdsOf(s[1..]);
    forall e | e in s[1..]
      ensures e.id != head.id
    {
      IdsOfMember(s[1..], e);
    }
  }

  /** In a time-ordered multimap whose oldest entry is immature, every entry is. */
  lemma OldestImmatureAllImmature(s: seq<Entry>, now: int, anrTimeout: int)
    requires Sorted(s) && s != [] && !IsMatureEvent(s[0].eventTime, now, anrTimeout)
    ensures forall e :: e in s ==> now - e.eventTime <= anrTimeout
  {
    forall e | e in s
      ensures now - e.eventTime <= anrTimeout
    {
      var i :| 0 <= i < |s| && s[i] == e;
      assert s[0].eventTime <= s[i].eventTime;
    }
  }

  /** The pruning postcondition on the state: the invariant still holds, every remaining
      entry is immature, and an entry's timeline is gone exactly when the entry was mature. */
  lemma {:induction false} PruneKeepsImmature(t: Tracker, now: int)
    requires Valid(t)
    ensures var r := Prune(t, now).tracker;
      && Valid(r)
      && (forall e :: e in r.eventTimes ==> now - e.eventTime <= t.anrTimeout)
      && (forall e :: e in t.eventTimes ==>
            (e.id in r.timelines <==> !IsMatureEvent(e.eventTime, now, t.anrTimeout)))
    decreases |t.eventTimes|
  {
    if t.eventTimes == [] {
      return;
    }
    var s := t.eventTimes;
    var oldest := s[0];
    assert oldest in s;
    if !IsMatureEvent(oldest.eventTime, now, t.anrTimeout) {
      OldestImmatureAllImmature(s, now, t.anrTimeout);
      return;
    }
    var t1 := t.(timelines := t.timelines - {oldest.id}, eventTimes := s[1..]);
    DropOldestValid(t);
    PruneKeepsImmature(t1, now);
    var r := Prune(t, now).tracker;
    assert r == Prune(t1, now).tracker;
    forall e | e in s
      ensures e.id in r.timelines <==> !IsMatureEvent(e.eventTime, now, t.anrTimeout)
    {
      if e == oldest {
        assert oldest.id !in t1.timelines;
      } else {
        assert e in s[1..];
      }
    }
  }

  /** The pruning postcondition on the reports: the i-th report is the timeline of the
      i-th oldest entry, which was mature. */
  lemma {:induction false} PruneReportsOldestFirst(t: Tracker, now: int)
    requires Valid(t)
    ensures var r := Prune(t, now);
      forall i :: 0 <= i < |r.reported| ==>
        && IsMatureEvent(t.eventTimes[i].eventTime, now, t.anrTimeout)
        && r.reported[i] == t.timelines[t.eventTimes[i].id]
        && r.reported[i].eventTime == t.eventTimes[i].eventTime
    decreases |t.eventTimes|
  {
    if t.eventTimes == [] {
      return;
    }
    var s := t.eventTimes;
    var oldest := s[0];
    assert oldest in s;
    if !IsMatureEvent(oldest.eventTime, now, t.anrTimeout) {
      return;
    }
    var t1 := t.(timelines := t.timelines - {oldest.id}, eventTimes := s[1..]);
    DropOldestValid(t);
    PruneReportsOldestFirst(t1, now);
    var r := Prune(t, now);
    var rest := Prune(t1, now);
    assert r.reported == [t.timelines[oldest.id]] + rest.reported;
    forall i | 0 < i < |r.reported|
      ensures IsMatureEvent(s[i].eventTime, now, t.anrTimeout)
      ensures r.reported[i] == t.timelines[s[i].id]
    {
      assert r.reported[i] == rest.reported[i - 1];
      assert s[i] == t1.eventTimes[i - 1];
      assert s[i] in s[1..];
    }
  }

  /** Reports come out in non-decreasing event-time order. */
  lemma PruneReportsInTimeOrder(t: Tracker, now: int)
    requires Valid(t)
    ensures var r := Prune(t, now);
      forall i, j :: 0 <= i < j < |r.reported| ==> r.reported[i].eventTime <= r.reported[j].eventTime
  {
    PruneReportsOldestFirst(t, now);
  }

  /** The first device in the list with the given id. */
  function FindDevice(devices: seq<InputDeviceInfo>, deviceId: int): (r: Option<InputDeviceInfo>)
    ensures r.None? <==> forall i :: 0 <= i < |devices| ==> devices[i].id != deviceId
    ensures r.Some? ==> exists i :: 0 <= i < |devices| && devices[i] == r.value
                          && forall j :: 0 <= j < i ==> devices[j].id != deviceId
    ensures r.Some? ==> r.value.id == deviceId
  {
    if devices == [] then None
    else if devices[0].id == deviceId then Some(devices[0])
    else
      var r := FindDevice(devices[1..], deviceId);
      if r.Some? then
        var i :| 0 <= i < |devices[1..]| && devices[1..][i] == r.value
                 && forall j :: 0 <= j < i ==> devices[1..][j].id != deviceId;
        assert devices[i + 1] == r.value;
        r
      else r
  }

  /** The action classification of `trackListener`. */
  function ClassifyAction(eventType: InputEventType, action: bv32): (c: InputEventActionType)
    ensures c == MotionActionDown <==>
              eventType == Motion && action & AMOTION_EVENT_ACTION_MASK == AMOTION_EVENT_ACTION_DOWN
    ensures c == MotionActionMove <==>
              eventType == Motion && action & AMOTION_EVENT_ACTION_MASK == AMOTION_EVENT_ACTION_MOVE
    ensures c == MotionActionUp <==>
              eventType == Motion && action & AMOTION_EVENT_ACTION_MASK == AMOTION_EVENT_ACTION_UP
    ensures c == MotionActionHoverMove <==>
              eventType == Motion && action & AMOTION_EVENT_ACTION_MASK == AMOTION_EVENT_ACTION_HOVER_MOVE
    ensures c == MotionActionScroll <==>
              eventType == Motion && action & AMOTION_EVENT_ACTION_MASK == AMOTION_EVENT_ACTION_SCROLL
    ensures c == KeyAction <==>
              eventType == Key && (action == AKEY_EVENT_ACTION_DOWN || action == AKEY_EVENT_ACTION_UP)
  {
    match eventType
    case Motion =>
      var masked := action & AMOTION_EVENT_ACTION_MASK;
      if masked == AMOTION_EVENT_ACTION_DOWN then MotionActionDown
      else if masked == AMOTION_EVENT_ACTION_MOVE then MotionActionMove
      else if masked == AMOTION_EVENT_ACTION_UP then MotionActionUp
      else if masked == AMOTION_EVENT_ACTION_HOVER_MOVE then MotionActionHoverMove
      else if masked == AMOTION_EVENT_ACTION_SCROLL then MotionActionScroll
      else UnknownInputEvent
    case Key =>
      if action == AKEY_EVENT_ACTION_DOWN || action == AKEY_EVENT_ACTION_UP then KeyAction
      else UnknownInputEvent
    case OtherEventType => UnknownInputEvent
  }

  /** `trackListener`: prune with the new event time as "now"; a duplicate id drops the
      existing record and the new one; an unknown device drops the new one; otherwise
      the new timeline goes into both structures. */
  function TrackListener(t: Tracker, inputEventId: int, eventTime: int, readTime: int,
                         deviceId: int, sources: set<int>, action: bv32,
                         eventType: InputEventType): (r: Step)
    ensures r.reported == Prune(t, eventTime).reported
    ensures r.tracker.anrTimeout == t.anrTimeout && r.tracker.inputDevices == t.inputDevices
    ensures inputEventId in Prune(t, eventTime).tracker.timelines ==>
              inputEventId !in r.tracker.timelines
    ensures FindDevice(t.inputDevices, deviceId).None? ==> inputEventId !in r.tracker.timelines
  {
    var pruned := Prune(t, eventTime);
    var p := pruned.tracker;
    if inputEventId in p.timelines then
      Step(p.(timelines := p.timelines - {inputEventId},
              eventTimes := EraseByValue(p.eventTimes, inputEventId)),
           pruned.reported)
    else
      match FindDevice(p.inputDevices, deviceId)
      case None => pruned
      case Some(device) =>
        var timeline := InputEventTimeline(eventTime, readTime, device.vendor, device.product,
                                           sources, ClassifyAction(eventType, action), map[]);
        Step(p.(timelines := p.timelines[inputEventId := timeline],
                eventTimes := Emplace(p.eventTimes, Entry(eventTime, inputEventId))),
             pruned.reported)
  }

  /** Erasing an id from both structures keeps the invariant. */
  lemma EraseKeepsValid(p: Tracker, id: int)
    requires Valid(p)
    ensures Valid(p.(timelines := p.timelines - {id}, eventTimes := EraseByValue(p.eventTimes, id)))
  {
    EraseByValueIds(p.eventTimes, id);
    EraseByValueKeepsOrder(p.eventTimes, id);
  }

  /** Inserting an untracked id into both structures, under one event time, keeps it. */
  lemma InsertKeepsValid(p: Tracker, id: int, timeline: InputEventTimeline)
    requires Valid(p) && id !in p.timelines
    ensures Valid(p.(timelines := p.timelines[id := timeline],
                     eventTimes := Emplace(p.eventTimes, Entry(timeline.eventTime, id))))
  {
    var s' := Emplace(p.eventTimes, Entry(timeline.eventTime, id));
    InsertKeepsCounts(p, id, timeline, s');
    InsertKeepsEntries(p, id, timeline, s');
  }

  lemma InsertKeepsCounts(p: Tracker, id: int, timeline: InputEventTimeline, s': seq<Entry>)
    requires Valid(p) && id !in p.timelines
    requires s' == Emplace(p.eventTimes, Entry(timeline.eventTime, id))
    ensures forall x :: IdsOf(s')[x] == if x in p.timelines[id := timeline] then 1 else 0
  {
    var timelines' := p.timelines[id := timeline];
    assert IdsOf(s') == IdsOf(p.eventTimes) + multiset{id};
    forall x
      ensures IdsOf(s')[x] == if x in timelines' then 1 else 0
    {
      assert IdsOf(p.eventTimes)[x] == if x in p.timelines then 1 else 0;
    }
  }

  lemma InsertKeepsEntries(p: Tracker, id: int, timeline: InputEventTimeline, s': seq<Entry>)
    requires Valid(p) && id !in p.timelines
    requires s' == Emplace(p.eventTimes, Entry(timeline.eventTime, id))
    ensures forall e :: e in s' ==>
              e.id in p.timelines[id := timeline] && p.timelines[id := timeline][e.id].eventTime == e.eventTime
  {
    var entry := Entry(timeline.eventTime, id);
    var timelines' := p.timelines[id := timeline];
    forall e | e in s'
      ensures e.id in timelines' && timelines'[e.id].eventTime == e.eventTime
    {
      assert e in multiset(s');
      if e != entry {
        assert e in multiset(p.eventTimes);
        assert e in p.eventTimes;
      }
    }
  }

  /** `trackListener` keeps the invariant. */
  lemma TrackListenerValid(t: Tracker, inputEventId: int, eventTime: int, readTime: int,
                           deviceId: int, sources: set<int>, action: bv32,
                           eventType: InputEventType)
    requires Valid(t)
    ensures Valid(TrackListener(t, inputEventId, eventTime, readTime, deviceId, sources,
                                action, eventType).tracker)
  {
    PruneKeepsImmature(t, eventTime);
    var p := Prune(t, eventTime).tracker;
    if inputEventId in p.timelines {
      EraseKeepsValid(p, inputEventId);
    } else {
      match FindDevice(p.inputDevices, deviceId)
      case None =>
      case Some(device) =>
        InsertKeepsValid(p, inputEventId, InputEventTimeline(eventTime, readTime, device.vendor,
          device.product, sources, ClassifyAction(eventType, action), map[]));
    }
  }

  /** A repeated id: the tracked record is dropped from both structures, the new one is
      not inserted, whatever the device, and nothing else changes. */
  lemma TrackListenerDuplicate(t: Tracker, inputEventId: int, eventTime: int, readTime: int,
                               deviceId: int, sources: set<int>, action: bv32,
                               eventType: InputEventType)
    requires Valid(t)
    requires inputEventId in Prune(t, eventTime).tracker.timelines
    ensures var r := TrackListener(t, inputEventId, eventTime, readTime, deviceId, sources,
                                   action, eventType).tracker;
      var p := Prune(t, eventTime).tracker;
      && r.timelines == p.timelines - {inputEventId}
      && inputEventId !in IdsOf(r.eventTimes)
      && (forall e :: e in r.eventTimes <==> e in p.eventTimes && e.id != inputEventId)
  {
    var p := Prune(t, eventTime).tracker;
    EraseByValueIds(p.eventTimes, inputEventId);
  }

  /** An unknown device: after pruning, nothing is inserted. */
  lemma TrackListenerUnknownDevice(t: Tracker, inputEventId: int, eventTime: int, readTime: int,
                                   deviceId: int, sources: set<int>, action: bv32,
                                   eventType: InputEventType)
    requires inputEventId !in Prune(t, eventTime).tracker.timelines
    requires forall i :: 0 <= i < |t.inputDevices| ==> t.inputDevices[i].id != deviceId
    ensures TrackListener(t, inputEventId, eventTime, readTime, deviceId, sources, action,
                          eventType) == Prune(t, eventTime)
  {
  }

  /** A new id from a known device: the timeline is inserted with the identity of the first
      device in the list with that id, and the classified action, and one entry for it joins
      the multimap. */
  lemma TrackListenerInserts(t: Tracker, inputEventId: int, eventTime: int, readTime: int,
                             device: InputDeviceInfo, sources: set<int>, action: bv32,
                             eventType: InputEventType)
    requires Valid(t)
    requires inputEventId !in Prune(t, eventTime).tracker.timelines
    requires FindDevice(t.inputDevices, device.id) == Some(device)
    ensures var r := TrackListener(t, inputEventId, eventTime, readTime, device.id, sources,
                                   action, eventType).tracker;
      var p := Prune(t, eventTime).tracker;
      && r.timelines == p.timelines[inputEventId := InputEventTimeline(
           eventTime, readTime, device.vendor, device.product, sources,
           ClassifyAction(eventType, action), map[])]
      && multiset(r.eventTimes) == multiset(p.eventTimes) + multiset{Entry(eventTime, inputEventId)}
      && IdsOf(r.eventTimes)[inputEventId] == 1
  {
    var p := Prune(t, eventTime).tracker;
    PruneKeepsImmature(t, eventTime);
    var found := FindDevice(p.inputDevices, device.id);
    assert found.Some?;
    assert IdsOf(p.eventTimes)[inputEventId] == 0;
  }

  /** The shared shape of the two completion signals: ignore an unknown event; add the
      connection's record if it has none; otherwise merge, and drop that connection's record
      if the merge fails. */
  function MergeConnection(t: Tracker, inputEventId: int, connectionToken: int,
                           created: ConnectionTimeline,
                           merged: ConnectionTimeline -> Option<ConnectionTimeline>): (r: Tracker)
    ensures r.eventTimes == t.eventTimes && r.anrTimeout == t.anrTimeout
    ensures r.inputDevices == t.inputDevices && r.timelines.Keys == t.timelines.Keys
    ensures inputEventId !in t.timelines ==> r == t
    ensures forall id :: id in t.timelines && id != inputEventId ==> r.timelines[id] == t.timelines[id]
    ensures inputEventId in t.timelines ==>
      var before := t.timelines[inputEventId];
      var after := r.timelines[inputEventId];
      && after == before.(connections := after.connections)
      && (forall c :: c in before.connections && c != connectionToken ==>
            c in after.connections && after.connections[c] == before.connections[c])
      && (forall c :: c in after.connections && c != connectionToken ==> c in before.connections)
      && (connectionToken !in before.connections ==>
            connectionToken in after.connections && after.connections[connectionToken] == created)
      && (connectionToken in before.connections ==>
            match merged(before.connections[connectionToken])
            case None => connectionToken !in after.connections
            case Some(c) => connectionToken in after.connections && after.connections[connectionToken] == c)
  {
    if inputEventId !in t.timelines then t
    else
      var timeline := t.timelines[inputEventId];
      var connections :=
        if connectionToken !in timeline.connections then timeline.connections[connectionToken := created]
        else match merged(timeline.connections[connectionToken])
             case Some(c) => timeline.connections[connectionToken := c]
             case None => timeline.connections - {connectionToken};
      t.(timelines := t.timelines[inputEventId := timeline.(connections := connections)])
  }

  /** `trackFinishedEvent`. */
  function TrackFinishedEvent(t: Tracker, inputEventId: int, connectionToken: int,
                              deliveryTime: int, consumeTime: int, finishTime: int,
                              setDispatchTimeline: DispatchMerge): (r: Tracker)
    ensures inputEventId !in t.timelines ==> r == t
    ensures r.eventTimes == t.eventTimes && r.timelines.Keys == t.timelines.Keys
  {
    var dispatch := DispatchTimeline(deliveryTime, consumeTime, finishTime);
    MergeConnection(t, inputEventId, connectionToken, ConnectionTimeline(Some(dispatch), None),
                    c => setDispatchTimeline(c, dispatch))
  }

  /** `trackGraphicsLatency`. */
  function TrackGraphicsLatency(t: Tracker, inputEventId: int, connectionToken: int,
                                graphicsTimeline: seq<int>,
                                setGraphicsTimeline: GraphicsMerge): (r: Tracker)
    ensures inputEventId !in t.timelines ==> r == t
    ensures r.eventTimes == t.eventTimes && r.timelines.Keys == t.timelines.Keys
  {
    MergeConnection(t, inputEventId, connectionToken, ConnectionTimeline(None, Some(graphicsTimeline)),
                    c => setGraphicsTimeline(c, graphicsTimeline))
  }

  /** A failed merge drops only that connection's record: the event stays tracked and its
      other connections are untouched. */
  lemma FailedMergeDropsOneConnection(t: Tracker, inputEventId: int, connectionToken: int,
                                      deliveryTime: int, consumeTime: int, finishTime: int,
                                      setDispatchTimeline: DispatchMerge)
    requires inputEventId in t.timelines
    requires connectionToken in t.timelines[inputEventId].connections
    requires setDispatchTimeline(t.timelines[inputEventId].connections[connectionToken],
                                 DispatchTimeline(deliveryTime, consumeTime, finishTime)).None?
    ensures var r := TrackFinishedEvent(t, inputEventId, connectionToken, deliveryTime,
                                        consumeTime, finishTime, setDispatchTimeline);
      r.timelines[inputEventId].connections
        == t.timelines[inputEventId].connections - {connectionToken}
  {
    var r := TrackFinishedEvent(t, inputEventId, connectionToken, deliveryTime,
                                consumeTime, finishTime, setDispatchTimeline);
    var before := t.timelines[inputEventId].connections;
    var after := r.timelines[inputEventId].connections;
    assert after.Keys == before.Keys - {connectionToken};
  }

  /** The same for a failed graphics-timeline merge. */
  lemma FailedGraphicsMergeDropsOneConnection(t: Tracker, inputEventId: int, connectionToken: int,
                                              graphicsTimeline: seq<int>, setGraphicsTimeline: GraphicsMerge)
    requires inputEventId in t.timelines
    requires connectionToken in t.timelines[inputEventId].connections
    requires setGraphicsTimeline(t.timelines[inputEventId].connections[connectionToken], graphicsTimeline).None?
    ensures var r := TrackGraphicsLatency(t, inputEventId, connectionToken, graphicsTimeline, setGraphicsTimeline);
      r.timelines[inputEventId].connections
        == t.timelines[inputEventId].connections - {connectionToken}
  {
    var r := TrackGraphicsLatency(t, inputEventId, connectionToken, graphicsTimeline, setGraphicsTimeline);
    var before := t.timelines[inputEventId].connections;
    var after := r.timelines[inputEventId].connections;
    assert after.Keys == before.Keys - {connectionToken};
  }

  /** The completion signals keep the invariant. */
  lemma CompletionSignalsValid(t: Tracker, inputEventId: int, connectionToken: int,
                               deliveryTime: int, consumeTime: int, finishTime: int,
                               graphicsTimeline: seq<int>,
                               setDispatchTimeline: DispatchMerge, setGraphicsTimeline: GraphicsMerge)
    requires Valid(t)
    ensures Valid(TrackFinishedEvent(t, inputEventId, connectionToken, deliveryTime, consumeTime,
                                     finishTime, setDispatchTimeline))
    ensures Valid(TrackGraphicsLatency(t, inputEventId, connectionToken, graphicsTimeline,
                                       setGraphicsTimeline))
  {
  }

  /** `setInputDevices`: the device list is replaced wholesale. */
  function SetInputDevices(t: Tracker, inputDevices: seq<InputDeviceInfo>): (r: Tracker)
    ensures r.inputDevices == inputDevices
    ensures r.timelines == t.timelines && r.eventTimes == t.eventTimes && r.anrTimeout == t.anrTimeout
    ensures Valid(t) ==> Valid(r)
  {
    t.(inputDevices := inputDevices)
  }
}
