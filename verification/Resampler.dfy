/**
 * The legacy motion-event resampler. Once per frame it may append one synthetic sample
 * to a motion event: interpolated towards a future sample when one has arrived,
 * otherwise extrapolated from the two latest samples it has seen.
 *
 * Times are integer nanoseconds; coordinates are `real`, so float rounding is not
 * modelled.
 */
module Resampler {
  import opened Wrappers

  const MILLIS: int := 1_000_000
  const RESAMPLE_MIN_DELTA: int := 2 * MILLIS
  const RESAMPLE_MAX_DELTA: int := 20 * MILLIS
  const RESAMPLE_MAX_PREDICTION: int := 8 * MILLIS

  /** The ring buffer of latest samples holds at most this many. */
  const LATEST_SAMPLES_CAPACITY: nat := 2

  // Axis numbers of the Android NDK input header.
  const AXIS_X: nat := 0
  const AXIS_Y: nat := 1

  /** Axis values of one pointer; an axis that was never set reads as zero. */
  datatype PointerCoords = PointerCoords(axes: map<nat, real>, isResampled: bool)

  function GetAxis(c: PointerCoords, axis: nat): real {
    if axis in c.axes then c.axes[axis] else 0.0
  }

  function SetAxis(c: PointerCoords, axis: nat, value: real): (r: PointerCoords)
    ensures GetAxis(r, axis) == value
    ensures forall other :: other != axis ==> GetAxis(r, other) == GetAxis(c, other)
    ensures r.isResampled == c.isResampled
  {
    c.(axes := c.axes[axis := value])
  }

  datatype PointerProperties = PointerProperties(id: int, toolType: int)

  datatype Pointer = Pointer(properties: PointerProperties, coords: PointerCoords)

  datatype Sample = Sample(eventTime: int, pointer: Pointer)

  /** A motion event. Its coordinates are stored sample by sample, all pointers of a
      sample together, as `MotionEvent` stores them. */
  datatype MotionEvent = MotionEvent(
    id: int,
    deviceId: int,
    action: int,
    flags: int,
    pointerProperties: seq<PointerProperties>,
    sampleEventTimes: seq<int>,
    samplePointerCoords: seq<PointerCoords>)
  {
    function PointerCount(): nat { |pointerProperties| }
    function SampleCount(): nat { |sampleEventTimes| }
  }

  /** Every motion event has a pointer and a sample, and a coordinate per pointer per sample. */
  ghost predicate WellFormed(e: MotionEvent) {
    && e.PointerCount() >= 1
    && e.SampleCount() >= 1
    && |e.samplePointerCoords| == e.PointerCount() * e.SampleCount()
  }

  function LatestEventTime(e: MotionEvent): int
    requires e.SampleCount() >= 1
  {
    e.sampleEventTimes[e.SampleCount() - 1]
  }

  /** The part of an `InputMessage` the resampler reads: the event time and the
      coordinates of the message's first pointer. */
  datatype FutureSample = FutureSample(eventTime: int, firstPointerCoords: PointerCoords)

  /** The resampler's state: the device of the previous event and the ring buffer of the
      latest samples, oldest first. */
  datatype LegacyResampler = LegacyResampler(previousDeviceId: Option<int>, latestSamples: seq<Sample>)

  ghost predicate ValidResampler(r: LegacyResampler) {
    |r.latestSamples| <= LATEST_SAMPLES_CAPACITY
  }

  function NewResampler(): (r: LegacyResampler)
    ensures ValidResampler(r) && r.previousDeviceId.None? && r.latestSamples == []
  {
    LegacyResampler(None, [])
  }

  /** The last `LATEST_SAMPLES_CAPACITY` samples of a history (all of it when shorter). */
  function Latest(history: seq<Sample>): seq<Sample> {
    if |history| <= LATEST_SAMPLES_CAPACITY then history
    else history[|history| - LATEST_SAMPLES_CAPACITY..]
  }

  /** `RingBuffer::pushBack` on a full buffer drops the oldest sample. */
  function PushBack(buffer: seq<Sample>, s: Sample): (r: seq<Sample>)
    requires |buffer| <= LATEST_SAMPLES_CAPACITY
    ensures r == Latest(buffer + [s])
    ensures |r| <= LATEST_SAMPLES_CAPACITY && r[|r| - 1] == s
  {
    if |buffer| < LATEST_SAMPLES_CAPACITY then buffer + [s] else buffer[1..] + [s]
  }

  /** Pushes the samples one after another, oldest first. */
  function PushAll(buffer: seq<Sample>, samples: seq<Sample>): (r: seq<Sample>)
    requires |buffer| <= LATEST_SAMPLES_CAPACITY
    ensures |r| <= LATEST_SAMPLES_CAPACITY
    decreases |samples|
  {
    if samples == [] then buffer else PushAll(PushBack(buffer, samples[0]), samples[1..])
  }

  /** However the samples arrive, split over events or not, the buffer ends up holding the
      latest ones of the whole history, in order. */
  lemma {:induction false} PushAllKeepsLatest(buffer: seq<Sample>, samples: seq<Sample>)
    requires |buffer| <= LATEST_SAMPLES_CAPACITY
    ensures PushAll(buffer, samples) == Latest(buffer + samples)
    decreases |samples|
  {
    if samples == [] {
      assert buffer + samples == buffer;
    } else {
      var pushed := PushBack(buffer, samples[0]);
      PushAllKeepsLatest(pushed, samples[1..]);
      PushAllStep(buffer, samples);
    }
  }

  /** The inductive step: pushing the first sample and then the rest gives the latest
      samples of the whole history, once the rest is known to do so. */
  lemma PushAllStep(buffer: seq<Sample>, samples: seq<Sample>)
    requires |buffer| <= LATEST_SAMPLES_CAPACITY && samples != []
    requires PushAll(PushBack(buffer, samples[0]), samples[1..])
             == Latest(PushBack(buffer, samples[0]) + samples[1..])
    ensures PushAll(buffer, samples) == Latest(buffer + samples)
  {
    var first, rest := samples[0], samples[1..];
    var pushed := PushBack(buffer, first);
    assert PushAll(buffer, samples) == PushAll(pushed, rest);
    assert pushed == Latest(buffer + [first]);
    LatestOfLatest(buffer + [first], rest);
    assert Latest(pushed + rest) == Latest((buffer + [first]) + rest);
    AppendFirst(buffer, samples);
  }

  lemma AppendFirst<T>(a: seq<T>, s: seq<T>)
    requires s != []
    ensures (a + [s[0]]) + s[1..] == a + s
  {
    assert s == [s[0]] + s[1..];
  }

  lemma LatestOfLatest(a: seq<Sample>, b: seq<Sample>)
    ensures Latest(Latest(a) + b) == Latest(a + b)
  {
    if |a| > LATEST_SAMPLES_CAPACITY {
      var k := |a| - LATEST_SAMPLES_CAPACITY;
      assert a + b == a[..k] + (Latest(a) + b);
      assert (a + b)[k..] == Latest(a) + b;
    }
  }

  /** The samples an event contributes to the buffer: pointer 0 of each sample. */
  function EventSamples(e: MotionEvent): (r: seq<Sample>)
    requires WellFormed(e)
    ensures |r| == e.SampleCount()
    ensures forall i :: 0 <= i < |r| ==>
              r[i].eventTime == e.sampleEventTimes[i]
              && r[i].pointer.properties == e.pointerProperties[0]
              && r[i].pointer.coords == e.samplePointerCoords[i * e.PointerCount()]
  {
    seq(e.SampleCount(), i requires 0 <= i < e.SampleCount() =>
      SampleOfPointerZero(e, i))
  }

  function SampleOfPointerZero(e: MotionEvent, i: nat): Sample
    requires WellFormed(e) && i < e.SampleCount()
  {
    IndexInRange(e.PointerCount(), e.SampleCount(), i);
    Sample(e.sampleEventTimes[i],
           Pointer(e.pointerProperties[0], e.samplePointerCoords[i * e.PointerCount()]))
  }

  lemma IndexInRange(pointerCount: nat, sampleCount: nat, i: nat)
    requires pointerCount >= 1 && i < sampleCount
    ensures i * pointerCount < pointerCount * sampleCount
  {
    assert i * pointerCount <= (sampleCount - 1) * pointerCount;
  }

  /** `updateLatestSamples`, with the coordinates of pointer 0 of each sample. */
  function UpdateLatestSamples(buffer: seq<Sample>, e: MotionEvent): (r: seq<Sample>)
    requires |buffer| <= LATEST_SAMPLES_CAPACITY && WellFormed(e)
    ensures r == Latest(buffer + EventSamples(e))
    ensures r != [] && r[|r| - 1] == EventSamples(e)[e.SampleCount() - 1]
  {
    PushAllEndsWithLast(buffer, EventSamples(e), e.SampleCount() - 1);
    PushAll(buffer, EventSamples(e))
  }

  /** Pushing samples leaves the latest of the history, ending with the last one pushed. */
  lemma PushAllEndsWithLast(buffer: seq<Sample>, samples: seq<Sample>, last: nat)
    requires |buffer| <= LATEST_SAMPLES_CAPACITY && last + 1 == |samples|
    ensures var r := PushAll(buffer, samples);
            r == Latest(buffer + samples) && r != [] && r[|r| - 1] == samples[last]
  {
    PushAllKeepsLatest(buffer, samples);
    assert (buffer + samples)[|buffer + samples| - 1] == samples[last];
  }

  /** `updateLatestSamples` as written: it reads the i-th entry of the flat coordinate
      array, which is pointer 0 of sample i only when the event has a single pointer. */
  function UpdateLatestSamplesAsWritten(buffer: seq<Sample>, e: MotionEvent): (r: seq<Sample>)
    requires |buffer| <= LATEST_SAMPLES_CAPACITY && WellFormed(e)
    ensures |r| <= LATEST_SAMPLES_CAPACITY
  {
    assert e.SampleCount() <= |e.samplePointerCoords|;
    PushAll(buffer, seq(e.SampleCount(), i requires 0 <= i < e.SampleCount() =>
      Sample(e.sampleEventTimes[i], Pointer(e.pointerProperties[0], e.samplePointerCoords[i]))))
  }

  /** For single-pointer events the two readings agree. */
  lemma AsWrittenAgreesForOnePointer(buffer: seq<Sample>, e: MotionEvent)
    requires |buffer| <= LATEST_SAMPLES_CAPACITY && WellFormed(e) && e.PointerCount() == 1
    ensures UpdateLatestSamplesAsWritten(buffer, e) == UpdateLatestSamples(buffer, e)
  {
    var asWritten := seq(e.SampleCount(), i requires 0 <= i < e.SampleCount() =>
      Sample(e.sampleEventTimes[i], Pointer(e.pointerProperties[0], e.samplePointerCoords[i])));
    assert asWritten == EventSamples(e);
  }

  /** A two-pointer event with two samples: as written, the buffer's latest sample pairs the
      second sample's time with the first sample's second pointer. */
  lemma AsWrittenMisreadsMultiPointer()
    ensures var a := PointerCoords(map[AXIS_X := 1.0], false);
      var b := PointerCoords(map[AXIS_X := 2.0], false);
      var c := PointerCoords(map[AXIS_X := 3.0], false);
      var d := PointerCoords(map[AXIS_X := 4.0], false);
      var e := MotionEvent(0, 1, 2, 0, [PointerProperties(0, 1), PointerProperties(1, 1)],
                           [5 * MILLIS, 10 * MILLIS], [a, b, c, d]);
      && WellFormed(e)
      && |UpdateLatestSamplesAsWritten([], e)| == 2 && |UpdateLatestSamples([], e)| == 2
      && UpdateLatestSamplesAsWritten([], e)[1].pointer.coords == b
      && UpdateLatestSamples([], e)[1].pointer.coords == c
  {
    var a := PointerCoords(map[AXIS_X := 1.0], false);
    var b := PointerCoords(map[AXIS_X := 2.0], false);
    var c := PointerCoords(map[AXIS_X := 3.0], false);
    var d := PointerCoords(map[AXIS_X := 4.0], false);
    var e := MotionEvent(0, 1, 2, 0, [PointerProperties(0, 1), PointerProperties(1, 1)],
                         [5 * MILLIS, 10 * MILLIS], [a, b, c, d]);
    var asWritten := seq(e.SampleCount(), i requires 0 <= i < e.SampleCount() =>
      Sample(e.sampleEventTimes[i], Pointer(e.pointerProperties[0], e.samplePointerCoords[i])));
    PushAllKeepsLatest([], asWritten);
    assert [] + asWritten == asWritten;
    var corrected := EventSamples(e);
    assert [] + corrected == corrected;
    assert corrected[1].pointer.coords == e.samplePointerCoords[2];
  }

  /** `lerp`: the point a fraction alpha of the way from a to b; it runs through both ends. */
  function Lerp(a: real, b: real, alpha: real): (r: real)
    ensures alpha == 0.0 ==> r == a
    ensures alpha == 1.0 ==> r == b
    ensures a == b ==> r == a
  {
    a + alpha * (b - a)
  }

  /** `calculateResampledCoords`: X and Y are interpolated, every other axis comes from
      the earlier sample while alpha is below one and from the later one after, and the
      result is marked as resampled. */
  function CalculateResampledCoords(a: PointerCoords, b: PointerCoords, alpha: real): (r: PointerCoords)
    ensures r.isResampled
    ensures GetAxis(r, AXIS_X) == Lerp(GetAxis(a, AXIS_X), GetAxis(b, AXIS_X), alpha)
    ensures GetAxis(r, AXIS_Y) == Lerp(GetAxis(a, AXIS_Y), GetAxis(b, AXIS_Y), alpha)
    ensures forall axis :: axis != AXIS_X && axis != AXIS_Y ==>
              GetAxis(r, axis) == GetAxis(if alpha < 1.0 then a else b, axis)
  {
    var base := if alpha < 1.0 then a else b;
    var marked := base.(isResampled := true);
    var withX := SetAxis(marked, AXIS_X, Lerp(GetAxis(a, AXIS_X), GetAxis(b, AXIS_X), alpha));
    SetAxis(withX, AXIS_Y, Lerp(GetAxis(a, AXIS_Y), GetAxis(b, AXIS_Y), alpha))
  }

  /** `canInterpolate`: the future sample is far enough after the latest one. */
  predicate CanInterpolate(buffer: seq<Sample>, future: FutureSample)
    requires buffer != []
  {
    future.eventTime - buffer[|buffer| - 1].eventTime >= RESAMPLE_MIN_DELTA
  }

  /** `attemptInterpolation`: a sample at exactly the resample time, between the latest
      sample and the future one. */
  function AttemptInterpolation(buffer: seq<Sample>, resampleTime: int, future: FutureSample): (r: Option<Sample>)
    requires buffer != []
    ensures r.Some? <==> CanInterpolate(buffer, future)
    ensures r.Some? ==>
      var past := buffer[|buffer| - 1];
      var alpha := (resampleTime - past.eventTime) as real / (future.eventTime - past.eventTime) as real;
      && r.value.eventTime == resampleTime
      && r.value.pointer.properties == past.pointer.properties
      && r.value.pointer.coords == CalculateResampledCoords(past.pointer.coords, future.firstPointerCoords, alpha)
  {
    if !CanInterpolate(buffer, future) then None
    else
      var past := buffer[|buffer| - 1];
      var delta := future.eventTime - past.eventTime;
      var alpha := (resampleTime - past.eventTime) as real / delta as real;
      Some(Sample(resampleTime,
                  Pointer(past.pointer.properties,
                          CalculateResampledCoords(past.pointer.coords, future.firstPointerCoords, alpha))))
  }

  /** `canExtrapolate`: two samples, between 2 ms and 20 ms apart. */
  predicate CanExtrapolate(buffer: seq<Sample>) {
    && |buffer| >= 2
    && RESAMPLE_MIN_DELTA <= buffer[|buffer| - 1].eventTime - buffer[|buffer| - 2].eventTime <= RESAMPLE_MAX_DELTA
  }

  function Min(a: int, b: int): int { if a <= b then a else b }

  /** The furthest time extrapolation may reach: half the sample spacing past the latest
      sample, and never more than 8 ms. The spacing is positive here, so C++'s truncating
      division and Dafny's agree. */
  function FarthestPrediction(past: Sample, present: Sample): (r: int)
    requires present.eventTime - past.eventTime > 0
    ensures present.eventTime <= r <= present.eventTime + RESAMPLE_MAX_PREDICTION
    ensures 2 * (r - present.eventTime) <= present.eventTime - past.eventTime
  {
    present.eventTime + Min((present.eventTime - past.eventTime) / 2, RESAMPLE_MAX_PREDICTION)
  }

  /** `attemptExtrapolation`: a sample beyond the latest one, at the resample time or at the
      furthest allowed prediction when that is earlier. */
  function AttemptExtrapolation(buffer: seq<Sample>, resampleTime: int): (r: Option<Sample>)
    ensures r.Some? <==> CanExtrapolate(buffer)
    ensures r.Some? ==>
      var past := buffer[|buffer| - 2];
      var present := buffer[|buffer| - 1];
      var delta := present.eventTime - past.eventTime;
      && r.value.eventTime <= resampleTime
      && r.value.eventTime <= present.eventTime + RESAMPLE_MAX_PREDICTION
      && r.value.eventTime <= present.eventTime + delta / 2
      && (r.value.eventTime == resampleTime || r.value.eventTime == FarthestPrediction(past, present))
      && r.value.pointer.properties == present.pointer.properties
      && r.value.pointer.coords == CalculateResampledCoords(
           past.pointer.coords, present.pointer.coords,
           (r.value.eventTime - past.eventTime) as real / delta as real)
    ensures r.Some? && resampleTime > buffer[|buffer| - 1].eventTime ==>
              buffer[|buffer| - 1].eventTime < r.value.eventTime
  {
    if !CanExtrapolate(buffer) then None
    else
      var past := buffer[|buffer| - 2];
      var present := buffer[|buffer| - 1];
      var delta := present.eventTime - past.eventTime;
      var farthestPrediction := FarthestPrediction(past, present);
      var newResampleTime := if resampleTime > farthestPrediction then farthestPrediction else resampleTime;
      var alpha := (newResampleTime - past.eventTime) as real / delta as real;
      Some(Sample(newResampleTime,
                  Pointer(present.pointer.properties,
                          CalculateResampledCoords(past.pointer.coords, present.pointer.coords, alpha))))
  }

  /** `addSampleToMotionEvent`: the sample's time and coordinates go at the end. */
  function AddSample(e: MotionEvent, s: Sample): (r: MotionEvent)
    ensures r.pointerProperties == e.pointerProperties && r.SampleCount() == e.SampleCount() + 1
  {
    e.(sampleEventTimes := e.sampleEventTimes + [s.eventTime],
       samplePointerCoords := e.samplePointerCoords + [s.pointer.coords])
  }

  /** A single-pointer event stays well formed, with the added sample as its latest. */
  lemma AddSampleKeepsWellFormed(e: MotionEvent, s: Sample)
    requires WellFormed(e) && e.PointerCount() == 1
    ensures WellFormed(AddSample(e, s)) && LatestEventTime(AddSample(e, s)) == s.eventTime
  {
  }

  datatype Resampled = Resampled(resampler: LegacyResampler, event: MotionEvent)

  /** The buffer `resampleMotionEvent` decides on: emptied on a device switch, then fed
      the event's samples. */
  function BufferAfter(r: LegacyResampler, e: MotionEvent): (buffer: seq<Sample>)
    requires ValidResampler(r) && WellFormed(e)
    ensures buffer == Latest((if r.previousDeviceId.Some? && r.previousDeviceId.value != e.deviceId
                              then [] else r.latestSamples) + EventSamples(e))
    ensures buffer != [] && buffer[|buffer| - 1].eventTime == LatestEventTime(e)
  {
    var kept := if r.previousDeviceId.Some? && r.previousDeviceId.value != e.deviceId then []
                else r.latestSamples;
    UpdateLatestSamples(kept, e)
  }

  /** `resampleMotionEvent`. The caller must ask for a time after the event's latest sample. */
  function ResampleMotionEvent(r: LegacyResampler, resampleTime: int, e: MotionEvent,
                               future: Option<FutureSample>): (res: Resampled)
    requires ValidResampler(r) && WellFormed(e)
    requires resampleTime > LatestEventTime(e)
    ensures ValidResampler(res.resampler)
    ensures res.resampler == LegacyResampler(Some(e.deviceId), BufferAfter(r, e))
    // Either nothing changes, or exactly one resampled sample is appended after the
    // event's last one, no later than the resample time, and exactly at it when a
    // future sample was given.
    ensures res.event == e || exists s :: res.event == AddSample(e, s) && s.pointer.coords.isResampled
                                && LatestEventTime(e) < s.eventTime <= resampleTime
                                && (future.Some? ==> s.eventTime == resampleTime)
    ensures res.event.(sampleEventTimes := e.sampleEventTimes, samplePointerCoords := e.samplePointerCoords) == e
    ensures res.event != e <==>
              if future.Some? then future.value.eventTime - LatestEventTime(e) >= RESAMPLE_MIN_DELTA
              else CanExtrapolate(BufferAfter(r, e))
  {
    var buffer := BufferAfter(r, e);
    var sample := if future.Some? then AttemptInterpolation(buffer, resampleTime, future.value)
                  else AttemptExtrapolation(buffer, resampleTime);
    var event := if sample.Some? then AddSample(e, sample.value) else e;
    assert sample.Some? ==> event != e by {
      if sample.Some? {
        assert |event.sampleEventTimes| == |e.sampleEventTimes| + 1;
      }
    }
    Resampled(LegacyResampler(Some(e.deviceId), buffer), event)
  }

  /** Where the sample `resampleMotionEvent` appends when given a future sample lies: on
      the line from the latest sample to the future one, at the resample time. */
  lemma InterpolatedCoordinates(r: LegacyResampler, resampleTime: int, e: MotionEvent,
                                future: FutureSample)
    requires ValidResampler(r) && WellFormed(e)
    requires resampleTime > LatestEventTime(e)
    ensures var res := ResampleMotionEvent(r, resampleTime, e, Some(future));
            res.event != e ==>
              var latest := BufferAfter(r, e)[|BufferAfter(r, e)| - 1];
              && future.eventTime - latest.eventTime >= RESAMPLE_MIN_DELTA
              && var alpha := (resampleTime - latest.eventTime) as real
                              / (future.eventTime - latest.eventTime) as real;
                 res.event == AddSample(e, Sample(resampleTime, Pointer(latest.pointer.properties,
                                CalculateResampledCoords(latest.pointer.coords, future.firstPointerCoords, alpha))))
  {
    var res := ResampleMotionEvent(r, resampleTime, e, Some(future));
    var sample := AttemptInterpolation(BufferAfter(r, e), resampleTime, future);
    assert res.event == if sample.Some? then AddSample(e, sample.value) else e;
  }

  /** Where the sample `resampleMotionEvent` appends without a future sample lies: on the
      line through the two latest samples, at the appended sample's own time. */
  lemma ExtrapolatedCoordinates(r: LegacyResampler, resampleTime: int, e: MotionEvent)
    requires ValidResampler(r) && WellFormed(e)
    requires resampleTime > LatestEventTime(e)
    ensures var res := ResampleMotionEvent(r, resampleTime, e, None);
            res.event != e ==>
              var buffer := BufferAfter(r, e);
              && |buffer| == 2
              && RESAMPLE_MIN_DELTA <= buffer[1].eventTime - buffer[0].eventTime <= RESAMPLE_MAX_DELTA
              && |res.event.sampleEventTimes| == |e.sampleEventTimes| + 1
              && var t := res.event.sampleEventTimes[|e.sampleEventTimes|];
                 res.event.samplePointerCoords == e.samplePointerCoords + [CalculateResampledCoords(
                   buffer[0].pointer.coords, buffer[1].pointer.coords,
                   (t - buffer[0].eventTime) as real / (buffer[1].eventTime - buffer[0].eventTime) as real)]
  {
    var res := ResampleMotionEvent(r, resampleTime, e, None);
    var buffer := BufferAfter(r, e);
    var sample := AttemptExtrapolation(buffer, resampleTime);
    assert res.event == if sample.Some? then AddSample(e, sample.value) else e;
    if sample.Some? {
      assert |buffer| == 2;
      AppendedExtrapolation(buffer, resampleTime, e);
    }
  }

  lemma AppendedExtrapolation(buffer: seq<Sample>, resampleTime: int, e: MotionEvent)
    requires |buffer| == 2 && AttemptExtrapolation(buffer, resampleTime).Some?
    ensures var event := AddSample(e, AttemptExtrapolation(buffer, resampleTime).value);
      && RESAMPLE_MIN_DELTA <= buffer[1].eventTime - buffer[0].eventTime <= RESAMPLE_MAX_DELTA
      && |event.sampleEventTimes| == |e.sampleEventTimes| + 1
      && var t := event.sampleEventTimes[|e.sampleEventTimes|];
         event.samplePointerCoords == e.samplePointerCoords + [CalculateResampledCoords(
           buffer[0].pointer.coords, buffer[1].pointer.coords,
           (t - buffer[0].eventTime) as real / (buffer[1].eventTime - buffer[0].eventTime) as real)]
  {
    var added := AttemptExtrapolation(buffer, resampleTime).value;
    var event := AddSample(e, added);
    assert event.sampleEventTimes[|e.sampleEventTimes|] == added.eventTime;
  }
}
