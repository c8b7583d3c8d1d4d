/**
 * The resampler's behaviour on the single-pointer scenarios of its unit tests, and the
 * device-switch rule stated for all inputs.
 */
module ResamplerExamples {
  import opened Wrappers
  import opened Resampler

  function Coords(x: real, y: real): PointerCoords {
    PointerCoords(map[AXIS_X := x, AXIS_Y := y], false)
  }

  /** A single-pointer MOVE event from `deviceId` with the given samples. */
  function Stream(deviceId: int, times: seq<int>, coords: seq<PointerCoords>): (e: MotionEvent)
    requires |times| == |coords| >= 1
    ensures WellFormed(e) && e.PointerCount() == 1 && e.deviceId == deviceId
    ensures e.sampleEventTimes == times && e.samplePointerCoords == coords
  {
    MotionEvent(0, deviceId, 2, 0, [PointerProperties(0, 1)], times, coords)
  }

  /** A device switch forgets the previous device's samples, so a single-sample event from
      the new device cannot be extrapolated. */
  lemma DeviceSwitchPreventsExtrapolation(r: LegacyResampler, resampleTime: int, e: MotionEvent)
    requires ValidResampler(r) && WellFormed(e) && e.SampleCount() == 1
    requires r.previousDeviceId.Some? && r.previousDeviceId.value != e.deviceId
    requires resampleTime > LatestEventTime(e)
    ensures ResampleMotionEvent(r, resampleTime, e, None).event == e
    ensures ResampleMotionEvent(r, resampleTime, e, None).resampler.latestSamples == EventSamples(e)
  {
    assert [] + EventSamples(e) == EventSamples(e);
  }

  /** With no history and no future sample a single-sample event is left alone. */
  lemma SingleSampleNotEnoughData(resampleTime: int, e: MotionEvent)
    requires WellFormed(e) && e.SampleCount() == 1 && resampleTime > LatestEventTime(e)
    ensures ResampleMotionEvent(NewResampler(), resampleTime, e, None).event == e
  {
    assert [] + EventSamples(e) == EventSamples(e);
  }

  /** A sample at 10 ms and a future sample at 15 ms, resampled at 11 ms: one fifth of the
      way, at exactly 11 ms. */
  lemma SingleSampleInterpolation()
    ensures var e := Stream(0, [10 * MILLIS], [Coords(1.0, 2.0)]);
      var res := ResampleMotionEvent(NewResampler(), 11 * MILLIS, e,
                                     Some(FutureSample(15 * MILLIS, Coords(2.0, 4.0))));
      var c := res.event.samplePointerCoords[1];
      && res.event.sampleEventTimes == [10 * MILLIS, 11 * MILLIS]
      && |res.event.samplePointerCoords| == 2
      && GetAxis(c, AXIS_X) == 1.2 && GetAxis(c, AXIS_Y) == 2.4 && c.isResampled
  {
    var e := Stream(0, [10 * MILLIS], [Coords(1.0, 2.0)]);
    assert [] + EventSamples(e) == EventSamples(e);
    var buffer := BufferAfter(NewResampler(), e);
    assert buffer == [Sample(10 * MILLIS, Pointer(PointerProperties(0, 1), Coords(1.0, 2.0)))];
    var alpha := (1 * MILLIS) as real / (5 * MILLIS) as real;
    assert alpha == 0.2;
    var interpolated := AttemptInterpolation(buffer, 11 * MILLIS, FutureSample(15 * MILLIS, Coords(2.0, 4.0)));
    assert interpolated == Some(Sample(11 * MILLIS, Pointer(PointerProperties(0, 1),
                                  CalculateResampledCoords(Coords(1.0, 2.0), Coords(2.0, 4.0), alpha))));
  }

  /** A future sample only 1 ms ahead is too close: nothing is appended. */
  lemma InterpolationDeltaTooSmall()
    ensures var e := Stream(0, [10 * MILLIS], [Coords(1.0, 2.0)]);
      ResampleMotionEvent(NewResampler(), 10_500_000, e,
                          Some(FutureSample(11 * MILLIS, Coords(2.0, 4.0)))).event == e
  {
  }

  /** Extrapolation across event boundaries: a sample at 5 ms in one event and one at 10 ms
      in the next, resampled at 11 ms, continue the line to 11 ms. */
  lemma SingleSampleExtrapolation()
    ensures var first := Stream(0, [5 * MILLIS], [Coords(1.0, 2.0)]);
      var afterFirst := ResampleMotionEvent(NewResampler(), 9 * MILLIS, first, None);
      var second := Stream(0, [10 * MILLIS], [Coords(2.0, 4.0)]);
      var res := ResampleMotionEvent(afterFirst.resampler, 11 * MILLIS, second, None);
      var c := res.event.samplePointerCoords[1];
      && afterFirst.event == first
      && res.event.sampleEventTimes == [10 * MILLIS, 11 * MILLIS]
      && |res.event.samplePointerCoords| == 2
      && GetAxis(c, AXIS_X) == 2.2 && GetAxis(c, AXIS_Y) == 4.4 && c.isResampled
  {
    var first := Stream(0, [5 * MILLIS], [Coords(1.0, 2.0)]);
    assert [] + EventSamples(first) == EventSamples(first);
    var afterFirst := ResampleMotionEvent(NewResampler(), 9 * MILLIS, first, None);
    var second := Stream(0, [10 * MILLIS], [Coords(2.0, 4.0)]);
    assert afterFirst.resampler.latestSamples + EventSamples(second)
        == [EventSamples(first)[0], EventSamples(second)[0]];
    var buffer := BufferAfter(afterFirst.resampler, second);
    assert buffer == [EventSamples(first)[0], EventSamples(second)[0]];
    assert FarthestPrediction(buffer[0], buffer[1]) > 11 * MILLIS;
    var alpha := (6 * MILLIS) as real / (5 * MILLIS) as real;
    assert alpha == 1.2;
    var extrapolated := AttemptExtrapolation(buffer, 11 * MILLIS);
    assert extrapolated == Some(Sample(11 * MILLIS, Pointer(PointerProperties(0, 1),
                                  CalculateResampledCoords(Coords(1.0, 2.0), Coords(2.0, 4.0), alpha))));
  }

  /** Samples 20 ms apart, resampled 18 ms past the latest one: the prediction is capped at
      8 ms past the latest sample. */
  lemma ResampleTimeTooFarExtrapolation()
    ensures var e := Stream(0, [5 * MILLIS, 25 * MILLIS], [Coords(1.0, 2.0), Coords(2.0, 4.0)]);
      var res := ResampleMotionEvent(NewResampler(), 43 * MILLIS, e, None);
      var c := res.event.samplePointerCoords[2];
      && res.event.sampleEventTimes == [5 * MILLIS, 25 * MILLIS, 33 * MILLIS]
      && |res.event.samplePointerCoords| == 3
      && GetAxis(c, AXIS_X) == 2.4 && GetAxis(c, AXIS_Y) == 4.8 && c.isResampled
  {
    var e := Stream(0, [5 * MILLIS, 25 * MILLIS], [Coords(1.0, 2.0), Coords(2.0, 4.0)]);
    assert [] + EventSamples(e) == EventSamples(e);
    var buffer := BufferAfter(NewResampler(), e);
    assert buffer == EventSamples(e);
    assert FarthestPrediction(buffer[0], buffer[1]) == 33 * MILLIS;
    var alpha := (28 * MILLIS) as real / (20 * MILLIS) as real;
    assert alpha == 1.4;
    var extrapolated := AttemptExtrapolation(buffer, 43 * MILLIS);
    assert extrapolated == Some(Sample(33 * MILLIS, Pointer(PointerProperties(0, 1),
                                  CalculateResampledCoords(Coords(1.0, 2.0), Coords(2.0, 4.0), alpha))));
  }

  /** Samples 1 ms apart or 21 ms apart are not extrapolated. */
  lemma ExtrapolationDeltaOutOfRange()
    ensures var e := Stream(0, [9 * MILLIS, 10 * MILLIS], [Coords(1.0, 2.0), Coords(2.0, 4.0)]);
      ResampleMotionEvent(NewResampler(), 11 * MILLIS, e, None).event == e
    ensures var e := Stream(0, [5 * MILLIS, 26 * MILLIS], [Coords(1.0, 2.0), Coords(2.0, 4.0)]);
      ResampleMotionEvent(NewResampler(), 27 * MILLIS, e, None).event == e
  {
    var e := Stream(0, [9 * MILLIS, 10 * MILLIS], [Coords(1.0, 2.0), Coords(2.0, 4.0)]);
    assert [] + EventSamples(e) == EventSamples(e);
    assert BufferAfter(NewResampler(), e) == EventSamples(e);
    assert !CanExtrapolate(EventSamples(e));
    var e' := Stream(0, [5 * MILLIS, 26 * MILLIS], [Coords(1.0, 2.0), Coords(2.0, 4.0)]);
    assert [] + EventSamples(e') == EventSamples(e');
    assert BufferAfter(NewResampler(), e') == EventSamples(e');
    assert !CanExtrapolate(EventSamples(e'));
  }

  /** Axes other than X and Y are copied from the latest sample while alpha is below one. */
  lemma NonResampledAxesArePreserved()
    ensures var touchMajor: nat := 4;
      var later := PointerCoords(map[AXIS_X := 2.0, AXIS_Y := 2.0, touchMajor := 1.0], false);
      var e := Stream(0, [5 * MILLIS, 10 * MILLIS], [Coords(1.0, 1.0), later]);
      var res := ResampleMotionEvent(NewResampler(), 11 * MILLIS, e,
                                     Some(FutureSample(15 * MILLIS, Coords(3.0, 4.0))));
      var c := res.event.samplePointerCoords[2];
      && |res.event.samplePointerCoords| == 3
      && GetAxis(c, touchMajor) == 1.0
      && GetAxis(c, AXIS_X) == 2.2 && GetAxis(c, AXIS_Y) == 2.4
  {
    var touchMajor: nat := 4;
    var later := PointerCoords(map[AXIS_X := 2.0, AXIS_Y := 2.0, touchMajor := 1.0], false);
    var e := Stream(0, [5 * MILLIS, 10 * MILLIS], [Coords(1.0, 1.0), later]);
    assert [] + EventSamples(e) == EventSamples(e);
    var buffer := BufferAfter(NewResampler(), e);
    assert buffer == EventSamples(e) && buffer[1].pointer.coords == later;
    var alpha := (1 * MILLIS) as real / (5 * MILLIS) as real;
    assert alpha == 0.2;
    var interpolated := AttemptInterpolation(buffer, 11 * MILLIS, FutureSample(15 * MILLIS, Coords(3.0, 4.0)));
    assert interpolated == Some(Sample(11 * MILLIS, Pointer(PointerProperties(0, 1),
                                  CalculateResampledCoords(later, Coords(3.0, 4.0), alpha))));
  }
}
