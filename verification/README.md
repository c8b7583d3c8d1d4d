# Input latency tracking, resampling, input verification and display ids

A Dafny model of four sequential pieces of the Android input and display stack. Each
operation is a pure function that returns the new state. Lemmas prove the properties the
code and its comments promise.

- **LatencyTracker** (`LatencyTracker`, with `EventTimes` for its multimap). The input
  dispatcher keeps one timeline per input event id, plus a time-ordered multimap from
  event time to id.
  - `trackListener` starts a timeline.
  - `trackFinishedEvent` and `trackGraphicsLatency` fill in per-connection records.
  - `reportAndPruneMatureRecords` reports timelines older than the ANR timeout, oldest
    first, and drops them.
  - The invariant `Valid` ties the two structures together: each tracked id appears in the
    multimap exactly once, under its timeline's event time, and the multimap stays in time
    order.
- **LegacyResampler** (`Resampler`, with the unit-test scenarios in `ResamplerExamples`).
  Once per frame the resampler may append one synthetic sample to a motion event.
  - It interpolates towards a future sample when one is given.
  - Otherwise it extrapolates from the two latest samples it remembers.
  - It forgets those samples when the device changes.
  - Times are integer nanoseconds; coordinates are `real`.
- **InputVerifier** (`InputVerifier`, with the unit-test scenarios in `VerifierExamples`).
  It validates a stream of motion events per device.
  - A shape check runs on each event on its own.
  - A button-state machine tracks buttons still pending after DOWN.
  - Per-device sets track the touching and the hovering pointer ids.
  - A step that returns an error keeps the state changes made before the error, as the
    Rust code does.
- **DisplayId** (`DisplayId`). The 64-bit display id encodings and casts, as `bv64`.
  - Bit 63 marks a virtual display, bit 62 a stable id, bit 61 a GPU-backed virtual display.
  - The EDID manufacturer id, model hash and port are packed into bits 40-55, 8-39 and 0-7.

`Wrappers` holds the `Option` type. The verifier's `Outcome` is a pass, or a failure with the kind of `Rejection`.

## Model

| member | source | states |
|---|---|---|
| LatencyTracker.NewTracker | services/inputflinger/dispatcher/LatencyTracker.cpp:65-68 | a new tracker tracks nothing and satisfies the invariant |
| LatencyTracker.MaturityMonotone | services/inputflinger/dispatcher/LatencyTracker.cpp:45-48 | maturity is strict (an event exactly one timeout old is not mature); a mature event stays mature later, and older events are mature too |
| LatencyTracker.IsMatureEvent | services/inputflinger/dispatcher/LatencyTracker.cpp:45-48 | an event is mature when its age exceeds the timeout; specified by MaturityMonotone |
| LatencyTracker.Prune | services/inputflinger/dispatcher/LatencyTracker.cpp:226-244 | pruning removes a prefix of the multimap, reports one timeline per removed entry, and leaves every remaining timeline unchanged |
| LatencyTracker.DropOldestValid | services/inputflinger/dispatcher/LatencyTracker.cpp:237-238 | erasing the oldest entry and its timeline together keeps the invariant |
| LatencyTracker.OldestImmatureAllImmature | services/inputflinger/dispatcher/LatencyTracker.cpp:239-242 | when the oldest entry is not mature, no entry is, so stopping there loses nothing |
| LatencyTracker.PruneKeepsImmature | services/inputflinger/dispatcher/LatencyTracker.cpp:226-244 | after pruning, the invariant holds, every remaining entry is at most one timeout old, and an event's timeline is gone exactly when the event was mature |
| LatencyTracker.PruneReportsOldestFirst | services/inputflinger/dispatcher/LatencyTracker.cpp:227-238 | the i-th report is the timeline of the i-th oldest entry, and that entry was mature |
| LatencyTracker.PruneReportsInTimeOrder | services/inputflinger/dispatcher/LatencyTracker.cpp:227-238 | reports come out in non-decreasing event-time order |
| LatencyTracker.FindDevice | services/inputflinger/dispatcher/LatencyTracker.cpp:108-114 | the result is the first device with the id, and there is none exactly when no device has the id |
| LatencyTracker.ClassifyAction | services/inputflinger/dispatcher/LatencyTracker.cpp:125-155 | each motion class is chosen exactly for its masked action, KEY exactly for key DOWN or UP, and every other action is UNKNOWN |
| LatencyTracker.TrackListener | services/inputflinger/dispatcher/LatencyTracker.cpp:90-161 | reports are those of the pruning; a duplicate id or an unknown device leaves the id untracked |
| LatencyTracker.EraseKeepsValid | services/inputflinger/dispatcher/LatencyTracker.cpp:101-102 | erasing an id from both structures keeps the invariant |
| LatencyTracker.InsertKeepsValid | services/inputflinger/dispatcher/LatencyTracker.cpp:157-160 | inserting an untracked id into both structures keeps the invariant |
| LatencyTracker.TrackListenerValid | services/inputflinger/dispatcher/LatencyTracker.cpp:90-161 | `trackListener` keeps the invariant on every path |
| LatencyTracker.TrackListenerDuplicate | services/inputflinger/dispatcher/LatencyTracker.cpp:95-104 | a repeated id drops the existing record from both structures and does not insert the new one, whatever the device |
| LatencyTracker.TrackListenerUnknownDevice | services/inputflinger/dispatcher/LatencyTracker.cpp:116-123 | an unknown device leaves the tracker exactly as pruning left it |
| LatencyTracker.TrackListenerInserts | services/inputflinger/dispatcher/LatencyTracker.cpp:106-160 | a new id from a known device gets a timeline with the vendor and product of the first listed device with that id, even when several share it, and the classified action, plus exactly one multimap entry |
| LatencyTracker.MergeConnection | services/inputflinger/dispatcher/LatencyTracker.cpp:166-191 | an unknown id changes nothing; otherwise a new connection gets the created record, an existing one the merged record, or loses its record when the merge fails, and nothing else changes |
| LatencyTracker.TrackFinishedEvent | services/inputflinger/dispatcher/LatencyTracker.cpp:163-192 | an unknown id changes nothing; the tracked ids and the multimap never change |
| LatencyTracker.TrackGraphicsLatency | services/inputflinger/dispatcher/LatencyTracker.cpp:194-219 | an unknown id changes nothing; the tracked ids and the multimap never change |
| LatencyTracker.FailedMergeDropsOneConnection | services/inputflinger/dispatcher/LatencyTracker.cpp:184-190 | a failed dispatch merge removes exactly that connection's record |
| LatencyTracker.FailedGraphicsMergeDropsOneConnection | services/inputflinger/dispatcher/LatencyTracker.cpp:211-217 | a failed graphics merge removes exactly that connection's record |
| LatencyTracker.CompletionSignalsValid | services/inputflinger/dispatcher/LatencyTracker.cpp:163-219 | both completion signals keep the invariant |
| LatencyTracker.SetInputDevices | services/inputflinger/dispatcher/LatencyTracker.cpp:252-254 | the device list is replaced and nothing else changes |
| EventTimes.UpperBound | services/inputflinger/dispatcher/LatencyTracker.cpp:160 | the multimap insertion point lies after every entry not later than the key and before the first later one |
| EventTimes.Emplace | services/inputflinger/dispatcher/LatencyTracker.cpp:160 | insertion adds exactly the new entry and keeps the time order |
| EventTimes.EraseByValue | services/inputflinger/dispatcher/LatencyTracker.cpp:54-63 | every entry holding the value is removed, and every other entry keeps its multiplicity |
| EventTimes.EraseByValueIds | services/inputflinger/dispatcher/LatencyTracker.cpp:54-63 | erasing drops exactly that id from the stored ids |
| EventTimes.EraseByValueAbsent | services/inputflinger/dispatcher/LatencyTracker.cpp:54-63 | erasing an id no entry holds changes nothing |
| EventTimes.EraseByValueKeepsOrder | services/inputflinger/dispatcher/LatencyTracker.cpp:54-63 | erasing keeps the time order |
| EventTimes.EraseByValueKeepsRelativeOrder | services/inputflinger/dispatcher/LatencyTracker.cpp:54-63 | the surviving entries are a subsequence of the multimap, so entries with equal times keep their insertion order |
| EventTimes.IdsOfConcat | services/inputflinger/dispatcher/LatencyTracker.cpp:160 | the stored ids of a concatenation are the union of both parts' ids |
| Resampler.PushBack | include/input/Resampler.h:87-92 | pushing into the capacity-2 buffer keeps the two latest samples, the new one last |
| Resampler.PushAllKeepsLatest | include/input/Resampler.h:94-99 | pushing samples one by one leaves the two latest samples of the whole history, however the history is split into events |
| Resampler.EventSamples | libs/input/Resampler.cpp:74-82 | one buffer sample per event sample, with that sample's time and pointer 0's properties and coordinates |
| Resampler.UpdateLatestSamples | libs/input/Resampler.cpp:74-82 | the buffer becomes the latest two samples of its old contents followed by the event's samples |
| Resampler.UpdateLatestSamplesAsWritten | libs/input/Resampler.cpp:74-82 | the code as written: the i-th entry of the flat coordinate array is read for sample i |
| Resampler.AsWrittenAgreesForOnePointer | libs/input/Resampler.cpp:74-82 | for single-pointer events the code as written and the corrected version agree |
| Resampler.AsWrittenMisreadsMultiPointer | libs/input/Resampler.cpp:77-80 | for a two-pointer, two-sample event the code as written records sample 0's second pointer as the latest sample |
| Resampler.SetAxis | libs/input/Resampler.cpp:68-69 | setting an axis changes that axis only |
| Resampler.CalculateResampledCoords | libs/input/Resampler.cpp:63-71 | the result is marked resampled, X and Y are the lerp of the two samples, and every other axis comes from the first sample when alpha is below one and from the second otherwise |
| Resampler.Lerp | libs/input/Resampler.cpp:59-61 | the line from a to b runs through a at alpha 0 and through b at alpha 1, and is constant when the two ends agree |
| Resampler.AttemptInterpolation | libs/input/Resampler.cpp:84-116 | a sample is produced exactly when the future sample is at least 2 ms after the latest one; it is at exactly the resample time, with the latest sample's properties and coordinates interpolated towards the future sample |
| Resampler.CanInterpolate | libs/input/Resampler.cpp:84-96 | the future sample is at least 2 ms after the latest one; AttemptInterpolation produces a sample exactly when it holds |
| Resampler.AttemptExtrapolation | libs/input/Resampler.cpp:118-168 | a sample is produced exactly when two samples 2 to 20 ms apart are buffered; its time is never after the resample time, nor more than 8 ms or half the spacing past the latest sample |
| Resampler.CanExtrapolate | libs/input/Resampler.cpp:118-136 | at least two samples are buffered and the two latest are 2 to 20 ms apart; AttemptExtrapolation produces a sample exactly when it holds |
| Resampler.FarthestPrediction | libs/input/Resampler.cpp:150-155 | the prediction limit is at or after the latest sample, at most 8 ms past it, and at most half the sample spacing past it |
| Resampler.BufferAfter | libs/input/Resampler.cpp:177-182 | a device switch empties the buffer before the event's samples are added; the buffer ends with the event's latest sample |
| Resampler.ResampleMotionEvent | include/input/Resampler.h:36-61 | the resampler remembers the device and the updated buffer; the event is either unchanged or gains exactly one resampled sample at the end, after its latest sample and no later than the resample time (exactly at it when interpolating); no other field changes; a sample is added exactly when interpolation or extrapolation is possible; the new sample's coordinates are stated by the two lemmas below |
| Resampler.InterpolatedCoordinates | include/input/Resampler.h:54-61 | with a future sample, a resampled event gains exactly one sample at the resample time, with the latest buffered sample's pointer properties, and X and Y on the line from the latest buffered sample to the future sample, at the fraction of the way the resample time lies between them |
| Resampler.ExtrapolatedCoordinates | include/input/Resampler.h:54-61 | without a future sample, a resampled event comes from two buffered samples 2 to 20 ms apart, and its one new sample has X and Y on the line through those two samples, evaluated at the new sample's own time |
| Resampler.AppendedExtrapolation | libs/input/Resampler.cpp:118-168 | appending the extrapolated sample to an event adds one sample time, and adds coordinates on the line through the two buffered samples at that time |
| Resampler.AddSample | libs/input/Resampler.cpp:170-173 | the pointers stay and one sample is added; InterpolatedCoordinates and ExtrapolatedCoordinates state the coordinates it appends |
| Resampler.AddSampleKeepsWellFormed | libs/input/Resampler.cpp:170-173 | a well-formed single-pointer event stays well formed, with the added sample as its latest |
| ResamplerExamples.DeviceSwitchPreventsExtrapolation | libs/input/tests/Resampler_test.cpp:255-275 | a single-sample event from a new device is not extrapolated, and only its own sample is remembered |
| ResamplerExamples.SingleSampleNotEnoughData | libs/input/tests/Resampler_test.cpp:243-253 | with no history and no future sample, nothing is appended |
| ResamplerExamples.SingleSampleInterpolation | libs/input/tests/Resampler_test.cpp:294-311 | interpolation at 11 ms between 10 ms and 15 ms gives (1.2, 2.4) at 11 ms |
| ResamplerExamples.InterpolationDeltaTooSmall | libs/input/tests/Resampler_test.cpp:313-326 | a future sample 1 ms ahead is not used |
| ResamplerExamples.SingleSampleExtrapolation | libs/input/tests/Resampler_test.cpp:331-357 | samples from two events extrapolate to (2.2, 4.4) at 11 ms |
| ResamplerExamples.ResampleTimeTooFarExtrapolation | libs/input/tests/Resampler_test.cpp:426-442 | the prediction is capped at 8 ms past the latest sample: (2.4, 4.8) at 33 ms |
| ResamplerExamples.ExtrapolationDeltaOutOfRange | libs/input/tests/Resampler_test.cpp:398-424 | samples 1 ms or 21 ms apart are not extrapolated |
| ResamplerExamples.NonResampledAxesArePreserved | libs/input/tests/Resampler_test.cpp:211-241 | the touch-major axis is copied from the latest sample while X and Y are interpolated |
| InputVerifier.VerifyEvent | libs/input/rust/input_verifier.rs:25-85 | an event passes exactly when it has a pointer, carries an action button only on a button action, has one pointer on single-pointer actions, carries CANCELED on CANCEL, has its pointer index in range, and names exactly one button on a button action |
| InputVerifier.ProcessActionRules | libs/input/rust/input_verifier.rs:113-174 | while buttons are pending only a BUTTON_PRESS of pending buttons passes and takes them off the pending set; such a press takes them off even when it is then rejected; with nothing pending, only an accepted DOWN makes buttons pending; DOWN passes exactly when it keeps every pressed button, makes the new buttons pending and leaves the state alone; BUTTON_PRESS passes exactly when it is not already pressed, any pending buttons include it, and the state adds it; with nothing pending, BUTTON_RELEASE passes exactly when it is pressed and the state removes it; every other action passes exactly when the state is unchanged; a failure never changes the pressed buttons |
| InputVerifier.ProcessAction | libs/input/rust/input_verifier.rs:113-174 | `process_action`; specified by ProcessActionRules and ProcessActionKeepsValid |
| InputVerifier.CheckState | libs/input/rust/input_verifier.rs:164-172 | the event passes exactly when its button state is the expected one, and only then is the state stored |
| InputVerifier.ProcessActionKeepsValid | libs/input/rust/input_verifier.rs:113-174 | pending buttons are never among the pressed buttons |
| InputVerifier.NewVerifier | libs/input/rust/input_verifier.rs:188-201 | a new verifier knows no device, so it starts in the verifier's invariant (no empty hovering set, no pending button among the pressed ones) that every step then keeps |
| InputVerifier.DistinctCardinality | libs/input/rust/input_verifier.rs:386-406 | an event without repeated pointer ids has as many distinct ids as pointers |
| InputVerifier.TouchingMatchIsSetEquality | libs/input/rust/input_verifier.rs:386-406 | for an event without repeated ids, the size-and-membership check is equality of the touching set with the event's ids |
| InputVerifier.EnsureTouchingPointersMatch | libs/input/rust/input_verifier.rs:386-406 | the device's touching set matches the event's ids; TouchingMatchIsSetEquality shows it is set equality for distinct ids |
| InputVerifier.ProcessMovementFrame | libs/input/rust/input_verifier.rs:206-376 | a non-pointer source passes with no change; a malformed event fails with no change; no other device's pointers or buttons change; hovering sets stay non-empty |
| InputVerifier.ProcessMovement | libs/input/rust/input_verifier.rs:206-376 | `process_movement`; specified by ProcessMovementFrame, ProcessPointersFrame, ProcessMovementKeepsValid and VerifyEvent |
| InputVerifier.ProcessPointersFrame | libs/input/rust/input_verifier.rs:239-375 | only the device's touching and hovering entries change, and the button verifiers do not |
| InputVerifier.ProcessTouchingRules | libs/input/rust/input_verifier.rs:240-329 | DOWN passes exactly on a device with nothing down and starts the set with its pointer; POINTER_DOWN needs the other pointers down and a new id, which it adds; MOVE, POINTER_UP and CANCEL need the touching set to match; POINTER_UP removes its pointer; UP passes exactly when its pointer is the only one down; UP and CANCEL end the gesture |
| InputVerifier.ProcessTouchingFrame | libs/input/rust/input_verifier.rs:240-329 | only the device's own touching entry changes, and a rejected event changes nothing |
| InputVerifier.ProcessTouching | libs/input/rust/input_verifier.rs:240-329 | the touching-pointer rules; specified by ProcessTouchingRules and ProcessTouchingFrame |
| InputVerifier.ProcessHoveringRules | libs/input/rust/input_verifier.rs:336-372 | HOVER_ENTER passes exactly on a device not hovering; HOVER_MOVE always passes and adds its pointer; HOVER_EXIT passes exactly when its pointer was the last one and then forgets the device, otherwise still removes the pointer, and on a device that is not hovering changes nothing; no other device changes and hovering sets stay non-empty |
| InputVerifier.ProcessHovering | libs/input/rust/input_verifier.rs:336-372 | the hovering-pointer rules; specified by ProcessHoveringRules |
| InputVerifier.ResetDevice | libs/input/rust/input_verifier.rs:381-384 | the device's touching and hovering entries are gone, the button verifiers and all other devices are unchanged |
| InputVerifier.ProcessMovementKeepsValid | libs/input/rust/input_verifier.rs:206-376 | every step keeps hovering sets non-empty and pending buttons apart from pressed ones |
| InputVerifier.ResetDeviceKeepsValid | libs/input/rust/input_verifier.rs:381-384 | a reset keeps the same invariant |
| InputVerifier.ProcessStream | libs/input/rust/input_verifier.rs:206-219 | one verdict per event, and every event from a non-pointer source is accepted |
| InputVerifier.ProcessStreamKeepsValid | libs/input/rust/input_verifier.rs:206-376 | the invariant holds after any stream, whatever the verdicts |
| InputVerifier.NewVerifierStaysValid | libs/input/rust/input_verifier.rs:188-219 | from a new verifier, every stream of events, accepted or not, ends in the invariant |
| InputVerifier.OtherDevicesDoNotInterfere | libs/input/rust/input_verifier.rs:181-183 | events from other devices never change a device's touching, hovering or button state |
| InputVerifier.DownThenUpRestoresTouching | libs/input/rust/input_verifier.rs:240-319 | a DOWN then UP of one pointer on an idle device both pass and restore the touching state |
| InputVerifier.HoverEnterThenExitRestoresHovering | libs/input/rust/input_verifier.rs:336-372 | a HOVER_ENTER then HOVER_EXIT of one pointer both pass and restore the hovering state |
| InputVerifier.ResetDeviceAllowsNewGesture | libs/input/rust/input_verifier.rs:378-384 | after a reset, a DOWN is judged by the device's buttons alone |
| VerifierExamples.BadDownEvent | libs/input/rust/input_verifier.rs:422-437 | a two-pointer DOWN is rejected |
| VerifierExamples.SinglePointerStream | libs/input/rust/input_verifier.rs:440-476 | DOWN, MOVE, UP are accepted |
| VerifierExamples.TwoPointerStream | libs/input/rust/input_verifier.rs:479-534 | DOWN, POINTER_DOWN, POINTER_UP, UP of the other pointer are accepted |
| VerifierExamples.MultiDeviceStream | libs/input/rust/input_verifier.rs:537-595 | interleaved gestures of two devices are accepted |
| VerifierExamples.ActionCancel | libs/input/rust/input_verifier.rs:598-623 | CANCEL with FLAG_CANCELED is accepted |
| VerifierExamples.InvalidActionCancel | libs/input/rust/input_verifier.rs:626-651 | CANCEL without FLAG_CANCELED is rejected |
| VerifierExamples.InvalidUp | libs/input/rust/input_verifier.rs:654-668 | UP with nothing down is rejected |
| VerifierExamples.CorrectHoverSequence | libs/input/rust/input_verifier.rs:671-721 | HOVER_ENTER, HOVER_MOVE, HOVER_EXIT, HOVER_ENTER are accepted |
| VerifierExamples.DoubleHoverEnter | libs/input/rust/input_verifier.rs:724-750 | a second HOVER_ENTER is rejected |
| VerifierExamples.RelativeMouseMove | libs/input/rust/input_verifier.rs:755-769 | a MOVE from a relative mouse is accepted without a DOWN |
| VerifierExamples.MoveWithWrongNumberOfPointers | libs/input/rust/input_verifier.rs:773-814 | a MOVE missing a touching pointer is rejected |
| VerifierExamples.CorrectButtonPress | libs/input/rust/input_verifier.rs:817-831 | a BUTTON_PRESS with matching state is accepted |
| VerifierExamples.ButtonPressWithoutActionButton | libs/input/rust/input_verifier.rs:834-848 | a BUTTON_PRESS without an action button is rejected |
| VerifierExamples.ButtonPressWithMultipleActionButtons | libs/input/rust/input_verifier.rs:851-865 | a BUTTON_PRESS with two action buttons is rejected |
| VerifierExamples.ButtonPressWithoutActionButtonInState | libs/input/rust/input_verifier.rs:868-882 | a BUTTON_PRESS whose state lacks the button is rejected |
| VerifierExamples.ButtonReleaseWithActionButtonInState | libs/input/rust/input_verifier.rs:885-910 | a BUTTON_RELEASE whose state still holds the button is rejected |
| VerifierExamples.NonButtonActionWithActionButton | libs/input/rust/input_verifier.rs:913-944 | a HOVER_ENTER with an action button is rejected, with or without the button in its state |
| VerifierExamples.NonButtonActionWithButtonStateChange | libs/input/rust/input_verifier.rs:947-972 | a HOVER_MOVE that changes the button state is rejected |
| VerifierExamples.NonButtonActionMissingButtonState | libs/input/rust/input_verifier.rs:975-1011 | a HOVER_MOVE that drops a pressed button is rejected |
| VerifierExamples.UpWithoutButtonRelease | libs/input/rust/input_verifier.rs:1014-1051 | an UP that drops a pressed button is rejected |
| VerifierExamples.ButtonPressForAlreadyPressedButton | libs/input/rust/input_verifier.rs:1054-1079 | a second press of a pressed button is rejected |
| VerifierExamples.ButtonReleaseForUnpressedButton | libs/input/rust/input_verifier.rs:1082-1096 | a release of an unpressed button is rejected |
| VerifierExamples.CorrectMultipleButtonPressesWithoutDown | libs/input/rust/input_verifier.rs:1099-1124 | two presses building up the state are accepted |
| VerifierExamples.CorrectDownWithButtonPress | libs/input/rust/input_verifier.rs:1127-1176 | a DOWN with two new buttons followed by their presses and a MOVE is accepted |
| VerifierExamples.DownWithButtonStateChangeNotFollowedByButtonPress | libs/input/rust/input_verifier.rs:1179-1205 | a MOVE while a button is pending is rejected |
| VerifierExamples.DownWithButtonStateChangeNotFollowedByEnoughButtonPresses | libs/input/rust/input_verifier.rs:1208-1246 | a MOVE after only one of two pending presses is rejected |
| VerifierExamples.DownMissingAlreadyPressedButton | libs/input/rust/input_verifier.rs:1249-1274 | a DOWN that drops a pressed button is rejected |
| DisplayId.IsVirtual | libs/ui/include/ui/DisplayId.h:31-39 | an id is virtual exactly when its value is at least 2^63, that is, when bit 63 is set |
| DisplayId.FromEdid | libs/ui/include/ui/DisplayId.h:77-104 | an EDID id is physical, stable and not GPU-flagged, gives back its port, manufacturer id and model hash, and has bits 56 to 60 clear; FromEdidDeterminedByFields shows these clauses fix the value |
| DisplayId.GetPort | libs/ui/include/ui/DisplayId.h:93 | the low byte of the value; specified through the contracts of FromEdid and FromPort, which give the port back |
| DisplayId.PackPhysical | libs/ui/include/ui/DisplayId.h:101-104 | the packing constructor; specified by FromEdid, FromEdidInjective and FromEdidDeterminedByFields, which state that it keeps each field in its own bits |
| DisplayId.FromEdidDeterminedByFields | libs/ui/include/ui/DisplayId.h:101-104 | a physical id with the stable flag, no virtual or GPU flag, clear bits 56 to 60 and given port, manufacturer id and model hash is the EDID id of those fields |
| DisplayId.FromPort | libs/ui/include/ui/DisplayId.h:83-93 | a port-only id has the port as its value, is neither virtual nor stable, and gives back its port |
| DisplayId.PhysicalFromValue | libs/ui/include/ui/DisplayId.h:69-91 | the raw value is kept unchecked, and the physical cast of that value gives back the same id exactly when the value is not virtual |
| DisplayId.PhysicalTryCast | libs/ui/include/ui/DisplayId.h:69-74 | succeeds exactly for values below 2^63 and keeps the value |
| DisplayId.VirtualFromBase | libs/ui/include/ui/DisplayId.h:129 | the result is virtual and keeps the low 63 bits |
| DisplayId.VirtualFromValue | libs/ui/include/ui/DisplayId.h:115-128 | the raw value is kept without adding the virtual flag, and the virtual cast of that value gives back the same id exactly when the value is virtual |
| DisplayId.VirtualTryCast | libs/ui/include/ui/DisplayId.h:115-120 | succeeds exactly for values of at least 2^63 and keeps the value |
| DisplayId.HalVirtual | libs/ui/include/ui/DisplayId.h:135 | the id is virtual, not GPU-flagged, holds the base id in its low 32 bits, and has no other bit set |
| DisplayId.HalVirtualFromValue | libs/ui/include/ui/DisplayId.h:137-146 | the raw value is kept unchecked, and the HAL-virtual cast of that value gives back the same id exactly when the value is virtual and not GPU-flagged |
| DisplayId.HalVirtualTryCast | libs/ui/include/ui/DisplayId.h:137-142 | succeeds exactly for virtual values without the GPU flag and keeps the value |
| DisplayId.GpuVirtual | libs/ui/include/ui/DisplayId.h:153 | the id is virtual and GPU-flagged, holds the base id in its low 32 bits, and has no other bit set |
| DisplayId.GpuVirtualFromValue | libs/ui/include/ui/DisplayId.h:155-164 | the raw value is kept unchecked, and the GPU-virtual cast of that value gives back the same id exactly when the value is virtual and GPU-flagged |
| DisplayId.GpuVirtualTryCast | libs/ui/include/ui/DisplayId.h:155-160 | succeeds exactly for virtual values with the GPU flag and keeps the value |
| DisplayId.HalFromPhysical | libs/ui/include/ui/DisplayId.h:69-181 | the conversion keeps the value; a non-virtual physical id is accepted by the HAL cast as this HAL id, and the physical cast turns the HAL id back into the physical id exactly when that id is not virtual |
| DisplayId.HalFromHalVirtual | libs/ui/include/ui/DisplayId.h:137-181 | the conversion keeps the value; an id the HAL-virtual cast accepts is also accepted by the HAL cast as this HAL id, and the HAL-virtual cast turns the HAL id back into the HAL-virtual id exactly when it accepts that id |
| DisplayId.HalFromValue | libs/ui/include/ui/DisplayId.h:176-183 | the raw value is kept unchecked, and the HAL cast of that value gives back the same id exactly when the value is not a GPU-backed virtual id |
| DisplayId.HalTryCast | libs/ui/include/ui/DisplayId.h:176-181 | succeeds exactly for ids that are not GPU-backed virtual ids, and keeps the value |
| DisplayId.CastsPartition | libs/ui/include/ui/DisplayId.h:69-181 | exactly one of the physical, HAL-virtual and GPU-virtual casts succeeds on any value; the HAL cast succeeds exactly for the first two, the virtual cast exactly for the last two |
| DisplayId.ConstructedIdsRoundTrip | libs/ui/include/ui/DisplayId.h:77-160 | each constructed id is accepted, unchanged, by its own kind's cast and rejected by the other virtual kind |
| DisplayId.FromEdidInjective | libs/ui/include/ui/DisplayId.h:101-104 | distinct EDID triples give distinct ids |
| DisplayId.StableAndPortIdsDiffer | libs/ui/include/ui/DisplayId.h:76-97 | an EDID id never equals a port-only id |
| DisplayId.FromValueSkipsVirtualFlag | libs/ui/include/ui/DisplayId.h:122-164 | the `fromValue` factories leave a non-virtual value non-virtual, while the base-id constructor sets the flag |

## Left out

- `trackNotifyMotion` and `trackNotifyKey` are not modelled. They only compute usage sources, through functions that are not part of this model, and then call `trackListener`; the sources are a parameter of `TrackListener`.
- `ConnectionTimeline::setDispatchTimeline` and `setGraphicsTimeline` are not part of this model. They are passed in as functions returning `None` for a failed merge.
- `InputEventTimelineProcessor` is replaced by the sequence of reported timelines each step returns.
- The ANR timeout depends on a system property, so it is a field of the tracker state.
- LatencyTracker.Prune: where the source aborts on an entry without a timeline, the model stops pruning; the invariant `Valid` rules that state out.
- The tracker's `dump`, all logging, and the resampler's debug switches are not modelled.
- `nsecs_t` and `int32_t` overflow is not modelled; times and ids are unbounded integers.
- Float arithmetic is modelled as `real`; rounding of `alpha` and of the coordinates is not modelled.
- Resampler.AddSample: for an event with several pointers, `MotionEvent::addSample` reads one coordinate per pointer starting at the single resampled coordinate, past its end. The model appends that one coordinate, so its result is well formed only for single-pointer events.
- `MotionEvent::addSample` also takes an event id; the resampler passes the event's own id, so the model leaves the id unchanged.
- The header declares `interpolate` and `extrapolate`, but the implementation defines `attemptInterpolation` and `attemptExtrapolation`. The model follows the implementation.
- The multi-pointer resampling tests (id matching, tool-type and palm rejection) are not modelled, because the implementation tracks pointer 0 only.
- The `MotionAction`, `MotionButton`, `MotionFlags` and `Source` definitions are not part of this model. Actions are a datatype, already decoded. Buttons and flags are finite sets. A source is the set of its classes.
- The verifier's name, its logging and its logger set-up are not modelled.
- The verifier's error messages are formatted strings built from the event; the model keeps only which check failed, as a `Rejection`, and not the text.

## Findings

| source | as written | input that shows it | evidently intended | confidence | as-written member | corrected member |
|---|---|---|---|---|---|---|
| libs/input/Resampler.cpp:77-80 | sample i's coordinates are read as entry i of the flat, sample-major coordinate array | an event with two pointers and two samples: entry 1 is pointer 1 of sample 0, so the buffer's latest sample pairs sample 1's time with sample 0's second pointer | read pointer 0 of sample i, entry `i * pointerCount` | not executed; the layout is the one `MotionEvent` uses for `getSamplePointerCoords` | Resampler.UpdateLatestSamplesAsWritten, Resampler.AsWrittenMisreadsMultiPointer | Resampler.UpdateLatestSamples, Resampler.PushAllKeepsLatest |
