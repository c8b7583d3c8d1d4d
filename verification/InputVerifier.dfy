/**
 * The input verifier: it checks a stream of motion events, device by device, against the
 * gesture protocol. A stateless check looks at the shape of each event; a per-device
 * button verifier follows the pressed buttons; per-device sets follow the touching and
 * the hovering pointer ids.
 *
 * Every step returns the verifier's new state together with its verdict. A rejected
 * event can still leave changes behind, exactly as the state updates that precede an
 * early error return do.
 */
module InputVerifier {

  /** Why an event is rejected: one constructor per error the verifier can return. The
      messages themselves are not modelled. */
  datatype Rejection =
    // `verify_event`
    | NoPointers | ActionButtonOnNonButtonAction | NotSinglePointer | CancelWithoutCanceledFlag
    | ActionIndexOutOfRange | NotSingleActionButton
    // `ButtonVerifier::process_action`
    | ExpectedPendingButtonPress | DownMissingButtons | DuplicateButtonPress | ReleaseOfUnpressedButton
    | UnexpectedButtonState
    // `process_movement`, touching pointers
    | DownWhilePointersDown | PointerDownWithoutPointers | PointerDownWrongPointerCount
    | PointerDownOfPointerDown | MovePointersMismatch | PointerUpPointersMismatch | UpWithoutPointers
    | UpWithSeveralPointers | UpOfPointerNotDown | CancelPointersMismatch
    // `process_movement`, hovering pointers
    | HoverEnterWhileHovering | HoverExitWithoutHovering | HoverExitWithOthersHovering

  /** The `Result<(), String>` of a check. */
  datatype Outcome = Pass | Fail(error: Rejection)

  datatype MotionButton = Primary | Secondary | Tertiary | Back | Forward | StylusPrimary | StylusSecondary

  datatype MotionFlag = Canceled | OtherFlag(bit: nat)

  datatype SourceClass = ClassButton | ClassPointer | ClassNavigation | ClassPosition | ClassJoystick

  /** The motion action, already decoded from its raw code. */
  datatype MotionAction =
    | Down | Up | Move | Cancel | Outside
    | PointerDown(actionIndex: nat) | PointerUp(actionIndex: nat)
    | HoverEnter | HoverMove | HoverExit | Scroll | ButtonPress | ButtonRelease

  predicate IsSinglePointerAction(action: MotionAction) {
    action == Down || action == HoverEnter || action == HoverExit || action == HoverMove || action == Up
  }

  predicate IsButtonAction(action: MotionAction) {
    action == ButtonPress || action == ButtonRelease
  }

  /** The shape rules for one event on its own. */
  ghost predicate WellShaped(action: MotionAction, actionButton: set<MotionButton>,
                             pointerIds: seq<int>, flags: set<MotionFlag>) {
    && |pointerIds| >= 1
    && (actionButton == {} || IsButtonAction(action))
    && (IsSinglePointerAction(action) ==> |pointerIds| == 1)
    && (action == Cancel ==> Canceled in flags)
    && (action.PointerDown? || action.PointerUp? ==> action.actionIndex < |pointerIds|)
    && (IsButtonAction(action) ==> |actionButton| == 1)
  }

  /** `verify_event`. */
  function VerifyEvent(action: MotionAction, actionButton: set<MotionButton>,
                       pointerIds: seq<int>, flags: set<MotionFlag>): (r: Outcome)
    ensures r.Pass? <==> WellShaped(action, actionButton, pointerIds, flags)
  {
    if |pointerIds| < 1 then Fail(NoPointers)
    else if actionButton != {} && !IsButtonAction(action) then Fail(ActionButtonOnNonButtonAction)
    else if IsSinglePointerAction(action) && |pointerIds| != 1 then Fail(NotSinglePointer)
    else if action == Cancel && Canceled !in flags then Fail(CancelWithoutCanceledFlag)
    else if (action.PointerDown? || action.PointerUp?) && action.actionIndex >= |pointerIds| then
      Fail(ActionIndexOutOfRange)
    else if IsButtonAction(action) && |actionButton| != 1 then Fail(NotSingleActionButton)
    else Pass
  }

  /** The button state of one device, and the buttons a DOWN announced whose BUTTON_PRESS
      events have not arrived yet. */
  datatype ButtonVerifier = ButtonVerifier(buttonState: set<MotionButton>, pendingButtons: set<MotionButton>)

  datatype ButtonStep = ButtonStep(verifier: ButtonVerifier, outcome: Outcome)

  /** The button-state update of one action, with its check against the event's state.
      A `MotionButton` bitflag "contains" another when it is a superset of it. */
  function ProcessAction(v: ButtonVerifier, action: MotionAction, actionButton: set<MotionButton>,
                         buttonState: set<MotionButton>): (r: ButtonStep)
  {
    if v.pendingButtons != {} && (action != ButtonPress || !(actionButton <= v.pendingButtons)) then
      ButtonStep(v, Fail(ExpectedPendingButtonPress))
    else
      var v1 := if v.pendingButtons != {} then v.(pendingButtons := v.pendingButtons - actionButton) else v;
      match action
      case Down =>
        if !(v1.buttonState <= buttonState) then ButtonStep(v1, Fail(DownMissingButtons))
        else ButtonStep(v1.(pendingButtons := buttonState - v1.buttonState), Pass)
      case ButtonPress =>
        if actionButton <= v1.buttonState then ButtonStep(v1, Fail(DuplicateButtonPress))
        else CheckState(v1, buttonState, v1.buttonState + actionButton)
      case ButtonRelease =>
        if !(actionButton <= v1.buttonState) then ButtonStep(v1, Fail(ReleaseOfUnpressedButton))
        else CheckState(v1, buttonState, v1.buttonState - actionButton)
      case _ => CheckState(v1, buttonState, v1.buttonState)
  }

  /** The rules `process_action` enforces, for its result `r`. */
  lemma ProcessActionRules(v: ButtonVerifier, action: MotionAction, actionButton: set<MotionButton>,
                           buttonState: set<MotionButton>, r: ButtonStep)
    requires r == ProcessAction(v, action, actionButton, buttonState)
    // While buttons are pending, only a BUTTON_PRESS of pending buttons is accepted, and it
    // takes them off the pending set.
    ensures (v.pendingButtons != {} && (action != ButtonPress || !(actionButton <= v.pendingButtons))) ==>
              r == ButtonStep(v, r.outcome) && r.outcome.Fail?
    ensures v.pendingButtons != {} && r.outcome.Pass? ==>
              r.verifier.pendingButtons == v.pendingButtons - actionButton
    // A BUTTON_PRESS of pending buttons takes them off the pending set even when the press
    // itself is then rejected.
    ensures v.pendingButtons != {} && action == ButtonPress && actionButton <= v.pendingButtons ==>
              r.verifier.pendingButtons == v.pendingButtons - actionButton
    // With nothing pending, only an accepted DOWN makes buttons pending.
    ensures v.pendingButtons == {} && !(action == Down && r.outcome.Pass?) ==>
              r.verifier.pendingButtons == {}
    // DOWN may add buttons but not lose any; the new ones become pending, the state stays.
    ensures action == Down && v.pendingButtons == {} ==>
              (r.outcome.Pass? <==> v.buttonState <= buttonState)
              && (r.outcome.Pass? ==> r.verifier == ButtonVerifier(v.buttonState, buttonState - v.buttonState))
    // BUTTON_PRESS adds, BUTTON_RELEASE removes, everything else keeps the state.
    ensures action == ButtonPress ==>
              (r.outcome.Pass? <==> (v.pendingButtons != {} ==> actionButton <= v.pendingButtons)
                                    && !(actionButton <= v.buttonState)
                                    && buttonState == v.buttonState + actionButton)
    ensures action == ButtonRelease && v.pendingButtons == {} ==>
              (r.outcome.Pass? <==> actionButton <= v.buttonState && buttonState == v.buttonState - actionButton)
    ensures action != Down && action != ButtonPress && action != ButtonRelease && v.pendingButtons == {} ==>
              (r.outcome.Pass? <==> buttonState == v.buttonState)
    ensures action != Down && r.outcome.Pass? ==> r.verifier.buttonState == buttonState
    ensures r.outcome.Fail? ==> r.verifier.buttonState == v.buttonState
  {
  }

  /** The final comparison with the expected state, and the update of the state. */
  function CheckState(v: ButtonVerifier, buttonState: set<MotionButton>, expected: set<MotionButton>): (r: ButtonStep)
    ensures r.outcome.Pass? <==> buttonState == expected
    ensures r.verifier == if buttonState == expected then v.(buttonState := buttonState) else v
  {
    if buttonState != expected then ButtonStep(v, Fail(UnexpectedButtonState))
    else ButtonStep(v.(buttonState := buttonState), Pass)
  }

  /** Pending buttons are never already pressed. */
  ghost predicate ButtonVerifierValid(v: ButtonVerifier) {
    v.pendingButtons !! v.buttonState
  }

  lemma ProcessActionKeepsValid(v: ButtonVerifier, action: MotionAction, actionButton: set<MotionButton>,
                                buttonState: set<MotionButton>)
    requires ButtonVerifierValid(v)
    ensures ButtonVerifierValid(ProcessAction(v, action, actionButton, buttonState).verifier)
  {
  }

  datatype Verifier = Verifier(
    touchingPointerIdsByDevice: map<int, set<int>>,
    hoveringPointerIdsByDevice: map<int, set<int>>,
    buttonVerifierByDevice: map<int, ButtonVerifier>)

  datatype VerifierStep = VerifierStep(verifier: Verifier, outcome: Outcome)

  function NewVerifier(): (v: Verifier)
    ensures v.touchingPointerIdsByDevice == map[] && v.hoveringPointerIdsByDevice == map[]
    ensures v.buttonVerifierByDevice == map[]
    ensures VerifierValid(v)
  {
    Verifier(map[], map[], map[])
  }

  /** `ensure_touching_pointers_match`: the device has touching pointers, as many as the
      event, and each of the event's ids is among them. */
  predicate EnsureTouchingPointersMatch(v: Verifier, deviceId: int, pointerIds: seq<int>) {
    TouchingMatches(v.touchingPointerIdsByDevice, deviceId, pointerIds)
  }

  predicate Distinct(ids: seq<int>) {
    forall i, j :: 0 <= i < j < |ids| ==> ids[i] != ids[j]
  }

  lemma {:induction false} DistinctCardinality(ids: seq<int>)
    requires Distinct(ids)
    ensures |set i | 0 <= i < |ids| :: ids[i]| == |ids|
  {
    if ids != [] {
      var last := ids[|ids| - 1];
      var prefix := ids[..|ids| - 1];
      assert Distinct(prefix);
      DistinctCardinality(prefix);
      var all := set i | 0 <= i < |ids| :: ids[i];
      var front := set i | 0 <= i < |prefix| :: prefix[i];
      assert all == front + {last} by {
        forall x | x in all
          ensures x in front + {last}
        {
          var i :| 0 <= i < |ids| && ids[i] == x;
          if i < |ids| - 1 {
            assert prefix[i] == x;
          }
        }
      }
      assert last !in front;
    }
  }

  /** For an event without repeated ids, the match check is equality of the touching set
      with the event's ids. */
  lemma TouchingMatchIsSetEquality(v: Verifier, deviceId: int, pointerIds: seq<int>)
    requires Distinct(pointerIds)
    ensures EnsureTouchingPointersMatch(v, deviceId, pointerIds) <==>
              deviceId in v.touchingPointerIdsByDevice
              && v.touchingPointerIdsByDevice[deviceId] == set i | 0 <= i < |pointerIds| :: pointerIds[i]
  {
    var ids := set i | 0 <= i < |pointerIds| :: pointerIds[i];
    DistinctCardinality(pointerIds);
    if EnsureTouchingPointersMatch(v, deviceId, pointerIds) {
      var touching := v.touchingPointerIdsByDevice[deviceId];
      assert ids <= touching;
      SubsetOfEqualSize(ids, touching);
    }
  }

  lemma SubsetOfEqualSize(a: set<int>, b: set<int>)
    requires a <= b && |a| == |b|
    ensures a == b
  {
    assert b == a + (b - a);
    assert a * (b - a) == {};
    assert |b - a| == 0;
  }

  /** `process_movement`. */
  function ProcessMovement(v: Verifier, deviceId: int, source: set<SourceClass>, action: MotionAction,
                           actionButton: set<MotionButton>, pointerIds: seq<int>,
                           flags: set<MotionFlag>, buttonState: set<MotionButton>): (r: VerifierStep)
  {
    if ClassPointer !in source then VerifierStep(v, Pass)
    else match VerifyEvent(action, actionButton, pointerIds, flags)
      case Fail(message) => VerifierStep(v, Fail(message))
      case Pass =>
        var step := ProcessAction(ButtonsOf(v, deviceId), action, actionButton, buttonState);
        var v1 := v.(buttonVerifierByDevice := v.buttonVerifierByDevice[deviceId := step.verifier]);
        if step.outcome.Fail? then VerifierStep(v1, step.outcome)
        else ProcessPointers(v1, deviceId, action, pointerIds)
  }

  /** The touching and hovering part of `process_movement`, for a well-shaped event whose
      buttons were accepted: touch actions update the touching pointers, hover actions the
      hovering ones, and every other action is accepted as it is. */
  function ProcessPointers(v: Verifier, deviceId: int, action: MotionAction, pointerIds: seq<int>): (r: VerifierStep)
    requires |pointerIds| >= 1
    requires action.PointerDown? || action.PointerUp? ==> action.actionIndex < |pointerIds|
  {
    if IsTouchAction(action) then
      var step := ProcessTouching(v.touchingPointerIdsByDevice, deviceId, action, pointerIds);
      VerifierStep(v.(touchingPointerIdsByDevice := step.ids), step.outcome)
    else if IsHoverAction(action) then
      var step := ProcessHovering(v.hoveringPointerIdsByDevice, deviceId, action, pointerIds[0]);
      VerifierStep(v.(hoveringPointerIdsByDevice := step.ids), step.outcome)
    else VerifierStep(v, Pass)
  }

  /** What one `process_movement` call `r` may change. */
  lemma ProcessMovementFrame(v: Verifier, deviceId: int, source: set<SourceClass>, action: MotionAction,
                             actionButton: set<MotionButton>, pointerIds: seq<int>,
                             flags: set<MotionFlag>, buttonState: set<MotionButton>, r: VerifierStep)
    requires r == ProcessMovement(v, deviceId, source, action, actionButton, pointerIds, flags, buttonState)
    ensures ClassPointer !in source ==> r == VerifierStep(v, Pass)
    ensures ClassPointer in source && !WellShaped(action, actionButton, pointerIds, flags) ==>
              r.verifier == v && r.outcome.Fail?
    ensures r.verifier.buttonVerifierByDevice.Keys <= v.buttonVerifierByDevice.Keys + {deviceId}
    ensures OnlyDeviceChanged(v.touchingPointerIdsByDevice, r.verifier.touchingPointerIdsByDevice, deviceId)
    ensures OnlyDeviceChanged(v.hoveringPointerIdsByDevice, r.verifier.hoveringPointerIdsByDevice, deviceId)
    ensures forall d :: d != deviceId && d in v.buttonVerifierByDevice ==>
              d in r.verifier.buttonVerifierByDevice
              && r.verifier.buttonVerifierByDevice[d] == v.buttonVerifierByDevice[d]
    ensures NoneEmpty(v.hoveringPointerIdsByDevice) ==> NoneEmpty(r.verifier.hoveringPointerIdsByDevice)
  {
    if ClassPointer in source && VerifyEvent(action, actionButton, pointerIds, flags).Pass? {
      var step := ProcessAction(ButtonsOf(v, deviceId), action, actionButton, buttonState);
      var v1 := v.(buttonVerifierByDevice := v.buttonVerifierByDevice[deviceId := step.verifier]);
      if step.outcome.Pass? {
        ProcessPointersFrame(v1, deviceId, action, pointerIds, ProcessPointers(v1, deviceId, action, pointerIds));
      }
    }
  }

  lemma ProcessPointersFrame(v: Verifier, deviceId: int, action: MotionAction, pointerIds: seq<int>, r: VerifierStep)
    requires |pointerIds| >= 1
    requires action.PointerDown? || action.PointerUp? ==> action.actionIndex < |pointerIds|
    requires r == ProcessPointers(v, deviceId, action, pointerIds)
    ensures r.verifier.buttonVerifierByDevice == v.buttonVerifierByDevice
    ensures OnlyDeviceChanged(v.touchingPointerIdsByDevice, r.verifier.touchingPointerIdsByDevice, deviceId)
    ensures OnlyDeviceChanged(v.hoveringPointerIdsByDevice, r.verifier.hoveringPointerIdsByDevice, deviceId)
    ensures NoneEmpty(v.hoveringPointerIdsByDevice) ==> NoneEmpty(r.verifier.hoveringPointerIdsByDevice)
  {
    if IsTouchAction(action) {
      var touching := v.touchingPointerIdsByDevice;
      ProcessTouchingFrame(touching, deviceId, action, pointerIds, ProcessTouching(touching, deviceId, action, pointerIds));
    } else if IsHoverAction(action) {
      var hovering := v.hoveringPointerIdsByDevice;
      ProcessHoveringRules(hovering, deviceId, action, pointerIds[0], ProcessHovering(hovering, deviceId, action, pointerIds[0]));
    }
  }

  predicate IsTouchAction(action: MotionAction) {
    action.Down? || action.PointerDown? || action.Move? || action.PointerUp? || action.Up? || action.Cancel?
  }

  predicate IsHoverAction(action: MotionAction) {
    action.HoverEnter? || action.HoverMove? || action.HoverExit?
  }

  /** Devices other than `deviceId` keep their entry, or their absence, unchanged. */
  ghost predicate OnlyDeviceChanged(before: map<int, set<int>>, after: map<int, set<int>>, deviceId: int) {
    && (forall d :: d != deviceId ==> (d in after <==> d in before))
    && (forall d :: d != deviceId && d in before ==> after[d] == before[d])
  }

  ghost predicate NoneEmpty(ids: map<int, set<int>>) {
    forall d :: d in ids ==> ids[d] != {}
  }

  datatype PointerStep = PointerStep(ids: map<int, set<int>>, outcome: Outcome)

  /** `EnsureTouchingPointersMatch` on the touching map alone. */
  predicate TouchingMatches(touching: map<int, set<int>>, deviceId: int, pointerIds: seq<int>) {
    && deviceId in touching
    && |touching[deviceId]| == |pointerIds|
    && forall i :: 0 <= i < |pointerIds| ==> pointerIds[i] in touching[deviceId]
  }

  /** The touching pointers after a DOWN, POINTER_DOWN, MOVE, POINTER_UP, UP or CANCEL. */
  function ProcessTouching(touching: map<int, set<int>>, deviceId: int, action: MotionAction,
                           pointerIds: seq<int>): (r: PointerStep)
    requires |pointerIds| >= 1
    requires action.PointerDown? || action.PointerUp? ==> action.actionIndex < |pointerIds|
  {
    match action
    case Down =>
      if deviceId in touching then PointerStep(touching, Fail(DownWhilePointersDown))
      else PointerStep(touching[deviceId := {pointerIds[0]}], Pass)
    case PointerDown(actionIndex) =>
      if deviceId !in touching then PointerStep(touching, Fail(PointerDownWithoutPointers))
      else if |touching[deviceId]| != |pointerIds| - 1 then
        PointerStep(touching, Fail(PointerDownWrongPointerCount))
      else if pointerIds[actionIndex] in touching[deviceId] then
        PointerStep(touching, Fail(PointerDownOfPointerDown))
      else PointerStep(touching[deviceId := touching[deviceId] + {pointerIds[actionIndex]}], Pass)
    case Move =>
      if !TouchingMatches(touching, deviceId, pointerIds) then
        PointerStep(touching, Fail(MovePointersMismatch))
      else PointerStep(touching, Pass)
    case PointerUp(actionIndex) =>
      if !TouchingMatches(touching, deviceId, pointerIds) then
        PointerStep(touching, Fail(PointerUpPointersMismatch))
      else PointerStep(touching[deviceId := touching[deviceId] - {pointerIds[actionIndex]}], Pass)
    case Up =>
      if deviceId !in touching then PointerStep(touching, Fail(UpWithoutPointers))
      else if |touching[deviceId]| != 1 then PointerStep(touching, Fail(UpWithSeveralPointers))
      else if pointerIds[0] !in touching[deviceId] then PointerStep(touching, Fail(UpOfPointerNotDown))
      else PointerStep(touching - {deviceId}, Pass)
    case Cancel =>
      if !TouchingMatches(touching, deviceId, pointerIds) then
        PointerStep(touching, Fail(CancelPointersMismatch))
      else PointerStep(touching - {deviceId}, Pass)
    case _ => PointerStep(touching, Pass)
  }

  /** Only the device's own touching pointers change, and a rejected event changes none. */
  lemma ProcessTouchingFrame(touching: map<int, set<int>>, deviceId: int, action: MotionAction,
                             pointerIds: seq<int>, r: PointerStep)
    requires |pointerIds| >= 1
    requires action.PointerDown? || action.PointerUp? ==> action.actionIndex < |pointerIds|
    requires r == ProcessTouching(touching, deviceId, action, pointerIds)
    ensures OnlyDeviceChanged(touching, r.ids, deviceId)
    ensures r.outcome.Fail? ==> r.ids == touching
  {
    match action {
      case Down => OneDeviceEdit(touching, r.ids, deviceId);
      case PointerDown(_) => OneDeviceEdit(touching, r.ids, deviceId);
      case PointerUp(_) => OneDeviceEdit(touching, r.ids, deviceId);
      case Up => OneDeviceEdit(touching, r.ids, deviceId);
      case Cancel => OneDeviceEdit(touching, r.ids, deviceId);
      case _ => OneDeviceEdit(touching, r.ids, deviceId);
    }
  }

  /** Keeping a map, removing one key, or setting one key changes no other key. */
  lemma OneDeviceEdit(before: map<int, set<int>>, after: map<int, set<int>>, deviceId: int)
    requires after == before || after == before - {deviceId}
             || (deviceId in after && after == before[deviceId := after[deviceId]])
    ensures OnlyDeviceChanged(before, after, deviceId)
  {
  }

  /** The rules the touching pointers follow, for the result `r`. */
  lemma ProcessTouchingRules(touching: map<int, set<int>>, deviceId: int, action: MotionAction,
                             pointerIds: seq<int>, r: PointerStep)
    requires |pointerIds| >= 1
    requires action.PointerDown? || action.PointerUp? ==> action.actionIndex < |pointerIds|
    requires r == ProcessTouching(touching, deviceId, action, pointerIds)
    // A gesture starts with DOWN on a device with nothing down, and UP ends it with the
    // last touching pointer; CANCEL ends it with the full set of touching pointers.
    ensures action == Down ==>
              (r.outcome.Pass? <==> deviceId !in touching)
              && (r.outcome.Pass? ==> deviceId in r.ids && r.ids[deviceId] == {pointerIds[0]})
    ensures action == Up ==>
              (r.outcome.Pass? <==> deviceId in touching && touching[deviceId] == {pointerIds[0]})
              && (r.outcome.Pass? ==> deviceId !in r.ids)
    ensures action == Cancel ==>
              (r.outcome.Pass? <==> TouchingMatches(touching, deviceId, pointerIds))
              && (r.outcome.Pass? ==> deviceId !in r.ids)
    ensures action == Move ==>
              (r.outcome.Pass? <==> TouchingMatches(touching, deviceId, pointerIds)) && r.ids == touching
    // POINTER_DOWN adds one new pointer to the others; POINTER_UP takes one away.
    ensures action.PointerDown? ==>
              (r.outcome.Pass? <==> deviceId in touching && |touching[deviceId]| == |pointerIds| - 1
                                    && pointerIds[action.actionIndex] !in touching[deviceId])
              && (r.outcome.Pass? ==> deviceId in r.ids && r.ids[deviceId] == touching[deviceId] + {pointerIds[action.actionIndex]})
    ensures action.PointerUp? ==>
              (r.outcome.Pass? <==> TouchingMatches(touching, deviceId, pointerIds))
              && (r.outcome.Pass? ==> deviceId in r.ids && r.ids[deviceId] == touching[deviceId] - {pointerIds[action.actionIndex]})
  {
    match action
    case Up =>
      if deviceId in touching && |touching[deviceId]| == 1 && pointerIds[0] in touching[deviceId] {
        SingletonOfSizeOne(touching[deviceId], pointerIds[0]);
      }
    case _ =>
  }

  lemma SingletonOfSizeOne(s: set<int>, x: int)
    requires |s| == 1 && x in s
    ensures s == {x}
  {
    assert |s - {x}| == 0;
  }

  /** The hovering pointers after a HOVER_ENTER, HOVER_MOVE or HOVER_EXIT of `pointerId`. */
  function ProcessHovering(hovering: map<int, set<int>>, deviceId: int, action: MotionAction,
                           pointerId: int): (r: PointerStep)
  {
    match action
    case HoverEnter =>
      if deviceId in hovering then PointerStep(hovering, Fail(HoverEnterWhileHovering))
      else PointerStep(hovering[deviceId := {pointerId}], Pass)
    case HoverMove =>
      var current := if deviceId in hovering then hovering[deviceId] else {};
      PointerStep(hovering[deviceId := current + {pointerId}], Pass)
    case HoverExit =>
      if deviceId !in hovering then PointerStep(hovering, Fail(HoverExitWithoutHovering))
      else
        var remaining := hovering[deviceId] - {pointerId};
        if remaining != {} then
          PointerStep(hovering[deviceId := remaining], Fail(HoverExitWithOthersHovering))
        else PointerStep(hovering - {deviceId}, Pass)
    case _ => PointerStep(hovering, Pass)
  }

  /** The rules the hovering pointers follow, for the result `r`. */
  lemma ProcessHoveringRules(hovering: map<int, set<int>>, deviceId: int, action: MotionAction,
                             pointerId: int, r: PointerStep)
    requires r == ProcessHovering(hovering, deviceId, action, pointerId)
    ensures OnlyDeviceChanged(hovering, r.ids, deviceId)
    ensures NoneEmpty(hovering) ==> NoneEmpty(r.ids)
    ensures action == HoverEnter ==>
              (r.outcome.Pass? <==> deviceId !in hovering)
              && r.ids == if deviceId in hovering then hovering else hovering[deviceId := {pointerId}]
    // HOVER_MOVE is accepted without a HOVER_ENTER first.
    ensures action == HoverMove ==>
              r.outcome.Pass? && deviceId in r.ids && pointerId in r.ids[deviceId]
              && (deviceId in hovering ==> r.ids[deviceId] == hovering[deviceId] + {pointerId})
              && (deviceId !in hovering ==> r.ids[deviceId] == {pointerId})
    // HOVER_EXIT removes the pointer even when it is rejected because others still hover.
    ensures action == HoverExit ==>
              (r.outcome.Pass? <==> deviceId in hovering && hovering[deviceId] <= {pointerId})
              && (r.outcome.Pass? ==> deviceId !in r.ids)
              && (deviceId in hovering && r.outcome.Fail? ==> deviceId in r.ids && r.ids[deviceId] == hovering[deviceId] - {pointerId})
    // A HOVER_EXIT on a device that is not hovering is rejected and changes nothing.
    ensures action == HoverExit && deviceId !in hovering ==> r.ids == hovering
  {
  }

  /** `reset_device`: the device's touching and hovering pointers are forgotten; its button
      state and every other device are kept. */
  function ResetDevice(v: Verifier, deviceId: int): (r: Verifier)
    ensures deviceId !in r.touchingPointerIdsByDevice && deviceId !in r.hoveringPointerIdsByDevice
    ensures r.buttonVerifierByDevice == v.buttonVerifierByDevice
    ensures OnlyDeviceChanged(v.touchingPointerIdsByDevice, r.touchingPointerIdsByDevice, deviceId)
    ensures OnlyDeviceChanged(v.hoveringPointerIdsByDevice, r.hoveringPointerIdsByDevice, deviceId)
  {
    v.(touchingPointerIdsByDevice := v.touchingPointerIdsByDevice - {deviceId},
       hoveringPointerIdsByDevice := v.hoveringPointerIdsByDevice - {deviceId})
  }

  /** A device that is recorded as hovering always has a hovering pointer, and every
      button verifier keeps its pending buttons apart from its pressed ones. */
  ghost predicate VerifierValid(v: Verifier) {
    && NoneEmpty(v.hoveringPointerIdsByDevice)
    && (forall d :: d in v.buttonVerifierByDevice ==> ButtonVerifierValid(v.buttonVerifierByDevice[d]))
  }

  lemma ProcessMovementKeepsValid(v: Verifier, deviceId: int, source: set<SourceClass>, action: MotionAction,
                                  actionButton: set<MotionButton>, pointerIds: seq<int>,
                                  flags: set<MotionFlag>, buttonState: set<MotionButton>)
    requires VerifierValid(v)
    ensures VerifierValid(ProcessMovement(v, deviceId, source, action, actionButton, pointerIds,
                                          flags, buttonState).verifier)
  {
    var r := ProcessMovement(v, deviceId, source, action, actionButton, pointerIds, flags, buttonState);
    ProcessMovementFrame(v, deviceId, source, action, actionButton, pointerIds, flags, buttonState, r);
    if ClassPointer in source && VerifyEvent(action, actionButton, pointerIds, flags).Pass? {
      var step := ProcessAction(ButtonsOf(v, deviceId), action, actionButton, buttonState);
      ProcessActionKeepsValid(ButtonsOf(v, deviceId), action, actionButton, buttonState);
      var v1 := v.(buttonVerifierByDevice := v.buttonVerifierByDevice[deviceId := step.verifier]);
      if step.outcome.Pass? {
        ProcessPointersFrame(v1, deviceId, action, pointerIds, r);
      }
      assert r.verifier.buttonVerifierByDevice == v1.buttonVerifierByDevice;
    }
  }

  lemma ResetDeviceKeepsValid(v: Verifier, deviceId: int)
    requires VerifierValid(v)
    ensures VerifierValid(ResetDevice(v, deviceId))
  {
  }

  /** One call of `process_movement`, as data. */
  datatype MotionEvent = MotionEvent(
    deviceId: int,
    source: set<SourceClass>,
    action: MotionAction,
    actionButton: set<MotionButton>,
    pointerIds: seq<int>,
    flags: set<MotionFlag>,
    buttonState: set<MotionButton>)

  function Apply(v: Verifier, e: MotionEvent): VerifierStep {
    ProcessMovement(v, e.deviceId, e.source, e.action, e.actionButton, e.pointerIds, e.flags, e.buttonState)
  }

  /** The verdicts for a stream of events given to one verifier in order, and the
      verifier's final state. */
  function ProcessStream(v: Verifier, events: seq<MotionEvent>): (r: (Verifier, seq<bool>))
    ensures |r.1| == |events|
    ensures forall i :: 0 <= i < |events| && ClassPointer !in events[i].source ==> r.1[i]
    decreases |events|
  {
    if events == [] then (v, [])
    else
      var step := Apply(v, events[0]);
      var rest := ProcessStream(step.verifier, events[1..]);
      (rest.0, [step.outcome.Pass?] + rest.1)
  }

  /** The verifier's invariant holds after any stream, whatever the verdicts. */
  lemma {:induction false} ProcessStreamKeepsValid(v: Verifier, events: seq<MotionEvent>)
    requires VerifierValid(v)
    ensures VerifierValid(ProcessStream(v, events).0)
    decreases |events|
  {
    if events != [] {
      var e := events[0];
      ProcessMovementKeepsValid(v, e.deviceId, e.source, e.action, e.actionButton, e.pointerIds,
                                e.flags, e.buttonState);
      ProcessStreamKeepsValid(Apply(v, e).verifier, events[1..]);
    }
  }

  /** Whatever stream a new verifier is given, no hovering set is ever left empty and no
      pending button is ever among the pressed ones. */
  lemma NewVerifierStaysValid(events: seq<MotionEvent>)
    ensures VerifierValid(ProcessStream(NewVerifier(), events).0)
  {
    ProcessStreamKeepsValid(NewVerifier(), events);
  }

  /** A stream of events from other devices leaves a device's pointers and buttons alone. */
  lemma {:induction false} OtherDevicesDoNotInterfere(v: Verifier, events: seq<MotionEvent>, deviceId: int)
    requires forall i :: 0 <= i < |events| ==> events[i].deviceId != deviceId
    ensures var w := ProcessStream(v, events).0;
      && (deviceId in w.touchingPointerIdsByDevice <==> deviceId in v.touchingPointerIdsByDevice)
      && (deviceId in v.touchingPointerIdsByDevice ==>
            w.touchingPointerIdsByDevice[deviceId] == v.touchingPointerIdsByDevice[deviceId])
      && (deviceId in w.hoveringPointerIdsByDevice <==> deviceId in v.hoveringPointerIdsByDevice)
      && (deviceId in v.hoveringPointerIdsByDevice ==>
            w.hoveringPointerIdsByDevice[deviceId] == v.hoveringPointerIdsByDevice[deviceId])
      && (deviceId in v.buttonVerifierByDevice ==>
            deviceId in w.buttonVerifierByDevice
            && w.buttonVerifierByDevice[deviceId] == v.buttonVerifierByDevice[deviceId])
    decreases |events|
  {
    if events != [] {
      var e := events[0];
      var step := Apply(v, e);
      ProcessMovementFrame(v, e.deviceId, e.source, e.action, e.actionButton, e.pointerIds, e.flags,
                           e.buttonState, step);
      OtherDevicesDoNotInterfere(step.verifier, events[1..], deviceId);
    }
  }

  /** The button verifier a device starts from: its own, or a default one. */
  function ButtonsOf(v: Verifier, deviceId: int): ButtonVerifier {
    if deviceId in v.buttonVerifierByDevice then v.buttonVerifierByDevice[deviceId] else ButtonVerifier({}, {})
  }

  /** A DOWN followed by an UP of the same pointer is accepted on a device with nothing down
      and no pending buttons, and leaves the touching pointers as they were. */
  lemma DownThenUpRestoresTouching(v: Verifier, deviceId: int, source: set<SourceClass>, pointerId: int)
    requires ClassPointer in source
    requires deviceId !in v.touchingPointerIdsByDevice
    requires ButtonsOf(v, deviceId).pendingButtons == {}
    ensures var buttons := ButtonsOf(v, deviceId).buttonState;
      var down := ProcessMovement(v, deviceId, source, Down, {}, [pointerId], {}, buttons);
      var up := ProcessMovement(down.verifier, deviceId, source, Up, {}, [pointerId], {}, buttons);
      && down.outcome.Pass? && up.outcome.Pass?
      && up.verifier.touchingPointerIdsByDevice == v.touchingPointerIdsByDevice
  {
    var buttons := ButtonsOf(v, deviceId).buttonState;
    var down := ProcessMovement(v, deviceId, source, Down, {}, [pointerId], {}, buttons);
    assert down.verifier.touchingPointerIdsByDevice == v.touchingPointerIdsByDevice[deviceId := {pointerId}];
    assert ButtonsOf(down.verifier, deviceId) == ButtonVerifier(buttons, {});
  }

  /** A HOVER_ENTER followed by a HOVER_EXIT of the same pointer is accepted on a device that
      is not hovering, and leaves the hovering pointers as they were. */
  lemma HoverEnterThenExitRestoresHovering(v: Verifier, deviceId: int, source: set<SourceClass>, pointerId: int)
    requires ClassPointer in source
    requires deviceId !in v.hoveringPointerIdsByDevice
    requires ButtonsOf(v, deviceId).pendingButtons == {}
    ensures var buttons := ButtonsOf(v, deviceId).buttonState;
      var enter := ProcessMovement(v, deviceId, source, HoverEnter, {}, [pointerId], {}, buttons);
      var exit := ProcessMovement(enter.verifier, deviceId, source, HoverExit, {}, [pointerId], {}, buttons);
      && enter.outcome.Pass? && exit.outcome.Pass?
      && exit.verifier.hoveringPointerIdsByDevice == v.hoveringPointerIdsByDevice
  {
    var buttons := ButtonsOf(v, deviceId).buttonState;
    var enter := ProcessMovement(v, deviceId, source, HoverEnter, {}, [pointerId], {}, buttons);
    assert enter.verifier.hoveringPointerIdsByDevice == v.hoveringPointerIdsByDevice[deviceId := {pointerId}];
    assert ButtonsOf(enter.verifier, deviceId) == ButtonVerifier(buttons, {});
  }

  /** After a reset, a DOWN on the device is judged by its buttons alone: a gesture left
      unfinished before the reset does not block it. */
  lemma ResetDeviceAllowsNewGesture(v: Verifier, deviceId: int, source: set<SourceClass>, pointerId: int,
                                    buttonState: set<MotionButton>)
    requires ClassPointer in source
    ensures var r := ProcessMovement(ResetDevice(v, deviceId), deviceId, source, Down, {}, [pointerId], {}, buttonState);
      r.outcome.Pass? <==> ProcessAction(ButtonsOf(v, deviceId), Down, {}, buttonState).outcome.Pass?
  {
  }
}
