/**
 * The input verifier's scenarios: each lemma feeds a stream of events to a new verifier
 * and states which of them are accepted.
 */
module VerifierExamples {
  import opened InputVerifier

  const Touchscreen: set<SourceClass> := {ClassPointer}
  const Mouse: set<SourceClass> := {ClassPointer}
  const MouseRelative: set<SourceClass> := {ClassNavigation}

  /** A touch event without buttons. */
  function Touch(deviceId: int, action: MotionAction, pointerIds: seq<int>): MotionEvent {
    MotionEvent(deviceId, Touchscreen, action, {}, pointerIds, {}, {})
  }

  /** A single-pointer mouse event on device 1. */
  function Click(action: MotionAction, actionButton: set<MotionButton>, buttonState: set<MotionButton>): MotionEvent {
    MotionEvent(1, Mouse, action, actionButton, [0], {}, buttonState)
  }

  function Verdicts(events: seq<MotionEvent>): seq<bool> {
    ProcessStream(NewVerifier(), events).1
  }

  /** The verdicts of a stream, one event at a time. */
  lemma StreamStep(v: Verifier, e: MotionEvent, rest: seq<MotionEvent>)
    ensures ProcessStream(v, [e] + rest).1
            == [Apply(v, e).outcome.Pass?] + ProcessStream(Apply(v, e).verifier, rest).1
  {
    assert ([e] + rest)[1..] == rest;
  }

  const NoButtons := ButtonVerifier({}, {})

  /** A DOWN must carry exactly one pointer. */
  lemma BadDownEvent()
    ensures Verdicts([Touch(1, Down, [0, 1])]) == [false]
  {
  }

  lemma SinglePointerStream()
    ensures Verdicts([Touch(1, Down, [0]), Touch(1, Move, [0]), Touch(1, Up, [0])]) == [true, true, true]
  {
  }

  lemma TwoPointerStream()
    ensures Verdicts([Touch(1, Down, [0]), Touch(1, PointerDown(1), [0, 1]),
                      Touch(1, PointerUp(0), [0, 1]), Touch(1, Up, [1])]) == [true, true, true, true]
  {
    var e1, e2, e3, e4 := Touch(1, Down, [0]), Touch(1, PointerDown(1), [0, 1]),
                          Touch(1, PointerUp(0), [0, 1]), Touch(1, Up, [1]);
    FirstPointerDown();
    SecondPointerDown();
    FirstPointerUp();
    LastPointerUp();
    StreamStep(Touching({1}), e4, []);
    StreamStep(Touching({0, 1}), e3, [e4]);
    StreamStep(Touching({0}), e2, [e3, e4]);
    StreamStep(NewVerifier(), e1, [e2, e3, e4]);
  }

  /** Device 1 touching with `ids`, and no button pressed. */
  function Touching(ids: set<int>): Verifier {
    Verifier(map[1 := ids], map[], map[1 := NoButtons])
  }

  lemma FirstPointerDown()
    ensures Apply(NewVerifier(), Touch(1, Down, [0])) == VerifierStep(Touching({0}), Pass)
  {
    var none: set<MotionButton> := {};
    assert none - none == none;
  }

  lemma SecondPointerDown()
    ensures Apply(Touching({0}), Touch(1, PointerDown(1), [0, 1])) == VerifierStep(Touching({0, 1}), Pass)
  {
    assert {0} + {1} == {0, 1};
  }

  lemma FirstPointerUp()
    ensures Apply(Touching({0, 1}), Touch(1, PointerUp(0), [0, 1])) == VerifierStep(Touching({1}), Pass)
  {
    assert |{0, 1}| == 2 && {0, 1} - {0} == {1};
  }

  lemma LastPointerUp()
    ensures Apply(Touching({1}), Touch(1, Up, [1])).outcome == Pass
  {
    assert |{1}| == 1;
  }

  /** Two touch devices interleave their gestures without interfering. */
  lemma MultiDeviceStream()
    ensures Verdicts([Touch(1, Down, [0]), Touch(1, Move, [0]), Touch(2, Down, [0]),
                      Touch(2, Move, [0]), Touch(1, Up, [0])]) == [true, true, true, true, true]
  {
    var e1, e2, e3, e4, e5 := Touch(1, Down, [0]), Touch(1, Move, [0]), Touch(2, Down, [0]),
                              Touch(2, Move, [0]), Touch(1, Up, [0]);
    FirstPointerDown();
    MoveOfOneDevice();
    SecondDeviceDown();
    MoveOfOtherDevice();
    UpOfFirstDevice();
    StreamStep(BothTouching(), e5, []);
    StreamStep(BothTouching(), e4, [e5]);
    StreamStep(Touching({0}), e3, [e4, e5]);
    StreamStep(Touching({0}), e2, [e3, e4, e5]);
    StreamStep(NewVerifier(), e1, [e2, e3, e4, e5]);
  }

  /** Pointer 0 down on both devices 1 and 2. */
  function BothTouching(): Verifier {
    Verifier(map[1 := {0}, 2 := {0}], map[], map[1 := NoButtons, 2 := NoButtons])
  }

  lemma MoveOfOneDevice()
    ensures Apply(Touching({0}), Touch(1, Move, [0])) == VerifierStep(Touching({0}), Pass)
  {
    var none: set<MotionButton> := {};
    assert none - none == none;
  }

  lemma SecondDeviceDown()
    ensures Apply(Touching({0}), Touch(2, Down, [0])) == VerifierStep(BothTouching(), Pass)
  {
    var none: set<MotionButton> := {};
    assert none - none == none;
  }

  lemma MoveOfOtherDevice()
    ensures Apply(BothTouching(), Touch(2, Move, [0])) == VerifierStep(BothTouching(), Pass)
  {
    var none: set<MotionButton> := {};
    assert none - none == none;
  }

  lemma UpOfFirstDevice()
    ensures Apply(BothTouching(), Touch(1, Up, [0])).outcome == Pass
  {
    assert |{0}| == 1;
  }

  lemma ActionCancel()
    ensures Verdicts([Touch(1, Down, [0]), MotionEvent(1, Touchscreen, Cancel, {}, [0], {Canceled}, {})])
            == [true, true]
  {
    var e1, e2 := Touch(1, Down, [0]), MotionEvent(1, Touchscreen, Cancel, {}, [0], {Canceled}, {});
    var v1 := Verifier(map[1 := {0}], map[], map[1 := NoButtons]);
    assert ProcessAction(NoButtons, Down, {}, {}).verifier == NoButtons;
    assert Apply(NewVerifier(), e1) == VerifierStep(v1, Pass);
    assert TouchingMatches(v1.touchingPointerIdsByDevice, 1, [0]);
    assert Apply(v1, e2).outcome == Pass;
    StreamStep(NewVerifier(), e1, [e2]);
  }

  lemma InvalidActionCancel()
    ensures Verdicts([Touch(1, Down, [0]), Touch(1, Cancel, [0])]) == [true, false]
  {
  }

  lemma InvalidUp()
    ensures Verdicts([Touch(1, Up, [0])]) == [false]
  {
  }

  lemma CorrectHoverSequence()
    ensures Verdicts([Touch(1, HoverEnter, [0]), Touch(1, HoverMove, [0]), Touch(1, HoverExit, [0]),
                      Touch(1, HoverEnter, [0])]) == [true, true, true, true]
  {
    var e1, e2, e3, e4 := Touch(1, HoverEnter, [0]), Touch(1, HoverMove, [0]), Touch(1, HoverExit, [0]),
                          Touch(1, HoverEnter, [0]);
    FirstHoverEnter();
    HoverMoveOfHoveringPointer();
    HoverExitOfLastPointer();
    HoverEnterAgain();
    StreamStep(Hovering({}), e4, []);
    StreamStep(Hovering({0}), e3, [e4]);
    StreamStep(Hovering({0}), e2, [e3, e4]);
    StreamStep(NewVerifier(), e1, [e2, e3, e4]);
  }

  /** Device 1 hovering with `ids` (with none, after its hover exit). */
  function Hovering(ids: set<int>): Verifier {
    Verifier(map[], if ids == {} then map[] else map[1 := ids], map[1 := NoButtons])
  }

  lemma FirstHoverEnter()
    ensures Apply(NewVerifier(), Touch(1, HoverEnter, [0])) == VerifierStep(Hovering({0}), Pass)
  {
    var none: set<MotionButton> := {};
    assert none - none == none;
  }

  lemma HoverMoveOfHoveringPointer()
    ensures Apply(Hovering({0}), Touch(1, HoverMove, [0])) == VerifierStep(Hovering({0}), Pass)
  {
    var none: set<MotionButton> := {};
    assert none - none == none;
    assert {0} + {0} == {0};
  }

  lemma HoverExitOfLastPointer()
    ensures Apply(Hovering({0}), Touch(1, HoverExit, [0])) == VerifierStep(Hovering({}), Pass)
  {
    var none: set<MotionButton> := {};
    assert none - none == none;
    assert {0} - {0} == {};
  }

  lemma HoverEnterAgain()
    ensures Apply(Hovering({}), Touch(1, HoverEnter, [0])).outcome == Pass
  {
  }

  lemma DoubleHoverEnter()
    ensures Verdicts([Touch(1, HoverEnter, [0]), Touch(1, HoverEnter, [0])]) == [true, false]
  {
  }

  lemma RelativeMouseMove()
    ensures Verdicts([MotionEvent(2, MouseRelative, Move, {}, [0], {}, {})]) == [true]
  {
  }

  lemma MoveWithWrongNumberOfPointers()
    ensures Verdicts([Touch(1, Down, [0]), Touch(1, PointerDown(1), [0, 1]), Touch(1, Move, [0])])
            == [true, true, false]
  {
  }

  lemma CorrectButtonPress()
    ensures Verdicts([Click(ButtonPress, {Primary}, {Primary})]) == [true]
  {
  }

  lemma ButtonPressWithoutActionButton()
    ensures Verdicts([Click(ButtonPress, {}, {})]) == [false]
  {
  }

  lemma ButtonPressWithMultipleActionButtons()
    ensures Verdicts([Click(ButtonPress, {Back, Forward}, {Back, Forward})]) == [false]
  {
  }

  lemma ButtonPressWithoutActionButtonInState()
    ensures Verdicts([Click(ButtonPress, {Primary}, {})]) == [false]
  {
  }

  lemma ButtonReleaseWithActionButtonInState()
    ensures Verdicts([Click(ButtonPress, {Primary}, {Primary}), Click(ButtonRelease, {Primary}, {Primary})])
            == [true, false]
  {
  }

  lemma NonButtonActionWithActionButton()
    ensures Verdicts([Click(HoverEnter, {Primary}, {})]) == [false]
    ensures Verdicts([Click(HoverEnter, {Primary}, {Primary})]) == [false]
  {
  }

  lemma NonButtonActionWithButtonStateChange()
    ensures Verdicts([Click(HoverEnter, {}, {}), Click(HoverMove, {}, {Back})]) == [true, false]
  {
  }

  lemma NonButtonActionMissingButtonState()
    ensures Verdicts([Click(HoverEnter, {}, {}), Click(ButtonPress, {Back}, {Back}), Click(HoverMove, {}, {})])
            == [true, true, false]
  {
  }

  lemma UpWithoutButtonRelease()
    ensures Verdicts([Click(Down, {}, {Primary}), Click(ButtonPress, {Primary}, {Primary}), Click(Up, {}, {})])
            == [true, true, false]
  {
  }

  lemma ButtonPressForAlreadyPressedButton()
    ensures Verdicts([Click(ButtonPress, {Back}, {Back}), Click(ButtonPress, {Back}, {Back})]) == [true, false]
  {
  }

  lemma ButtonReleaseForUnpressedButton()
    ensures Verdicts([Click(ButtonRelease, {Back}, {})]) == [false]
  {
  }

  lemma CorrectMultipleButtonPressesWithoutDown()
    ensures Verdicts([Click(ButtonPress, {Back}, {Back}), Click(ButtonPress, {Forward}, {Back, Forward})])
            == [true, true]
  {
  }

  lemma CorrectDownWithButtonPress()
    ensures Verdicts([Click(Down, {}, {Primary, Secondary}), Click(ButtonPress, {Primary}, {Primary}),
                      Click(ButtonPress, {Secondary}, {Primary, Secondary}),
                      Click(Move, {}, {Primary, Secondary})]) == [true, true, true, true]
  {
    var e1, e2, e3, e4 := Click(Down, {}, {Primary, Secondary}), Click(ButtonPress, {Primary}, {Primary}),
                          Click(ButtonPress, {Secondary}, {Primary, Secondary}), Click(Move, {}, {Primary, Secondary});
    DownWithTwoButtons();
    PressFirstPendingButton();
    PressLastPendingButton();
    MoveWithPressedButtons();
    StreamStep(Pressing({Primary, Secondary}, {}), e4, []);
    StreamStep(Pressing({Primary}, {Secondary}), e3, [e4]);
    StreamStep(Pressing({}, {Primary, Secondary}), e2, [e3, e4]);
    StreamStep(NewVerifier(), e1, [e2, e3, e4]);
  }

  /** Pointer 0 of the mouse down, with `pressed` reported pressed and `pending` still
      awaiting their BUTTON_PRESS. */
  function Pressing(pressed: set<MotionButton>, pending: set<MotionButton>): Verifier {
    Verifier(map[1 := {0}], map[], map[1 := ButtonVerifier(pressed, pending)])
  }

  lemma DownWithTwoButtons()
    ensures Apply(NewVerifier(), Click(Down, {}, {Primary, Secondary}))
            == VerifierStep(Pressing({}, {Primary, Secondary}), Pass)
  {
    assert {Primary, Secondary} - {} == {Primary, Secondary};
  }

  lemma PressFirstPendingButton()
    ensures Apply(Pressing({}, {Primary, Secondary}), Click(ButtonPress, {Primary}, {Primary}))
            == VerifierStep(Pressing({Primary}, {Secondary}), Pass)
  {
    assert {Primary, Secondary} - {Primary} == {Secondary};
  }

  lemma PressLastPendingButton()
    ensures Apply(Pressing({Primary}, {Secondary}), Click(ButtonPress, {Secondary}, {Primary, Secondary}))
            == VerifierStep(Pressing({Primary, Secondary}, {}), Pass)
  {
    assert {Secondary} - {Secondary} == {};
    assert {Primary} + {Secondary} == {Primary, Secondary};
  }

  lemma MoveWithPressedButtons()
    ensures Apply(Pressing({Primary, Secondary}, {}), Click(Move, {}, {Primary, Secondary})).outcome == Pass
  {
  }

  lemma DownWithButtonStateChangeNotFollowedByButtonPress()
    ensures Verdicts([Click(Down, {}, {Primary}), Click(Move, {}, {Primary})]) == [true, false]
  {
  }

  lemma DownWithButtonStateChangeNotFollowedByEnoughButtonPresses()
    ensures Verdicts([Click(Down, {}, {Primary, Secondary}), Click(ButtonPress, {Primary}, {Primary}),
                      Click(Move, {}, {Primary})]) == [true, true, false]
  {
  }

  lemma DownMissingAlreadyPressedButton()
    ensures Verdicts([Click(ButtonPress, {Back}, {Back}), Click(Down, {}, {})]) == [true, false]
  {
  }

}
