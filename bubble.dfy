/**
 * The floating bubble of ControllerService.kt: the touch listener that toggles
 * the bubble on touch-down, drags it by the finger's displacement and relaunches
 * the main activity on a tap, and `DraggableComponent`'s accumulated drag offset.
 * The window manager and activity launches are recorded as effects.
 */
module Bubble {
  import opened Wrappers
  import opened KotlinInt

  /** `MotionEvent` action codes. */
  const ACTION_DOWN: int := 0
  const ACTION_UP: int := 1
  const ACTION_MOVE: int := 2

  /** A touch whose signed displacement is below this on both axes counts as a tap. */
  const TAP_SLOP: int := 10

  /** The bubble's layout position when the service starts. */
  const INITIAL_X: Int32 := 0
  const INITIAL_Y: Int32 := 100

  /** A `MotionEvent`: its action and its raw screen coordinates (already whole pixels). */
  datatype MotionEvent = MotionEvent(action: int, rawX: int, rawY: int)

  /** What a touch asks of the platform. */
  datatype Effect =
    | UpdateViewLayout(x: Int32, y: Int32)  // `mWindowManager.updateViewLayout(mFloatingView, params)`
    | StartMainActivity                     // `startActivity(Intent(..., MainActivity::class.java))`

  /**
   * The touch listener's world: `params.x/y`, the bubble's `isExpanded` flag and
   * the listener's own `initialX/initialY/initialTouchX/initialTouchY`.
   */
  datatype Listener = Listener(
    x: Int32, y: Int32, isExpanded: bool,
    initialX: Int32, initialY: Int32, initialTouchX: int, initialTouchY: int)

  /** The state after `onCreate`: the bubble at (0, 100), collapsed; the listener's fields at zero. */
  function InitialListener(): (s: Listener)
    ensures s.x == 0 && s.y == 100 && !s.isExpanded
    ensures s.initialX == 0 && s.initialY == 0 && s.initialTouchX == 0 && s.initialTouchY == 0
  {
    Listener(INITIAL_X, INITIAL_Y, false, 0, 0, 0, 0)
  }

  /** `(event.rawX - initialTouchX).toInt()`. */
  function Delta(raw: int, initialTouch: int): Int32
  {
    SaturateToInt(raw - initialTouch)
  }

  /** What `onTouch` does: the new state, the value it returns and the effects it requests. */
  datatype Reaction = Reaction(next: Listener, handled: bool, effects: seq<Effect>)

  /** `onTouch(v, event)`. */
  function React(s: Listener, event: Option<MotionEvent>): (r: Reaction)
    ensures r.handled <==> event.Some? && event.value.action in {ACTION_DOWN, ACTION_UP, ACTION_MOVE}
    ensures !r.handled ==> r.next == s && r.effects == []
    ensures (r.next.x, r.next.y) != (s.x, s.y) ==> event.Some? && event.value.action == ACTION_MOVE
    ensures r.next.isExpanded != s.isExpanded <==> event.Some? && event.value.action == ACTION_DOWN
    ensures StartMainActivity in r.effects <==>
      event.Some? && event.value.action == ACTION_UP
      && event.value.rawX - s.initialTouchX < TAP_SLOP && event.value.rawY - s.initialTouchY < TAP_SLOP
    ensures event.Some? && event.value.action == ACTION_MOVE ==> r.effects == [UpdateViewLayout(r.next.x, r.next.y)]
    ensures event.Some? && event.value.action != ACTION_MOVE ==>
      r.effects == (if StartMainActivity in r.effects then [StartMainActivity] else [])
  {
    match event
    case None => Reaction(s, false, [])
    case Some(e) =>
      if e.action == ACTION_DOWN then
        Reaction(s.(isExpanded := !s.isExpanded, initialX := s.x, initialY := s.y,
                    initialTouchX := e.rawX, initialTouchY := e.rawY), true, [])
      else if e.action == ACTION_UP then
        var xDiff, yDiff := Delta(e.rawX, s.initialTouchX), Delta(e.rawY, s.initialTouchY);
        Reaction(s, true, if xDiff < TAP_SLOP && yDiff < TAP_SLOP then [StartMainActivity] else [])
      else if e.action == ACTION_MOVE then
        var x := Wrap32(s.initialX + Delta(e.rawX, s.initialTouchX));
        var y := Wrap32(s.initialY + Delta(e.rawY, s.initialTouchY));
        Reaction(s.(x := x, y := y), true, [UpdateViewLayout(x, y)])
      else
        Reaction(s, false, [])
  }

  /** A down event flips `isExpanded`, records where the bubble and the finger are, and keeps the bubble still. */
  lemma DownRecordsStart(s: Listener, rawX: int, rawY: int)
    ensures var r := React(s, Some(MotionEvent(ACTION_DOWN, rawX, rawY)));
      && r.handled && r.effects == []
      && r.next == s.(isExpanded := !s.isExpanded, initialX := s.x, initialY := s.y,
                      initialTouchX := rawX, initialTouchY := rawY)
  {
  }

  /** Two down events leave `isExpanded` as it was. */
  lemma DownTwiceRestoresExpansion(s: Listener, first: MotionEvent, second: MotionEvent)
    requires first.action == ACTION_DOWN && second.action == ACTION_DOWN
    ensures React(React(s, Some(first)).next, Some(second)).next.isExpanded == s.isExpanded
  {
  }

  /** A move places the bubble at its touch-down position plus the finger's displacement. */
  lemma MoveFollowsFinger(s: Listener, rawX: int, rawY: int)
    requires INT_MIN <= rawX - s.initialTouchX <= INT_MAX && INT_MIN <= rawY - s.initialTouchY <= INT_MAX
    requires INT_MIN <= s.initialX + (rawX - s.initialTouchX) <= INT_MAX
    requires INT_MIN <= s.initialY + (rawY - s.initialTouchY) <= INT_MAX
    ensures var r := React(s, Some(MotionEvent(ACTION_MOVE, rawX, rawY)));
      && r.handled
      && r.next.x == s.initialX + (rawX - s.initialTouchX)
      && r.next.y == s.initialY + (rawY - s.initialTouchY)
      && r.effects == [UpdateViewLayout(r.next.x, r.next.y)]
      && r.next.isExpanded == s.isExpanded
  {
  }

  /** Moving the finger back to where it went down puts the bubble back where it was at touch-down. */
  lemma MoveBackRestoresPosition(s: Listener, down: MotionEvent, move: MotionEvent)
    requires down.action == ACTION_DOWN && move.action == ACTION_MOVE
    requires move.rawX == down.rawX && move.rawY == down.rawY
    ensures var after := React(React(s, Some(down)).next, Some(move)).next;
      after.x == s.x && after.y == s.y
  {
  }

  /** An up event never moves the bubble and reports the touch as handled. */
  lemma UpKeepsPosition(s: Listener, e: MotionEvent)
    requires e.action == ACTION_UP
    ensures React(s, Some(e)).next == s && React(s, Some(e)).handled
  {
  }

  /**
   * The tap test compares signed displacements: a drag of any length up and to
   * the left (both displacements negative) still launches the main activity.
   */
  lemma UpLeftDragLaunches(s: Listener, e: MotionEvent)
    requires e.action == ACTION_UP && e.rawX <= s.initialTouchX && e.rawY <= s.initialTouchY
    ensures React(s, Some(e)).effects == [StartMainActivity]
  {
  }

  /** A missing event and any action other than down, up and move are ignored. */
  lemma OtherEventsIgnored(s: Listener, event: Option<MotionEvent>)
    requires event.None? || event.value.action !in {ACTION_DOWN, ACTION_UP, ACTION_MOVE}
    ensures React(s, event) == Reaction(s, false, [])
  {
  }

  /** How many times the effects launch the main activity. */
  function Launches(effects: seq<Effect>): nat
    decreases |effects|
  {
    if effects == [] then 0
    else (if effects[0] == StartMainActivity then 1 else 0) + Launches(effects[1..])
  }

  /** Feeds a sequence of events to the listener, collecting the effects. */
  function Run(s: Listener, events: seq<MotionEvent>): (r: (Listener, seq<Effect>))
    decreases |events|
  {
    if events == [] then (s, [])
    else
      var step := React(s, Some(events[0]));
      var rest := Run(step.next, events[1..]);
      (rest.0, step.effects + rest.1)
  }

  /**
   * During a drag the position does not accumulate: after any run of moves the
   * bubble sits at the touch-down position plus the last move's displacement.
   */
  lemma {:induction false} DragEndsAtLastMove(s: Listener, moves: seq<MotionEvent>)
    requires moves != []
    requires forall i :: 0 <= i < |moves| ==> moves[i].action == ACTION_MOVE
    ensures var last := moves[|moves| - 1];
      var end := Run(s, moves).0;
      && end.x == Wrap32(s.initialX + Delta(last.rawX, s.initialTouchX))
      && end.y == Wrap32(s.initialY + Delta(last.rawY, s.initialTouchY))
      && end.isExpanded == s.isExpanded
      && end.initialX == s.initialX && end.initialY == s.initialY
      && end.initialTouchX == s.initialTouchX && end.initialTouchY == s.initialTouchY
    decreases |moves|
  {
    if |moves| > 1 {
      var next := React(s, Some(moves[0])).next;
      DragEndsAtLastMove(next, moves[1..]);
      assert moves[1..][|moves[1..]| - 1] == moves[|moves| - 1];
    }
  }

  /** The `View.OnTouchListener` installed on the floating view, with `params` and `isExpanded` it updates. */
  class TouchListener {
    var x: Int32              // params.x
    var y: Int32              // params.y
    var isExpanded: bool
    var initialX: Int32
    var initialY: Int32
    var initialTouchX: int
    var initialTouchY: int
    /** The platform calls made so far, in order. */
    var effects: seq<Effect>

    function State(): Listener
      reads this
    {
      Listener(x, y, isExpanded, initialX, initialY, initialTouchX, initialTouchY)
    }

    /** `onCreate`: `params.x = 0`, `params.y = 100`, `isExpanded = false`; no effects yet. */
    constructor ()
      ensures State() == InitialListener() && effects == []
    {
      x, y := INITIAL_X, INITIAL_Y;
      isExpanded := false;
      initialX, initialY := 0, 0;
      initialTouchX, initialTouchY := 0, 0;
      effects := [];
    }

    /** `onTouch`: updates the listener's state as `React` says and records the platform calls. */
    method OnTouch(event: Option<MotionEvent>) returns (handled: bool)
      modifies this
      ensures State() == React(old(State()), event).next
      ensures handled == React(old(State()), event).handled
      ensures effects == old(effects) + React(old(State()), event).effects
    {
      if event.None? {
        return false;
      }
      var e := event.value;
      if e.action == ACTION_DOWN {
        isExpanded := !isExpanded;
        initialX := x;
        initialY := y;
        initialTouchX := e.rawX;
        initialTouchY := e.rawY;
        return true;
      } else if e.action == ACTION_UP {
        var xDiff := SaturateToInt(e.rawX - initialTouchX);
        var yDiff := SaturateToInt(e.rawY - initialTouchY);
        if xDiff < TAP_SLOP && yDiff < TAP_SLOP {
          effects := effects + [StartMainActivity];
        }
        return true;
      } else if e.action == ACTION_MOVE {
        x := Wrap32(initialX + SaturateToInt(e.rawX - initialTouchX));
        y := Wrap32(initialY + SaturateToInt(e.rawY - initialTouchY));
        effects := effects + [UpdateViewLayout(x, y)];
        return true;
      }
      return false;
    }
  }

  /**
   * A tap on a freshly created bubble: down and up at the same point expand the
   * bubble, leave it at (0, 100) and launch the main activity exactly once.
   */
  method TapFreshBubble(rawX: int, rawY: int) returns (x: Int32, y: Int32, expanded: bool, launches: nat)
    ensures x == 0 && y == 100 && expanded
    ensures launches == 1
  {
    var listener := new TouchListener();
    var _ := listener.OnTouch(Some(MotionEvent(ACTION_DOWN, rawX, rawY)));
    var _ := listener.OnTouch(Some(MotionEvent(ACTION_UP, rawX, rawY)));
    x, y, expanded := listener.x, listener.y, listener.isExpanded;
    assert listener.effects == [StartMainActivity];
    assert Launches(listener.effects[1..]) == 0;
    launches := Launches(listener.effects);
  }

  // ---------------------------------------------------------------------------
  // DraggableComponent
  // ---------------------------------------------------------------------------

  /** Compose's `IntOffset`. */
  datatype IntOffset = IntOffset(x: Int32, y: Int32)

  const ZERO: IntOffset := IntOffset(0, 0)

  /** `IntOffset.plus`: component-wise `Int` addition, which wraps. */
  function Plus(a: IntOffset, b: IntOffset): (r: IntOffset)
    ensures INT_MIN <= a.x + b.x <= INT_MAX ==> r.x == a.x + b.x
    ensures INT_MIN <= a.y + b.y <= INT_MAX ==> r.y == a.y + b.y
    ensures (a.x + b.x - r.x) % INT_MODULUS == 0 && (a.y + b.y - r.y) % INT_MODULUS == 0
  {
    IntOffset(Wrap32(a.x + b.x), Wrap32(a.y + b.y))
  }

  /** The offset after applying the drags in order, starting from `IntOffset.Zero`. */
  function Accumulate(drags: seq<IntOffset>): IntOffset
    decreases |drags|
  {
    if drags == [] then ZERO else Plus(Accumulate(drags[..|drags| - 1]), drags[|drags| - 1])
  }

  /** The exact (unbounded) sums of the drags' components. */
  function SumX(drags: seq<IntOffset>): int
    decreases |drags|
  {
    if drags == [] then 0 else SumX(drags[..|drags| - 1]) + drags[|drags| - 1].x
  }

  function SumY(drags: seq<IntOffset>): int
    decreases |drags|
  {
    if drags == [] then 0 else SumY(drags[..|drags| - 1]) + drags[|drags| - 1].y
  }

  /** The offset is the component-wise sum of all drags, taken modulo 2^32 as `Int`. */
  lemma {:induction false} AccumulateIsSum(drags: seq<IntOffset>)
    ensures Accumulate(drags) == IntOffset(Wrap32(SumX(drags)), Wrap32(SumY(drags)))
    decreases |drags|
  {
    if drags != [] {
      var front, last := drags[..|drags| - 1], drags[|drags| - 1];
      assert front + [last] == drags;
      AccumulateIsSum(front);
      var acc := Accumulate(front);
      assert Accumulate(drags) == IntOffset(Wrap32(acc.x + last.x), Wrap32(acc.y + last.y));
      assert SumX(drags) == SumX(front) + last.x && SumY(drags) == SumY(front) + last.y;
      WrapAddLeft(SumX(front), last.x);
      WrapAddLeft(SumY(front), last.y);
    }
  }

  /** The composable's remembered `offset` state, changed by every drag. */
  class DraggableComponent {
    var offset: IntOffset
    /** The rounded drag amounts received so far. */
    ghost var drags: seq<IntOffset>

    ghost predicate Valid()
      reads this
    {
      offset == Accumulate(drags)
    }

    /** `remember { mutableStateOf(IntOffset.Zero) }`. */
    constructor ()
      ensures Valid() && drags == [] && offset == ZERO
    {
      offset := ZERO;
      drags := [];
    }

    /** `detectDragGestures`: adds the rounded drag amount to the offset. */
    method OnDrag(dragAmount: IntOffset)
      requires Valid()
      modifies this
      ensures Valid()
      ensures drags == old(drags) + [dragAmount]
      ensures offset == Plus(old(offset), dragAmount)
      ensures offset == IntOffset(Wrap32(SumX(drags)), Wrap32(SumY(drags)))
    {
      drags := drags + [dragAmount];
      assert drags[..|drags| - 1] == old(drags);
      offset := Plus(offset, dragAmount);
      AccumulateIsSum(drags);
    }
  }
}
