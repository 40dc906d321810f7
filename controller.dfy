/** The gesture state machine of one draggable as a pure transition function: each event
    (a PanResponder callback, the long-press timer, or a lifecycle hook) takes a state to a
    new state, the calls it makes on the shared context and the animations it requests. */
module Controller {
  import opened Types
  import opened Binding

  /** The instance state. `timerPending` says whether the timer behind `onLongPressTimeout`
      is still live; `orphanTimers` counts live timers whose handle a later grant overwrote
      without clearing, which nothing can cancel any more. */
  datatype State = State(props: Props, canMove: bool, onStart: bool, onPress: bool,
                         timerPending: bool, orphanTimers: nat)

  /** The state right after construction. */
  function Initial(props: Props): State {
    State(props, false, true, false, false, 0)
  }

  /** Between gestures: not armed, ready to report a start, not pressed, no timer of its own. */
  predicate AtRest(s: State) {
    !s.canMove && s.onStart && !s.onPress && !s.timerPending
  }

  /** A drag can only have started (onStart cleared) while the press is armed. */
  predicate Inv(s: State) {
    !s.onStart ==> s.canMove
  }

  datatype Event =
    | Grant                                              // onPanResponderGrant
    | TimerFire(orphan: bool)                            // a long-press timer callback runs
    | Move(pageX: int, pageY: int)                       // onPanResponderMove
    | Release(pageX: int, pageY: int, dx: int, dy: int)  // onPanResponderRelease
    | Terminate                                          // onPanResponderTerminate
    | Mount                                              // componentDidMount
    | Unmount                                            // componentWillUnmount
    | NewProps(next: Props)                              // new props, then componentDidUpdate
    | Measure(element: Option<Layout>)                   // measure, with its bounds if mounted

  datatype Outcome = Outcome(state: State, calls: seq<Call>, anims: seq<Anim>)

  /** The release's tap-versus-drag test: out of range when either displacement leaves
      the closed interval [-moveSlop, moveSlop]. */
  predicate OutOfRange(dx: int, dy: int, moveSlop: int)
    ensures OutOfRange(dx, dy, moveSlop) <==>
              !(-moveSlop <= dx <= moveSlop && -moveSlop <= dy <= moveSlop)
  {
    dy > moveSlop || dy < -moveSlop || dx > moveSlop || dx < -moveSlop
  }

  /** No call in `cs` reports a drag start or a drag move. */
  predicate NoDragReports(cs: seq<Call>) {
    forall i :: 0 <= i < |cs| ==> !cs[i].DragStart? && !cs[i].DragMove?
  }

  /** One event. */
  function Step(s: State, id: DndId, e: Event): (r: Outcome)
    // every call carries the element's identity
    ensures Tagged(r.calls, id)
    // a drag has started only while armed
    ensures Inv(s) ==> Inv(r.state)
    // arming happens only when a live long-press timer fires
    ensures r.state.canMove && !s.canMove ==>
              e.TimerFire? && (if e.orphan then s.orphanTimers > 0 else s.timerPending)
    // only a move reports start or move, and only while armed
    ensures !(e.Move? && s.canMove) ==> NoDragReports(r.calls)
    // a release always reports exactly one end at its point and returns to rest
    ensures e.Release? ==> r.calls == [DragEnd(id, e.pageX, e.pageY)] && AtRest(r.state)
    // a release schedules the tap completion exactly when it is within the slop box
    ensures e.Release? ==>
              (TapCompletion in r.anims <==>
                 -s.props.moveSlop <= e.dx <= s.props.moveSlop &&
                 -s.props.moveSlop <= e.dy <= s.props.moveSlop)
    // release and terminate cancel the timer held in the handle
    ensures e.Release? || e.Terminate? ==> !r.state.timerPending
    // only a new set of props changes the props
    ensures !e.NewProps? ==> r.state.props == s.props
  {
    match e
    case Grant =>
      var orphans := if s.timerPending then s.orphanTimers + 1 else s.orphanTimers;
      Outcome(s.(onPress := true, timerPending := true, orphanTimers := orphans), [], [])
    case TimerFire(orphan) =>
      if orphan && s.orphanTimers > 0 then
        Outcome(s.(canMove := true, orphanTimers := s.orphanTimers - 1), [], [ScaleSequence])
      else if !orphan && s.timerPending then
        Outcome(s.(canMove := true, timerPending := false), [], [ScaleSequence])
      else
        // a timer that was cleared, or never set, does not fire
        Outcome(s, [], [])
    case Move(x, y) =>
      if !s.canMove then Outcome(s, [], [])
      else if s.onStart then
        Outcome(s.(onStart := false), [DragStart(id, x, y), DragMove(id, x, y)], [])
      else
        Outcome(s, [DragMove(id, x, y)], [])
    case Release(x, y, dx, dy) =>
      var bounce := if s.props.bounceBack then [SpringBack] else [];
      var tap := if !OutOfRange(dx, dy, s.props.moveSlop) then [TapCompletion] else [];
      Outcome(s.(canMove := false, onStart := true, onPress := false, timerPending := false),
              [DragEnd(id, x, y)], bounce + tap)
    case Terminate =>
      Outcome(s.(onPress := false, timerPending := false), [], [])
    case Mount =>
      Outcome(s, [Register(id, Registered(s.props))], [])
    case Unmount =>
      Outcome(s, [Unregister(id)], [])
    case NewProps(next) =>
      var d := Diff(s.props, next);
      Outcome(s.(props := next), if d.IsEmpty() then [] else [Update(id, d)], [])
    case Measure(element) =>
      Outcome(s, if element.Some? then [Update(id, LayoutUpdate(element.value))] else [], [])
  }

  /** The outcome of `x` followed by the outcome of `y`. */
  function Then(x: Outcome, y: Outcome): Outcome {
    Outcome(y.state, x.calls + y.calls, x.anims + y.anims)
  }

  /** A sequence of events, in arrival order. */
  function Run(s: State, id: DndId, es: seq<Event>): (r: Outcome)
    ensures Tagged(r.calls, id)
    ensures Inv(s) ==> Inv(r.state)
    decreases |es|
  {
    if es == [] then Outcome(s, [], [])
    else
      var a := Step(s, id, es[0]);
      Then(a, Run(a.state, id, es[1..]))
  }

  /** Running two event sequences one after the other is running their concatenation. */
  lemma {:induction false} RunAppend(s: State, id: DndId, a: seq<Event>, b: seq<Event>)
    ensures Run(s, id, a + b) == Then(Run(s, id, a), Run(Run(s, id, a).state, id, b))
    decreases |a|
  {
    if a == [] {
      assert a + b == b;
    } else {
      var st := Step(s, id, a[0]);
      assert (a + b)[0] == a[0];
      assert (a + b)[1..] == a[1..] + b;
      RunAppend(st.state, id, a[1..], b);
      var ra := Run(st.state, id, a[1..]);
      ThenAssoc(st, ra, Run(ra.state, id, b));
    }
  }

  /** The events that may arrive while the pointer is down: moves and timer callbacks. */
  predicate PressEvents(es: seq<Event>) {
    forall i :: 0 <= i < |es| ==> es[i].Move? || es[i].TimerFire?
  }

  /** Every call is a move report for `id`. */
  predicate MovesOnly(cs: seq<Call>, id: DndId) {
    forall i :: 0 <= i < |cs| ==> cs[i].DragMove? && cs[i].id == id
  }

  /** What a press reports: nothing, or one start followed at once by a move at the
      same point, then only moves. */
  predicate DragShape(cs: seq<Call>, id: DndId) {
    cs == [] ||
    (|cs| >= 2 && cs[0].DragStart? && cs[0].id == id &&
     cs[1] == DragMove(id, cs[0].x, cs[0].y) && MovesOnly(cs[2..], id))
  }

  /** While the pointer is down, a controller that has not reported a start reports at most
      one start, immediately followed by a move at the same point, then only moves; one that
      has already reported its start reports only moves. */
  lemma {:induction false} PressShape(s: State, id: DndId, es: seq<Event>)
    requires PressEvents(es)
    ensures s.onStart ==>
              DragShape(Run(s, id, es).calls, id) &&
              (Run(s, id, es).state.onStart <==> Run(s, id, es).calls == [])
    ensures !s.onStart ==> MovesOnly(Run(s, id, es).calls, id) && !Run(s, id, es).state.onStart
    decreases |es|
  {
    if es != [] {
      var a := Step(s, id, es[0]);
      var rest := Run(a.state, id, es[1..]).calls;
      PressStep(s, id, es[0]);
      PressEventsTail(es);
      PressShape(a.state, id, es[1..]);
      var out := Run(s, id, es).calls;
      assert out == a.calls + rest;
      if es[0].Move? && s.canMove && s.onStart {
        assert out[2..] == rest;
      }
    }
  }

  lemma PressEventsTail(es: seq<Event>)
    requires PressEvents(es) && es != []
    ensures es[0].Move? || es[0].TimerFire?
    ensures PressEvents(es[1..])
  {
    forall i | 0 <= i < |es[1..]| ensures es[1..][i].Move? || es[1..][i].TimerFire? {
      assert es[1..][i] == es[i + 1];
    }
  }

  /** One press event: only an armed move reports, and it clears `onStart`. */
  lemma PressStep(s: State, id: DndId, e: Event)
    requires e.Move? || e.TimerFire?
    ensures var a := Step(s, id, e);
            a.state.props == s.props &&
            (!(e.Move? && s.canMove) ==> a.calls == [] && a.state.onStart == s.onStart) &&
            (e.Move? && s.canMove && s.onStart ==>
               a.calls == [DragStart(id, e.pageX, e.pageY), DragMove(id, e.pageX, e.pageY)] &&
               !a.state.onStart) &&
            (e.Move? && s.canMove && !s.onStart ==>
               a.calls == [DragMove(id, e.pageX, e.pageY)] && !a.state.onStart)
  {
  }

  /** A press that no timer callback reaches never reports a start or a move and never arms. */
  lemma {:induction false} UnarmedPressSilent(s: State, id: DndId, es: seq<Event>)
    requires !s.canMove
    requires forall i :: 0 <= i < |es| ==> es[i].Move?
    ensures Run(s, id, es) == Outcome(s, [], [])
    decreases |es|
  {
    if es != [] {
      assert es[0].Move?;
      UnarmedPressSilent(s, id, es[1..]);
    }
  }

  /** A gesture's outcome: the grant, the press events, then the release. */
  lemma GestureSplit(s: State, id: DndId, press: seq<Event>, rel: Event)
    ensures var s1 := Step(s, id, Grant).state;
            var m := Run(s1, id, press);
            Run(s, id, [Grant] + press + [rel]) == Then(Then(Step(s, id, Grant), m), Step(m.state, id, rel))
  {
    var s1 := Step(s, id, Grant).state;
    assert [Grant] + press + [rel] == [Grant] + (press + [rel]);
    RunCons(s, id, Grant, press + [rel]);
    RunAppend(s1, id, press, [rel]);
    RunOne(Run(s1, id, press).state, id, rel);
    ThenAssoc(Step(s, id, Grant), Run(s1, id, press), Step(Run(s1, id, press).state, id, rel));
  }

  lemma ThenAssoc(x: Outcome, y: Outcome, z: Outcome)
    ensures Then(x, Then(y, z)) == Then(Then(x, y), z)
  {
    assert x.calls + (y.calls + z.calls) == (x.calls + y.calls) + z.calls;
    assert x.anims + (y.anims + z.anims) == (x.anims + y.anims) + z.anims;
  }

  /** What a whole gesture reports: a drag shape, then exactly one end at `(x, y)`. */
  predicate GestureCalls(cs: seq<Call>, id: DndId, x: int, y: int) {
    |cs| >= 1 && cs[|cs| - 1] == DragEnd(id, x, y) && DragShape(cs[..|cs| - 1], id)
  }

  /** A whole gesture (grant, then moves and timer callbacks, then release) from a state
      that has not reported a start: at most one start, immediately followed by a move at
      the same point, then moves, then exactly one end at the release point. */
  lemma GestureTrace(s: State, id: DndId, press: seq<Event>, x: int, y: int, dx: int, dy: int)
    requires s.onStart
    requires PressEvents(press)
    ensures GestureCalls(Run(s, id, [Grant] + press + [Release(x, y, dx, dy)]).calls, id, x, y)
  {
    var s1 := Step(s, id, Grant).state;
    var m := Run(s1, id, press);
    PressShape(s1, id, press);
    GestureSplit(s, id, press, Release(x, y, dx, dy));
    var calls := Run(s, id, [Grant] + press + [Release(x, y, dx, dy)]).calls;
    assert calls == m.calls + [DragEnd(id, x, y)];
    assert calls[..|calls| - 1] == m.calls;
  }

  /** The long-press timer firing, then moves: the first move reports the start at its
      point, immediately followed by a move at that point. */
  lemma ArmedPressStarts(s: State, id: DndId, moves: seq<Event>)
    requires s.onStart && s.timerPending
    requires |moves| >= 1 && moves[0].Move?
    ensures var cs := Run(s, id, [TimerFire(false)] + moves).calls;
            |cs| >= 2 &&
            cs[0] == DragStart(id, moves[0].pageX, moves[0].pageY) &&
            cs[1] == DragMove(id, moves[0].pageX, moves[0].pageY)
  {
    var s2 := Step(s, id, TimerFire(false)).state;
    RunCons(s, id, TimerFire(false), moves);
    assert moves == [moves[0]] + moves[1..];
    RunCons(s2, id, moves[0], moves[1..]);
  }

  /** Moves, the timer event, then moves again are press events. */
  lemma TimerBetweenMoves(pre: seq<Event>, moves: seq<Event>)
    requires forall i :: 0 <= i < |pre| ==> pre[i].Move?
    requires forall i :: 0 <= i < |moves| ==> moves[i].Move?
    ensures PressEvents(pre + ([TimerFire(false)] + moves))
  {
    var press := pre + ([TimerFire(false)] + moves);
    forall i | 0 <= i < |press| ensures press[i].Move? || press[i].TimerFire? {
      if i < |pre| {
        assert press[i] == pre[i];
      } else if i > |pre| {
        assert press[i] == moves[i - |pre| - 1];
      }
    }
  }

  /** A gesture whose long-press timer fires after the moves `pre` (none of which is armed,
      so they report nothing) and before at least one further move reports its start first,
      at the point of the first move after the timer, immediately followed by a move at that
      point; `GestureCalls` allows only moves after that, so this start is the only one.
      With no move before the timer the element may start out armed. */
  lemma ArmedGestureStarts(s: State, id: DndId, pre: seq<Event>, moves: seq<Event>,
                           x: int, y: int, dx: int, dy: int)
    requires s.onStart
    requires pre != [] ==> !s.canMove
    requires forall i :: 0 <= i < |pre| ==> pre[i].Move?
    requires |moves| >= 1
    requires forall i :: 0 <= i < |moves| ==> moves[i].Move?
    ensures var cs := Run(s, id, [Grant] + (pre + ([TimerFire(false)] + moves)) + [Release(x, y, dx, dy)]).calls;
            |cs| >= 3 &&
            cs[0] == DragStart(id, moves[0].pageX, moves[0].pageY) &&
            cs[1] == DragMove(id, moves[0].pageX, moves[0].pageY) &&
            GestureCalls(cs, id, x, y)
  {
    var armed := [TimerFire(false)] + moves;
    var press := pre + armed;
    TimerBetweenMoves(pre, moves);
    GestureTrace(s, id, press, x, y, dx, dy);
    GestureSplit(s, id, press, Release(x, y, dx, dy));
    var s1 := Step(s, id, Grant).state;
    RunAppend(s1, id, pre, armed);
    if pre != [] {
      UnarmedPressSilent(s1, id, pre);
    } else {
      assert press == armed;
    }
    ArmedPressStarts(s1, id, moves);
  }

  /** After a whole gesture the controller is back at rest, with its props unchanged. */
  lemma GestureEndsAtRest(s: State, id: DndId, press: seq<Event>, x: int, y: int, dx: int, dy: int)
    requires PressEvents(press)
    ensures var r := Run(s, id, [Grant] + press + [Release(x, y, dx, dy)]).state;
            AtRest(r) && r.props == s.props
  {
    PressProps(Step(s, id, Grant).state, id, press);
    GestureSplit(s, id, press, Release(x, y, dx, dy));
  }

  /** Running one event is taking one step. */
  lemma RunOne(s: State, id: DndId, e: Event)
    ensures Run(s, id, [e]) == Step(s, id, e)
  {
    assert [e][1..] == [];
  }

  /** Running a sequence that starts with `e` is taking the step for `e`, then the rest. */
  lemma RunCons(s: State, id: DndId, e: Event, es: seq<Event>)
    ensures Run(s, id, [e] + es) == Then(Step(s, id, e), Run(Step(s, id, e).state, id, es))
  {
    assert ([e] + es)[0] == e;
    assert ([e] + es)[1..] == es;
  }

  /** Moves and timer callbacks never change the props. */
  lemma {:induction false} PressProps(s: State, id: DndId, es: seq<Event>)
    requires PressEvents(es)
    ensures Run(s, id, es).state.props == s.props
    decreases |es|
  {
    if es != [] {
      PressStep(s, id, es[0]);
      PressEventsTail(es);
      PressProps(Step(s, id, es[0]).state, id, es[1..]);
    }
  }

  /** A gesture released before any long-press timer fires reports only its end. */
  lemma EarlyRelease(s: State, id: DndId, moves: seq<Event>, x: int, y: int, dx: int, dy: int)
    requires !s.canMove
    requires forall i :: 0 <= i < |moves| ==> moves[i].Move?
    ensures Run(s, id, [Grant] + moves + [Release(x, y, dx, dy)]).calls == [DragEnd(id, x, y)]
  {
    var s1 := Step(s, id, Grant).state;
    UnarmedPressSilent(s1, id, moves);
    GestureSplit(s, id, moves, Release(x, y, dx, dy));
  }

  /** With the default slop of 15 the test is inclusive: 15 is still a tap, 16 is not. */
  lemma SlopBoundary()
    ensures !OutOfRange(15, 0, DefaultMoveSlop)
    ensures !OutOfRange(-15, 15, DefaultMoveSlop)
    ensures OutOfRange(16, 0, DefaultMoveSlop)
    ensures OutOfRange(0, -16, DefaultMoveSlop)
  {
  }

  /** Mount, press, long-press timer, move to (40, 40), release there: the start
      is reported at the first move's point, not at the press point. */
  lemma PressDragRelease(p: Props, token: nat)
    ensures var id := ChooseId(p.customId, token);
            Run(Initial(p), id, [Mount, Grant, TimerFire(false), Move(40, 40), Release(40, 40, 30, 30)]).calls
            == [Register(id, Registered(p)), DragStart(id, 40, 40), DragMove(id, 40, 40), DragEnd(id, 40, 40)]
  {
  }

  /** A terminated gesture stays armed with its start already reported, so the next press
      drags at once, without a long press and without reporting a start. */
  lemma TerminateKeepsArmed(p: Props, id: DndId)
    ensures Run(Initial(p), id, [Grant, TimerFire(false), Move(1, 1), Terminate, Grant, Move(5, 5)]).calls
            == [DragStart(id, 1, 1), DragMove(id, 1, 1), DragMove(id, 5, 5)]
  {
  }

  /** A second grant while the first timer is pending loses its handle: a release clears only
      the newer timer, and the older one still arms the controller afterwards. */
  lemma RegrantOrphansTimer(p: Props, id: DndId)
    ensures Run(Initial(p), id, [Grant, Grant, Release(0, 0, 0, 0), TimerFire(true)]).state.canMove
  {
  }

  /** Unmounting leaves the long-press timer pending, so its callback still starts the scale
      animation sequence after the element is gone. */
  lemma UnmountKeepsTimer(p: Props, id: DndId)
    ensures Run(Initial(p), id, [Mount, Grant, Unmount]).state.timerPending
    ensures ScaleSequence in Run(Initial(p), id, [Mount, Grant, Unmount, TimerFire(false)]).anims
  {
  }

  /** With the default `bounceBack`, every release requests the spring back of the pan. */
  lemma DefaultReleaseSpringsBack(s: State, id: DndId, x: int, y: int, dx: int, dy: int)
    requires s.props.bounceBack == DefaultBounceBack
    ensures var a := Step(s, id, Release(x, y, dx, dy)).anims; |a| >= 1 && a[0] == SpringBack
  {
  }
}
