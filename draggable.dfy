/** The draggable component itself: an object whose handlers update its fields in place and
    call the shared drag context. Each method is one event of `Controller.Step`. */
module Draggable {
  import opened Types
  import opened Binding
  import opened Controller

  class BaseDraggable {
    /** `this.identifier`, fixed at construction. */
    const id: DndId
    var props: Props
    var canMove: bool
    var onStart: bool
    var onPress: bool
    /** Whether the timer behind `onLongPressTimeout` is still live. */
    var timerPending: bool
    /** Live long-press timers whose handle was overwritten by a later grant. */
    var orphanTimers: nat
    /** The calls made on the shared drag context so far, oldest first. */
    var calls: seq<Call>
    /** The animations requested so far, oldest first. */
    ghost var anims: seq<Anim>

    function Current(): State
      reads this
    {
      State(props, canMove, onStart, onPress, timerPending, orphanTimers)
    }

    ghost function Log(): Outcome
      reads this
    {
      Outcome(Current(), calls, anims)
    }

    predicate Valid()
      reads this
    {
      Inv(Current())
    }

    /** The identity is the truthy `customId`, or else the fresh `token`. */
    constructor (p: Props, token: nat)
      ensures Valid()
      ensures id == ChooseId(p.customId, token)
      ensures Current() == Initial(p) && calls == [] && anims == []
    {
      id := ChooseId(p.customId, token);
      props := p;
      canMove, onStart, onPress := false, true, false;
      timerPending, orphanTimers := false, 0;
      calls, anims := [], [];
    }

    /** onPanResponderGrant: pressed, and a new long-press timer whose handle replaces the
        old one without clearing it. */
    method Grant()
      requires Valid()
      modifies this
      ensures Valid()
      ensures onPress && timerPending
      ensures orphanTimers == old(orphanTimers) + (if old(timerPending) then 1 else 0)
      ensures canMove == old(canMove) && onStart == old(onStart) && props == old(props)
      ensures calls == old(calls) && anims == old(anims)
      ensures Log() == Then(old(Log()), Step(old(Current()), id, Event.Grant))
    {
      onPress := true;
      if timerPending {
        orphanTimers := orphanTimers + 1;
      }
      timerPending := true;
    }

    /** A long-press timer callback: the current one (clearing `timerPending`) or an orphaned
        one. It arms the drag and starts the scale sequence. */
    method TimerFire(orphan: bool)
      requires Valid()
      requires if orphan then orphanTimers > 0 else timerPending
      modifies this
      ensures Valid()
      ensures canMove
      ensures orphan ==> orphanTimers == old(orphanTimers) - 1 && timerPending == old(timerPending)
      ensures !orphan ==> !timerPending && orphanTimers == old(orphanTimers)
      ensures onStart == old(onStart) && onPress == old(onPress) && props == old(props)
      ensures calls == old(calls) && anims == old(anims) + [ScaleSequence]
      ensures Log() == Then(old(Log()), Step(old(Current()), id, Event.TimerFire(orphan)))
    {
      if orphan {
        orphanTimers := orphanTimers - 1;
      } else {
        timerPending := false;
      }
      canMove := true;
      anims := anims + [ScaleSequence];
    }

    /** onPanResponderMove: nothing unless armed; when armed, a start report at this point if
        none was made yet in this gesture, then a move report at this point. */
    method Move(pageX: int, pageY: int)
      requires Valid()
      modifies this
      ensures Valid()
      ensures !old(canMove) ==> calls == old(calls) && onStart == old(onStart)
      ensures old(canMove) ==>
                !onStart &&
                calls == old(calls) + (if old(onStart) then [DragStart(id, pageX, pageY)] else [])
                                    + [DragMove(id, pageX, pageY)]
      ensures canMove == old(canMove) && onPress == old(onPress) && props == old(props)
      ensures timerPending == old(timerPending) && orphanTimers == old(orphanTimers)
      ensures anims == old(anims)
      ensures Log() == Then(old(Log()), Step(old(Current()), id, Event.Move(pageX, pageY)))
    {
      if canMove {
        if onStart {
          calls := calls + [DragStart(id, pageX, pageY)];
          onStart := false;
        }
        calls := calls + [DragMove(id, pageX, pageY)];
      }
    }

    /** onPanResponderRelease: clears the current timer, returns to rest, requests the spring
        back when `bounceBack` is set, reports the end unconditionally and schedules the tap
        completion when the displacement is within the slop box. */
    method Release(pageX: int, pageY: int, dx: int, dy: int)
      requires Valid()
      modifies this
      ensures Valid()
      ensures AtRest(Current())
      ensures props == old(props) && orphanTimers == old(orphanTimers)
      ensures calls == old(calls) + [DragEnd(id, pageX, pageY)]
      ensures anims == old(anims) + (if props.bounceBack then [SpringBack] else [])
                                  + (if OutOfRange(dx, dy, props.moveSlop) then [] else [TapCompletion])
      ensures Log() == Then(old(Log()), Step(old(Current()), id, Event.Release(pageX, pageY, dx, dy)))
    {
      timerPending := false;
      canMove, onStart, onPress := false, true, false;
      if props.bounceBack {
        anims := anims + [SpringBack];
      }
      calls := calls + [DragEnd(id, pageX, pageY)];
      var isOutOfRange := OutOfRange(dx, dy, props.moveSlop);
      if !isOutOfRange {
        anims := anims + [TapCompletion];
      }
    }

    /** onPanResponderTerminate: clears the current timer and the press, nothing else. */
    method Terminate()
      requires Valid()
      modifies this
      ensures Valid()
      ensures !timerPending && !onPress
      ensures canMove == old(canMove) && onStart == old(onStart) && props == old(props)
      ensures orphanTimers == old(orphanTimers)
      ensures calls == old(calls) && anims == old(anims)
      ensures Log() == Then(old(Log()), Step(old(Current()), id, Event.Terminate))
    {
      timerPending := false;
      onPress := false;
    }

    /** componentDidMount: registers the identity with the callbacks and payload. */
    method Mount()
      requires Valid()
      modifies this`calls
      ensures Valid()
      ensures calls == old(calls) + [Register(id, Registered(props))]
      ensures Log() == Then(old(Log()), Step(old(Current()), id, Event.Mount))
    {
      calls := calls + [Register(id, Fields(props.onDragStart, props.onDragEnd, props.payload))];
    }

    /** componentWillUnmount: unregisters the identity; a pending timer stays pending. */
    method Unmount()
      requires Valid()
      modifies this`calls
      ensures Valid()
      ensures calls == old(calls) + [Unregister(id)]
      ensures Log() == Then(old(Log()), Step(old(Current()), id, Event.Unmount))
    {
      calls := calls + [Unregister(id)];
    }

    /** New props, then componentDidUpdate: an update carrying exactly the changed fields,
        sent only when there is one. */
    method DidUpdate(next: Props)
      requires Valid()
      modifies this`props, this`calls
      ensures Valid()
      ensures props == next
      ensures var d := Diff(old(props), next);
              calls == old(calls) + (if d.IsEmpty() then [] else [Update(id, d)])
      ensures Log() == Then(old(Log()), Step(old(Current()), id, Event.NewProps(next)))
    {
      var prev := props;
      props := next;
      var updated := Partial(None, None, None, None);
      if prev.onDragEnd != props.onDragEnd {
        updated := updated.(onDragEnd := Some(props.onDragEnd));
      }
      if prev.onDragStart != props.onDragStart {
        updated := updated.(onDragStart := Some(props.onDragStart));
      }
      if prev.payload != props.payload {
        updated := updated.(payload := Some(props.payload));
      }
      if !updated.IsEmpty() {
        calls := calls + [Update(id, updated)];
      }
    }

    /** measure: a layout-only update when an element is present, nothing otherwise. */
    method Measure(element: Option<Layout>)
      requires Valid()
      modifies this`calls
      ensures Valid()
      ensures element.Some? ==> calls == old(calls) + [Update(id, LayoutUpdate(element.value))]
      ensures element.None? ==> calls == old(calls)
      ensures Log() == Then(old(Log()), Step(old(Current()), id, Event.Measure(element)))
    {
      if element.Some? {
        var l := element.value;
        calls := calls + [Update(id, Partial(None, None, None, Some(Layout(l.x, l.y, l.width, l.height))))];
      }
    }
  }
}
