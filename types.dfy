/** Values exchanged between a draggable element and the drag-and-drop context it reports to. */
module Types {

  datatype Option<T> = None | Some(value: T)

  /** The identity of one draggable: a caller-supplied `customId`, or a fresh token
      (a JavaScript `Symbol("draggable")`) drawn when the element is constructed. */
  datatype DndId = Custom(key: string) | Generated(token: nat)

  /** A callback or payload prop, known only by the identity that `!==` compares. */
  type Ref = int

  /** Window bounds reported by the layout measurement. */
  datatype Layout = Layout(x: int, y: int, width: int, height: int)

  /** The record sent with `registerDraggable` on mount. */
  datatype Fields = Fields(onDragStart: Ref, onDragEnd: Ref, payload: Ref)

  /** A `Partial<Draggable>` sent with `updateDraggable`: `None` is an absent key. */
  datatype Partial = Partial(onDragStart: Option<Ref>, onDragEnd: Option<Ref>,
                             payload: Option<Ref>, layout: Option<Layout>)
  {
    /** `Object.keys(partial).length === 0` */
    predicate IsEmpty() {
      onDragStart.None? && onDragEnd.None? && payload.None? && layout.None?
    }
  }

  /** One call on the shared drag context, always tagged with the caller's identity. */
  datatype Call =
    | Register(id: DndId, fields: Fields)
    | Update(id: DndId, partial: Partial)
    | Unregister(id: DndId)
    | DragStart(id: DndId, x: int, y: int)
    | DragMove(id: DndId, x: int, y: int)
    | DragEnd(id: DndId, x: int, y: int)

  /** A request handed to the animation engine; only the request is modelled, not the easing. */
  datatype Anim =
    | ScaleSequence   // the three timed scale stages started when the long press arms
    | SpringBack      // `pan` sprung back to (0, 0) on release
    | TapCompletion   // scale eased back to 1 after the tap delay

  /** The props the controller acts on. Not carried: `scale`, which is never read; `delay`,
      which only times the tap-completion animation; `onPress`, which is read on release but
      never called; `onLayout`, a callback only forwarded to the rendered view; `children`. */
  datatype Props = Props(customId: Option<string>, onDragStart: Ref, onDragEnd: Ref,
                         payload: Ref, moveSlop: int, bounceBack: bool)

  const DefaultMoveSlop: int := 15
  const DefaultBounceBack: bool := true

  /** Every call in `cs` carries the identity `id`. */
  predicate Tagged(cs: seq<Call>, id: DndId) {
    forall i :: 0 <= i < |cs| ==> cs[i].id == id
  }
}
