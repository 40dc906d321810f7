/** How a draggable identifies itself to the shared context and what it sends there
    on mount, on a props change and on a layout measurement. */
module Binding {
  import opened Types

  /** JavaScript truthiness of `customId`: absent and the empty string are falsy. */
  predicate Truthy(customId: Option<string>) {
    customId.Some? && customId.value != ""
  }

  /** `props.customId || Symbol("draggable")`: the caller's key when it is truthy,
      otherwise the fresh token. */
  function ChooseId(customId: Option<string>, token: nat): (id: DndId)
    ensures id.Custom? <==> Truthy(customId)
    ensures id.Custom? ==> Some(id.key) == customId
    ensures id.Generated? ==> id == Generated(token)
  {
    if Truthy(customId) then Custom(customId.value) else Generated(token)
  }

  /** The three registered fields taken from the props. */
  function Registered(p: Props): Fields {
    Fields(p.onDragStart, p.onDragEnd, p.payload)
  }

  /** The value carried for one key of the diff: the new value exactly when it changed. */
  function Changed(prev: Ref, next: Ref): Option<Ref> {
    if prev != next then Some(next) else None
  }

  /** The partial update built by `componentDidUpdate`: exactly the registered fields that
      differ, with their new values; never `layout`. It is empty exactly when nothing changed. */
  function Diff(prev: Props, next: Props): (d: Partial)
    ensures d.layout.None?
    ensures d.onDragStart.Some? <==> prev.onDragStart != next.onDragStart
    ensures d.onDragEnd.Some? <==> prev.onDragEnd != next.onDragEnd
    ensures d.payload.Some? <==> prev.payload != next.payload
    ensures d.onDragStart.Some? ==> d.onDragStart.value == next.onDragStart
    ensures d.onDragEnd.Some? ==> d.onDragEnd.value == next.onDragEnd
    ensures d.payload.Some? ==> d.payload.value == next.payload
    ensures d.IsEmpty() <==> Registered(prev) == Registered(next)
  {
    Partial(Changed(prev.onDragStart, next.onDragStart),
            Changed(prev.onDragEnd, next.onDragEnd),
            Changed(prev.payload, next.payload),
            None)
  }

  /** The layout-only update sent by `measure`. */
  function LayoutUpdate(l: Layout): (d: Partial)
    ensures d.layout == Some(l) && !d.IsEmpty()
    ensures d.onDragStart.None? && d.onDragEnd.None? && d.payload.None?
  {
    Partial(None, None, None, Some(l))
  }
}
