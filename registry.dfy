/** What the calls of one draggable do to the shared context's registry, keyed by identity.
    The context itself lives outside this model; `Effect` states the meaning the draggable
    relies on: a registration creates the entry without a layout, a partial update overrides
    exactly the keys it carries, an unregistration removes the entry, and drag reports leave
    the registry alone. */
module Registry {
  import opened Types
  import opened Binding
  import opened Controller

  /** A registered draggable as the context holds it. */
  datatype Entry = Entry(onDragStart: Ref, onDragEnd: Ref, payload: Ref, layout: Option<Layout>)

  /** The entry of a draggable whose props are `p` and whose last measured layout is `l`. */
  function EntryOf(p: Props, l: Option<Layout>): Entry {
    Entry(p.onDragStart, p.onDragEnd, p.payload, l)
  }

  function Override<T>(current: T, o: Option<T>): T {
    if o.Some? then o.value else current
  }

  /** A partial update applied to an entry. */
  function Apply(e: Entry, p: Partial): Entry {
    Entry(Override(e.onDragStart, p.onDragStart), Override(e.onDragEnd, p.onDragEnd),
          Override(e.payload, p.payload), if p.layout.Some? then p.layout else e.layout)
  }

  /** One call's effect on the registry. */
  function Effect(reg: map<DndId, Entry>, c: Call): map<DndId, Entry> {
    match c
    case Register(id, f) => reg[id := Entry(f.onDragStart, f.onDragEnd, f.payload, None)]
    case Update(id, p) => if id in reg then reg[id := Apply(reg[id], p)] else reg
    case Unregister(id) => reg - {id}
    case _ => reg
  }

  /** The registry after the calls `cs`, in order. */
  function Replay(reg: map<DndId, Entry>, cs: seq<Call>): map<DndId, Entry>
    decreases |cs|
  {
    if cs == [] then reg else Replay(Effect(reg, cs[0]), cs[1..])
  }

  lemma {:induction false} ReplayAppend(reg: map<DndId, Entry>, a: seq<Call>, b: seq<Call>)
    ensures Replay(reg, a + b) == Replay(Replay(reg, a), b)
    decreases |a|
  {
    if a == [] {
      assert a + b == b;
    } else {
      assert (a + b)[0] == a[0];
      assert (a + b)[1..] == a[1..] + b;
      ReplayAppend(Effect(reg, a[0]), a[1..], b);
    }
  }

  /** The updated entry of a props change: the diff turns the old props' entry into the new
      props' entry and keeps the layout. */
  lemma DiffApplied(prev: Props, next: Props, l: Option<Layout>)
    ensures Apply(EntryOf(prev, l), Diff(prev, next)) == EntryOf(next, l)
  {
  }

  /** Calls tagged with `id` touch no other identity's entry. */
  lemma {:induction false} OnlyOwnEntry(reg: map<DndId, Entry>, cs: seq<Call>, id: DndId, k: DndId)
    requires Tagged(cs, id)
    requires k != id
    ensures k in Replay(reg, cs) <==> k in reg
    ensures k in reg ==> Replay(reg, cs)[k] == reg[k]
    decreases |cs|
  {
    if cs != [] {
      assert cs[0].id == id;
      assert Tagged(cs[1..], id) by {
        forall i | 0 <= i < |cs[1..]| ensures cs[1..][i].id == id {
          assert cs[1..][i] == cs[i + 1];
        }
      }
      OnlyOwnEntry(Effect(reg, cs[0]), cs[1..], id, k);
    }
  }

  /** The last layout measured by the events `es`, or `l` if none was. */
  function LastLayout(l: Option<Layout>, es: seq<Event>): Option<Layout>
    decreases |es|
  {
    if es == [] then l
    else
      var l1 := if es[0].Measure? && es[0].element.Some? then es[0].element else l;
      LastLayout(l1, es[1..])
  }

  /** Events other than mounting and unmounting. */
  predicate MountedEvents(es: seq<Event>) {
    forall i :: 0 <= i < |es| ==> !es[i].Mount? && !es[i].Unmount?
  }

  /** One event other than mounting and unmounting keeps the registered entry equal to the
      entry of the current props and the last measured layout. */
  lemma StepTracksProps(reg: map<DndId, Entry>, s: State, id: DndId, e: Event, l: Option<Layout>)
    requires !e.Mount? && !e.Unmount?
    requires id in reg && reg[id] == EntryOf(s.props, l)
    ensures var r := Replay(reg, Step(s, id, e).calls);
            var l1 := if e.Measure? && e.element.Some? then e.element else l;
            id in r && r[id] == EntryOf(Step(s, id, e).state.props, l1)
  {
    var cs := Step(s, id, e).calls;
    if |cs| == 1 {
      assert cs[1..] == [];
      if e.NewProps? {
        DiffApplied(s.props, e.next, l);
      }
    } else if |cs| == 2 {
      assert Effect(reg, cs[0]) == reg && Effect(reg, cs[1]) == reg;
      assert cs[1..][1..] == [];
      assert Replay(reg, cs) == Replay(reg, cs[1..]) == Replay(reg, []);
    }
  }

  /** While mounted, the context's entry for this draggable always holds the current props'
      callbacks and payload and the last measured layout. */
  lemma {:induction false} RegistryTracksProps(reg: map<DndId, Entry>, s: State, id: DndId,
                                               es: seq<Event>, l: Option<Layout>)
    requires MountedEvents(es)
    requires id in reg && reg[id] == EntryOf(s.props, l)
    ensures var r := Replay(reg, Run(s, id, es).calls);
            id in r && r[id] == EntryOf(Run(s, id, es).state.props, LastLayout(l, es))
    decreases |es|
  {
    if es != [] {
      var a := Step(s, id, es[0]);
      var l1 := if es[0].Measure? && es[0].element.Some? then es[0].element else l;
      StepTracksProps(reg, s, id, es[0], l);
      assert MountedEvents(es[1..]) by {
        forall i | 0 <= i < |es[1..]| ensures !es[1..][i].Mount? && !es[1..][i].Unmount? {
          assert es[1..][i] == es[i + 1];
        }
      }
      RegistryTracksProps(Replay(reg, a.calls), a.state, id, es[1..], l1);
      ReplayAppend(reg, a.calls, Run(a.state, id, es[1..]).calls);
    }
  }

  /** Mounting registers the current props with no layout; from then on the entry follows
      the props and the measured layout. */
  lemma MountThenTrack(reg: map<DndId, Entry>, s: State, id: DndId, es: seq<Event>)
    requires MountedEvents(es)
    ensures var r := Replay(reg, Run(s, id, [Mount] + es).calls);
            id in r && r[id] == EntryOf(Run(s, id, es).state.props, LastLayout(None, es))
  {
    RunCons(s, id, Mount, es);
    var a := Step(s, id, Mount);
    assert a.calls == [Register(id, Registered(s.props))];
    assert a.calls[1..] == [];
    assert Replay(reg, a.calls) == Replay(Effect(reg, a.calls[0]), []) == Effect(reg, a.calls[0]);
    RegistryTracksProps(Replay(reg, a.calls), s, id, es, None);
    ReplayAppend(reg, a.calls, Run(s, id, es).calls);
  }

  /** Unmounting removes the entry. */
  lemma UnmountRemoves(reg: map<DndId, Entry>, s: State, id: DndId)
    ensures id !in Replay(reg, Step(s, id, Unmount).calls)
  {
    assert Step(s, id, Unmount).calls[1..] == [];
  }
}
