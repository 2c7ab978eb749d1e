/**
  UI properties that are a literal, an observable cell or a derived cell
  (`StateProperty`), with `get_prop_value` and `bind_props`.
*/
module Props {
  import opened Cells

  /** The tagged union the source tells apart with `isinstance`. */
  datatype Prop<T> =
    | Literal(literal: T)
    | Plain(state: State<T>)
    | Reactive(derived: Derived<T>)

  /** `get_prop_value`: a literal is itself; a cell gives its current `get()`. */
  function PropValue<T>(p: Prop<T>): (v: T)
    ensures p.Literal? ==> v == p.literal
    ensures p.Plain? ==> v == Get(p.state)
    ensures p.Reactive? ==> v == DerivedGet(p.derived)
  {
    match p
    case Literal(v) => v
    case Plain(s) => Get(s)
    case Reactive(d) => DerivedGet(d)
  }

  /**
    A resolved cell property follows its cell: after `set(v)` it resolves to `v`,
    after `update()` to the new result of the formula.
  */
  lemma ResolveFollowsWrites<T>(p: Prop<T>, v: T)
    ensures p.Plain? ==> PropValue(Plain(Set(p.state, v).state)) == v
    ensures p.Reactive? && Valid(p.derived) ==>
              PropValue(Reactive(Update(p.derived, v).derived)) == v
  {
  }

  /** The observer list a `bind` on this property appends to; a literal has none. */
  function Watchers<T>(p: Prop<T>): seq<Observer> {
    match p
    case Literal(_) => []
    case Plain(s) => s.observers
    case Reactive(d) => d.observers
  }

  /** One step of `bind_props`: `prop.bind(lambda _: bind_func())` on a cell. */
  function BindProp<T>(p: Prop<T>, hook: ObserverId): (r: Prop<T>)
    ensures r.Literal? == p.Literal? && r.Plain? == p.Plain? && r.Reactive? == p.Reactive?
    ensures PropValue(r) == PropValue(p)
    ensures Watchers(r) == Watchers(p) + if p.Literal? then [] else [Observer(hook, true)]
    ensures p.Reactive? ==> r.derived.cell == p.derived.cell
  {
    match p
    case Literal(_) => p
    case Plain(s) => Plain(Bind(s, Observer(hook, true)))
    case Reactive(d) => Reactive(DerivedBind(d, Observer(hook, true)))
  }

  /**
    `bind_props`: every cell among `props` gets one more callback, `hook`, which
    takes an argument; literals are left alone; no property's value changes, and a
    derived cell's private cache cell is untouched (its `bind` only appends to its
    own observers).
  */
  function BindProps<T>(props: seq<Prop<T>>, hook: ObserverId): (r: seq<Prop<T>>)
    ensures |r| == |props|
    ensures forall i :: 0 <= i < |props| ==> PropValue(r[i]) == PropValue(props[i])
    ensures forall i :: 0 <= i < |props| ==>
              r[i].Literal? == props[i].Literal? && r[i].Plain? == props[i].Plain?
    ensures forall i :: 0 <= i < |props| && props[i].Reactive? ==>
              r[i].Reactive? && r[i].derived.cell == props[i].derived.cell
    ensures forall i :: 0 <= i < |props| && props[i].Literal? ==> r[i] == props[i]
    ensures forall i :: 0 <= i < |props| && !props[i].Literal? ==>
              Watchers(r[i]) == Watchers(props[i]) + [Observer(hook, true)]
  {
    if props == [] then []
    else [BindProp(props[0], hook)] + BindProps(props[1..], hook)
  }

  /** The number of cells (non-literals) among the properties. */
  function CellCount<T>(props: seq<Prop<T>>): nat {
    if props == [] then 0
    else (if props[0].Literal? then 0 else 1) + CellCount(props[1..])
  }

  /** How many times `id` is registered across all the properties' observer lists. */
  function TotalRegistrations<T>(props: seq<Prop<T>>, id: ObserverId): nat {
    if props == [] then 0
    else Registrations(Watchers(props[0]), id) + TotalRegistrations(props[1..], id)
  }

  /**
    `bind_props` adds exactly one registration of `hook` per cell and none per
    literal, and no registration of any other callback.
  */
  lemma {:induction false} BindPropsCountsCells<T>(props: seq<Prop<T>>, hook: ObserverId, id: ObserverId)
    ensures TotalRegistrations(BindProps(props, hook), id)
            == TotalRegistrations(props, id) + if id == hook then CellCount(props) else 0
  {
    if props != [] {
      var r := BindProps(props, hook);
      assert r[1..] == BindProps(props[1..], hook);
      BindPropsCountsCells(props[1..], hook, id);
      var p := props[0];
      if !p.Literal? {
        IdsAppend(Watchers(p), [Observer(hook, true)]);
        OccurrencesAppend(Ids(Watchers(p)), [hook], id);
        assert Ids([Observer(hook, true)]) == [hook];
        assert Occurrences([hook], id) == if id == hook then 1 else 0 by {
          assert [hook][1..] == [];
        }
      }
    }
  }

  /**
    A bound cell's change does not re-render: the `lambda _: bind_func()` callback
    needs an argument, and `set` calls its observers with none, so `set` on a bound
    `State` property raises `TypeError`.
  */
  lemma BoundPropChangeRaises<T>(props: seq<Prop<T>>, hook: ObserverId, i: nat, v: T)
    requires i < |props| && props[i].Plain? && PropValue(props[i]) != v
    ensures Set(BindProps(props, hook)[i].state, v).dispatch.outcome.TypeError?
  {
    var s := BindProps(props, hook)[i].state;
    assert s.observers[|s.observers| - 1].takesArg;
  }

  /**
    The same for a bound `ReactiveState` property: its cache cell is untouched by
    `bind_props`, so it can still be updated, and an `update` whose formula result
    changed calls the callback with no argument and raises `TypeError`.
  */
  lemma BoundReactivePropChangeRaises<T>(props: seq<Prop<T>>, hook: ObserverId, i: nat, v: T)
    requires i < |props| && props[i].Reactive? && Valid(props[i].derived) && PropValue(props[i]) != v
    ensures Valid(BindProps(props, hook)[i].derived)
    ensures Update(BindProps(props, hook)[i].derived, v).dispatch.outcome.TypeError?
  {
    var d := BindProps(props, hook)[i].derived;
    assert d.observers[|d.observers| - 1].takesArg;
  }
}
