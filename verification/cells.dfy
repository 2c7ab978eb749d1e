/**
  Observable value cells (`State`) and derived value cells (`ReactiveState`).

  A cell is an immutable record of its value and its ordered observer list; every
  operation returns the new record together with a `Dispatch`, the log of the
  callbacks it invoked. Callbacks are identified by an `ObserverId`; whether a
  callback needs a positional argument is recorded, because `State.set` calls every
  observer with none, and the one-argument lambdas registered by `ReactiveState` and
  `bind_props` then raise `TypeError`.
*/
module Cells {

  /** Identity of a registered callback. */
  type ObserverId = nat

  /** A registered callback; `takesArg` marks a `lambda _: ...` style callback. */
  datatype Observer = Observer(id: ObserverId, takesArg: bool)

  /** How a round of notifications ended. */
  datatype Outcome = Completed | TypeError(culprit: ObserverId)

  /** The callbacks that ran, in call order, and how the round ended. */
  datatype Dispatch = Dispatch(called: seq<ObserverId>, outcome: Outcome)

  /** The log of a round in which nothing was called. */
  const Silent: Dispatch := Dispatch([], Completed)

  /** The identities of a list of observers, in list order. */
  function Ids(obs: seq<Observer>): (ids: seq<ObserverId>)
    ensures |ids| == |obs|
    ensures forall i :: 0 <= i < |obs| ==> ids[i] == obs[i].id
  {
    if obs == [] then [] else [obs[0].id] + Ids(obs[1..])
  }

  lemma IdsAppend(a: seq<Observer>, b: seq<Observer>)
    ensures Ids(a + b) == Ids(a) + Ids(b)
  {
  }

  /** Every observer in the list can be called with no argument. */
  predicate ZeroArg(obs: seq<Observer>) {
    forall i :: 0 <= i < |obs| ==> !obs[i].takesArg
  }

  /**
    Calls every observer with no argument, in list order. A callback that needs an
    argument raises `TypeError` at its call, which ends the round: the observers
    before it have run, the ones after it are not called.
  */
  function Notify(obs: seq<Observer>): (d: Dispatch)
    ensures d.outcome == Completed <==> ZeroArg(obs)
    ensures d.outcome == Completed ==> d.called == Ids(obs)
    ensures d.outcome.TypeError? ==>
              var k := |d.called|;
              && k < |obs|
              && obs[k].takesArg
              && d.outcome.culprit == obs[k].id
              && ZeroArg(obs[..k])
              && d.called == Ids(obs[..k])
  {
    if obs == [] then Silent
    else if obs[0].takesArg then Dispatch([], TypeError(obs[0].id))
    else
      var rest := Notify(obs[1..]);
      assert ZeroArg(obs) <==> ZeroArg(obs[1..]) by {
        if ZeroArg(obs[1..]) {
          forall i | 0 <= i < |obs| ensures !obs[i].takesArg {
            if i > 0 { assert obs[i] == obs[1..][i - 1]; }
          }
        }
      }
      if rest.outcome.TypeError? then
        var k := |rest.called|;
        assert obs[1..][..k] == obs[1..k + 1];
        assert obs[..k + 1] == [obs[0]] + obs[1..k + 1];
        var prefix := obs[..k + 1];
        assert ZeroArg(prefix) by {
          forall i | 0 <= i < k + 1 ensures !prefix[i].takesArg {
            if i > 0 { assert prefix[i] == obs[1..k + 1][i - 1]; }
          }
        }
        Dispatch([obs[0].id] + rest.called, rest.outcome)
      else
        Dispatch([obs[0].id] + rest.called, rest.outcome)
  }

  // ---------------------------------------------------------------------------
  // State
  // ---------------------------------------------------------------------------

  /** An observable value cell: its value and its observers in bind order. */
  datatype State<T> = State(value: T, observers: seq<Observer>)

  /** The cell after a `set`, and the log of the notifications it made. */
  datatype SetResult<T> = SetResult(state: State<T>, dispatch: Dispatch)

  /** `State(value)`: a cell holding `value` that nobody observes yet. */
  function NewState<T>(value: T): (s: State<T>)
    ensures Get(s) == value
    ensures s.observers == []
  {
    State(value, [])
  }

  /** `State.get`: reads the value; the cell itself is not part of the result. */
  function Get<T>(s: State<T>): T {
    s.value
  }

  /**
    `State.set`: an equal value changes nothing and calls nobody; a different value
    is stored first and then every observer is called, in bind order.
  */
  function Set<T(==)>(s: State<T>, v: T): (r: SetResult<T>)
    ensures Get(r.state) == v
    ensures r.state.observers == s.observers
    ensures s.value == v ==> r.state == s && r.dispatch == Silent
    ensures s.value != v && ZeroArg(s.observers) ==>
              r.dispatch == Dispatch(Ids(s.observers), Completed)
    ensures s.value != v && !ZeroArg(s.observers) ==> r.dispatch.outcome.TypeError?
    ensures s.value != v ==> r.dispatch == Notify(s.observers)
  {
    if s.value != v then SetResult(State(v, s.observers), Notify(s.observers))
    else SetResult(s, Silent)
  }

  /** `State.bind`: appends the observer, even when it is already registered. */
  function Bind<T>(s: State<T>, o: Observer): (r: State<T>)
    ensures Get(r) == Get(s)
    ensures |r.observers| == |s.observers| + 1
    ensures r.observers[..|s.observers|] == s.observers
    ensures r.observers[|s.observers|] == o
  {
    State(s.value, s.observers + [o])
  }

  /**
    `State.get` returns the value last stored: the constructor's, or that of the
    latest `set`, including a `set` whose notification raised, because the value is
    written before any observer runs. Binding an observer never changes it.
  */
  lemma GetReadsLastWrite<T>(s: State<T>, v: T, w: T, o: Observer)
    ensures Get(NewState(v)) == v
    ensures Get(Set(s, v).state) == v
    ensures Set(s, v).dispatch.outcome.TypeError? ==> Get(Set(s, v).state) == v && v != Get(s)
    ensures Get(Set(Bind(Set(s, v).state, o), w).state) == w
    ensures Get(Bind(Set(s, v).state, o)) == v
  {
  }

  /** How many times `id` occurs in a log or an identity list. */
  function Occurrences(ids: seq<ObserverId>, id: ObserverId): nat {
    if ids == [] then 0
    else (if ids[0] == id then 1 else 0) + Occurrences(ids[1..], id)
  }

  lemma {:induction false} OccurrencesAppend(a: seq<ObserverId>, b: seq<ObserverId>, id: ObserverId)
    ensures Occurrences(a + b, id) == Occurrences(a, id) + Occurrences(b, id)
  {
    if a == [] {
      assert a + b == b;
    } else {
      assert (a + b)[0] == a[0];
      assert (a + b)[1..] == a[1..] + b;
      OccurrencesAppend(a[1..], b, id);
    }
  }

  /** How many times the observer with this identity is registered. */
  function Registrations(obs: seq<Observer>, id: ObserverId): nat {
    Occurrences(Ids(obs), id)
  }

  /** Binding an observer adds exactly one registration of it and none of any other. */
  lemma BindAddsOneRegistration<T>(s: State<T>, o: Observer, id: ObserverId)
    ensures Registrations(Bind(s, o).observers, id)
            == Registrations(s.observers, id) + (if id == o.id then 1 else 0)
  {
    IdsAppend(s.observers, [o]);
    OccurrencesAppend(Ids(s.observers), [o.id], id);
    assert Ids([o]) == [o.id];
    assert Occurrences([o.id], id) == if id == o.id then 1 else 0 by {
      assert [o.id][1..] == [];
    }
  }

  /** `k` successive `bind(o)` calls. */
  function BindTimes<T>(s: State<T>, o: Observer, k: nat): (r: State<T>)
    decreases k
  {
    if k == 0 then s else Bind(BindTimes(s, o, k - 1), o)
  }

  /**
    `bind` does not deduplicate: an observer bound `k` more times is called `k`
    more times by the next `set` that changes the value.
  */
  lemma {:induction false} RepeatedBindRepeatsCalls<T>(s: State<T>, o: Observer, k: nat, v: T)
    requires ZeroArg(s.observers) && !o.takesArg
    requires s.value != v
    ensures Set(BindTimes(s, o, k), v).dispatch.outcome == Completed
    ensures Occurrences(Set(BindTimes(s, o, k), v).dispatch.called, o.id)
            == Registrations(s.observers, o.id) + k
  {
    BindTimesKeeps(s, o, k);
    var b := BindTimes(s, o, k);
    assert Set(b, v).dispatch.called == Ids(b.observers);
  }

  /** `BindTimes` keeps the value, keeps every observer callable without an argument
      when `o` is, and adds `k` registrations of `o`. */
  lemma {:induction false} BindTimesKeeps<T>(s: State<T>, o: Observer, k: nat)
    ensures BindTimes(s, o, k).value == s.value
    ensures ZeroArg(s.observers) && !o.takesArg ==> ZeroArg(BindTimes(s, o, k).observers)
    ensures Registrations(BindTimes(s, o, k).observers, o.id) == Registrations(s.observers, o.id) + k
    decreases k
  {
    if k > 0 {
      var prev := BindTimes(s, o, k - 1);
      BindTimesKeeps(s, o, k - 1);
      BindAddsOneRegistration(prev, o, o.id);
      assert BindTimes(s, o, k) == Bind(prev, o);
      var before := Registrations(prev.observers, o.id);
      assert Registrations(Bind(prev, o).observers, o.id) == before + 1;
      if ZeroArg(s.observers) && !o.takesArg {
        BindKeepsZeroArg(prev, o);
      }
    }
  }

  /** Appending a zero-argument callback keeps every observer callable without an argument. */
  lemma BindKeepsZeroArg<T>(s: State<T>, o: Observer)
    requires ZeroArg(s.observers) && !o.takesArg
    ensures ZeroArg(Bind(s, o).observers)
  {
  }

  /**
    A run of `set` calls, stopping at the first one that raises (the exception
    escapes to the caller); the log concatenates the rounds.
  */
  function SetAll<T(==)>(s: State<T>, vs: seq<T>): (r: SetResult<T>)
    decreases |vs|
  {
    if vs == [] then SetResult(s, Silent)
    else
      var first := Set(s, vs[0]);
      if first.dispatch.outcome.TypeError? then first
      else
        var rest := SetAll(first.state, vs[1..]);
        SetResult(rest.state, Dispatch(first.dispatch.called + rest.dispatch.called, rest.dispatch.outcome))
  }

  /** The number of values in `vs` that differ from the value right before them. */
  function Changes<T(==)>(prev: T, vs: seq<T>): nat
    decreases |vs|
  {
    if vs == [] then 0
    else (if vs[0] != prev then 1 else 0) + Changes(vs[0], vs[1..])
  }

  /**
    Over any run of `set` calls, each registered observer is called once per call
    whose value differs from the value right before it, times the number of its
    registrations; repeated equal values notify nobody.
  */
  lemma {:induction false} EachChangeNotifiesOnce<T>(s: State<T>, vs: seq<T>, id: ObserverId)
    requires ZeroArg(s.observers)
    ensures SetAll(s, vs).dispatch.outcome == Completed
    ensures SetAll(s, vs).state.observers == s.observers
    ensures SetAll(s, vs).state.value == if vs == [] then s.value else vs[|vs| - 1]
    ensures Occurrences(SetAll(s, vs).dispatch.called, id)
            == Changes(s.value, vs) * Registrations(s.observers, id)
    decreases |vs|
  {
    if vs != [] {
      var first := Set(s, vs[0]);
      EachChangeNotifiesOnce(first.state, vs[1..], id);
      var rest := SetAll(first.state, vs[1..]);
      var n := Registrations(s.observers, id);
      var c := Changes(vs[0], vs[1..]);
      assert Occurrences(first.dispatch.called, id) == (if vs[0] != s.value then n else 0);
      OccurrencesAppend(first.dispatch.called, rest.dispatch.called, id);
      Distribute(if vs[0] != s.value then 1 else 0, c, n);
      if |vs| > 1 {
        assert vs[1..][|vs[1..]| - 1] == vs[|vs| - 1];
      }
    }
  }

  lemma Distribute(a: nat, c: nat, n: nat)
    ensures a * n + c * n == (a + c) * n
  {
  }

  // ---------------------------------------------------------------------------
  // ReactiveState
  // ---------------------------------------------------------------------------

  /**
    A derived value cell: the private inner `State` caching the last result of the
    formula, and the cell's own observers. The formula is a closure over arbitrary
    program state, so its result is passed in wherever the source calls it.
  */
  datatype Derived<T> = Derived(cell: State<T>, observers: seq<Observer>)

  /** The inner cell is private to the derived cell, so nothing is ever bound to it. */
  predicate Valid<T>(d: Derived<T>) {
    d.cell.observers == []
  }

  /** A freshly built derived cell and its dependency cells after wiring. */
  datatype Wired<T, U> = Wired(derived: Derived<T>, deps: seq<State<U>>)

  /**
    `ReactiveState(formula, reliance_states)`: `seed` is the one result of `formula()`
    taken at construction; every dependency gets one `lambda _: self.update()`
    callback, `hook`, appended to its observers.
  */
  function NewDerived<T, U>(seed: T, deps: seq<State<U>>, hook: ObserverId): (w: Wired<T, U>)
    ensures Valid(w.derived)
    ensures DerivedGet(w.derived) == seed
    ensures w.derived.observers == []
    ensures |w.deps| == |deps|
    ensures forall i :: 0 <= i < |deps| ==> w.deps[i] == Bind(deps[i], Observer(hook, true))
  {
    Wired(Derived(NewState(seed), []), WireAll(deps, hook))
  }

  /** Appends the update callback to each dependency, in order. */
  function WireAll<U>(deps: seq<State<U>>, hook: ObserverId): (r: seq<State<U>>)
    ensures |r| == |deps|
    ensures forall i :: 0 <= i < |deps| ==> r[i] == Bind(deps[i], Observer(hook, true))
  {
    if deps == [] then []
    else [Bind(deps[0], Observer(hook, true))] + WireAll(deps[1..], hook)
  }

  /** `ReactiveState.get`: the cached result; the formula is not re-run. */
  function DerivedGet<T>(d: Derived<T>): T {
    Get(d.cell)
  }

  /** The derived cell after an `update`, and the log of its notifications. */
  datatype UpdateResult<T> = UpdateResult(derived: Derived<T>, dispatch: Dispatch)

  /**
    `ReactiveState.update`: stores `computed`, the new result of `formula()`, in the
    inner cell (through its own equality gate), then calls this cell's observers
    when the stored value changed.
  */
  function Update<T(==)>(d: Derived<T>, computed: T): (r: UpdateResult<T>)
    requires Valid(d)
    ensures Valid(r.derived)
    ensures DerivedGet(r.derived) == computed
    ensures r.derived.observers == d.observers
    ensures DerivedGet(d) == computed ==> r.dispatch == Silent
    ensures DerivedGet(d) != computed && ZeroArg(d.observers) ==>
              r.dispatch == Dispatch(Ids(d.observers), Completed)
    ensures DerivedGet(d) != computed ==> r.dispatch == Notify(d.observers)
  {
    var before := Get(d.cell);
    var inner := Set(d.cell, computed);
    var d' := d.(cell := inner.state);
    if inner.dispatch.outcome.TypeError? then UpdateResult(d', inner.dispatch)
    else if before != Get(inner.state) then
      var outer := Notify(d.observers);
      UpdateResult(d', Dispatch(inner.dispatch.called + outer.called, outer.outcome))
    else UpdateResult(d', inner.dispatch)
  }

  /** `ReactiveState.bind`: appends to the derived cell's own observers. */
  function DerivedBind<T>(d: Derived<T>, o: Observer): (r: Derived<T>)
    ensures r.cell == d.cell
    ensures |r.observers| == |d.observers| + 1
    ensures r.observers[..|d.observers|] == d.observers
    ensures r.observers[|d.observers|] == o
  {
    d.(observers := d.observers + [o])
  }

  /**
    `ReactiveState.get` returns the cached formula result without re-running the
    formula: the result taken at construction, or the one stored by the latest
    `update`. Binding an observer to the derived cell does not change it.
  */
  lemma DerivedGetReadsCache<T, U>(seed: T, deps: seq<State<U>>, hook: ObserverId, d: Derived<T>, computed: T, o: Observer)
    requires Valid(d)
    ensures DerivedGet(NewDerived(seed, deps, hook).derived) == seed
    ensures DerivedGet(Update(d, computed).derived) == computed
    ensures DerivedGet(DerivedBind(d, o)) == DerivedGet(d)
    ensures DerivedGet(DerivedBind(Update(d, computed).derived, o)) == computed
  {
  }

  /**
    An update notifies the derived cell's observers if and only if the formula's
    result differs from the cached one; each observer is then called once per
    registration.
  */
  lemma UpdateNotifiesIffChanged<T>(d: Derived<T>, computed: T, id: ObserverId)
    requires Valid(d) && ZeroArg(d.observers) && d.observers != []
    ensures Update(d, computed).dispatch.called != [] <==> DerivedGet(d) != computed
    ensures Occurrences(Update(d, computed).dispatch.called, id)
            == if DerivedGet(d) != computed then Registrations(d.observers, id) else 0
  {
  }

  /**
    A dependency change does not reach the derived cell: the callback wired by the
    constructor takes an argument, so the dependency's `set` raises `TypeError`
    before the derived cell's `update` can run.
  */
  lemma DependencyChangeRaises<T, U>(seed: T, deps: seq<State<U>>, hook: ObserverId, i: nat, v: U)
    requires i < |deps| && Get(deps[i]) != v
    ensures Set(NewDerived(seed, deps, hook).deps[i], v).dispatch.outcome.TypeError?
  {
  }
}
