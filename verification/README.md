# Flet chat demo: reactive cells and chat-list reconciliation, in Dafny

This project models the logic of a small real-time chat page written with flet, in
three parts:

- **Observable and derived value cells** (`src/state.py`). A `State` holds one value
  and an ordered observer list. `set` is gated on equality. A `ReactiveState` caches
  the result of its formula and recomputes it on `update`. `get_prop_value` and
  `bind_props` resolve a property that may be a literal or a cell. A cell is an
  immutable record `(value, observers)`. Every operation returns the new record and
  a `Dispatch`: the log of the callbacks it called, in call order, plus how the round
  ended. This makes the equality gate, the notification order and the lack of
  deduplication directly provable.
- **The chat page, current revision** (`src/main.py`). It covers:
  - the `Message` record and the send guard;
  - the like action, which counts one more like, retags the message as
    `increment` and rebroadcasts it;
  - `on_message`, which appends a row or refreshes the count of the first row that
    shows the same uuid.

  The message object is shared by the like button, the sender and every session's
  row. The model makes that aliasing explicit: message objects live in a `Heap`
  keyed by object identity (`Ref`), and rows hold a `Ref`. The pubsub fan-out
  applies `on_message` to every subscribed session. Each session's result depends
  on that session alone, so no delivery order is assumed.
- **The chat page, earlier revision** (`src/_main.py`). It covers the send guard,
  `on_message`, the local-only like and `get_initials`. `on_message` appends an
  entry and then a divider.

Modules: `Results` (Option, Result, the Python error raised), `Cells`, `Props`,
`Chat` (one session's list), `Room` (sessions, broadcast, send, like) and `Legacy`.

Behaviour of the code that a reader might not expect:

- **Zero-argument callbacks.** `State.set` calls each observer with no argument.
  The callbacks that `ReactiveState` and `bind_props` register are one-argument
  lambdas, so a change to a dependency raises `TypeError` and never reaches
  `update` or the re-render. The model records each callback's arity. `Notify`
  stops at the first callback that needs an argument. `DependencyChangeRaises` and
  `BoundPropChangeRaises` state the outcome. Propagation of dependency changes is
  not claimed anywhere.
- **Missing row on `increment`.** An `increment` for which a session has no row
  raises `UnboundLocalError` (`m` is unbound); it is not skipped. The like itself
  (one more like, type `increment`) has already been applied to the shared message
  object by then, and it stays.
- **Send guard.** The guard rejects only the exact empty string; blank input is
  sent.

## Model

| member | source | states |
|---|---|---|
| Cells.Notify | src/state.py:19-20 | observers are called in list order, each once; the round completes, calling all of them, iff none needs an argument; otherwise exactly the prefix before the first argument-taking callback runs, and `TypeError` names that callback |
| Cells.NewState | src/state.py:9-14 | a new cell's `get` returns the constructor value and it has no observers |
| Cells.Set | src/state.py:16-20 | afterwards `get` returns the new value and the observers are unchanged; an equal value leaves the cell as it was and calls nobody; a different value calls every observer once in bind order, or raises `TypeError` when one needs an argument |
| Cells.GetReadsLastWrite | src/state.py:9-20 | `get` returns the value last stored, by the constructor or by the latest `set`, even one whose notification raised; binding an observer never changes it |
| Cells.Bind | src/state.py:22-23 | `bind` keeps the value and the existing observers and puts the new observer last |
| Cells.BindAddsOneRegistration | src/state.py:22-23 | one `bind` adds exactly one registration of that observer and none of any other, even when it is already registered |
| Cells.RepeatedBindRepeatsCalls | src/state.py:16-23 | an observer bound `k` more times is called `k` more times by the next changing `set` (no deduplication) |
| Cells.EachChangeNotifiesOnce | src/state.py:16-20 | over any run of `set` calls, each observer is called once per registration for every value that differs from the one before it, and never for an equal one; the cell ends holding the last value |
| Cells.NewDerived | src/state.py:27-33 | construction seeds the cache with the single result of `formula()`, starts with no observers of its own, and appends one argument-taking update callback to each dependency |
| Cells.WireAll | src/state.py:32-33 | every dependency, in order, gets exactly that callback bound |
| Cells.Update | src/state.py:38-44 | `update` caches the new formula result; it calls nobody when the result equals the cached one, and otherwise calls every observer of the derived cell once, in bind order; the private inner cell stays unobserved |
| Cells.DerivedBind | src/state.py:46-47 | `ReactiveState.bind` appends to the derived cell's own observers and leaves its cached value alone |
| Cells.DerivedGetReadsCache | src/state.py:27-47 | `ReactiveState.get` returns the cached result without re-running the formula: the one taken at construction or stored by the latest `update`; binding an observer leaves it alone |
| Cells.UpdateNotifiesIffChanged | src/state.py:38-44 | the derived cell's observers fire if and only if the recomputed value differs from the cached one, each once per registration |
| Cells.DependencyChangeRaises | src/state.py:16-33 | changing a dependency of a derived cell raises `TypeError`, so the change never reaches `update` |
| Props.PropValue | src/state.py:59-65 | a literal resolves to itself, a `State` or `ReactiveState` to its current `get()` |
| Props.ResolveFollowsWrites | src/state.py:59-65 | a resolved cell property follows its cell: after `set(v)` or `update()` with result `v` it resolves to `v` |
| Props.BindProp | src/state.py:46-56 | one property: a cell gets the argument-taking callback appended, a literal is left alone, the resolved value and the kind of property do not change, and a `ReactiveState`'s private cache cell is untouched |
| Props.BindProps | src/state.py:46-56 | every cell among the properties gets exactly one more callback, literals are returned unchanged, no property's resolved value changes, and every `ReactiveState` property keeps its private cache cell, so it can still be updated |
| Props.BindPropsCountsCells | src/state.py:53-56 | across all properties, the callback gains exactly as many registrations as there are cells, and no other callback gains any |
| Props.BoundPropChangeRaises | src/state.py:16-56 | a later `set` to a new value on a bound `State` property raises `TypeError` instead of re-rendering |
| Props.BoundReactivePropChangeRaises | src/state.py:38-56 | a bound `ReactiveState` property can still be updated, and an `update` whose result changed raises `TypeError` instead of re-rendering |
| Chat.NewMessage | src/main.py:50-55 | a sent message has the given uuid, the sender's session, the input text, type `chat_message` and `like` 0 |
| Chat.NewRow | src/main.py:70-77 | the appended row shows that message object with the count equal to its `like`, and its like button is disabled exactly when the viewing session sent the message |
| Chat.FirstRowWithId | src/main.py:82-86 | finds the first row, in list order, whose message has the given uuid, or reports that none has |
| Chat.FindRow | src/main.py:83-86 | the scan that breaks at the first matching row finds exactly the first row whose message has the uuid, and reports failure iff no row matches |
| Chat.Refresh | src/main.py:88 | the refreshed row displays its own message object's current `like` and keeps its message and button |
| Chat.OnMessage | src/main.py:68-91 | `chat_message` appends exactly one new row after the unchanged earlier rows; `increment` keeps the length, refreshes only the first row with the same uuid, and raises `UnboundLocalError` iff no row matches; any other type leaves the list unchanged |
| Chat.SameIdKeepsUnique | src/main.py:62-64 | changing a message object in place (count and type) keeps uuids unique across message objects |
| Chat.IncrementOverwritesCount | src/main.py:81-89 | for a message the session shows, an `increment` sets that row's displayed count to the shared object's `like` (an overwrite, not an addition) and changes no other row |
| Chat.IncrementIdempotent | src/main.py:81-89 | delivering the same `increment` twice gives the same list as delivering it once |
| Room.DeliverAll | src/main.py:68-93 | every subscribed session runs its own `on_message` on the same message object; the fan-out fails iff some session's handler raises |
| Room.Broadcast | src/main.py:68-93 | after a successful `send_all`, each session's list is its own `on_message` result, with its id and input unchanged and message objects untouched |
| Room.Join | src/main.py:93-100 | a new connection subscribes with an empty list and an empty input; earlier messages are not replayed |
| Room.Type | src/main.py:57 | writing one session's input field changes only that session's input and nothing else in the room |
| Room.SendMessageClick | src/main.py:47-59 | input exactly `""` changes nothing and publishes nothing; any other input publishes one new `chat_message`; every session, the sender included, appends one row for it; only the sender's input is cleared; uuid uniqueness is kept when the new uuid is fresh |
| Room.IncrementLike | src/main.py:61-66 | a like on an enabled row adds one to the shared message object's count and retags it `increment`, keeping uuid, session and text; this new state of the object holds whether or not a handler raises; the same object is rebroadcast; the like raises `UnboundLocalError` iff some session has no row for that uuid, and otherwise every list is its session's `on_message` result; a disabled button emits nothing |
| Room.Liked | src/main.py:62-64 | the liked message object has one more like and type `increment`, keeps its uuid, session and text; every other message object and the set of objects are unchanged, and uuids stay unique |
| Room.LikeReachesEverySession | src/main.py:61-89 | with unique uuids, when every session shows the message, a like succeeds. In every session the row of that message then displays the old count plus one, and nothing else changes |
| Room.LikeAfterLateJoinRaises | src/main.py:61-89 | a like of a message sent before some session joined raises `UnboundLocalError` in that session's handler, and the shared object still ends with one more like and type `increment` |
| Room.TwoSessionsLikeScenario | src/main.py:47-89 | A sends "hello", and both A and B show it with 0 likes (the like button is disabled in A only). B likes it twice: both sessions show 1, then 2. A session joining afterwards shows nothing |
| Legacy.OnMessage | src/_main.py:106-113 | `chat_message` appends its row then a divider; `login_message` appends its italic text then a divider; any other type raises `UnboundLocalError` and appends nothing |
| Legacy.OnMessageKeepsAlternating | src/_main.py:111-112 | a list built by `on_message` keeps entries and dividers alternating, each entry followed by its divider |
| Legacy.IncrementLike | src/_main.py:18-21 | a like adds exactly one to the shared message object's count and shows the new value on the clicked row only; the message type and every other row are unchanged, and nothing is published |
| Legacy.LikeIsLocal | src/_main.py:16-21 | another session showing the same object keeps its stale count after the like; its own like then counts from the shared value |
| Legacy.DeliverAll | src/_main.py:106-115 | every subscribed session runs `on_message` on the same object; with at least one session subscribed, the fan-out fails iff the message type is neither `chat_message` nor `login_message`, and the error is then `UnboundLocalError` |
| Legacy.SendMessageClick | src/_main.py:94-104 | input exactly `""` changes nothing; any other input publishes one `chat_message` with the stored user name and `like` 0; every session grows by a row and a divider; only the sender's input is cleared |
| Legacy.Capitalize | src/_main.py:50 | a lower-case ASCII letter becomes its upper-case letter; any other character is kept |
| Legacy.GetInitials | src/_main.py:47-50 | `None` gives a single space and an empty name gives `""`; otherwise the result is the name's first character, capitalized |
| Legacy.InitialsOfInitials | src/_main.py:47-50 | initials depend only on the first character, and taking the initials of initials changes nothing |

## Left out

- Rendering: controls, layout, `page.update`, `focus`, window size, ports, `ft.app`,
  and the `ReactiveText` control (src/state.py:68-97) are UI. `ReactiveText.set_props`
  resolves `State` properties but passes a `ReactiveState` through unresolved.
- Pubsub internals: flet's `send_all`/`subscribe` delivery order and threading live
  in the library. A broadcast is modelled as every session's own `on_message`, and
  the model states only whether any handler raised. What flet does with the other
  sessions when one handler raises is not modelled.
- Room.IncrementLike: when a handler raises, the sessions' lists are not described
  (the model returns them as they were). Which sessions refreshed before the
  failing handler depends on flet's delivery order, which is not modelled. The
  mutated message object, the error and the unchanged ids and inputs are stated.
- Concurrency: races between sessions liking the same message (a lost increment)
  are out of scope. Every action is applied atomically.
- `uuid.uuid4()`, `page.session_id`, object allocation and
  `page.session.get("user_name")` are parameters: `id`, the session ids, `newRef`
  and the session's `userName`. Where freshness matters it is a precondition
  (`newRef !in heap`) or a hypothesis (`UniqueIds`).
- The formula of a `ReactiveState` is a closure over arbitrary state. Its result is
  passed in as a value wherever the source calls `formula()`.
- Cells.NewDerived: all dependencies of one derived cell share one value type,
  because Dafny's sequences are homogeneous. Python allows mixed dependency types.
- Cells.NewDerived: a cell is a value, not an object with an identity. A `State`
  listed twice among the dependencies (`ReactiveState(f, [s, s])`) gets two
  callbacks on one object in Python. The model instead returns two separate
  copies, each with one more callback.
- Props.BindProps: for the same reason, a `State` passed as two properties, or
  also used as a dependency elsewhere, is modelled as independent copies. The model
  does not show that one object gains all the callbacks.
- `get_avatar_color` (src/_main.py:52-68) depends on Python's per-process randomized
  `hash()`.
- Legacy `Message` defaults (src/_main.py:7-9): the trailing commas make them
  one-element tuples. Only the fields passed explicitly, plus `like`'s default of 0,
  are modelled.
- The demo's startup auto-send (src/_main.py:171-172) is plumbing.
- The commented-out join dialog and its `login_message` sender (src/_main.py:77-92)
  are not code. `login_message` is still modelled on the receiving side.
- Legacy.Capitalize: only ASCII letters are case-mapped. Python's `str.capitalize`
  also title-cases other scripts (for example `'ß'` becomes `"Ss"`), which is not
  modelled.
- Reentrancy: an observer that writes to a cell during notification is not
  modelled. Observers are identities, not code.
- Python's integer `like` is modelled as an unbounded `int`, so there is no
  overflow to model.
- The equality gate of `set` and `update` uses Dafny's structural equality on the
  value type. A Python value whose `__eq__` is user-defined, or not reflexive (such
  as `nan`), is not modelled.
