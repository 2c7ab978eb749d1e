/**
  The sessions of one chat page in the current revision, the message bus that fans
  a message object out to every session's `on_message`, and the two user actions
  that publish: `send_message_click` and `increment_like`.

  A broadcast applies `on_message` to each subscribed session; each session's
  outcome depends on that session alone, so no delivery order is assumed.
*/
module Room {
  import opened Results
  import opened Chat

  /** One connection: its id, the text in its input field, and its chat list. */
  datatype Session = Session(id: SessionId, input: string, chat: seq<Row>)

  /** The shared message objects and every subscribed session, in subscription order. */
  datatype RoomState = RoomState(heap: Heap, sessions: seq<Session>)

  /** Every row of every session refers to a live message object. */
  predicate RowsLive(room: RoomState) {
    forall k :: 0 <= k < |room.sessions| ==> RowsIn(room.heap, room.sessions[k].chat)
  }

  /** `on_message` run by every session in `sessions`; fails if any of them raises. */
  function DeliverAll(heap: Heap, sessions: seq<Session>, incoming: Ref): (r: Result<seq<Session>>)
    requires incoming in heap
    requires forall k :: 0 <= k < |sessions| ==> RowsIn(heap, sessions[k].chat)
    ensures r.Ok? <==> forall k :: 0 <= k < |sessions| ==>
                         OnMessage(heap, sessions[k].id, sessions[k].chat, incoming).Ok?
    ensures r.Raised? ==> r.error == UnboundLocalError("m")
    ensures r.Ok? ==> |r.value| == |sessions|
    ensures r.Ok? ==> forall k :: 0 <= k < |sessions| ==>
              r.value[k] == sessions[k].(chat := OnMessage(heap, sessions[k].id, sessions[k].chat, incoming).value)
  {
    if sessions == [] then Ok([])
    else
      var s := sessions[0];
      match OnMessage(heap, s.id, s.chat, incoming)
      case Raised(e) => Raised(e)
      case Ok(chat) =>
        match DeliverAll(heap, sessions[1..], incoming)
        case Raised(e) =>
          assert exists k :: (1 <= k < |sessions| &&
                                OnMessage(heap, sessions[k].id, sessions[k].chat, incoming).Raised?) by {
            var k' :| 0 <= k' < |sessions[1..]| &&
              OnMessage(heap, sessions[1..][k'].id, sessions[1..][k'].chat, incoming).Raised?;
            assert sessions[1..][k'] == sessions[k' + 1];
          }
          Raised(e)
        case Ok(rest) =>
          assert forall k :: 1 <= k < |sessions| ==> sessions[k] == sessions[1..][k - 1];
          Ok([s.(chat := chat)] + rest)
  }

  /**
    `page.pubsub.send_all(message)`: every session's handler receives the same
    message object. Succeeds exactly when no handler raises; then every session's
    list is its own `on_message` result and the message objects are untouched.
  */
  function Broadcast(room: RoomState, incoming: Ref): (r: Result<RoomState>)
    requires incoming in room.heap && RowsLive(room)
    ensures r.Ok? <==> forall k :: 0 <= k < |room.sessions| ==>
                         OnMessage(room.heap, room.sessions[k].id, room.sessions[k].chat, incoming).Ok?
    ensures r.Raised? ==> r.error == UnboundLocalError("m")
    ensures r.Ok? ==> RowsLive(r.value)
    ensures r.Ok? ==> r.value.heap == room.heap && |r.value.sessions| == |room.sessions|
    ensures r.Ok? ==> forall k :: 0 <= k < |room.sessions| ==>
              && r.value.sessions[k].id == room.sessions[k].id
              && r.value.sessions[k].input == room.sessions[k].input
              && r.value.sessions[k].chat
                 == OnMessage(room.heap, room.sessions[k].id, room.sessions[k].chat, incoming).value
  {
    match DeliverAll(room.heap, room.sessions, incoming)
    case Raised(e) => Raised(e)
    case Ok(sessions) => Ok(RoomState(room.heap, sessions))
  }

  /**
    A new connection runs `main(page)`: it subscribes with an empty chat list and
    an empty input. Nothing already broadcast is replayed to it.
  */
  function Join(room: RoomState, id: SessionId): (r: RoomState)
    ensures r.heap == room.heap
    ensures |r.sessions| == |room.sessions| + 1
    ensures r.sessions[..|room.sessions|] == room.sessions
    ensures r.sessions[|room.sessions|] == Session(id, "", [])
    ensures RowsLive(room) ==> RowsLive(r)
  {
    RoomState(room.heap, room.sessions + [Session(id, "", [])])
  }

  /** The user of session `k` types into the input field. */
  function Type(room: RoomState, k: nat, text: string): (r: RoomState)
    requires k < |room.sessions|
    ensures r.heap == room.heap && |r.sessions| == |room.sessions|
    ensures r.sessions[k] == room.sessions[k].(input := text)
    ensures forall j :: 0 <= j < |room.sessions| && j != k ==> r.sessions[j] == room.sessions[j]
    ensures RowsLive(room) ==> RowsLive(r)
  {
    room.(sessions := room.sessions[k := room.sessions[k].(input := text)])
  }

  /**
    The room after a user action, the message object it published, if any, and the
    error a message handler raised during the broadcast, if any. A mutation made
    before the broadcast stays in `room.heap` whether or not a handler raised.
  */
  datatype Step = Step(room: RoomState, published: Option<Ref>, raised: Option<PyError>)

  /**
    `send_message_click` in session `k`, with `id` the value `uuid.uuid4()` returns
    and `newRef` the identity of the new message object. Input exactly `""` does
    nothing; any other input, blank or not, is published as a new `chat_message`,
    every session (the sender too) appends one row for it, and the sender's input
    is cleared. No handler raises on a `chat_message`.
  */
  function SendMessageClick(room: RoomState, k: nat, id: Uuid, newRef: Ref): (r: Step)
    requires k < |room.sessions| && RowsLive(room) && newRef !in room.heap
    ensures r.raised == None
    ensures room.sessions[k].input == "" ==> r == Step(room, None, None)
    ensures room.sessions[k].input != "" ==>
              var after := r.room;
              && r.published == Some(newRef)
              && after.heap == room.heap[newRef := NewMessage(id, room.sessions[k].id, room.sessions[k].input)]
              && RowsLive(after)
              && |after.sessions| == |room.sessions|
              && after.sessions[k].input == ""
              && (forall j :: 0 <= j < |room.sessions| && j != k ==>
                    after.sessions[j].input == room.sessions[j].input)
              && (forall j :: 0 <= j < |room.sessions| ==>
                    && after.sessions[j].id == room.sessions[j].id
                    && after.sessions[j].chat == room.sessions[j].chat + [NewRow(after.heap, newRef, room.sessions[j].id)])
              && (UniqueIds(room.heap) && (forall x :: x in room.heap ==> room.heap[x].id != id) ==>
                    UniqueIds(after.heap))
  {
    var sender := room.sessions[k];
    if sender.input == "" then Step(room, None, None)
    else
      var heap := room.heap[newRef := NewMessage(id, sender.id, sender.input)];
      var published := RoomState(heap, room.sessions);
      assert RowsLive(published);
      match Broadcast(published, newRef)
      case Raised(e) => Step(published, Some(newRef), Some(e))
      case Ok(delivered) => Step(Type(delivered, k, ""), Some(newRef), None)
  }

  /**
    `increment_like` on row `i` of session `k`. A disabled button (the session's
    own message) emits no click. Otherwise the shared message object gets one more
    like and type `increment`, keeps its uuid, session and text, and is broadcast;
    every session then refreshes the first row showing that uuid. A session with no
    such row raises `UnboundLocalError`; the mutated message object stays in the
    heap all the same, because the mutation happens before the broadcast.
  */
  function IncrementLike(room: RoomState, k: nat, i: nat): (r: Step)
    requires k < |room.sessions| && i < |room.sessions[k].chat| && RowsLive(room)
    ensures !room.sessions[k].chat[i].likeEnabled ==> r == Step(room, None, None)
    ensures room.sessions[k].chat[i].likeEnabled ==>
              var ref := room.sessions[k].chat[i].message;
              var heap := Liked(room.heap, ref);
              && r.published == Some(ref)
              && r.room.heap == heap
              && RowsLive(r.room)
              && |r.room.sessions| == |room.sessions|
              && (forall j :: 0 <= j < |room.sessions| ==>
                    r.room.sessions[j].id == room.sessions[j].id && r.room.sessions[j].input == room.sessions[j].input)
              && (r.raised.Some? <==> exists j :: 0 <= j < |room.sessions| &&
                                        OnMessage(heap, room.sessions[j].id, room.sessions[j].chat, ref).Raised?)
              && (r.raised.Some? ==> r.raised.value == UnboundLocalError("m"))
              && (r.raised.None? ==> forall j :: 0 <= j < |room.sessions| ==>
                    r.room.sessions[j].chat == OnMessage(heap, room.sessions[j].id, room.sessions[j].chat, ref).value)
  {
    var row := room.sessions[k].chat[i];
    if !row.likeEnabled then Step(room, None, None)
    else
      var heap := Liked(room.heap, row.message);
      LikedKeepsRowsLive(room, row.message);
      var liked := RoomState(heap, room.sessions);
      match Broadcast(liked, row.message)
      case Raised(e) => Step(liked, Some(row.message), Some(e))
      case Ok(delivered) => Step(delivered, Some(row.message), None)
  }

  /**
    The shared message object after `message.like += 1` and
    `message.message_type = 'increment'`: uuid, session and text are kept, and
    uuids stay unique.
  */
  function Liked(heap: Heap, ref: Ref): (r: Heap)
    requires ref in heap
    ensures r.Keys == heap.Keys
    ensures r[ref].like == heap[ref].like + 1 && r[ref].messageType == IncrementType
    ensures r[ref].id == heap[ref].id && r[ref].sessionId == heap[ref].sessionId
    ensures r[ref].text == heap[ref].text
    ensures forall x :: x in heap && x != ref ==> r[x] == heap[x]
    ensures UniqueIds(heap) ==> UniqueIds(r)
  {
    var message := heap[ref];
    var liked := message.(like := message.like + 1, messageType := IncrementType);
    SameIdKeepsUnique(heap, ref, liked);
    heap[ref := liked]
  }

  lemma LikedKeepsRowsLive(room: RoomState, ref: Ref)
    requires ref in room.heap && RowsLive(room)
    ensures RowsLive(RoomState(Liked(room.heap, ref), room.sessions))
  {
    var heap := Liked(room.heap, ref);
    forall j | 0 <= j < |room.sessions| ensures RowsIn(heap, room.sessions[j].chat) {
      assert RowsIn(room.heap, room.sessions[j].chat);
    }
  }

  /**
    With uuids unique, a like reaches every session that shows the message: each
    one's row of that message displays the new shared count, and nothing else in
    any list changes.
  */
  lemma LikeReachesEverySession(room: RoomState, k: nat, i: nat)
    requires k < |room.sessions| && i < |room.sessions[k].chat| && RowsLive(room)
    requires UniqueIds(room.heap) && room.sessions[k].chat[i].likeEnabled
    requires forall j :: 0 <= j < |room.sessions| ==>
               exists p :: 0 <= p < |room.sessions[j].chat| &&
                           room.sessions[j].chat[p].message == room.sessions[k].chat[i].message
    ensures IncrementLike(room, k, i).raised == None
    ensures var ref := room.sessions[k].chat[i].message;
            var after := IncrementLike(room, k, i).room;
            && after.heap[ref].like == room.heap[ref].like + 1
            && forall j :: 0 <= j < |room.sessions| ==>
                 var before := room.sessions[j].chat;
                 && |after.sessions[j].chat| == |before|
                 && exists p :: 0 <= p < |before| && before[p].message == ref
                                && after.sessions[j].chat[p] == before[p].(likes := room.heap[ref].like + 1)
                                && forall q :: 0 <= q < |before| && q != p ==> after.sessions[j].chat[q] == before[q]
  {
    var ref := room.sessions[k].chat[i].message;
    var heap := Liked(room.heap, ref);
    LikedKeepsRowsLive(room, ref);
    forall j | 0 <= j < |room.sessions|
      ensures OnMessage(heap, room.sessions[j].id, room.sessions[j].chat, ref).Ok?
      ensures var rows := OnMessage(heap, room.sessions[j].id, room.sessions[j].chat, ref).value;
              var chat := room.sessions[j].chat;
              && |rows| == |chat|
              && exists p :: 0 <= p < |chat| && chat[p].message == ref
                             && rows[p] == chat[p].(likes := heap[ref].like)
                             && forall q :: 0 <= q < |chat| && q != p ==> rows[q] == chat[q]
    {
      var p :| 0 <= p < |room.sessions[j].chat| && room.sessions[j].chat[p].message == ref;
      IncrementOverwritesCount(heap, room.sessions[j].id, room.sessions[j].chat, ref, p);
    }
  }

  /**
    A session that joined after a message was sent has no row for it, so a like of
    that message raises `UnboundLocalError` in its handler; the code does not skip
    the missing row. The shared message object has still gained its like and its
    `increment` type, since that happens before the broadcast.
  */
  lemma LikeAfterLateJoinRaises(room: RoomState, k: nat, i: nat, late: SessionId)
    requires k < |room.sessions| && i < |room.sessions[k].chat| && RowsLive(room)
    requires room.sessions[k].chat[i].likeEnabled
    ensures var ref := room.sessions[k].chat[i].message;
            var r := IncrementLike(Join(room, late), k, i);
            && r.raised == Some(UnboundLocalError("m"))
            && r.published == Some(ref)
            && r.room.heap == Liked(room.heap, ref)
            && r.room.heap[ref].like == room.heap[ref].like + 1
            && r.room.heap[ref].messageType == IncrementType
  {
    var joined := Join(room, late);
    assert joined.sessions[k] == room.sessions[k];
    var ref := room.sessions[k].chat[i].message;
    var heap := Liked(room.heap, ref);
    LikedKeepsRowsLive(joined, ref);
    assert OnMessage(heap, late, [], ref).Raised?;
    assert joined.sessions[|room.sessions|] == Session(late, "", []);
  }

  /**
    The demo run: session A sends "hello"; A and B both show it with 0 likes, the
    like button disabled in A only; B likes it twice and both sessions show 1 and
    then 2; a session C joining afterwards shows no rows.
  */
  lemma {:induction false} TwoSessionsLikeScenario()
    ensures
      var start := Join(Join(RoomState(map[], []), "A"), "B");
      var sent := SendMessageClick(Type(start, 0, "hello"), 0, 7, 0).room;
      && sent.sessions[0].chat == [Row(0, 0, false)]
      && sent.sessions[1].chat == [Row(0, 0, true)]
      && sent.heap[0].text == "hello"
      && IncrementLike(sent, 1, 0).raised == None
      && var once := IncrementLike(sent, 1, 0).room;
         && once.sessions[0].chat == [Row(0, 1, false)]
         && once.sessions[1].chat == [Row(0, 1, true)]
         && IncrementLike(once, 1, 0).raised == None
         && var twice := IncrementLike(once, 1, 0).room;
            && twice.sessions[0].chat == [Row(0, 2, false)]
            && twice.sessions[1].chat == [Row(0, 2, true)]
            && Join(twice, "C").sessions[2].chat == []
  {
    var empty := RoomState(map[], []);
    var start := Join(Join(empty, "A"), "B");
    assert start.sessions == [Session("A", "", []), Session("B", "", [])];
    var typed := Type(start, 0, "hello");
    var sent := SendMessageClick(typed, 0, 7, 0).room;
    assert sent.heap == map[0 := Message(7, "A", "hello", ChatMessageType, 0)];
    assert sent.sessions[0].chat == [Row(0, 0, false)];
    assert sent.sessions[1].chat == [Row(0, 0, true)];
    assert |sent.sessions| == 2;

    var heap1 := map[0 := Message(7, "A", "hello", IncrementType, 1)];
    assert Liked(sent.heap, 0) == heap1;
    LikeBothSessions(sent, heap1, 0, ChatMessageType);
    var once := IncrementLike(sent, 1, 0).room;
    assert once.heap == heap1;

    var heap2 := map[0 := Message(7, "A", "hello", IncrementType, 2)];
    assert Liked(once.heap, 0) == heap2;
    LikeBothSessions(once, heap2, 1, IncrementType);
  }

  /** One like by B in the two-session room where both show the one message. */
  lemma LikeBothSessions(room: RoomState, heap: Heap, n: int, kind: string)
    requires RowsLive(room) && |room.sessions| == 2
    requires room.heap == map[0 := Message(7, "A", "hello", kind, n)]
    requires room.sessions[0].chat == [Row(0, n, false)]
    requires room.sessions[1].chat == [Row(0, n, true)]
    requires heap == map[0 := Message(7, "A", "hello", IncrementType, n + 1)]
    ensures IncrementLike(room, 1, 0).raised == None
    ensures IncrementLike(room, 1, 0).room.heap == heap
    ensures |IncrementLike(room, 1, 0).room.sessions| == 2
    ensures IncrementLike(room, 1, 0).room.sessions[0].chat == [Row(0, n + 1, false)]
    ensures IncrementLike(room, 1, 0).room.sessions[1].chat == [Row(0, n + 1, true)]
  {
    assert Liked(room.heap, 0) == heap;
    assert FirstRowWithId(heap, room.sessions[0].chat, 7) == Some(0);
    assert FirstRowWithId(heap, room.sessions[1].chat, 7) == Some(0);
    assert heap[0].messageType == IncrementType;
    assert Refresh(heap, Row(0, n, false)) == Row(0, n + 1, false);
    assert Refresh(heap, Row(0, n, true)) == Row(0, n + 1, true);
    assert [Row(0, n, false)][0 := Row(0, n + 1, false)] == [Row(0, n + 1, false)];
    assert [Row(0, n, true)][0 := Row(0, n + 1, true)] == [Row(0, n + 1, true)];
    assert OnMessage(heap, room.sessions[0].id, room.sessions[0].chat, 0) == Ok([Row(0, n + 1, false)]);
    assert OnMessage(heap, room.sessions[1].id, room.sessions[1].chat, 0) == Ok([Row(0, n + 1, true)]);
  }
}
