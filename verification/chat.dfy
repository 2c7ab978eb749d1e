/**
  The chat list of one session in the current revision: the `Message` record, the
  `MessageRow` it is shown in, and the `on_message` handler that appends rows and
  reconciles like counts.

  One `Message` object is shared by the sender, by the like button of every row
  that shows it and by every session's row (the bus hands the same instance to
  every handler). The model makes that aliasing explicit: message objects live in a
  `Heap` keyed by object identity (`Ref`), and a row holds a `Ref`, never a copy.
*/
module Chat {
  import opened Results

  /** Identity of a `Message` object in the process. */
  type Ref = nat

  /** A `uuid.uuid4()` value; only equality matters. */
  type Uuid = nat

  /** `page.session_id`, an opaque string per connection. */
  type SessionId = string

  const ChatMessageType: string := "chat_message"
  const IncrementType: string := "increment"

  /** The `Message` dataclass. */
  datatype Message = Message(id: Uuid, sessionId: SessionId, text: string, messageType: string, like: int)

  /** Every live `Message` object, by identity. */
  type Heap = map<Ref, Message>

  /**
    A `MessageRow`: the message object it shows, the value of its like-count text,
    and whether its like button can be clicked.
  */
  datatype Row = Row(message: Ref, likes: int, likeEnabled: bool)

  /** Every row refers to a live message object. */
  predicate RowsIn(heap: Heap, chat: seq<Row>) {
    forall i :: 0 <= i < |chat| ==> chat[i].message in heap
  }

  /** The uuid of the message a row shows. */
  function RowId(heap: Heap, row: Row): Uuid
    requires row.message in heap
  {
    heap[row.message].id
  }

  /**
    The message `send_message_click` builds: a fresh uuid, the sender's session,
    the input text, type `chat_message` and the default like count 0.
  */
  function NewMessage(id: Uuid, sender: SessionId, text: string): (m: Message)
    ensures m.id == id && m.sessionId == sender && m.text == text
    ensures m.messageType == ChatMessageType
    ensures m.like == 0
  {
    Message(id, sender, text, ChatMessageType, 0)
  }

  /**
    The row `on_message` appends for a `chat_message` seen by session `viewer`: its
    count starts at the message's `like`, and its like button is replaced by a
    disabled one when the viewer sent the message.
  */
  function NewRow(heap: Heap, ref: Ref, viewer: SessionId): (r: Row)
    requires ref in heap
    ensures r.message == ref
    ensures r.likes == heap[ref].like
    ensures r.likeEnabled <==> heap[ref].sessionId != viewer
  {
    Row(ref, heap[ref].like, viewer != heap[ref].sessionId)
  }

  /** The first row, in list order, whose message has uuid `id`, if any. */
  function FirstRowWithId(heap: Heap, chat: seq<Row>, id: Uuid): (r: Option<nat>)
    requires RowsIn(heap, chat)
    ensures r.Some? ==> r.value < |chat| && RowId(heap, chat[r.value]) == id
    ensures r.Some? ==> forall j :: 0 <= j < r.value ==> RowId(heap, chat[j]) != id
    ensures r.None? <==> forall j :: 0 <= j < |chat| ==> RowId(heap, chat[j]) != id
  {
    if chat == [] then None
    else if RowId(heap, chat[0]) == id then Some(0)
    else
      match FirstRowWithId(heap, chat[1..], id)
      case None =>
        assert forall j :: 1 <= j < |chat| ==> chat[j] == chat[1..][j - 1];
        None
      case Some(k) =>
        assert forall j :: 1 <= j <= k ==> chat[j] == chat[1..][j - 1];
        Some(k + 1)
  }

  /**
    The scan of the `increment` branch: walks the rows in order and stops at the
    first whose message has uuid `id`.
  */
  method FindRow(heap: Heap, chat: seq<Row>, id: Uuid) returns (found: bool, index: nat)
    requires RowsIn(heap, chat)
    ensures found ==> index < |chat| && RowId(heap, chat[index]) == id
    ensures found ==> forall j :: 0 <= j < index ==> RowId(heap, chat[j]) != id
    ensures !found <==> forall j :: 0 <= j < |chat| ==> RowId(heap, chat[j]) != id
    ensures found <==> FirstRowWithId(heap, chat, id).Some?
  {
    found, index := false, 0;
    var i := 0;
    while i < |chat|
      invariant 0 <= i <= |chat|
      invariant forall j :: 0 <= j < i ==> RowId(heap, chat[j]) != id
    {
      if heap[chat[i].message].id == id {
        found, index := true, i;
        return;
      }
      i := i + 1;
    }
  }

  /** The row after `m.likes.value = m.message.like`: it shows its message's count. */
  function Refresh(heap: Heap, row: Row): (r: Row)
    requires row.message in heap
    ensures r.message == row.message && r.likeEnabled == row.likeEnabled
    ensures r.likes == heap[row.message].like
  {
    row.(likes := heap[row.message].like)
  }

  /**
    `on_message` of session `viewer` for the message object `incoming`:
    a `chat_message` appends one row; an `increment` refreshes the count of the
    first row showing a message with the same uuid, and raises `UnboundLocalError`
    (the local `m` was never assigned) when there is none; any other type leaves
    the list as it is.
  */
  function OnMessage(heap: Heap, viewer: SessionId, chat: seq<Row>, incoming: Ref): (r: Result<seq<Row>>)
    requires incoming in heap && RowsIn(heap, chat)
    ensures r.Ok? ==> RowsIn(heap, r.value)
    ensures r.Raised? ==> r.error == UnboundLocalError("m")
    ensures heap[incoming].messageType == ChatMessageType ==>
              && r.Ok?
              && |r.value| == |chat| + 1
              && r.value[..|chat|] == chat
              && r.value[|chat|] == NewRow(heap, incoming, viewer)
    ensures heap[incoming].messageType == IncrementType ==>
              var hit := FirstRowWithId(heap, chat, heap[incoming].id);
              && (r.Raised? <==> hit.None?)
              && (r.Raised? ==> r.error == UnboundLocalError("m"))
              && (r.Ok? ==>
                    && |r.value| == |chat|
                    && r.value[hit.value] == Refresh(heap, chat[hit.value])
                    && forall j :: 0 <= j < |chat| && j != hit.value ==> r.value[j] == chat[j])
    ensures heap[incoming].messageType !in {ChatMessageType, IncrementType} ==> r == Ok(chat)
  {
    var message := heap[incoming];
    if message.messageType == ChatMessageType then
      Ok(chat + [NewRow(heap, incoming, viewer)])
    else if message.messageType == IncrementType then
      match FirstRowWithId(heap, chat, message.id)
      case None => Raised(UnboundLocalError("m"))
      case Some(i) => Ok(chat[i := Refresh(heap, chat[i])])
    else
      Ok(chat)
  }

  /** No two live message objects carry the same uuid (`uuid4` is taken as fresh). */
  predicate UniqueIds(heap: Heap) {
    forall a, b :: a in heap && b in heap && a != b ==> heap[a].id != heap[b].id
  }

  /** Changing a message object in place, keeping its uuid, keeps uuids unique. */
  lemma SameIdKeepsUnique(heap: Heap, ref: Ref, changed: Message)
    requires ref in heap && changed.id == heap[ref].id
    ensures UniqueIds(heap) ==> UniqueIds(heap[ref := changed])
  {
  }

  /**
    Reconciliation overwrites, it does not add: whatever a session displayed
    before, after an `increment` of a message it shows, the row of that message
    displays the count carried by the shared object, and no other row changes.
  */
  lemma IncrementOverwritesCount(heap: Heap, viewer: SessionId, chat: seq<Row>, incoming: Ref, i: nat)
    requires incoming in heap && RowsIn(heap, chat) && UniqueIds(heap)
    requires heap[incoming].messageType == IncrementType
    requires i < |chat| && chat[i].message == incoming
    ensures OnMessage(heap, viewer, chat, incoming).Ok?
    ensures var rows := OnMessage(heap, viewer, chat, incoming).value;
            && |rows| == |chat|
            && exists k :: 0 <= k < |chat| && chat[k].message == incoming
                           && rows[k] == chat[k].(likes := heap[incoming].like)
                           && forall j :: 0 <= j < |chat| && j != k ==> rows[j] == chat[j]
  {
  }

  /** Receiving the same `increment` twice leaves the list as receiving it once. */
  lemma {:induction false} IncrementIdempotent(heap: Heap, viewer: SessionId, chat: seq<Row>, incoming: Ref)
    requires incoming in heap && RowsIn(heap, chat)
    requires heap[incoming].messageType == IncrementType
    requires OnMessage(heap, viewer, chat, incoming).Ok?
    ensures var once := OnMessage(heap, viewer, chat, incoming).value;
            OnMessage(heap, viewer, once, incoming) == Ok(once)
  {
    var id := heap[incoming].id;
    var once := OnMessage(heap, viewer, chat, incoming).value;
    var k := FirstRowWithId(heap, chat, id).value;
    assert forall j :: 0 <= j < |chat| ==> once[j].message == chat[j].message;
    assert FirstRowWithId(heap, once, id) == Some(k) by {
      var hit := FirstRowWithId(heap, once, id);
      assert RowId(heap, once[k]) == id;
      assert hit.Some?;
      assert hit.value <= k;
      assert hit.value >= k;
    }
    assert once[k := Refresh(heap, once[k])] == once;
  }
}
