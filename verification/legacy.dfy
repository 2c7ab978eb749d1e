/**
  The earlier revision of the chat page: messages carry a user name instead of a
  uuid and a session, every received message is followed by a divider, and a like
  changes the shared message object and only the clicked row's display, without
  publishing anything.

  As in the current revision, one message object is shared by every session that
  received it; message objects live in a `Heap` keyed by identity.
*/
module Legacy {
  import opened Results

  /**
    Identity of a `Message` object in the process. `Ref` and `ChatMessageType` are
    declared again here rather than shared with `Chat`: the two revisions are
    separate programs, and the model keeps them independent on purpose.
  */
  type Ref = nat

  const ChatMessageType: string := "chat_message"
  const LoginMessageType: string := "login_message"

  /**
    The legacy `Message` dataclass, with the fields `send_message_click` passes and
    `like`, whose default is 0. `userName` is what `page.session.get("user_name")`
    returned, `None` when no name was stored.
  */
  datatype Message = Message(userName: Option<string>, text: string, messageType: string, like: int)

  /** Every live `Message` object, by identity. */
  type Heap = map<Ref, Message>

  /** One control of the chat list. */
  datatype Entry =
    /** A `ChatMessage` row: the message object it shows and its like-count text. */
    | ChatRow(message: Ref, likes: int)
    /** The italic `ft.Text` shown for a login message. */
    | LoginText(text: string)
    /** An `ft.Divider`. */
    | Divider

  /** Every chat row refers to a live message object. */
  predicate EntriesIn(heap: Heap, chat: seq<Entry>) {
    forall i :: 0 <= i < |chat| && chat[i].ChatRow? ==> chat[i].message in heap
  }

  /**
    `on_message`: a `chat_message` appends its row and a divider, a `login_message`
    appends its text and a divider; any other type reaches the append with `m`
    unassigned, raises `UnboundLocalError`, and appends nothing.
  */
  function OnMessage(heap: Heap, chat: seq<Entry>, incoming: Ref): (r: Result<seq<Entry>>)
    requires incoming in heap && EntriesIn(heap, chat)
    ensures r.Ok? <==> heap[incoming].messageType in {ChatMessageType, LoginMessageType}
    ensures r.Raised? ==> r.error == UnboundLocalError("m")
    ensures r.Ok? ==>
              && EntriesIn(heap, r.value)
              && |r.value| == |chat| + 2
              && r.value[..|chat|] == chat
              && r.value[|chat| + 1] == Divider
    ensures heap[incoming].messageType == ChatMessageType ==>
              r.value[|chat|] == ChatRow(incoming, heap[incoming].like)
    ensures heap[incoming].messageType == LoginMessageType ==>
              r.value[|chat|] == LoginText(heap[incoming].text)
  {
    var message := heap[incoming];
    if message.messageType == ChatMessageType then
      Ok(chat + [ChatRow(incoming, message.like), Divider])
    else if message.messageType == LoginMessageType then
      Ok(chat + [LoginText(message.text), Divider])
    else
      Raised(UnboundLocalError("m"))
  }

  /** Entries and dividers alternate: an even-length list with a divider at every odd index only. */
  predicate Alternating(chat: seq<Entry>) {
    && |chat| % 2 == 0
    && forall i :: 0 <= i < |chat| ==> (chat[i].Divider? <==> i % 2 == 1)
  }

  /** A list built by `on_message` alone keeps every entry followed by its divider. */
  lemma OnMessageKeepsAlternating(heap: Heap, chat: seq<Entry>, incoming: Ref)
    requires incoming in heap && EntriesIn(heap, chat) && Alternating(chat)
    requires OnMessage(heap, chat, incoming).Ok?
    ensures Alternating(OnMessage(heap, chat, incoming).value)
  {
  }

  /** The clicked message object and the clicking session's list after a like. */
  datatype LikeResult = LikeResult(heap: Heap, chat: seq<Entry>)

  /**
    `ChatMessage.increment_like` on entry `i`, the only kind of entry with a like
    button: the shared message object gets one more like and the row shows the new
    count. The message type is unchanged and nothing is published, so no other
    row and no other session's display changes.
  */
  function IncrementLike(heap: Heap, chat: seq<Entry>, i: nat): (r: LikeResult)
    requires EntriesIn(heap, chat) && i < |chat| && chat[i].ChatRow?
    ensures var ref := chat[i].message;
            && r.heap.Keys == heap.Keys
            && r.heap[ref] == heap[ref].(like := heap[ref].like + 1)
            && (forall x :: x in heap && x != ref ==> r.heap[x] == heap[x])
            && |r.chat| == |chat|
            && r.chat[i] == ChatRow(ref, heap[ref].like + 1)
            && (forall j :: 0 <= j < |chat| && j != i ==> r.chat[j] == chat[j])
            && EntriesIn(r.heap, r.chat)
  {
    var ref := chat[i].message;
    var message := heap[ref];
    var liked := message.(like := message.like + 1);
    LikeResult(heap[ref := liked], chat[i := ChatRow(ref, liked.like)])
  }

  /**
    A like is local: a second session showing the same message object keeps its
    displayed count while the shared count moves on. A like in that session then
    counts from the shared value, not from what it displayed.
  */
  lemma LikeIsLocal(heap: Heap, mine: seq<Entry>, theirs: seq<Entry>, i: nat, j: nat)
    requires EntriesIn(heap, mine) && EntriesIn(heap, theirs)
    requires i < |mine| && mine[i].ChatRow? && j < |theirs| && theirs[j].ChatRow?
    requires theirs[j].message == mine[i].message
    requires theirs[j].likes == heap[mine[i].message].like
    ensures var after := IncrementLike(heap, mine, i).heap;
            && EntriesIn(after, theirs)
            && after[mine[i].message].like == theirs[j].likes + 1
            && IncrementLike(after, theirs, j).chat[j].likes == theirs[j].likes + 2
  {
  }

  /** One connection: the name its session stored (if any), its input, its list. */
  datatype Session = Session(userName: Option<string>, input: string, chat: seq<Entry>)

  /** `on_message` run by every subscribed session; fails if any of them raises. */
  function DeliverAll(heap: Heap, sessions: seq<Session>, incoming: Ref): (r: Result<seq<Session>>)
    requires incoming in heap
    requires forall k :: 0 <= k < |sessions| ==> EntriesIn(heap, sessions[k].chat)
    ensures sessions == [] ==> r.Ok?
    ensures sessions != [] ==> (r.Ok? <==> heap[incoming].messageType in {ChatMessageType, LoginMessageType})
    ensures r.Raised? ==> r.error == UnboundLocalError("m")
    ensures r.Ok? ==> |r.value| == |sessions|
    ensures r.Ok? ==> forall k :: 0 <= k < |sessions| ==>
              r.value[k] == sessions[k].(chat := OnMessage(heap, sessions[k].chat, incoming).value)
  {
    if sessions == [] then Ok([])
    else
      var s := sessions[0];
      match OnMessage(heap, s.chat, incoming)
      case Raised(e) => Raised(e)
      case Ok(chat) =>
        match DeliverAll(heap, sessions[1..], incoming)
        case Raised(e) => Raised(e)
        case Ok(rest) =>
          assert forall k :: 1 <= k < |sessions| ==> sessions[k] == sessions[1..][k - 1];
          Ok([s.(chat := chat)] + rest)
  }

  /** The room after a send, and the message object it published, if any. */
  datatype Sent = Sent(heap: Heap, sessions: seq<Session>, published: Option<Ref>)

  /**
    `send_message_click` in session `k`, `newRef` being the identity of the new
    message object. Input exactly `""` does nothing; any other input is published
    as a `chat_message` carrying the session's stored name, every session appends
    its row and a divider, and the sender's input is cleared.
  */
  function SendMessageClick(heap: Heap, sessions: seq<Session>, k: nat, newRef: Ref): (r: Result<Sent>)
    requires k < |sessions| && newRef !in heap
    requires forall j :: 0 <= j < |sessions| ==> EntriesIn(heap, sessions[j].chat)
    ensures r.Ok?
    ensures sessions[k].input == "" ==> r.value == Sent(heap, sessions, None)
    ensures sessions[k].input != "" ==>
              var message := Message(sessions[k].userName, sessions[k].input, ChatMessageType, 0);
              && r.value.published == Some(newRef)
              && r.value.heap == heap[newRef := message]
              && |r.value.sessions| == |sessions|
              && r.value.sessions[k].input == ""
              && (forall j :: 0 <= j < |sessions| && j != k ==> r.value.sessions[j].input == sessions[j].input)
              && (forall j :: 0 <= j < |sessions| ==>
                    r.value.sessions[j].chat == sessions[j].chat + [ChatRow(newRef, 0), Divider])
  {
    var sender := sessions[k];
    if sender.input == "" then Ok(Sent(heap, sessions, None))
    else
      var heap' := heap[newRef := Message(sender.userName, sender.input, ChatMessageType, 0)];
      forall j | 0 <= j < |sessions| ensures EntriesIn(heap', sessions[j].chat) {
        assert EntriesIn(heap, sessions[j].chat);
      }
      match DeliverAll(heap', sessions, newRef)
      case Raised(e) => Raised(e)
      case Ok(delivered) =>
        Ok(Sent(heap', delivered[k := delivered[k].(input := "")], Some(newRef)))
  }

  /** Python's `str.capitalize` on one character, for the ASCII letters. */
  function Capitalize(c: char): (r: char)
    ensures 'a' <= c <= 'z' ==> 'A' <= r <= 'Z' && r as int - 'A' as int == c as int - 'a' as int
    ensures !('a' <= c <= 'z') ==> r == c
  {
    if 'a' <= c <= 'z' then (c as int - 'a' as int + 'A' as int) as char else c
  }

  /**
    `ChatMessage.get_initials`: a single space for `None`, otherwise the first
    character, capitalized, and the empty string for an empty name.
  */
  function GetInitials(userName: Option<string>): (r: string)
    ensures userName.None? ==> r == " "
    ensures userName == Some("") ==> r == ""
    ensures userName.Some? && userName.value != "" ==>
              && |r| == 1
              && r[0] == Capitalize(userName.value[0])
              && !('a' <= r[0] <= 'z')
  {
    match userName
    case None => " "
    case Some(name) => if name == "" then "" else [Capitalize(name[0])]
  }

  /** Initials depend on the first character only, and taking them twice changes nothing. */
  lemma InitialsOfInitials(name: string)
    ensures GetInitials(Some(name)) == GetInitials(Some(name[..if name == "" then 0 else 1]))
    ensures GetInitials(Some(GetInitials(Some(name)))) == GetInitials(Some(name))
  {
  }
}
