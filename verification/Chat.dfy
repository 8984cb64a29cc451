/** Conversations, messages, and the conversation previews pushed to the two participants. */
module Chat {
  import opened Prelude

  datatype Message = Message(id: int, conversationId: int, senderId: int, text: string, isRead: bool, sentAt: int)

  datatype Conversation = Conversation(participant1: int, participant2: int, lastMessageAt: Option<int>)

  /** What a participant's client shows of a conversation. */
  datatype Preview = Preview(lastMessage: Option<Message>, unreadsCount: nat)

  datatype ChatError = ConversationNotFound | ConversationAccessDenied | MessageAccessDenied

  /** `shown` holds the preview last pushed to a user about a conversation. */
  datatype State = State(
    now: int,
    conversations: map<int, Conversation>,
    messages: seq<Message>,
    nextId: int,
    shown: map<(int, int), Preview>)

  // ---------------------------------------------------------------- queries

  /** The latest message of a conversation; of several with one timestamp, the last one stored. */
  function LastMessage(messages: seq<Message>, conversationId: int): (last: Option<Message>)
    ensures last.None? ==> forall m | m in messages :: m.conversationId != conversationId
    ensures last.Some? ==> last.value in messages && last.value.conversationId == conversationId
    ensures last.Some? ==> forall m | m in messages && m.conversationId == conversationId ::
                             m.sentAt <= last.value.sentAt
  {
    if messages == [] then None else
    var n := |messages| - 1;
    assert messages == messages[..n] + [messages[n]];
    var earlier := LastMessage(messages[..n], conversationId);
    if messages[n].conversationId == conversationId && (earlier.None? || earlier.value.sentAt <= messages[n].sentAt)
    then Some(messages[n])
    else earlier
  }

  function SentAtOf(last: Option<Message>): Option<int> {
    match last
    case None => None
    case Some(m) => Some(m.sentAt)
  }

  predicate Unread(m: Message, conversationId: int, userId: int, isSender: bool) {
    m.conversationId == conversationId && !m.isRead && (isSender <==> m.senderId == userId)
  }

  function UnreadMessages(messages: seq<Message>, conversationId: int, userId: int, isSender: bool): seq<Message> {
    Selected(messages, (m: Message) => Unread(m, conversationId, userId, isSender))
  }

  function PreviewOf(messages: seq<Message>, conversationId: int, userId: int): Preview {
    Preview(LastMessage(messages, conversationId), |UnreadMessages(messages, conversationId, userId, false)|)
  }

  predicate Participant(conversation: Conversation, userId: int) {
    userId == conversation.participant1 || userId == conversation.participant2
  }

  function OtherParticipant(conversation: Conversation, userId: int): int {
    if userId == conversation.participant1 then conversation.participant2 else conversation.participant1
  }

  function Access(s: State, conversationId: int, userId: int): Option<ChatError> {
    if conversationId !in s.conversations then Some(ConversationNotFound)
    else if !Participant(s.conversations[conversationId], userId) then Some(ConversationAccessDenied)
    else None
  }

  function OwnedBy(ids: seq<int>, conversationId: int, userId: int): Message -> bool {
    (m: Message) => m.id in ids && m.conversationId == conversationId && m.senderId == userId
  }

  /** Ownership is checked by comparing two counts. */
  predicate VerifyMessageOwnership(messages: seq<Message>, ids: seq<int>, conversationId: int, userId: int) {
    |Selected(messages, OwnedBy(ids, conversationId, userId))| == |ids|
  }

  // ---------------------------------------------------------------- changes

  function Readable(conversationId: int, readerId: int, ids: Option<seq<int>>): Message -> bool {
    (m: Message) => Unread(m, conversationId, readerId, false) && (ids.Some? && ids.value != [] ==> m.id in ids.value)
  }

  function MarkRead(where: Message -> bool): Message -> Message {
    (m: Message) => if where(m) then m.(isRead := true) else m
  }

  /** Without ids everything unread is marked; with ids all of them must be unread messages of the other side. */
  function MarkMessagesAsRead(messages: seq<Message>, conversationId: int, readerId: int, ids: Option<seq<int>>):
    Option<seq<Message>>
  {
    var where := Readable(conversationId, readerId, ids);
    if ids.Some? && ids.value != [] && |Selected(messages, where)| != |ids.value| then None
    else Some(Mapped(messages, MarkRead(where)))
  }

  function WithText(id: int, text: string): Message -> Message {
    (m: Message) => if m.id == id then m.(text := text) else m
  }

  function Among(ids: seq<int>): Message -> bool {
    (m: Message) => m.id in ids
  }

  function Stamp(conversations: map<int, Conversation>, conversationId: int, at: Option<int>): map<int, Conversation> {
    if conversationId !in conversations then conversations
    else conversations[conversationId := conversations[conversationId].(lastMessageAt := at)]
  }

  function Touch(s: State, conversationId: int, at: Option<int>): State {
    s.(conversations := Stamp(s.conversations, conversationId, at))
  }

  /** Both participants get the preview as it is now. */
  function NotifyBoth(s: State, conversationId: int, userId: int): State {
    if conversationId !in s.conversations then s else
    var recipientId := OtherParticipant(s.conversations[conversationId], userId);
    s.(shown := s.shown[(recipientId, conversationId) := PreviewOf(s.messages, conversationId, recipientId)]
                       [(userId, conversationId) := PreviewOf(s.messages, conversationId, userId)])
  }

  // ---------------------------------------------------------------- handlers

  function HandleSendMessage(s: State, userId: int, conversationId: int, text: string): (State, Option<ChatError>) {
    match Access(s, conversationId, userId)
    case Some(e) => (s, Some(e))
    case None =>
      var message := Message(s.nextId, conversationId, userId, text, false, s.now);
      var s1 := Touch(s.(messages := s.messages + [message], nextId := s.nextId + 1), conversationId, Some(s.now));
      (NotifyBoth(s1, conversationId, userId), None)
  }

  function IsReadOf(last: Option<Message>): Option<bool> {
    match last
    case None => None
    case Some(m) => Some(m.isRead)
  }

  /** A preview is pushed only when the last message has become read. */
  function HandleReadMessages(s: State, userId: int, conversationId: int, ids: Option<seq<int>>):
    (State, Option<ChatError>)
  {
    match Access(s, conversationId, userId)
    case Some(e) => (s, Some(e))
    case None =>
      match MarkMessagesAsRead(s.messages, conversationId, userId, ids)
      case None => (s, Some(MessageAccessDenied))
      case Some(messages) =>
        var s1 := s.(messages := messages);
        if IsReadOf(LastMessage(messages, conversationId)) != IsReadOf(LastMessage(s.messages, conversationId))
        then (NotifyBoth(s1, conversationId, userId), None)
        else (s1, None)
  }

  function HandleEditMessage(s: State, userId: int, conversationId: int, id: int, text: string):
    (State, Option<ChatError>)
  {
    match Access(s, conversationId, userId)
    case Some(e) => (s, Some(e))
    case None =>
      if !VerifyMessageOwnership(s.messages, [id], conversationId, userId) then (s, Some(MessageAccessDenied)) else
      var s1 := s.(messages := Mapped(s.messages, WithText(id, text)));
      var last := LastMessage(s1.messages, conversationId);
      if last.Some? && last.value.id == id then (NotifyBoth(s1, conversationId, userId), None) else (s1, None)
  }

  /** Whether a delete pushes previews: the last message goes, or one of the user's unread ones. */
  predicate DeletePushes(messages: seq<Message>, userId: int, conversationId: int, ids: seq<int>) {
    var last := LastMessage(messages, conversationId);
    || (last.Some? && last.value.id in ids)
    || (exists m :: m in UnreadMessages(messages, conversationId, userId, true) && m.id in ids)
  }

  function HandleDeleteMessages(s: State, userId: int, conversationId: int, ids: seq<int>): (State, Option<ChatError>) {
    if !VerifyMessageOwnership(s.messages, ids, conversationId, userId) then (s, Some(MessageAccessDenied)) else
    var messages := Rejected(s.messages, Among(ids));
    var s1 := Touch(s.(messages := messages), conversationId, SentAtOf(LastMessage(messages, conversationId)));
    if DeletePushes(s.messages, userId, conversationId, ids)
    then (NotifyBoth(s1, conversationId, userId), None)
    else (s1, None)
  }

  // ---------------------------------------------------------------- runs

  datatype Event =
    | Tick(ms: nat)
    | OpenConversation(conversationId: int, participant1: int, participant2: int)
    | SendCall(userId: int, conversationId: int, text: string)
    | ReadCall(userId: int, conversationId: int, chosen: Option<seq<int>>)
    | EditCall(userId: int, conversationId: int, id: int, text: string)
    | DeleteCall(userId: int, conversationId: int, ids: seq<int>)

  /** Nobody talks to themselves. */
  function Open(s: State, conversationId: int, participant1: int, participant2: int): State {
    if conversationId in s.conversations || participant1 == participant2 then s
    else s.(conversations := s.conversations[conversationId := Conversation(participant1, participant2, None)],
            shown := s.shown[(participant1, conversationId) := Preview(None, 0)]
                            [(participant2, conversationId) := Preview(None, 0)])
  }

  function Next(s: State, e: Event): State {
    match e
    case Tick(ms) => s.(now := s.now + ms)
    case OpenConversation(id, participant1, participant2) => Open(s, id, participant1, participant2)
    case SendCall(userId, id, text) => HandleSendMessage(s, userId, id, text).0
    case ReadCall(userId, id, chosen) => HandleReadMessages(s, userId, id, chosen).0
    case EditCall(userId, id, messageId, text) => HandleEditMessage(s, userId, id, messageId, text).0
    case DeleteCall(userId, id, ids) => HandleDeleteMessages(s, userId, id, ids).0
  }

  function Play(s: State, events: seq<Event>): State
    decreases |events|
  {
    if events == [] then s else Play(Next(s, events[0]), events[1..])
  }

  function Start(now: int): State {
    State(now, map[], [], 1, map[])
  }
}
