/** The chat service that owns the tables, and the gateway that calls it and pushes previews. */
module ChatServices {
  import opened Prelude
  import opened Chat

  class ChatService {
    var now: int
    var conversations: map<int, Conversation>
    var messages: seq<Message>
    var nextId: int

    constructor (now: int)
      ensures this.now == now && conversations == map[] && messages == [] && nextId == 1
    {
      this.now, conversations, messages, nextId := now, map[], [], 1;
    }

    method VerifyConversationAccess(conversationId: int, userId: int) returns (error: Option<ChatError>)
      ensures conversationId !in conversations ==> error == Some(ConversationNotFound)
      ensures conversationId in conversations ==>
                error == if Participant(conversations[conversationId], userId) then None
                    else Some(ConversationAccessDenied)
    {
      if conversationId !in conversations {
        return Some(ConversationNotFound);
      }
      var conversation := conversations[conversationId];
      if userId != conversation.participant1 && userId != conversation.participant2 {
        return Some(ConversationAccessDenied);
      }
      return None;
    }

    method SetLastMessageAt(conversationId: int, at: Option<int>)
      modifies this`conversations
      ensures conversations == Stamp(old(conversations), conversationId, at)
    {
      if conversationId in conversations {
        conversations := conversations[conversationId := conversations[conversationId].(lastMessageAt := at)];
      }
    }

    method SendMessage(conversationId: int, senderId: int, text: string)
      modifies this`messages, this`nextId, this`conversations
      ensures messages == old(messages) + [Message(old(nextId), conversationId, senderId, text, false, now)]
      ensures nextId == old(nextId) + 1
      ensures conversations == Stamp(old(conversations), conversationId, Some(now))
    {
      messages := messages + [Message(nextId, conversationId, senderId, text, false, now)];
      nextId := nextId + 1;
      SetLastMessageAt(conversationId, Some(now));
    }

    method MarkMessagesAsRead(conversationId: int, readerId: int, ids: Option<seq<int>>) returns (ok: bool)
      modifies this`messages
      ensures ok <==> Chat.MarkMessagesAsRead(old(messages), conversationId, readerId, ids).Some?
      ensures messages == if ok then Chat.MarkMessagesAsRead(old(messages), conversationId, readerId, ids).value
              else old(messages)
    {
      var where := Readable(conversationId, readerId, ids);
      if ids.Some? && |ids.value| > 0 {
        var found := Selected(messages, where);
        if |found| != |ids.value| {
          return false;
        }
      }
      messages := Mapped(messages, MarkRead(where));
      return true;
    }

    method EditMessage(messageId: int, newText: string)
      modifies this`messages
      ensures messages == Mapped(old(messages), WithText(messageId, newText))
    {
      messages := Mapped(messages, WithText(messageId, newText));
    }

    method DeleteMessages(ids: seq<int>, conversationId: int)
      modifies this`messages, this`conversations
      ensures messages == Rejected(old(messages), Among(ids))
      ensures conversations == Stamp(old(conversations), conversationId,
              SentAtOf(LastMessage(messages, conversationId)))
    {
      messages := Rejected(messages, Among(ids));
      var last := LastMessage(messages, conversationId);
      SetLastMessageAt(conversationId, SentAtOf(last));
    }
  }

  class ChatGateway {
    const chatService: ChatService
    var shown: map<(int, int), Preview>

    ghost function View(): State
      reads this, chatService
    {
      State(chatService.now, chatService.conversations, chatService.messages, chatService.nextId, shown)
    }

    constructor (now: int)
      ensures View() == Start(now) && fresh(chatService)
    {
      chatService := new ChatService(now);
      shown := map[];
    }

    method NotifyConversationPreviewUpdate(userId: int, conversationId: int)
      modifies this`shown
      ensures shown == old(shown)[(userId, conversationId) := PreviewOf(chatService.messages, conversationId, userId)]
    {
      var lastMessage := LastMessage(chatService.messages, conversationId);
      var unread := UnreadMessages(chatService.messages, conversationId, userId, false);
      shown := shown[(userId, conversationId) := Preview(lastMessage, |unread|)];
    }

    /** The other participant first, then the user. */
    method NotifyParticipants(userId: int, conversationId: int)
      modifies this`shown
      ensures View() == NotifyBoth(old(View()), conversationId, userId)
    {
      if conversationId in chatService.conversations {
        var recipientId := OtherParticipant(chatService.conversations[conversationId], userId);
        NotifyConversationPreviewUpdate(recipientId, conversationId);
        NotifyConversationPreviewUpdate(userId, conversationId);
      }
    }

    method HandleSendMessage(userId: int, conversationId: int, text: string) returns (error: Option<ChatError>)
      modifies this`shown, chatService
      ensures (View(), error) == Chat.HandleSendMessage(old(View()), userId, conversationId, text)
    {
      error := chatService.VerifyConversationAccess(conversationId, userId);
      if error.Some? {
        return;
      }
      chatService.SendMessage(conversationId, userId, text);
      NotifyParticipants(userId, conversationId);
    }

    method HandleReadMessages(userId: int, conversationId: int,
                              ids: Option<seq<int>>) returns (error: Option<ChatError>)
      modifies this`shown, chatService
      ensures (View(), error) == Chat.HandleReadMessages(old(View()), userId, conversationId, ids)
    {
      error := chatService.VerifyConversationAccess(conversationId, userId);
      if error.Some? {
        return;
      }
      var lastMessageReadBefore := IsReadOf(LastMessage(chatService.messages, conversationId));
      var ok := chatService.MarkMessagesAsRead(conversationId, userId, ids);
      if !ok {
        return Some(MessageAccessDenied);
      }
      var lastMessageRead := IsReadOf(LastMessage(chatService.messages, conversationId));
      if lastMessageRead != lastMessageReadBefore {
        NotifyParticipants(userId, conversationId);
      }
    }

    method HandleEditMessage(userId: int, conversationId: int, messageId: int,
                             newText: string) returns (error: Option<ChatError>)
      modifies this`shown, chatService
      ensures (View(), error) == Chat.HandleEditMessage(old(View()), userId, conversationId, messageId, newText)
    {
      error := chatService.VerifyConversationAccess(conversationId, userId);
      if error.Some? {
        return;
      }
      if !VerifyMessageOwnership(chatService.messages, [messageId], conversationId, userId) {
        return Some(MessageAccessDenied);
      }
      chatService.EditMessage(messageId, newText);
      var last := LastMessage(chatService.messages, conversationId);
      if last.Some? && last.value.id == messageId {
        NotifyParticipants(userId, conversationId);
      }
    }

    /** Looked up before the rows are gone. */
    method IsPreviewDeleted(userId: int, conversationId: int, ids: seq<int>) returns (pushes: bool)
      ensures pushes == DeletePushes(chatService.messages, userId, conversationId, ids)
    {
      var unreadBefore := UnreadMessages(chatService.messages, conversationId, userId, true);
      var hasDeletedUnread := exists m :: m in unreadBefore && m.id in ids;
      var lastBefore := LastMessage(chatService.messages, conversationId);
      var isLastDeleted := lastBefore.Some? && lastBefore.value.id in ids;
      return isLastDeleted || hasDeletedUnread;
    }

    method HandleDeleteMessages(userId: int, conversationId: int, ids: seq<int>) returns (error: Option<ChatError>)
      modifies this`shown, chatService
      ensures (View(), error) == Chat.HandleDeleteMessages(old(View()), userId, conversationId, ids)
    {
      if !VerifyMessageOwnership(chatService.messages, ids, conversationId, userId) {
        return Some(MessageAccessDenied);
      }
      var changesPreview := IsPreviewDeleted(userId, conversationId, ids);
      chatService.DeleteMessages(ids, conversationId);
      if changesPreview {
        NotifyParticipants(userId, conversationId);
      }
      return None;
    }
  }
}
