/** What counting ids proves, and when a preview must be pushed. */
module ChatTheorems {
  import opened Prelude
  import opened Chat

  // ---------------------------------------------------------------- invariants

  /** Serial ids, in the order of the table. */
  ghost predicate SerialIds(messages: seq<Message>) {
    forall i, j | 0 <= i < j < |messages| :: messages[i].id < messages[j].id
  }

  ghost predicate SentBy(s: State, m: Message) {
    && m.conversationId in s.conversations
    && Participant(s.conversations[m.conversationId], m.senderId)
    && m.id < s.nextId && m.sentAt <= s.now
  }

  ghost predicate Tables(s: State) {
    && SerialIds(s.messages)
    && (forall m | m in s.messages :: SentBy(s, m))
    && (forall c | c in s.conversations :: s.conversations[c].participant1 != s.conversations[c].participant2)
  }

  /** `lastMessageAt`, by which conversations are listed, is the time of the last message. */
  ghost predicate Stamped(s: State) {
    forall c | c in s.conversations :: s.conversations[c].lastMessageAt == SentAtOf(LastMessage(s.messages, c))
  }

  ghost predicate Distinct(ids: seq<int>) {
    forall i, j | 0 <= i < j < |ids| :: ids[i] != ids[j]
  }

  // ---------------------------------------------------------------- ownership by counting

  ghost predicate Present(messages: seq<Message>, id: int, p: Message -> bool) {
    exists m :: m in messages && m.id == id && p(m)
  }

  lemma {:induction false} SelectedById(messages: seq<Message>, id: int, p: Message -> bool)
    requires SerialIds(messages)
    ensures |Selected(messages, (m: Message) => m.id == id && p(m))|
            == if Present(messages, id, p) then 1 else 0
  {
    if messages != [] {
      var n := |messages| - 1;
      var q := (m: Message) => m.id == id && p(m);
      SelectedById(messages[..n], id, p);
      assert messages == messages[..n] + [messages[n]];
      assert Present(messages, id, p) <==> Present(messages[..n], id, p) || q(messages[n]);
      if messages[n].id == id {
        assert forall m | m in messages[..n] :: m.id < id;
        SelectedNone(messages[..n], q);
      }
    }
  }

  /** As many rows as ids means: no id twice, and every id names such a row. */
  lemma {:induction false} CountingIds(messages: seq<Message>, ids: seq<int>, p: Message -> bool)
    requires SerialIds(messages)
    ensures |Selected(messages, (m: Message) => m.id in ids && p(m))| <= |ids|
    ensures |Selected(messages, (m: Message) => m.id in ids && p(m))| == |ids| <==>
              Distinct(ids) && forall id | id in ids :: Present(messages, id, p)
  {
    var q := (m: Message) => m.id in ids && p(m);
    if ids == [] {
      SelectedNone(messages, q);
    } else {
      var rest := ids[1..];
      var r := (m: Message) => m.id in rest && p(m);
      var one := (m: Message) => m.id == ids[0] && p(m);
      assert ids == [ids[0]] + rest;
      CountingIds(messages, rest, p);
      assert Distinct(ids) <==> ids[0] !in rest && Distinct(rest);
      if ids[0] in rest {
        SelectedSame(messages, q, r);
      } else {
        SelectedEither(messages, one, r, q);
        SelectedById(messages, ids[0], p);
      }
    }
  }

  function By(conversationId: int, userId: int): Message -> bool {
    (m: Message) => m.conversationId == conversationId && m.senderId == userId
  }

  /** Equal counts mean exactly that the ids are distinct and all name messages of this user here. */
  lemma OwnershipByCounting(messages: seq<Message>, ids: seq<int>, conversationId: int, userId: int)
    requires SerialIds(messages)
    ensures VerifyMessageOwnership(messages, ids, conversationId, userId) <==>
              && Distinct(ids)
              && forall id | id in ids :: Present(messages, id, By(conversationId, userId))
  {
    var p := By(conversationId, userId);
    CountingIds(messages, ids, p);
    SelectedSame(messages, OwnedBy(ids, conversationId, userId), (m: Message) => m.id in ids && p(m));
  }

  lemma SameIdSameMessage(messages: seq<Message>, m: Message, m': Message)
    requires SerialIds(messages) && m in messages && m' in messages && m.id == m'.id
    ensures m == m'
  {
  }

  /** So what an owner deletes is their own and in this conversation. */
  lemma VerifiedAreOwn(messages: seq<Message>, ids: seq<int>, conversationId: int, userId: int, m: Message)
    requires SerialIds(messages) && VerifyMessageOwnership(messages, ids, conversationId, userId)
    requires m in messages && m.id in ids
    ensures m.conversationId == conversationId && m.senderId == userId
  {
    OwnershipByCounting(messages, ids, conversationId, userId);
    assert Present(messages, m.id, By(conversationId, userId));
    var m' :| m' in messages && m'.id == m.id && By(conversationId, userId)(m');
    SameIdSameMessage(messages, m, m');
  }

  // ---------------------------------------------------------------- last messages

  lemma LastAfter(messages: seq<Message>, m: Message, c: int)
    ensures var last := LastMessage(messages, c);
            LastMessage(messages + [m], c)
            == if m.conversationId == c && (last.None? || last.value.sentAt <= m.sentAt) then Some(m) else last
  {
    assert (messages + [m])[..|messages|] == messages;
  }

  /** Deleting other messages leaves the last one the last one. */
  lemma {:induction false} LastOfRest(messages: seq<Message>, gone: Message -> bool, c: int)
    ensures var last, rest := LastMessage(messages, c), LastMessage(Rejected(messages, gone), c);
            && (last.None? ==> rest.None?)
            && (last.Some? && !gone(last.value) ==> rest == last)
            && (last.Some? && gone(last.value) ==> rest != last)
            && (rest.Some? ==> rest.value.sentAt <= last.value.sentAt)
  {
    if messages != [] {
      var front, m := messages[..|messages| - 1], messages[|messages| - 1];
      assert messages == front + [m];
      LastOfRest(front, gone, c);
      LastAfter(front, m, c);
      RejectedMore(front, m, gone);
      if !gone(m) {
        LastAfter(Rejected(front, gone), m, c);
      } else {
        assert Rejected(messages, gone) == Rejected(front, gone);
        assert LastMessage(Rejected(messages, gone), c).Some? ==> LastMessage(Rejected(messages, gone), c).value != m;
      }
    }
  }

  /** Changing rows without touching their conversation and time leaves the last one in its place. */
  lemma {:induction false} LastOfMapped(messages: seq<Message>, f: Message -> Message, c: int)
    requires forall m: Message :: f(m).conversationId == m.conversationId && f(m).sentAt == m.sentAt
    ensures var last, after := LastMessage(messages, c), LastMessage(Mapped(messages, f), c);
            (last.None? <==> after.None?) && (last.Some? ==> after.value == f(last.value))
  {
    if messages != [] {
      var n := |messages| - 1;
      LastOfMapped(messages[..n], f, c);
      assert Mapped(messages, f)[..n] == Mapped(messages[..n], f);
    }
  }

  // ---------------------------------------------------------------- unread counts

  function UnreadBy(c: int, v: int): Message -> bool {
    (m: Message) => Unread(m, c, v, false)
  }

  /** A deletion lowers a user's unread count by the number of deleted messages they had not read. */
  lemma UnreadOfRest(messages: seq<Message>, ids: seq<int>, c: int, v: int)
    ensures |UnreadMessages(Rejected(messages, Among(ids)), c, v, false)|
            + |Selected(messages, (m: Message) => m.id in ids && Unread(m, c, v, false))|
            == |UnreadMessages(messages, c, v, false)|
  {
    SelectedRejected(messages, Among(ids), (m: Message) => Unread(m, c, v, false),
                     (m: Message) => m.id in ids && Unread(m, c, v, false));
  }

  // ---------------------------------------------------------------- deleting

  /** A delete pushes previews exactly when one of the two participants' previews has changed; when it is
      silent, both still have their last message and their number of unread messages. */
  lemma DeletePushesExactly(s: State, userId: int, c: int, ids: seq<int>)
    requires Tables(s) && c in s.conversations && Participant(s.conversations[c], userId)
    requires VerifyMessageOwnership(s.messages, ids, c, userId)
    ensures var other := OtherParticipant(s.conversations[c], userId);
            var rest := Rejected(s.messages, Among(ids));
            && (DeletePushes(s.messages, userId, c, ids) <==>
                  || PreviewOf(rest, c, userId) != PreviewOf(s.messages, c, userId)
                  || PreviewOf(rest, c, other) != PreviewOf(s.messages, c, other))
            && PreviewOf(rest, c, userId).unreadsCount == PreviewOf(s.messages, c, userId).unreadsCount
  {
    var other := OtherParticipant(s.conversations[c], userId);
    LastOfRest(s.messages, Among(ids), c);
    UnreadOfRest(s.messages, ids, c, userId);
    UnreadOfRest(s.messages, ids, c, other);
    forall m | m in s.messages && m.id in ids ensures m.senderId == userId && m.conversationId == c {
      VerifiedAreOwn(s.messages, ids, c, userId, m);
    }
    SelectedNone(s.messages, (m: Message) => m.id in ids && Unread(m, c, userId, false));
    SelectedNone(s.messages, (m: Message) => m.id in ids && Unread(m, c, other, false));
  }

  /** Other conversations do not notice a delete. */
  lemma DeleteStaysHere(s: State, userId: int, c: int, ids: seq<int>, d: int, v: int)
    requires Tables(s) && VerifyMessageOwnership(s.messages, ids, c, userId) && d != c
    ensures PreviewOf(Rejected(s.messages, Among(ids)), d, v) == PreviewOf(s.messages, d, v)
  {
    forall m | m in s.messages && m.id in ids ensures m.conversationId == c {
      VerifiedAreOwn(s.messages, ids, c, userId, m);
    }
    LastOfRest(s.messages, Among(ids), d);
    UnreadOfRest(s.messages, ids, d, v);
    SelectedNone(s.messages, (m: Message) => m.id in ids && Unread(m, d, v, false));
  }

  // ---------------------------------------------------------------- reading

  /** Reading succeeds exactly when nothing is chosen, or the chosen ids are distinct and all name unread messages
      of the other side. */
  lemma ReadSucceedsExactly(messages: seq<Message>, c: int, readerId: int, ids: seq<int>)
    requires SerialIds(messages) && ids != []
    ensures MarkMessagesAsRead(messages, c, readerId, Some(ids)).Some? <==>
              Distinct(ids) && forall id | id in ids :: Present(messages, id, UnreadBy(c, readerId))
  {
    CountingIds(messages, ids, UnreadBy(c, readerId));
    SelectedSame(messages, Readable(c, readerId, Some(ids)), (m: Message) => m.id in ids && UnreadBy(c, readerId)(m));
  }

  predicate InConversation(s: State, c: int, userId: int) {
    c in s.conversations && (userId == s.conversations[c].participant1 || userId == s.conversations[c].participant2)
  }

  /** A message that a reader may mark: of this conversation, not read yet, and from somebody else. */
  predicate Markable(m: Message, c: int, readerId: int) {
    m.conversationId == c && !m.isRead && m.senderId != readerId
  }

  /** Chosen ids are distinct and all name markable messages. */
  ghost predicate ChosenWell(messages: seq<Message>, c: int, readerId: int, chosen: Option<seq<int>>) {
    chosen.Some? && chosen.value != [] ==>
      && Distinct(chosen.value)
      && forall id | id in chosen.value :: Present(messages, id, (m: Message) => Markable(m, c, readerId))
  }

  lemma MarksWhenChosenWell(messages: seq<Message>, c: int, readerId: int, chosen: Option<seq<int>>)
    requires SerialIds(messages)
    ensures MarkMessagesAsRead(messages, c, readerId, chosen).Some? <==> ChosenWell(messages, c, readerId, chosen)
  {
    if chosen.Some? && chosen.value != [] {
      ReadSucceedsExactly(messages, c, readerId, chosen.value);
      forall id | id in chosen.value
        ensures Present(messages, id, (m: Message) => Markable(m, c, readerId))
                <==> Present(messages, id, UnreadBy(c, readerId))
      {
        SamePresent(messages, id, c, readerId);
      }
    }
  }

  /** Reading, row by row: it is refused exactly to strangers, and for chosen ids that are not distinct or do not all
      name markable messages; otherwise the markable messages, or the chosen ones of them, are read and nothing else. */
  lemma ReadIsExact(s: State, userId: int, c: int, chosen: Option<seq<int>>, i: nat)
    requires Tables(s) && i < |s.messages|
    ensures var (s', error) := HandleReadMessages(s, userId, c, chosen);
            var m := s.messages[i];
            && (error == None <==> InConversation(s, c, userId) && ChosenWell(s.messages, c, userId, chosen))
            && (error != None ==> s' == s)
            && |s'.messages| == |s.messages| && s'.conversations == s.conversations
            && s'.messages[i]
               == (if error == None && Markable(m, c, userId)
                      && (chosen.Some? && chosen.value != [] ==> m.id in chosen.value)
                   then m.(isRead := true) else m)
  {
    ReadResult(s, userId, c, chosen);
    MarksWhenChosenWell(s.messages, c, userId, chosen);
    MarkedRows(s.messages, c, userId, chosen, i);
  }

  lemma ReadResult(s: State, userId: int, c: int, chosen: Option<seq<int>>)
    ensures var (s', error) := HandleReadMessages(s, userId, c, chosen);
            var marked := MarkMessagesAsRead(s.messages, c, userId, chosen);
            && (error == None <==> InConversation(s, c, userId) && marked.Some?)
            && (error == None ==> s'.messages == marked.value)
            && (error != None ==> s' == s)
            && s'.conversations == s.conversations
  {
  }

  lemma SamePresent(messages: seq<Message>, id: int, c: int, userId: int)
    ensures Present(messages, id, (m: Message) => Markable(m, c, userId))
            <==> Present(messages, id, UnreadBy(c, userId))
  {
    var p, q := (m: Message) => Markable(m, c, userId), UnreadBy(c, userId);
    forall m | m in messages && m.id == id ensures p(m) == q(m) {
    }
  }

  lemma MarkedRows(messages: seq<Message>, c: int, userId: int, chosen: Option<seq<int>>, i: nat)
    requires i < |messages|
    ensures var marked := MarkMessagesAsRead(messages, c, userId, chosen);
            marked.Some? ==>
              && |marked.value| == |messages|
              && marked.value[i]
                 == (if Markable(messages[i], c, userId)
                        && (chosen.Some? && chosen.value != [] ==> messages[i].id in chosen.value)
                     then messages[i].(isRead := true) else messages[i])
  {
  }

  /** Reading lowers the reader's unread count by the number of messages marked, and changes no other count. */
  lemma ReadCounts(messages: seq<Message>, c: int, readerId: int, chosen: Option<seq<int>>, d: int, v: int)
    requires MarkMessagesAsRead(messages, c, readerId, chosen).Some?
    ensures var after := MarkMessagesAsRead(messages, c, readerId, chosen).value;
            var where := Readable(c, readerId, chosen);
            && |UnreadMessages(after, d, v, false)|
               + |Selected(messages, (m: Message) => where(m) && Unread(m, d, v, false))|
               == |UnreadMessages(messages, d, v, false)|
            && (d == c && v == readerId ==>
                  |UnreadMessages(after, c, v, false)|
                      == |UnreadMessages(messages, c, v, false)| - |Selected(messages, where)|)
            && LastMessage(after, d) == (match LastMessage(messages, d)
                                         case None => None
                                         case Some(m) => Some(MarkRead(where)(m)))
  {
    var where := Readable(c, readerId, chosen);
    var unread := (m: Message) => Unread(m, d, v, false);
    var still := (m: Message) => !where(m) && Unread(m, d, v, false);
    var marked := (m: Message) => where(m) && Unread(m, d, v, false);
    SelectedMapped(messages, MarkRead(where), unread, still);
    SelectedEither(messages, still, marked, unread);
    LastOfMapped(messages, MarkRead(where), d);
    if d == c && v == readerId {
      SelectedSame(messages, where, marked);
    }
  }

  // ---------------------------------------------------------------- sending and editing

  /** A preview written out: the number of the messages of the conversation that are not read and from somebody else,
      and a message of the conversation that no other is later than, if it has any. */
  lemma PreviewIsExact(messages: seq<Message>, c: int, v: int)
    requires SerialIds(messages)
    ensures var preview := PreviewOf(messages, c, v);
            && (exists rows: seq<Message> ::
                  && Lists(rows, messages, (m: Message) => Markable(m, c, v), (m: Message) => m.id)
                  && preview.unreadsCount == |rows|)
            && (preview.lastMessage.None? <==> forall m | m in messages :: m.conversationId != c)
            && (preview.lastMessage.Some? ==>
                  var last := preview.lastMessage.value;
                  && last in messages && last.conversationId == c
                  && forall m | m in messages && m.conversationId == c :: m.sentAt <= last.sentAt)
  {
    var where := (m: Message) => Markable(m, c, v);
    SelectedLists(messages, where, (m: Message) => m.id);
    SelectedSame(messages, (m: Message) => Unread(m, c, v, false), where);
  }

  /** Who may send is whoever takes part; the message is appended and the conversation stamped, and both participants
      are shown the conversation as it then is.  A refusal changes nothing. */
  lemma SendIsExact(s: State, userId: int, c: int, text: string)
    ensures var (s', error) := HandleSendMessage(s, userId, c, text);
            && (error == None <==> InConversation(s, c, userId))
            && (error != None ==>
                  && s' == s
                  && error == Some(if c in s.conversations then ConversationAccessDenied else ConversationNotFound))
            && (error == None ==>
                  var conversation := s.conversations[c];
                  var messages := s.messages + [Message(s.nextId, c, userId, text, false, s.now)];
                  && s' == s.(messages := messages, nextId := s.nextId + 1, conversations := s'.conversations,
                              shown := s'.shown)
                  && s'.conversations == s.conversations[c := conversation.(lastMessageAt := Some(s.now))]
                  && forall v, d ::
                       if d == c && (v == conversation.participant1 || v == conversation.participant2)
                       then (v, d) in s'.shown && s'.shown[(v, d)] == PreviewOf(messages, c, v)
                       else ((v, d) in s'.shown <==> (v, d) in s.shown)
                            && ((v, d) in s.shown ==> s'.shown[(v, d)] == s.shown[(v, d)]))
  {
  }

  /** A sent message becomes the last one of its conversation, unread for the recipient only, and one more. */
  lemma SentIsLastAndUnread(s: State, userId: int, c: int, text: string)
    requires Tables(s) && HandleSendMessage(s, userId, c, text).1 == None
    ensures var s' := HandleSendMessage(s, userId, c, text).0;
            var recipient := OtherParticipant(s.conversations[c], userId);
            var last := LastMessage(s'.messages, c);
            && last == Some(Message(s.nextId, c, userId, text, false, s.now))
            && PreviewOf(s'.messages, c, recipient).unreadsCount == PreviewOf(s.messages, c, recipient).unreadsCount + 1
            && PreviewOf(s'.messages, c, userId).unreadsCount == PreviewOf(s.messages, c, userId).unreadsCount
            && s.messages <= s'.messages
  {
    var m := Message(s.nextId, c, userId, text, false, s.now);
    var before := LastMessage(s.messages, c);
    assert before.Some? ==> SentBy(s, before.value);
    LastAfter(s.messages, m, c);
    var recipient := OtherParticipant(s.conversations[c], userId);
    SelectedMore(s.messages, m, (m: Message) => Unread(m, c, recipient, false));
    SelectedMore(s.messages, m, (m: Message) => Unread(m, c, userId, false));
  }

  /** An edit is accepted exactly from a participant who sent the message in this conversation; it changes the text
      of that one message and no other row. */
  lemma EditIsExact(s: State, userId: int, c: int, id: int, text: string, i: nat)
    requires Tables(s) && i < |s.messages|
    ensures var (s', error) := HandleEditMessage(s, userId, c, id, text);
            && (error == None <==> InConversation(s, c, userId) && Present(s.messages, id, By(c, userId)))
            && |s'.messages| == |s.messages|
            && s'.messages[i] == (if error == None && s.messages[i].id == id then s.messages[i].(text := text)
               else s.messages[i])
  {
    OwnershipByCounting(s.messages, [id], c, userId);
    assert id in [id];
  }

  /** A delete is accepted exactly for distinct own messages of the conversation; those rows go and the others stay. */
  lemma DeleteIsExact(s: State, userId: int, c: int, ids: seq<int>, m: Message)
    requires Tables(s)
    ensures var (s', error) := HandleDeleteMessages(s, userId, c, ids);
            && (error == None <==> Distinct(ids) && forall id | id in ids :: Present(s.messages, id, By(c, userId)))
            && (m in s'.messages <==> m in s.messages && (error == None ==> m.id !in ids))
  {
    OwnershipByCounting(s.messages, ids, c, userId);
  }
}
