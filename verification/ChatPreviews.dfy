/** The previews the clients show, over every run of the chat handlers. */
module ChatPreviews {
  import opened Prelude
  import opened Chat
  import opened ChatTheorems

  // ---------------------------------------------------------------- what is shown

  /** The client of `v` shows conversation `c` as it is. */
  ghost predicate ShownExactly(s: State, c: int, v: int) {
    (v, c) in s.shown && s.shown[(v, c)] == PreviewOf(s.messages, c, v)
  }

  /** The client of `v` shows the right last message and does not hide an unread one. */
  ghost predicate ShownSafely(s: State, c: int, v: int) {
    && (v, c) in s.shown
    && s.shown[(v, c)].lastMessage == LastMessage(s.messages, c)
    && s.shown[(v, c)].unreadsCount >= |UnreadMessages(s.messages, c, v, false)|
  }

  ghost predicate Member(s: State, c: int, v: int) {
    c in s.conversations && Participant(s.conversations[c], v)
  }

  ghost predicate AllExact(s: State) {
    forall c, v | Member(s, c, v) :: ShownExactly(s, c, v)
  }

  ghost predicate AllSafe(s: State) {
    forall c, v | Member(s, c, v) :: ShownSafely(s, c, v)
  }

  /** The reads that push nothing although the reader's count falls: some message is marked, but not the last one. */
  predicate SilentRead(s: State, e: Event) {
    && e.ReadCall?
    && Access(s, e.conversationId, e.userId) == None
    && MarkMessagesAsRead(s.messages, e.conversationId, e.userId, e.chosen).Some?
    && var where := Readable(e.conversationId, e.userId, e.chosen);
       var last := LastMessage(s.messages, e.conversationId);
       Selected(s.messages, where) != [] && !(last.Some? && where(last.value))
  }

  // ---------------------------------------------------------------- what changes a preview

  lemma PreviewAfter(messages: seq<Message>, m: Message, d: int, v: int)
    requires m.conversationId != d
    ensures PreviewOf(messages + [m], d, v) == PreviewOf(messages, d, v)
  {
    LastAfter(messages, m, d);
    SelectedMore(messages, m, (m: Message) => Unread(m, d, v, false));
  }

  lemma SendPreview(s: State, userId: int, c: int, text: string, d: int, v: int)
    ensures d != c ==> PreviewOf(HandleSendMessage(s, userId, c, text).0.messages, d, v) == PreviewOf(s.messages, d, v)
  {
    if Access(s, c, userId) == None && d != c {
      var message := Message(s.nextId, c, userId, text, false, s.now);
      PreviewAfter(s.messages, message, d, v);
    }
  }

  lemma EditKeepsUnread(messages: seq<Message>, id: int, text: string, d: int, v: int)
    ensures |UnreadMessages(Mapped(messages, WithText(id, text)), d, v, false)|
            == |UnreadMessages(messages, d, v, false)|
  {
    var unread := (m: Message) => Unread(m, d, v, false);
    SelectedMapped(messages, WithText(id, text), unread, unread);
  }

  predicate IsLast(messages: seq<Message>, d: int, id: int) {
    var last := LastMessage(messages, d);
    last.Some? && last.value.id == id
  }

  lemma EditPreview(s: State, userId: int, c: int, id: int, text: string, d: int, v: int)
    requires Tables(s) && VerifyMessageOwnership(s.messages, [id], c, userId)
    ensures var after := Mapped(s.messages, WithText(id, text));
            && (!(d == c && IsLast(s.messages, d, id)) ==> PreviewOf(after, d, v) == PreviewOf(s.messages, d, v))
            && (IsLast(after, d, id) <==> IsLast(s.messages, d, id))
  {
    LastOfMapped(s.messages, WithText(id, text), d);
    EditKeepsUnread(s.messages, id, text, d, v);
    if IsLast(s.messages, d, id) {
      VerifiedAreOwn(s.messages, [id], c, userId, LastMessage(s.messages, d).value);
    }
  }

  // ---------------------------------------------------------------- one step

  lemma SendStep(s: State, userId: int, c: int, text: string, d: int, v: int)
    requires Member(s, d, v)
    ensures var s' := HandleSendMessage(s, userId, c, text).0;
            && (ShownSafely(s, d, v) ==> ShownSafely(s', d, v))
            && (ShownExactly(s, d, v) ==> ShownExactly(s', d, v))
  {
    SendPreview(s, userId, c, text, d, v);
  }

  lemma EditOutcome(s: State, userId: int, c: int, id: int, text: string, d: int, v: int)
    requires Access(s, c, userId) == None && VerifyMessageOwnership(s.messages, [id], c, userId)
    ensures var s' := HandleEditMessage(s, userId, c, id, text).0;
            var after := Mapped(s.messages, WithText(id, text));
            var pushes := IsLast(after, c, id);
            && s'.messages == after
            && (pushes && Participant(s.conversations[c], v) ==> ShownExactly(s', c, v))
            && (d != c || !pushes ==>
                  && ((v, d) in s'.shown <==> (v, d) in s.shown)
                  && ((v, d) in s.shown ==> s'.shown[(v, d)] == s.shown[(v, d)]))
  {
  }

  lemma EditStep(s: State, userId: int, c: int, id: int, text: string, d: int, v: int)
    requires Tables(s) && Member(s, d, v)
    requires Access(s, c, userId) == None && VerifyMessageOwnership(s.messages, [id], c, userId)
    ensures var s' := HandleEditMessage(s, userId, c, id, text).0;
            && (ShownSafely(s, d, v) ==> ShownSafely(s', d, v))
            && (ShownExactly(s, d, v) ==> ShownExactly(s', d, v))
  {
    EditOutcome(s, userId, c, id, text, d, v);
    EditPreview(s, userId, c, id, text, d, v);
  }

  lemma StrangersSentNothing(s: State, userId: int, c: int, id: int)
    requires Tables(s) && c in s.conversations && !Participant(s.conversations[c], userId)
    ensures !Present(s.messages, id, By(c, userId))
  {
    forall m | m in s.messages ensures !By(c, userId)(m) {
      assert SentBy(s, m);
    }
  }

  /** The check has nothing to say about who takes part, but a stranger owns no message here. */
  lemma StrangersDeleteNothing(s: State, userId: int, c: int, ids: seq<int>)
    requires Tables(s) && c in s.conversations && !Participant(s.conversations[c], userId)
    requires VerifyMessageOwnership(s.messages, ids, c, userId)
    ensures ids == []
    ensures Rejected(s.messages, Among(ids)) == s.messages
    ensures !DeletePushes(s.messages, userId, c, ids)
  {
    OwnershipByCounting(s.messages, ids, c, userId);
    StrangersSentNothing(s, userId, c, if ids == [] then 0 else ids[0]);
    RejectedNone(s.messages, Among(ids));
  }

  /** Without a push neither participant's preview has changed. */
  lemma SilentDeleteKeepsPreview(s: State, userId: int, c: int, ids: seq<int>, v: int)
    requires Tables(s) && Member(s, c, userId) && Member(s, c, v)
    requires VerifyMessageOwnership(s.messages, ids, c, userId) && !DeletePushes(s.messages, userId, c, ids)
    ensures PreviewOf(Rejected(s.messages, Among(ids)), c, v) == PreviewOf(s.messages, c, v)
  {
    DeletePushesExactly(s, userId, c, ids);
  }

  lemma DeleteOutcome(s: State, userId: int, c: int, ids: seq<int>, d: int, v: int)
    requires VerifyMessageOwnership(s.messages, ids, c, userId)
    ensures var s' := HandleDeleteMessages(s, userId, c, ids).0;
            && s'.messages == Rejected(s.messages, Among(ids))
            && (DeletePushes(s.messages, userId, c, ids) && Member(s, c, userId) && Member(s, c, v) ==>
               ShownExactly(s', c, v))
            && (d != c || !DeletePushes(s.messages, userId, c, ids) ==>
                  && ((v, d) in s'.shown <==> (v, d) in s.shown)
                  && ((v, d) in s.shown ==> s'.shown[(v, d)] == s.shown[(v, d)]))
  {
  }

  lemma DeleteStep(s: State, userId: int, c: int, ids: seq<int>, d: int, v: int)
    requires Tables(s) && Member(s, d, v) && VerifyMessageOwnership(s.messages, ids, c, userId)
    ensures var s' := HandleDeleteMessages(s, userId, c, ids).0;
            && (ShownSafely(s, d, v) ==> ShownSafely(s', d, v))
            && (ShownExactly(s, d, v) ==> ShownExactly(s', d, v))
  {
    DeleteOutcome(s, userId, c, ids, d, v);
    if d != c {
      DeleteStaysHere(s, userId, c, ids, d, v);
    } else if !Participant(s.conversations[c], userId) {
      StrangersDeleteNothing(s, userId, c, ids);
    } else if !DeletePushes(s.messages, userId, c, ids) {
      SilentDeleteKeepsPreview(s, userId, c, ids, v);
    }
  }

  /** Reading takes nothing from anyone's count but the reader's. */
  lemma ReadKeepsOthers(s: State, userId: int, c: int, chosen: Option<seq<int>>, d: int, v: int)
    requires Tables(s) && Member(s, d, v) && (d != c || v != userId) && Member(s, c, userId)
    requires MarkMessagesAsRead(s.messages, c, userId, chosen).Some?
    ensures |UnreadMessages(MarkMessagesAsRead(s.messages, c, userId, chosen).value, d, v, false)|
            == |UnreadMessages(s.messages, d, v, false)|
  {
    var where := Readable(c, userId, chosen);
    var both := (m: Message) => where(m) && Unread(m, d, v, false);
    ReadCounts(s.messages, c, userId, chosen, d, v);
    forall m | m in s.messages ensures !both(m) {
      assert SentBy(s, m);
    }
    SelectedNone(s.messages, both);
  }

  lemma ReadOutcome(s: State, userId: int, c: int, chosen: Option<seq<int>>, d: int, v: int)
    requires Member(s, c, userId) && Member(s, d, v)
    requires MarkMessagesAsRead(s.messages, c, userId, chosen).Some?
    ensures var s' := HandleReadMessages(s, userId, c, chosen).0;
            var last := LastMessage(s.messages, c);
            var pushes := last.Some? && Readable(c, userId, chosen)(last.value);
            && s'.messages == MarkMessagesAsRead(s.messages, c, userId, chosen).value
            && (pushes && d == c ==> ShownExactly(s', d, v))
            && (d != c || !pushes ==>
                  && ((v, d) in s'.shown <==> (v, d) in s.shown)
                  && ((v, d) in s.shown ==> s'.shown[(v, d)] == s.shown[(v, d)]))
  {
    ReadCounts(s.messages, c, userId, chosen, c, userId);
  }

  lemma ReadStep(s: State, userId: int, c: int, chosen: Option<seq<int>>, d: int, v: int)
    requires Tables(s) && Member(s, d, v) && Member(s, c, userId)
    requires MarkMessagesAsRead(s.messages, c, userId, chosen).Some?
    ensures var s' := HandleReadMessages(s, userId, c, chosen).0;
            && (ShownSafely(s, d, v) ==> ShownSafely(s', d, v))
            && (ShownExactly(s, d, v) ==>
                  (ShownExactly(s', d, v) <==> !(SilentRead(s, ReadCall(userId, c, chosen)) && d == c && v == userId)))
  {
    ReadOutcome(s, userId, c, chosen, d, v);
    ReadCounts(s.messages, c, userId, chosen, d, v);
    if d != c || v != userId {
      ReadKeepsOthers(s, userId, c, chosen, d, v);
    }
  }

  // ---------------------------------------------------------------- tables

  lemma SerialMore(messages: seq<Message>, m: Message)
    ensures SerialIds(messages + [m]) <==> SerialIds(messages) && forall x | x in messages :: x.id < m.id
  {
    var all := messages + [m];
    assert forall i | 0 <= i < |messages| :: all[i] == messages[i] && messages[i] in messages;
    if SerialIds(all) {
      assert all[|messages|] == m;
    }
  }

  lemma {:induction false} SerialRejected(messages: seq<Message>, gone: Message -> bool)
    requires SerialIds(messages)
    ensures SerialIds(Rejected(messages, gone))
  {
    if messages != [] {
      var front, m := messages[..|messages| - 1], messages[|messages| - 1];
      assert messages == front + [m];
      SerialMore(front, m);
      SerialRejected(front, gone);
      RejectedMore(front, m, gone);
      SerialMore(Rejected(front, gone), m);
      assert gone(m) ==> Rejected(messages, gone) == Rejected(front, gone);
    }
  }

  lemma MappedRows(messages: seq<Message>, f: Message -> Message)
    requires SerialIds(messages) && forall m: Message :: f(m).id == m.id
    ensures SerialIds(Mapped(messages, f))
    ensures forall m | m in Mapped(messages, f) :: exists m0 :: m0 in messages && m == f(m0)
  {
    forall m | m in Mapped(messages, f) ensures exists m0 :: m0 in messages && m == f(m0) {
      var i :| 0 <= i < |messages| && Mapped(messages, f)[i] == m;
      assert messages[i] in messages;
    }
  }

  lemma SendKeepsTables(s: State, userId: int, c: int, text: string)
    requires Tables(s)
    ensures Tables(HandleSendMessage(s, userId, c, text).0)
  {
    assert forall i | 0 <= i < |s.messages| :: s.messages[i] in s.messages;
    var s' := HandleSendMessage(s, userId, c, text).0;
    forall m | m in s'.messages ensures SentBy(s', m) {
      assert m in s.messages ==> SentBy(s, m);
    }
  }

  /** Changing texts and flags keeps the tables in order. */
  lemma MapKeepsTables(s: State, f: Message -> Message)
    requires Tables(s)
    requires forall m: Message :: f(m) == m.(text := f(m).text, isRead := f(m).isRead)
    ensures Tables(s.(messages := Mapped(s.messages, f)))
  {
    var s' := s.(messages := Mapped(s.messages, f));
    MappedRows(s.messages, f);
    forall m | m in s'.messages ensures SentBy(s', m) {
      var m0 :| m0 in s.messages && m == f(m0);
      assert SentBy(s, m0);
    }
  }

  lemma TouchKeepsTables(s: State, c: int, at: Option<int>)
    requires Tables(s)
    ensures Tables(Touch(s, c, at))
  {
    forall m | m in s.messages ensures SentBy(Touch(s, c, at), m) {
      assert SentBy(s, m);
    }
  }

  /** Pushing previews touches no table. */
  lemma NotifyKeepsTables(s: State, c: int, userId: int)
    requires Tables(s)
    ensures Tables(NotifyBoth(s, c, userId))
    ensures Stamped(s) ==> Stamped(NotifyBoth(s, c, userId))
  {
    forall m | m in s.messages ensures SentBy(NotifyBoth(s, c, userId), m) {
      assert SentBy(s, m);
    }
  }

  lemma RejectKeepsTables(s: State, gone: Message -> bool)
    requires Tables(s)
    ensures Tables(s.(messages := Rejected(s.messages, gone)))
  {
    SerialRejected(s.messages, gone);
    forall m | m in Rejected(s.messages, gone) ensures SentBy(s.(messages := Rejected(s.messages, gone)), m) {
      assert SentBy(s, m);
    }
  }

  lemma DeleteKeepsTables(s: State, userId: int, c: int, ids: seq<int>)
    requires Tables(s) && Stamped(s) && VerifyMessageOwnership(s.messages, ids, c, userId)
    ensures var s' := HandleDeleteMessages(s, userId, c, ids).0; Tables(s') && Stamped(s')
  {
    var rest := Rejected(s.messages, Among(ids));
    var s1 := s.(messages := rest);
    var at := SentAtOf(LastMessage(rest, c));
    RejectKeepsTables(s, Among(ids));
    TouchKeepsTables(s1, c, at);
    DeleteKeepsStamps(s, userId, c, ids);
    NotifyKeepsTables(Touch(s1, c, at), c, userId);
  }

  lemma SendKeepsStamps(s: State, userId: int, c: int, text: string)
    requires Tables(s) && Stamped(s)
    ensures Stamped(HandleSendMessage(s, userId, c, text).0)
  {
    if Access(s, c, userId) == None {
      var message := Message(s.nextId, c, userId, text, false, s.now);
      var last := LastMessage(s.messages, c);
      assert last.Some? ==> SentBy(s, last.value);
      forall d
        ensures LastMessage(s.messages + [message], d) == if d == c then Some(message) else LastMessage(s.messages, d)
      {
        LastAfter(s.messages, message, d);
      }
    }
  }

  lemma MapKeepsStamps(s: State, f: Message -> Message)
    requires Stamped(s)
    requires forall m: Message :: f(m) == m.(text := f(m).text, isRead := f(m).isRead)
    ensures Stamped(s.(messages := Mapped(s.messages, f)))
  {
    forall c | c in s.conversations
      ensures SentAtOf(LastMessage(Mapped(s.messages, f), c)) == SentAtOf(LastMessage(s.messages, c))
    {
      LastOfMapped(s.messages, f, c);
    }
  }

  lemma DeleteKeepsStamps(s: State, userId: int, c: int, ids: seq<int>)
    requires Tables(s) && Stamped(s) && VerifyMessageOwnership(s.messages, ids, c, userId)
    ensures var rest := Rejected(s.messages, Among(ids));
            Stamped(Touch(s.(messages := rest), c, SentAtOf(LastMessage(rest, c))))
  {
    var rest := Rejected(s.messages, Among(ids));
    forall d | d in s.conversations && d != c ensures LastMessage(rest, d) == LastMessage(s.messages, d) {
      DeleteStaysHere(s, userId, c, ids, d, userId);
    }
  }

  lemma MapKeepsAll(s: State, f: Message -> Message, c: int, userId: int)
    requires Tables(s) && Stamped(s)
    requires forall m: Message :: f(m) == m.(text := f(m).text, isRead := f(m).isRead)
    ensures var s1 := s.(messages := Mapped(s.messages, f));
            && Tables(s1) && Stamped(s1)
            && Tables(NotifyBoth(s1, c, userId)) && Stamped(NotifyBoth(s1, c, userId))
  {
    MapKeepsTables(s, f);
    MapKeepsStamps(s, f);
    NotifyKeepsTables(s.(messages := Mapped(s.messages, f)), c, userId);
  }

  /** A call either changes no row, or changes rows one by one and may push previews. */
  ghost predicate MapsRows(s: State, s': State, f: Message -> Message, c: int, userId: int) {
    var s1 := s.(messages := Mapped(s.messages, f));
    s' == s || s' == s1 || s' == NotifyBoth(s1, c, userId)
  }

  lemma ReadMapsRows(s: State, userId: int, c: int, chosen: Option<seq<int>>)
    ensures MapsRows(s, HandleReadMessages(s, userId, c, chosen).0, MarkRead(Readable(c, userId, chosen)), c, userId)
  {
  }

  lemma EditMapsRows(s: State, userId: int, c: int, id: int, text: string)
    ensures MapsRows(s, HandleEditMessage(s, userId, c, id, text).0, WithText(id, text), c, userId)
  {
  }

  lemma ReadKeepsTables(s: State, userId: int, c: int, chosen: Option<seq<int>>)
    requires Tables(s) && Stamped(s)
    ensures var s' := HandleReadMessages(s, userId, c, chosen).0; Tables(s') && Stamped(s')
  {
    ReadMapsRows(s, userId, c, chosen);
    MapKeepsAll(s, MarkRead(Readable(c, userId, chosen)), c, userId);
  }

  lemma EditKeepsTables(s: State, userId: int, c: int, id: int, text: string)
    requires Tables(s) && Stamped(s)
    ensures var s' := HandleEditMessage(s, userId, c, id, text).0; Tables(s') && Stamped(s')
  {
    EditMapsRows(s, userId, c, id, text);
    MapKeepsAll(s, WithText(id, text), c, userId);
  }

  lemma TickKeepsTables(s: State, ms: nat)
    requires Tables(s) && Stamped(s)
    ensures Tables(s.(now := s.now + ms)) && Stamped(s.(now := s.now + ms))
  {
    forall m | m in s.messages ensures SentBy(s.(now := s.now + ms), m) {
      assert SentBy(s, m);
    }
  }

  lemma NextKeepsTables(s: State, e: Event)
    requires Tables(s) && Stamped(s)
    ensures Tables(Next(s, e)) && Stamped(Next(s, e))
  {
    match e
    case Tick(ms) => TickKeepsTables(s, ms);
    case OpenConversation(c, participant1, participant2) => OpenKeepsTables(s, c, participant1, participant2);
    case SendCall(userId, c, text) =>
      SendKeepsTables(s, userId, c, text);
      SendKeepsStamps(s, userId, c, text);
    case ReadCall(userId, c, chosen) => ReadKeepsTables(s, userId, c, chosen);
    case EditCall(userId, c, id, text) => EditKeepsTables(s, userId, c, id, text);
    case DeleteCall(userId, c, ids) =>
      if VerifyMessageOwnership(s.messages, ids, c, userId) {
        DeleteKeepsTables(s, userId, c, ids);
      }
  }

  lemma OpenKeepsTables(s: State, c: int, participant1: int, participant2: int)
    requires Tables(s) && Stamped(s)
    ensures Tables(Open(s, c, participant1, participant2)) && Stamped(Open(s, c, participant1, participant2))
  {
    forall m | m in s.messages ensures SentBy(Open(s, c, participant1, participant2), m) {
      assert SentBy(s, m);
    }
    var last := LastMessage(s.messages, c);
    assert last.Some? ==> SentBy(s, last.value);
  }

  // ---------------------------------------------------------------- main results

  /** Who takes part in a conversation never changes. */
  lemma MembersStay(s: State, e: Event, c: int, v: int)
    ensures Member(s, c, v) ==> Member(Next(s, e), c, v)
    ensures c in s.conversations && Member(Next(s, e), c, v) ==> Member(s, c, v)
    ensures c in Next(s, e).conversations && c !in s.conversations ==> e.OpenConversation? && e.conversationId == c
  {
    match e
    case Tick(ms) =>
    case OpenConversation(d, participant1, participant2) =>
    case SendCall(userId, d, text) => SendKeepsMembers(s, userId, d, text, c, v);
    case ReadCall(userId, d, chosen) => ReadKeepsConversations(s, userId, d, chosen);
    case EditCall(userId, d, id, text) => EditKeepsConversations(s, userId, d, id, text);
    case DeleteCall(userId, d, ids) => DeleteKeepsMembers(s, userId, d, ids, c, v);
  }

  lemma SendKeepsMembers(s: State, userId: int, c: int, text: string, d: int, v: int)
    ensures var s' := HandleSendMessage(s, userId, c, text).0;
            s'.conversations.Keys == s.conversations.Keys && (Member(s', d, v) <==> Member(s, d, v))
  {
  }

  lemma DeleteKeepsMembers(s: State, userId: int, c: int, ids: seq<int>, d: int, v: int)
    ensures var s' := HandleDeleteMessages(s, userId, c, ids).0;
            s'.conversations.Keys == s.conversations.Keys && (Member(s', d, v) <==> Member(s, d, v))
  {
  }

  lemma ReadKeepsConversations(s: State, userId: int, c: int, chosen: Option<seq<int>>)
    ensures HandleReadMessages(s, userId, c, chosen).0.conversations == s.conversations
  {
  }

  lemma EditKeepsConversations(s: State, userId: int, c: int, id: int, text: string)
    ensures HandleEditMessage(s, userId, c, id, text).0.conversations == s.conversations
  {
  }

  lemma OpenShows(s: State, c: int, participant1: int, participant2: int, d: int, v: int)
    requires Tables(s) && Member(Open(s, c, participant1, participant2), d, v)
    ensures var s' := Open(s, c, participant1, participant2);
            && (Member(s, d, v) && ShownSafely(s, d, v) ==> ShownSafely(s', d, v))
            && (Member(s, d, v) && ShownExactly(s, d, v) ==> ShownExactly(s', d, v))
            && (!Member(s, d, v) ==> ShownExactly(s', d, v))
  {
    if !Member(s, d, v) {
      forall m | m in s.messages ensures m.conversationId != d {
        assert SentBy(s, m);
      }
      SelectedNone(s.messages, (m: Message) => Unread(m, d, v, false));
    }
  }

  /** Without a read that marks something and leaves out the last message, shown previews stay as good as they are. */
  ghost predicate KeepsShown(s: State, e: Event, c: int, v: int) {
    && (ShownSafely(s, c, v) ==> ShownSafely(Next(s, e), c, v))
    && (ShownExactly(s, c, v) ==>
          (ShownExactly(Next(s, e), c, v) <==> !(SilentRead(s, e) && e.conversationId == c && e.userId == v)))
  }

  lemma RefusedShows(s: State, e: Event, c: int, v: int)
    requires Next(s, e) == s && !SilentRead(s, e)
    ensures KeepsShown(s, e, c, v)
  {
  }

  lemma ReadCallShows(s: State, userId: int, d: int, chosen: Option<seq<int>>, c: int, v: int)
    requires Tables(s) && Member(s, c, v)
    ensures KeepsShown(s, ReadCall(userId, d, chosen), c, v)
  {
    if Access(s, d, userId) == None && MarkMessagesAsRead(s.messages, d, userId, chosen).Some? {
      ReadStep(s, userId, d, chosen, c, v);
    } else {
      RefusedShows(s, ReadCall(userId, d, chosen), c, v);
    }
  }

  lemma EditCallShows(s: State, userId: int, d: int, id: int, text: string, c: int, v: int)
    requires Tables(s) && Member(s, c, v)
    ensures KeepsShown(s, EditCall(userId, d, id, text), c, v)
  {
    if Access(s, d, userId) == None && VerifyMessageOwnership(s.messages, [id], d, userId) {
      EditStep(s, userId, d, id, text, c, v);
    } else {
      RefusedShows(s, EditCall(userId, d, id, text), c, v);
    }
  }

  lemma DeleteCallShows(s: State, userId: int, d: int, ids: seq<int>, c: int, v: int)
    requires Tables(s) && Member(s, c, v)
    ensures KeepsShown(s, DeleteCall(userId, d, ids), c, v)
  {
    if VerifyMessageOwnership(s.messages, ids, d, userId) {
      DeleteStep(s, userId, d, ids, c, v);
    } else {
      RefusedShows(s, DeleteCall(userId, d, ids), c, v);
    }
  }

  lemma SendCallShows(s: State, userId: int, d: int, text: string, c: int, v: int)
    requires Tables(s) && Member(s, c, v)
    ensures KeepsShown(s, SendCall(userId, d, text), c, v)
  {
    SendStep(s, userId, d, text, c, v);
  }

  lemma StepShows(s: State, e: Event, c: int, v: int)
    requires Tables(s) && Member(s, c, v)
    ensures KeepsShown(s, e, c, v)
  {
    match e
    case Tick(ms) =>
    case OpenConversation(d, participant1, participant2) => OpenShows(s, d, participant1, participant2, c, v);
    case SendCall(userId, d, text) => SendCallShows(s, userId, d, text, c, v);
    case ReadCall(userId, d, chosen) => ReadCallShows(s, userId, d, chosen, c, v);
    case EditCall(userId, d, id, text) => EditCallShows(s, userId, d, id, text, c, v);
    case DeleteCall(userId, d, ids) => DeleteCallShows(s, userId, d, ids, c, v);
  }

  ghost predicate Inv(s: State) {
    Tables(s) && Stamped(s) && AllSafe(s)
  }

  lemma NextKeepsInv(s: State, e: Event)
    requires Inv(s)
    ensures Inv(Next(s, e))
  {
    NextKeepsTables(s, e);
    forall c, v | Member(Next(s, e), c, v) ensures ShownSafely(Next(s, e), c, v) {
      MembersStay(s, e, c, v);
      if Member(s, c, v) {
        StepShows(s, e, c, v);
      } else {
        OpenShows(s, e.conversationId, e.participant1, e.participant2, c, v);
      }
    }
  }

  /** Exact previews stay exact after every event but one: a read that marks messages and leaves out the last. */
  lemma PreviewsStayExactIff(s: State, e: Event)
    requires Inv(s) && AllExact(s)
    ensures AllExact(Next(s, e)) <==> !SilentRead(s, e)
  {
    forall c, v | Member(Next(s, e), c, v)
      ensures ShownExactly(Next(s, e), c, v) <==> !(SilentRead(s, e) && e.conversationId == c && e.userId == v)
    {
      MembersStay(s, e, c, v);
      if Member(s, c, v) {
        StepShows(s, e, c, v);
      } else {
        OpenShows(s, e.conversationId, e.participant1, e.participant2, c, v);
      }
    }
    if SilentRead(s, e) {
      MembersStay(s, e, e.conversationId, e.userId);
      assert Member(s, e.conversationId, e.userId);
    }
  }

  lemma {:induction false} PlayKeepsInv(s: State, events: seq<Event>)
    requires Inv(s)
    ensures Inv(Play(s, events))
    decreases |events|
  {
    if events != [] {
      NextKeepsInv(s, events[0]);
      PlayKeepsInv(Next(s, events[0]), events[1..]);
    }
  }

  /** After every run each participant is shown the right last message and at least the unread ones, and
      conversations carry the time of their last message. */
  lemma PreviewsAreSafe(now: int, events: seq<Event>, c: int, v: int)
    ensures var s := Play(Start(now), events);
            Member(s, c, v) ==>
              ShownSafely(s, c, v) && s.conversations[c].lastMessageAt == SentAtOf(LastMessage(s.messages, c))
  {
    PlayKeepsInv(Start(now), events);
  }

  // ---------------------------------------------------------------- an outdated count

  const QUESTION := Message(1, 7, 2, "a", false, 0)
  const ANSWER := Message(2, 7, 1, "b", false, 0)

  /** User 2 asks, and user 1 answers before reading. */
  const ASK_AND_ANSWER := [OpenConversation(7, 1, 2), SendCall(2, 7, "a"), SendCall(1, 7, "b")]

  const READ_ALL := ReadCall(1, 7, None)

  lemma QuestionPreview(v: int)
    ensures PreviewOf([QUESTION], 7, v) == Preview(Some(QUESTION), if v == 2 then 0 else 1)
  {
    LastAfter([], QUESTION, 7);
    SelectedMore([], QUESTION, (m: Message) => Unread(m, 7, v, false));
    assert [] + [QUESTION] == [QUESTION];
  }

  lemma AnswerPreview(v: int)
    ensures PreviewOf([QUESTION, ANSWER], 7, v)
            == Preview(Some(ANSWER), (if v == 2 then 0 else 1) + (if v == 1 then 0 else 1))
  {
    QuestionPreview(v);
    LastAfter([QUESTION], ANSWER, 7);
    SelectedMore([QUESTION], ANSWER, (m: Message) => Unread(m, 7, v, false));
    assert [QUESTION] + [ANSWER] == [QUESTION, ANSWER];
  }

  lemma AskedAndAnswered()
    ensures var s := Play(Start(0), ASK_AND_ANSWER);
            s.messages == [QUESTION, ANSWER] && Member(s, 7, 1)
  {
    var s1 := Next(Start(0), ASK_AND_ANSWER[0]);
    var s2 := Next(s1, ASK_AND_ANSWER[1]);
    var s3 := Next(s2, ASK_AND_ANSWER[2]);
    assert s2.messages == [QUESTION] && s2.nextId == 2 && Access(s2, 7, 1) == None;
    assert s3.messages == [QUESTION, ANSWER];
    assert ASK_AND_ANSWER[1..][1..] == [ASK_AND_ANSWER[2]];
    assert Play(s3, []) == s3;
    assert Play(s2, [ASK_AND_ANSWER[2]]) == Play(s3, []);
    assert Play(s1, ASK_AND_ANSWER[1..]) == Play(s2, [ASK_AND_ANSWER[2]]);
  }

  /** Shown previews can only become inexact through a read. */
  lemma {:induction false} WithoutReadsAllExact(s: State, events: seq<Event>)
    requires Inv(s) && AllExact(s)
    requires forall e | e in events :: !e.ReadCall?
    ensures AllExact(Play(s, events))
    decreases |events|
  {
    if events != [] {
      PreviewsStayExactIff(s, events[0]);
      NextKeepsInv(s, events[0]);
      WithoutReadsAllExact(Next(s, events[0]), events[1..]);
    }
  }

  lemma ReadAllMarksTheQuestion()
    ensures Selected([QUESTION, ANSWER], Readable(7, 1, None)) == [QUESTION]
  {
    var where := Readable(7, 1, None);
    SelectedMore([], QUESTION, where);
    SelectedMore([QUESTION], ANSWER, where);
    assert [] + [QUESTION] == [QUESTION] && [QUESTION] + [ANSWER] == [QUESTION, ANSWER];
  }

  lemma ReadAllIsSilent(s: State)
    requires s.messages == [QUESTION, ANSWER] && Member(s, 7, 1)
    ensures SilentRead(s, READ_ALL)
  {
    AnswerPreview(1);
    ReadAllMarksTheQuestion();
  }

  lemma ReadAllLeavesNothing(s: State)
    requires s.messages == [QUESTION, ANSWER] && Member(s, 7, 1)
    ensures |UnreadMessages(Next(s, READ_ALL).messages, 7, 1, false)| == 0
  {
    AnswerPreview(1);
    ReadAllMarksTheQuestion();
    ReadCounts(s.messages, 7, 1, None, 7, 1);
    ReadOutcome(s, 1, 7, None, 7, 1);
  }

  lemma ReadAllShowsOne(s: State)
    requires s.messages == [QUESTION, ANSWER] && Member(s, 7, 1) && ShownExactly(s, 7, 1)
    ensures (1, 7) in Next(s, READ_ALL).shown && Next(s, READ_ALL).shown[(1, 7)].unreadsCount == 1
  {
    AnswerPreview(1);
    ReadAllMarksTheQuestion();
    ReadOutcome(s, 1, 7, None, 7, 1);
  }

  /** Silent reads do occur: user 1 answers a question and then reads everything.  The last message is the reader's own,
      so nothing is pushed, and user 1 is still shown one unread message where there is none. */
  lemma SilentReadIsReachable()
    ensures var s := Play(Start(0), ASK_AND_ANSWER);
            var s' := Next(s, READ_ALL);
            && SilentRead(s, READ_ALL)
            && AllExact(s) && !ShownExactly(s', 7, 1)
            && (1, 7) in s'.shown && s'.shown[(1, 7)].unreadsCount == 1
            && |UnreadMessages(s'.messages, 7, 1, false)| == 0
  {
    var s := Play(Start(0), ASK_AND_ANSWER);
    AskedAndAnswered();
    WithoutReadsAllExact(Start(0), ASK_AND_ANSWER);
    assert ShownExactly(s, 7, 1);
    ReadAllIsSilent(s);
    ReadAllLeavesNothing(s);
    ReadAllShowsOne(s);
  }
}
