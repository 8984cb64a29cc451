/** Who is online: sockets, the delayed step to offline, and the status broadcasts. */
module Presence {
  const OFFLINE_DELAY := 5000

  datatype Timer = Timer(userId: int, due: int)

  /** `offlineTimers` is the gateway's own table; `timers` are those the runtime will still fire. */
  datatype State = State(
    now: int,
    sockets: map<int, int>,
    offlineTimers: map<int, int>,
    timers: map<int, Timer>,
    nextTimer: int,
    online: set<int>,
    broadcasts: seq<(int, bool)>)

  function Room(sockets: map<int, int>, userId: int): set<int> {
    set k | k in sockets && sockets[k] == userId
  }

  function Announce(s: State, userId: int, isOnline: bool): State {
    s.(online := if isOnline then s.online + {userId} else s.online - {userId},
       broadcasts := s.broadcasts + [(userId, isOnline)])
  }

  function HandleConnection(s: State, client: int, userId: int): State {
    var isReconnecting := userId in s.offlineTimers;
    var s1 := if isReconnecting
              then s.(timers := s.timers - {s.offlineTimers[userId]}, offlineTimers := s.offlineTimers - {userId})
              else s;
    var s2 := s1.(sockets := s1.sockets[client := userId]);
    if |Room(s2.sockets, userId)| == 1 && !isReconnecting then Announce(s2, userId, true) else s2
  }

  /** A socket has left its rooms before the handler runs. */
  function HandleDisconnect(s: State, client: int): State
    requires client in s.sockets
  {
    var userId := s.sockets[client];
    var s1 := s.(sockets := s.sockets - {client});
    if |Room(s1.sockets, userId)| == 0 then
      s1.(timers := s1.timers[s1.nextTimer := Timer(userId, s1.now + OFFLINE_DELAY)],
          offlineTimers := s1.offlineTimers[userId := s1.nextTimer],
          nextTimer := s1.nextTimer + 1)
    else s1
  }

  /** What the timer does when the runtime calls it. */
  function GoOffline(s: State, timer: int): State
    requires timer in s.timers
  {
    var userId := s.timers[timer].userId;
    var s1 := s.(timers := s.timers - {timer});
    var s2 := Announce(s1, userId, false);
    s2.(offlineTimers := s2.offlineTimers - {userId})
  }

  datatype Event = Tick(ms: nat) | Connect(client: int, userId: int) | Disconnect(client: int) | Fire(timer: int)

  /** Socket ids are fresh, only connected sockets disconnect, and timers fire only when they are due. */
  function Next(s: State, e: Event): State {
    match e
    case Tick(ms) => s.(now := s.now + ms)
    case Connect(client, userId) => if client in s.sockets then s else HandleConnection(s, client, userId)
    case Disconnect(client) => if client in s.sockets then HandleDisconnect(s, client) else s
    case Fire(timer) => if timer in s.timers && s.timers[timer].due <= s.now then GoOffline(s, timer) else s
  }

  function Play(s: State, events: seq<Event>): State
    decreases |events|
  {
    if events == [] then s else Play(Next(s, events[0]), events[1..])
  }

  function Start(now: int): State {
    State(now, map[], map[], map[], 0, {}, [])
  }

  // ---------------------------------------------------------------- invariants

  ghost predicate HasSocket(s: State, userId: int) {
    exists k :: k in s.sockets && s.sockets[k] == userId
  }

  /** Online means connected, or disconnected so recently that the timer is still pending, never both. */
  ghost predicate OnlineExactly(s: State, userId: int) {
    && (userId in s.online <==> HasSocket(s, userId) || userId in s.offlineTimers)
    && (userId in s.offlineTimers ==> !HasSocket(s, userId))
  }

  /** The runtime holds one timer for each entry of the table and no other. */
  ghost predicate TimersMatch(s: State) {
    && (forall u | u in s.offlineTimers :: s.offlineTimers[u] in s.timers && s.timers[s.offlineTimers[u]].userId == u)
    && (forall t | t in s.timers :: s.timers[t].userId in s.offlineTimers && s.offlineTimers[s.timers[t].userId] == t)
    && (forall t | t in s.timers :: t < s.nextTimer)
    && (forall t | t in s.timers :: s.timers[t].due <= s.now + OFFLINE_DELAY)
  }

  function StatusesOf(broadcasts: seq<(int, bool)>, userId: int): seq<bool> {
    if broadcasts == [] then [] else
    var last := |broadcasts| - 1;
    StatusesOf(broadcasts[..last], userId) + (if broadcasts[last].0 == userId then [broadcasts[last].1] else [])
  }

  /** Online first, then offline, then online again, and the last one is what is stored. */
  ghost predicate Alternates(s: State, userId: int) {
    var statuses := StatusesOf(s.broadcasts, userId);
    && (forall i | 0 <= i < |statuses| :: statuses[i] == (i % 2 == 0))
    && (userId in s.online <==> |statuses| % 2 == 1)
  }

  ghost predicate Inv(s: State) {
    && TimersMatch(s)
    && (forall u :: OnlineExactly(s, u))
    && (forall u :: Alternates(s, u))
  }

  lemma RoomSizes(sockets: map<int, int>, userId: int)
    ensures |Room(sockets, userId)| == 0 <==> forall k | k in sockets :: sockets[k] != userId
  {
    if |Room(sockets, userId)| == 0 {
      forall k | k in sockets ensures sockets[k] != userId {
        assert k !in Room(sockets, userId);
      }
    } else {
      assert (forall k :: k !in Room(sockets, userId)) ==> Room(sockets, userId) == {};
    }
  }

  /** A new socket is alone in the room exactly when the user had none. */
  lemma RoomWithNewSocket(sockets: map<int, int>, client: int, userId: int)
    requires client !in sockets
    ensures |Room(sockets[client := userId], userId)| == 1 <==> forall k | k in sockets :: sockets[k] != userId
  {
    assert Room(sockets[client := userId], userId) == Room(sockets, userId) + {client};
    RoomSizes(sockets, userId);
  }

  lemma StatusesAfter(broadcasts: seq<(int, bool)>, userId: int, isOnline: bool, other: int)
    ensures StatusesOf(broadcasts + [(userId, isOnline)], other)
            == StatusesOf(broadcasts, other) + (if other == userId then [isOnline] else [])
  {
    assert (broadcasts + [(userId, isOnline)])[..|broadcasts|] == broadcasts;
  }

  /** A broadcast that changes the stored status keeps the alternation. */
  lemma AnnounceAlternates(s: State, userId: int, isOnline: bool, other: int)
    requires Alternates(s, other) && Alternates(s, userId) && (userId in s.online) != isOnline
    ensures Alternates(Announce(s, userId, isOnline), other)
  {
    StatusesAfter(s.broadcasts, userId, isOnline, other);
  }

  lemma ConnectKeepsInv(s: State, client: int, userId: int)
    requires Inv(s) && client !in s.sockets
    ensures Inv(HandleConnection(s, client, userId))
  {
    var s' := HandleConnection(s, client, userId);
    RoomWithNewSocket(s.sockets, client, userId);
    assert OnlineExactly(s, userId);
    forall u ensures OnlineExactly(s', u) {
      assert OnlineExactly(s, u);
      assert client in s'.sockets && s'.sockets[client] == userId;
      assert forall k | k in s.sockets :: k in s'.sockets && s'.sockets[k] == s.sockets[k];
    }
    forall u ensures Alternates(s', u) {
      assert Alternates(s, u) && Alternates(s, userId);
      if s'.broadcasts != s.broadcasts {
        AnnounceAlternates(s, userId, true, u);
      }
    }
  }

  lemma DisconnectKeepsInv(s: State, client: int)
    requires Inv(s) && client in s.sockets
    ensures Inv(HandleDisconnect(s, client))
  {
    var s' := HandleDisconnect(s, client);
    var userId := s.sockets[client];
    RoomSizes(s.sockets - {client}, userId);
    assert HasSocket(s, userId);
    assert OnlineExactly(s, userId);
    forall u ensures OnlineExactly(s', u) {
      assert OnlineExactly(s, u);
      assert forall k | k in s'.sockets :: k in s.sockets && s'.sockets[k] == s.sockets[k];
      assert forall k | k in s.sockets && k != client :: k in s'.sockets;
    }
    forall u ensures Alternates(s', u) {
      assert Alternates(s, u);
    }
  }

  lemma FireKeepsInv(s: State, timer: int)
    requires Inv(s) && timer in s.timers
    ensures Inv(GoOffline(s, timer))
  {
    var s' := GoOffline(s, timer);
    var userId := s.timers[timer].userId;
    assert OnlineExactly(s, userId);
    forall u ensures OnlineExactly(s', u) {
      assert OnlineExactly(s, u);
      assert HasSocket(s', u) == HasSocket(s, u);
    }
    forall u ensures Alternates(s', u) {
      assert Alternates(s, u) && Alternates(s, userId);
      AnnounceAlternates(s, userId, false, u);
    }
  }

  lemma NextKeepsInv(s: State, e: Event)
    requires Inv(s)
    ensures Inv(Next(s, e))
  {
    match e
    case Tick(ms) =>
      forall u ensures OnlineExactly(Next(s, e), u) && Alternates(Next(s, e), u) {
        assert OnlineExactly(s, u) && Alternates(s, u);
      }
    case Connect(client, userId) =>
      if client !in s.sockets {
        ConnectKeepsInv(s, client, userId);
      }
    case Disconnect(client) =>
      if client in s.sockets {
        DisconnectKeepsInv(s, client);
      }
    case Fire(timer) =>
      if timer in s.timers && s.timers[timer].due <= s.now {
        FireKeepsInv(s, timer);
      }
  }

  lemma {:induction false} PlayKeepsInv(s: State, events: seq<Event>)
    requires Inv(s)
    ensures Inv(Play(s, events))
    decreases |events|
  {
    if events != [] {
      NextKeepsInv(s, events[0]);
      PlayKeepsInv(Next(s, events[0]), events[1..]);
    }
  }

  // ---------------------------------------------------------------- main results

  /** After every run: online exactly with a socket or a pending timer, which exclude each other; at most one
      timer per user; broadcasts about a user strictly alternate. */
  lemma PresenceIsExact(now: int, events: seq<Event>, userId: int)
    ensures var s := Play(Start(now), events);
            && OnlineExactly(s, userId) && Alternates(s, userId)
            && (forall t, t' | t in s.timers && t' in s.timers && s.timers[t].userId == s.timers[t'].userId :: t == t')
  {
    PlayKeepsInv(Start(now), events);
  }

  /** A new socket is added and its user is online; this is broadcast exactly when the user was not, and the user's
      timer, if any, is gone. */
  lemma ConnectIsExact(s: State, client: int, userId: int)
    requires Inv(s) && client !in s.sockets
    ensures var s' := Next(s, Connect(client, userId));
            && s'.sockets == s.sockets[client := userId] && s'.now == s.now
            && s'.online == s.online + {userId}
            && s'.broadcasts == s.broadcasts + (if userId in s.online then [] else [(userId, true)])
            && s'.offlineTimers == s.offlineTimers - {userId}
            && (forall t :: t in s'.timers <==> t in s.timers && s.timers[t].userId != userId)
            && (forall t | t in s'.timers :: s'.timers[t] == s.timers[t])
  {
    RoomWithNewSocket(s.sockets, client, userId);
    assert OnlineExactly(s, userId);
  }

  /** A closed socket is removed and nothing is broadcast; if it was the user's last one, a timer will fire five seconds
      from now, and otherwise there is no timer. */
  lemma DisconnectIsExact(s: State, client: int)
    requires Inv(s) && client in s.sockets
    ensures var s', userId := Next(s, Disconnect(client)), s.sockets[client];
            && s'.sockets == s.sockets - {client} && s'.now == s.now
            && s'.online == s.online && s'.broadcasts == s.broadcasts
            && (if HasSocket(s', userId)
                then s'.timers == s.timers && s'.offlineTimers == s.offlineTimers && userId !in s'.offlineTimers
                else && s.nextTimer !in s.timers
                     && s'.timers == s.timers[s.nextTimer := Timer(userId, s.now + 5000)]
                     && s'.offlineTimers == s.offlineTimers[userId := s.nextTimer])
  {
    RoomSizes(s.sockets - {client}, s.sockets[client]);
    assert OnlineExactly(s, s.sockets[client]);
  }

  /** A timer does nothing before it is due; then its user is offline, which is broadcast, and the timer is gone. */
  lemma FireIsExact(s: State, timer: int)
    requires Inv(s) && timer in s.timers
    ensures var s', userId := Next(s, Fire(timer)), s.timers[timer].userId;
            if s.now < s.timers[timer].due then s' == s
            else && s' == s.(online := s.online - {userId}, broadcasts := s.broadcasts + [(userId, false)],
                             timers := s.timers - {timer}, offlineTimers := s.offlineTimers - {userId})
                 && userId in s.online
  {
    assert OnlineExactly(s, s.timers[timer].userId);
  }

  function Elapsed(events: seq<Event>): nat {
    if events == [] then 0 else (if events[0].Tick? then events[0].ms else 0) + Elapsed(events[1..])
  }

  ghost predicate StaysAway(events: seq<Event>, userId: int) {
    forall e | e in events :: e.Connect? ==> e.userId != userId
  }

  lemma QuietStep(s: State, e: Event, userId: int)
    requires Inv(s) && userId in s.offlineTimers
    requires e.Connect? ==> e.userId != userId
    requires s.now + (if e.Tick? then e.ms else 0) < s.timers[s.offlineTimers[userId]].due
    ensures var s' := Next(s, e);
            && userId in s'.offlineTimers && s'.offlineTimers[userId] == s.offlineTimers[userId]
            && s.offlineTimers[userId] in s'.timers
            && s'.timers[s.offlineTimers[userId]] == s.timers[s.offlineTimers[userId]]
            && s'.now == s.now + (if e.Tick? then e.ms else 0)
            && StatusesOf(s'.broadcasts, userId) == StatusesOf(s.broadcasts, userId)
  {
    assert OnlineExactly(s, userId);
    match e
    case Tick(ms) =>
    case Connect(client, other) =>
      if client !in s.sockets {
        StatusesAfter(s.broadcasts, other, true, userId);
      }
    case Disconnect(client) =>
      if client in s.sockets {
        assert HasSocket(s, s.sockets[client]);
      }
    case Fire(timer) =>
      if timer in s.timers && s.timers[timer].due <= s.now {
        StatusesAfter(s.broadcasts, s.timers[timer].userId, false, userId);
      }
  }

  lemma {:induction false} QuietRun(s: State, events: seq<Event>, userId: int)
    requires Inv(s) && userId in s.offlineTimers && StaysAway(events, userId)
    requires s.now + Elapsed(events) < s.timers[s.offlineTimers[userId]].due
    ensures var s' := Play(s, events);
            && Inv(s') && userId in s'.offlineTimers
            && StatusesOf(s'.broadcasts, userId) == StatusesOf(s.broadcasts, userId)
    decreases |events|
  {
    PlayKeepsInv(s, events);
    if events != [] {
      QuietStep(s, events[0], userId);
      NextKeepsInv(s, events[0]);
      QuietRun(Next(s, events[0]), events[1..], userId);
    }
  }

  /** Whatever others do meanwhile, losing the last socket and coming back in less than five seconds is never
      broadcast, and the user is online throughout. */
  lemma QuickReconnectIsSilent(s: State, client: int, events: seq<Event>, newClient: int)
    requires Inv(s) && client in s.sockets
    requires var userId := s.sockets[client];
             && StaysAway(events, userId) && Elapsed(events) < 5000
             && forall k | k in s.sockets && s.sockets[k] == userId :: k == client
    requires newClient !in Play(HandleDisconnect(s, client), events).sockets
    ensures var userId := s.sockets[client];
            var away := Play(HandleDisconnect(s, client), events);
            var back := Next(away, Connect(newClient, userId));
            && userId in away.online && userId in back.online
            && StatusesOf(away.broadcasts, userId) == StatusesOf(s.broadcasts, userId)
            && StatusesOf(back.broadcasts, userId) == StatusesOf(s.broadcasts, userId)
  {
    var userId := s.sockets[client];
    var left := HandleDisconnect(s, client);
    RoomSizes(s.sockets - {client}, userId);
    DisconnectKeepsInv(s, client);
    QuietRun(left, events, userId);
    var away := Play(left, events);
    assert OnlineExactly(away, userId);
  }

  /** Staying away until the timer fires is broadcast once, and the user is then offline. */
  lemma AbsenceIsAnnounced(s: State, userId: int)
    requires Inv(s) && userId in s.offlineTimers && s.timers[s.offlineTimers[userId]].due <= s.now
    ensures var s' := Next(s, Fire(s.offlineTimers[userId]));
            && userId !in s'.online && userId !in s'.offlineTimers
            && StatusesOf(s'.broadcasts, userId) == StatusesOf(s.broadcasts, userId) + [false]
  {
    StatusesAfter(s.broadcasts, userId, false, userId);
  }
}
