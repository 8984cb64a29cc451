/** The gateway's connection handlers, on its own table of timers. */
module PresenceGateway {
  import opened Presence

  class MainWebSocketGateway {
    var now: int
    var sockets: map<int, int>
    var offlineTimers: map<int, int>
    var timers: map<int, Timer>
    var nextTimer: int
    var online: set<int>
    var broadcasts: seq<(int, bool)>

    ghost function View(): State
      reads this
    {
      State(now, sockets, offlineTimers, timers, nextTimer, online, broadcasts)
    }

    constructor (now: int)
      ensures View() == Start(now)
    {
      this.now, sockets, offlineTimers, timers := now, map[], map[], map[];
      nextTimer, online, broadcasts := 0, {}, [];
    }

    method UpdateOnlineStatus(userId: int, isOnline: bool)
      modifies this`online
      ensures online == if isOnline then old(online) + {userId} else old(online) - {userId}
    {
      online := if isOnline then online + {userId} else online - {userId};
    }

    method NotifyUserStatusUpdate(userId: int, isOnline: bool)
      modifies this`broadcasts
      ensures broadcasts == old(broadcasts) + [(userId, isOnline)]
    {
      broadcasts := broadcasts + [(userId, isOnline)];
    }

    method HandleConnection(client: int, userId: int)
      modifies this
      ensures View() == Presence.HandleConnection(old(View()), client, userId)
    {
      var isReconnecting := userId in offlineTimers;
      if isReconnecting {
        timers := timers - {offlineTimers[userId]};
        offlineTimers := offlineTimers - {userId};
      }
      sockets := sockets[client := userId];
      if |Room(sockets, userId)| == 1 && !isReconnecting {
        UpdateOnlineStatus(userId, true);
        NotifyUserStatusUpdate(userId, true);
      }
    }

    method HandleDisconnect(client: int)
      requires client in sockets
      modifies this
      ensures View() == Presence.HandleDisconnect(old(View()), client)
    {
      var userId := sockets[client];
      sockets := sockets - {client};
      if |Room(sockets, userId)| == 0 {
        var timer := nextTimer;
        timers := timers[timer := Timer(userId, now + OFFLINE_DELAY)];
        nextTimer := nextTimer + 1;
        offlineTimers := offlineTimers[userId := timer];
      }
    }

    /** The callback of a timer. */
    method GoOffline(timer: int)
      requires timer in timers
      modifies this
      ensures View() == Presence.GoOffline(old(View()), timer)
    {
      var userId := timers[timer].userId;
      timers := timers - {timer};
      UpdateOnlineStatus(userId, false);
      NotifyUserStatusUpdate(userId, false);
      offlineTimers := offlineTimers - {userId};
    }
  }
}
