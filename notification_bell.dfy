/** The notification bell: an unread counter derived from the activity log
    and the time the panel was last opened, and the panel listing the latest
    entries. The clock is a parameter; polling is outside the model. */
module NotificationBell {
  import opened JsBuiltins
  import opened Types

  const PanelSize := 10

  predicate After(t: int, log: ActivityLog) {
    log.timestamp > t
  }

  /** The number of log entries strictly later than `lastRead`. */
  function UnreadCount(logs: seq<ActivityLog>, lastRead: int): nat {
    |Filter(logs, (l: ActivityLog) => After(lastRead, l))|
  }

  /** The count is at most the number of entries, and it is zero exactly
      when no entry is later than `lastRead`. */
  lemma UnreadCountSpec(logs: seq<ActivityLog>, lastRead: int)
    ensures UnreadCount(logs, lastRead) <= |logs|
    ensures UnreadCount(logs, lastRead) == 0 <==> forall i :: 0 <= i < |logs| ==> logs[i].timestamp <= lastRead
  {
    var p := (l: ActivityLog) => After(lastRead, l);
    FilterSpec(logs, p);
    if UnreadCount(logs, lastRead) == 0 {
      forall i | 0 <= i < |logs|
        ensures logs[i].timestamp <= lastRead
      {
        assert logs[i] in logs;
      }
    }
    if forall i :: 0 <= i < |logs| ==> logs[i].timestamp <= lastRead {
      FilterNone(logs, p);
    }
  }

  /** A later read time never raises the count. */
  lemma UnreadCountFalls(logs: seq<ActivityLog>, earlier: int, later: int)
    requires earlier <= later
    ensures UnreadCount(logs, later) <= UnreadCount(logs, earlier)
  {
    FilterMonotone(logs, (l: ActivityLog) => After(later, l), (l: ActivityLog) => After(earlier, l));
  }

  /** The author shown in the panel: "You" for the current user's own
      entries, "User" for any other entry and whenever no one is logged in. */
  function PanelAuthor(log: ActivityLog, user: Option<User>): (r: string)
    ensures r == "You" <==> user.Some? && log.userId == user.value.id
    ensures r != "You" ==> r == "User"
  {
    if user.Some? && log.userId == user.value.id then "You" else "User"
  }

  /** The panel lists the first ten entries in log order. */
  function PanelEntries(logs: seq<ActivityLog>): (r: seq<ActivityLog>)
    ensures |r| == if |logs| < PanelSize then |logs| else PanelSize
    ensures r == logs[..|r|]
  {
    Take(logs, PanelSize)
  }

  class Bell {
    var unreadCount: nat
    var isOpen: bool
    var lastReadTimestamp: int

    /** Mounted at time `mountTime`: closed, nothing unread. */
    constructor (mountTime: int)
      ensures unreadCount == 0 && !isOpen && lastReadTimestamp == mountTime
    {
      unreadCount, isOpen, lastReadTimestamp := 0, false, mountTime;
    }

    /** The red dot is shown exactly while something is unread. */
    predicate ShowsBadge()
      reads this
    {
      unreadCount > 0
    }

    /** The recomputing effect, run whenever the logs or the read time
        change. */
    method Recompute(logs: seq<ActivityLog>)
      modifies this
      ensures unreadCount == UnreadCount(logs, lastReadTimestamp)
      ensures isOpen == old(isOpen) && lastReadTimestamp == old(lastReadTimestamp)
    {
      unreadCount := UnreadCount(logs, lastReadTimestamp);
    }

    /** `handleOpen` at time `now`: opening marks everything read as of
        `now`; closing only closes. */
    method HandleOpen(now: int)
      modifies this
      ensures isOpen == !old(isOpen)
      ensures !old(isOpen) ==> lastReadTimestamp == now && unreadCount == 0
      ensures old(isOpen) ==> lastReadTimestamp == old(lastReadTimestamp) && unreadCount == old(unreadCount)
    {
      var wasOpen := isOpen;
      isOpen := !wasOpen;
      if !wasOpen {
        lastReadTimestamp := now;
        unreadCount := 0;
      }
    }

    /** Opening the panel at `now` and then recomputing over a log whose
        entries are all no later than `now` leaves nothing unread and no
        badge. */
    method OpenThenRecompute(now: int, logs: seq<ActivityLog>)
      requires !isOpen
      requires forall i :: 0 <= i < |logs| ==> logs[i].timestamp <= now
      modifies this
      ensures isOpen && lastReadTimestamp == now
      ensures unreadCount == 0 && !ShowsBadge()
    {
      HandleOpen(now);
      Recompute(logs);
      UnreadCountSpec(logs, now);
    }
  }
}
