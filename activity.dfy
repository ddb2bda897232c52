/** The activity service the task service writes to. Its storage is outside
    the application; it is modelled as an append-only sequence of the entries
    the application asks it to record. */
module ActivityService {
  import opened JsBuiltins
  import opened Types

  /** What `activityService.log(userId, action, taskId)` is asked to record. */
  datatype LogEntry = LogEntry(userId: Id, action: string, taskId: Option<Id>)

  class ActivityFeed {
    var entries: seq<LogEntry>

    constructor ()
      ensures entries == []
    {
      entries := [];
    }

    /** Records `logged`, in order, after everything recorded so far. */
    method Append(logged: seq<LogEntry>)
      modifies this
      ensures entries == old(entries) + logged
    {
      entries := entries + logged;
    }
  }
}
