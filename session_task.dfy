/**
 * The part every session task shares: an ordered group of sessions (no
 * de-duplication), an auto-delete flag, and the signals the task emits.
 * The concrete tasks (saving and searching history) hold one of these.
 */
module Tasks {
  import opened Types

  /** What a task emits: its `completed()` signal, or a scheduled self-deletion. */
  datatype Signal = Completed | DeletionScheduled

  /**
   * The group as the task hands it out: each entry is a guarded pointer,
   * which reads as null once its session has been destroyed.
   */
  function Pointers(group: seq<SessionId>, live: LiveSessions): (ptrs: seq<Option<SessionId>>)
    ensures |ptrs| == |group|
    ensures forall i :: 0 <= i < |group| ==>
      ptrs[i] == (if group[i] in live then Some(group[i]) else None)
  {
    if group == [] then []
    else [if group[0] in live then Some(group[0]) else None] + Pointers(group[1..], live)
  }

  class SessionTask {
    /** Whether the task deletes itself when it has finished. */
    var autoDelete: bool
    /** The sessions added so far, in the order they were added. */
    var sessions: seq<SessionId>
    /** Every signal emitted so far, in order. */
    var signals: seq<Signal>

    constructor ()
      ensures !autoDelete && sessions == [] && signals == []
    {
      autoDelete := false;
      sessions := [];
      signals := [];
    }

    method SetAutoDelete(enable: bool)
      modifies this`autoDelete
      ensures autoDelete == enable
    {
      autoDelete := enable;
    }

    /** The value last passed to SetAutoDelete, or false if it was never called. */
    method AutoDelete() returns (enabled: bool)
      ensures enabled == autoDelete
    {
      enabled := autoDelete;
    }

    /** Appends one session to the group, even one already in it. */
    method AddSession(session: SessionId)
      modifies this`sessions
      ensures sessions == old(sessions) + [session]
    {
      sessions := sessions + [session];
    }

    /** The group, in insertion order, with destroyed sessions reading as null. */
    function Sessions(live: LiveSessions): (ptrs: seq<Option<SessionId>>)
      reads this
      ensures |ptrs| == |sessions|
      ensures forall i :: 0 <= i < |sessions| ==> (ptrs[i] == Some(sessions[i]) <==> sessions[i] in live)
      ensures forall i :: 0 <= i < |sessions| ==> (ptrs[i] == None <==> sessions[i] !in live)
    {
      Pointers(sessions, live)
    }
  }
}
