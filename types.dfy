/**
 * Shared vocabulary of the session task framework: optional values, session
 * and transfer-job handles, and the view of the sessions that still exist.
 */
module Types {

  datatype Option<+T> = None | Some(value: T)

  /** A terminal session, identified by its session id. */
  type SessionId = nat

  /** A transfer job handle (the job pointer the transfer system hands out). */
  type JobId = nat

  /**
   * The sessions that still exist, each with its current number of history
   * lines (what the session's emulation reports as `lines()`). A guarded
   * session pointer to a session that is not in this map reads as null.
   */
  type LiveSessions = map<SessionId, nat>

  /** Dereferences a guarded session pointer and asks for the line count. */
  function LineCount(live: LiveSessions, s: SessionId): (r: Option<nat>)
    ensures r.Some? <==> s in live
    ensures r.Some? ==> r.value == live[s]
  {
    if s in live then Some(live[s]) else None
  }
}
