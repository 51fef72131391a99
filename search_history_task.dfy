/**
 * The search-history task: it stores a search configuration and, when
 * executed, hands the pattern to the first session's emulation. The search
 * itself belongs to the emulation and is not part of this model.
 */
module SearchHistory {
  import opened Types
  import opened Tasks

  /** A regular expression; only its pattern text matters here (empty means no search). */
  datatype Expression = Expression(pattern: string)

  datatype Direction = Forwards | Backwards

  /** A request the task makes of a session's emulation. */
  datatype EmulationCall =
    | FindTextBegin(session: SessionId)
    | FindTextNext(session: SessionId, pattern: string, forwards: bool, caseSensitive: bool, regExp: bool)

  class SearchHistoryTask {
    /** The shared session-task state: group, auto-delete flag, signals. */
    const task: SessionTask
    var regExp: Expression
    var matchCase: bool
    var matchRegExp: bool
    var direction: Direction

    /** A fresh task: empty pattern, literal and case-insensitive matching, searching forwards. */
    constructor ()
      ensures fresh(task)
      ensures !task.autoDelete && task.sessions == [] && task.signals == []
      ensures regExp.pattern == "" && !matchRegExp && !matchCase && direction == Forwards
    {
      task := new SessionTask();
      regExp := Expression("");
      matchRegExp := false;
      matchCase := false;
      direction := Forwards;
    }

    method SetRegExp(expression: Expression)
      modifies this`regExp
      ensures regExp == expression
    {
      regExp := expression;
    }

    /** The expression last passed to SetRegExp (initially the empty one). */
    method RegExp() returns (expression: Expression)
      ensures expression == regExp
    {
      expression := regExp;
    }

    method SetMatchCase(enable: bool)
      modifies this`matchCase
      ensures matchCase == enable
    {
      matchCase := enable;
    }

    method MatchCase() returns (enabled: bool)
      ensures enabled == matchCase
    {
      enabled := matchCase;
    }

    method SetMatchRegExp(enable: bool)
      modifies this`matchRegExp
      ensures matchRegExp == enable
    {
      matchRegExp := enable;
    }

    method MatchRegExp() returns (enabled: bool)
      ensures enabled == matchRegExp
    {
      enabled := matchRegExp;
    }

    method SetSearchDirection(d: Direction)
      modifies this`direction
      ensures direction == d
    {
      direction := d;
    }

    method SearchDirection() returns (d: Direction)
      ensures d == direction
    {
      d := direction;
    }

    /**
     * Runs the search on the first session of the group, which must still
     * exist. An empty pattern does nothing; otherwise the emulation is asked
     * to start a search and find the pattern, with fixed flags: forwards,
     * case-insensitive, literal, whatever the task's configuration says.
     * Nothing of the task changes and no signal is emitted.
     */
    method Execute(live: LiveSessions) returns (calls: seq<EmulationCall>)
      requires |task.sessions| > 0 && task.sessions[0] in live
      ensures regExp.pattern == "" <==> calls == []
      ensures forall c :: c in calls ==> c.session == task.sessions[0]
      ensures regExp.pattern != "" ==>
        calls == [FindTextBegin(task.sessions[0]), FindTextNext(task.sessions[0], regExp.pattern, true, false, false)]
    {
      var session := task.sessions[0];
      calls := [];
      if regExp.pattern != "" {
        calls := calls + [FindTextBegin(session)];
        calls := calls + [FindTextNext(session, regExp.pattern, true, false, false)];
      }
    }
  }

  /**
   * Configuring a search: the expression read back is the last one set,
   * whatever other settings are changed after it, and executing passes the
   * emulation fixed flags whatever the case, syntax and direction settings.
   */
  method LastRegExpWins(first: Expression, last: Expression, caseSensitive: bool, d: Direction)
    returns (current: Expression, calls: seq<EmulationCall>)
    ensures current == last
    ensures last.pattern != "" ==> calls == [FindTextBegin(4), FindTextNext(4, last.pattern, true, false, false)]
    ensures last.pattern == "" ==> calls == []
  {
    var search := new SearchHistoryTask();
    search.SetRegExp(first);
    search.SetRegExp(last);
    search.SetMatchCase(caseSensitive);
    search.SetMatchRegExp(true);
    search.SetSearchDirection(d);
    search.task.SetAutoDelete(true);
    search.task.AddSession(4);
    calls := search.Execute(map[4 := 0]);
    current := search.RegExp();
  }
}
