/**
 * The save-history task: for each session in its group it asks where to save
 * that session's output, starts a transfer job to the chosen destination and
 * registers a save job for it; the transfer job then pulls the history in
 * blocks (ExportProtocol) and finally reports its result.
 */
module SaveHistory {
  import opened Types
  import opened ExportProtocol
  import opened Tasks

  /** What the registry remembers about one transfer job. */
  datatype SaveJob = SaveJob(
    session: SessionId,   // guarded: reads as null once the session is destroyed
    lastLineFetched: int, // the last line already sent; -1 when the job starts
    decoder: Decoder)

  /** The answer of the destination dialog for one session. */
  datatype Choice =
    | Dismissed                                 // the dialog was not accepted
    | Chosen(urlValid: bool, mimeFilter: string) // accepted, with the selected URL's validity and format

  /** The decoder a chosen format selects: HTML for "text/html", plain text otherwise. */
  function DecoderFor(mimeFilter: string): (d: Decoder)
    ensures d == HTMLDecoder <==> mimeFilter == "text/html"
    ensures d == PlainTextDecoder <==> mimeFilter != "text/html"
  {
    if mimeFilter == "text/html" then HTMLDecoder else PlainTextDecoder
  }

  /** The save job started for a session, or None when the session is skipped. */
  function NewJob(session: SessionId, choice: Choice): Option<SaveJob>
  {
    match choice
    case Dismissed => None
    case Chosen(urlValid, mimeFilter) =>
      if !urlValid then None else Some(SaveJob(session, -1, DecoderFor(mimeFilter)))
  }

  /** All handles are different transfer jobs. */
  ghost predicate Distinct(handles: seq<JobId>)
  {
    forall i, j :: 0 <= i < j < |handles| ==> handles[i] != handles[j]
  }

  /**
   * The registry entries one execution adds: for the k-th session, the save
   * job keyed by the k-th transfer job, unless that session is skipped.
   */
  function Planned(group: seq<SessionId>, choices: seq<Choice>, handles: seq<JobId>): map<JobId, SaveJob>
    requires |group| == |choices| == |handles|
  {
    if group == [] then map[]
    else
      var k := |group| - 1;
      var earlier := Planned(group[..k], choices[..k], handles[..k]);
      match NewJob(group[k], choices[k])
      case None => earlier
      case Some(job) => earlier[handles[k] := job]
  }

  /**
   * One execution registers exactly one job per accepted session with a
   * valid destination: keyed by that session's transfer job, with cursor -1
   * and the decoder its format selects; dismissed dialogs and invalid URLs
   * create no entry.
   */
  lemma {:induction false} PlannedJobs(group: seq<SessionId>, choices: seq<Choice>, handles: seq<JobId>)
    requires |group| == |choices| == |handles|
    requires Distinct(handles)
    ensures forall k :: 0 <= k < |group| && choices[k].Chosen? && choices[k].urlValid ==>
      && handles[k] in Planned(group, choices, handles)
      && Planned(group, choices, handles)[handles[k]]
           == SaveJob(group[k], -1, DecoderFor(choices[k].mimeFilter))
    ensures forall h :: h in Planned(group, choices, handles) ==>
      exists k :: 0 <= k < |group| && handles[k] == h && choices[k].Chosen? && choices[k].urlValid
  {
    if group != [] {
      var k := |group| - 1;
      assert Distinct(handles[..k]);
      PlannedJobs(group[..k], choices[..k], handles[..k]);
      var earlier := Planned(group[..k], choices[..k], handles[..k]);
      forall h | h in Planned(group, choices, handles)
        ensures exists i :: 0 <= i < |group| && handles[i] == h && choices[i].Chosen? && choices[i].urlValid
      {
        if h in earlier {
          var i :| 0 <= i < k && handles[..k][i] == h && choices[..k][i].Chosen? && choices[..k][i].urlValid;
          assert handles[i] == h && choices[i] == choices[..k][i];
        } else {
          assert handles[k] == h && NewJob(group[k], choices[k]).Some?;
        }
      }
      forall i | 0 <= i < |group| && choices[i].Chosen? && choices[i].urlValid
        ensures handles[i] in Planned(group, choices, handles)
        ensures Planned(group, choices, handles)[handles[i]]
             == SaveJob(group[i], -1, DecoderFor(choices[i].mimeFilter))
      {
        if i < k {
          assert handles[..k][i] == handles[i] && group[..k][i] == group[i] && choices[..k][i] == choices[i];
          assert handles[i] != handles[k];
        }
      }
    }
  }

  /** Every cursor is at least -1. */
  ghost predicate CursorsValid(registry: map<JobId, SaveJob>)
  {
    forall h :: h in registry ==> registry[h].lastLineFetched >= -1
  }

  class SaveHistoryTask {
    /** The shared session-task state: group, auto-delete flag, signals. */
    const task: SessionTask
    /** The save job of every transfer job still in progress. */
    var jobSession: map<JobId, SaveJob>
    /** Every decoder released so far, with the job it belonged to. */
    var released: seq<(JobId, Decoder)>

    ghost predicate Valid()
      reads this
    {
      CursorsValid(jobSession)
    }

    constructor ()
      ensures Valid() && fresh(task)
      ensures !task.autoDelete && task.sessions == [] && task.signals == []
      ensures jobSession == map[] && released == []
    {
      task := new SessionTask();
      jobSession := map[];
      released := [];
    }

    /**
     * Asks for a destination for each session of the group in turn
     * (`choices[k]` is the dialog's answer for the k-th session) and, for
     * each accepted valid one, starts transfer job `handles[k]` and registers
     * its save job. Returns at once: no data moves and nothing is signalled
     * until the transfer jobs call back.
     */
    method Execute(choices: seq<Choice>, handles: seq<JobId>)
      requires Valid()
      requires |choices| == |task.sessions| == |handles|
      requires Distinct(handles)
      requires forall k :: 0 <= k < |handles| ==> handles[k] !in jobSession
      modifies this`jobSession
      ensures Valid()
      ensures jobSession == old(jobSession) + Planned(task.sessions, choices, handles)
    {
      var group := task.sessions;
      ghost var before := jobSession;
      var i := 0;
      while i < |group|
        invariant 0 <= i <= |group|
        invariant jobSession == before + Planned(group[..i], choices[..i], handles[..i])
        invariant CursorsValid(jobSession)
      {
        assert group[..i + 1][..i] == group[..i];
        assert choices[..i + 1][..i] == choices[..i];
        assert handles[..i + 1][..i] == handles[..i];
        var choice := choices[i];
        if choice.Chosen? {
          if choice.urlValid {
            var jobInfo := SaveJob(group[i], -1, DecoderFor(choice.mimeFilter));
            jobSession := jobSession[handles[i] := jobInfo];
          }
        }
        i := i + 1;
      }
      assert group[..i] == group && choices[..i] == choices && handles[..i] == handles;
    }

    /**
     * A data request from transfer job `job`: copies the next block of its
     * session's history and advances that job's cursor alone. Writing
     * nothing tells the transfer job that the data is exhausted.
     */
    method JobDataRequested(job: JobId, live: LiveSessions) returns (data: Chunk)
      requires Valid()
      requires job in jobSession
      modifies this`jobSession
      ensures Valid()
      ensures
        var info := old(jobSession[job]);
        var reply := Serve(info.decoder, info.lastLineFetched, LineCount(live, info.session));
        && data == reply.data
        && jobSession == old(jobSession)[job := info.(lastLineFetched := reply.cursor)]
    {
      var info := jobSession[job];
      data := [];
      var lines := LineCount(live, info.session);
      if lines.Some? {
        var sessionLines := lines.value;
        if sessionLines - 1 == info.lastLineFetched {
          return;
        }
        var copyUpToLine := CopyUpTo(info.lastLineFetched, sessionLines);
        data := data + [Decoded(info.decoder, info.lastLineFetched + 1, copyUpToLine)];
        if copyUpToLine <= sessionLines - 1 {
          data := data + [Newline];
        }
        jobSession := jobSession[job := info.(lastLineFetched := copyUpToLine)];
      }
    }

    /**
     * The final result of transfer job `job`, successful or not: its entry
     * is removed, its decoder released, and the task emits `completed()`
     * and, when auto-delete is on, schedules its own deletion, on every
     * result. A job that was never registered is looked up into a fresh
     * entry holding no decoder, which is removed again at once: the registry
     * is unchanged, nothing is released, and the signals are still emitted.
     */
    method JobResult(job: JobId)
      requires Valid()
      modifies this`jobSession, this`released, task`signals
      ensures Valid()
      ensures jobSession == old(jobSession) - {job}
      ensures job in old(jobSession) ==> released == old(released) + [(job, old(jobSession[job]).decoder)]
      ensures job !in old(jobSession) ==> released == old(released)
      ensures task.signals == old(task.signals) + [Completed]
                              + (if task.autoDelete then [DeletionScheduled] else [])
    {
      if job in jobSession {
        var decoder := jobSession[job].decoder;
        jobSession := jobSession - {job};
        released := released + [(job, decoder)];
      }
      task.signals := task.signals + [Completed];
      if task.autoDelete {
        task.signals := task.signals + [DeletionScheduled];
      }
    }
  }

  /** Dialog answers: dismissed, plain text to a valid URL, HTML to an invalid URL. */
  function ExampleChoices(): seq<Choice>
  {
    [Dismissed, Chosen(true, "text/plain"), Chosen(false, "text/html")]
  }

  /** Of three sessions, only the one with an accepted, valid destination gets a job. */
  lemma ExamplePlan()
    ensures Planned([1, 2, 3], ExampleChoices(), [6, 7, 8]) == map[7 := SaveJob(2, -1, PlainTextDecoder)]
  {
    var c := ExampleChoices();
    assert [1, 2, 3][..2] == [1, 2] && c[..2] == [Dismissed, Chosen(true, "text/plain")] && [6, 7, 8][..2] == [6, 7];
    assert [1, 2][..1] == [1] && c[..2][..1] == [Dismissed] && [6, 7][..1] == [6];
    assert Planned([1], [Dismissed], [6]) == map[] by {
      assert [1][..0] == [] && [Dismissed][..0] == [] && [6][..0] == [];
    }
    assert "text/plain" != "text/html";
  }

  /**
   * Three sessions saved by one auto-deleting task, through the whole protocol:
   * the first session's dialog is dismissed, the second's 700-line history
   * goes to job 7 and a third, invalid destination is skipped. Only job 7 is
   * registered, it takes two non-empty requests and an empty one, and its
   * result emits `completed()` and schedules deletion.
   */
  method SaveOneOfThree() returns (first: Chunk, second: Chunk, third: Chunk, signals: seq<Signal>)
    ensures LinesOf(first) == Range(0, 499) && LinesOf(second) == Range(500, 699)
    ensures DecodersOf(first) == DecodersOf(second) == {PlainTextDecoder}
    ensures first[|first| - 1] == Newline && second[|second| - 1] == Newline
    ensures third == []
    ensures signals == [Completed, DeletionScheduled]
  {
    var save := new SaveHistoryTask();
    save.task.SetAutoDelete(true);
    save.task.AddSession(1);
    save.task.AddSession(2);
    save.task.AddSession(3);
    assert save.task.sessions == [1, 2, 3];
    save.Execute(ExampleChoices(), [6, 7, 8]);
    ExamplePlan();
    first, second, third := TransferSevenHundredLines(save);
    assert save.task.autoDelete && save.task.signals == [];
    save.JobResult(7);
    signals := save.task.signals;
  }

  /** Job 7 drains its session's 700 lines in two blocks, then writes nothing. */
  method TransferSevenHundredLines(save: SaveHistoryTask) returns (first: Chunk, second: Chunk, third: Chunk)
    requires save.Valid()
    requires save.jobSession == map[7 := SaveJob(2, -1, PlainTextDecoder)]
    modifies save`jobSession
    ensures save.Valid() && save.jobSession == map[7 := SaveJob(2, 699, PlainTextDecoder)]
    ensures LinesOf(first) == Range(0, 499) && LinesOf(second) == Range(500, 699)
    ensures DecodersOf(first) == DecodersOf(second) == {PlainTextDecoder}
    ensures first[|first| - 1] == Newline && second[|second| - 1] == Newline
    ensures third == []
  {
    var live := map[2 := 700];
    assert LineCount(live, 2) == Some(700);
    first := save.JobDataRequested(7, live);
    assert save.jobSession == map[7 := SaveJob(2, 499, PlainTextDecoder)];
    second := save.JobDataRequested(7, live);
    assert save.jobSession == map[7 := SaveJob(2, 699, PlainTextDecoder)];
    third := save.JobDataRequested(7, live);
  }
}
