# Konsole session tasks, modelled in Dafny

This project models the session task framework of Konsole's session
controller (`konsole/SessionController.cpp` and `konsole/SessionController.h`):

- **`SessionTask`** (`session_task.dfy`, module `Tasks`): the shared part of
  every task. It has an ordered group of sessions with no de-duplication. The
  group is handed out as guarded pointers, and a pointer to a destroyed
  session reads as null. It also has an auto-delete flag, false by default,
  and the log of signals it has emitted (`completed()` and scheduled
  self-deletion). The concrete tasks hold a `SessionTask` (composition stands
  in for the C++ subclassing).
- **The chunked history export** (`export_protocol.dfy`, module
  `ExportProtocol`). This is the pure rule by which one data request of a
  save job copies the next block of at most 500 lines after the job's cursor
  `lastLineFetched` and advances the cursor. `Drain` and `Run` iterate
  requests, over a fixed history and over a growing one. The lemmas show
  three things. Lines 0..n-1 are delivered once each, in order. This takes
  ceil(n/500) non-empty requests. Every chunk ends with a line separator.
- **`SaveHistoryTask`** (`save_history_task.dfy`, module `SaveHistory`): the
  registry `jobSession`, a map from transfer-job handle to `SaveJob`, updated
  in place. It has three steps. `Execute` registers one job per accepted
  session with a valid URL. `JobDataRequested` serves one request and moves
  only that job's cursor. `JobResult` removes the entry, releases the
  decoder, emits `completed()` and, with auto-delete on, schedules deletion.
- **`SearchHistoryTask`** (`search_history_task.dfy`, module `SearchHistory`):
  the stored search configuration and `execute()`. For a non-empty pattern,
  `execute()` asks the first session's emulation to search.
- **`SessionController::sessionStateChanged`** (`session_controller.dfy`,
  module `Controller`): a notification with the same state as the previous
  one is ignored. Otherwise the state is recorded and the icon follows it.
  The title-update handler `sessionTitleChanged()` writes the same icon
  fields, so it is modelled too. It runs once in the constructor and again
  on every title update, and a new icon name replaces whatever icon a
  notification put up. Icons are abstract values.

How the outside world enters the model:
- Sessions are ids. `LiveSessions` maps each session that still exists to its
  current line count, which stands for the emulation's `lines()`. Each
  request takes its own `LiveSessions`, and the model does not assume that a
  destroyed session stays absent from later ones, although a guarded
  pointer that has gone null stays null.
- The destination dialog's answer for each session is a `Choice` parameter.
- The transfer-job handles that `KIO::put` returns are a parameter. They are
  required to be distinct and not already registered.
- What `writeToStream` writes is a `Decoded(decoder, first, last)` piece.

Points where the code does something other than a reader might expect,
modelled as the code has them:
- Every non-empty chunk ends with `'\n'`, the last one included. The guard
  `copyUpToLine <= sessionLines-1` always holds, as the FIXME at
  `SessionController.cpp:811` admits.
- `completed()` (and `deleteLater()` with auto-delete) fires on every job
  result, not once after all jobs.
- An `execute()` that creates no job emits nothing.
- A request for a job whose session was destroyed writes nothing and leaves
  the cursor unchanged. It does not report an error.
- When the history shrinks below the cursor, a request still writes a
  (reversed) range and a separator, and moves the cursor down to the last
  line.

The header is an older revision than the `.cpp`: it uses `TESession`, has no
parent constructors and no `setMatchCase`. Behaviour follows the `.cpp`.

## Model

| member | source | states |
|---|---|---|
| `Types.LineCount` | konsole/SessionController.cpp:791-796 | a job's session pointer yields a line count exactly when the session still exists, and then it is that session's `lines()` |
| `ExportProtocol.CopyUpTo` | konsole/SessionController.cpp:801-802 | the last line copied is the smaller of `lastLineFetched + 500` and the last line of the history |
| `ExportProtocol.Serve` | konsole/SessionController.cpp:785-819 | a destroyed session or an exhausted job (`lines-1 == lastLineFetched`) gets nothing written and an unchanged cursor. Otherwise exactly lines `old+1 .. new` are written, all rendered with the job's own decoder, then a single `'\n'` as the last piece, with `new <= old+500`, `new <= lines-1` and one of the two reached. The cursor strictly increases while lines remain beyond it and never drops below -1 |
| `ExportProtocol.ServeShape` | konsole/SessionController.cpp:801-815 | whenever the session exists and the job is not exhausted, including when the history has shrunk below the cursor, a request writes exactly one rendering of lines `old+1 .. new` with the job's decoder, followed by one `'\n'` |
| `ExportProtocol.RangeAt` | konsole/SessionController.cpp:805 | the line range a request renders lists each line once, in increasing order: its k-th entry is `first + k` |
| `ExportProtocol.RangeAppend` | konsole/SessionController.cpp:805 | the line ranges `a..b` and `b+1..c` written by consecutive requests join into `a..c` |
| `ExportProtocol.ServeCovers` | konsole/SessionController.cpp:796-818 | on a live session whose history covers the cursor, one request leaves the cursor between its old value and the last line. It writes exactly the lines it moves over, and writes nothing exactly when the cursor stays put |
| `ExportProtocol.JoinDeliveries` | konsole/SessionController.cpp:805-818 | a chunk delivering lines a..b followed by chunks delivering b+1..c delivers a..c |
| `ExportProtocol.DrainDeliversRemainingLines` | konsole/SessionController.cpp:796-818 | requests repeated until one writes nothing deliver every line after the cursor exactly once, in order. They stop with the cursor on the last line |
| `ExportProtocol.DrainEndsExhausted` | konsole/SessionController.cpp:796-799 | a job whose cursor is on the last line is exhausted: a further request writes nothing and leaves the cursor, and a drain from there sends no chunk |
| `ExportProtocol.ExportDeliversWholeHistory` | konsole/SessionController.cpp:757-818 | a job starting at cursor -1 on an n-line history delivers lines 0..n-1 once each, in order, and ends at n-1 |
| `ExportProtocol.DrainRequestCount` | konsole/SessionController.cpp:785-818 | from cursor c, the transfer takes ceil((n-1-c)/500) non-empty requests |
| `ExportProtocol.ExportRequestCount` | konsole/SessionController.cpp:785-818 | a whole n-line history takes ceil(n/500) non-empty requests |
| `ExportProtocol.DrainChunksEndWithNewline` | konsole/SessionController.cpp:807-815 | every non-empty chunk of a transfer ends with `'\n'`, the last one included, holds no other separator, and renders every line with the job's decoder |
| `ExportProtocol.RunDeliversContiguousLines` | konsole/SessionController.cpp:796-818 | while the history only grows, successive requests never resend or skip a line. Together they deliver exactly the lines after the starting cursor up to the final cursor. The cursor never moves back and never passes the last line |
| `Tasks.SessionTask.constructor` | konsole/SessionController.cpp:670-674 | a new task has auto-delete off, no sessions and no signals |
| `Tasks.SessionTask.SetAutoDelete` | konsole/SessionController.cpp:675-678 | the flag becomes the given value and nothing else changes |
| `Tasks.SessionTask.AutoDelete` | konsole/SessionController.h:118-125 | returns the flag, that is the value last passed to `SetAutoDelete` (false before any call) |
| `Tasks.SessionTask.AddSession` | konsole/SessionController.cpp:683-686 | appends exactly one session to the end of the group, duplicates included |
| `Tasks.Pointers` | konsole/SessionController.h:146-154 | the group as guarded pointers: same length and order, each entry its session if that session still exists and null otherwise |
| `Tasks.SessionTask.Sessions` | konsole/SessionController.cpp:687-690 | the group in insertion order, where entry i is session i when it still exists and null exactly when it has been destroyed |
| `SaveHistory.DecoderFor` | konsole/SessionController.cpp:765-768 | the HTML decoder exactly for the "text/html" filter, plain text for every other filter |
| `SaveHistory.PlannedJobs` | konsole/SessionController.cpp:723-770 | one execution adds an entry for each session whose dialog was accepted with a valid URL, and for no other. The entry is keyed by that session's transfer job and holds that session, cursor -1 and the decoder of its format |
| `SaveHistory.SaveHistoryTask.constructor` | konsole/SessionController.cpp:692-695 | a new save task has an empty registry and a fresh, default session-task state |
| `SaveHistory.SaveHistoryTask.Execute` | konsole/SessionController.cpp:700-779 | the registry becomes the old registry plus exactly the planned entries. No data moves and no signal is emitted before the transfer jobs call back. Every cursor stays at least -1 |
| `SaveHistory.SaveHistoryTask.JobDataRequested` | konsole/SessionController.cpp:780-820 | the data written and the job's new cursor are those of `Serve` for that job's cursor, decoder and session. Every other registry entry and every key is unchanged |
| `SaveHistory.SaveHistoryTask.JobResult` | konsole/SessionController.cpp:821-839 | removes exactly that job's entry and releases its decoder. A job that was never registered leaves the registry as it was and releases nothing. Either way it appends `completed()`, then a scheduled deletion when auto-delete is on, on every result |
| `SaveHistory.ExamplePlan` | konsole/SessionController.cpp:729-740 | of three sessions (dialog dismissed, valid plain-text URL, invalid HTML URL), only the second gets a registry entry |
| `SaveHistory.SaveOneOfThree` | konsole/SessionController.cpp:700-839 | end to end, a 700-line history goes out as lines 0..499 and then 500..699, each chunk rendered by the plain-text decoder the dialog chose and ending in `'\n'`, and a third request writes nothing. The single result emits `completed()` and schedules deletion |
| `SaveHistory.TransferSevenHundredLines` | konsole/SessionController.cpp:780-820 | a freshly registered plain-text job on a 700-line session gets lines 0..499, then 500..699, each rendered as plain text and followed by `'\n'`. A third request writes nothing and leaves the cursor on line 699 |
| `SearchHistory.SearchHistoryTask.constructor` | konsole/SessionController.cpp:854-861 | a new search task has an empty pattern, literal and case-insensitive matching, direction Forwards, and a default session-task state |
| `SearchHistory.SearchHistoryTask.SetRegExp` | konsole/SessionController.cpp:887-890 | stores the expression and nothing else |
| `SearchHistory.SearchHistoryTask.RegExp` | konsole/SessionController.h:218-221 | returns the stored expression, the one last passed to `SetRegExp` |
| `SearchHistory.SearchHistoryTask.SetMatchCase` | konsole/SessionController.cpp:863-866 | stores the case-sensitivity setting and nothing else |
| `SearchHistory.SearchHistoryTask.MatchCase` | konsole/SessionController.cpp:867-870 | returns the stored case-sensitivity setting |
| `SearchHistory.SearchHistoryTask.SetMatchRegExp` | konsole/SessionController.cpp:871-874 | stores the literal/regular-expression setting and nothing else |
| `SearchHistory.SearchHistoryTask.MatchRegExp` | konsole/SessionController.cpp:875-878 | returns the stored literal/regular-expression setting |
| `SearchHistory.SearchHistoryTask.SetSearchDirection` | konsole/SessionController.cpp:879-882 | stores the direction and nothing else |
| `SearchHistory.SearchHistoryTask.SearchDirection` | konsole/SessionController.cpp:883-886 | returns the stored direction |
| `SearchHistory.SearchHistoryTask.Execute` | konsole/SessionController.cpp:841-852 | requires the first session to exist. An empty pattern makes no call. Otherwise the first session's emulation is asked to begin and then to find the pattern, with fixed flags whatever the task's settings. The task itself is unchanged |
| `SearchHistory.LastRegExpWins` | konsole/SessionController.h:218-221 | after two `SetRegExp` calls and changes to the other settings, `RegExp()` returns the last expression set, and `Execute` ignores those settings |
| `Controller.Notify` | konsole/SessionController.cpp:630-668 | the same state as last time leaves everything unchanged. Otherwise the state is recorded and the icon follows it: activity, silence, or the session icon for the normal state. The session icon is rebuilt only when the icon name changed. Any other state changes nothing but the recorded state |
| `Controller.NotifyRepeatIsIgnored` | konsole/SessionController.cpp:635-638 | a notification repeated straight away changes nothing more |
| `Controller.TitleChanged` | konsole/SessionController.cpp:599-610 | a title update with a new icon name rebuilds the session icon from it and shows it, whatever icon a notification put up. The same name changes nothing. The recorded notification state is never touched |
| `Controller.TitleChangeIsIdempotent` | konsole/SessionController.cpp:599-610 | a second title update with the same icon name changes nothing more |
| `Controller.TitleChangeHidesActivity` | konsole/SessionController.cpp:630-648 | a new icon name arriving during activity replaces the activity icon, and a repeated activity notification does not bring it back |
| `Controller.NormalAfterTitleChange` | konsole/SessionController.cpp:659-667 | after a title update, a return to the normal state shows the session icon for that name without rebuilding it |
| `Controller.SessionController.constructor` | konsole/SessionController.cpp:39-54 | a new controller has previous state -1, and its first title update has shown the session's icon, or nothing when the icon name is empty |
| `Controller.SessionController.SessionTitleChanged` | konsole/SessionController.cpp:599-610 | the controller's new state is `TitleChanged` applied to its old state |
| `Controller.SessionController.SessionStateChanged` | konsole/SessionController.cpp:630-668 | the controller's new state is `Notify` applied to its old state |

## Left out

- `SaveHistory.SaveHistoryTask.JobResult`: does not model the message box shown when the transfer reports an error. Success and error results are otherwise handled alike.
- `SaveHistory.SaveHistoryTask.JobResult`: reads the job's decoder before removing its entry. The source binds a reference to the entry, removes it, and then reads the decoder through that dangling reference (`SessionController.cpp:828-832`). The model follows the evidently intended order and does not model that undefined behaviour. For an unregistered job, the source's lookup inserts a default entry whose decoder is null and removes it again; the model has the same outcome: nothing is released and the signals are emitted.
- `SaveHistory.SaveHistoryTask.Execute`: does not model the message box for an invalid URL. It also omits the dialog itself: its creation, caption, MIME filter setup and deferred deletion. The caption reads the session's title through its pointer without a null check, and that dereference is not modelled.
- `SaveHistory.SaveHistoryTask.Execute`: the transfer jobs (`KIO::put` and its permission, overwrite and progress arguments) belong to the transfer system. The model takes their handles as inputs and assumes they are fresh and distinct.
- `SaveHistory.SaveHistoryTask.JobDataRequested`: the source's lookup default-inserts an entry for an unknown job. The model instead requires the job to be registered.
- `ExportProtocol.Serve`: `writeToStream` and the HTML and plain-text decoders are foreign code. A chunk records which decoder rendered which line range, not the bytes.
- `ExportProtocol.Serve`: `lastLineFetched + 500` is computed on unbounded integers. 32-bit overflow is out of reach for real history sizes.
- Scheduled deletion is recorded as a signal. When `deleteLater()` actually runs is event-loop timing and is not modelled.
- The search itself (`findTextBegin`, `findTextNext`, regular-expression matching) belongs to the emulation, which is not part of this model. The names of the three flags passed to `findTextNext` follow their position in the call. `foundMatch` is never emitted, and `SearchHistoryTask` never emits `completed()`.
- The controller's other parts are UI glue: menus and actions, popup menus, event filtering, the search bar and filters, font resizing, the title text a title update sets, URL and process inspection (`url()`, `debugProcess()`, `openUrl()`), and the history and session dialogs.
- `Controller.SessionController.SessionStateChanged`: icon loading and the static activity and silence icon caches are not modelled. Icons are abstract values.
- The notification state values (0 normal, 2 activity, 3 silence) are defined in `Session.h`, which is not part of this model.
