# Apple counter page: session state machine, in Dafny

This project models the client side of the apple-counting web page. A user drops a
video. The page submits it to the analysis service while a fake progress bar climbs.
It hands over to polling once a job id comes back, and polls the job until it
completes or fails. A poller that keeps failing backs off and raises a
"Connection problems" notice. The results panel counts the apples up and shows how
many frames were processed.

Modules (one per component file, one for the API types, one for the notices, and
three for the page: a transition specification, a class, and trace properties):

- `ApiTypes` (`src/types/api.ts`): `AppStatus`, `JobPhase`, `JobResult`, `JobStatus`,
  `SubmitVideoResponse`, and JavaScript truthiness of optional strings.
- `Toasts`: the kinds of notice the page raises. Only the kind and the computed
  description are kept.
- `UploadArea` (`src/components/upload-area.tsx`): the `onDrop` validator and the
  `disabled: isUploading` rule.
- `ProgressCard` (`src/components/progress-card.tsx`): status to title, text and
  colour; progress-bar and arrow visibility.
- `ResultsDisplay` (`src/components/results-display.tsx`): the count-up loop as a
  method with loop invariants, and `framesPercent` as integer round-half-up.
- `IndexSpec` (`src/pages/Index.tsx`): the session as a `SessionState` value.
  There is one transition function per event (`After*`). `SyncPolling` plays the
  polling `useEffect`, which React re-runs only when `jobId` or `status` changed.
  `Inv` is the invariant, and `Step`/`Run` apply events and event sequences.
- `IndexSession` (`src/pages/Index.tsx`): class `Session`. Its fields are the state
  hooks and timer handles. Each event handler updates them in place and is proved
  to give exactly the matching `IndexSpec` transition while keeping `Inv`.
- `IndexProperties`: lemmas about whole event sequences.

Each timer firing and each network completion is an explicit event: the 200 ms
fake-progress tick, the submit settling, the 500 ms hand-off, a poll snapshot, a
poll failure, the 5000 ms connection-problem timeout, a drop on the upload area and
the "Analyze Another Video" click. The poll interval is a field, `Stopped` or
`Every(3000)` / `Every(8000)`. An event whose timer is not armed, or whose call is
not in flight, leaves the state unchanged. The click is possible only where the page
renders the button, in "completed" with results (Index.tsx:191-195). A drop goes
through the upload area, which is hidden in "completed" and disabled while
"uploading" (Index.tsx:176-181).

Where the code and the intended design differ, the model follows the code:

- A thrown submit does not clear the fake-progress interval. Only the resolve path
  clears it (Index.tsx:41). In "error" the interval keeps raising the progress
  until it reaches 95 (`ThrownSubmitKeepsTicking`).
- `resetAnalysis` itself does not cancel the 500 ms hand-off timeout, the
  fake-progress interval or a submit in flight. Only the poll timers stop, through
  the effect's cleanup. The page calls it only from the results panel, and in every
  state where that panel is shown none of them is running (`ResetFindsNothingRunning`).
- `handleVideoUploaded` does not clear the previous job id.
- After five failures the poll interval goes from 3000 ms to a fixed 8000 ms.
  It does not grow step by step with the error count.
- A "completed" snapshot without a result is a dead end. The upload area is
  hidden in "completed" (Index.tsx:176), and the results panel with its reset
  button needs a result (Index.tsx:191). No event leaves that state
  (`CompletedWithoutResultIsFinal`).

## Model

| member | source | states |
|---|---|---|
| `UploadArea.OnDrop` | src/components/upload-area.tsx:17-39 | exactly one of three outcomes: empty selection, first file not `video/`, or the first file handed over |
| `UploadArea.DropNotice` | src/components/upload-area.tsx:20-36 | a notice is raised exactly when the file is not handed over |
| `UploadArea.Intake` | src/components/upload-area.tsx:41-48 | while uploading the drop zone reaches no handler; otherwise `onDrop` decides |
| `ProgressCard.Describe` | src/components/progress-card.tsx:14-34 | the default title appears exactly for "idle"; the processing line starts with the job-id prefix |
| `ProgressCard.TitlesIdentifyStatus` | src/components/progress-card.tsx:18-34 | the five titles, and the five colours, are pairwise distinct |
| `ProgressCard.OnlyProcessingNamesTheJob` | src/components/progress-card.tsx:18-34 | the job id affects the card only in "processing" |
| `ProgressCard.ProcessingTextEmbedsJobId` | src/components/progress-card.tsx:24 | the processing line carries the job id verbatim after the prefix, or "Unknown" when there is none |
| `ProgressCard.ProgressVisibility` | src/components/progress-card.tsx:36-56 | the bar shows iff "uploading" or "processing"; the arrow shows iff the status is not "idle" |
| `ResultsDisplay.CountStep` | src/components/results-display.tsx:23 | the step is at least 1; from a target of 100 on it is the target's per cent rounded down |
| `ResultsDisplay.FinishTick` | src/components/results-display.tsx:25-33 | the number of callbacks is the first k >= 1 with k * step >= target |
| `ResultsDisplay.ShownMonotone` | src/components/results-display.tsx:26-32 | the displayed count never decreases and never exceeds the target |
| `ResultsDisplay.FinishTickIsFirst` | src/components/results-display.tsx:27-29 | any tick that reaches the target while the previous one did not is the finishing tick |
| `ResultsDisplay.CountUp` | src/components/results-display.tsx:20-33 | the loop runs FinishTick callbacks; each shows min(k * step, target); all but the last are below the target; the last is the target |
| `ResultsDisplay.CountUpIsBounded` | src/components/results-display.tsx:23-29 | the animation ends within 199 callbacks, and within 150 when the target is 200 or more |
| `ResultsDisplay.FramesPercent` | src/components/results-display.tsx:42-43 | the percentage is 100 * processed / total rounded to the nearest integer, halves up |
| `ResultsDisplay.FramesPercentInRange` | src/components/results-display.tsx:42-43 | with processed <= total the percentage is in [0, 100], and 100 when all frames are processed |
| `ResultsDisplay.Render` | src/components/results-display.tsx:17-43 | null results render nothing and start no loop; otherwise the count-up shows min(k * step, target) at callback k for FinishTick callbacks, ending at the apple count, and the percentage is FramesPercent, in range when processed <= total |
| `IndexSpec.SyncPolling` | src/pages/Index.tsx:84-161 | when neither the job id nor the status changed, nothing changes; otherwise the cleanup clears the interval and the retry timeout, and the interval runs again, at 3000 ms, exactly when the job id is truthy and the status is "processing" |
| `IndexSpec.Enabled` | src/pages/Index.tsx:20-195 | a timer fires only while armed and a call settles only while pending; under the invariant a poll completes, fails or is retried only while the effect's guard holds; the reset is possible only in "completed" with results, where the button is rendered |
| `IndexSpec.AfterFileProvided` | src/pages/Index.tsx:20-38 | "uploading", progress 0, no results, error count 0, fake ticks and the submit start, the job id is kept, polling is stopped |
| `IndexSpec.AfterUploadTick` | src/pages/Index.tsx:30-38 | +5 below 95; at 95 or more progress is pinned at 95 and the interval stops; nothing else changes |
| `IndexSpec.AfterSubmit` | src/pages/Index.tsx:40-68 | a truthy job id is stored with progress 100 and the hand-off armed, status unchanged; otherwise "error" with an "Upload failed" notice; only a resolved call stops the fake ticks |
| `IndexSpec.AfterHandoff` | src/pages/Index.tsx:48-51 | "processing", progress 0; polling starts at 3000 ms when a job id is stored, and does not start without one |
| `IndexSpec.AfterSnapshot` | src/pages/Index.tsx:93-122 | the error count is reset; "completed" stores the result, progress 100 and stops polling; "failed" gives "error" with progress untouched; other phases set the progress, or 0 |
| `IndexSpec.AfterPollFailure` | src/pages/Index.tsx:123-134 | the status and all visible state are unchanged; the count grows by one; at 5 the interval stops and the retry timeout is armed |
| `IndexSpec.AfterErrorTimeout` | src/pages/Index.tsx:135-145 | one "Connection problems" notice, count 0, polling resumes every 8000 ms, above the base interval |
| `IndexSpec.AfterReset` | src/pages/Index.tsx:74-81 | "idle", progress 0, no job id, no results, count 0, polling stopped; other timers are not cancelled |
| `IndexSpec.AfterDrop` | src/pages/Index.tsx:176-181 | no drop has any effect while "completed" or "uploading"; otherwise a rejection raises its notice, or the file starts an upload |
| `IndexSpec.FileProvidedPreservesInv` | src/pages/Index.tsx:20-38 | providing a file keeps the invariant |
| `IndexSpec.ResetPreservesInv` | src/pages/Index.tsx:74-81 | `resetAnalysis` keeps the invariant in any state |
| `IndexSpec.StepPreservesInv` | src/pages/Index.tsx:84-160 | every event keeps the invariant: poll timers only while the job id is set and status is "processing", at most one of interval and retry timeout armed, period 3000 or 8000 |
| `IndexSession.Session.constructor` | src/pages/Index.tsx:13-18 | the initial state: "idle", progress 0, nothing stored, no timers |
| `IndexSession.Session.RerunPollingEffect` | src/pages/Index.tsx:84-160 | the effect re-runs only on a change of job id or status: cleanup, then the base interval if polling is wanted |
| `IndexSession.Session.HandleVideoUploaded` | src/pages/Index.tsx:20-38 | updates the fields exactly as AfterFileProvided and keeps the invariant |
| `IndexSession.Session.FakeProgressTick` | src/pages/Index.tsx:30-38 | updates the fields exactly as AfterUploadTick |
| `IndexSession.Session.SubmitSettled` | src/pages/Index.tsx:40-68 | updates the fields exactly as AfterSubmit |
| `IndexSession.Session.HandoffElapsed` | src/pages/Index.tsx:48-51 | updates the fields exactly as AfterHandoff |
| `IndexSession.Session.StatusReceived` | src/pages/Index.tsx:93-122 | updates the fields exactly as AfterSnapshot |
| `IndexSession.Session.StatusFetchFailed` | src/pages/Index.tsx:123-134 | updates the fields exactly as AfterPollFailure |
| `IndexSession.Session.ErrorTimeoutElapsed` | src/pages/Index.tsx:135-145 | updates the fields exactly as AfterErrorTimeout |
| `IndexSession.Session.ResetAnalysis` | src/pages/Index.tsx:74-81 | updates the fields exactly as AfterReset |
| `IndexSession.Session.Drop` | src/pages/Index.tsx:176-181 | reports the `onDrop` outcome, or none when the intake is hidden or disabled, and updates the fields as AfterDrop |
| `IndexProperties.InvAlongTrace` | src/pages/Index.tsx:84-160 | every state reached from an invariant state keeps the invariant |
| `IndexProperties.ReachableStatesKeepInv` | src/pages/Index.tsx:13-18 | every state reachable from the first render keeps the invariant |
| `IndexProperties.FakeProgressClimbs` | src/pages/Index.tsx:30-38 | from a multiple of 5 in [0, 95], n ticks give min(p + 5n, 95), still a multiple of 5; the interval runs while p + 5n <= 95 |
| `IndexProperties.ConnectionNoticesPerBatch` | src/pages/Index.tsx:123-149 | along any trace, 5 * (connection notices added) + final count <= initial count + poll failures: at most one notice per five failures |
| `IndexProperties.FailuresBelowThreshold` | src/pages/Index.tsx:127-131 | fewer than 5 failures only raise the error count |
| `IndexProperties.BackoffAfterFiveFailures` | src/pages/Index.tsx:127-145 | five failures stop polling and arm the retry with status and notices unchanged; the retry raises one notice and polls every 8000 ms |
| `IndexProperties.QuietSessionStaysQuiet` | src/pages/Index.tsx:85 | with no hand-off, poll or retry timer armed and no submit in flight, no event but a drop that hands over a file reaches "processing" or polling; without reset the status stays, so "completed" and "error" are terminal |
| `IndexProperties.RejectedSubmitNeverPolls` | src/pages/Index.tsx:57-62 | a submit without job id, or a thrown one, gives "error"; polling never starts before a new file, and without reset the status stays "error" |
| `IndexProperties.ThrownSubmitKeepsTicking` | src/pages/Index.tsx:30-41 | after a thrown submit the status is "error", and n further fake ticks give min(p + 5n, 95) without changing it; the interval runs while p + 5n <= 95 |
| `IndexProperties.StepPreservesPageInv` | src/pages/Index.tsx:20-81 | every event keeps the page invariant: an armed hand-off means "uploading" with the submit settled and the fake ticks stopped; a submit is in flight only while "uploading"; fake ticks run only in "uploading" or "error" |
| `IndexProperties.ReachableStatesKeepPageInv` | src/pages/Index.tsx:13-18 | every state reachable from the first render keeps the page invariant |
| `IndexProperties.ResetFindsNothingRunning` | src/pages/Index.tsx:191-195 | wherever the page offers "Analyze Another Video", no hand-off, submit, fake progress, poll or retry timer is running, and the reset leaves a quiet "idle" session |
| `IndexProperties.CompletedWithoutResultIsFinal` | src/pages/Index.tsx:176-195 | a reachable "completed" session without a result stays exactly as it is along any sequence of events |
| `IndexProperties.OnlyHandoffStartsProcessing` | src/pages/Index.tsx:48-51 | no event except the hand-off delay moves the status into "processing" |
| `IndexProperties.PollingShowsProcessingCard` | src/components/progress-card.tsx:22-36 | while the poller is active the card shows the bar and names the stored job id |
| `IndexProperties.HappyPathScenario` | src/pages/Index.tsx:40-122 | job "abc123", hand-off, 42 %, then "completed" with 17 apples: progress 100, count-up ends at 17, frames 100 % |
| `IndexProperties.ServerErrorScenario` | src/pages/Index.tsx:60-68 | a submit failing with HTTP 500 gives "error", one "Upload failed" notice, no job id, no polling |

## Left out

- Network I/O in `src/services/api-service.ts`: submit and status calls become event parameters. A resolved body, a thrown error or a failed poll is passed in. The message of a non-ok response is passed in as text, not formatted.
- Real time: the 200, 500, 3000, 5000, 8000 and 15 ms delays are not simulated. Each firing is an explicit event, and the poll period is recorded as a field.
- Async interleaving: stale in-flight responses after a cleanup are not modelled, and neither are overlapping timers of one kind. A second fake-progress interval after a thrown submit is an example. Each timer kind is one flag.
- Toast rendering, titles and variants; `console.log`/`console.error`. Only the notice kinds and computed descriptions are logged.
- JSX and Tailwind markup and `src/components/logo.tsx`: static presentation.
- The drop-zone library's own filtering (`accept: video/*`, `multiple: false`). `onDrop` is modelled on whatever list it receives.
- IndexProperties.ConnectionNoticesPerBatch: proved only under the model's rule that a poll completes or fails while the interval is running. So at most one poll is pending, and none fails after the fifth failure stops the interval. In the source, a poll sent before the fifth failure and answered after it (a server slower than 3000 ms) still fails into the updater. Each such failure raises the count past 5 and arms another 5000 ms timeout (Index.tsx:127-146). Each of those timeouts raises its own "Connection problems" notice and starts its own 8000 ms interval (Index.tsx:135-145). So more than one notice per five failures is possible there.
- IndexSpec.StepPreservesInv: "at most one poll timer, interval or retry timeout" rests on the same rule. In the late-failure case above, the source holds several retry timeouts and intervals. Their handles are overwritten, so the cleanup (Index.tsx:157-160) clears only the last of each.
- ResultsDisplay.FramesPercent: uses integer round-half-up instead of floating-point `Math.round` and division. It requires a positive frame total, so a total of 0 frames (NaN or Infinity in the source) is not modelled.
- The unused `dragActive` state of the upload area.
