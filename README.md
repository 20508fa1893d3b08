# Transcript accumulator of the speech input field

This project models the `Transcribe` component of a push-to-talk speech
transcription overlay for a VR headset. The component turns the voice SDK's
short utterances into one longer running transcript. It has two states,
listening (`Active`) and idle. It owns two text buffers: `fullTranscribe`,
the text finalised so far, and `partialTranscribe`, the utterance still being
recognised. While a session runs, three handlers are attached to the SDK's
notification lists: final transcript, error and partial transcript. Six
inputs drive it:

- the public calls `Activate` and `Deactivate`;
- the SDK's final-transcript, partial-transcript and error notifications;
- the host's focus changes.

Each finalised fragment is joined onto the accumulated text by a
punctuation-repair rule. Either side empty or blank: plain concatenation.
Otherwise: a space after a closing `.`, `!` or `?`, and `". "` after any
other character.

The model has three modules:

- `Punctuation` (punctuation.dfy): the pure rule. It holds `IsWhiteSpace`
  (the exact .NET `char.IsWhiteSpace` set), `IsNullOrWhiteSpace`,
  `EndsWithPunctuation`, `Separator` and `Merge`. It also holds `Accumulate`,
  which folds `Merge` over the fragments of a session, with lemmas that
  merging never loses text.
- `Session` (session.dfy): the component as a state machine over values.
  `State` holds the listening flag, both buffers, the number of times the
  handlers are attached, and the fragments finalised this session. There is
  one step function per handler, giving the new state and the events emitted
  (`Update`, `Finished`, and the SDK requests `SdkStart`, `SdkStop`,
  `SdkRestartNow`). `Apply` and `Run` add the environment. SDK notifications
  reach the handlers only while they are attached. The caller and the host
  may act at any time, including after `Deactivate`, when in-flight SDK
  notifications still arrive.
- `Transcribe` (transcribe.dfy): the class `Transcriber`. Its fields are
  updated in place, statement by statement as in the C# source, and a ghost
  `trace` records what it emits. Each method's postcondition ties the new
  fields and the new trace to the matching step function of `Session`. The
  lemmas about those functions state the properties.

The `if (Active) return;` guard in `Activate` (Transcribe.cs:49-52) does not
prevent a second subscription. `Deactivate` (Transcribe.cs:73-82) leaves the
handlers attached, so `Activate`, `Deactivate`, `Activate` before the terminal
final transcript arrives attaches them twice
(`Session.ReactivateBeforeFinishSubscribesTwice`).

## Model

| member | source | states |
|---|---|---|
| `Punctuation.EndsWithPunctuation` | Assets/Scripts/Transcribe.cs:162-166 | true exactly when the last character is one of `.`, `!`, `?`; it requires a non-empty string, and the verifier checks that `Separator` only calls it after `IsNullOrWhiteSpace` has ruled the empty string out |
| `Punctuation.MergeKeepsText` | Assets/Scripts/Transcribe.cs:98-110 | merging never loses text: the old accumulated text is a prefix of the result, the result ends with the fragment, and its length is the two lengths plus 0, 1 or 2 |
| `Punctuation.MergeWithBlank` | Assets/Scripts/Transcribe.cs:98-110 | when either side is empty or whitespace only, the result is plain concatenation |
| `Punctuation.MergeJoinsSentences` | Assets/Scripts/Transcribe.cs:98-110 | when both sides hold text, the fragment is preceded by a space and that by a terminal mark; one character is inserted after a closing `.`/`!`/`?`, two (`". "`) otherwise |
| `Punctuation.MergeInsertsFullStop` | Assets/Scripts/Transcribe.cs:98-110 | "Hello" + "world" gives "Hello. world" |
| `Punctuation.MergeKeepsPunctuation` | Assets/Scripts/Transcribe.cs:98-110 | "Hello." + "World" gives "Hello. World"; "Hello!" + "World" gives "Hello! World" |
| `Punctuation.MergeBlankExamples` | Assets/Scripts/Transcribe.cs:98-110 | "" + "World" gives "World"; "Hello" + "" gives "Hello"; a blank "  " is concatenated without a separator |
| `Punctuation.AccumulateAppend` | Assets/Scripts/Transcribe.cs:98-110 | finalising one more fragment merges it onto the text accumulated from the earlier ones |
| `Punctuation.AccumulatePrefix` | Assets/Scripts/Transcribe.cs:98-110 | text accumulated from the first fragments of a session is a prefix of the text accumulated after more |
| `Punctuation.KeepsEveryFragment` | Assets/Scripts/Transcribe.cs:98-110 | every fragment finalised in a session occurs verbatim in the accumulated text |
| `Session.ActivateWhileActive` | Assets/Scripts/Transcribe.cs:47-52 | Activate while listening changes no buffer, attaches nothing and requests nothing, so a second Activate adds nothing to the first |
| `Session.ActivateFromIdle` | Assets/Scripts/Transcribe.cs:54-67 | Activate from idle empties both buffers, sets listening, attaches the three handlers once more and issues exactly one SDK start request |
| `Session.DeactivateEffect` | Assets/Scripts/Transcribe.cs:73-82 | Deactivate while idle does nothing; otherwise it clears only the listening flag and issues one SDK stop request, keeping both buffers and the handlers |
| `Session.PartialTranscriptEffect` | Assets/Scripts/Transcribe.cs:128-132 | a partial transcript replaces the partial text, leaves the accumulated text alone and publishes their concatenation |
| `Session.FullTranscriptWhileActive` | Assets/Scripts/Transcribe.cs:89-115 | while listening, a final transcript requests an immediate restart, keeps listening with the handlers attached, merges the fragment, empties the partial text and does not report the session finished |
| `Session.FullTranscriptWhenIdle` | Assets/Scripts/Transcribe.cs:89-120 | when not listening, a final transcript merges the fragment, detaches all handlers and reports finished once, with the final accumulated text, after publishing it; no restart is requested |
| `Session.ErrorFlushesPartial` | Assets/Scripts/Transcribe.cs:59-64 | an SDK error stops the SDK if listening, then finalises with the pending partial text; the session ends idle and detached, and the finished report carries the merged text |
| `Session.FocusEffect` | Assets/Scripts/Transcribe.cs:148-155 | losing focus while listening behaves exactly like an SDK error; losing focus while idle, or gaining it, changes nothing |
| `Session.UpdatesShowRunningText` | Assets/Scripts/Transcribe.cs:137-141 | every published update, whatever the input, equals the accumulated text followed by the partial text |
| `Session.FinishedEndsSession` | Assets/Scripts/Transcribe.cs:114-120 | a finished report is the last event of its step, carries the accumulated text, and leaves the session idle with its handlers detached |
| `Session.ApplyPreservesValid` | Assets/Scripts/Transcribe.cs:47-132 | every input keeps the invariant: the accumulated text is the merge of the fragments finalised this session, and the handlers are attached while listening |
| `Session.RunPreservesValid` | Assets/Scripts/Transcribe.cs:47-155 | any sequence of inputs keeps that invariant |
| `Session.TextNeverLost` | Assets/Scripts/Transcribe.cs:98-111 | until the next Activate, the accumulated text only grows (the old text is a prefix) and the list of finalised fragments only extends |
| `Session.QuietAfterFinish` | Assets/Scripts/Transcribe.cs:117-119 | once finished and detached, late SDK notifications, Deactivate and focus changes change nothing and emit nothing, until a new Activate |
| `Session.FullTranscriptFinishes` | Assets/Scripts/Transcribe.cs:114-120 | a final transcript reports finished once when not listening and never while listening |
| `Session.ApplyFinishesAtMostOnce` | Assets/Scripts/Transcribe.cs:114-120 | one input reports finished at most once, and only when it leaves the session idle and detached |
| `Session.FinishedAtMostOnce` | Assets/Scripts/Transcribe.cs:114-120 | between two Activates, starting with the handlers attached at most once, the finished report is emitted at most once, whatever the SDK, the host or the caller do |
| `Session.ActivateTwiceIsOnce` | Assets/Scripts/Transcribe.cs:47-52 | two Activates in a row have the same state and events as one |
| `Session.DeactivateWhenIdleIsNoOp` | Assets/Scripts/Transcribe.cs:75-78 | Deactivate while idle changes nothing and emits nothing |
| `Session.ContinuousDictation` | Assets/Scripts/Transcribe.cs:89-112 | Activate, partial "he", partial "hello", final "hello": updates "he", "hello", "hello", one restart request, still listening with "hello" accumulated |
| `Session.StopThenLateFinal` | Assets/Scripts/Transcribe.cs:73-120 | Activate, final "hello", Deactivate, final "world", partial "late": "hello. world" is reported finished exactly once, the handlers are detached, and the late partial publishes nothing |
| `Session.ErrorScenario` | Assets/Scripts/Transcribe.cs:59-64 | with "hello" accumulated and "par" pending, an SDK error stops the SDK and reports "hello. par" finished |
| `Session.FocusLossScenario` | Assets/Scripts/Transcribe.cs:148-155 | the same run with a focus loss instead of the error gives the same state and events |
| `Session.ReactivateBeforeFinishSubscribesTwice` | Assets/Scripts/Transcribe.cs:54-67 | Activate, Deactivate, Activate leaves the handlers attached twice |
| `Transcribe.Transcriber.constructor` | Assets/Scripts/Transcribe.cs:13-19 | a new transcriber is idle, with empty buffers, no handlers attached and nothing emitted |
| `Transcribe.Transcriber.Activate` | Assets/Scripts/Transcribe.cs:47-68 | the new fields and the emitted events are those of `Session.Activate` on the old fields |
| `Transcribe.Transcriber.Deactivate` | Assets/Scripts/Transcribe.cs:73-82 | the new fields and the emitted events are those of `Session.Deactivate` |
| `Transcribe.Transcriber.OnFullTranscript` | Assets/Scripts/Transcribe.cs:89-121 | the in-place separator and append steps leave `fullTranscribe` equal to `Merge` of the old text and the fragment; fields and events are those of `Session.FullTranscript` |
| `Transcribe.Transcriber.OnPartialTranscript` | Assets/Scripts/Transcribe.cs:128-132 | fields and events are those of `Session.PartialTranscript` |
| `Transcribe.Transcriber.UpdateText` | Assets/Scripts/Transcribe.cs:137-141 | emits exactly one update carrying `fullTranscribe + partialTranscribe` and changes no buffer |
| `Transcribe.Transcriber.OnError` | Assets/Scripts/Transcribe.cs:59-64 | running Deactivate and then the final-transcript handler on the pending partial text gives the fields and events of `Session.Error` |
| `Transcribe.Transcriber.OnApplicationFocus` | Assets/Scripts/Transcribe.cs:148-155 | fields and events are those of `Session.ApplicationFocus` |

## Left out

- The UI toggle (Assets/Scripts/SpeechToTextInputField.cs) and the controller and keyboard polling (Assets/Scripts/TestActivate.cs) are not part of this model. They are host glue: button rebinding, indicator colour and label text.
- The voice SDK: audio capture, recognition, and what its activate, deactivate and immediate-reactivate calls do. They appear only as the requests `SdkStart`, `SdkStop` and `SdkRestartNow` in the trace.
- Unity lifecycle and component lookup (`Start`, `GetComponent`). The SDK component is assumed to be present.
- The warning logged on an SDK error. `OnError` takes the error code and message and ignores them.
- `Session.FinishedAtMostOnce`: holds only from a state with the handlers attached at most once. With two copies attached (see `Session.ReactivateBeforeFinishSubscribesTwice`), each copy of the final-transcript handler would merge the fragment and report finished, so the source can report twice; the model delivers each notification once and does not capture that.
- Delivery of one SDK notification to several attached copies of a handler. `Apply` delivers each notification once while at least one copy is attached. What Unity's event lists do with two copies is not modelled.
- Subscribers of the update and finished callbacks. Every invocation is recorded in the trace, whether or not anyone listens.
- Null strings. `fullTranscribe` and `partialTranscribe` start as `""` instead of C#'s `null`. No handler can be reached before the first `Activate`, and `Activate` sets both buffers to empty.
- The object invariant of `Transcriber` covers only "attached while listening". That the accumulated text is the merge of the session's fragments is proved of the step functions the methods are tied to (`Session.RunPreservesValid`), not carried as an object invariant.
