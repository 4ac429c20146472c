# Voice_app answer screen, modelled in Dafny

The app has one screen. The user types or speaks a question, the screen sends it to
the Wolfram|Alpha engine, and the answer "pods" are listed as (title, content) rows.
Tapping a row makes text-to-speech read that row's content aloud. This project models
the screen's state and event handlers (`MainActivity`), with the answer handling of
`askWolframe` at its centre, and proves what each handler does to that state.

- `wolfram_alpha.dfy`, module `WolframAlpha`: the SDK values the screen reads. A
  query outcome is `Returned(result)` or `Threw(message)`. A result has `isError`,
  `errorMessage`, `isSuccess` and `pods`. A pod has `isError`, `title` and `subpods`.
  A sub-pod holds content elements. An element is `PlainText(text)` or `Other`.
- `answers.dfy`, module `Answers`: the specification of a successful answer.
  `PodContent` is the plain text of a pod. `EntriesOf` lists the entries of the pods
  not flagged as an error, in response order. `Reversed` gives the order on screen.
  `BuildContent` is the string-builder loop, proved equal to `PodContent`. The lemmas
  state what these functions promise.
- `screen.dfy`, module `Screen`: class `MainActivity`. Its fields are the answer list
  `pods`, `ttsIsReady`, the input field's text and error marker, and the progress
  bar's visibility. Three logs record calls to the platform, oldest first: the
  Snackbar messages shown (`notices`), the calls made on the text-to-speech engine
  (`speech`) and the inputs of the queries sent to the engine (`requests`).
  `refreshes` counts `notifyDataSetChanged` calls. Each handler's `modifies` clause
  names exactly the fields it may change, so every other field is unchanged. Module
  `Scenarios` runs the handlers from a fresh screen on concrete answers.

Constants come from the source and the Android platform: `TextToSpeech.SUCCESS` is 0,
`Activity.RESULT_OK` is -1 and the voice request code is 777. The texts of the
string resources are in the app's resource files, which are not part of this model.
A message is therefore either literal text or a resource id (`StringRes`).

Two points where the model follows the code closely:

- The first transcribed alternative is taken with `get(0)`, which throws when the
  list is empty. `OnActivityResult` reports this as `threw`, and the state is then
  unchanged.
- The stop menu item is modelled: it stops speech only when TTS is ready.

## Model

| member | source | states |
|---|---|---|
| `Answers.BuildContent` | app/src/main/java/github/com/MainActivity.kt:184-191 | the nested loops over sub-pods and elements build exactly `PodContent(pod)` |
| `Answers.PlainTextAppend` | app/src/main/java/github/com/MainActivity.kt:186-190 | the text of two runs of elements is the first run's text followed by the second's, with no delimiter |
| `Answers.OtherContributesNothing` | app/src/main/java/github/com/MainActivity.kt:187-189 | removing a non-plain-text element from any position leaves the text the same |
| `Answers.NoPlainTextIsEmpty` | app/src/main/java/github/com/MainActivity.kt:186-190 | elements that include no plain text yield the empty string |
| `Answers.SubpodsTextAppend` | app/src/main/java/github/com/MainActivity.kt:185-191 | the text of two runs of sub-pods is the first run's text followed by the second's |
| `Answers.PodContentIsFlatText` | app/src/main/java/github/com/MainActivity.kt:184-191 | a pod's content is the plain text of all its elements across its sub-pods, in order; sub-pod boundaries add nothing |
| `Answers.SubpodsTextIsFlatText` | app/src/main/java/github/com/MainActivity.kt:185-191 | the text of a run of sub-pods is the plain text of all their elements taken in order |
| `Answers.NoPlainTextPodIsEmpty` | app/src/main/java/github/com/MainActivity.kt:184-191 | a pod with no plain-text element in any sub-pod has empty content |
| `Answers.NoPlainTextSubpodsEmpty` | app/src/main/java/github/com/MainActivity.kt:185-191 | sub-pods with no plain-text element yield the empty string |
| `Answers.EntriesAppend` | app/src/main/java/github/com/MainActivity.kt:182-197 | the entries of two runs of pods are the first run's entries followed by the second's, in response order |
| `Answers.ErrorPodAddsNothing` | app/src/main/java/github/com/MainActivity.kt:183 | a pod flagged as an error adds no entry, and the pods around it keep their relative order |
| `Answers.EntriesCount` | app/src/main/java/github/com/MainActivity.kt:182-197 | the number of entries equals the number of non-error pods; it equals the number of pods exactly when no pod is flagged |
| `Answers.EntriesWithoutErrors` | app/src/main/java/github/com/MainActivity.kt:182-197 | when no pod is flagged, entry k has the title and content of pod k |
| `Answers.ReversedAt` | app/src/main/java/github/com/MainActivity.kt:193 | the reversed sequence has the same length, and its element k is element length-1-k of the original |
| `Answers.NewestOnTop` | app/src/main/java/github/com/MainActivity.kt:182-197 | with the reversed entries on top of the old list, row k from the top is the k-th entry counted from the end of the response, and the old rows follow in their old order |
| `Screen.MainActivity.constructor` | app/src/main/java/github/com/MainActivity.kt:35-37 | a new screen has an empty list, TTS not ready, no request, notice or speech |
| `Screen.MainActivity.OnOptionsItemSelected` | app/src/main/java/github/com/MainActivity.kt:45-63 | stop sends a stop command only when TTS is ready; clear empties the input text and the list and refreshes once; only these two items are handled; nothing else changes |
| `Screen.MainActivity.OnEditorAction` | app/src/main/java/github/com/MainActivity.kt:92-101 | Done empties the list and refreshes, then asks the input text (progress shown, the request sent); any other action changes nothing |
| `Screen.MainActivity.OnItemClick` | app/src/main/java/github/com/MainActivity.kt:112-120 | when TTS is ready, the tapped row's content is spoken with its title as utterance id; otherwise nothing happens |
| `Screen.MainActivity.OnVoiceButton` | app/src/main/java/github/com/MainActivity.kt:123-130 | the list is emptied and refreshed, speech is stopped when TTS is ready, and a failed launch of the voice dialog shows its message or the fallback |
| `Screen.MainActivity.OnActivityResult` | app/src/main/java/github/com/MainActivity.kt:67-76 | with the voice request code, RESULT_OK and a result list, the first alternative becomes the input text and is asked; an empty list throws and changes nothing; any other result changes nothing |
| `Screen.MainActivity.OnTtsInit` | app/src/main/java/github/com/MainActivity.kt:213-222 | the ready flag becomes true exactly on SUCCESS and is never reset; any other code shows the not-ready notice |
| `Screen.MainActivity.Ask` | app/src/main/java/github/com/MainActivity.kt:155-166 | asking shows the progress bar and sends the request text to the engine |
| `Screen.MainActivity.OnQueryCompleted` | app/src/main/java/github/com/MainActivity.kt:166-209 | progress is hidden on every path. A thrown call shows its message or the fallback. An error result shows its error message; it is checked before the success flag. A result that is not a success only marks the input as not understood. A success puts the reversed non-error entries on top of the old list and refreshes once. On every error path the list and the refresh count stay unchanged |
| `Scenarios.FortyTwoEntries` | app/src/main/java/github/com/MainActivity.kt:182-197 | one pod "Result" whose only element is the plain text "42" yields exactly the entry ("Result", "42") |
| `Scenarios.AnswerFortyTwo` | app/src/main/java/github/com/MainActivity.kt:182-200 | a typed question answered by that pod leaves the list as exactly [("Result", "42")] |
| `Scenarios.NotUnderstood` | app/src/main/java/github/com/MainActivity.kt:92-180 | after an answer is listed, a new typed question whose result is neither an error nor a success marks the input, shows no notice, and leaves the list empty: the submission cleared the earlier answer |
| `Scenarios.Timeout` | app/src/main/java/github/com/MainActivity.kt:203-208 | a call that throws with "timeout" shows exactly "timeout", hides the progress bar and leaves the list empty |
| `Scenarios.TapBeforeAndAfterTtsInit` | app/src/main/java/github/com/MainActivity.kt:112-120 | a tap before TTS is ready sends nothing; after SUCCESS the same tap speaks "42" under the title "Result" |

## Left out

- The coroutine hop to `Dispatchers.IO` and back to `Dispatchers.Main` (lines 159, 169, 204) is not modelled. `OnQueryCompleted` is one atomic step, and it is not matched to a request. So two queries in flight that race to update the list are not modelled.
- The `WAEngine` network call, its set-up, its format and its app id (lines 135-140, 161-166) are not modelled. They are SDK calls and I/O, so the outcome of `performQuery` is an input to `OnQueryCompleted`.
- The speech-recognition intent (lines 226-234) is not modelled beyond its launch outcome. `OnVoiceButton` gets that outcome as an input. The recogniser's work is platform I/O.
- `OnActivityResult` does not model a null string inside the list of alternatives, which Kotlin's `?.let` would skip.
- Audio output, `textToSpeech.language` (line 223), Snackbar display and dismissal, menu inflation, view lookup, logging and progress-bar rendering are not modelled. They are platform calls, so they appear only as the logs and flags above.
- Screen.MainActivity.OnOptionsItemSelected: for other menu items it only reports the item as unhandled. What `super.onOptionsItemSelected` does on the platform is not modelled.
- Screen.MainActivity.constructor: the layout file sets the progress bar's initial visibility, and that file is not part of this model. The constructor assumes the bar starts hidden.
- The platform may clear the error marker on the input field when the text is edited. That is not modelled: only `OnQueryCompleted` sets the marker, and nothing clears it.
- The return value of the editor-action listener is not modelled. It is always false, which lets the keyboard hide itself.
- A null `errorMessage` from the SDK is not modelled. The message is a string.
- The `HashMap` rows with keys "Tittle" and "Content" are modelled as an `Entry(title, content)` record.
