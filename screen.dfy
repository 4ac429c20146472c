/** The single screen of the app: its mutable state and the event handlers that
    change it. Platform services are represented by what the screen sends them:
    the notices shown in a Snackbar, the commands given to the text-to-speech
    engine and the inputs of the queries handed to the Wolfram|Alpha engine. */
module Screen {
  import opened WolframAlpha
  import opened Answers

  /** String resources the screen shows; their text lives in the app's resource files. */
  datatype StringRes = ErrorDoNotUnderstand | ErrorSomethingWentWrong | ErrorTtsIsNotReady | ErrorVoiceRecognizeUnavailable

  /** A message shown to the user: literal text, or a string resource. */
  datatype Message = Text(s: string) | Res(id: StringRes)

  /** A call made on the text-to-speech engine: speak with flush semantics, or stop. */
  datatype SpeechCommand = Speak(text: string, utteranceId: string) | StopSpeaking

  datatype MenuItem = ActionStop | ActionClear | OtherItem

  datatype ImeAction = ActionDone | OtherAction

  /** What starting the speech-recognition activity did: started, or threw. */
  datatype Launch = Started | LaunchFailed(message: Option<string>)

  /** `TextToSpeech.SUCCESS` */
  const TtsSuccess: int := 0
  /** `Activity.RESULT_OK` */
  const ResultOk: int := -1
  /** The request code the voice dialog is started with. */
  const VoiceCodeRequest: int := 777

  /** The message of a thrown exception, or the given fallback when it has none. */
  function MessageOr(message: Option<string>, fallback: StringRes): Message {
    match message
    case Some(s) => Text(s)
    case None => Res(fallback)
  }

  class MainActivity {
    /** The answer list shown by the list view, top row first. */
    var pods: seq<Entry>
    var ttsIsReady: bool
    /** The text of the request input field and the error marker set on it. */
    var inputText: string
    var inputError: Option<Message>
    var progressVisible: bool
    /** Every Snackbar shown, oldest first. */
    var notices: seq<Message>
    /** Every call made on the text-to-speech engine, oldest first. */
    var speech: seq<SpeechCommand>
    /** The input of every query handed to the engine, oldest first. */
    var requests: seq<string>
    /** How often the list adapter was told that its data changed. */
    var refreshes: nat

    /** The state right after `onCreate`: empty list, TTS not yet initialised. */
    constructor ()
      ensures pods == [] && !ttsIsReady && inputText == "" && inputError == None
      ensures !progressVisible && notices == [] && speech == [] && requests == [] && refreshes == 0
    {
      pods := [];
      ttsIsReady := false;
      inputText := "";
      inputError := None;
      progressVisible := false;
      notices := [];
      speech := [];
      requests := [];
      refreshes := 0;
    }

    /** Toolbar menu: stop speaking (only when TTS is ready), or clear the input
        and the answer list. Any other item is left to the platform. */
    method OnOptionsItemSelected(item: MenuItem) returns (handled: bool)
      modifies this`speech, this`inputText, this`pods, this`refreshes
      ensures handled <==> item != OtherItem
      ensures speech == if item == ActionStop && ttsIsReady then old(speech) + [StopSpeaking] else old(speech)
      ensures item == ActionClear ==> inputText == "" && pods == [] && refreshes == old(refreshes) + 1
      ensures item != ActionClear ==> inputText == old(inputText) && pods == old(pods) && refreshes == old(refreshes)
    {
      match item
      case ActionStop =>
        if ttsIsReady {
          speech := speech + [StopSpeaking];
        }
        handled := true;
      case ActionClear =>
        inputText := "";
        pods := [];
        refreshes := refreshes + 1;
        handled := true;
      case OtherItem =>
        handled := false;
    }

    /** The keyboard's action on the input field: Done clears the list, then asks
        the engine the field's text. */
    method OnEditorAction(action: ImeAction)
      modifies this`pods, this`refreshes, this`progressVisible, this`requests
      ensures action == ActionDone ==>
        pods == [] && refreshes == old(refreshes) + 1 && progressVisible && requests == old(requests) + [inputText]
      ensures action != ActionDone ==>
        pods == old(pods) && refreshes == old(refreshes) && progressVisible == old(progressVisible) && requests == old(requests)
    {
      if action == ActionDone {
        pods := [];
        refreshes := refreshes + 1;
        Ask(inputText);
      }
    }

    /** A tap on a row speaks that row's content, with its title as utterance id,
        only when TTS is ready. */
    method OnItemClick(position: nat)
      requires position < |pods|
      modifies this`speech
      ensures ttsIsReady ==> speech == old(speech) + [Speak(pods[position].content, pods[position].title)]
      ensures !ttsIsReady ==> speech == old(speech)
    {
      if ttsIsReady {
        var title := pods[position].title;
        var content := pods[position].content;
        speech := speech + [Speak(content, title)];
      }
    }

    /** The voice button clears the list, stops speech when TTS is ready, and starts
        the speech-recognition activity; a failure to start it is shown. */
    method OnVoiceButton(launch: Launch)
      modifies this`pods, this`refreshes, this`speech, this`notices
      ensures pods == [] && refreshes == old(refreshes) + 1
      ensures speech == if ttsIsReady then old(speech) + [StopSpeaking] else old(speech)
      ensures notices == match launch
                         case Started => old(notices)
                         case LaunchFailed(m) => old(notices) + [MessageOr(m, ErrorVoiceRecognizeUnavailable)]
    {
      pods := [];
      refreshes := refreshes + 1;
      if ttsIsReady {
        speech := speech + [StopSpeaking];
      }
      match launch
      case Started =>
      case LaunchFailed(m) =>
        notices := notices + [MessageOr(m, ErrorVoiceRecognizeUnavailable)];
    }

    /** The recogniser's answer: on the voice request code with RESULT_OK and a list
        of alternatives, the first one becomes the input text and is asked. Taking
        the first element of an empty list throws; `threw` reports that, and then
        nothing has changed. */
    method OnActivityResult(requestCode: int, resultCode: int, results: Option<seq<string>>) returns (threw: bool)
      modifies this`inputText, this`progressVisible, this`requests
      ensures var asks := requestCode == VoiceCodeRequest && resultCode == ResultOk && results.Some?;
              && (threw <==> asks && results.value == [])
              && (asks && !threw ==>
                    inputText == results.value[0] && progressVisible && requests == old(requests) + [results.value[0]])
              && (!asks || threw ==>
                    inputText == old(inputText) && progressVisible == old(progressVisible) && requests == old(requests))
    {
      threw := false;
      if requestCode == VoiceCodeRequest && resultCode == ResultOk {
        match results
        case None =>
        case Some(alternatives) =>
          if alternatives == [] {
            threw := true;
          } else {
            var question := alternatives[0];
            inputText := question;
            Ask(question);
          }
      }
    }

    /** The TTS initialisation callback: ready on SUCCESS, otherwise a notice. Nothing
        ever resets the flag. */
    method OnTtsInit(code: int)
      modifies this`ttsIsReady, this`notices
      ensures ttsIsReady == (old(ttsIsReady) || code == TtsSuccess)
      ensures notices == if code == TtsSuccess then old(notices) else old(notices) + [Res(ErrorTtsIsNotReady)]
    {
      if code != TtsSuccess {
        notices := notices + [Res(ErrorTtsIsNotReady)];
      } else {
        ttsIsReady := true;
      }
    }

    /** Starting a query: the progress bar shows and the request goes to the engine. */
    method Ask(request: string)
      modifies this`progressVisible, this`requests
      ensures progressVisible && requests == old(requests) + [request]
    {
      progressVisible := true;
      requests := requests + [request];
    }

    /** The completion of a query, as one step on the UI thread. The progress bar is
        hidden on every path; then exactly one of: the call threw (its message or a
        fallback is shown), the result is an error (its message is shown), the result
        is not a success (the input is marked as not understood), or each pod not
        flagged as an error is inserted at the top of the list in response order and
        the adapter is refreshed once. */
    method OnQueryCompleted(outcome: QueryOutcome)
      modifies this`progressVisible, this`notices, this`inputError, this`pods, this`refreshes
      ensures !progressVisible
      ensures outcome.Threw? ==>
        && notices == old(notices) + [MessageOr(outcome.message, ErrorSomethingWentWrong)]
        && inputError == old(inputError) && pods == old(pods) && refreshes == old(refreshes)
      ensures outcome.Returned? && outcome.result.isError ==>
        && notices == old(notices) + [Text(outcome.result.errorMessage)]
        && inputError == old(inputError) && pods == old(pods) && refreshes == old(refreshes)
      ensures outcome.Returned? && !outcome.result.isError && !outcome.result.isSuccess ==>
        && inputError == Some(Res(ErrorDoNotUnderstand))
        && notices == old(notices) && pods == old(pods) && refreshes == old(refreshes)
      ensures outcome.Returned? && !outcome.result.isError && outcome.result.isSuccess ==>
        && pods == Reversed(EntriesOf(outcome.result.pods)) + old(pods)
        && refreshes == old(refreshes) + 1
        && notices == old(notices) && inputError == old(inputError)
    {
      match outcome
      case Threw(message) =>
        progressVisible := false;
        notices := notices + [MessageOr(message, ErrorSomethingWentWrong)];
      case Returned(result) =>
        progressVisible := false;
        if result.isError {
          notices := notices + [Text(result.errorMessage)];
          return;
        }
        if !result.isSuccess {
          inputError := Some(Res(ErrorDoNotUnderstand));
          return;
        }
        var ps := result.pods;
        var i := 0;
        while i < |ps|
          modifies this`pods
          invariant 0 <= i <= |ps|
          invariant pods == Reversed(EntriesOf(ps[..i])) + old(pods)
        {
          var pod := ps[i];
          ghost var done := EntriesOf(ps[..i]);
          EntriesAppend(ps[..i], [pod]);
          assert ps[..i + 1] == ps[..i] + [pod];
          assert EntriesOf([pod]) == if pod.isError then [] else [ToEntry(pod)];
          if !pod.isError {
            var content := BuildContent(pod);
            pods := [Entry(pod.title, content)] + pods;
            assert (done + [ToEntry(pod)])[..|done|] == done;
          } else {
            assert done + [] == done;
          }
          i := i + 1;
        }
        assert ps[..i] == ps;
        refreshes := refreshes + 1;
    }
  }
}

/** Concrete runs of the screen, from a fresh state, as a caller sees them through
    the handlers' contracts alone. */
module Scenarios {
  import opened WolframAlpha
  import opened Answers
  import opened Screen

  function FortyTwo(): QueryResult {
    QueryResult(false, "", true, [Pod(false, "Result", [SubPod([PlainText("42")])])])
  }

  /** The one pod "Result" with the plain text "42" yields exactly one entry. */
  lemma FortyTwoEntries()
    ensures Reversed(EntriesOf(FortyTwo().pods)) == [Entry("Result", "42")]
  {
    var pod := FortyTwo().pods[0];
    assert PlainTextOf([PlainText("42")]) == "42" by {
      assert [PlainText("42")][1..] == [];
    }
    assert PodContent(pod) == "42" by {
      assert pod.subpods[1..] == [];
    }
    assert EntriesOf(FortyTwo().pods) == [Entry("Result", "42")] by {
      assert FortyTwo().pods[1..] == [];
    }
    assert [Entry("Result", "42")][..0] == [];
  }

  /** A typed question answered by one pod "Result" holding the plain text "42". */
  method AnswerFortyTwo() returns (list: seq<Entry>)
    ensures list == [Entry("Result", "42")]
  {
    var screen := new MainActivity();
    screen.OnEditorAction(ActionDone);
    screen.OnQueryCompleted(Returned(FortyTwo()));
    FortyTwoEntries();
    list := screen.pods;
  }

  /** After an answer is listed, a new typed question whose answer is neither an
      error nor a success marks the input field and leaves the list empty: the
      submission cleared the earlier answer and nothing brings it back. */
  method NotUnderstood() returns (earlier: seq<Entry>, error: Option<Message>, list: seq<Entry>, shown: seq<Message>)
    ensures earlier == [Entry("Result", "42")]
    ensures error == Some(Res(ErrorDoNotUnderstand)) && list == [] && shown == []
  {
    var screen := new MainActivity();
    screen.OnEditorAction(ActionDone);
    screen.OnQueryCompleted(Returned(FortyTwo()));
    FortyTwoEntries();
    earlier := screen.pods;
    screen.OnEditorAction(ActionDone);
    screen.OnQueryCompleted(Returned(QueryResult(false, "", false, [])));
    error, list, shown := screen.inputError, screen.pods, screen.notices;
  }

  /** A call that throws with the message "timeout" shows exactly that message. */
  method Timeout() returns (shown: seq<Message>, list: seq<Entry>, busy: bool)
    ensures shown == [Text("timeout")] && list == [] && !busy
  {
    var screen := new MainActivity();
    screen.OnEditorAction(ActionDone);
    screen.OnQueryCompleted(Threw(Some("timeout")));
    shown, list, busy := screen.notices, screen.pods, screen.progressVisible;
  }

  /** A tap before TTS is ready says nothing; after a successful initialisation the
      same tap speaks the row's content under its title. */
  method TapBeforeAndAfterTtsInit() returns (before: seq<SpeechCommand>, after: seq<SpeechCommand>)
    ensures before == [] && after == [Speak("42", "Result")]
  {
    var screen := new MainActivity();
    screen.OnEditorAction(ActionDone);
    screen.OnQueryCompleted(Returned(FortyTwo()));
    FortyTwoEntries();
    screen.OnItemClick(0);
    before := screen.speech;
    screen.OnTtsInit(TtsSuccess);
    screen.OnItemClick(0);
    after := screen.speech;
  }
}
