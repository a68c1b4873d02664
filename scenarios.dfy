/** Runs of the service and the component from a fresh mount, each stating
    what a user or the platform would observe. They show behaviour that
    follows from the code as written: a restart that does not happen after
    a stop that succeeds, a language phrase that is still sent as a query,
    two queries in flight at once, a greeting whose wait is taken over by a
    deferred `speak`. */
module Scenarios {
  import opened Text
  import opened Options
  import opened Speech
  import opened AIProxy
  import opened Assistant

  /** A transcript that is already trimmed and lowered, as the service
      hands transcripts on. */
  predicate IsPlain(t: string) {
    IsTrimmed(t) && ToLower(t) == t
  }

  /** A plain transcript is handed on as it is, and at two characters or
      more it is no noise. */
  lemma PlainTranscript(t: string)
    requires IsPlain(t) && |t| >= 2
    ensures TranscriptText(t) == t && !IsNoise(t)
  {
    TrimOfTrimmed(t);
  }

  /** "speak arabic" is plain, and in an English session it asks for Arabic. */
  lemma SpeakArabicIsCommand()
    ensures IsPlain(SpeakArabic) && |SpeakArabic| >= 2
    ensures LanguageCommand(SpeakArabic, EnUS) == Some(ArLB)
  {
    assert ToLower(SpeakArabic) == SpeakArabic;
    ContainsAt(SpeakArabic, SpeakArabic, 0);
  }

  /** `startListening` while listening stops the recognizer and schedules a
      restart; when the recognizer's `onend` comes first, it drops that
      restart, so listening is over and nothing starts again. */
  method RestartDroppedByEnd() returns (log: seq<PlatformCall>, listening: bool, pending: bool)
    ensures log == [StartRecognition, StopRecognition] && !listening && !pending
  {
    var service := new SpeechService(true);
    var fired := service.StartListening(false, false);
    service.RecognitionStarted();
    fired := service.StartListening(false, false);
    assert service.restartPending;
    service.RecognitionEnded();
    log, listening, pending := service.calls, service.state.isListening, service.restartPending;
  }

  /** When the restart timer fires before `onend` instead, the service still
      believes it is listening, so the restart does nothing; `onend` then
      ends listening. Either way, after a stop that succeeds, the recognizer
      is not started again. */
  method RestartBeforeEnd() returns (log: seq<PlatformCall>, listening: bool, pending: bool)
    ensures log == [StartRecognition, StopRecognition] && !listening && !pending
  {
    var service := new SpeechService(true);
    var fired := service.StartListening(false, false);
    service.RecognitionStarted();
    fired := service.StartListening(false, false);
    fired := service.RestartTimerFired(false);
    service.RecognitionEnded();
    log, listening, pending := service.calls, service.state.isListening, service.restartPending;
  }

  /** A stop that throws clears the listening flag at once, so the restart
      timer does start the recognizer again. */
  method FailedStopRestarts() returns (log: seq<PlatformCall>, pending: bool)
    ensures log == [StartRecognition, StopRecognition, StartRecognition] && !pending
  {
    var service := new SpeechService(true);
    var fired := service.StartListening(false, false);
    service.RecognitionStarted();
    fired := service.StartListening(false, true);
    fired := service.RestartTimerFired(false);
    log, pending := service.calls, service.restartPending;
  }

  /** A phrase that asks for a language switch, heard in an English
      session, is still sent to the dispatcher as a query, and the language
      stays English: the result handler never looks for commands.
      `SpeakArabicIsCommand` gives such a phrase. */
  method LanguagePhraseIsDispatched(hour: int, phrase: string) returns (requests: seq<ProxyRequest>, language: Language)
    requires IsPlain(phrase) && |phrase| >= 2 && LanguageCommand(phrase, EnUS).Some?
    ensures requests == [RequestFor(phrase, EnUS)] && language == EnUS
  {
    var service := new SpeechService(true);
    var assistant := new VoiceAssistant(service, hour);
    PlainTranscript(phrase);
    assistant.RecognitionResult(true, phrase);
    requests, language := assistant.inFlight, assistant.currentLanguage;
  }

  /** A click while a query is still in flight clears the processing guard
      and starts a new session, whose final result sends a second query
      before the first has settled. */
  method OverlappingQueries(hour: int, first: string, second: string) returns (requests: seq<ProxyRequest>, processing: bool)
    requires IsPlain(first) && |first| >= 2 && IsPlain(second) && |second| >= 2
    ensures requests == [RequestFor(first, EnUS), RequestFor(second, EnUS)]
    ensures processing
  {
    var service := new SpeechService(true);
    var assistant := new VoiceAssistant(service, hour);
    PlainTranscript(first);
    PlainTranscript(second);
    assistant.HandleBlobClick(false, false);
    assistant.RecognitionStarted();
    assistant.RecognitionResult(true, first);
    assistant.RecognitionEnded();
    assert assistant.blobState == Responding;
    assistant.HandleBlobClick(false, false);
    assistant.RecognitionStarted();
    assistant.RecognitionResult(true, second);
    requests, processing := assistant.inFlight, assistant.isProcessing;
  }

  /** A query met by a 503 on both attempts: the dispatcher throws, the
      component catches it, says the processing apology and idles. */
  method OverloadedQuerySpeaksApology(hour: int, query: string, voices: seq<Voice>)
    returns (outcome: Outcome, said: seq<PlatformCall>, blob: BlobState)
    requires IsPlain(query) && |query| >= 2 && voices != []
    ensures outcome == Threw(Overloaded) && blob == Idle
    ensures said == [CancelSpeech, SpeakUtterance(SpeechService.ChosenUtterance(ProcessingErrorMessage(EnUS), EnUS, voices))]
  {
    var service := new SpeechService(true);
    var assistant := new VoiceAssistant(service, hour);
    PlainTranscript(query);
    assistant.RecognitionResult(true, query);
    AllOverloadedThrows(RequestFor(query, EnUS), SecondaryFailure);
    var calls := service.calls;
    assert calls == [];
    outcome := assistant.SettleRequest(0, [Status503, Status503], SecondaryFailure, voices);
    assert outcome == Threw(Overloaded);
    assert service.calls == calls + service.SpeakCalls(ProcessingErrorMessage(EnUS), EnUS, voices);
    said, blob := service.calls, assistant.blobState;
  }

  /** Mounted in the evening with no voice list: the greeting waits for it, is said
      in English when it comes, and the greet-once flag is then set. */
  method GreetInTheEvening(hour: int, voices: seq<Voice>) returns (said: seq<PlatformCall>, greeted: bool, blob: BlobState)
    requires 17 <= hour < 24 && voices != []
    ensures said == [CancelSpeech, SpeakUtterance(SpeechService.ChosenUtterance(EveningGreeting, EnUS, voices))]
    ensures greeted && blob == Idle
  {
    var service := new SpeechService(true);
    var assistant := new VoiceAssistant(service, hour);
    assistant.GreetingTimerFired([]);
    assistant.VoicesChanged(voices);
    assistant.GreetingFinished();
    said, greeted, blob := service.calls, assistant.hasGreeted, assistant.blobState;
  }

  /** The greeting and a deferred `speak` share the synthesizer's single
      voices-changed slot: a language chosen while the greeting waits takes
      the slot, its confirmation is said when the voices come, and the
      greeting is not said then; it is still waiting. */
  method GreetingSkippedByDeferredSpeak(hour: int, voices: seq<Voice>) returns (said: seq<PlatformCall>, greeted: bool, phase: GreetingPhase)
    requires voices != []
    ensures said == [CancelSpeech, SpeakUtterance(SpeechService.ChosenUtterance(FrenchConfirmation, FrFR, voices))]
    ensures !greeted && phase == WaitingForVoices
  {
    var service := new SpeechService(true);
    var assistant := new VoiceAssistant(service, hour);
    assistant.GreetingTimerFired([]);
    assistant.HandleLanguageSelect(FrFR, []);
    assistant.VoicesChanged(voices);
    said, greeted, phase := service.calls, assistant.hasGreeted, assistant.greetingPhase;
  }

  /** Outside Arabic, a first answer needing no trimming is the response. */
  lemma FirstAnswerSaid(request: ProxyRequest, answer: string)
    requires request.language != ArLB && IsTrimmed(answer) && answer != []
    ensures Dispatch(request, [Ok(answer), Status503], SecondaryFailure).0 == Returned(AIResponse(answer, request.language))
  {
    TrimOfTrimmed(answer);
    OtherLanguagesTakeAnyText(request, [Ok(answer), Status503], SecondaryFailure);
  }

  /** On an idle blob, a click cancels any speech, starts the recognizer
      and shows listening. */
  method ClickStartsListening(hour: int) returns (said: seq<PlatformCall>, blob: BlobState)
    ensures said == [CancelSpeech, StartRecognition] && blob == Listening
  {
    var service := new SpeechService(true);
    var assistant := new VoiceAssistant(service, hour);
    assistant.HandleBlobClick(false, false);
    said, blob := service.calls, assistant.blobState;
  }

  /** The rest of a turn: the final transcript sends a query and the blob
      shows a response; an answer that needs no trimming is said as it is,
      in English, and the blob idles. */
  method AnswerIsSaid(hour: int, query: string, answer: string, voices: seq<Voice>)
    returns (responding: BlobState, outcome: Outcome, said: seq<PlatformCall>, blob: BlobState)
    requires IsPlain(query) && |query| >= 2 && IsTrimmed(answer) && answer != [] && voices != []
    ensures responding == Responding && blob == Idle
    ensures outcome == Returned(AIResponse(answer, EnUS))
    ensures said == [CancelSpeech, SpeakUtterance(SpeechService.ChosenUtterance(answer, EnUS, voices))]
  {
    var service := new SpeechService(true);
    var assistant := new VoiceAssistant(service, hour);
    PlainTranscript(query);
    assistant.RecognitionResult(true, query);
    responding := assistant.blobState;
    var calls := service.calls;
    assert calls == [];
    FirstAnswerSaid(RequestFor(query, EnUS), answer);
    outcome := assistant.SettleRequest(0, [Ok(answer), Status503], SecondaryFailure, voices);
    assert service.calls == calls + service.SpeakCalls(answer, EnUS, voices);
    said, blob := service.calls, assistant.blobState;
  }

  /** A duplicate final result in the same session, arriving while the
      first is being processed, is ignored; once the first has settled, the next one is accepted. */
  method BusyGuard(hour: int, first: string, second: string,
                   primary: seq<PrimaryOutcome>, secondary: SecondaryOutcome, voices: seq<Voice>)
    returns (whileBusy: seq<ProxyRequest>, afterward: seq<ProxyRequest>)
    requires IsPlain(first) && |first| >= 2 && IsPlain(second) && |second| >= 2
    requires |primary| == MaxRetries
    ensures whileBusy == [RequestFor(first, EnUS)]
    ensures afterward == [RequestFor(second, EnUS)]
  {
    var service := new SpeechService(true);
    var assistant := new VoiceAssistant(service, hour);
    PlainTranscript(first);
    PlainTranscript(second);
    assistant.RecognitionResult(true, first);
    assistant.RecognitionResult(true, second);
    whileBusy := assistant.inFlight;
    var outcome := assistant.SettleRequest(0, primary, secondary, voices);
    assistant.RecognitionResult(true, second);
    afterward := assistant.inFlight;
  }
}
