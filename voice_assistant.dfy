/** The voice assistant component: it owns the blob's display state, the
    processing guard, the current language and the greet-once flag, reacts
    to the speech service's callbacks, and hands recognized queries to the
    dispatcher. React's state hooks become fields; timers, the voice list
    and the dispatcher's remote outcomes become explicit events and inputs. */
module Assistant {
  import opened Text
  import opened Options
  import opened Speech
  import opened AIProxy

  datatype BlobState = Idle | Listening | Speaking | Responding

  datatype Greeting = Greeting(text: string, language: Language)

  const MorningGreeting := "Good morning. " + "I'm Nova, your voice assistant."
  const AfternoonGreeting := "Good afternoon. " + "I'm Nova, your voice assistant."
  const EveningGreeting := "Good evening. " + "I'm Nova, your voice assistant."

  /** `getTimeBasedGreeting`, given the local hour: morning from 5 to 11,
      afternoon from 12 to 16, evening otherwise; always in English. */
  function GetTimeBasedGreeting(hour: int): (g: Greeting)
    ensures g.language == EnUS
    ensures g.text == MorningGreeting <==> 5 <= hour < 12
    ensures g.text == AfternoonGreeting <==> 12 <= hour < 17
    ensures g.text == EveningGreeting <==> hour < 5 || 17 <= hour
  {
    assert MorningGreeting[5] == 'm' && AfternoonGreeting[5] == 'a' && EveningGreeting[5] == 'e';
    if 5 <= hour < 12 then Greeting(MorningGreeting, EnUS)
    else if 12 <= hour < 17 then Greeting(AfternoonGreeting, EnUS)
    else Greeting(EveningGreeting, EnUS)
  }

  // ---------------------------------------------------------------------
  // Messages chosen by language
  // ---------------------------------------------------------------------

  const ArabicSystemMessage :=
    "أنت مساعد شخصي ذكي اسمه نوفا. أجب "
    + "بشكل مباشر على الأسئلة بدون مقدمات أو "
    + "أسئلة توضيحية. قدم معلومات مختصرة "
    + "ودقيقة فقط. لا تطلب من المستخدم "
    + "توضيحًا أو تسأله عما يريد، بل قدم "
    + "إجابة مباشرة فقط."
  const FrenchSystemMessage :=
    "Vous êtes un assistant personnel "
    + "intelligent nommé Nova. Répondez "
    + "directement aux questions sans "
    + "introduction et sans poser de "
    + "questions de clarification. Soyez "
    + "concis et précis. Ne demandez pas à "
    + "l'utilisateur ce qu'il veut, "
    + "fournissez simplement une réponse "
    + "directe."
  const EnglishSystemMessage :=
    "You are an intelligent personal "
    + "assistant named Nova. Answer "
    + "questions directly without "
    + "introductions or asking clarifying "
    + "questions back. Be concise and "
    + "accurate. Do not ask the user what "
    + "they want - simply provide a direct "
    + "answer to their query."

  /** The instructions sent with every query. */
  function SystemMessage(language: Language): string {
    if language == ArLB then ArabicSystemMessage
    else if language == FrFR then FrenchSystemMessage
    else EnglishSystemMessage
  }

  const ArabicProcessingError :=
    "عذراً، حصل خطأ في المعالجة. الرجاء "
    + "التحقق من اتصال الإنترنت والمحاولة "
    + "مرة أخرى."
  const FrenchProcessingError :=
    "Désolé, une erreur s'est produite. "
    + "Veuillez vérifier votre connexion "
    + "internet et réessayer."
  const EnglishProcessingError :=
    "Sorry, there was an error. Please "
    + "check your internet connection and "
    + "try again."

  /** What is said when the dispatcher throws. */
  function ProcessingErrorMessage(language: Language): string {
    if language == ArLB then ArabicProcessingError
    else if language == FrFR then FrenchProcessingError
    else EnglishProcessingError
  }

  const ArabicConfirmation := "تم التحويل إلى اللغة العربية"
  const FrenchConfirmation := "Passé au français"
  const EnglishConfirmation := "Switched to English"

  /** What is said after a switch to `language`, by voice command or from
      the language menu (both tables hold the same three texts). */
  function SwitchConfirmation(language: Language): string {
    match language
    case ArLB => ArabicConfirmation
    case FrFR => FrenchConfirmation
    case EnUS => EnglishConfirmation
  }

  /** Each table gives every language its own text, and each Arabic text
      passes the dispatcher's Arabic check. */
  lemma MessagesDifferByLanguage(a: Language, b: Language)
    ensures a != b ==> SystemMessage(a) != SystemMessage(b)
    ensures a != b ==> ProcessingErrorMessage(a) != ProcessingErrorMessage(b)
    ensures a != b ==> SwitchConfirmation(a) != SwitchConfirmation(b)
    ensures DetectArabicText(SystemMessage(ArLB))
    ensures DetectArabicText(ProcessingErrorMessage(ArLB))
    ensures DetectArabicText(SwitchConfirmation(ArLB))
  {
    assert ArabicSystemMessage[0] == '\U{0623}' && FrenchSystemMessage[0] == 'V' && EnglishSystemMessage[0] == 'Y';
    assert ArabicProcessingError[0] == '\U{0639}' && FrenchProcessingError[0] == 'D' && EnglishProcessingError[0] == 'S';
    assert ArabicConfirmation[0] == '\U{062A}' && FrenchConfirmation[0] == 'P' && EnglishConfirmation[0] == 'S';
    assert IsArabicChar(ArabicSystemMessage[0]);
    assert IsArabicChar(ArabicProcessingError[0]);
    assert IsArabicChar(ArabicConfirmation[0]);
  }

  // ---------------------------------------------------------------------
  // The language-switch phrases
  // ---------------------------------------------------------------------

  const SpeakArabic := "speak arabic"
  const SwitchToArabic := "switch to arabic"
  const ArabicSpeakEnglish := "تكلم انجليزي"
  const SpeakEnglish := "speak english"
  const ParleAnglais := "parle anglais"
  const PasserAnglais := "passer à l'anglais"
  const SpeakFrench := "speak french"
  const SwitchToFrench := "switch to french"

  /** The decision `handleLanguageCommand` takes on a lowered transcript,
      with the two phrases that are not plain ASCII passed in. A phrase only
      counts when the current language is the one it switches away from,
      and the English phrases for Arabic are tried before those for French. */
  function Decide(lower: string, current: Language, arabicSpeakEnglish: string, passerAnglais: string): (target: Option<Language>)
    ensures target.Some? ==> target.value != current
    ensures current != EnUS && target.Some? ==> target.value == EnUS
  {
    if current == EnUS && (Contains(lower, SpeakArabic) || Contains(lower, SwitchToArabic)) then Some(ArLB)
    else if current == ArLB && (Contains(lower, arabicSpeakEnglish) || Contains(lower, SpeakEnglish)) then Some(EnUS)
    else if current == FrFR
            && (Contains(lower, ParleAnglais) || Contains(lower, passerAnglais) || Contains(lower, SpeakEnglish))
    then Some(EnUS)
    else if current == EnUS && (Contains(lower, SpeakFrench) || Contains(lower, SwitchToFrench)) then Some(FrFR)
    else None
  }

  /** The language a transcript asks to switch to, if any, with the Arabic
      and French phrases as they are meant. */
  function LanguageCommand(text: string, current: Language): (target: Option<Language>)
    ensures target.Some? ==> target.value != current
    ensures current != EnUS && target.Some? ==> target.value == EnUS
  {
    Decide(ToLower(text), current, ArabicSpeakEnglish, PasserAnglais)
  }

  /** The Arabic "speak English" phrase and the French "switch to English"
      phrase as the component's source spells them: UTF-8 text read back
      as Windows-1252, so that each Arabic letter became two Latin ones and
      "à" became "Ã" and a no-break space. */
  const MisencodedArabicSpeakEnglish :=
    "\U{00D8}\U{00AA}\U{00D9}\U{0192}\U{00D9}\U{201E}\U{00D9}\U{2026} "
    + "\U{00D8}\U{00A7}\U{00D9}\U{2020}\U{00D8}\U{00AC}\U{00D9}\U{201E}"
    + "\U{00D9}\U{0160}\U{00D8}\U{00B2}\U{00D9}\U{0160}"
  const MisencodedPasserAnglais := "passer \U{00C3}\U{00A0} l'anglais"

  /** `handleLanguageCommand` with the phrases as spelt in the source. */
  function LanguageCommandAsWritten(text: string, current: Language): (target: Option<Language>)
    ensures target.Some? ==> target.value != current
  {
    Decide(ToLower(text), current, MisencodedArabicSpeakEnglish, MisencodedPasserAnglais)
  }

  /** Both misspelt phrases hold a capital ("Ø", "Ã"), and a lowered
      transcript holds none, so neither phrase is ever found. */
  lemma MisencodedTriggersNeverMatch(text: string)
    ensures !Contains(ToLower(text), MisencodedArabicSpeakEnglish)
    ensures !Contains(ToLower(text), MisencodedPasserAnglais)
  {
    assert IsCapital(MisencodedArabicSpeakEnglish[0]);
    assert IsCapital(MisencodedPasserAnglais[7]);
    MissingCharNotContained(ToLower(text), MisencodedArabicSpeakEnglish, 0);
    MissingCharNotContained(ToLower(text), MisencodedPasserAnglais, 7);
  }

  /** As written, an Arabic session switches only on "speak english", a
      French one only on "parle anglais" or "speak english", and English
      sessions are not affected. */
  lemma AsWrittenIgnoresMisencodedPhrases(text: string)
    ensures LanguageCommandAsWritten(text, ArLB)
            == if Contains(ToLower(text), SpeakEnglish) then Some(EnUS) else None
    ensures LanguageCommandAsWritten(text, FrFR)
            == if Contains(ToLower(text), ParleAnglais) || Contains(ToLower(text), SpeakEnglish) then Some(EnUS) else None
    ensures LanguageCommandAsWritten(text, EnUS) == LanguageCommand(text, EnUS)
  {
    MisencodedTriggersNeverMatch(text);
  }

  /** The Arabic phrase has no case: lowering leaves it as it is. */
  lemma ArabicSpeakEnglishIsLowered()
    ensures ToLower(ArabicSpeakEnglish) == ArabicSpeakEnglish
  {
    forall i | 0 <= i < |ArabicSpeakEnglish| ensures !IsCapital(ArabicSpeakEnglish[i]) {
      assert ArabicSpeakEnglish[i] == ' ' || ArabicSpeakEnglish[i] >= '\U{0600}';
    }
  }

  /** Saying "تكلم انجليزي" in an Arabic session switches to English with
      the phrase as meant, and does nothing as written. */
  lemma ArabicPhraseSwitchesOnlyWhenDecoded()
    ensures LanguageCommand(ArabicSpeakEnglish, ArLB) == Some(EnUS)
    ensures LanguageCommandAsWritten(ArabicSpeakEnglish, ArLB) == None
  {
    ArabicSpeakEnglishIsLowered();
    ContainsAt(ArabicSpeakEnglish, ArabicSpeakEnglish, 0);
    LongerNotContained(ArabicSpeakEnglish, SpeakEnglish);
    AsWrittenIgnoresMisencodedPhrases(ArabicSpeakEnglish);
  }

  /** Matching ignores case: a transcript and its lowered form ask for the
      same switch. */
  lemma LanguageCommandIgnoresCase(text: string, current: Language)
    ensures LanguageCommand(ToLower(text), current) == LanguageCommand(text, current)
  {
    ToLowerIdempotent(text);
  }

  /** An English transcript that asks for Arabic switches to Arabic even if
      it also asks for French. */
  lemma ArabicBeforeFrench(text: string)
    requires Contains(ToLower(text), SpeakArabic) || Contains(ToLower(text), SwitchToArabic)
    ensures LanguageCommand(text, EnUS) == Some(ArLB)
  {
  }

  /** A phrase that is not for the current language does nothing: in French,
      "speak arabic" is no command. */
  lemma PhraseForOtherLanguageIgnored()
    ensures LanguageCommand(SpeakArabic, FrFR) == None
  {
    var lower := ToLower(SpeakArabic);
    LongerNotContained(lower, ParleAnglais);
    LongerNotContained(lower, PasserAnglais);
    LongerNotContained(lower, SpeakEnglish);
  }

  /** Lowering the mixed-case example. */
  lemma ExampleLowered()
    ensures ToLower("Please SPEAK French") == "please speak french"
  {
  }

  /** The lowered example holds "speak french". */
  lemma ExampleHasSpeakFrench()
    ensures Contains("please speak french", SpeakFrench)
  {
    var lower := "please speak french";
    assert lower[7..][..|SpeakFrench|] == SpeakFrench;
    ContainsAt(lower, SpeakFrench, 7);
  }

  /** The lowered example does not hold "speak arabic": it has no `b`. */
  lemma ExampleLacksSpeakArabic()
    ensures !Contains("please speak french", SpeakArabic)
  {
    var lower := "please speak french";
    assert forall j :: 0 <= j < |lower| ==> lower[j] != 'b';
    MissingCharNotContained(lower, SpeakArabic, 9);
  }

  /** The lowered example does not hold "switch to arabic": it has no `w`. */
  lemma ExampleLacksSwitchToArabic()
    ensures !Contains("please speak french", SwitchToArabic)
  {
    var lower := "please speak french";
    assert forall j :: 0 <= j < |lower| ==> lower[j] != 'w';
    MissingCharNotContained(lower, SwitchToArabic, 1);
  }

  /** "Please SPEAK French" switches an English session to French. */
  lemma SpeakFrenchExample()
    ensures LanguageCommand("Please SPEAK French", EnUS) == Some(FrFR)
  {
    ExampleLowered();
    ExampleHasSpeakFrench();
    ExampleLacksSpeakArabic();
    ExampleLacksSwitchToArabic();
  }

  // ---------------------------------------------------------------------
  // The short-transcript filter and the reply
  // ---------------------------------------------------------------------

  /** A transcript whose trimmed JavaScript length is under two: noise. */
  predicate IsNoise(text: string) {
    Utf16Length(Trim(text)) < 2
  }

  /** Noise is a transcript that trims to nothing, or to one character of the
      Basic Multilingual Plane. */
  lemma NoiseIff(text: string)
    ensures IsNoise(text) <==> Trim(text) == [] || (|Trim(text)| == 1 && Trim(text)[0] as int <= 0xFFFF)
  {
    var t := Trim(text);
    if |t| >= 1 {
      assert Utf16Length(t) == (if t[0] as int > 0xFFFF then 2 else 1) + Utf16Length(t[1..]);
    }
  }

  /** The request sent for a transcript in a given language. */
  function RequestFor(text: string, language: Language): ProxyRequest {
    ProxyRequest(text, language, SystemMessage(language))
  }

  /** What is said once the dispatcher settles: a non-empty response text,
      nothing for an empty one, and the processing apology when it throws. */
  function Reply(outcome: Outcome, language: Language): (reply: Option<string>)
    ensures reply.None? <==> outcome.Returned? && outcome.response.responseText == []
    ensures outcome.Threw? ==> reply == Some(ProcessingErrorMessage(language))
    ensures outcome.Returned? && reply.Some? ==> reply.value == outcome.response.responseText
  {
    match outcome
    case Returned(response) => if response.responseText != [] then Some(response.responseText) else None
    case Threw(_) => Some(ProcessingErrorMessage(language))
  }

  /** In an Arabic session everything said after a query is Arabic text:
      the dispatcher only returns Arabic, and the apology for a throw is
      Arabic too. */
  lemma ArabicRepliesAreArabic(request: ProxyRequest, primary: seq<PrimaryOutcome>, secondary: SecondaryOutcome)
    requires |primary| == MaxRetries && request.language == ArLB
    ensures Reply(Dispatch(request, primary, secondary).0, ArLB).Some? ==>
              DetectArabicText(Reply(Dispatch(request, primary, secondary).0, ArLB).value)
  {
    ArabicResponsesContainArabic(request, primary, secondary);
    MessagesDifferByLanguage(ArLB, ArLB);
  }

  /** An English answer of blanks trims to nothing and is not said. */
  lemma BlankAnswerIsSilent(request: ProxyRequest, secondary: SecondaryOutcome)
    requires request.language == EnUS
    ensures Reply(Dispatch(request, [Ok(" "), Status503], secondary).0, EnUS).None?
  {
    assert Trim(" ") == [] by {
      TrimEmptyIff(" ");
    }
    assert PrimaryAttempt(request, Ok(" ")) == Answer([]);
    FirstAnswerAt(request, [Ok(" "), Status503], 0);
  }

  // ---------------------------------------------------------------------
  // The component
  // ---------------------------------------------------------------------

  /** Where the greeting is: its 2-second timer is pending, it waits for the
      voice list, it has been spoken and its 500 ms timer is pending, or it
      is over. */
  datatype GreetingPhase = Scheduled | WaitingForVoices | Finishing | Done

  class VoiceAssistant {
    const speech: SpeechService
    /** The greeting chosen at mount. */
    const greeting: Greeting
    var blobState: BlobState
    var isProcessing: bool
    var currentLanguage: Language
    var showLanguageMenu: bool
    var hasGreeted: bool
    var greetingPhase: GreetingPhase
    /** How many 300 ms processing-reset timers are pending. */
    var pendingProcessingResets: nat
    /** The queries handed to the dispatcher that have not settled yet. */
    var inFlight: seq<ProxyRequest>

    /** All four callbacks are registered; the component's language is the
        service's (every language change goes through the patched
        `setLanguage`); the greet-once flag is set exactly once the greeting
        has been spoken. */
    predicate Valid()
      reads this, speech
    {
      && speech.hasStartCallback && speech.hasEndCallback && speech.hasResultCallback && speech.hasErrorCallback
      && currentLanguage == speech.state.recognizedLanguage
      && (hasGreeted <==> greetingPhase == Finishing || greetingPhase == Done)
    }

    /** Mounting: the callbacks are registered, the greeting for `hour` is
        scheduled, and the language is brought to English. */
    constructor (speech: SpeechService, hour: int)
      modifies speech`hasStartCallback, speech`hasEndCallback, speech`hasResultCallback, speech`hasErrorCallback
      modifies speech`state, speech`recognitionLang
      ensures Valid()
      ensures this.speech == speech && greeting == GetTimeBasedGreeting(hour)
      ensures blobState == Idle && !isProcessing && currentLanguage == EnUS && !showLanguageMenu
      ensures !hasGreeted && greetingPhase == Scheduled && pendingProcessingResets == 0 && inFlight == []
      ensures speech.state == old(speech.state).(recognizedLanguage := EnUS)
      ensures speech.recognitionLang == if speech.supported && old(speech.state.recognizedLanguage) != EnUS
                                        then EnUS else old(speech.recognitionLang)
    {
      this.speech := speech;
      greeting := GetTimeBasedGreeting(hour);
      blobState := Idle;
      isProcessing := false;
      currentLanguage := EnUS;
      showLanguageMenu := false;
      hasGreeted := false;
      greetingPhase := Scheduled;
      pendingProcessingResets := 0;
      inFlight := [];
      new;
      speech.OnSpeechStart();
      speech.OnSpeechEnd();
      speech.OnResult();
      speech.OnError();
      if speech.GetCurrentLanguage() != EnUS {
        speech.SetLanguage(EnUS);
      }
    }

    // The callbacks registered with the speech service.

    /** `handleSpeechStart`. */
    method HandleSpeechStart()
      requires Valid()
      modifies this`blobState
      ensures Valid() && blobState == Speaking
    {
      blobState := Speaking;
    }

    /** `handleSpeechEnd`: idle at once, the guard reset only when the timer
        fires. */
    method HandleSpeechEnd()
      requires Valid()
      modifies this`blobState, this`pendingProcessingResets
      ensures Valid() && blobState == Idle
      ensures pendingProcessingResets == old(pendingProcessingResets) + 1
    {
      blobState := Idle;
      pendingProcessingResets := pendingProcessingResets + 1;
    }

    /** One of `handleSpeechEnd`'s 300 ms timers fires. */
    method ProcessingResetFired()
      requires Valid() && pendingProcessingResets > 0
      modifies this`isProcessing, this`pendingProcessingResets
      ensures Valid() && !isProcessing
      ensures pendingProcessingResets == old(pendingProcessingResets) - 1
    {
      isProcessing := false;
      pendingProcessingResets := pendingProcessingResets - 1;
    }

    /** The `onError` callback: idle and the guard reset, at once. */
    method HandleError()
      requires Valid()
      modifies this`blobState, this`isProcessing
      ensures Valid() && blobState == Idle && !isProcessing
    {
      blobState := Idle;
      isProcessing := false;
    }

    /** `handleSpeechResult` up to its `await`: ignored while a query is
        being processed, dropped as noise when too short, and otherwise
        handed to the dispatcher in the current language. The recognized
        language it is given is not used. */
    method HandleSpeechResult(text: string, language: Language)
      requires Valid()
      modifies this`isProcessing, this`blobState, this`inFlight
      ensures Valid()
      ensures old(isProcessing) ==> isProcessing && blobState == old(blobState) && inFlight == old(inFlight)
      ensures !old(isProcessing) && IsNoise(text) ==>
                !isProcessing && blobState == old(blobState) && inFlight == old(inFlight)
      ensures !old(isProcessing) && !IsNoise(text) ==>
                isProcessing && blobState == Responding && inFlight == old(inFlight) + [RequestFor(text, currentLanguage)]
    {
      if isProcessing {
        return;
      }
      isProcessing := true;
      if IsNoise(text) {
        isProcessing := false;
        return;
      }
      blobState := Responding;
      inFlight := inFlight + [RequestFor(text, currentLanguage)];
    }

    /** The rest of `handleSpeechResult`: the dispatcher settles on query
        `i` with the given remote outcomes; the reply is said in the query's
        language, and whatever happened the guard is reset and the blob
        idles. */
    method SettleRequest(i: nat, primary: seq<PrimaryOutcome>, secondary: SecondaryOutcome, voices: seq<Voice>)
      returns (outcome: Outcome)
      requires Valid() && i < |inFlight| && |primary| == MaxRetries
      modifies this`isProcessing, this`blobState, this`inFlight
      modifies speech`calls, speech`voicesHandler, speech`restartPending
      ensures Valid()
      ensures outcome == Dispatch(old(inFlight[i]), primary, secondary).0
      ensures !isProcessing && blobState == Idle
      ensures inFlight == old(inFlight[..i] + inFlight[i + 1..])
      ensures var reply := Reply(outcome, old(inFlight[i]).language);
              && speech.calls == old(speech.calls) + (if reply.Some? then speech.SpeakCalls(reply.value, old(inFlight[i]).language, voices) else [])
              && speech.voicesHandler == (if reply.Some? && speech.supported && voices == []
                                          then SpeakWhenReady(reply.value, old(inFlight[i]).language)
                                          else old(speech.voicesHandler))
              && speech.restartPending == (if reply.Some? && speech.supported && voices != [] then false
                                           else old(speech.restartPending))
    {
      var request := inFlight[i];
      var trace;
      outcome, trace := HandleAIRequest(request, primary, secondary);
      if outcome.Returned? {
        if outcome.response.responseText != [] {
          speech.Speak(outcome.response.responseText, request.language, voices);
        }
      } else {
        speech.Speak(ProcessingErrorMessage(request.language), request.language, voices);
      }
      isProcessing := false;
      blobState := Idle;
      inFlight := inFlight[..i] + inFlight[i + 1..];
    }

    // Clicks and the language menu.

    /** `handleBlobClick`. `startFails` and `stopFails` say whether the
        recognizer's `start` or `stop` would throw; a failing start reaches
        the error callback at once, which idles the blob. */
    method HandleBlobClick(startFails: bool, stopFails: bool)
      requires Valid()
      modifies this`blobState, this`isProcessing, speech`state, speech`restartPending, speech`calls
      ensures Valid() && !isProcessing
      ensures speech.state == if speech.supported && old(speech.state.isListening)
                              then old(speech.state).(isListening := !stopFails) else old(speech.state)
      ensures old(blobState) == Listening ==>
                && blobState == Idle
                && speech.calls == old(speech.calls) + (if speech.supported && old(speech.state.isListening) then [StopRecognition] else [])
                && speech.restartPending == (old(speech.restartPending) && !speech.supported)
      ensures old(blobState) != Listening ==>
                && blobState == (if speech.supported && !old(speech.state.isListening) && startFails then Idle else Listening)
                && speech.calls == old(speech.calls)
                     + (if !speech.supported then []
                        else if old(speech.state.isListening) then [CancelSpeech, StopRecognition]
                        else [CancelSpeech, StartRecognition])
                && speech.restartPending == (if speech.supported then old(speech.state.isListening) else old(speech.restartPending))
    {
      if blobState == Listening {
        blobState := Idle;
        speech.StopListening(stopFails);
        isProcessing := false;
        return;
      }
      speech.StopSpeaking();
      isProcessing := false;
      blobState := Listening;
      var fired := speech.StartListening(startFails, stopFails);
      if fired != [] {
        HandleError();
      }
    }

    /** The patched `setLanguage`: the service's own, then the component's
        language follows. */
    method SetLanguage(language: Language)
      requires Valid()
      modifies this`currentLanguage, speech`state, speech`recognitionLang
      ensures Valid() && currentLanguage == language && speech.GetCurrentLanguage() == language
      ensures speech.state == old(speech.state).(recognizedLanguage := language)
      ensures speech.recognitionLang == if speech.supported then language else old(speech.recognitionLang)
    {
      speech.SetLanguage(language);
      currentLanguage := language;
    }

    /** `handleLanguageCommand`: when the transcript asks for a switch, the
        language changes and the confirmation is said; otherwise nothing
        changes. */
    method HandleLanguageCommand(text: string, current: Language, voices: seq<Voice>) returns (handled: bool)
      requires Valid()
      modifies this`currentLanguage, speech`state, speech`recognitionLang
      modifies speech`calls, speech`voicesHandler, speech`restartPending
      ensures Valid()
      ensures handled <==> LanguageCommand(text, current).Some?
      ensures !handled ==>
                && currentLanguage == old(currentLanguage) && speech.state == old(speech.state)
                && speech.recognitionLang == old(speech.recognitionLang) && speech.calls == old(speech.calls)
                && speech.voicesHandler == old(speech.voicesHandler) && speech.restartPending == old(speech.restartPending)
      ensures handled ==>
                var target := LanguageCommand(text, current).value;
                && currentLanguage == target && speech.GetCurrentLanguage() == target
                && speech.state == old(speech.state).(recognizedLanguage := target)
                && speech.recognitionLang == (if speech.supported then target else old(speech.recognitionLang))
                && speech.calls == old(speech.calls) + speech.SpeakCalls(SwitchConfirmation(target), target, voices)
                && speech.voicesHandler == (if speech.supported && voices == [] then SpeakWhenReady(SwitchConfirmation(target), target)
                                            else old(speech.voicesHandler))
                && speech.restartPending == (if speech.supported && voices != [] then false else old(speech.restartPending))
    {
      var target := LanguageCommand(text, current);
      if target.None? {
        return false;
      }
      SetLanguage(target.value);
      speech.Speak(SwitchConfirmation(target.value), target.value, voices);
      return true;
    }

    /** `handleLanguageClick`. */
    method HandleLanguageClick()
      requires Valid()
      modifies this`showLanguageMenu
      ensures Valid() && showLanguageMenu == !old(showLanguageMenu)
    {
      showLanguageMenu := !showLanguageMenu;
    }

    /** `handleLanguageSelect`: the language changes, the menu closes and
        the confirmation for the chosen language is said. */
    method HandleLanguageSelect(language: Language, voices: seq<Voice>)
      requires Valid()
      modifies this`currentLanguage, this`showLanguageMenu, speech`state, speech`recognitionLang
      modifies speech`calls, speech`voicesHandler, speech`restartPending
      ensures Valid() && currentLanguage == language && speech.GetCurrentLanguage() == language && !showLanguageMenu
      ensures speech.state == old(speech.state).(recognizedLanguage := language)
      ensures speech.recognitionLang == if speech.supported then language else old(speech.recognitionLang)
      ensures speech.calls == old(speech.calls) + speech.SpeakCalls(SwitchConfirmation(language), language, voices)
      ensures speech.voicesHandler == if speech.supported && voices == [] then SpeakWhenReady(SwitchConfirmation(language), language)
                                      else old(speech.voicesHandler)
      ensures speech.restartPending == if speech.supported && voices != [] then false else old(speech.restartPending)
    {
      SetLanguage(language);
      currentLanguage := language;
      showLanguageMenu := false;
      speech.Speak(SwitchConfirmation(language), language, voices);
    }

    // The greeting.

    /** The greeting is said once the voice list is there: the blob shows a
        response and the greet-once flag is set. */
    method Greet(voices: seq<Voice>)
      requires Valid() && !hasGreeted && voices != []
      modifies this`blobState, this`hasGreeted, this`greetingPhase
      modifies speech`calls, speech`voicesHandler, speech`restartPending
      ensures Valid() && blobState == Responding && hasGreeted && greetingPhase == Finishing
      ensures speech.calls == old(speech.calls) + speech.SpeakCalls(greeting.text, greeting.language, voices)
      ensures speech.voicesHandler == old(speech.voicesHandler)
      ensures speech.restartPending == if speech.supported then false else old(speech.restartPending)
    {
      blobState := Responding;
      speech.Speak(greeting.text, greeting.language, voices);
      hasGreeted := true;
      greetingPhase := Finishing;
    }

    /** The greeting's 2-second timer fires: with no voice list yet, the
        greeting waits for one in the synthesizer's single voices-changed
        slot; otherwise it is said at once. */
    method GreetingTimerFired(voices: seq<Voice>)
      requires Valid() && greetingPhase == Scheduled
      modifies this`blobState, this`hasGreeted, this`greetingPhase
      modifies speech`calls, speech`voicesHandler, speech`restartPending
      ensures Valid()
      ensures voices == [] ==>
                && greetingPhase == WaitingForVoices && !hasGreeted && speech.voicesHandler == ClientWaiter
                && blobState == old(blobState) && speech.calls == old(speech.calls)
                && speech.restartPending == old(speech.restartPending)
      ensures voices != [] ==>
                && greetingPhase == Finishing && hasGreeted && blobState == Responding
                && speech.calls == old(speech.calls) + speech.SpeakCalls(greeting.text, greeting.language, voices)
                && speech.voicesHandler == old(speech.voicesHandler)
                && speech.restartPending == (if speech.supported then false else old(speech.restartPending))
    {
      if voices == [] {
        speech.AwaitVoices();
        greetingPhase := WaitingForVoices;
      } else {
        Greet(voices);
      }
    }

    /** The synthesizer reports its voice list and calls whatever the slot
        holds: a deferred `speak` goes ahead, or the waiting greeting is
        said. A greeting whose waiter was replaced by a later deferred
        `speak` stays waiting. */
    method VoicesChanged(voices: seq<Voice>)
      requires Valid() && voices != []
      modifies this`blobState, this`hasGreeted, this`greetingPhase
      modifies speech`calls, speech`voicesHandler, speech`restartPending
      ensures Valid() && speech.voicesHandler == old(speech.voicesHandler)
      ensures old(speech.voicesHandler).SpeakWhenReady? ==>
                && speech.calls == old(speech.calls)
                     + [SpeakUtterance(SpeechService.ChosenUtterance(speech.voicesHandler.text, speech.voicesHandler.language, voices))]
                && greetingPhase == old(greetingPhase) && hasGreeted == old(hasGreeted) && blobState == old(blobState)
                && !speech.restartPending
      ensures old(speech.voicesHandler) == ClientWaiter && old(greetingPhase) == WaitingForVoices ==>
                && greetingPhase == Finishing && hasGreeted && blobState == Responding
                && speech.calls == old(speech.calls) + speech.SpeakCalls(greeting.text, greeting.language, voices)
                && speech.restartPending == (if speech.supported then false else old(speech.restartPending))
      ensures old(speech.voicesHandler) == NoHandler
              || (old(speech.voicesHandler) == ClientWaiter && old(greetingPhase) != WaitingForVoices) ==>
                && greetingPhase == old(greetingPhase) && blobState == old(blobState)
                && speech.calls == old(speech.calls) && speech.restartPending == old(speech.restartPending)
    {
      match speech.voicesHandler
      case SpeakWhenReady(_, _) =>
        speech.VoicesChanged(voices);
      case ClientWaiter =>
        if greetingPhase == WaitingForVoices {
          Greet(voices);
        }
      case NoHandler =>
    }

    /** The greeting's 500 ms timer fires. */
    method GreetingFinished()
      requires Valid() && greetingPhase == Finishing
      modifies this`blobState, this`isProcessing, this`greetingPhase
      ensures Valid() && blobState == Idle && !isProcessing && greetingPhase == Done && hasGreeted
    {
      blobState := Idle;
      isProcessing := false;
      greetingPhase := Done;
    }

    // Platform events whose callbacks reach the component.

    /** The recognizer's `onstart`: the service notes that it listens; no
        callback of the component runs. */
    method RecognitionStarted()
      requires Valid() && speech.supported
      modifies speech`state
      ensures Valid() && speech.state == old(speech.state).(isListening := true)
    {
      speech.RecognitionStarted();
    }

    /** The recognizer's `onend`: listening is over and a pending restart is
        dropped; no callback of the component runs. */
    method RecognitionEnded()
      requires Valid() && speech.supported
      modifies speech`state, speech`restartPending
      ensures Valid() && speech.state == old(speech.state).(isListening := false) && !speech.restartPending
    {
      speech.RecognitionEnded();
    }

    /** The recognizer reports an error; the service passes it on. */
    method RecognitionErrored(error: string)
      requires Valid() && speech.supported
      modifies this`blobState, this`isProcessing, speech`state, speech`restartPending
      ensures Valid() && blobState == Idle && !isProcessing
      ensures speech.state == old(speech.state).(isListening := false) && !speech.restartPending
    {
      var fired := speech.RecognitionError(error);
      assert fired == [Errored(error)];
      HandleError();
    }

    /** The recognizer reports a result; the service reports the start of
        speech for an interim one, and the end of speech and then the
        transcript for a final one. */
    method RecognitionResult(isFinal: bool, transcript: string)
      requires Valid() && speech.supported
      modifies this`blobState, this`isProcessing, this`pendingProcessingResets, this`inFlight
      ensures Valid()
      ensures !isFinal ==>
                && blobState == Speaking && isProcessing == old(isProcessing)
                && pendingProcessingResets == old(pendingProcessingResets) && inFlight == old(inFlight)
      ensures isFinal ==>
                var text := TranscriptText(transcript);
                && pendingProcessingResets == old(pendingProcessingResets) + 1
                && (old(isProcessing) ==> isProcessing && blobState == Idle && inFlight == old(inFlight))
                && (!old(isProcessing) && IsNoise(text) ==> !isProcessing && blobState == Idle && inFlight == old(inFlight))
                && (!old(isProcessing) && !IsNoise(text) ==>
                      isProcessing && blobState == Responding && inFlight == old(inFlight) + [RequestFor(text, currentLanguage)])
    {
      var fired := speech.RecognitionResult(isFinal, transcript);
      if !isFinal {
        assert fired == [SpeechStarted];
        HandleSpeechStart();
      } else {
        assert fired == [SpeechEnded, Recognized(TranscriptText(transcript), speech.state.recognizedLanguage)];
        HandleSpeechEnd();
        HandleSpeechResult(fired[1].text, fired[1].language);
      }
    }

    /** The service's pending restart timer fires; a failing start reaches
        the error callback. */
    method RestartTimerFired(startFails: bool)
      requires Valid() && speech.restartPending
      modifies this`blobState, this`isProcessing, speech`state, speech`restartPending, speech`calls
      ensures Valid() && !speech.restartPending
      ensures speech.state == old(speech.state)
      ensures if speech.supported && !old(speech.state.isListening) then
                && speech.calls == old(speech.calls) + [StartRecognition]
                && (startFails ==> blobState == Idle && !isProcessing)
                && (!startFails ==> blobState == old(blobState) && isProcessing == old(isProcessing))
              else
                speech.calls == old(speech.calls) && blobState == old(blobState) && isProcessing == old(isProcessing)
    {
      var fired := speech.RestartTimerFired(startFails);
      if fired != [] {
        HandleError();
      }
    }

    /** An utterance starts being said. */
    method UtteranceStarted()
      requires Valid()
      modifies this`blobState
      ensures Valid() && blobState == Speaking
    {
      var fired := speech.UtteranceStarted();
      assert fired == [SpeechStarted];
      HandleSpeechStart();
    }

    /** An utterance has been said. */
    method UtteranceEnded()
      requires Valid()
      modifies this`blobState, this`pendingProcessingResets
      ensures Valid() && blobState == Idle
      ensures pendingProcessingResets == old(pendingProcessingResets) + 1
    {
      var fired := speech.UtteranceEnded();
      assert fired == [SpeechEnded];
      HandleSpeechEnd();
    }
  }
}
