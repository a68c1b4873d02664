/** Speech capture and speech output: the supported languages, the ranked
    voice search used before speaking, and the `SpeechService` object that
    wraps the platform's recognizer and synthesizer. */
module Speech {
  import opened Text
  import opened Options

  /** The three languages the assistant speaks. */
  datatype Language = EnUS | ArLB | FrFR {
    /** The language tag handed to the platform. */
    function Code(): (c: string)
      ensures |c| == 5 && c[2] == '-'
    {
      match this
      case EnUS => "en-US"
      case ArLB => "ar-LB"
      case FrFR => "fr-FR"
    }
  }

  /** A platform voice, as far as voice selection looks at it. */
  datatype Voice = Voice(name: string, lang: string)

  // ---------------------------------------------------------------------
  // Voice selection
  // ---------------------------------------------------------------------

  /** `matchesLanguage`: a code ending in `*` matches every voice whose
      language starts with what precedes the `*`; any other code matches
      the voice whose language is that code or a sub-tag of it. */
  predicate MatchesLanguage(v: Voice, code: string) {
    if EndsWith(code, "*") then StartsWith(v.lang, code[..|code| - 1])
    else v.lang == code || StartsWith(v.lang, code + "-")
  }

  /** A voice for a regional code also matches the code's base, so the
      base fallback catches every voice the regional one would. */
  lemma RegionalMatchImpliesBase(v: Voice, base: string, region: string)
    requires !EndsWith(base, "*") && !EndsWith(base + "-" + region, "*")
    requires MatchesLanguage(v, base + "-" + region)
    ensures MatchesLanguage(v, base)
  {
    var code := base + "-" + region;
    assert code[..|base| + 1] == base + "-";
    if v.lang == code {
      assert v.lang[..|base| + 1] == base + "-";
    } else {
      assert StartsWith(v.lang, code + "-");
      assert v.lang[..|base| + 1] == (code + "-")[..|base| + 1];
      assert (code + "-")[..|base| + 1] == base + "-";
    }
  }

  /** The wildcard fallback `xx-*` never matches a voice that the plain
      fallback `xx` listed before it missed. */
  lemma WildcardAfterBaseIsRedundant(v: Voice, base: string)
    requires !EndsWith(base, "*")
    requires MatchesLanguage(v, base + "-*")
    ensures MatchesLanguage(v, base)
  {
    var code := base + "-*";
    assert EndsWith(code, "*");
    assert code[..|code| - 1] == base + "-";
  }

  /** One step of the ranked search: what a voice must satisfy. */
  datatype Criterion =
    | NameHasAny(names: seq<string>)   // the name contains one of these
    | LangMatches(code: string)        // `MatchesLanguage` with this code
    | LangStartsWith(prefix: string)   // the language starts with this
    | NameHas(part: string)            // the name contains this

  predicate Satisfies(v: Voice, c: Criterion) {
    match c
    case NameHasAny(names) => exists n :: n in names && Contains(v.name, n)
    case LangMatches(code) => MatchesLanguage(v, code)
    case LangStartsWith(prefix) => StartsWith(v.lang, prefix)
    case NameHas(part) => Contains(v.name, part)
  }

  /** `findIndex`: the position of the first voice meeting `c`. */
  function FindIndex(voices: seq<Voice>, c: Criterion): (r: Option<nat>)
    ensures r.Some? ==> r.value < |voices| && Satisfies(voices[r.value], c)
    ensures r.Some? ==> forall j :: 0 <= j < r.value ==> !Satisfies(voices[j], c)
    ensures r.None? ==> forall j :: 0 <= j < |voices| ==> !Satisfies(voices[j], c)
  {
    if voices == [] then None
    else if Satisfies(voices[0], c) then Some(0)
    else match FindIndex(voices[1..], c)
      case None => None
      case Some(k) => Some(k + 1)
  }

  /** Position `i` holds the first voice meeting `c`. */
  predicate FirstMatchAt(voices: seq<Voice>, c: Criterion, i: int) {
    0 <= i < |voices| && Satisfies(voices[i], c) && forall j :: 0 <= j < i ==> !Satisfies(voices[j], c)
  }

  /** `find`: the first voice meeting `c`. */
  function Find(voices: seq<Voice>, c: Criterion): (r: Option<Voice>)
    ensures r.Some? ==> r.value in voices && Satisfies(r.value, c)
    ensures r.None? <==> forall j :: 0 <= j < |voices| ==> !Satisfies(voices[j], c)
    ensures r.Some? ==> exists i :: FirstMatchAt(voices, c, i) && voices[i] == r.value
  {
    match FindIndex(voices, c)
    case Some(i) => Some(voices[i])
    case None => None
  }

  /** The voice names preferred for each language, best first. */
  function PreferredNames(l: Language): seq<string> {
    match l
    case EnUS => ["Samantha", "Google US English Female", "Microsoft Zira", "en-US-Standard-F"]
    case ArLB => ["Laila", "Microsoft Hoda", "ar-XA-Standard-A", "Microsoft Amira", "Arabic Female",
                  "Fatima", "Google العربية", "Amina", "Salma", "Noura", "Microsoft Naayf", "Microsoft Ali"]
    case FrFR => ["Amélie", "Google français Female", "Microsoft Julie", "Audrey", "Marie", "Jolie",
                  "fr-FR-Standard-A", "fr-FR-Standard-C"]
  }

  /** The language codes tried, in order, when no voice has the exact language. */
  function Fallbacks(l: Language): seq<string> {
    match l
    case ArLB => ["ar", "ar-SA", "ar-EG", "ar-*"]
    case FrFR => ["fr-CA", "fr", "fr-*"]
    case EnUS => ["en-GB", "en", "en-*"]
  }

  /** The vendor voice name looked for as a last resort. */
  function GoogleVoiceName(l: Language): string {
    match l
    case ArLB => "Google العربية"
    case FrFR => "Google français"
    case EnUS => "Google US English"
  }

  function FallbackCriteria(codes: seq<string>): (cs: seq<Criterion>)
    ensures |cs| == |codes|
    ensures forall k :: 0 <= k < |codes| ==> cs[k] == LangMatches(codes[k])
  {
    if codes == [] then [] else [LangMatches(codes[0])] + FallbackCriteria(codes[1..])
  }

  /** The whole ranking for a language, best first: a preferred name, the
      exact language, each fallback code, for Arabic any language starting
      with `ar`, and the vendor voice. */
  function Ranking(l: Language): (cs: seq<Criterion>)
    ensures |cs| == 3 + |Fallbacks(l)| + (if l == ArLB then 1 else 0)
    ensures cs[0] == NameHasAny(PreferredNames(l)) && cs[1] == LangMatches(l.Code())
    ensures forall k :: 0 <= k < |Fallbacks(l)| ==> cs[2 + k] == LangMatches(Fallbacks(l)[k])
    ensures l == ArLB ==> cs[|cs| - 2] == LangStartsWith("ar")
    ensures cs[|cs| - 1] == NameHas(GoogleVoiceName(l))
  {
    [NameHasAny(PreferredNames(l)), LangMatches(l.Code())]
    + FallbackCriteria(Fallbacks(l))
    + (if l == ArLB then [LangStartsWith("ar")] else [])
    + [NameHas(GoogleVoiceName(l))]
  }

  /** The first voice meeting the best-ranked criterion that any voice meets. */
  function FirstByRanking(voices: seq<Voice>, cs: seq<Criterion>): Option<Voice>
    decreases |cs|
  {
    if cs == [] then None
    else match Find(voices, cs[0])
      case Some(v) => Some(v)
      case None => FirstByRanking(voices, cs[1..])
  }

  /** Ranking over two lists in turn: the first list decides when it can. */
  lemma {:induction false} FirstByRankingAppend(voices: seq<Voice>, a: seq<Criterion>, b: seq<Criterion>)
    ensures FirstByRanking(voices, a + b)
         == if FirstByRanking(voices, a).Some? then FirstByRanking(voices, a) else FirstByRanking(voices, b)
    decreases |a|
  {
    if a == [] {
      assert a + b == b;
    } else {
      assert (a + b)[0] == a[0];
      assert (a + b)[1..] == a[1..] + b;
      FirstByRankingAppend(voices, a[1..], b);
    }
  }

  /** Whatever the ranking selects is one of the available voices. */
  lemma {:induction false} RankedChoiceIsAvailable(voices: seq<Voice>, cs: seq<Criterion>)
    ensures FirstByRanking(voices, cs).Some? ==> FirstByRanking(voices, cs).value in voices
    decreases |cs|
  {
    if cs != [] && Find(voices, cs[0]).None? {
      RankedChoiceIsAvailable(voices, cs[1..]);
    }
  }

  /** Nothing is selected exactly when no voice meets any criterion. */
  lemma {:induction false} NoChoiceIffNoMatch(voices: seq<Voice>, cs: seq<Criterion>)
    ensures FirstByRanking(voices, cs).None?
        <==> forall k, i :: 0 <= k < |cs| && 0 <= i < |voices| ==> !Satisfies(voices[i], cs[k])
    decreases |cs|
  {
    if cs != [] {
      NoChoiceIffNoMatch(voices, cs[1..]);
      if FirstByRanking(voices, cs).None? {
        forall k, i | 0 <= k < |cs| && 0 <= i < |voices| ensures !Satisfies(voices[i], cs[k]) {
          if k > 0 {
            assert cs[k] == cs[1..][k - 1];
          }
        }
      }
    }
  }

  /** When criteria `0..k-1` match no voice and criterion `k` matches one,
      the selection is the first voice meeting criterion `k`. */
  lemma {:induction false} ChoiceAtFirstViableRank(voices: seq<Voice>, cs: seq<Criterion>, k: nat)
    requires k < |cs|
    requires forall j, i :: 0 <= j < k && 0 <= i < |voices| ==> !Satisfies(voices[i], cs[j])
    requires Find(voices, cs[k]).Some?
    ensures FirstByRanking(voices, cs) == Find(voices, cs[k])
    decreases k
  {
    if k > 0 {
      assert Find(voices, cs[0]).None?;
      forall j, i | 0 <= j < k - 1 && 0 <= i < |voices| ensures !Satisfies(voices[i], cs[1..][j]) {
        assert cs[1..][j] == cs[j + 1];
      }
      ChoiceAtFirstViableRank(voices, cs[1..], k - 1);
    }
  }

  /** A voice with a preferred name wins over everything else, and the
      first such voice in list order is the one chosen. */
  lemma PreferredVoiceWins(voices: seq<Voice>, l: Language, i: nat)
    requires i < |voices| && Satisfies(voices[i], NameHasAny(PreferredNames(l)))
    ensures FirstByRanking(voices, Ranking(l)) == Find(voices, NameHasAny(PreferredNames(l)))
  {
    ChoiceAtFirstViableRank(voices, Ranking(l), 0);
  }

  /** For Arabic, any voice whose language starts with `ar` guarantees that
      some voice is selected. */
  lemma ArabicVoiceIsAlwaysFound(voices: seq<Voice>, i: nat)
    requires i < |voices| && StartsWith(voices[i].lang, "ar")
    ensures FirstByRanking(voices, Ranking(ArLB)).Some?
  {
    var cs := Ranking(ArLB);
    NoChoiceIffNoMatch(voices, cs);
    assert Satisfies(voices[i], cs[|cs| - 2]);
  }

  /** The fallback loop of `setVoiceAndSpeak`: try each code in turn and
      stop at the first that finds a voice. */
  method FindByFallbacks(voices: seq<Voice>, fallbacks: seq<string>) returns (selected: Option<Voice>)
    ensures selected == FirstByRanking(voices, FallbackCriteria(fallbacks))
  {
    selected := None;
    var i := 0;
    while i < |fallbacks|
      invariant 0 <= i <= |fallbacks|
      invariant selected.None?
      invariant FirstByRanking(voices, FallbackCriteria(fallbacks))
             == FirstByRanking(voices, FallbackCriteria(fallbacks[i..]))
    {
      assert fallbacks[i..][1..] == fallbacks[i + 1..];
      selected := Find(voices, LangMatches(fallbacks[i]));
      if selected.Some? {
        break;
      }
      i := i + 1;
    }
  }

  /** The stage only Arabic has: any language starting with `ar`. */
  function ArabicStage(l: Language): seq<Criterion> {
    if l == ArLB then [LangStartsWith("ar")] else []
  }

  lemma RankingShape(l: Language)
    ensures Ranking(l)
         == [NameHasAny(PreferredNames(l))]
          + (([LangMatches(l.Code())] + (FallbackCriteria(Fallbacks(l)) + ArabicStage(l)))
          + [NameHas(GoogleVoiceName(l))])
  {
  }

  /** The language stages of the voice search, tried when no preferred
      name is found: the exact language, the fallback codes, and for
      Arabic any language starting with `ar`. */
  method FindByLanguage(voices: seq<Voice>, language: Language) returns (selected: Option<Voice>)
    ensures selected == FirstByRanking(voices, [LangMatches(language.Code())]
                                              + (FallbackCriteria(Fallbacks(language)) + ArabicStage(language)))
  {
    var exact := LangMatches(language.Code());
    selected := Find(voices, exact);
    if selected.None? {
      selected := FindByFallbacks(voices, Fallbacks(language));
    }
    if selected.None? && language == ArLB {
      selected := Find(voices, LangStartsWith("ar"));
    }
    FirstByRankingAppend(voices, [exact], FallbackCriteria(Fallbacks(language)) + ArabicStage(language));
    FirstByRankingAppend(voices, FallbackCriteria(Fallbacks(language)), ArabicStage(language));
  }

  /** The voice search of `setVoiceAndSpeak`, step by step as written: the
      result is the first voice by the ranking of the language. */
  method SelectVoice(voices: seq<Voice>, language: Language) returns (selected: Option<Voice>)
    ensures selected == FirstByRanking(voices, Ranking(language))
  {
    var preferred := NameHasAny(PreferredNames(language));
    var middle := [LangMatches(language.Code())] + (FallbackCriteria(Fallbacks(language)) + ArabicStage(language));
    var google := NameHas(GoogleVoiceName(language));

    selected := Find(voices, preferred);
    if selected.None? {
      selected := FindByLanguage(voices, language);
    }
    if selected.None? {
      selected := Find(voices, google);
    }

    RankingShape(language);
    assert Ranking(language) == [preferred] + (middle + [google]);
    FirstByRankingAppend(voices, [preferred], middle + [google]);
    FirstByRankingAppend(voices, middle, [google]);
  }

  /** `language.split('-')[0]`: the code up to its first `-`. */
  function BaseLanguage(code: string): (r: string)
    ensures StartsWith(code, r) && '-' !in r
    ensures |r| < |code| ==> code[|r|] == '-'
  {
    if code == [] || code[0] == '-' then [] else [code[0]] + BaseLanguage(code[1..])
  }

  lemma BaseLanguages()
    ensures BaseLanguage(EnUS.Code()) == "en"
    ensures BaseLanguage(ArLB.Code()) == "ar"
    ensures BaseLanguage(FrFR.Code()) == "fr"
  {
  }

  /** The language an utterance is spoken in: the chosen voice's own
      language, or the base language when no voice was found. */
  function UtteranceLang(selected: Option<Voice>, language: Language): (lang: string)
    ensures selected.None? ==> StartsWith(language.Code(), lang) && |lang| == 2
  {
    match selected
    case Some(v) => v.lang
    case None => BaseLanguage(language.Code())
  }

  // ---------------------------------------------------------------------
  // The speech service
  // ---------------------------------------------------------------------

  /** The part of the service's state the source keeps in one record. */
  datatype ServiceState = ServiceState(isListening: bool, recognizedLanguage: Language)

  /** A callback the service invokes on its client. */
  datatype Notification =
    | SpeechStarted
    | SpeechEnded
    | Recognized(text: string, language: Language)
    | Errored(message: string)

  datatype Utterance = Utterance(text: string, lang: string, voice: Option<Voice>)

  /** A request made of the platform's recognizer or synthesizer. */
  datatype PlatformCall =
    | StartRecognition
    | StopRecognition
    | CancelSpeech
    | SpeakUtterance(utterance: Utterance)

  /** What the synthesizer's single `onvoiceschanged` slot holds. */
  datatype VoicesHandler =
    | NoHandler
    | SpeakWhenReady(text: string, language: Language)  // a deferred `speak`
    | ClientWaiter                                       // a client waiting for the voice list

  const StartFailureMessage := "Failed to start recognition"

  /** A recognized transcript as handed to the client: trimmed, then lowered. */
  function TranscriptText(raw: string): string {
    ToLower(Trim(raw))
  }

  /** The transcript handed on is already trimmed and lowered, so
      normalising it again changes nothing. */
  lemma TranscriptIsNormalised(raw: string)
    ensures IsTrimmed(TranscriptText(raw))
    ensures ToLower(TranscriptText(raw)) == TranscriptText(raw)
    ensures TranscriptText(TranscriptText(raw)) == TranscriptText(raw)
  {
    var t := TranscriptText(raw);
    ToLowerIdempotent(Trim(raw));
    TrimOfTrimmed(t);
  }

  class SpeechService {
    /** Whether the browser offers speech recognition. Without it the
        constructor sets up neither recognizer nor synthesizer, and every
        operation returns at once. */
    const supported: bool
    var state: ServiceState
    /** The language the recognizer is configured with. */
    var recognitionLang: Language
    /** Whether a `startListening` restart timer is pending (at most one). */
    var restartPending: bool
    var hasStartCallback: bool
    var hasEndCallback: bool
    var hasResultCallback: bool
    var hasErrorCallback: bool
    var voicesHandler: VoicesHandler
    /** Every request made of the platform so far, in order. */
    var calls: seq<PlatformCall>

    constructor (supported: bool)
      ensures this.supported == supported
      ensures state == ServiceState(false, EnUS) && recognitionLang == EnUS
      ensures !restartPending && voicesHandler == NoHandler && calls == []
      ensures !hasStartCallback && !hasEndCallback && !hasResultCallback && !hasErrorCallback
    {
      this.supported := supported;
      state := ServiceState(false, EnUS);
      recognitionLang := EnUS;
      restartPending := false;
      hasStartCallback, hasEndCallback, hasResultCallback, hasErrorCallback := false, false, false, false;
      voicesHandler := NoHandler;
      calls := [];
    }

    // Callback registration: each slot holds one callback.

    method OnSpeechStart()
      modifies this`hasStartCallback
      ensures hasStartCallback
    {
      hasStartCallback := true;
    }

    method OnSpeechEnd()
      modifies this`hasEndCallback
      ensures hasEndCallback
    {
      hasEndCallback := true;
    }

    method OnResult()
      modifies this`hasResultCallback
      ensures hasResultCallback
    {
      hasResultCallback := true;
    }

    method OnError()
      modifies this`hasErrorCallback
      ensures hasErrorCallback
    {
      hasErrorCallback := true;
    }

    // Platform events of the recognizer.

    /** `onstart`. */
    method RecognitionStarted()
      requires supported
      modifies this`state
      ensures state == old(state).(isListening := true)
    {
      state := state.(isListening := true);
    }

    /** `onend`: listening is over, and a pending restart is dropped. */
    method RecognitionEnded()
      requires supported
      modifies this`state, this`restartPending
      ensures state == old(state).(isListening := false) && !restartPending
    {
      state := state.(isListening := false);
      if restartPending {
        restartPending := false;
      }
    }

    /** `onresult`, given the last result's first transcript and whether it
        is final. An interim result only reports that speech started; a
        final one reports the end of speech and then the transcript, once. */
    method RecognitionResult(isFinal: bool, transcript: string) returns (fired: seq<Notification>)
      requires supported
      ensures !isFinal ==> fired == (if hasStartCallback then [SpeechStarted] else [])
      ensures isFinal ==> fired == (if hasEndCallback then [SpeechEnded] else [])
                                 + (if hasResultCallback then [Recognized(TranscriptText(transcript), state.recognizedLanguage)] else [])
    {
      var text := ToLower(Trim(transcript));
      fired := [];
      if !isFinal {
        if hasStartCallback {
          fired := fired + [SpeechStarted];
        }
      } else {
        if hasEndCallback {
          fired := fired + [SpeechEnded];
        }
        if hasResultCallback {
          fired := fired + [Recognized(text, state.recognizedLanguage)];
        }
      }
    }

    /** `onerror`: the error is reported, listening is over, and a pending
        restart is dropped. */
    method RecognitionError(error: string) returns (fired: seq<Notification>)
      requires supported
      modifies this`state, this`restartPending
      ensures fired == (if hasErrorCallback then [Errored(error)] else [])
      ensures state == old(state).(isListening := false) && !restartPending
    {
      fired := if hasErrorCallback then [Errored(error)] else [];
      state := state.(isListening := false);
      if restartPending {
        restartPending := false;
      }
    }

    // Listening.

    /** `startListening`. `startFails` and `stopFails` say whether the
        recognizer's `start` or `stop` would throw. */
    method StartListening(startFails: bool, stopFails: bool) returns (fired: seq<Notification>)
      modifies this`state, this`restartPending, this`calls
      ensures !supported ==> state == old(state) && restartPending == old(restartPending) && calls == old(calls) && fired == []
      ensures supported && old(state.isListening) ==>
                && restartPending && fired == []
                && calls == old(calls) + [StopRecognition]
                && state == old(state).(isListening := !stopFails)
      ensures supported && !old(state.isListening) ==>
                && !restartPending && state == old(state)
                && calls == old(calls) + [StartRecognition]
                && fired == (if startFails && hasErrorCallback then [Errored(StartFailureMessage)] else [])
    {
      fired := [];
      if !supported {
        return;
      }
      if restartPending {
        restartPending := false;
      }
      if state.isListening {
        StopListening(stopFails);
        restartPending := true;
        return;
      }
      fired := StartListeningInternal(startFails);
    }

    /** `startListeningInternal`: does nothing while listening; otherwise asks
        the recognizer to start, and reports a start that throws. */
    method StartListeningInternal(startFails: bool) returns (fired: seq<Notification>)
      modifies this`state, this`calls
      ensures !supported || old(state.isListening) ==> state == old(state) && calls == old(calls) && fired == []
      ensures supported && !old(state.isListening) ==>
                && state == old(state) && !state.isListening
                && calls == old(calls) + [StartRecognition]
                && fired == (if startFails && hasErrorCallback then [Errored(StartFailureMessage)] else [])
    {
      fired := [];
      if !supported || state.isListening {
        return;
      }
      calls := calls + [StartRecognition];
      if startFails {
        state := state.(isListening := false);
        if hasErrorCallback {
          fired := [Errored(StartFailureMessage)];
        }
      }
    }

    /** The pending restart's timer fires. */
    method RestartTimerFired(startFails: bool) returns (fired: seq<Notification>)
      requires restartPending
      modifies this`state, this`restartPending, this`calls
      ensures !restartPending
      ensures !supported || old(state.isListening) ==> state == old(state) && calls == old(calls) && fired == []
      ensures supported && !old(state.isListening) ==>
                && state == old(state)
                && calls == old(calls) + [StartRecognition]
                && fired == (if startFails && hasErrorCallback then [Errored(StartFailureMessage)] else [])
    {
      restartPending := false;
      fired := StartListeningInternal(startFails);
    }

    /** `stopListening`: always drops a pending restart, and asks the
        recognizer to stop only while listening, so it is harmless when idle. */
    method StopListening(stopFails: bool)
      modifies this`state, this`restartPending, this`calls
      ensures !supported ==> state == old(state) && restartPending == old(restartPending) && calls == old(calls)
      ensures supported ==> !restartPending
      ensures supported && old(state.isListening) ==>
                calls == old(calls) + [StopRecognition] && state == old(state).(isListening := !stopFails)
      ensures supported && !old(state.isListening) ==> calls == old(calls) && state == old(state)
    {
      if !supported {
        return;
      }
      if restartPending {
        restartPending := false;
      }
      if state.isListening {
        calls := calls + [StopRecognition];
        if stopFails {
          state := state.(isListening := false);
        }
      }
    }

    // Language.

    /** `setLanguage`. */
    method SetLanguage(language: Language)
      modifies this`state, this`recognitionLang
      ensures GetCurrentLanguage() == language
      ensures state == old(state).(recognizedLanguage := language)
      ensures recognitionLang == if supported then language else old(recognitionLang)
    {
      state := state.(recognizedLanguage := language);
      if supported {
        recognitionLang := language;
      }
    }

    /** `getCurrentLanguage`. */
    function GetCurrentLanguage(): Language
      reads this`state
    {
      state.recognizedLanguage
    }

    // Speaking.

    /** `speak`: cancels what is being said, then speaks now when the voice
        list is known, or installs a handler that speaks once it is. */
    method Speak(text: string, language: Language, voices: seq<Voice>)
      modifies this`calls, this`voicesHandler, this`restartPending
      ensures calls == old(calls) + SpeakCalls(text, language, voices)
      ensures !supported ==> voicesHandler == old(voicesHandler) && restartPending == old(restartPending)
      ensures supported && voices == [] ==>
                voicesHandler == SpeakWhenReady(text, language) && restartPending == old(restartPending)
      ensures supported && voices != [] ==> voicesHandler == old(voicesHandler) && !restartPending
    {
      if !supported {
        return;
      }
      calls := calls + [CancelSpeech];
      if voices == [] {
        voicesHandler := SpeakWhenReady(text, language);
      } else {
        SetVoiceAndSpeak(text, language, voices);
      }
    }

    /** The requests `speak` makes of the synthesizer at once: none without
        a synthesizer; otherwise a cancel, and the utterance itself when the
        voice list is already known. */
    function SpeakCalls(text: string, language: Language, voices: seq<Voice>): seq<PlatformCall> {
      if !supported then []
      else [CancelSpeech] + (if voices == [] then [] else [SpeakUtterance(ChosenUtterance(text, language, voices))])
    }

    /** The utterance `setVoiceAndSpeak` hands to the synthesizer. */
    static function ChosenUtterance(text: string, language: Language, voices: seq<Voice>): Utterance {
      var selected := FirstByRanking(voices, Ranking(language));
      Utterance(text, UtteranceLang(selected, language), selected)
    }

    /** `setVoiceAndSpeak`: choose the voice, speak, and drop a pending
        restart of the recognizer. */
    method SetVoiceAndSpeak(text: string, language: Language, voices: seq<Voice>)
      modifies this`calls, this`restartPending
      ensures calls == old(calls) + [SpeakUtterance(ChosenUtterance(text, language, voices))]
      ensures !restartPending
    {
      var selected := SelectVoice(voices, language);
      var lang := if selected.Some? then selected.value.lang else BaseLanguage(language.Code());
      calls := calls + [SpeakUtterance(Utterance(text, lang, selected))];
      restartPending := false;
    }

    /** A client starts waiting for the voice list through the same slot. */
    method AwaitVoices()
      modifies this`voicesHandler
      ensures voicesHandler == ClientWaiter
    {
      voicesHandler := ClientWaiter;
    }

    /** The platform reports its voice list; a deferred `speak` goes ahead.
        The handler stays installed, as the source never removes it. */
    method VoicesChanged(voices: seq<Voice>)
      requires voices != []
      modifies this`calls, this`restartPending
      ensures voicesHandler.SpeakWhenReady? ==>
                calls == old(calls) + [SpeakUtterance(ChosenUtterance(voicesHandler.text, voicesHandler.language, voices))]
                && !restartPending
      ensures !voicesHandler.SpeakWhenReady? ==> calls == old(calls) && restartPending == old(restartPending)
    {
      if voicesHandler.SpeakWhenReady? {
        SetVoiceAndSpeak(voicesHandler.text, voicesHandler.language, voices);
      }
    }

    /** The synthesizer starts or finishes an utterance. */
    method UtteranceStarted() returns (fired: seq<Notification>)
      ensures fired == if hasStartCallback then [SpeechStarted] else []
    {
      fired := if hasStartCallback then [SpeechStarted] else [];
    }

    method UtteranceEnded() returns (fired: seq<Notification>)
      ensures fired == if hasEndCallback then [SpeechEnded] else []
    {
      fired := if hasEndCallback then [SpeechEnded] else [];
    }

    /** `stopSpeaking`. */
    method StopSpeaking()
      modifies this`calls
      ensures calls == if supported then old(calls) + [CancelSpeech] else old(calls)
    {
      if supported {
        calls := calls + [CancelSpeech];
      }
    }
  }
}
