# Nova voice assistant: a Dafny model

Nova is a browser voice assistant. A click on an animated blob starts
speech recognition. A final transcript is sent to a request dispatcher. The
dispatcher asks a primary text-generation service (Gemini) up to twice and
falls back to a secondary one (Hugging Face). The answer is spoken in the
session's language: English, Lebanese Arabic or French. This project models
the three core files and proves properties of the model:

- `ai_proxy.dfy` (module `AIProxy`): the dispatcher `handleAIRequest`.
  - `HandleAIRequest` is a method with the source's counted loop, `lastError`, the `continue` on a 503 and the `return` inside `catch`.
  - It is proved equal to the loop-free reference function `Dispatch`, and the lemmas are stated about `Dispatch`.
  - Each remote call is an abstract outcome given as input. The calls made (pauses, primary prompts, the secondary model and prompt) are returned as a trace.
- `speech.dfy` (module `Speech`): the `SpeechService` class and the ranked voice search of `setVoiceAndSpeak`.
  - The class keeps the source's fields: listening state, language, restart timer, callback slots and the `onvoiceschanged` slot.
  - It also has a log of the calls made to the platform recognizer and synthesizer.
  - Recognizer and synthesizer events, and timers firing, are methods of their own.
- `voice_assistant.dfy` (module `Assistant`): the `VoiceAssistant` component.
  - React state becomes fields. The callbacks the component registers become methods that the service's events reach.
  - The `await` of the dispatcher splits `handleSpeechResult` in two. `HandleSpeechResult` puts the query in flight and `SettleRequest` finishes it.
- `text.dfy` (module `Text`): the JavaScript string operations used (`trim`, `toLowerCase`, `includes`, `startsWith`, `endsWith`, UTF-16 `length`).
- `options.dfy` (module `Options`): an `Option` type.
- `scenarios.dfy` (module `Scenarios`): event sequences from a fresh mount. Each one states what the user or the platform observes.

Some behaviour of the code as written runs against what the code's own comments and structure say it means to do. The model follows the code:

- **A 503 on the last attempt throws.** The comment above `throw lastError` (`AIProxyService.ts:183`) says that line is never reached. It is: a 503 on the last attempt takes the `continue` path, so the loop ends and `throw lastError` runs. The secondary service is never called then (`ThrowsIffLastAttemptOverloaded`, `AllOverloadedThrows`). The component then says its own processing apology (`OverloadedQuerySpeaksApology`).
- **`startListening` while listening does not restart after a stop that succeeds.** The branch at `SpeechService.ts:111-116` stops the recognizer and schedules `startListeningInternal` 250 ms later, evidently to start again. The recognizer's `onend` cancels that timer. If the timer fires first, the service still believes it is listening, so the internal start does nothing (`RestartDroppedByEnd`, `RestartBeforeEnd`). Only when `stop` throws is the flag cleared at once, and then the timer does start the recognizer again (`FailedStopRestarts`).
- **A language command is still sent as a query.** `handleLanguageCommand` is in the dependency list of `handleSpeechResult` (`VoiceAssistant.tsx:202`), but `handleSpeechResult` never calls it. So "speak arabic" does not change the language. It is sent to the dispatcher as an ordinary query (`LanguagePhraseIsDispatched`).
- **The processing guard can be cleared while a query is in flight.** A click clears it (`VoiceAssistant.tsx:76`) and starts a new session. The final result of that session sends a second query while the first is still unsettled (`OverlappingQueries`). The 300 ms reset, meant to "prevent race conditions" (`VoiceAssistant.tsx:106`), also fires while the query is in flight: a final result triggers the end-of-speech callback before the result callback. That reset lets a second query through only if the platform delivers another final result in the same session.
- **A blank answer is returned but not spoken.** An empty candidate text counts as a bad format. A text of only blanks passes that check, trims to the empty string, is returned as the response, and nothing is said (`BlankAnswerIsSilent`).
- **The greeting can be passed over by a deferred speech.** The greeting and a deferred `speak` share the synthesizer's single `onvoiceschanged` slot. A language chosen while the greeting waits for voices takes the slot. When the voices arrive the confirmation is said, and the greeting is not said then (`GreetingSkippedByDeferredSpeak`).

Several literals in `VoiceAssistant.tsx` hold UTF-8 text that was re-read as Windows-1252 before it was saved. These are the Arabic confirmation, the Arabic phrase for "speak English", "passer à l'anglais", "Passé au français", and the Arabic and French system and error messages. The model uses the text they evidently stand for, decoded back to UTF-8. For the two phrases of the language command it also models the text as written, which can never match (see Findings). The other two core files hold their Arabic and French text correctly encoded.

## Model

| member | source | states |
|---|---|---|
| Text.TrimStartFacts | src/services/AIProxyService.ts:19-21 | what `trimStart` leaves is a suffix that does not start with white space, and only white space was dropped |
| Text.TrimEndFacts | src/services/AIProxyService.ts:19-21 | what `trimEnd` leaves is a prefix that does not end with white space, and only white space was dropped |
| Text.Trim | src/services/AIProxyService.ts:19-21 | `trim` yields a string with no white space at either end, and it is the input with only white space cut from its two ends |
| Text.TrimEmptyIff | src/components/VoiceAssistant.tsx:157 | a string trims to nothing exactly when it is all white space |
| Text.TrimOfTrimmed | src/services/AIProxyService.ts:151 | a string without white space at its ends is its own trim |
| Text.TrimIdempotent | src/services/SpeechService.ts:66 | trimming twice is trimming once |
| Text.LowerChar | src/services/SpeechService.ts:66 | lowering a character never yields a capital, and leaves every other character as it is |
| Text.ToLower | src/services/SpeechService.ts:66 | `toLowerCase` keeps the length, leaves no capital, leaves every other character in place and turns each capital into its small letter |
| Text.LowerCharIdempotent | src/services/SpeechService.ts:66 | lowering a character twice is lowering it once |
| Text.ToLowerIdempotent | src/components/VoiceAssistant.tsx:114 | lowering an already lowered string changes nothing |
| Text.ContainsIff | src/components/VoiceAssistant.tsx:117-118 | `includes` holds exactly when the part occurs at some position |
| Text.ContainsAt | src/components/VoiceAssistant.tsx:117-118 | an occurrence at a given position is found by `includes` |
| Text.LongerNotContained | src/components/VoiceAssistant.tsx:130-132 | nothing longer than a string occurs in it |
| Text.MissingCharNotContained | src/components/VoiceAssistant.tsx:138-139 | a string lacking one character of the part does not contain it |
| Text.Utf16Length | src/components/VoiceAssistant.tsx:157 | the JavaScript `length` lies between the number of characters and twice it, equals the first exactly when no character lies outside the Basic Multilingual Plane and the second exactly when all do |
| Text.Utf16LengthAppend | src/components/VoiceAssistant.tsx:157 | the code units of two strings in turn add up |
| Speech.Language.Code | src/services/SpeechService.ts:1 | each language tag has a two-letter base, a `-` and a two-letter region |
| Speech.RegionalMatchImpliesBase | src/services/SpeechService.ts:206-212 | a voice matching `base-region` also matches `base` |
| Speech.WildcardAfterBaseIsRedundant | src/services/SpeechService.ts:196-212 | the wildcard fallback `xx-*` matches no voice that the earlier plain `xx` missed |
| Speech.FindIndex | src/services/SpeechService.ts:215-219 | the index found is the first voice meeting the criterion, and none is found only when no voice meets it |
| Speech.Find | src/services/SpeechService.ts:224 | `find` returns the first voice in the list meeting the criterion, and returns nothing exactly when none meets it |
| Speech.FallbackCriteria | src/services/SpeechService.ts:227-232 | one language test per fallback code, in order |
| Speech.Ranking | src/services/SpeechService.ts:214-250 | the ranking is preferred names, exact language, each fallback, the Arabic prefix (Arabic only), then the vendor voice |
| Speech.FirstByRankingAppend | src/services/SpeechService.ts:214-250 | searching two rank lists in turn: the first list decides whenever it finds a voice |
| Speech.RankedChoiceIsAvailable | src/services/SpeechService.ts:252-257 | the voice selected is always one of the available voices |
| Speech.NoChoiceIffNoMatch | src/services/SpeechService.ts:252-262 | no voice is selected exactly when no voice meets any criterion |
| Speech.ChoiceAtFirstViableRank | src/services/SpeechService.ts:214-250 | the selection is the first voice meeting the best criterion that any voice meets |
| Speech.PreferredVoiceWins | src/services/SpeechService.ts:214-219 | a voice with a preferred name beats all others, and the first such voice in list order wins |
| Speech.ArabicVoiceIsAlwaysFound | src/services/SpeechService.ts:235-238 | for Arabic, any voice whose language starts with `ar` guarantees a selection |
| Speech.FindByFallbacks | src/services/SpeechService.ts:227-233 | the fallback loop returns the first voice found by the earliest fallback code that finds one |
| Speech.FindByLanguage | src/services/SpeechService.ts:221-239 | the language stages give the first voice by exact language, then fallback codes, then for Arabic any `ar` language |
| Speech.SelectVoice | src/services/SpeechService.ts:203-250 | the step-by-step search returns the first voice by the language's ranking |
| Speech.BaseLanguage | src/services/SpeechService.ts:261 | `split('-')[0]` is the longest prefix without a `-`, ending where the first `-` stands |
| Speech.BaseLanguages | src/services/SpeechService.ts:261 | the base codes are `en`, `ar` and `fr` |
| Speech.UtteranceLang | src/services/SpeechService.ts:252-262 | with no voice found, the utterance language is the two-letter base of the language tag |
| Speech.TranscriptIsNormalised | src/services/SpeechService.ts:66 | the transcript handed on is trimmed and lowered, so normalising it again changes nothing |
| Speech.SpeechService.constructor | src/services/SpeechService.ts:13-44 | not listening, English, no restart pending, no callbacks, no handler, nothing asked of the platform |
| Speech.SpeechService.OnSpeechStart | src/services/SpeechService.ts:339-341 | the speech-start slot is filled |
| Speech.SpeechService.OnSpeechEnd | src/services/SpeechService.ts:343-345 | the speech-end slot is filled |
| Speech.SpeechService.OnResult | src/services/SpeechService.ts:347-349 | the result slot is filled |
| Speech.SpeechService.OnError | src/services/SpeechService.ts:351-353 | the error slot is filled |
| Speech.SpeechService.RecognitionStarted | src/services/SpeechService.ts:49-52 | `onstart` marks the service as listening and changes nothing else |
| Speech.SpeechService.RecognitionEnded | src/services/SpeechService.ts:54-62 | `onend` ends listening and drops any pending restart |
| Speech.SpeechService.RecognitionResult | src/services/SpeechService.ts:64-85 | an interim result fires the start callback only; a final one fires the end callback, then the result callback with the trimmed, lowered transcript and the service's language |
| Speech.SpeechService.RecognitionError | src/services/SpeechService.ts:87-100 | `onerror` passes the error on, ends listening and drops any pending restart |
| Speech.SpeechService.StartListening | src/services/SpeechService.ts:103-120 | while listening it stops the recognizer and leaves one restart pending; when idle it asks for one start and reports a failing start; unsupported does nothing |
| Speech.SpeechService.StartListeningInternal | src/services/SpeechService.ts:122-135 | does nothing while listening; otherwise asks once for a start, and a failing start leaves it not listening and reports the fixed message |
| Speech.SpeechService.RestartTimerFired | src/services/SpeechService.ts:113-115 | the pending restart is consumed, and it starts the recognizer only when not listening |
| Speech.SpeechService.StopListening | src/services/SpeechService.ts:137-153 | always drops a pending restart; stops the recognizer only while listening, so it is harmless when idle; a failing stop ends listening |
| Speech.SpeechService.SetLanguage | src/services/SpeechService.ts:355-365 | the language read back is the one set, and the recognizer follows it when present |
| Speech.SpeechService.Speak | src/services/SpeechService.ts:155-177 | cancels, then speaks at once with a known voice list, or installs a deferred speak in the voices slot |
| Speech.SpeechService.SetVoiceAndSpeak | src/services/SpeechService.ts:179-337 | the utterance carries the ranked voice and its language, or the base language; a pending restart is cancelled |
| Speech.SpeechService.AwaitVoices | src/components/VoiceAssistant.tsx:225-228 | a client waiting for voices takes the single voices slot |
| Speech.SpeechService.VoicesChanged | src/services/SpeechService.ts:168-172 | a deferred speak goes ahead when the voice list arrives; anything else in the slot asks nothing of the platform |
| Speech.SpeechService.UtteranceStarted | src/services/SpeechService.ts:293-297 | an utterance starting fires the start callback when registered |
| Speech.SpeechService.UtteranceEnded | src/services/SpeechService.ts:299-303 | an utterance ending fires the end callback when registered |
| Speech.SpeechService.StopSpeaking | src/services/SpeechService.ts:367-370 | cancels speech when a synthesizer exists, and otherwise does nothing |
| AIProxy.CleanQuery | src/services/AIProxyService.ts:19-21 | the cleaned query has no white space at its ends and is the input with only white space cut from its two ends |
| AIProxy.DetectArabicTextIff | src/services/AIProxyService.ts:23-26 | the detector fires exactly when some character lies in U+0600..U+06FF |
| AIProxy.LocalizedErrorMessages | src/services/AIProxyService.ts:187-196 | the three apologies differ, are trimmed, and the Arabic one passes the Arabic check |
| AIProxy.SecondaryModelChoice | src/services/AIProxyService.ts:36-38 | the Arabic model is used exactly for Arabic requests, the default model for the others |
| AIProxy.PromptShapes | src/services/AIProxyService.ts:47 | both prompts start with the instructions; the primary one ends with the query; the secondary one adds the assistant cue |
| AIProxy.PrimaryAttempt | src/services/AIProxyService.ts:132-160 | an attempt retries exactly on a 503, answers exactly on non-empty text that passes the Arabic check for Arabic, and the answer is that text trimmed |
| AIProxy.TryHuggingFace | src/services/AIProxyService.ts:33-81 | the secondary service returns exactly when it produced text that passes the Arabic check for Arabic, with the trimmed text in the request's language |
| AIProxy.FirstAnswerIn | src/services/AIProxyService.ts:157-160 | the index found is the first answering result, and none is found only without one |
| AIProxy.FirstAnswer | src/services/AIProxyService.ts:87-160 | the first attempt that answers, with no answering attempt before it |
| AIProxy.FirstAnswerAt | src/services/AIProxyService.ts:157-160 | an answering attempt with no answering attempt before it is the first answer |
| AIProxy.HandleAIRequest | src/services/AIProxyService.ts:83-185 | the loop returns the reference outcome and makes exactly the reference calls |
| AIProxy.CallCountsAppend | src/services/AIProxyService.ts:87-91 | call counts add up over concatenated traces |
| AIProxy.AttemptSchedule | src/services/AIProxyService.ts:87-91 | `n` attempts make `n` primary calls, no secondary call, the first without a pause and attempt `k` after a pause of `1000·k` ms |
| AIProxy.ResponsesKeepLanguageAndAreTrimmed | src/services/AIProxyService.ts:73-76 | every response is in the request's language, and its text is trimmed |
| AIProxy.CallBounds | src/services/AIProxyService.ts:166-179 | at most two primary calls and one secondary call; the secondary is called exactly when nothing answered and the last attempt failed through `catch` |
| AIProxy.ThrowsIffLastAttemptOverloaded | src/services/AIProxyService.ts:135-139 | it throws exactly when nothing answered and the last attempt was a 503; it then throws the overload error without calling the secondary |
| AIProxy.AllOverloadedThrows | src/services/AIProxyService.ts:184 | 503 twice gives two primary calls a second apart and a thrown overload error |
| AIProxy.ArabicResponsesContainArabic | src/services/AIProxyService.ts:153-155 | for Arabic every returned text contains an Arabic character |
| AIProxy.OtherLanguagesTakeAnyText | src/services/AIProxyService.ts:150-160 | outside Arabic, a non-empty first answer is returned trimmed after a single call |
| AIProxy.HelloThereHasNoArabic | src/services/AIProxyService.ts:23-26 | "Hello there" has no Arabic character |
| AIProxy.HelloThereIsTrimmed | src/services/AIProxyService.ts:151 | "Hello there" is its own trim |
| AIProxy.EnglishAnswerRejectedForArabic | src/services/AIProxyService.ts:153-155 | the answer "Hello there" to an Arabic request is rejected as not Arabic |
| AIProxy.ArabicRequestRejectsEnglishAnswer | src/services/AIProxyService.ts:162-178 | an Arabic request answered "Hello there" twice, with a failing fallback, gets the Arabic apology |
| AIProxy.TotalFailureGivesLocalizedMessage | src/services/AIProxyService.ts:171-177 | when both services fail the response is the apology in the request's language, not an exception |
| Assistant.GetTimeBasedGreeting | src/components/VoiceAssistant.tsx:27-54 | the greeting is in English: morning exactly from 5 to 11, afternoon exactly from 12 to 16, evening exactly otherwise |
| Assistant.MessagesDifferByLanguage | src/components/VoiceAssistant.tsx:166-197 | the system message, the processing apology and the confirmation differ by language, and each Arabic one passes the Arabic check |
| Assistant.Decide | src/components/VoiceAssistant.tsx:113-146 | on a lowered transcript, a switch always leads away from the current language, and from Arabic or French only to English |
| Assistant.LanguageCommand | src/components/VoiceAssistant.tsx:113-146 | with the phrases as meant, a switch always leads away from the current language, and from Arabic or French only to English |
| Assistant.LanguageCommandAsWritten | src/components/VoiceAssistant.tsx:113-146 | with the phrases as spelt in the file, a switch still leads away from the current language |
| Assistant.MisencodedTriggersNeverMatch | src/components/VoiceAssistant.tsx:123-131 | the Arabic "speak English" phrase and "passer à l'anglais", as spelt in the file, are found in no lowered transcript |
| Assistant.AsWrittenIgnoresMisencodedPhrases | src/components/VoiceAssistant.tsx:122-134 | as written, Arabic sessions switch only on "speak english", French ones only on "parle anglais" or "speak english", and English ones as meant |
| Assistant.ArabicPhraseSwitchesOnlyWhenDecoded | src/components/VoiceAssistant.tsx:122-126 | "تكلم انجليزي" in an Arabic session switches to English with the phrase as meant, and does nothing as written |
| Assistant.LanguageCommandIgnoresCase | src/components/VoiceAssistant.tsx:114 | a transcript and its lowered form ask for the same switch |
| Assistant.ArabicBeforeFrench | src/components/VoiceAssistant.tsx:117-122 | an English transcript asking for Arabic switches to Arabic, even if it also asks for French |
| Assistant.PhraseForOtherLanguageIgnored | src/components/VoiceAssistant.tsx:130-136 | in a French session "speak arabic" is no command |
| Assistant.SpeakFrenchExample | src/components/VoiceAssistant.tsx:138-143 | "Please SPEAK French" switches an English session to French |
| Assistant.NoiseIff | src/components/VoiceAssistant.tsx:157-160 | a transcript is noise exactly when it trims to nothing or to a single character of the Basic Multilingual Plane |
| Assistant.Reply | src/components/VoiceAssistant.tsx:184-197 | nothing is said exactly for an empty response; a response's text is said as it is; a throw says the processing apology |
| Assistant.ArabicRepliesAreArabic | src/components/VoiceAssistant.tsx:184-197 | in an Arabic session everything said after a query contains Arabic |
| Assistant.BlankAnswerIsSilent | src/components/VoiceAssistant.tsx:184-186 | an English answer of one blank is returned empty and not said |
| Assistant.VoiceAssistant.constructor | src/components/VoiceAssistant.tsx:205-283 | mounting registers all four callbacks, schedules the hour's greeting and brings the language to English |
| Assistant.VoiceAssistant.HandleSpeechStart | src/components/VoiceAssistant.tsx:95-98 | the blob shows speaking |
| Assistant.VoiceAssistant.HandleSpeechEnd | src/components/VoiceAssistant.tsx:101-110 | the blob idles at once and one more guard reset is pending |
| Assistant.VoiceAssistant.ProcessingResetFired | src/components/VoiceAssistant.tsx:107-109 | a pending reset fires and clears the guard |
| Assistant.VoiceAssistant.HandleError | src/components/VoiceAssistant.tsx:213-216 | an error idles the blob and clears the guard |
| Assistant.VoiceAssistant.HandleSpeechResult | src/components/VoiceAssistant.tsx:149-181 | ignored while busy; noise leaves the guard clear; otherwise the blob shows responding and the query is sent in the session's language |
| Assistant.VoiceAssistant.SettleRequest | src/components/VoiceAssistant.tsx:177-201 | the outcome is the dispatcher's; the reply is said in the query's language; the guard is cleared and the blob idles whatever happened |
| Assistant.VoiceAssistant.HandleBlobClick | src/components/VoiceAssistant.tsx:63-83 | a click while listening stops and idles; otherwise speech is cancelled and listening starts, and a failing start idles the blob |
| Assistant.VoiceAssistant.SetLanguage | src/components/VoiceAssistant.tsx:265-269 | the component's language follows every language set on the service |
| Assistant.VoiceAssistant.HandleLanguageCommand | src/components/VoiceAssistant.tsx:113-146 | handled exactly when the transcript asks for a switch; then the component, the service and the recognizer take the new language, listening is untouched, and the confirmation is said or waits in the voices slot; otherwise nothing changes |
| Assistant.VoiceAssistant.HandleLanguageClick | src/components/VoiceAssistant.tsx:286-288 | the menu toggles |
| Assistant.VoiceAssistant.HandleLanguageSelect | src/components/VoiceAssistant.tsx:291-304 | the component, the service and the recognizer take the language, listening is untouched, the menu closes, and the confirmation is said or waits in the voices slot |
| Assistant.VoiceAssistant.Greet | src/components/VoiceAssistant.tsx:232-234 | with the voice list there, the greeting is said, the blob shows responding, the greet-once flag is set and the voices slot is left alone |
| Assistant.VoiceAssistant.GreetingTimerFired | src/components/VoiceAssistant.tsx:223-246 | with no voices the greeting waits in the voices slot and nothing is said; otherwise it is said at once and the slot is left alone |
| Assistant.VoiceAssistant.VoicesChanged | src/components/VoiceAssistant.tsx:225-233 | the voice list releases a deferred speak, leaving the blob and the greeting as they were, or says the waiting greeting; a replaced waiter leaves the greeting unsaid |
| Assistant.VoiceAssistant.GreetingFinished | src/components/VoiceAssistant.tsx:237-240 | after the greeting the blob idles and the guard is cleared |
| Assistant.VoiceAssistant.RecognitionStarted | src/services/SpeechService.ts:49-52 | `onstart` marks the service listening and leaves the component as it was |
| Assistant.VoiceAssistant.RecognitionEnded | src/services/SpeechService.ts:54-62 | `onend` ends listening and drops a pending restart, leaving the component as it was |
| Assistant.VoiceAssistant.RecognitionErrored | src/services/SpeechService.ts:87-100 | a recognizer error ends listening and idles the blob with the guard cleared |
| Assistant.VoiceAssistant.RecognitionResult | src/services/SpeechService.ts:64-85 | an interim result shows speaking; a final one schedules a reset and then handles the normalised transcript |
| Assistant.VoiceAssistant.RestartTimerFired | src/services/SpeechService.ts:113-115 | the restart starts the recognizer only when not listening, and a failing start idles the blob |
| Assistant.VoiceAssistant.UtteranceStarted | src/services/SpeechService.ts:293-297 | speech output starting shows speaking |
| Assistant.VoiceAssistant.UtteranceEnded | src/services/SpeechService.ts:299-303 | speech output ending idles the blob and schedules a reset |
| Scenarios.PlainTranscript | src/components/VoiceAssistant.tsx:157 | a trimmed, lowered transcript of two or more characters is handed on unchanged and is no noise |
| Scenarios.SpeakArabicIsCommand | src/components/VoiceAssistant.tsx:117 | "speak arabic" asks an English session to switch to Arabic |
| Scenarios.RestartDroppedByEnd | src/services/SpeechService.ts:54-62 | start while listening, then `onend`: the log is one start and one stop, and nothing is pending or listening |
| Scenarios.RestartBeforeEnd | src/services/SpeechService.ts:113-123 | start while listening, then the timer, then `onend`: still one start and one stop, and not listening |
| Scenarios.FailedStopRestarts | src/services/SpeechService.ts:111-151 | start while listening with a stop that throws, then the timer: the recognizer is started a second time |
| Scenarios.LanguagePhraseIsDispatched | src/components/VoiceAssistant.tsx:149-181 | a switch phrase heard in English is sent as a query and the language stays English |
| Scenarios.OverlappingQueries | src/components/VoiceAssistant.tsx:72-82 | a click while the first query is in flight clears the guard, and the next session's final result sends a second query |
| Scenarios.OverloadedQuerySpeaksApology | src/components/VoiceAssistant.tsx:187-201 | a query met by 503 twice makes the dispatcher throw, and the English processing apology is said |
| Scenarios.GreetInTheEvening | src/components/VoiceAssistant.tsx:219-246 | mounted in the evening with no voices, the evening greeting is said once they arrive, and the flag is set |
| Scenarios.GreetingSkippedByDeferredSpeak | src/services/SpeechService.ts:166-173 | a language chosen while the greeting waits takes the voices slot; when the voices come its confirmation is said and the greeting is still waiting |
| Scenarios.FirstAnswerSaid | src/services/AIProxyService.ts:150-160 | outside Arabic, a first answer that needs no trimming is the response |
| Scenarios.ClickStartsListening | src/components/VoiceAssistant.tsx:72-82 | a click on the idle blob cancels speech, starts recognition and shows listening |
| Scenarios.AnswerIsSaid | src/components/VoiceAssistant.tsx:177-201 | a final transcript shows responding; the answer is said in English and the blob idles |
| Scenarios.BusyGuard | src/components/VoiceAssistant.tsx:151 | a duplicate final result in the same session is ignored while the first query is in flight, and a transcript is accepted once it has settled |

## Left out

- Network, JSON and timers:
  - The network requests, HTTP and JSON parsing are not modelled. Each remote call is an abstract outcome, and a 503 whose error body fails to parse counts as an ordinary failure.
  - The pause before a retry appears as a `Sleep` entry in the trace. Real time is not modelled.
  - Timers are events the caller fires. This covers the 250 ms restart, the 300 ms reset, the 2 s greeting delay and the 500 ms greeting reset.
- The platform:
  - The browser's recognizer and synthesizer are stood in for by the log of calls and the event methods.
  - `startFails`, `stopFails` and the voice list are inputs. A feature-detection flag stands for the browser's support.
- `setVoiceAndSpeak` details:
  - The 100 ms and 50 ms delays, the second `cancel` and the `resume` are not modelled. The utterance is logged at once.
  - The clearing of the restart timer is modelled as the timer being cancelled.
  - Pitch, rate and volume, and the `onerror` handler that only logs, are not modelled. They are floating-point or logging only.
- Text.ToLower and Assistant.LanguageCommand: `toLowerCase` maps only the ASCII and Latin-1 capitals here. Every other character is left as it is, where JavaScript lowers Greek, Cyrillic and Latin Extended capitals, the Kelvin sign U+212A (to "k") and U+0130 (to two characters, which changes the length). So "SPEA\u212A ENGLISH" switches a French session to English in the program but not in the model.
- Assistant.LanguageCommand: uses the Arabic and French phrases as meant. As spelt in the file they can never match; `LanguageCommandAsWritten` models that (see Findings).
- Assistant.MessagesDifferByLanguage: proved of the Arabic confirmation, system message and processing apology as meant. As spelt in the file (`VoiceAssistant.tsx:120`, `:169`, `:192`, `:299`) they hold no character of the Arabic block U+0600-U+06FF, so the Arabic check fails on them in the program.
- Assistant.ArabicRepliesAreArabic: holds with the Arabic processing apology as meant. As spelt in the file (`VoiceAssistant.tsx:192`) that apology holds no Arabic-block character, so in the program an Arabic session's apology fails the Arabic check. Answers from the dispatcher are not affected.
- Scenarios.GreetingSkippedByDeferredSpeak: shows the greeting still waiting when the voices come. In the program a language change also re-runs the mount effect: `handleSpeechResult` depends on the language (`VoiceAssistant.tsx:202`) and is one of the effect's dependencies (`:256`). The greet-once flag is still clear, so that re-run schedules a new greeting 2 s later. Effect re-runs are not modelled.
- Recognition sessions: a result or an error may arrive whenever the service is supported, since the handlers do not check for an active session. `continuous = false` (`SpeechService.ts:37`), which ends a session after one final result, is not modelled. The duplicate final result in `BusyGuard`, and the second final result in one session that the 300 ms reset needs to let a second query through, assume the platform can deliver one.
- `getVoices` is an input to each call that reads the voice list, not platform state that the model tracks.
- `Speech.SpeechService.VoicesChanged` and `Assistant.VoiceAssistant.VoicesChanged`: these require a non-empty voice list, because the platform reports voices only once it has some.
- Assistant.VoiceAssistant.HandleSpeechResult and Scenarios.BusyGuard: the result callback registered with the service is the `handleSpeechResult` of the last render that re-ran the mount effect (`VoiceAssistant.tsx:212`, `:256`). It reads `isProcessing` and `currentLanguage` as of that render, while the model reads the current fields. A final result that arrives before React re-renders and re-registers the callback sees the earlier guard and language, so a duplicate result can pass the guard that `BusyGuard` shows as closed. The request, the reply and the apology all use that one captured language (`:177-198`), which `SettleRequest` keeps by settling in the query's language. Closure capture is not modelled.
- React effect re-runs are not modelled. These include re-registering callbacks, the cleanup that stops listening and speaking when the mount effect re-runs, and the greeting timer being rescheduled before it fires. The model registers once at mount.
- FaviconService, the amplitude, the click mode and the hotword handler are not modelled. They only change the display, and the hotword handler is never wired.
- `CleanQuery`: modelled, but the source never calls it.

## Findings

| source | as written | input that shows it | evidently intended | confidence | as-written member | corrected member |
|---|---|---|---|---|---|---|
| src/components/VoiceAssistant.tsx:123-131 | the Arabic "speak English" phrase and "passer à l'anglais" are spelt as UTF-8 read back as Windows-1252; both then hold capitals ("Ø", "Ã"), and the transcript is lowered before matching, so neither phrase ever matches (`MisencodedTriggersNeverMatch`, `AsWrittenIgnoresMisencodedPhrases`) | "تكلم انجليزي" heard in an Arabic session (`ArabicPhraseSwitchesOnlyWhenDecoded`) | the phrase switches the session to English | not executed | Assistant.LanguageCommandAsWritten | Assistant.LanguageCommand |
