/** The request dispatcher: a query goes to the primary text-generation
    service up to `MaxRetries` times, with a linear back-off between
    attempts, and a failing last attempt falls back to the secondary service
    and then to a fixed localized apology. Each remote call is an abstract
    outcome given as input; the calls the dispatcher makes are returned as a
    trace. */
module AIProxy {
  import opened Text
  import opened Options
  import opened Speech

  const MaxRetries: nat := 2
  /** Milliseconds; attempt `k` is preceded by a pause of `RetryDelay * k`. */
  const RetryDelay: nat := 1000

  datatype ProxyRequest = ProxyRequest(query: string, language: Language, systemMessage: string)

  datatype AIResponse = AIResponse(responseText: string, language: Language)

  /** What one primary attempt comes back with. `Status503` is an overloaded
      reply whose error body parses; any other non-success status, and any
      fetch or JSON failure, is `OtherFailure`; a reply without candidate text
      is `BadFormat`. */
  datatype PrimaryOutcome = Ok(text: string) | Status503 | OtherFailure | BadFormat

  /** What the secondary service comes back with: generated text, or any
      failure (a non-success status, a thrown fetch, a missing text field). */
  datatype SecondaryOutcome = SecondaryOk(text: string) | SecondaryFailure

  /** The error kinds the dispatcher records in `lastError`. */
  datatype Error = Overloaded | RequestFailed | InvalidFormat | NotArabic | UnknownError

  /** A call either returns a response or throws. */
  datatype Outcome = Returned(response: AIResponse) | Threw(error: Error)

  /** One step of the dispatcher's trace. */
  datatype Call =
    | Sleep(ms: nat)
    | PrimaryCall(prompt: string)
    | SecondaryCall(model: string, prompt: string)

  // ---------------------------------------------------------------------
  // Pure helpers
  // ---------------------------------------------------------------------

  /** `cleanQuery` (defined by the source, but called nowhere). */
  function CleanQuery(query: string): (r: string)
    ensures IsTrimmed(r)
    ensures exists k :: 0 <= k <= |query| - |r| && r == query[k..k + |r|]
                        && AllWhiteSpace(query[..k]) && AllWhiteSpace(query[k + |r|..])
  {
    Trim(query)
  }

  predicate IsArabicChar(c: char) {
    '\U{0600}' <= c <= '\U{06FF}'
  }

  /** `detectArabicText`: whether the regular expression `[؀-ۿ]`
      finds a match. */
  predicate DetectArabicText(text: string) {
    text != [] && (IsArabicChar(text[0]) || DetectArabicText(text[1..]))
  }

  /** The detector finds Arabic exactly when some character lies in the
      Arabic block. */
  lemma {:induction false} DetectArabicTextIff(text: string)
    ensures DetectArabicText(text) <==> exists i :: 0 <= i < |text| && IsArabicChar(text[i])
  {
    if text != [] {
      DetectArabicTextIff(text[1..]);
      assert forall i :: 1 <= i < |text| ==> text[i] == text[1..][i - 1];
      if DetectArabicText(text[1..]) {
        var j :| 0 <= j < |text[1..]| && IsArabicChar(text[1..][j]);
        assert IsArabicChar(text[j + 1]);
      }
    }
  }

  const ArabicErrorMessage := "عذراً، النظام مشغول حالياً. " + "يرجى المحاولة مرة أخرى بعد قليل."
  const FrenchErrorMessage := "Désolé, le système est " + "actuellement occupé. " + "Veuillez réessayer dans un moment."
  const EnglishErrorMessage := "Sorry, the system is currently busy. " + "Please try again in a moment."

  /** `getLocalizedErrorMessage`. */
  function LocalizedErrorMessage(language: Language): string {
    match language
    case ArLB => ArabicErrorMessage
    case FrFR => FrenchErrorMessage
    case EnUS => EnglishErrorMessage
  }

  /** The three apologies are different, already trimmed, and the Arabic one
      passes the dispatcher's own Arabic check. */
  lemma LocalizedErrorMessages(a: Language, b: Language)
    ensures a != b ==> LocalizedErrorMessage(a) != LocalizedErrorMessage(b)
    ensures IsTrimmed(LocalizedErrorMessage(a))
    ensures DetectArabicText(LocalizedErrorMessage(ArLB))
  {
    assert ArabicErrorMessage[0] != FrenchErrorMessage[0];
    assert FrenchErrorMessage[0] != EnglishErrorMessage[0];
    assert ArabicErrorMessage[0] != EnglishErrorMessage[0];
    assert IsArabicChar(ArabicErrorMessage[0]);
  }

  const ArabicModel := "Salesforce/xgen-7b-8k-arabic"
  const DefaultModel := "mistralai/Mistral-7B-Instruct-v0.1"

  /** The secondary service's model. */
  function SecondaryModel(language: Language): string {
    if language == ArLB then ArabicModel else DefaultModel
  }

  lemma SecondaryModelChoice(language: Language)
    ensures SecondaryModel(language) == ArabicModel <==> language == ArLB
    ensures SecondaryModel(language) == DefaultModel <==> language != ArLB
  {
    assert ArabicModel[0] != DefaultModel[0];
  }

  /** The primary service's prompt. */
  function PrimaryPrompt(systemMessage: string, query: string): string {
    systemMessage + "\n\nUser: " + query
  }

  /** The secondary service's prompt. */
  function SecondaryPrompt(systemMessage: string, query: string): string {
    systemMessage + "\n\nUser: " + query + "\nAssistant:"
  }

  /** Both prompts put the instructions first and the query after a blank
      line; the secondary one adds an assistant cue. */
  lemma PromptShapes(systemMessage: string, query: string)
    ensures StartsWith(PrimaryPrompt(systemMessage, query), systemMessage)
    ensures EndsWith(PrimaryPrompt(systemMessage, query), query)
    ensures SecondaryPrompt(systemMessage, query) == PrimaryPrompt(systemMessage, query) + "\nAssistant:"
  {
    var p := PrimaryPrompt(systemMessage, query);
    assert p[..|systemMessage|] == systemMessage;
    assert p[|p| - |query|..] == query;
  }

  // ---------------------------------------------------------------------
  // One attempt at each service
  // ---------------------------------------------------------------------

  /** How one primary attempt ends: with an answer, on the `continue` path of
      a 503, or by throwing into the `catch` block. */
  datatype AttemptResult = Answer(text: string) | Retry(error: Error) | Caught(error: Error)

  /** The body of the `try` block for one primary attempt. An empty
      candidate text counts as a bad format; the text is trimmed; for
      Arabic, a text without an Arabic character is rejected. */
  function PrimaryAttempt(request: ProxyRequest, outcome: PrimaryOutcome): (r: AttemptResult)
    ensures r.Retry? <==> outcome == Status503
    ensures r.Retry? ==> r.error == Overloaded
    ensures r.Answer? <==> outcome.Ok? && outcome.text != []
                           && (request.language == ArLB ==> DetectArabicText(Trim(outcome.text)))
    ensures r.Answer? ==> r.text == Trim(outcome.text)
  {
    match outcome
    case Status503 => Retry(Overloaded)
    case OtherFailure => Caught(RequestFailed)
    case BadFormat => Caught(InvalidFormat)
    case Ok(raw) =>
      if raw == [] then Caught(InvalidFormat)
      else
        var text := Trim(raw);
        if request.language == ArLB && !DetectArabicText(text) then Caught(NotArabic)
        else Answer(text)
  }

  /** `tryHuggingFaceAPI`: the trimmed generated text is returned, except
      that for Arabic a text without an Arabic character is rejected. */
  function TryHuggingFace(request: ProxyRequest, outcome: SecondaryOutcome): (r: Outcome)
    ensures r.Returned? <==> outcome.SecondaryOk?
                             && (request.language == ArLB ==> DetectArabicText(Trim(outcome.text)))
    ensures r.Returned? ==> r.response == AIResponse(Trim(outcome.text), request.language)
  {
    match outcome
    case SecondaryFailure => Threw(RequestFailed)
    case SecondaryOk(raw) =>
      var text := Trim(raw);
      if request.language == ArLB && !DetectArabicText(text) then Threw(NotArabic)
      else Returned(AIResponse(text, request.language))
  }

  // ---------------------------------------------------------------------
  // The dispatcher
  // ---------------------------------------------------------------------

  /** The trace of the first `n` primary attempts: a pause before each but
      the first, then the call. */
  function AttemptCalls(request: ProxyRequest, n: nat): seq<Call> {
    if n == 0 then []
    else AttemptCalls(request, n - 1)
         + (if n - 1 > 0 then [Sleep(RetryDelay * (n - 1))] else [])
         + [PrimaryCall(PrimaryPrompt(request.systemMessage, request.query))]
  }

  /** The position of the first answer among attempt results. */
  function FirstAnswerIn(results: seq<AttemptResult>): (r: Option<nat>)
    ensures r.Some? ==> r.value < |results| && results[r.value].Answer?
    ensures r.Some? ==> forall k :: 0 <= k < r.value ==> !results[k].Answer?
    ensures r.None? ==> forall k :: 0 <= k < |results| ==> !results[k].Answer?
  {
    if results == [] then None
    else if results[0].Answer? then Some(0)
    else match FirstAnswerIn(results[1..])
      case None => None
      case Some(k) => Some(k + 1)
  }

  /** The first attempt that yields an answer. */
  function FirstAnswer(request: ProxyRequest, outcomes: seq<PrimaryOutcome>): (r: Option<nat>)
    ensures r.Some? ==> r.value < |outcomes| && PrimaryAttempt(request, outcomes[r.value]).Answer?
    ensures r.Some? ==> forall k :: 0 <= k < r.value ==> !PrimaryAttempt(request, outcomes[k]).Answer?
    ensures r.None? ==> forall k :: 0 <= k < |outcomes| ==> !PrimaryAttempt(request, outcomes[k]).Answer?
  {
    var results := seq(|outcomes|, k requires 0 <= k < |outcomes| => PrimaryAttempt(request, outcomes[k]));
    assert forall k :: 0 <= k < |outcomes| ==> results[k] == PrimaryAttempt(request, outcomes[k]);
    FirstAnswerIn(results)
  }

  /** An answering attempt with no answering attempt before it is the
      first answer. */
  lemma FirstAnswerAt(request: ProxyRequest, outcomes: seq<PrimaryOutcome>, k: nat)
    requires k < |outcomes| && PrimaryAttempt(request, outcomes[k]).Answer?
    requires forall j :: 0 <= j < k ==> !PrimaryAttempt(request, outcomes[j]).Answer?
    ensures FirstAnswer(request, outcomes) == Some(k)
  {
  }

  /** No attempt among the first `n + 1` answered. */
  lemma NoAnswerExtends(request: ProxyRequest, outcomes: seq<PrimaryOutcome>, n: nat)
    requires n < |outcomes| && !PrimaryAttempt(request, outcomes[n]).Answer?
    requires forall j :: 0 <= j < n ==> !PrimaryAttempt(request, outcomes[j]).Answer?
    ensures forall j :: 0 <= j < n + 1 ==> !PrimaryAttempt(request, outcomes[j]).Answer?
  {
  }

  /** What the dispatcher does, stated without its loop: the first answering
      attempt wins; without one, a last attempt that hit a 503 makes it
      throw, and any other last failure goes to the secondary service, whose
      own failure becomes the localized apology. */
  function Dispatch(request: ProxyRequest, primary: seq<PrimaryOutcome>, secondary: SecondaryOutcome): (Outcome, seq<Call>)
    requires |primary| == MaxRetries
  {
    match FirstAnswer(request, primary)
    case Some(k) =>
      (Returned(AIResponse(PrimaryAttempt(request, primary[k]).text, request.language)), AttemptCalls(request, k + 1))
    case None =>
      var last := PrimaryAttempt(request, primary[MaxRetries - 1]);
      if last.Retry? then
        (Threw(last.error), AttemptCalls(request, MaxRetries))
      else
        var fallback := TryHuggingFace(request, secondary);
        (if fallback.Returned? then fallback
         else Returned(AIResponse(LocalizedErrorMessage(request.language), request.language)),
         AttemptCalls(request, MaxRetries)
         + [SecondaryCall(SecondaryModel(request.language), SecondaryPrompt(request.systemMessage, request.query))])
  }

  /** `handleAIRequest`, with its counted loop, `lastError`, the `continue`
      of a 503, the return from inside `catch` and the final `throw`.
      `primary[k]` is what attempt `k` would come back with. */
  method HandleAIRequest(request: ProxyRequest, primary: seq<PrimaryOutcome>, secondary: SecondaryOutcome)
    returns (result: Outcome, calls: seq<Call>)
    requires |primary| == MaxRetries
    ensures (result, calls) == Dispatch(request, primary, secondary)
  {
    var lastError: Option<Error> := None;
    calls := [];
    var attempt := 0;
    while attempt < MaxRetries
      invariant 0 <= attempt <= MaxRetries
      invariant calls == AttemptCalls(request, attempt)
      invariant forall k :: 0 <= k < attempt ==> !PrimaryAttempt(request, primary[k]).Answer?
      invariant attempt == 0 ==> lastError.None?
      invariant attempt > 0 ==> lastError == Some(PrimaryAttempt(request, primary[attempt - 1]).error)
      invariant attempt == MaxRetries ==> PrimaryAttempt(request, primary[MaxRetries - 1]).Retry?
    {
      if attempt > 0 {
        calls := calls + [Sleep(RetryDelay * attempt)];
      }
      calls := calls + [PrimaryCall(PrimaryPrompt(request.systemMessage, request.query))];
      assert calls == AttemptCalls(request, attempt + 1);
      var tried := PrimaryAttempt(request, primary[attempt]);
      if tried.Retry? {
        lastError := Some(tried.error);
        NoAnswerExtends(request, primary, attempt);
        attempt := attempt + 1;
        continue;
      }
      if tried.Answer? {
        FirstAnswerAt(request, primary, attempt);
        result := Returned(AIResponse(tried.text, request.language));
        return;
      }
      // the catch block
      lastError := Some(tried.error);
      if attempt == MaxRetries - 1 {
        assert FirstAnswer(request, primary).None?;
        calls := calls + [SecondaryCall(SecondaryModel(request.language), SecondaryPrompt(request.systemMessage, request.query))];
        var fallback := TryHuggingFace(request, secondary);
        if fallback.Returned? {
          result := fallback;
        } else {
          result := Returned(AIResponse(LocalizedErrorMessage(request.language), request.language));
        }
        return;
      }
      NoAnswerExtends(request, primary, attempt);
      attempt := attempt + 1;
    }
    assert FirstAnswer(request, primary).None?;
    result := Threw(if lastError.Some? then lastError.value else UnknownError);
  }

  // ---------------------------------------------------------------------
  // Properties of the dispatcher
  // ---------------------------------------------------------------------

  function PrimaryCallCount(calls: seq<Call>): nat {
    if calls == [] then 0 else (if calls[0].PrimaryCall? then 1 else 0) + PrimaryCallCount(calls[1..])
  }

  function SecondaryCallCount(calls: seq<Call>): nat {
    if calls == [] then 0 else (if calls[0].SecondaryCall? then 1 else 0) + SecondaryCallCount(calls[1..])
  }

  lemma {:induction false} CallCountsAppend(a: seq<Call>, b: seq<Call>)
    ensures PrimaryCallCount(a + b) == PrimaryCallCount(a) + PrimaryCallCount(b)
    ensures SecondaryCallCount(a + b) == SecondaryCallCount(a) + SecondaryCallCount(b)
    decreases |a|
  {
    if a == [] {
      assert a + b == b;
    } else {
      assert (a + b)[1..] == a[1..] + b;
      CallCountsAppend(a[1..], b);
    }
  }

  /** The first `n` attempts make `n` primary calls and no secondary call;
      the first call comes with no pause, and attempt `k > 0` comes right
      after a pause of `RetryDelay * k`. */
  lemma {:induction false} AttemptSchedule(request: ProxyRequest, n: nat)
    ensures PrimaryCallCount(AttemptCalls(request, n)) == n
    ensures SecondaryCallCount(AttemptCalls(request, n)) == 0
    ensures n > 0 ==> |AttemptCalls(request, n)| == 2 * n - 1
    ensures n > 0 ==> AttemptCalls(request, n)[0] == PrimaryCall(PrimaryPrompt(request.systemMessage, request.query))
    ensures forall k :: 0 < k < n ==>
              && AttemptCalls(request, n)[2 * k - 1] == Sleep(RetryDelay * k)
              && AttemptCalls(request, n)[2 * k] == PrimaryCall(PrimaryPrompt(request.systemMessage, request.query))
  {
    if n > 0 {
      AttemptSchedule(request, n - 1);
      var prev := AttemptCalls(request, n - 1);
      var step := (if n - 1 > 0 then [Sleep(RetryDelay * (n - 1))] else [])
                  + [PrimaryCall(PrimaryPrompt(request.systemMessage, request.query))];
      assert AttemptCalls(request, n) == prev + step;
      CallCountsAppend(prev, step);
      CallCountsAppend(step[..|step| - 1], [step[|step| - 1]]);
      assert step == step[..|step| - 1] + [step[|step| - 1]];
    }
  }

  /** Every response the dispatcher returns is in the request's language,
      and its text is trimmed. */
  lemma ResponsesKeepLanguageAndAreTrimmed(request: ProxyRequest, primary: seq<PrimaryOutcome>, secondary: SecondaryOutcome)
    requires |primary| == MaxRetries
    ensures Dispatch(request, primary, secondary).0.Returned? ==>
              && Dispatch(request, primary, secondary).0.response.language == request.language
              && IsTrimmed(Dispatch(request, primary, secondary).0.response.responseText)
  {
    LocalizedErrorMessages(request.language, request.language);
  }

  /** There are at most `MaxRetries` primary calls and at most one secondary
      call; the secondary is called exactly when no attempt answered and the
      last attempt failed through the `catch` block. */
  lemma CallBounds(request: ProxyRequest, primary: seq<PrimaryOutcome>, secondary: SecondaryOutcome)
    requires |primary| == MaxRetries
    ensures PrimaryCallCount(Dispatch(request, primary, secondary).1) <= MaxRetries
    ensures SecondaryCallCount(Dispatch(request, primary, secondary).1) <= 1
    ensures SecondaryCallCount(Dispatch(request, primary, secondary).1) == 1
        <==> FirstAnswer(request, primary).None? && PrimaryAttempt(request, primary[MaxRetries - 1]).Caught?
  {
    var calls := Dispatch(request, primary, secondary).1;
    match FirstAnswer(request, primary)
    case Some(k) =>
      AttemptSchedule(request, k + 1);
    case None =>
      AttemptSchedule(request, MaxRetries);
      if PrimaryAttempt(request, primary[MaxRetries - 1]).Caught? {
        var secondaryCall := SecondaryCall(SecondaryModel(request.language), SecondaryPrompt(request.systemMessage, request.query));
        CallCountsAppend(AttemptCalls(request, MaxRetries), [secondaryCall]);
        assert SecondaryCallCount([secondaryCall]) == 1;
      }
  }

  /** The dispatcher throws exactly when no attempt answered and the last
      one was a 503; it then throws the overload error and never calls the
      secondary service. */
  lemma ThrowsIffLastAttemptOverloaded(request: ProxyRequest, primary: seq<PrimaryOutcome>, secondary: SecondaryOutcome)
    requires |primary| == MaxRetries
    ensures Dispatch(request, primary, secondary).0.Threw?
        <==> FirstAnswer(request, primary).None? && primary[MaxRetries - 1] == Status503
    ensures Dispatch(request, primary, secondary).0.Threw? ==>
              && Dispatch(request, primary, secondary).0.error == Overloaded
              && SecondaryCallCount(Dispatch(request, primary, secondary).1) == 0
  {
    CallBounds(request, primary, secondary);
  }

  /** A 503 on every attempt: two primary calls a second apart, no secondary
      call, and the overload error is thrown. */
  lemma AllOverloadedThrows(request: ProxyRequest, secondary: SecondaryOutcome)
    ensures Dispatch(request, [Status503, Status503], secondary)
         == (Threw(Overloaded),
             [PrimaryCall(PrimaryPrompt(request.systemMessage, request.query)),
              Sleep(1000),
              PrimaryCall(PrimaryPrompt(request.systemMessage, request.query))])
  {
    var call := PrimaryCall(PrimaryPrompt(request.systemMessage, request.query));
    assert AttemptCalls(request, 1) == [call];
    assert AttemptCalls(request, 2) == [call, Sleep(1000), call];
    assert FirstAnswer(request, [Status503]) == None;
  }

  /** For Arabic, every returned text contains an Arabic character: answers
      without one are rejected, and the Arabic apology has them. */
  lemma ArabicResponsesContainArabic(request: ProxyRequest, primary: seq<PrimaryOutcome>, secondary: SecondaryOutcome)
    requires |primary| == MaxRetries && request.language == ArLB
    ensures Dispatch(request, primary, secondary).0.Returned? ==>
              DetectArabicText(Dispatch(request, primary, secondary).0.response.responseText)
  {
    LocalizedErrorMessages(ArLB, ArLB);
  }

  /** Other languages get no content check: a first attempt with any
      non-empty text is answered at once with that text trimmed. */
  lemma OtherLanguagesTakeAnyText(request: ProxyRequest, primary: seq<PrimaryOutcome>, secondary: SecondaryOutcome)
    requires |primary| == MaxRetries && request.language != ArLB
    requires primary[0].Ok? && primary[0].text != []
    ensures Dispatch(request, primary, secondary)
         == (Returned(AIResponse(Trim(primary[0].text), request.language)),
             [PrimaryCall(PrimaryPrompt(request.systemMessage, request.query))])
  {
    assert AttemptCalls(request, 1) == [PrimaryCall(PrimaryPrompt(request.systemMessage, request.query))];
    FirstAnswerAt(request, primary, 0);
  }

  /** "Hello there" has no Arabic character. */
  lemma HelloThereHasNoArabic()
    ensures !DetectArabicText("Hello there")
  {
    var t := "Hello there";
    assert forall i :: 0 <= i < |t| ==> !IsArabicChar(t[i]);
    DetectArabicTextIff(t);
  }

  /** "Hello there" has nothing to trim. */
  lemma HelloThereIsTrimmed()
    ensures Trim("Hello there") == "Hello there"
  {
    TrimOfTrimmed("Hello there");
  }

  /** An English answer to an Arabic request is rejected by the Arabic
      check. */
  lemma EnglishAnswerRejectedForArabic(request: ProxyRequest)
    requires request.language == ArLB
    ensures PrimaryAttempt(request, Ok("Hello there")) == Caught(NotArabic)
  {
    HelloThereHasNoArabic();
    HelloThereIsTrimmed();
  }

  /** An Arabic request answered "Hello there" every time is rejected each
      time, falls back, and when the fallback fails too ends with the
      Arabic apology. */
  lemma ArabicRequestRejectsEnglishAnswer(request: ProxyRequest)
    requires request.language == ArLB
    ensures Dispatch(request, [Ok("Hello there"), Ok("Hello there")], SecondaryFailure).0
         == Returned(AIResponse(ArabicErrorMessage, ArLB))
  {
    EnglishAnswerRejectedForArabic(request);
    var primary := [Ok("Hello there"), Ok("Hello there")];
    assert FirstAnswer(request, primary[1..]) == None;
    assert FirstAnswer(request, primary) == None;
    TotalFailureGivesLocalizedMessage(request, primary, SecondaryFailure);
  }

  /** When both services fail, the answer is the apology in the request's
      language, never an exception. */
  lemma TotalFailureGivesLocalizedMessage(request: ProxyRequest, primary: seq<PrimaryOutcome>, secondary: SecondaryOutcome)
    requires |primary| == MaxRetries
    requires FirstAnswer(request, primary).None? && PrimaryAttempt(request, primary[MaxRetries - 1]).Caught?
    requires TryHuggingFace(request, secondary).Threw?
    ensures Dispatch(request, primary, secondary).0
         == Returned(AIResponse(LocalizedErrorMessage(request.language), request.language))
  {
  }
}
