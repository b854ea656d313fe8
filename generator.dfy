/** The orchestration around the language-model calls in
    `rag/final/generator.py`: the bounded retry loop, the per-attempt prompt
    escalation of the three invokers, the rendering of retrieved context,
    the schema choice of the search-grounded market item and the
    market-size fallback over widening market levels.

    Every external call (the model, the file upload, JSON parsing and
    validation) is a function parameter returning an `Attempt`. */
module Generator {
  import opened Wrappers
  import opened Text
  import opened JsonRepair
  import opened JsonRepairProperties
  import opened JsonRepairExamples
  import opened Schemas

  /** One call of a fallible operation: its value, or an exception whose
      `str()` is `message`. */
  datatype Attempt<+T> = Succeeded(value: T) | Raised(message: string)

  /** How `retry_llm_call` raises: a RuntimeError once every attempt failed,
      or, when no attempt was made, the `raise last_error` of a `None`, which
      Python reports as a TypeError. */
  datatype RetryError = Exhausted(message: string) | NoAttempt

  /** `str()` of the exception a retry error stands for. */
  function RetryMessage(e: RetryError): string
  {
    match e
    case Exhausted(m) => m
    case NoAttempt => "exceptions must derive from BaseException"
  }

  // ---------------------------------------------------------------------
  // Retry policy
  // ---------------------------------------------------------------------

  /** What the retry loop returns when it reaches attempt `k` (all earlier
      attempts having raised). */
  function RetryFrom<T>(fn: int -> Attempt<T>, k: int, maxRetry: int, errorPrefix: string): Result<T, RetryError>
    requires 1 <= k <= maxRetry
    decreases maxRetry - k
  {
    match fn(k)
    case Succeeded(v) => Ok(v)
    case Raised(m) =>
      if k < maxRetry then RetryFrom(fn, k + 1, maxRetry, errorPrefix)
      else Err(Exhausted(errorPrefix + ": " + m))
  }

  /** The value or error of `retry_llm_call(fn, max_retry, error_prefix)`. */
  function RetryOutcome<T>(fn: int -> Attempt<T>, maxRetry: int, errorPrefix: string): Result<T, RetryError>
  {
    if maxRetry < 1 then Err(NoAttempt) else RetryFrom(fn, 1, maxRetry, errorPrefix)
  }

  /** The retry loop. `calls` lists the attempt numbers passed to `fn`, in
      order; `sleeps` counts the pauses between attempts. */
  method RetryLlmCall<T>(fn: int -> Attempt<T>, maxRetry: int, errorPrefix: string)
    returns (r: Result<T, RetryError>, calls: seq<int>, sleeps: nat)
    ensures r == RetryOutcome(fn, maxRetry, errorPrefix)
    ensures forall i :: 0 <= i < |calls| ==> calls[i] == i + 1
    ensures forall i :: 0 <= i < |calls| - 1 ==> fn(calls[i]).Raised?
    ensures maxRetry < 1 ==> calls == [] && sleeps == 0 && r == Err(NoAttempt)
    ensures maxRetry >= 1 ==> 1 <= |calls| <= maxRetry && sleeps == |calls| - 1
    ensures r.Ok? ==> calls != [] && fn(|calls|) == Succeeded(r.value)
    ensures r.Err? && maxRetry >= 1 ==>
      |calls| == maxRetry && fn(maxRetry).Raised? &&
      r.error == Exhausted(errorPrefix + ": " + fn(maxRetry).message)
  {
    calls := [];
    sleeps := 0;
    var attempt := 1;
    while attempt <= maxRetry
      invariant 1 <= attempt && (attempt == 1 || attempt <= maxRetry)
      invariant |calls| == attempt - 1 && sleeps == |calls|
      invariant forall i :: 0 <= i < |calls| ==> calls[i] == i + 1 && fn(calls[i]).Raised?
      invariant attempt <= maxRetry ==>
        RetryOutcome(fn, maxRetry, errorPrefix) == RetryFrom(fn, attempt, maxRetry, errorPrefix)
      decreases maxRetry - attempt
    {
      calls := calls + [attempt];
      match fn(attempt) {
        case Succeeded(v) =>
          r := Ok(v);
          return;
        case Raised(m) =>
          if attempt < maxRetry {
            sleeps := sleeps + 1;
          } else {
            r := Err(Exhausted(errorPrefix + ": " + m));
            return;
          }
      }
      attempt := attempt + 1;
    }
    r := Err(NoAttempt);
  }

  lemma {:induction false} RetryFromFirstSuccess<T>(fn: int -> Attempt<T>, j: int, k: int, maxRetry: int, errorPrefix: string)
    requires 1 <= j <= k <= maxRetry
    requires forall i :: j <= i < k ==> fn(i).Raised?
    requires fn(k).Succeeded?
    ensures RetryFrom(fn, j, maxRetry, errorPrefix) == Ok(fn(k).value)
    decreases k - j
  {
    if j < k {
      RetryFromFirstSuccess(fn, j + 1, k, maxRetry, errorPrefix);
    }
  }

  /** When attempt k is the first to succeed, its value is returned. */
  lemma RetryOutcomeFirstSuccess<T>(fn: int -> Attempt<T>, k: int, maxRetry: int, errorPrefix: string)
    requires 1 <= k <= maxRetry
    requires forall i :: 1 <= i < k ==> fn(i).Raised?
    requires fn(k).Succeeded?
    ensures RetryOutcome(fn, maxRetry, errorPrefix) == Ok(fn(k).value)
  {
    RetryFromFirstSuccess(fn, 1, k, maxRetry, errorPrefix);
  }

  lemma {:induction false} RetryFromExhausted<T>(fn: int -> Attempt<T>, j: int, maxRetry: int, errorPrefix: string)
    requires 1 <= j <= maxRetry
    requires forall i :: j <= i <= maxRetry ==> fn(i).Raised?
    ensures RetryFrom(fn, j, maxRetry, errorPrefix) == Err(Exhausted(errorPrefix + ": " + fn(maxRetry).message))
    decreases maxRetry - j
  {
    if j < maxRetry {
      RetryFromExhausted(fn, j + 1, maxRetry, errorPrefix);
    }
  }

  /** When every attempt raises, the last error is reported under the prefix. */
  lemma RetryOutcomeExhausted<T>(fn: int -> Attempt<T>, maxRetry: int, errorPrefix: string)
    requires maxRetry >= 1
    requires forall i :: 1 <= i <= maxRetry ==> fn(i).Raised?
    ensures RetryOutcome(fn, maxRetry, errorPrefix) == Err(Exhausted(errorPrefix + ": " + fn(maxRetry).message))
  {
    RetryFromExhausted(fn, 1, maxRetry, errorPrefix);
  }

  lemma {:induction false} RetryFromSucceeds<T>(fn: int -> Attempt<T>, j: int, maxRetry: int, errorPrefix: string)
    requires 1 <= j <= maxRetry
    requires RetryFrom(fn, j, maxRetry, errorPrefix).Ok?
    ensures exists k :: j <= k <= maxRetry && fn(k) == Succeeded(RetryFrom(fn, j, maxRetry, errorPrefix).value)
    decreases maxRetry - j
  {
    if fn(j).Raised? {
      RetryFromSucceeds(fn, j + 1, maxRetry, errorPrefix);
    }
  }

  /** A returned value is the value of one of the attempts. */
  lemma RetryOutcomeSucceeds<T>(fn: int -> Attempt<T>, maxRetry: int, errorPrefix: string)
    requires RetryOutcome(fn, maxRetry, errorPrefix).Ok?
    ensures exists k :: 1 <= k <= maxRetry && fn(k) == Succeeded(RetryOutcome(fn, maxRetry, errorPrefix).value)
  {
    RetryFromSucceeds(fn, 1, maxRetry, errorPrefix);
  }

  // ---------------------------------------------------------------------
  // Prompt escalation and the three invokers
  // ---------------------------------------------------------------------

  /** The prompt of one attempt: verbatim on the first, followed by a blank
      line and the strict-JSON instruction from the second on. */
  function EscalatedPrompt(prompt: string, strict: string, attempt: int): (r: string)
    ensures prompt <= r
    ensures r == prompt <==> attempt < 2
    ensures attempt >= 2 ==> r[|prompt|..] == "\n\n" + strict
  {
    if attempt >= 2 then prompt + "\n\n" + strict else prompt
  }

  /** The instruction is appended to the original prompt, not to the
      previous attempt's: every retry sends the same text. */
  lemma EscalationIsNotCumulative(prompt: string, strict: string, j: int, k: int)
    requires 2 <= j && 2 <= k
    ensures EscalatedPrompt(prompt, strict, j) == EscalatedPrompt(prompt, strict, k)
  {
    var a := EscalatedPrompt(prompt, strict, j);
    var b := EscalatedPrompt(prompt, strict, k);
    assert a == a[..|prompt|] + a[|prompt|..];
    assert b == b[..|prompt|] + b[|prompt|..];
  }

  /** `_parse_llm_json`: `json.loads` and schema validation (`parse`) of
      the salvaged reply. */
  function ParseLlmJson<T>(raw: string, parse: string -> Attempt<T>): Attempt<T>
  {
    parse(CleanJsonString(raw))
  }

  /** Prose before the fence, the fences and the blanks around an object do
      not change what reaches the parser. */
  lemma ParseIgnoresFences<T>(pre: string, g1: string, o: string, g2: string, parse: string -> Attempt<T>)
    requires '`' !in pre && '{' !in pre && '\\' !in pre && NoSmartQuote(pre)
    requires o != [] && o[0] == '{' && o[|o| - 1] == '}'
    requires '`' !in o && NoSmartQuote(o) && NoEscapedApostrophe(o)
    requires AllSpace(g1) && AllSpace(g2)
    ensures ParseLlmJson(pre + JsonFence + g1 + o + g2 + Fence, parse) == ParseLlmJson(o, parse)
  {
    CleanAround(pre, g1, o, g2);
  }

  /** The fenced reply of the examples reaches the parser as the bare object. */
  lemma ParseFencedReply<T>(parse: string -> Attempt<T>)
    ensures ParseLlmJson("```json\n{\"a\":1}\n```", parse) == parse("{\"a\":1}")
  {
    FencedObject();
  }

  /** A chain input value: a text, or Python's `None` (the task of an item
      without a prompt). */
  type InputValue = Option<string>

  /** The TypeError of `final_inputs["task"] += ...` on a `None` task. */
  const NoneConcatMessage := "unsupported operand type(s) for +=: 'NoneType' and 'str'"

  /** What attempts 2 and later build from the inputs. */
  function EscalatedInputs(inputs: map<string, InputValue>, strict: string): Attempt<map<string, InputValue>>
  {
    if "task" !in inputs then Raised("'task'")
    else if inputs["task"].None? then Raised(NoneConcatMessage)
    else Succeeded(inputs["task" := Some(inputs["task"].value + "\n\n" + strict)])
  }

  /** The inputs of one LangChain attempt: a copy of the caller's map whose
      `"task"` entry gets the instruction from attempt 2 on. There a missing
      `"task"` raises KeyError and a `None` task raises TypeError; at attempt 1
      the copy is sent as it is, `None` included. */
  function LangchainInputs(inputs: map<string, InputValue>, strict: string, attempt: int): (r: Attempt<map<string, InputValue>>)
    ensures attempt < 2 ==> r == Succeeded(inputs)
    ensures attempt >= 2 ==> (r.Raised? <==> "task" !in inputs || inputs["task"].None?)
    ensures attempt >= 2 && "task" !in inputs ==> r == Raised("'task'")
    ensures attempt >= 2 && "task" in inputs && inputs["task"].None? ==> r == Raised(NoneConcatMessage)
    ensures r.Succeeded? ==> r.value.Keys == inputs.Keys
    ensures r.Succeeded? ==> forall k :: k in inputs && k != "task" ==> r.value[k] == inputs[k]
    ensures r.Succeeded? && "task" in inputs && inputs["task"].Some? ==>
      r.value["task"] == Some(EscalatedPrompt(inputs["task"].value, strict, attempt))
  {
    if attempt >= 2 then EscalatedInputs(inputs, strict) else Succeeded(inputs)
  }

  /** One `_call(attempt)` of `_invoke_langchain`. `invoke(attempt, m)` is
      the chain's reply to the inputs `m` at that attempt: every attempt is a
      fresh model call, so a retry may succeed where the one before failed. */
  function LangchainAttempt<T>(inputs: map<string, InputValue>, strict: string,
                               invoke: (int, map<string, InputValue>) -> Attempt<string>,
                               parse: string -> Attempt<T>, attempt: int): (r: Attempt<T>)
    ensures LangchainInputs(inputs, strict, attempt).Raised? ==>
      r == Raised(LangchainInputs(inputs, strict, attempt).message)
    ensures r.Succeeded? ==>
      var sent := LangchainInputs(inputs, strict, attempt);
      sent.Succeeded? && invoke(attempt, sent.value).Succeeded? &&
      ParseLlmJson(invoke(attempt, sent.value).value, parse) == r
  {
    match LangchainInputs(inputs, strict, attempt)
    case Raised(m) => Raised(m)
    case Succeeded(finalInputs) =>
      match invoke(attempt, finalInputs)
      case Raised(m) => Raised(m)
      case Succeeded(raw) => ParseLlmJson(raw, parse)
  }

  function LangchainAttemptFn<T>(inputs: map<string, InputValue>, strict: string,
                                 invoke: (int, map<string, InputValue>) -> Attempt<string>,
                                 parse: string -> Attempt<T>): int -> Attempt<T>
  {
    (attempt: int) => LangchainAttempt(inputs, strict, invoke, parse, attempt)
  }

  const LangchainErrorPrefix := "LangChain LLM 처리 실패"
  const GeminiErrorPrefix := "Gemini 처리 실패"
  const GeminiCacheErrorPrefix := "Gemini(Cache) 처리 실패"
  const InvokerMaxRetry := 3

  /** `_invoke_langchain`: three attempts; `inputs` itself, a value, is
      never changed. `prepared[i]` is what attempt `i + 1` builds: the map
      the chain then receives, or the error raised before the call. */
  method InvokeLangchain<T>(inputs: map<string, InputValue>, strict: string,
                            invoke: (int, map<string, InputValue>) -> Attempt<string>,
                            parse: string -> Attempt<T>)
    returns (r: Result<T, RetryError>, prepared: seq<Attempt<map<string, InputValue>>>)
    ensures r == RetryOutcome(LangchainAttemptFn(inputs, strict, invoke, parse), InvokerMaxRetry, LangchainErrorPrefix)
    ensures 1 <= |prepared| <= InvokerMaxRetry
    ensures forall i :: 0 <= i < |prepared| ==> LangchainInputs(inputs, strict, i + 1) == prepared[i]
    ensures prepared[0] == Succeeded(inputs)
    ensures forall i :: 1 <= i < |prepared| ==> prepared[i] == EscalatedInputs(inputs, strict)
    ensures forall k :: 1 <= k < |prepared| ==> LangchainAttempt(inputs, strict, invoke, parse, k).Raised?
    ensures r.Ok? ==> LangchainAttempt(inputs, strict, invoke, parse, |prepared|) == Succeeded(r.value)
    ensures r.Err? ==> (|prepared| == InvokerMaxRetry &&
      r.error == Exhausted(LangchainErrorPrefix + ": " + LangchainAttempt(inputs, strict, invoke, parse, InvokerMaxRetry).message))
  {
    var fn := LangchainAttemptFn(inputs, strict, invoke, parse);
    var calls, sleeps;
    r, calls, sleeps := RetryLlmCall(fn, InvokerMaxRetry, LangchainErrorPrefix);
    var escalated := EscalatedInputs(inputs, strict);
    prepared := seq(|calls|, i requires 0 <= i < |calls| => if i == 0 then Succeeded(inputs) else escalated);
    forall i | 0 <= i < |prepared| ensures LangchainInputs(inputs, strict, i + 1) == prepared[i] {
      if i == 0 { assert LangchainInputs(inputs, strict, 1) == Succeeded(inputs); }
    }
    forall k | 1 <= k < |prepared| ensures LangchainAttempt(inputs, strict, invoke, parse, k).Raised? {
      assert calls[k - 1] == k && fn(calls[k - 1]).Raised?;
    }
  }

  /** An item without a prompt: when the first attempt fails, the two
      escalated attempts raise the TypeError of the `None` task, and that is
      the message of the error. */
  lemma LangchainNoneTask<T>(inputs: map<string, InputValue>, strict: string,
                             invoke: (int, map<string, InputValue>) -> Attempt<string>,
                             parse: string -> Attempt<T>)
    requires "task" in inputs && inputs["task"].None?
    requires LangchainAttempt(inputs, strict, invoke, parse, 1).Raised?
    ensures RetryOutcome(LangchainAttemptFn(inputs, strict, invoke, parse), InvokerMaxRetry, LangchainErrorPrefix)
         == Err(Exhausted(LangchainErrorPrefix + ": " + NoneConcatMessage))
  {
    var fn := LangchainAttemptFn(inputs, strict, invoke, parse);
    assert fn(1).Raised?;
    assert fn(2) == Raised(NoneConcatMessage);
    assert fn(3) == Raised(NoneConcatMessage);
    assert forall i :: 1 <= i <= 3 ==> fn(i).Raised? by {
      forall i | 1 <= i <= 3 ensures fn(i).Raised? {
        if i == 1 { } else if i == 2 { } else { assert i == 3; }
      }
    }
    RetryOutcomeExhausted(fn, InvokerMaxRetry, LangchainErrorPrefix);
  }

  /** A chain that times out twice and then answers: the third reply is
      returned. */
  lemma LangchainThirdAttemptExample()
    ensures var invoke := (n: int, m: map<string, InputValue>) =>
        if n < 3 then Raised("timeout") else Succeeded("{}");
      RetryOutcome(LangchainAttemptFn(map["task" := Some("t")], "s", invoke, (t: string) => Succeeded(7)),
                   InvokerMaxRetry, LangchainErrorPrefix) == Ok(7)
  {
    var invoke := (n: int, m: map<string, InputValue>) =>
      if n < 3 then Raised("timeout") else Succeeded("{}");
    var fn := LangchainAttemptFn(map["task" := Some("t")], "s", invoke, (t: string) => Succeeded(7));
    assert fn(1).Raised? && fn(2).Raised? && fn(3) == Succeeded(7);
    RetryOutcomeFirstSuccess(fn, 3, InvokerMaxRetry, LangchainErrorPrefix);
  }

  /** One part of a Gemini request: an uploaded file handle or text. */
  datatype Part = UploadedFile(handle: string) | PromptText(text: string)

  datatype GenerateRequest = GenerateRequest(contents: seq<Part>, googleSearch: bool, cachedContent: Option<string>)

  /** The first candidate of a reply: its first text part and its grounding
      metadata (rendered as a string). A reply without candidates is a
      `Raised` outcome of the call. */
  datatype Candidate = Candidate(text: string, grounding: Option<string>)

  /** The request contents of one attempt: the file, uploaded again at every
      attempt (`upload(attempt, path)`, whose handle or failure may differ
      from one attempt to the next), followed by the prompt. */
  function GeminiContents(file: Option<string>, finalPrompt: string, upload: (int, string) -> Attempt<string>,
                          attempt: int): (r: Attempt<seq<Part>>)
    ensures file.None? ==> r == Succeeded([PromptText(finalPrompt)])
    ensures file.Some? ==> (r.Succeeded? <==> upload(attempt, file.value).Succeeded?)
    ensures file.Some? && r.Succeeded? ==>
      r.value == [UploadedFile(upload(attempt, file.value).value), PromptText(finalPrompt)]
  {
    match file
    case None => Succeeded([PromptText(finalPrompt)])
    case Some(path) =>
      match upload(attempt, path)
      case Raised(m) => Raised(m)
      case Succeeded(h) => Succeeded([UploadedFile(h), PromptText(finalPrompt)])
  }

  /** What `_call` of `_invoke_gemini` does once the prompt of the attempt
      is fixed: contents, the model call `generate(attempt, request)`, parse,
      and the grounding metadata only when search grounding was requested. */
  function GeminiCall<T>(finalPrompt: string, file: Option<string>, useSearch: bool,
                         upload: (int, string) -> Attempt<string>,
                         generate: (int, GenerateRequest) -> Attempt<Candidate>,
                         parse: string -> Attempt<T>, attempt: int): (r: Attempt<(T, Option<string>)>)
    ensures GeminiContents(file, finalPrompt, upload, attempt).Raised? ==> r.Raised?
    ensures r.Succeeded? ==>
      var contents := GeminiContents(file, finalPrompt, upload, attempt);
      contents.Succeeded? &&
      var reply := generate(attempt, GenerateRequest(contents.value, useSearch, None));
      reply.Succeeded? && ParseLlmJson(reply.value.text, parse) == Succeeded(r.value.0) &&
      r.value.1 == (if useSearch then reply.value.grounding else None)
  {
    match GeminiContents(file, finalPrompt, upload, attempt)
    case Raised(m) => Raised(m)
    case Succeeded(contents) =>
      match generate(attempt, GenerateRequest(contents, useSearch, None))
      case Raised(m) => Raised(m)
      case Succeeded(candidate) =>
        match ParseLlmJson(candidate.text, parse)
        case Raised(m) => Raised(m)
        case Succeeded(v) => Succeeded((v, if useSearch then candidate.grounding else None))
  }

  /** One `_invoke_gemini` attempt: the call with that attempt's prompt. */
  function GeminiAttempt<T>(prompt: string, strict: string, file: Option<string>, useSearch: bool,
                            upload: (int, string) -> Attempt<string>,
                            generate: (int, GenerateRequest) -> Attempt<Candidate>,
                            parse: string -> Attempt<T>, attempt: int): Attempt<(T, Option<string>)>
  {
    GeminiCall(EscalatedPrompt(prompt, strict, attempt), file, useSearch, upload, generate, parse, attempt)
  }

  function GeminiAttemptFn<T>(prompt: string, strict: string, file: Option<string>, useSearch: bool,
                              upload: (int, string) -> Attempt<string>,
                              generate: (int, GenerateRequest) -> Attempt<Candidate>,
                              parse: string -> Attempt<T>): int -> Attempt<(T, Option<string>)>
  {
    (attempt: int) => GeminiAttempt(prompt, strict, file, useSearch, upload, generate, parse, attempt)
  }

  /** `_invoke_gemini`: three attempts. `prompts[i]` is the prompt text
      sent at attempt `i + 1`. */
  method InvokeGemini<T>(prompt: string, strict: string, file: Option<string>, useSearch: bool,
                         upload: (int, string) -> Attempt<string>,
                         generate: (int, GenerateRequest) -> Attempt<Candidate>,
                         parse: string -> Attempt<T>)
    returns (r: Result<(T, Option<string>), RetryError>, prompts: seq<string>)
    ensures r == RetryOutcome(GeminiAttemptFn(prompt, strict, file, useSearch, upload, generate, parse), InvokerMaxRetry, GeminiErrorPrefix)
    ensures 1 <= |prompts| <= InvokerMaxRetry && prompts[0] == prompt
    ensures forall i :: 1 <= i < |prompts| ==> prompts[i] == prompt + "\n\n" + strict
    ensures forall i :: 0 <= i < |prompts| ==>
      GeminiAttempt(prompt, strict, file, useSearch, upload, generate, parse, i + 1)
      == GeminiCall(prompts[i], file, useSearch, upload, generate, parse, i + 1)
    ensures forall k :: 1 <= k < |prompts| ==> GeminiAttempt(prompt, strict, file, useSearch, upload, generate, parse, k).Raised?
    ensures r.Ok? ==> GeminiAttempt(prompt, strict, file, useSearch, upload, generate, parse, |prompts|) == Succeeded(r.value)
    ensures r.Err? ==> (|prompts| == InvokerMaxRetry &&
      r.error == Exhausted(GeminiErrorPrefix + ": " + GeminiAttempt(prompt, strict, file, useSearch, upload, generate, parse, InvokerMaxRetry).message))
    ensures r.Ok? && !useSearch ==> r.value.1 == None
  {
    var fn := GeminiAttemptFn(prompt, strict, file, useSearch, upload, generate, parse);
    var calls, sleeps;
    r, calls, sleeps := RetryLlmCall(fn, InvokerMaxRetry, GeminiErrorPrefix);
    prompts := seq(|calls|, i requires 0 <= i < |calls| => EscalatedPrompt(prompt, strict, i + 1));
    forall k | 1 <= k < |prompts| ensures GeminiAttempt(prompt, strict, file, useSearch, upload, generate, parse, k).Raised? {
      assert calls[k - 1] == k && fn(calls[k - 1]).Raised?;
    }
  }

  /** An upload that fails at the first attempt and a model that fails at
      the second: the third attempt uploads again and its answer is returned. */
  lemma GeminiThirdAttemptExample()
    ensures var upload := (n: int, path: string) => if n == 1 then Raised("upload") else Succeeded("h");
      var generate := (n: int, q: GenerateRequest) =>
        if n < 3 then Raised("unavailable") else Succeeded(Candidate("{}", Some("g")));
      RetryOutcome(GeminiAttemptFn("p", "s", Some("plan.pdf"), true, upload, generate, (t: string) => Succeeded(7)),
                   InvokerMaxRetry, GeminiErrorPrefix) == Ok((7, Some("g")))
  {
    var upload := (n: int, path: string) => if n == 1 then Raised("upload") else Succeeded("h");
    var generate := (n: int, q: GenerateRequest) =>
      if n < 3 then Raised("unavailable") else Succeeded(Candidate("{}", Some("g")));
    var fn := GeminiAttemptFn("p", "s", Some("plan.pdf"), true, upload, generate, (t: string) => Succeeded(7));
    assert fn(1).Raised? && fn(2).Raised? && fn(3) == Succeeded((7, Some("g")));
    RetryOutcomeFirstSuccess(fn, 3, InvokerMaxRetry, GeminiErrorPrefix);
  }

  /** What `_call` of `_invoke_gemini_with_cache` does once the prompt of
      the attempt is fixed: the prompt alone, against the cached content. */
  function GeminiCacheCall<T>(cacheId: string, finalPrompt: string,
                              generate: (int, GenerateRequest) -> Attempt<Candidate>,
                              parse: string -> Attempt<T>, attempt: int): (r: Attempt<T>)
    ensures r.Succeeded? ==>
      var reply := generate(attempt, GenerateRequest([PromptText(finalPrompt)], false, Some(cacheId)));
      reply.Succeeded? && ParseLlmJson(reply.value.text, parse) == r
  {
    match generate(attempt, GenerateRequest([PromptText(finalPrompt)], false, Some(cacheId)))
    case Raised(m) => Raised(m)
    case Succeeded(candidate) => ParseLlmJson(candidate.text, parse)
  }

  /** One `_invoke_gemini_with_cache` attempt. */
  function GeminiCacheAttempt<T>(cacheId: string, prompt: string, strict: string,
                                 generate: (int, GenerateRequest) -> Attempt<Candidate>,
                                 parse: string -> Attempt<T>, attempt: int): Attempt<T>
  {
    GeminiCacheCall(cacheId, EscalatedPrompt(prompt, strict, attempt), generate, parse, attempt)
  }

  function GeminiCacheAttemptFn<T>(cacheId: string, prompt: string, strict: string,
                                   generate: (int, GenerateRequest) -> Attempt<Candidate>,
                                   parse: string -> Attempt<T>): int -> Attempt<T>
  {
    (attempt: int) => GeminiCacheAttempt(cacheId, prompt, strict, generate, parse, attempt)
  }

  /** `_invoke_gemini_with_cache`: three attempts. `prompts[i]` is the
      prompt text sent at attempt `i + 1`. */
  method InvokeGeminiWithCache<T>(cacheId: string, prompt: string, strict: string,
                                  generate: (int, GenerateRequest) -> Attempt<Candidate>,
                                  parse: string -> Attempt<T>)
    returns (r: Result<T, RetryError>, prompts: seq<string>)
    ensures r == RetryOutcome(GeminiCacheAttemptFn(cacheId, prompt, strict, generate, parse), InvokerMaxRetry, GeminiCacheErrorPrefix)
    ensures 1 <= |prompts| <= InvokerMaxRetry && prompts[0] == prompt
    ensures forall i :: 1 <= i < |prompts| ==> prompts[i] == prompt + "\n\n" + strict
    ensures forall i :: 0 <= i < |prompts| ==>
      GeminiCacheAttempt(cacheId, prompt, strict, generate, parse, i + 1) == GeminiCacheCall(cacheId, prompts[i], generate, parse, i + 1)
    ensures forall k :: 1 <= k < |prompts| ==> GeminiCacheAttempt(cacheId, prompt, strict, generate, parse, k).Raised?
    ensures r.Ok? ==> GeminiCacheAttempt(cacheId, prompt, strict, generate, parse, |prompts|) == Succeeded(r.value)
    ensures r.Err? ==> (|prompts| == InvokerMaxRetry &&
      r.error == Exhausted(GeminiCacheErrorPrefix + ": " + GeminiCacheAttempt(cacheId, prompt, strict, generate, parse, InvokerMaxRetry).message))
  {
    var fn := GeminiCacheAttemptFn(cacheId, prompt, strict, generate, parse);
    var calls, sleeps;
    r, calls, sleeps := RetryLlmCall(fn, InvokerMaxRetry, GeminiCacheErrorPrefix);
    prompts := seq(|calls|, i requires 0 <= i < |calls| => EscalatedPrompt(prompt, strict, i + 1));
    forall k | 1 <= k < |prompts| ensures GeminiCacheAttempt(cacheId, prompt, strict, generate, parse, k).Raised? {
      assert calls[k - 1] == k && fn(calls[k - 1]).Raised?;
    }
  }

  /** Attempts 2 and 3 send the same prompt, yet the third may succeed after
      the second failed: its value is then the result. */
  lemma CacheSucceedsAfterTwoFailures<T>(cacheId: string, prompt: string, strict: string,
                                         generate: (int, GenerateRequest) -> Attempt<Candidate>,
                                         parse: string -> Attempt<T>)
    requires GeminiCacheAttempt(cacheId, prompt, strict, generate, parse, 1).Raised?
    requires GeminiCacheAttempt(cacheId, prompt, strict, generate, parse, 2).Raised?
    requires GeminiCacheAttempt(cacheId, prompt, strict, generate, parse, 3).Succeeded?
    ensures RetryOutcome(GeminiCacheAttemptFn(cacheId, prompt, strict, generate, parse), InvokerMaxRetry, GeminiCacheErrorPrefix)
         == Ok(GeminiCacheAttempt(cacheId, prompt, strict, generate, parse, 3).value)
  {
    var fn := GeminiCacheAttemptFn(cacheId, prompt, strict, generate, parse);
    assert fn(1).Raised?;
    assert fn(2).Raised?;
    assert fn(3).Succeeded?;
    assert forall i :: 1 <= i < 3 ==> fn(i).Raised? by {
      forall i | 1 <= i < 3 ensures fn(i).Raised? {
        if i == 1 { } else { assert i == 2; }
      }
    }
    RetryOutcomeFirstSuccess(fn, 3, InvokerMaxRetry, GeminiCacheErrorPrefix);
  }

  /** A service that is unavailable twice and then answers: the cached
      invoker returns the third reply. */
  lemma CacheThirdAttemptExample()
    ensures var generate := (n: int, q: GenerateRequest) =>
        if n < 3 then Raised("unavailable") else Succeeded(Candidate("{}", None));
      RetryOutcome(GeminiCacheAttemptFn("c", "p", "s", generate, (t: string) => Succeeded(7)),
                   InvokerMaxRetry, GeminiCacheErrorPrefix) == Ok(7)
  {
    var generate := (n: int, q: GenerateRequest) =>
      if n < 3 then Raised("unavailable") else Succeeded(Candidate("{}", None));
    var parse := (t: string) => Succeeded(7);
    CacheSucceedsAfterTwoFailures("c", "p", "s", generate, parse);
  }

  // ---------------------------------------------------------------------
  // Context rendering
  // ---------------------------------------------------------------------

  /** A retrieved chunk of the business plan; the similarity is the text of
      the rounded score. */
  datatype ContextBlock = ContextBlock(section: string, content: string, similarity: string)

  /** One block: a bracketed heading opening with the section (and the
      similarity when asked for), a line break, then the content itself. */
  function RenderBlock(c: ContextBlock, withSimilarity: bool): (r: string)
    ensures "[" + c.section <= r
    ensures |r| >= |c.section| + |c.content| + 3
    ensures r[|r| - |c.content| - 2..] == "]\n" + c.content
  {
    var tail := "]\n" + c.content;
    var head := if withSimilarity then "[" + c.section + " | sim=" + c.similarity else "[" + c.section;
    assert "[" + c.section <= head;
    head + tail
  }

  function RenderBlocks(blocks: seq<ContextBlock>, withSimilarity: bool): (r: seq<string>)
    ensures |r| == |blocks|
    ensures forall i :: 0 <= i < |blocks| ==> r[i] == RenderBlock(blocks[i], withSimilarity)
  {
    seq(|blocks|, i requires 0 <= i < |blocks| => RenderBlock(blocks[i], withSimilarity))
  }

  /** `_build_context_text`: empty exactly for no blocks, and otherwise
      opening with the first block's heading. */
  function BuildContextText(blocks: seq<ContextBlock>, withSimilarity: bool): (r: string)
    ensures r == "" <==> blocks == []
    ensures blocks != [] ==> RenderBlock(blocks[0], withSimilarity) <= r
  {
    if |blocks| == 0 then "" else Join("\n\n", RenderBlocks(blocks, withSimilarity))
  }

  lemma ContextTextSingle(b: ContextBlock, withSimilarity: bool)
    ensures BuildContextText([b], withSimilarity) == RenderBlock(b, withSimilarity)
  {
    assert RenderBlocks([b], withSimilarity) == [RenderBlock(b, withSimilarity)];
  }

  /** Blocks are rendered in input order, separated by a blank line. */
  lemma ContextTextAppend(blocks: seq<ContextBlock>, b: ContextBlock, withSimilarity: bool)
    requires blocks != []
    ensures BuildContextText(blocks + [b], withSimilarity)
         == BuildContextText(blocks, withSimilarity) + "\n\n" + RenderBlock(b, withSimilarity)
  {
    var rs := RenderBlocks(blocks, withSimilarity);
    assert RenderBlocks(blocks + [b], withSimilarity) == rs + [RenderBlock(b, withSimilarity)];
    JoinAppend("\n\n", rs, RenderBlock(b, withSimilarity));
  }

  // ---------------------------------------------------------------------
  // Search-grounded item
  // ---------------------------------------------------------------------

  const BusinessModelTitle := "비즈니스 모델 역량진단"

  /** The schema whose format instructions the prompt carries. */
  datatype SearchSchema = ReportItemSchema | MarketSchema

  /** What `generate_report_item_from_googlesearch` returns: the bare report
      item for the business-model title, the parsed market answer and its
      grounding otherwise. */
  datatype SearchOutcome =
    | BusinessModelItem(item: ReportItemResult)
    | MarketItem(parsed: MarketForecastAndCompetitors, grounding: Option<string>)

  /** The message of the TypeError that `Path(None)` raises, in the wording
      of Python 3.10 and 3.11 (Python 3.12 and later say "argument should be
      a str or an os.PathLike object where __fspath__ returns a str, not
      'NoneType'"). */
  const PathOfNoneMessage := "expected str, bytes or os.PathLike object, not NoneType"

  /** The file handed to the invoker: the business-model title wraps the path
      unconditionally (so a missing path raises), the market title drops an
      empty or missing path. */
  function SearchAttachment(title: string, filePath: Option<string>): (r: Result<Option<string>, string>)
    ensures title == BusinessModelTitle ==> (r.Err? <==> filePath.None?)
    ensures r.Err? ==> r.error == PathOfNoneMessage
    ensures title == BusinessModelTitle && r.Ok? ==> r.value == filePath
    ensures title != BusinessModelTitle ==> r.Ok?
    ensures title != BusinessModelTitle ==> (r.value.Some? <==> filePath.Some? && filePath.value != "")
    ensures r.Ok? && r.value.Some? ==> r.value == filePath
  {
    if title == BusinessModelTitle then
      if filePath.None? then Err(PathOfNoneMessage) else Ok(filePath)
    else if filePath.None? || filePath.value == "" then Ok(None)
    else Ok(filePath)
  }

  /** The schema of the prompt and of the parse: the report-item schema for
      the business-model title only. */
  function SchemaFor(title: string): (s: SearchSchema)
    ensures s == ReportItemSchema <==> title == BusinessModelTitle
  {
    if title == BusinessModelTitle then ReportItemSchema else MarketSchema
  }

  /** `generate_report_item_from_googlesearch`, with the retried Gemini call
      taken at its specification `RetryOutcome`. `format` fills the prompt
      template from company, title, task, context and schema. */
  function GoogleSearchOutcome(company: string, title: string, task: string, blocks: seq<ContextBlock>,
                               filePath: Option<string>,
                               format: (string, string, string, string, SearchSchema) -> string,
                               strict: string,
                               upload: (int, string) -> Attempt<string>,
                               generate: (int, GenerateRequest) -> Attempt<Candidate>,
                               parseReport: string -> Attempt<ReportItemResult>,
                               parseMarket: string -> Attempt<MarketForecastAndCompetitors>): (r: Result<SearchOutcome, string>)
    ensures r.Ok? && title == BusinessModelTitle ==> r.value.BusinessModelItem?
    ensures r.Ok? && title != BusinessModelTitle ==> r.value.MarketItem?
    ensures title == BusinessModelTitle && filePath.None? ==> r == Err(PathOfNoneMessage)
    // The business-model item: search on, the path as given, the report parser.
    ensures title == BusinessModelTitle && filePath.Some? ==>
      var prompt := format(company, title, task, BuildContextText(blocks, false), ReportItemSchema);
      var o := RetryOutcome(GeminiAttemptFn(prompt, strict, filePath, true, upload, generate, parseReport),
                            InvokerMaxRetry, GeminiErrorPrefix);
      (r.Ok? <==> o.Ok?) &&
      (o.Ok? ==> r.value == BusinessModelItem(o.value.0)) &&
      (o.Err? ==> r.error == RetryMessage(o.error))
    // A market item: search on, a non-empty path only, the market parser,
    // and the grounding of the accepted reply.
    ensures title != BusinessModelTitle ==>
      var prompt := format(company, title, task, BuildContextText(blocks, false), MarketSchema);
      var file := if filePath.Some? && filePath.value != "" then filePath else None;
      var o := RetryOutcome(GeminiAttemptFn(prompt, strict, file, true, upload, generate, parseMarket),
                            InvokerMaxRetry, GeminiErrorPrefix);
      (r.Ok? <==> o.Ok?) &&
      (o.Ok? ==> r.value == MarketItem(o.value.0, o.value.1)) &&
      (o.Err? ==> r.error == RetryMessage(o.error))
  {
    var promptText := format(company, title, task, BuildContextText(blocks, false), SchemaFor(title));
    match SearchAttachment(title, filePath)
    case Err(m) => Err(m)
    case Ok(file) =>
      if title == BusinessModelTitle then
        match RetryOutcome(GeminiAttemptFn(promptText, strict, file, true, upload, generate, parseReport), InvokerMaxRetry, GeminiErrorPrefix)
        case Err(e) => Err(RetryMessage(e))
        case Ok(v) => Ok(BusinessModelItem(v.0))
      else
        match RetryOutcome(GeminiAttemptFn(promptText, strict, file, true, upload, generate, parseMarket), InvokerMaxRetry, GeminiErrorPrefix)
        case Err(e) => Err(RetryMessage(e))
        case Ok(v) => Ok(MarketItem(v.0, v.1))
  }

  // ---------------------------------------------------------------------
  // Market-size fallback
  // ---------------------------------------------------------------------

  /** Ways `generate_market_with_fallback` raises. */
  datatype FallbackError =
    | SearchFailed(message: string)   // the search call raised
    | NotSubscriptable                // the report-item schema was used: `result["parsed"]` fails
    | NoOverseasMarket                // accepted on the korea market with no overseas market: assignment to `None.method`
    | ResultUnbound                   // `max_level < 0`: the loop never runs

  /** The task of one level: the market scope appended under its heading. */
  function LevelTask(task: string, baseMarket: string, level: nat, expand: (string, nat) -> string): (r: string)
    ensures task <= r
    ensures r[|task|..] == "\n\n[시장 범위]\n" + expand(baseMarket, level)
  {
    task + "\n\n[시장 범위]\n" + expand(baseMarket, level)
  }

  predicate Acceptable(p: MarketForecastAndCompetitors, isValid: Option<MarketForecast> -> bool)
  {
    isValid(p.overseasMarket) || isValid(p.koreaMarket)
  }

  /** The method note after acceptance at `level`: the level is recorded
      after a non-empty method, and the note is cleared otherwise. */
  function LevelNote(m: Option<string>, level: nat): (r: Option<string>)
    ensures r.Some? <==> m.Some? && m.value != ""
    ensures r.Some? ==> m.value <= r.value && r.value[|m.value|..] == " (상위 시장 레벨 " + NatToString(level) + " 적용)"
  {
    if m.Some? && m.value != "" then Some(m.value + " (상위 시장 레벨 " + NatToString(level) + " 적용)") else None
  }

  /** The in-place update of the accepted answer, as a new value: only the
      overseas forecast's method changes. */
  function Annotate(p: MarketForecastAndCompetitors, level: nat): (r: Result<MarketForecastAndCompetitors, FallbackError>)
    ensures r.Err? <==> p.overseasMarket.None?
    ensures r.Err? ==> r.error == NoOverseasMarket
    ensures r.Ok? ==> r.value.koreaMarket == p.koreaMarket && r.value.competitors == p.competitors
    ensures r.Ok? ==> r.value.overseasMarket.Some?
    ensures r.Ok? ==>
      var before := p.overseasMarket.value;
      var after := r.value.overseasMarket.value;
      after.currency == before.currency && after.unit == before.unit &&
      after.years == before.years && after.valuesInt == before.valuesInt &&
      after.sources == before.sources &&
      after.forecastMethod == LevelNote(before.forecastMethod, level)
  {
    match p.overseasMarket
    case None => Err(NoOverseasMarket)
    case Some(o) =>
      Ok(p.(overseasMarket := Some(o.(forecastMethod := LevelNote(o.forecastMethod, level)))))
  }

  /** What the loop body does with one level's search result: `None` to go
      on to the next level, or what the function returns or raises there. */
  function LevelStep(x: Result<SearchOutcome, string>, level: nat,
                     isValid: Option<MarketForecast> -> bool): (r: Option<Result<SearchOutcome, FallbackError>>)
    ensures r.None? <==> x.Ok? && x.value.MarketItem? && !Acceptable(x.value.parsed, isValid)
    ensures r.Some? && r.value.Ok? ==>
      x.Ok? && x.value.MarketItem? && Acceptable(x.value.parsed, isValid) &&
      r.value.value.MarketItem? && r.value.value.grounding == x.value.grounding &&
      Annotate(x.value.parsed, level) == Ok(r.value.value.parsed)
    ensures x.Err? ==> r == Some(Err(SearchFailed(x.error)))
    ensures x.Ok? && x.value.BusinessModelItem? ==> r == Some(Err(NotSubscriptable))
    ensures (x.Ok? && x.value.MarketItem? && Acceptable(x.value.parsed, isValid) &&
             x.value.parsed.overseasMarket.None?) ==> r == Some(Err(NoOverseasMarket))
  {
    match x
    case Err(m) => Some(Err(SearchFailed(m)))
    case Ok(BusinessModelItem(_)) => Some(Err(NotSubscriptable))
    case Ok(MarketItem(p, g)) =>
      if !Acceptable(p, isValid) then None
      else
        match Annotate(p, level)
        case Err(e) => Some(Err(e))
        case Ok(q) => Some(Ok(MarketItem(q, g)))
  }

  /** `generate_market_with_fallback`. `search(level, t)` is the
      search-grounded item call at that level with every argument but the
      task `t` fixed (a fresh model call each time), `expand` and `isValid`
      the keyword expander and the market-size check, `baseMarket` the
      guessed base market. `tasks` lists the task of each search made. */
  method GenerateMarketWithFallback(task: string, baseMarket: string, maxLevel: int,
                                    expand: (string, nat) -> string,
                                    isValid: Option<MarketForecast> -> bool,
                                    search: (nat, string) -> Result<SearchOutcome, string>)
    returns (r: Result<SearchOutcome, FallbackError>, tasks: seq<string>)
    ensures maxLevel < 0 ==> tasks == [] && r == Err(ResultUnbound)
    ensures maxLevel >= 0 ==> 1 <= |tasks| <= maxLevel + 1
    ensures forall i :: 0 <= i < |tasks| ==> tasks[i] == LevelTask(task, baseMarket, i, expand)
    ensures forall i :: 0 <= i < |tasks| - 1 ==> LevelStep(search(i, tasks[i]), i, isValid).None?
    ensures tasks != [] ==>
      var x := search(|tasks| - 1, tasks[|tasks| - 1]);
      var step := LevelStep(x, |tasks| - 1, isValid);
      if step.Some? then r == step.value
      else |tasks| == maxLevel + 1 && x.Ok? && r == Ok(x.value)
  {
    tasks := [];
    var result: Option<Result<SearchOutcome, string>> := None;
    var level: nat := 0;
    while level <= maxLevel
      invariant level <= if maxLevel < 0 then 0 else maxLevel + 1
      invariant |tasks| == level
      invariant forall i :: 0 <= i < level ==> tasks[i] == LevelTask(task, baseMarket, i, expand)
      invariant forall i :: 0 <= i < level ==> LevelStep(search(i, tasks[i]), i, isValid).None?
      invariant level == 0 <==> result.None?
      invariant level > 0 ==> result == Some(search(level - 1, tasks[level - 1]))
      decreases maxLevel + 1 - level
    {
      var expanded := LevelTask(task, baseMarket, level, expand);
      tasks := tasks + [expanded];
      var x := search(level, expanded);
      result := Some(x);
      var step := LevelStep(x, level, isValid);
      if step.Some? {
        r := step.value;
        return;
      }
      level := level + 1;
    }
    match result {
      case None => r := Err(ResultUnbound);
      case Some(x) => r := Ok(x.value);
    }
  }
}
