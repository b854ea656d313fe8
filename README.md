# fncsp_rag report generator — a verified model of its orchestration

The repository generates company evaluation reports with language models.
For each report item it retrieves context from the company's business plan,
picks a generator (vector search, the plan file itself, a search-grounded
Gemini call, or the patent-classification pipeline), calls the model with
retries, and salvages JSON from the model's free-form reply. This project
models the deterministic code around those calls and proves what it
guarantees:

- `JsonRepair`, `JsonRepairProperties`, `JsonRepairExamples` — the JSON salvage
  step `clean_json_string` in `rag/final/utils.py`. The model covers fence
  removal, typographic-quote normalisation, `\'` collapsing, `strip()`, the
  brace slice, the `re.sub` rewrite of the `"evaluation"` value (a lazy
  matcher proved sound and complete against its pattern) and the appended
  closing brace. It also covers worked replies, including the one where the
  step is not idempotent.
- `Generator` — the retry loop `retry_llm_call`, the strict-JSON prompt
  escalation of the three invokers, context rendering, the file and schema
  choice of the search-grounded item, and the market-size fallback
  `generate_market_with_fallback` (`rag/final/generator.py`).
- `Pipeline` — source resolution, dispatch with its error branches, the
  patent search keyword and the item loop `generate` with its failure records
  (`rag/final/pipeline.py`).
- `CacheManager` — the content-addressed cached-content store
  `_VF_CACHE_STORE` with `get_or_create_cache_vf`, as a class whose methods
  count the upload and create calls (`rag/final/cache_manager.py`).
- `KiprisParser` — the `YYYY(N)` cell parser and the per-year patent counts
  (`rag/final/collectors/kipris_parser.py`).
- `FinalRun` — the report file name sanitiser (`rag/final_run.py`).
- `Schemas`, `Text`, `Wrappers` — the record types, Python's `str`
  operations (`isspace` exactly, `strip`, `join`, `split`, `int`, `f"{n}"`),
  and Option/Result.

External services are parameters of the model:

- the model calls, the file upload and the cache creation;
- `json.loads` with schema validation;
- the embedding and retrieval;
- the unseen helpers `guess_base_market`, `expand_market_keywords` and
  `has_valid_market_size`;
- `str.isalnum`;
- the SHA-256 digest.

The strict-JSON instruction text is the parameter `strict`. Sleeps are
counted and their durations dropped.

**Idempotence.** The repair step is not idempotent. A value holding one
raw quote is escaped once; cleaning the result escapes that escape again
(`JsonRepairExamples.CleanIsNotIdempotent`). The model follows the code.

## Model

| member | source | states |
|---|---|---|
| JsonRepair.DropMarker | rag/final/utils.py:5-6 | removing a marker and the blanks after it never lengthens the text |
| JsonRepairProperties.DropMarkerChars | rag/final/utils.py:5-6 | the removal adds no character |
| JsonRepairExamples.DropMarkerAt | rag/final/utils.py:5-6 | a marker at the start goes with the whole blank run after it, up to the first non-blank |
| JsonRepairExamples.DropMarkerSkips | rag/final/utils.py:5-6 | text in which no marker starts is kept and the removal goes on after it |
| JsonRepair.DropFences | rag/final/utils.py:5-6 | dropping both fence markers never lengthens the text |
| JsonRepairExamples.DropFencesAround | rag/final/utils.py:5-6 | prose, a json fence with blanks, an object, blanks and a closing fence lose exactly the fences and the blanks after the opening one |
| JsonRepairExamples.DropFencesKeeps | rag/final/utils.py:5-6 | a text without backticks is unchanged |
| JsonRepair.NormaliseQuotes | rag/final/utils.py:9-14 | every character is mapped on its own: the four typographic quotes become ASCII quotes, length and all other characters are kept |
| JsonRepairExamples.NormaliseQuotesKeeps | rag/final/utils.py:9-14 | a text without typographic quotes is unchanged |
| JsonRepair.UnescapeApostrophes | rag/final/utils.py:17 | collapsing the escaped apostrophe never lengthens the text |
| JsonRepairProperties.UnescapeApostrophesAround | rag/final/utils.py:17 | every backslash-apostrophe pair becomes one apostrophe wherever it stands, and the text on either side is rewritten on its own |
| JsonRepairProperties.UnescapeApostrophesChars | rag/final/utils.py:17 | the rewrite adds no character |
| JsonRepairExamples.UnescapeApostrophesKeeps | rag/final/utils.py:17 | a text without the pair is unchanged |
| JsonRepairExamples.PreparedKeeps | rag/final/utils.py:5-26 | a braced object without backticks, typographic quotes or escaped apostrophes survives fences, quotes, apostrophes, strip and brace slice unchanged |
| JsonRepair.LastIndexOf | rag/final/utils.py:25 | `rfind`: the position holds the character and no later position does |
| JsonRepair.ExtractSpan | rag/final/utils.py:23-26 | the slice never lengthens the text, keeps a text lacking either brace, and a nonempty slice runs from a brace to a brace |
| JsonRepairExamples.ExtractSpanWhole | rag/final/utils.py:23-26 | a text that already opens with a brace and ends with one is kept whole |
| JsonRepair.LazyClose | rag/final/utils.py:35-40 | the non-greedy group stops at the first quote-blanks-`}` closing at or after the start, and at none before it; `None` exactly when no closing exists |
| JsonRepair.MatchValue | rag/final/utils.py:35-40 | a match of the value part splits the text into value, closing quote, blanks, `}` and rest, with no earlier closing inside the value |
| JsonRepair.MatchAfterColon | rag/final/utils.py:35-40 | a match after the colon is blanks, the opening quote and a valid value part |
| JsonRepair.MatchAfterKey | rag/final/utils.py:35-40 | a match after the key is blanks, `:`, blanks, quote and a valid value part |
| JsonRepair.MatchKeyed | rag/final/utils.py:35-40 | a match at the start of the text decomposes it as key, blank gap, `:`, blank gap, `"`, a nonempty lazy value, `"`, blank gap, `}` and the rest |
| JsonRepair.MatchEvaluation | rag/final/utils.py:35-40 | the same decomposition for the key `"evaluation"` (soundness of the matcher) |
| JsonRepair.MatchKeyedComplete | rag/final/utils.py:35-40 | every decomposition the pattern allows is the one the matcher finds (completeness) |
| JsonRepair.MatchEvaluationComplete | rag/final/utils.py:35-40 | completeness for the key `"evaluation"` |
| JsonRepair.MatchValueComplete | rag/final/utils.py:35-40 | the value stage finds every valid value decomposition |
| JsonRepairProperties.PreparedChars | rag/final/utils.py:5-20 | after fences, quotes, `\'` and strip no typographic quote is left and every character came from the reply or is an ASCII quote |
| JsonRepairProperties.ExtractSpanChars | rag/final/utils.py:23-26 | the brace slice adds no character |
| JsonRepairProperties.SanitiseEvaluationChars | rag/final/utils.py:29-40 | the rewrite adds only ASCII characters |
| JsonRepairProperties.EscapeEvaluationIsOnePass | rag/final/utils.py:31-32 | the three `replace` calls on the value equal one left-to-right pass that rewrites `"`, CR LF and LF |
| JsonRepairProperties.EscapeOnePassQuote | rag/final/utils.py:31 | every `"` of the value becomes `\"` |
| JsonRepairProperties.EscapeOnePassCrLf | rag/final/utils.py:32 | every CR LF pair becomes the two characters `\n` |
| JsonRepairProperties.EscapeOnePassLf | rag/final/utils.py:32 | every LF not preceded by CR becomes the two characters `\n` |
| JsonRepairProperties.EscapeOnePassKeeps | rag/final/utils.py:31-32 | a value without quotes and line feeds is kept as it is |
| JsonRepairProperties.EscapeOnePassAppend | rag/final/utils.py:31-32 | the pass works piece by piece unless a CR LF pair is split |
| JsonRepairProperties.EscapeOnePassHasNoLineFeed | rag/final/utils.py:32 | no raw LF is left in an escaped value |
| JsonRepairProperties.RenderedValueHasNoLineFeed | rag/final/utils.py:33 | the replacement text holds no raw LF |
| JsonRepairProperties.EscapeQuotesChars | rag/final/utils.py:31 | quote escaping adds only backslashes |
| JsonRepair.EscapeCrLf | rag/final/utils.py:32 | replacing each CR LF pair by the two characters backslash and n keeps the length |
| JsonRepair.EscapeLf | rag/final/utils.py:32 | no raw LF is left |
| JsonRepair.EscapeEvaluation | rag/final/utils.py:31-32 | the escaped value holds no raw LF |
| JsonRepair.RenderEvaluation | rag/final/utils.py:33 | the replacement opens with the normalised key and separator, ends with a quote and holds no raw LF |
| JsonRepairExamples.SanitiseObject | rag/final/utils.py:29-40 | a one-key evaluation object with blank gaps and nothing after its brace is rewritten to the brace and the rendered value |
| JsonRepairExamples.SanitiseKeeps | rag/final/utils.py:35-40 | a text in which the key never occurs is unchanged |
| JsonRepairProperties.SanitiseWithoutCloseBrace | rag/final/utils.py:35-40 | a text without `}` has no match and is left unchanged |
| JsonRepairProperties.SanitiseFirst | rag/final/utils.py:35-40 | a text opening with `{` still opens with `{` after the rewrite |
| JsonRepairProperties.SanitiseLast | rag/final/utils.py:35-40 | a nonempty text's rewrite ends with the text's own last character or with a quote |
| JsonRepairProperties.CleanHasNoSmartQuotes | rag/final/utils.py:3-45 | the result holds none of “ ” ‘ ’, and no later step brings one back |
| JsonRepairProperties.CleanWithoutBraces | rag/final/utils.py:5-26 | without `{` and `}` nothing fails, and the result is the reply after fences, quotes, `\'` and strip, with nothing else changed |
| JsonRepairProperties.CleanKeepsSpan | rag/final/utils.py:23-26 | when the first `{` precedes the last `}`, the slice is exactly that span and the result opens with `{` |
| JsonRepairProperties.CleanReversedBraces | rag/final/utils.py:23-26 | when every `}` precedes the first `{`, the slice and the result are empty |
| JsonRepairProperties.CloseBraceCloses | rag/final/utils.py:42-43 | when the stripped text opens with `{` and does not end with `}`, the result is the right-stripped text with LF and `}` appended; in every other case the text is unchanged; so an opened result ends with `}` |
| JsonRepairExamples.CloseBraceAppends | rag/final/utils.py:42-43 | a text opening with a brace and ending with another non-blank character gets a line feed and a brace appended |
| JsonRepairProperties.CleanIsClosed | rag/final/utils.py:3-45 | every result opening with `{` ends with `}` |
| JsonRepairExamples.FencedObject | rag/final/utils.py:5-26 | a `json` fence around `{"a":1}`, one line feed on each side, cleans to exactly `{"a":1}` |
| JsonRepairExamples.CleanAround | rag/final/utils.py:5-26 | prose before the fence, the fences and blanks around an object do not change what the object cleans to |
| JsonRepairExamples.CleanPlainObject | rag/final/utils.py:3-45 | an object without an `"evaluation"` key, fences, typographic quotes or `\'` comes out unchanged |
| JsonRepairExamples.CleanEvaluationObject | rag/final/utils.py:29-43 | on a one-key evaluation object the separator is normalised, the value escaped, the matched `}` dropped and LF `}` appended |
| JsonRepairExamples.EscapeOneLineFeed | rag/final/utils.py:31-32 | a value with one LF gets exactly the two characters `\n` in its place |
| JsonRepairExamples.ReplyWithProse | rag/final/utils.py:3-45 | prose, a `json` fence and an evaluation value with a raw LF give `{"evaluation": "a\nb"` followed by LF and `}` |
| JsonRepairExamples.ReplyWithProseExample | rag/final/utils.py:3-45 | the reply `Here is the result:` with `Line1`, LF, `Line2` yields `{"evaluation": "Line1\nLine2"` LF `}` |
| JsonRepairExamples.CleanOnceQuoted | rag/final/utils.py:29-43 | a value holding one raw quote is cleaned to the value with `\"` in its place |
| JsonRepairExamples.CleanTwiceQuoted | rag/final/utils.py:29-43 | cleaning that output again turns `\"` into `\\"` inside the value |
| JsonRepairExamples.CleanIsNotIdempotent | rag/final/utils.py:31 | for every such value, cleaning twice differs from cleaning once |
| JsonRepairExamples.NotIdempotentExample | rag/final/utils.py:31 | the concrete instance `{"evaluation": "x"y"}` |
| Generator.RetryLlmCall | rag/final/generator.py:28-50 | the loop calls the attempt function with 1, 2, … in order, sleeps between attempts, returns the first success's value or, after exactly max_retry failed calls, raises `prefix + ": " + last message`; with max_retry below 1 it makes no call and raises its `None` |
| Generator.RetryFromFirstSuccess | rag/final/generator.py:36-43 | from attempt j on, the first succeeding attempt k gives its value |
| Generator.RetryFromExhausted | rag/final/generator.py:36-48 | from attempt j on, when every attempt raises the error is the prefixed message of the last |
| Generator.RetryFromSucceeds | rag/final/generator.py:36-45 | a value returned from attempt j on is the value of one of those attempts |
| Generator.RetryOutcomeFirstSuccess | rag/final/generator.py:36-43 | when attempt k is the first success, its value is returned |
| Generator.RetryOutcomeExhausted | rag/final/generator.py:36-48 | when every attempt raises, the error is the prefixed message of the last one |
| Generator.RetryOutcomeSucceeds | rag/final/generator.py:36-45 | a returned value is the value of one of the attempts |
| Generator.EscalatedPrompt | rag/final/generator.py:110-117 | attempt 1 sends the prompt verbatim; attempt 2 and later send exactly the prompt, a blank line and the instruction |
| Generator.EscalationIsNotCumulative | rag/final/generator.py:155-162 | all escalated attempts send the same prompt: the suffix does not accumulate |
| Generator.ParseIgnoresFences | rag/final/generator.py:67-73 | prose, fences and blanks around an object do not change what reaches the parser |
| Generator.ParseFencedReply | rag/final/generator.py:67-73 | the fenced reply with one key reaches the parser as the bare object |
| Generator.LangchainInputs | rag/final/generator.py:82-89 | attempt 1 sends the inputs unchanged (a `None` task included); from attempt 2 the copy raises exactly when `task` is missing (the KeyError `'task'`) or `None` (the TypeError of `+=` on `NoneType`), and otherwise only `task` changes, to the escalated prompt |
| Generator.LangchainAttempt | rag/final/generator.py:82-93 | a missing task raises KeyError; a successful attempt passed the copy of that attempt to the chain at that attempt, it answered, and the value is the parse of its salvaged reply |
| Generator.InvokeLangchain | rag/final/generator.py:76-100 | for any inputs, the result is the retry outcome of the attempts; prepared[i] is what `_call` builds at attempt i+1, the caller's inputs first and then the same copy (escalated task, or the KeyError/TypeError) for every later attempt; every attempt before the last raised; a value is the last attempt's, and an error means three attempts and carries the prefixed message of the third |
| Generator.LangchainNoneTask | rag/final/generator.py:82-100 | when `task` is `None` and attempt 1 raises, the call ends in the error prefixed to the TypeError that `+=` on `None` raises at attempts 2 and 3 |
| Generator.LangchainThirdAttemptExample | rag/final/generator.py:76-100 | a chain that times out twice and then answers yields the third reply |
| Generator.GeminiContents | rag/final/generator.py:119-122 | the request is the prompt alone, or the file uploaded at that attempt before it; an upload failure at that attempt fails the attempt |
| Generator.GeminiCall | rag/final/generator.py:119-140 | upload at that attempt, generate at that attempt with search on or off and no cache, then parse; an upload failure fails the attempt; a value is the parse of the reply text, with the grounding only when search is on |
| Generator.InvokeGemini | rag/final/generator.py:103-147 | the retry outcome of the attempts; prompts[i] is the prompt sent at attempt i+1, the prompt first and the escalated one after; every attempt before the last raised; a value is the last attempt's and has no grounding without search; an error means three attempts and carries the prefixed message of the third |
| Generator.GeminiThirdAttemptExample | rag/final/generator.py:103-147 | an upload failing at attempt 1 and a model failing at attempt 2 still give the third attempt's answer and grounding |
| Generator.GeminiCacheCall | rag/final/generator.py:154-174 | the prompt alone against the cached content, at that attempt, without search; a value is the parse of the reply |
| Generator.InvokeGeminiWithCache | rag/final/generator.py:149-181 | the same retry against the cached content: prompts[i] is the prompt sent at attempt i+1, earlier attempts raised, a value is the last attempt's, an error carries the third attempt's prefixed message |
| Generator.CacheSucceedsAfterTwoFailures | rag/final/generator.py:149-181 | when attempts 1 and 2 fail and attempt 3 succeeds, although 2 and 3 send the same prompt, the third value is returned |
| Generator.CacheThirdAttemptExample | rag/final/generator.py:149-181 | a cached call unavailable twice and then answering yields the third reply |
| Generator.RenderBlock | rag/final/generator.py:56-64 | a block opens with its bracketed section and ends with the closing bracket, a line feed and its content |
| Generator.RenderBlocks | rag/final/generator.py:56-64 | one rendering per block, in input order |
| Generator.BuildContextText | rag/final/generator.py:52-64 | empty exactly for no blocks; otherwise it opens with the first block's heading |
| Generator.ContextTextSingle | rag/final/generator.py:52-64 | one block renders as its bracketed section heading (with the similarity when asked), a line feed and its content |
| Generator.ContextTextAppend | rag/final/generator.py:52-64 | blocks are joined by a blank line in input order |
| Generator.SearchAttachment | rag/final/generator.py:371-378 | the business-model title passes the path as given and raises the `Path(None)` TypeError without one; the market title drops an empty or missing path |
| Generator.SchemaFor | rag/final/generator.py:353-356 | the report-item schema exactly for the business-model title, the market schema otherwise |
| Generator.GoogleSearchOutcome | rag/final/generator.py:344-390 | the prompt is the template filled with company, title, task, the context without similarity and the title's schema; search is always on; the business-model title uses the given path and the report parser and raises without a file; other titles drop an empty path and use the market parser with the grounding; a value is the retried call's, an error its retry message |
| Generator.LevelTask | rag/final/generator.py:406-410 | the level task is the task followed by the market-scope heading and the expanded keywords of that level |
| Generator.LevelNote | rag/final/generator.py:426-431 | a non-empty method gets ` (상위 시장 레벨 L 적용)` appended; a missing or empty one becomes `None` |
| Generator.Annotate | rag/final/generator.py:426-431 | only the overseas method changes; a missing overseas forecast raises, even when the Korean one was accepted |
| Generator.LevelStep | rag/final/generator.py:420-432 | a failed search or a non-market result stops the loop with that error; an acceptable answer is returned annotated, and one accepted without an overseas forecast raises NoOverseasMarket; otherwise the next level is tried |
| Generator.GenerateMarketWithFallback | rag/final/generator.py:392-435 | levels 0, 1, ... are searched in order, each with its own call, at most max_level + 1 times, stopping at the first level whose result is not a market answer rejected by the size check; that step is returned or raised, else the last answer is returned; max_level below 0 raises |
| Pipeline.ResolveSource | rag/final/pipeline.py:24-33 | item 3 is always search-grounded; otherwise the override map wins when it holds the id, else the default |
| Pipeline.EmptySourceMapIsNone | rag/final/pipeline.py:31 | an empty override map behaves like no map |
| Pipeline.Dispatch | rag/final/pipeline.py:39-124 | a route is taken exactly for a supported source with the file present when needed; otherwise the error is the missing-file message or `Unsupported source: …` |
| Pipeline.PatentSourceElsewhereIsUnsupported | rag/final/pipeline.py:49 | `ipc+kipris` on another item than 2 is unsupported |
| Pipeline.RemoveSpaces | rag/final/pipeline.py:138 | no space is left and a text without spaces is unchanged |
| Pipeline.RemoveSpacesAppend | rag/final/pipeline.py:138 | spaces are removed piecewise, keeping every other character in order |
| Pipeline.NormalisedCodes | rag/final/pipeline.py:138 | one code per item, in input order, each with every space removed |
| Pipeline.BuildKiprisIpcKeyword | rag/final/pipeline.py:129-141 | the codes without spaces joined by `*` in input order; empty for no items; for a non-empty list of codes none of which contains `*`, splitting on `*` gives the codes back |
| Pipeline.KeywordExample | rag/final/pipeline.py:129-141 | `G06Q 50/16`, `G06T19/00`, `G06Q10/06` give `G06Q50/16*G06T19/00*G06Q10/06` |
| Pipeline.ItemBounds | rag/final/pipeline.py:206 | the caller's range, or 1 to the catalogue size when none is given |
| Pipeline.PromptFor | rag/final/pipeline.py:233 | the item's prompt exactly when the title has one, None otherwise |
| Pipeline.ItemResult | rag/final/pipeline.py:227-254 | the record keeps the title; a dispatch error is the failure with that message; once dispatched, the item fails exactly when the generator given its prompt or None raises, with that message, and otherwise records the generator's content |
| Pipeline.Generate | rag/final/pipeline.py:197-256 | ids are visited upward from the start; without an escaping exception the keys are exactly start..end, each the outcome of its own item; otherwise the run aborts at the first missing item or failed retrieval |
| CacheManager.BuildCacheKey | rag/final/cache_manager.py:22-27 | the key starts with `vf:` and has the length of its parts and separators |
| CacheManager.CacheKeyDeterminesHash | rag/final/cache_manager.py:27 | for a fixed company and version, distinct hashes give distinct keys |
| CacheManager.CacheKeyInjective | rag/final/cache_manager.py:27 | with colon-free hashes and versions the key determines all three parts |
| CacheManager.CacheKeyCollision | rag/final/cache_manager.py:27 | a colon in the company name lets two different company and hash pairs share a key |
| CacheManager.VfCache.constructor | rag/final/cache_manager.py:14 | the store starts empty with no calls made |
| CacheManager.VfCache.GetOrCreateCacheVf | rag/final/cache_manager.py:29-62 | a hit with a non-empty name returns it with no call; a miss makes one upload and one create, stores the new name under the key and returns it; no other entry changes and no key is lost |
| CacheManager.VfCache.GetTwice | rag/final/cache_manager.py:38-60 | once the first call returns a non-empty name, a second call with the same arguments returns the same name and makes no upload or creation |
| KiprisParser.DigitRun | rag/final/collectors/kipris_parser.py:20 | the maximal run of digits at a position |
| KiprisParser.ScanAtIsPattern | rag/final/collectors/kipris_parser.py:20 | the hand-written scanner at one position accepts exactly the matches of the pattern |
| KiprisParser.SearchFrom | rag/final/collectors/kipris_parser.py:30 | the leftmost match at or after a position, or none exists |
| KiprisParser.YearInRange | rag/final/collectors/kipris_parser.py:20 | a matched year lies in 1900..2099 |
| KiprisParser.ParseYearCount | rag/final/collectors/kipris_parser.py:26-34 | a `None` cell and a cell without a match give no pair; a parsed year lies in 1900..2099 |
| KiprisParser.ParseYearCountLeftmost | rag/final/collectors/kipris_parser.py:30-34 | the parse is the year and parenthesised count of the leftmost match |
| KiprisParser.SortedYears | rag/final/collectors/kipris_parser.py:96 | exactly the keys, strictly ascending |
| KiprisParser.BuildYearSeriesFromColumn | rag/final/collectors/kipris_parser.py:84-99 | a missing column gives empty lists; otherwise the years are the parsed years strictly ascending, each value the sum of the counts of that year's cells |
| KiprisParser.YearTotalAbsent | rag/final/collectors/kipris_parser.py:90-94 | a year no cell parses to has no count |
| KiprisParser.BuildKiprisYearAggregates | rag/final/collectors/kipris_parser.py:102-109 | `출원년도`, `공개년도` and `등록년도` give the application, publication and registration series |
| KiprisParser.SeriesSumsCounts | rag/final/collectors/kipris_parser.py:90-97 | unparseable cells are skipped and nothing else is dropped: the values add up to the sum of the parsed counts |
| FinalRun.KeepOrUnderscore | rag/final_run.py:17-19 | character for character, alphanumerics, space, `_` and `-` stay and every other character becomes `_` |
| FinalRun.ReplaceSpaces | rag/final_run.py:20 | each space becomes one `_`, nothing else changes |
| FinalRun.Sanitise | rag/final_run.py:16-20 | the sanitised text is never longer than the input |
| FinalRun.SanitiseCharset | rag/final_run.py:16-20 | the sanitised text holds only alphanumerics, `_` and `-` |
| FinalRun.SanitiseShape | rag/final_run.py:20 | no space is left and the text neither starts nor ends with whitespace |
| FinalRun.SanitiseIdempotent | rag/final_run.py:16-20 | sanitising twice is sanitising once |
| FinalRun.InnerSpacesKept | rag/final_run.py:20 | a run of inner spaces becomes as many `_`: runs are not collapsed |
| FinalRun.DoubleSpaceExample | rag/final_run.py:20 | `"a  b"` becomes `"a__b"` |
| FinalRun.SafeFilename | rag/final_run.py:22-25 | the name ends with `.json` after at least the `_` separator |
| FinalRun.SafeFilenameChars | rag/final_run.py:22-25 | before `.json` the name holds only alphanumerics, `_` and `-`, so no `/` can enter it |

## Left out

- External calls: the LangChain and Gemini calls, the file upload and the cache creation are oracle parameters; their failures are values, and the request configuration (model name, temperature, tools) is not modelled. The model-call and upload oracles take the attempt number, so each attempt may answer differently even when it sends the same request.
- `json.loads`, pydantic validation and the format instructions of `JsonOutputParser` are the `parse` parameter of the invokers.
- The strict-JSON instruction text is the parameter `strict`, since its literal is immaterial to the escalation.
- Sleep durations: sleeps between retries are counted, their lengths are dropped.
- `guess_base_market`, `expand_market_keywords` and `has_valid_market_size` are opaque parameters (`baseMarket`, `expand`, `isValid`); their source is not part of this model.
- GenerateMarketWithFallback: the search call is the parameter `search`, taking the level and the task, with company, title, context and file fixed; its specification is `GoogleSearchOutcome`.
- SearchAttachment: the message for a missing business-model file is the `Path(None)` TypeError text of Python 3.10 and 3.11; Python 3.12 and later word it differently.
- Annotate: the in-place assignment to `overseas_market.method` is modelled as a new value; no other reference to the answer exists in the loop.
- Pipeline.Generate: the query formatting, the embedding and `retrieve_context` are the parameter `retrieve`; the generators and the patent pipeline behind a route are the parameter `produce`; `PROMPT_MAP` is the parameter `prompts`.
- `run_ipc_kipris_pipeline` is left out except for its keyword builder, since the rest is calls to the model, the browser and the spreadsheet reader.
- The `__main__` block of `rag/final_run.py` is left out: it is I/O and passes a `biz_no` keyword that `generate` does not accept. `save_report_to_json` is left out as file I/O.
- CacheManager: the SHA-256 file hash is the uninterpreted `fileHash` of the file bytes, and the file read is not modelled.
- CacheManager.VfCache.GetOrCreateCacheVf: upload and create failures are not modelled; a miss always succeeds.
- KiprisParser: the spreadsheet reader `read_kipris_excel_values` and the file handling of `run_kipris_pipeline` and `cleanup_directory` are left out as zip/XML and file I/O; a table is a map from column name to cells, and a cell is its `str()` text or `None`.
- KiprisParser: `\d` is modelled as the ASCII digits, while Python's `\d` also accepts other Unicode decimal digits.
- FinalRun: `str.isalnum` is the parameter `isAlnum`, since Python's Unicode tables are not modelled.
- Strings are sequences of code points; Python's whitespace table is modelled exactly.
- The similarity score of a context block is the text of the rounded float, since floating point is not modelled.
- Browser automation in `kipris_client.py`, the database and search-engine set-up, and all logging are left out.
