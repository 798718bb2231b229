# pact-backend core, modelled in Dafny

pact-backend is a FastAPI backend for a prompt-safety tool. A user's prompt goes to a hosted language model. An optimised variant of the prompt is produced. Both prompt/answer pairs are scored by content-safety evaluators on eight metrics:

- grammar
- spell_check
- sensitive_info
- violence
- bias_gender
- self_harm
- hate_unfairness
- jailbreak

The scores are stored with the conversation turn and folded into two running histogram documents, `prompt_metrics` and `opt_prompt_metrics`.

This project models the backend's own logic. The cloud services around it (Azure evaluators, MongoDB, the JWT and bcrypt libraries, the language model) become parameters or abstract inputs.

| module | file | models |
|---|---|---|
| `PyBuiltins` | py_builtins.dfy | What the core uses from Python: `str()` of ints and bools, `int()` of a string (`strip` plus an optional sign and digits), `str.startswith`, and loosely typed JSON values |
| `ChatModels` | chat_models.dfy | `MetricsModel` and the chat request of pact_backend/models/chat.py, with the field names in declaration order |
| `StatisticsModels` | statistics_models.dfy | pact_backend/models/statistics.py: `default_metrics`, the zeroed `StatisticsModel`, and the histogram invariant (every histogram's buckets sum to `count`) |
| `StatisticsRouter` | statistics_router.dfy | pact_backend/routers/statistics.py. The class `StatisticsCollection` holds the `statistics` collection as a map from `metrics_type` to document. `UpdateStatistics` folds a request into both documents with the per-key loop `FoldHistograms`, and `GetStatistics` reads them back with defaults |
| `LlmMetrics` | llm_metrics.dfy | `get_metrics` of pact_backend/routers/llm.py: the max-confidence loop, ceil/floor of ×5, the truncated ×5/7 severities, the jailbreak flag loop, and the 200/500 reply |
| `ChatRouter` | chat_router.dfy | `addChat` of pact_backend/routers/chat.py: the nested flattening loop (`FlattenBody`) and the class `ChatStore`, whose `AddChat` takes the 404 / insert / update / 500 branches over the `history` and `chat` collections |
| `AuthModels` | auth_models.dfy | `SignUpRequest` of pact_backend/models/auth.py: `str_min_length`, the two `re.match` validators, `str.title()` and the password validator |
| `AuthHelpers` | auth_helpers.dfy | `sign_jwt`, `decode_jwt` and `verify_jwt` of pact_backend/helpers/auth.py, with encoding and decoding as function parameters and the clock as a `real` |
| `AuthMiddleware` | auth_middleware.dfy | `JWTMiddleware.dispatch` of pact_backend/middleware/auth.py. A `Request` class carries the `user` field that `Dispatch` sets on every branch |
| `BotResponse` | bot_response.dfy | `BotHandler.get_response` of pact_backend/services/response.py: template choice, `str.format`, the model call as a parameter, and the stripping of `\n` and `"` |

Representation choices:

- Confidence scores are integer hundredths (0..100 for 0.0..1.0). This makes `ceil(m * 5)` equal to `(c + 19) / 20` and `floor(m * 5)` equal to `c / 20`, exactly.
- Severity scores are integers. `int(score * 5 / 7)` is written as truncation toward zero (`TruncDiv`), not as Dafny's Euclidean division.
- A Python exception in a handler becomes a `None`, or an error reply with the status the handler's `except` returns.

## Behaviour worth noting

- **Sensitive info with no entities.** The stored metric is 0 when the evaluator result is absent, is not a list, or is an empty list; there is no separate "not computed" value (`LlmMetrics.SensitiveZeroCases`).
- **Severity scaling.** The raw score is scaled with `int(raw * 5 / 7)`, which truncates toward zero rather than rounding (`LlmMetrics.SeverityOnScale`, `LlmMetrics.SeverityTruncatesTowardZero`).
- **Failed evaluators.** A failing evaluator is not absorbed into a default value:
  - a grammar reply that does not parse makes the whole endpoint answer 500;
  - so does a `None` evaluator result being subscripted.
  (`LlmMetrics.SuccessIffBothSides`, `LlmMetrics.NonNumericGrammarFails`)
- **Statistics fold of an out-of-range value.** A metric value with no bucket is not skipped: the increment raises, the reply is 500, and neither document is written (`StatisticsRouter.UpdateDefinedIff`, `StatisticsRouter.StatisticsCollection.UpdateStatistics`).
- **Regular expressions.** The username and full-name patterns end in `$`. In Python this also matches just before a final newline, so `"abc\n"` is accepted (`AuthModels.UsernameAcceptedIff`).

## Model

| member | source | states |
|---|---|---|
| PyBuiltins.IntToStrRoundTrip | pact_backend/routers/statistics.py:32 | `int(str(i)) == i` for every integer: the bucket label of a score reads back as the score |
| PyBuiltins.IntToStrIsDigitLabel | pact_backend/models/statistics.py:6-14 | `str(i)` is one of the labels `"0".."5"` exactly when `0 <= i <= 5` |
| ChatModels.MetricsDict | pact_backend/models/chat.py:29-37 | `MetricsModel.dict()` lists the eight fields in declaration order, each name paired with that field's value |
| ChatModels.Index | pact_backend/models/chat.py:29-37 | every metric key has a position in the field order, and the key sits at that position |
| ChatModels.Field | pact_backend/models/chat.py:29-37 | a field holds a bool exactly for `jailbreak` and an int for the other seven |
| StatisticsModels.DefaultMetrics | pact_backend/models/statistics.py:6-14 | `default_metrics()` has exactly the keys `"0".."5"`, all 0 |
| StatisticsModels.DefaultJailbreak | pact_backend/models/statistics.py:26 | the jailbreak default has exactly the keys `"True"` and `"False"`, both 0 |
| StatisticsModels.NewStatistics | pact_backend/models/statistics.py:16-26 | a new document has the given `metrics_type`, `count` 0, the zeroed `"0".."5"` histogram for each integer metric and the zeroed `"True"`/`"False"` one for jailbreak |
| StatisticsModels.NewStatisticsConsistent | pact_backend/models/statistics.py:16-26 | a new document satisfies the histogram invariant: every histogram has exactly its labels, and they sum to `count` |
| StatisticsModels.BucketExists | pact_backend/routers/statistics.py:32-33 | `str(value)` names a bucket of the field's histogram exactly when the value is on the field's scale (0..5, or a bool for jailbreak) |
| StatisticsRouter.FoldUpToShape | pact_backend/routers/statistics.py:31-33 | the first n rounds of the key loop succeed exactly when each visited key finds its bucket; they add and remove no histogram and no bucket |
| StatisticsRouter.FoldUpToNoneExtends | pact_backend/routers/statistics.py:31-33 | once an increment raises, the whole loop has raised |
| StatisticsRouter.FoldUpToCounts | pact_backend/routers/statistics.py:31-33 | after n rounds, each visited metric has exactly its bucket `str(value)` one higher; every other bucket and every unvisited metric is unchanged |
| StatisticsRouter.SumOverIncrement | pact_backend/routers/statistics.py:32-33 | raising one bucket raises the sum over distinct labels by one when the bucket is among them, and by nothing otherwise |
| StatisticsRouter.FoldDefinedIff | pact_backend/routers/statistics.py:31-33 | on a consistent document, folding a record succeeds exactly when every score is in 0..5 |
| StatisticsRouter.FoldHistograms | pact_backend/routers/statistics.py:31-33 | the imperative key loop computes the fold of all eight metrics, or None once an increment raises |
| StatisticsRouter.FoldDocEffect | pact_backend/routers/statistics.py:29-33 | a successful fold keeps `metrics_type` and the set of histograms, raises `count` by one, and raises exactly the bucket `str(value)` of every metric |
| StatisticsRouter.IncrementedConsistent | pact_backend/routers/statistics.py:29-33 | raising one existing bucket of a histogram that sums to `count` gives one that sums to `count + 1` |
| StatisticsRouter.FoldPreservesConsistent | pact_backend/routers/statistics.py:29-33 | a successful fold keeps the invariant that every histogram sums to `count` |
| StatisticsRouter.FoldTwiceCountsTwice | pact_backend/routers/statistics.py:29-33 | folding the same valid record twice raises `count` by two, and the result differs from folding it once: the fold is not idempotent |
| StatisticsRouter.FoldAllConsistent | pact_backend/routers/statistics.py:13-39 | any sequence of valid records folds successfully into a consistent document, and `count` grows by their number |
| StatisticsRouter.FoldAllFromNew | pact_backend/routers/statistics.py:19-33 | starting from the zeroed document, after n valid folds `count == n` and every histogram sums to n |
| StatisticsRouter.LoadedConsistent | pact_backend/routers/statistics.py:17-28 | on a consistent store, the loaded or newly created document has the requested `metrics_type` and keeps the invariant |
| StatisticsRouter.UpdateDefinedIff | pact_backend/routers/statistics.py:13-39 | on a consistent store, an update succeeds exactly when both records have every score in 0..5 |
| StatisticsRouter.UpdatePreservesStore | pact_backend/routers/statistics.py:13-39 | a successful update keeps every stored document consistent and keyed by its `metrics_type`, and raises both counts by exactly one |
| StatisticsRouter.UpdateKeepsOthers | pact_backend/routers/statistics.py:34-35 | a successful update writes exactly the two documents and leaves every other stored document unchanged |
| StatisticsRouter.UpdateRoutesRecords | pact_backend/routers/statistics.py:29-35 | `metrics` is folded into `prompt_metrics` and `opt_metrics` into `opt_prompt_metrics`; in each, exactly the bucket `str(value)` of every metric goes up by one |
| StatisticsRouter.StatisticsCollection.UpdateStatistics | pact_backend/routers/statistics.py:13-39 | the collection becomes the updated store with reply 200, or stays unchanged with reply 500 when an increment raises; a consistent store stays consistent |
| StatisticsRouter.StatisticsCollection.GetStatistics | pact_backend/routers/statistics.py:41-60 | returns the stored documents, or zeroed ones where missing; on a consistent store both satisfy the invariant and carry their own `metrics_type`; nothing is written |
| LlmMetrics.MaxConfidence | pact_backend/routers/llm.py:171-173 | the maximum of 0 and the entities' scores: at least 0, at least every score, and either 0 or one of the scores |
| LlmMetrics.FindMaxConfidence | pact_backend/routers/llm.py:171-173 | the `maxi` accumulator loop computes that maximum |
| LlmMetrics.CeilFifths | pact_backend/routers/llm.py:174 | `ceil(c / 100 * 5)` for a confidence in hundredths: the least r with `c <= 20 r` |
| LlmMetrics.FloorFifths | pact_backend/routers/llm.py:189 | `floor(c / 100 * 5)`: the greatest r with `20 r <= c` |
| LlmMetrics.ComputeSensitiveScore | pact_backend/routers/llm.py:165-177 | the imperative sensitive-info step computes the specified score for either rounding |
| LlmMetrics.SensitiveScoreBounds | pact_backend/routers/llm.py:165-192 | with confidences in 0.0..1.0, the sensitive score lies in 0..5 |
| LlmMetrics.FloorCeilClose | pact_backend/routers/llm.py:165-192 | the floor-based (optimised side) score is defined exactly when the ceil-based one is, is no larger, and is at most one lower |
| LlmMetrics.SensitiveZeroCases | pact_backend/routers/llm.py:166-176 | an absent result, a result that is not a list, and an empty list all give 0 |
| LlmMetrics.SensitiveUsesFirstDocument | pact_backend/routers/llm.py:171 | only the first document's entities matter |
| LlmMetrics.TruncDiv | pact_backend/routers/llm.py:194 | Python's `int()` of a quotient by b > 0: b r <= a < b r + b when a >= 0, and b r - b < a <= b r when a < 0 (truncation toward zero) |
| LlmMetrics.SeverityTruncatesTowardZero | pact_backend/routers/llm.py:194 | for negative scores the scaling truncates toward zero, unlike Euclidean division |
| LlmMetrics.SeverityOnScale | pact_backend/routers/llm.py:194-216 | for a score s in 0..7 the severity is `(5 s) div 7`, lies in 0..5, is 0 exactly for s <= 1 and 5 exactly for s == 7 |
| LlmMetrics.SeverityMonotone | pact_backend/routers/llm.py:194-216 | a higher score never gives a lower severity |
| LlmMetrics.ScanJailbreak | pact_backend/routers/llm.py:218-225 | the flag loop with `break` computes the specified flag |
| LlmMetrics.JailbreakFlagCases | pact_backend/routers/llm.py:218-234 | an empty dict gives "not computed"; a true value anywhere gives True; a non-empty dict with no true value gives False |
| LlmMetrics.JailbreakFlagPythonEquality | pact_backend/routers/llm.py:220 | `== True` also holds for the integer 1, but not for the string "True" |
| LlmMetrics.LetterFirstDoesNotParse | pact_backend/routers/llm.py:159-163 | `int()` raises on any text that starts with a letter, whatever follows, trailing white space included |
| LlmMetrics.NonNumericGrammarFails | pact_backend/routers/llm.py:159-163 | a non-numeric grammar reply, such as `"Error in evaluation"`, makes the endpoint answer 500 |
| LlmMetrics.FlaggedPassesThrough | pact_backend/routers/llm.py:103-150 | in the flagged branch the original pair is never evaluated, and on success the original metrics are the `get_openai_metrics` value as returned |
| LlmMetrics.SuccessIffBothSides | pact_backend/routers/llm.py:153-248 | unflagged, the endpoint succeeds exactly when both sides normalise, and then returns the ceil-normalised original and the floor-normalised optimised side |
| LlmMetrics.NormalizeSide | pact_backend/routers/llm.py:156-234 | the imperative step-by-step normalisation of one side computes the specified evaluation, or None where a step raises |
| LlmMetrics.WellRangedNormalizes | pact_backend/routers/llm.py:156-234 | evaluator outputs in their documented ranges always normalise, with every integer metric in 0..5 and a boolean jailbreak flag |
| LlmMetrics.GetMetrics | pact_backend/routers/llm.py:96-248 | the endpoint method computes the specified reply on both branches |
| ChatRouter.FlattenBody | pact_backend/routers/chat.py:15-25 | the nested key loop computes the flattened record |
| ChatRouter.SpreadKeys | pact_backend/routers/chat.py:19-23 | copying a nested dict adds exactly the prefixed names of its keys |
| ChatRouter.SpreadKeeps | pact_backend/routers/chat.py:19-23 | copying a nested dict leaves every key it does not name unchanged |
| ChatRouter.SpreadWrites | pact_backend/routers/chat.py:19-23 | with distinct keys, each prefixed key holds its value from the nested dict |
| ChatRouter.SpreadMetrics | pact_backend/routers/chat.py:18-23 | copying a metrics dict with a prefix adds exactly the prefixed field names, each holding its field's value, and keeps every other key |
| ChatRouter.FlattenRequestSteps | pact_backend/routers/chat.py:15-25 | the flattened request is its six plain fields, then `prompt_metrics` unprefixed, then `opt_prompt_metrics` with `opt_` |
| ChatRouter.FlattenedKeys | pact_backend/routers/chat.py:15-25 | the flattened request's keys are exactly the `ChatModel` fields other than `created_at`, plus `chat_id` |
| ChatRouter.FlattenedPlain | pact_backend/routers/chat.py:24-25 | every plain field is copied verbatim |
| ChatRouter.FlattenedMetrics | pact_backend/routers/chat.py:18-23 | `prompt_metrics` fields land unprefixed and `opt_prompt_metrics` fields under `opt_`, each with its own value |
| ChatRouter.ChatRecord | pact_backend/routers/chat.py:31-32 | after `chat_id` is deleted, the record's keys are exactly the `ChatModel` fields other than `created_at` |
| ChatRouter.ChatRecordText | pact_backend/routers/chat.py:15-32 | the record holds the request's `history_id`, prompts and responses |
| ChatRouter.ChatRecordMetrics | pact_backend/routers/chat.py:15-32 | the record holds every metric of both sides, the optimised ones under `opt_` |
| ChatRouter.ChatIdCaseInsensitive | pact_backend/routers/chat.py:38-39 | the key `ObjectId(s)` gives a valid id is itself a valid, canonical id denoting the same twelve bytes |
| ChatRouter.SameKeyIffSameValue | pact_backend/routers/chat.py:38-39 | two valid ids reach the same chat key exactly when they denote the same twelve bytes (the same hexadecimal value), so ids differing only in hex case name one chat and no two different values collide |
| ChatRouter.PrefixValueIffDigits | pact_backend/routers/chat.py:38-39 | two hex strings have equal values on a prefix exactly when their digits agree one by one on it |
| ChatRouter.ChatStore.AddChat | pact_backend/routers/chat.py:12-48 | the reply and the new chat collection are those `addChat` specifies; the history collection is never written |
| ChatRouter.ErrorsWriteNothing | pact_backend/routers/chat.py:26-48 | the reply status is 200, 404 or 500, and every reply other than 200 leaves the chat collection unchanged |
| ChatRouter.UnknownConversation | pact_backend/routers/chat.py:27-29 | an unknown `history_id` gives 404 "Conversation not found" with no write |
| ChatRouter.InsertsNewChat | pact_backend/routers/chat.py:33-37 | a missing or empty `chat_id` inserts one new chat whose fields are exactly the request's record (`ChatRecord(r)`) and whose `created_at` is the current time, and keeps every other chat |
| ChatRouter.UnknownChat | pact_backend/routers/chat.py:38-41 | a `chat_id` naming no chat gives 404 "Chat not found" with no write |
| ChatRouter.UpdateKeepsCreatedAt | pact_backend/routers/chat.py:42-45 | an update keeps the chat's `created_at` and any extra stored fields, sets every `ChatModel` field from the request, and leaves other chats unchanged |
| ChatRouter.UpdateRehomesChat | pact_backend/routers/chat.py:38-45 | an update moves the chat to the request's `history_id`, even when it belonged to another conversation |
| AuthModels.RunFrom | pact_backend/models/auth.py:13 | the greedy run of class characters: all in the class, and stopped by a character outside it or by the end |
| AuthModels.AnchoredPlusIff | pact_backend/models/auth.py:13 | `^[class]+$` matches exactly a non-empty string of the class, possibly followed by one newline |
| AuthModels.UsernameAcceptedIff | pact_backend/models/auth.py:11-16 | a username is accepted, unchanged, exactly when it is word characters (one trailing newline tolerated) |
| AuthModels.FullNameAcceptedIff | pact_backend/models/auth.py:18-23 | a full name is accepted exactly when it is letters and spaces; the stored name has the same length and spaces and is its own title case |
| AuthModels.FullNameRefusesDigits | pact_backend/models/auth.py:18-23 | `"Ann 2"` and `"Ann_B"` are refused, although the refusal message says digits and underscores are allowed |
| AuthModels.TitlePointwise | pact_backend/models/auth.py:23 | `title()` upper-cases the first letter of each letter run, lower-cases the rest, and keeps every other character |
| AuthModels.TitleIdempotent | pact_backend/models/auth.py:23 | title-casing twice equals title-casing once |
| AuthModels.TitleKeepsClass | pact_backend/models/auth.py:23 | title-casing keeps letters letters and leaves non-letters unchanged |
| AuthModels.PasswordOnlyNeedsOneChar | pact_backend/models/auth.py:25-29 | the 8-12 check can never fire, so a password is accepted, unchanged, exactly when it is non-empty |
| AuthModels.SignUp | pact_backend/models/auth.py:5-32 | a sign-up is accepted exactly when all four fields pass their validators; otherwise at least one error is reported |
| AuthModels.SignUpStoresTitleCase | pact_backend/models/auth.py:5-32 | an accepted sign-up keeps username and password as sent, stores the title-cased full name, and stores the address `EmailStr` normalises the email to |
| AuthHelpers.Trunc | pact_backend/helpers/auth.py:28 | `int()` of a float truncates toward zero |
| AuthHelpers.SignJwt | pact_backend/helpers/auth.py:25-34 | returns None exactly when encoding raises; otherwise the token encodes the payload with `expires`, and `expires` is the current second plus 3600 |
| AuthHelpers.DecodeJwtIff | pact_backend/helpers/auth.py:37-46 | the claims are returned exactly when decoding succeeds and `int(expires) >= int(now)`; any failure, a missing `expires` included, gives None |
| AuthHelpers.VerifyIffDecodes | pact_backend/helpers/auth.py:49-52 | `verify_jwt` is true exactly when `decode_jwt` returns claims |
| AuthHelpers.SignThenVerify | pact_backend/helpers/auth.py:25-52 | when decoding inverts encoding, a token signed at t verifies exactly while `int(now) <= int(t + 3600)` |
| AuthMiddleware.Request.constructor | pact_backend/middleware/auth.py:12-14 | a request starts with its path, its token cookie, and no user |
| AuthMiddleware.Dispatch | pact_backend/middleware/auth.py:12-47 | sets `user` and returns the outcome the dispatch rules give for the request's path and token |
| AuthMiddleware.ExemptForwardsAnonymously | pact_backend/middleware/auth.py:45-47 | an exempt path is forwarded with no user, even with a token |
| AuthMiddleware.NoTokenForwardsAnonymously | pact_backend/middleware/auth.py:42-44 | a request without a token cookie is forwarded with no user |
| AuthMiddleware.DecodedForwardsWithClaims | pact_backend/middleware/auth.py:23-30 | a protected request whose token decodes is forwarded with the claims as its user |
| AuthMiddleware.RefusedIff | pact_backend/middleware/auth.py:23-40 | a request is refused exactly when its path is protected and its token does not decode; every refusal is a 401 with no user, with the expired or the invalid message |
| AuthMiddleware.ExpiryNotChecked | pact_backend/middleware/auth.py:25-30 | claims whose `expires` has passed, which `verify_jwt` refuses, are still forwarded |
| AuthMiddleware.ExemptExtends | pact_backend/middleware/auth.py:15-22 | any path that begins with an exempt path is itself exempt, since the test is `startswith` |
| AuthMiddleware.PrefixTestIsLoose | pact_backend/middleware/auth.py:15-22 | the exemption is a plain prefix test: `/docsX` and `/api/v1/authority` are exempt, `/api/v1/chat` is not |
| BotResponse.TemplateOf | pact_backend/services/response.py:60-63 | no structure gives the default question template; a structure without `prompt_template` gives `"{}"`; otherwise its own template |
| BotResponse.FormatCopies | pact_backend/services/response.py:63 | `str.format` copies literal characters |
| BotResponse.FormatUndoubles | pact_backend/services/response.py:63 | `{{` and `}}` become single braces |
| BotResponse.FormatEscape | pact_backend/services/response.py:63 | any text with its braces doubled formats back to itself |
| BotResponse.BareTemplateVerbatim | pact_backend/services/response.py:63 | `"{}".format(p) == p` |
| BotResponse.PrefixTemplate | pact_backend/services/response.py:63 | an escaped prefix followed by `{}` formats to the prefix followed by the prompt |
| BotResponse.DefaultTemplateAsks | pact_backend/services/response.py:60-63 | with no structure, the model receives "Answer the following question: " followed by the prompt |
| BotResponse.MissingTemplateVerbatim | pact_backend/services/response.py:63 | a structure without `prompt_template` sends the prompt verbatim |
| BotResponse.SecondAutomaticFieldRaises | pact_backend/services/response.py:63 | `"{}{}"` fails for lack of a second argument, while `"{0}{0}"` repeats the prompt |
| BotResponse.RemoveChar | pact_backend/services/response.py:74 | `replace(c, "")` leaves no `c` and never lengthens the text |
| BotResponse.KeepOthers | pact_backend/services/response.py:74 | the reference filter keeps only characters other than `\n` and `"` |
| BotResponse.SanitizeKeepsOthers | pact_backend/services/response.py:74 | the two `replace` calls equal the one-pass filter: every other character is kept, in order |
| BotResponse.KeepOthersCounts | pact_backend/services/response.py:74 | every other character keeps its number of occurrences, and `\n` and `"` occur zero times |
| BotResponse.SanitizeIdempotent | pact_backend/services/response.py:74 | stripping twice equals stripping once |
| BotResponse.GetResponse | pact_backend/services/response.py:49-75 | fails with a format error exactly when the template is rejected; a success is a dict with the single key `response`, holding no `\n` and no `"` |
| BotResponse.GetResponseReply | pact_backend/services/response.py:65-75 | the reply is the model's output for the formatted prompt with exactly `\n` and `"` removed; a failing model call becomes `RuntimeError` |

## Left out

- The evaluators of pact_backend/services/metrics.py (Azure AI evaluators, Text Analytics and the `ThreadPoolExecutor` fan-out). They are foreign calls plus concurrency. Their results enter the model as the `RawMetrics` input of `LlmMetrics.MetricsOf`, and a raising `evaluate_all` as `None`.
- `Metrics.get_openai_metrics` is not part of this model. Its result is an opaque `Value` that the flagged branch passes through.
- Floating point: confidences are integer hundredths and severity scores are integers, so IEEE rounding of `m * 5` and `score * 5 / 7` is not modelled.
- MongoDB I/O: `find_one`, `replace_one`, `insert_one` and `update_one` are map reads and writes. A failing database call is not modelled; the `except` branches are modelled only for the errors the handlers' own code raises.
- The read-modify-replace race between concurrent `update_statistics` calls. Each update is one atomic step of `StatisticsRouter.StatisticsCollection.UpdateStatistics`.
- The `_id` field of stored documents and its `del` before writing back. Documents are stored without it.
- `ChatRouter.ChatStore.AddChat`: the 500 reply's message includes the exception text, which is not modelled; the reply has a fixed message.
- Mongo's generated id for a new chat is the parameter `newId`, assumed to be a well-formed id in canonical (lower-case) form, and the current time is the parameter `now`. A clash with an existing id is treated as a 500.
- bcrypt hashing, the HS512 JWT encode and decode, and the `EmailStr` validation are library internals. They are function parameters (`encode`, `decode`, `emailNorm`). `emailNorm` returns the normalised address, or nothing when the address is refused. Its normalisation rules (such as stripping a display name or lower-casing the domain) are not modelled.
- `call_next` and whatever the routers do with a forwarded request. `AuthMiddleware.Dispatch` returns `Forwarded` in its place.
- `BotHandler.__init__` (configuration only) and `get_openai_callback` (token accounting). The language model call is the parameter `llm`.
- The other endpoints (`get_bot_response`, `get_voice_response`, the auth, history and upload routers, `getChat`), the configuration and the server wiring. They are request plumbing around the logic modelled here.
- `BotResponse.FormatFrom` supports only `{}`, `{0}`, `{{` and `}}`. Any other replacement field, format spec or conversion is treated as a format error, although Python accepts some of them.
- `PyBuiltins.ParseInt` does not accept underscores between digits, non-ASCII digits or non-ASCII white space, which Python's `int()` accepts.
- `AuthModels.IsWordChar` is `\w` on ASCII only. Python's `\w` also matches non-ASCII letters and digits.
- `AuthModels.Title` title-cases ASCII letters only. Python's `str.title()` also changes non-ASCII cased characters.
