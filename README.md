# AI-answer layer of the LinkedIn auto-apply bot, in Dafny

This project models the part of the job-application bot that answers form questions with a
language model. It has two layers:

- **The Ollama client** (`OllamaConnections`, modelled on `modules/ai/ollamaConnections.py`).
  It checks the local server's model list, including its error marker. Its completion
  primitive flattens a chat into one prompt, reads a streamed reply up to the first `done`
  chunk, and picks the `{ … }` span of the answer for the JSON parser. It also builds the
  question prompt and forwards completions for skill extraction and question answering.
- **The dispatch layer** (`AiInterface`, modelled on `modules/ai/aiInterface.py`). The class
  `AiDispatcher` holds an immutable configuration record, the one `openai_client` handle and
  a ghost trace of provider calls. Its methods `Initialize`, `AnswerQuestion`,
  `ExtractSkills` and `Cleanup` say what they return for every configuration and every
  provider outcome, and how the handle changes. None of them can raise: every provider
  exception is an input value (`Failure(message)`) that the method turns into `False`, a
  string or an `{"error": …}` mapping.

`PyStr` holds the Python string built-ins the layer uses (`find`, `rfind`, `join`, `lower`,
`str(int)`), and `Wrappers` holds `Option` and `Result`.

The network, `json.loads`, `convert_to_json`, the prompt templates and the OpenAI client
functions are not computed. They are parameters:
- outcome datatypes (`TagsReply`, `PostReply`, `Line`) for what the server sends;
- function-typed arguments for the parsers, the templates and the OpenAI calls.

So every contract holds for any behaviour of those collaborators.

Points where the code's behaviour is easy to misread:
- **JSON fallback.** When the `{ … }` span exists but does not parse, the answer goes
  straight to `convert_to_json`. The whole text is parsed first only when there is no span.
  So each path has two tiers: the first parse, then `convert_to_json` (`SelectJson`).
- **Answer type.** `answer_question` can return the completion's `{"error": …}` mapping
  rather than a string, because `ollama_answer_question` forwards it unchanged.
  `CompletionResult` carries both kinds.
- **Streaming status.** A streamed reply is read whatever its status code. Only the
  non-streamed path checks for 200 (`ReplyText`).
- **Ollama fallback setting.** Both values of `use_AI_if_ollama_not_running` give `False`,
  so `Initialize`'s contract does not mention the setting.

## Model

| member | source | states |
|---|---|---|
| PyStr.Find | modules/ai/ollamaConnections.py:181 | `find("{")` gives -1 exactly when there is no `{`; otherwise it gives an index holding `{` with no `{` before it |
| PyStr.RFind | modules/ai/ollamaConnections.py:182 | `rfind("}")` gives -1 exactly when there is no `}`; otherwise it gives an index holding `}` with no `}` after it |
| PyStr.Join | modules/ai/ollamaConnections.py:268 | `", ".join(options)` is empty for no options, starts with the first option, and ends where the last option ends; `JoinPlacesParts` and `JoinSeparatesParts` give each part's place |
| PyStr.JoinPlacesParts | modules/ai/ollamaConnections.py:268 | `", ".join(options)` holds every option at its offset, in input order, and ends with the last option |
| PyStr.JoinSeparatesParts | modules/ai/ollamaConnections.py:268 | in the joined options, the separator follows every option but the last, and the next option starts right after it |
| PyStr.NatToString | modules/ai/ollamaConnections.py:69 | `str(status_code)` is a non-empty string of decimal digits with no leading zero |
| PyStr.NatToStringRoundTrip | modules/ai/ollamaConnections.py:173 | reading the decimal text back gives the status code itself, so the message names the exact code |
| PyStr.Lower | modules/ai/aiInterface.py:33 | `.lower()` keeps the length and lower-cases each character (ASCII letters only) |
| PyStr.LowerMatchesEveryCasing | modules/ai/aiInterface.py:33 | `s.lower()` equals a lower-case word exactly when `s` is that word in some mix of upper and lower case |
| AiInterface.ProviderName | modules/ai/aiInterface.py:33 | the provider name is the setting (default "unknown") lower-cased: same length, no upper-case ASCII letter, and "unknown" when unset |
| AiInterface.ProviderMatchIgnoresCase | modules/ai/aiInterface.py:33-35 | the provider is "ollama" (or "openai") exactly when the setting spells that name in any casing |
| AiInterface.UnsetProviderIsUnknown | modules/ai/aiInterface.py:33 | an unset provider reads as "unknown", which selects neither backend |
| OllamaConnections.IsRunning | modules/ai/ollamaConnections.py:42-51 | an exception means not running; otherwise the server runs exactly when the status is 200, whatever the body; a readable listing implies a running server |
| OllamaConnections.ModelsList | modules/ai/ollamaConnections.py:54-75 | a 200 reply with a readable body gives its model list; an exception, another status or an unreadable body gives a one-entry list holding an error marker, never an empty list |
| OllamaConnections.ModelExists | modules/ai/ollamaConnections.py:78-90 | a True answer means no entry is an error marker and some dictionary entry carries exactly that name |
| OllamaConnections.NameScan | modules/ai/ollamaConnections.py:88 | the name scan finds a name only when some dictionary entry carries it, and never when the first entry is not a dictionary; `NameScanFinds` gives the exact condition |
| OllamaConnections.NameScanFinds | modules/ai/ollamaConnections.py:88-90 | the name scan is true exactly when some entry carries the name and only dictionaries come before it (a non-dictionary raises, and the handler answers False) |
| OllamaConnections.ModelExistsExactly | modules/ai/ollamaConnections.py:78-90 | `ollama_model_exists` is true exactly when no entry is an error marker and the name is found as above; so an error marker anywhere gives False for every name |
| OllamaConnections.FailedListingHasNoModel | modules/ai/ollamaConnections.py:84-86 | after a failed listing no model exists, whatever the name |
| OllamaConnections.Flatten | modules/ai/ollamaConnections.py:117-130 | the loop's prompt is the system contents (latest first, each followed by a blank line), then the user/assistant turns in input order, then `"Assistant: "` |
| OllamaConnections.SystemStep | modules/ai/ollamaConnections.py:122-123 | a system message turns the prompt built so far into `content + "\n\n" + prompt` |
| OllamaConnections.TurnStep | modules/ai/ollamaConnections.py:119-127 | a user message (including one without a role) appends `"User: "+content+"\n"`, an assistant message appends `"Assistant: "+content+"\n"`, and any other role appends nothing |
| OllamaConnections.TranscriptConcat | modules/ai/ollamaConnections.py:124-127 | the turns of two consecutive message lists are the first list's turns followed by the second's |
| OllamaConnections.SystemHeaderConcat | modules/ai/ollamaConnections.py:122-123 | system messages of a later part of the chat land ahead of those of an earlier part |
| OllamaConnections.NoSystemNoHeader | modules/ai/ollamaConnections.py:122-123 | without system messages nothing is put ahead of the turns |
| OllamaConnections.NoSystemPrompt | modules/ai/ollamaConnections.py:117-130 | without system messages the prompt is the turns in input order followed by `"Assistant: "` |
| OllamaConnections.SingleUserPrompt | modules/ai/ollamaConnections.py:270-277 | a prompt sent as one user message reaches the server as `"User: "+prompt+"\nAssistant: "` |
| OllamaConnections.LinesRead | modules/ai/ollamaConnections.py:152-161 | the loop reads up to and including the first done (or unreadable) line, or every line when there is none |
| OllamaConnections.FirstStopIsRead | modules/ai/ollamaConnections.py:159-161 | when the first stopping line is at index i, exactly i+1 lines are read |
| OllamaConnections.ReadStream | modules/ai/ollamaConnections.py:151-161 | the streaming loop returns the concatenated `response` texts (default "") of the lines read, or the exception of an unreadable line; it reads exactly `LinesRead` lines |
| OllamaConnections.StreamIgnoresTail | modules/ai/ollamaConnections.py:159-161 | lines after the first done chunk are never read and do not change the result |
| OllamaConnections.StreamWithoutDone | modules/ai/ollamaConnections.py:152-158 | a stream with no done chunk and no unreadable line is read to the end, and the result is every chunk's text |
| OllamaConnections.StreamHello | modules/ai/ollamaConnections.py:151-161 | chunks "Hel", "lo" and an empty done chunk give "Hello" after reading three lines, whatever follows |
| OllamaConnections.JsonCandidate | modules/ai/ollamaConnections.py:181-185 | a span is chosen only when the first `{` comes before the last `}`; it is the text from the first `{` through the last `}`, so it starts with `{`, ends with `}` and has at least two characters |
| OllamaConnections.JsonCandidateExists | modules/ai/ollamaConnections.py:181-189 | a span is chosen exactly when some `}` follows some `{`; otherwise the whole answer goes to the parser |
| OllamaConnections.NoBracePair | modules/ai/ollamaConnections.py:184-189 | when the guard on the two indices fails, no `}` anywhere follows a `{` |
| OllamaConnections.CandidateIgnoresSurroundings | modules/ai/ollamaConnections.py:181-185 | text before the object without `{` and text after it without `}` leave the parser exactly the object |
| OllamaConnections.ReplyText | modules/ai/ollamaConnections.py:143-175 | a post exception gives its message; a streamed reply gives the stream's result whatever its status; a non-streamed 200 gives the `response` field (default "") or the body's decode error; any other status gives `"Ollama API error: "+code+" - "+text` |
| OllamaConnections.ParserInput | modules/ai/ollamaConnections.py:181-189 | the first parse gets the text from the first `{` through the last `}` when that span exists, and the whole answer otherwise |
| OllamaConnections.SelectJson | modules/ai/ollamaConnections.py:178-201 | JSON handling never returns the answer text unparsed: the span (or the whole text when there is no span) is parsed first; on a decode error the whole text goes to the converter; an error mapping arises only when the converter raises too, and then holds the completion prefix followed by the converter's message |
| OllamaConnections.Completion | modules/ai/ollamaConnections.py:93-201 | every failure (post exception, non-200 status, unreadable body or chunk, converter exception) becomes `{"error": "Error occurred while generating Ollama completion: "+msg}`; without the json_schema format the result is the answer text, never a structure; with it, the result is `SelectJson` of the answer text |
| OllamaConnections.OllamaCompletion | modules/ai/ollamaConnections.py:113-196 | the step-by-step completion (flatten, post, read the stream or the body, handle JSON) equals `Completion` |
| OllamaConnections.OllamaExtractSkills | modules/ai/ollamaConnections.py:204-229 | the completion's result is returned unchanged for the filled skills prompt; a template exception gives the skills error mapping |
| OllamaConnections.OptionsClause | modules/ai/ollamaConnections.py:267-268 | the options clause is non-empty exactly for a select question with a non-empty list, and is then `"\nOptions: "` plus the options joined by ", " |
| OllamaConnections.AnswerPrompt | modules/ai/ollamaConnections.py:258-268 | prompt building fails exactly when the template fill raises, with that exception |
| OllamaConnections.AnswerPromptStartsWithTemplate | modules/ai/ollamaConnections.py:258-268 | the prompt starts with the template filled with the profile (or "N/A") and the question; the later appends only add to its end |
| OllamaConnections.AnswerPromptLayout | modules/ai/ollamaConnections.py:258-268 | the prompt is the filled template, then `"\nJob Description:\n"` and the description if it is provided, then `"\nAbout the Company:\n"` and the company text if it is provided, then the options clause; provided means given, non-empty and not "Unknown" |
| OllamaConnections.BareQuestionPrompt | modules/ai/ollamaConnections.py:258-268 | a question with no provided context and a non-select type gets exactly the filled template |
| OllamaConnections.UnprovidedSectionsAreSkipped | modules/ai/ollamaConnections.py:261-264 | a job description or company text that is absent, empty or "Unknown" leaves the prompt as if it were not passed |
| OllamaConnections.TextQuestionsIgnoreOptions | modules/ai/ollamaConnections.py:267-268 | for any type other than single_select or multiple_select the options do not affect the prompt |
| OllamaConnections.SelectQuestionsListOptions | modules/ai/ollamaConnections.py:267-268 | a select question ends its prompt with `"\nOptions: "` and the joined options, each option at its offset in input order |
| OllamaConnections.OllamaAnswerQuestion | modules/ai/ollamaConnections.py:256-283 | returns the plain completion's result unchanged (possibly its error mapping, never a structure); "Error generating answer" only when prompt building raised |
| AiInterface.AiDispatcher.constructor | modules/ai/aiInterface.py:17 | the handle starts absent, and no provider has been called |
| AiInterface.AiDispatcher.Initialize | modules/ai/aiInterface.py:19-78 | disabled: False, handle and trace unchanged. Ollama: True iff the server runs and the configured model (default "gemma3:4b") exists, for both fallback settings; the model is checked only when the server runs. OpenAI: the created client is stored and the result is its truthiness, while an exception gives False and keeps the old handle. Unknown provider: False, nothing called |
| AiInterface.AiDispatcher.AnswerQuestion | modules/ai/aiInterface.py:106-152 | disabled: exactly "AI is disabled", nothing called. Ollama: the Ollama answer unchanged. OpenAI with a client: its answer, or "Error answering question: "+msg if it raises. OpenAI without a client, or an unknown provider: "No valid AI provider configured: "+provider, nothing called. The handle never changes |
| AiInterface.AiDispatcher.ExtractSkills | modules/ai/aiInterface.py:80-104 | the same cases as `AnswerQuestion`, as mappings: `{"error": "AI is disabled"}`, the Ollama result unchanged, the OpenAI result or `{"error": "Error extracting skills: "+msg}`, and `{"error": "No valid AI provider configured: "+provider}` |
| AiInterface.AiDispatcher.Cleanup | modules/ai/aiInterface.py:154-172 | with provider openai and a live client, the client is closed; a clean close clears the handle, and a failed close is swallowed and keeps it. With any other provider, or no client, nothing is called or changed. The handle is present only with AI on and provider openai |
| AiInterface.CleanupTwice | modules/ai/aiInterface.py:160-172 | two cleanups in a row, each with its own close outcome: after a clean first close the handle is absent with one close call; after a failed first close the handle is closed a second time and is cleared exactly when that second close succeeds; with no client, or another provider, both are no-ops |

## Left out

- HTTP: `requests.get`/`requests.post`, status codes and `iter_lines` are inputs (`TagsReply`, `PostReply`, a finite `seq<Line>`). A server that streams forever without a done chunk cannot be expressed, because the sequence of lines is finite.
- OllamaConnections.Completion: the `model` and `temperature` arguments and the request payload are not modelled. The server is a function of the prompt only.
- `json.loads`, `convert_to_json` and the `.json()` body decoding are uninterpreted parameters. Only where their inputs come from, and the order of the fallbacks, is modelled.
- Alerts: the `pyautogui.confirm` dialog and the `showAiErrorAlerts` toggle in `ollama_error_alert` are user interaction. An exception raised by the dialog itself is not modelled.
- Logging: `print_lg` and `critical_error_log` are side effects only.
- Configuration: the `globals()` lookups and the guarded imports of the provider modules are replaced by the `Config` record and explicit parameters.
- The OpenAI module (`ai_create_openai_client`, `ai_answer_question`, `ai_extract_skills`, `ai_close_openai_client`) is not part of this model. Its functions are outcome parameters.
- The prompt templates (`ai_answer_prompt`, `extract_skills_prompt`, `extract_skills_response_format`) are not part of this model. They are parameters that may raise.
- config/questions.py holds user settings only and is not part of this model.
- PyStr.Lower: only ASCII letters are case-mapped. Python's full Unicode `lower()` is not modelled. Selecting "ollama" or "openai" is unaffected, but the provider name echoed in "No valid AI provider configured: …" may differ for non-ASCII input.
- `ai_provider` values that are not strings are not modelled. For such a value, `.lower()` raises: inside the handlers of `initialize_ai`, `answer_question` and `extract_skills`, and uncaught in `cleanup_ai`.
- Values of the wrong type are not modelled:
  - message entries that are not dictionaries, and non-string contents;
  - a model entry whose "error" value is truthy but not a string (`ModelEntry.error` holds only strings);
  - a non-streamed body whose "response" key is present but null (`Body.response` is None only when the key is absent), which on the JSON path makes `result.find` raise;
  - a `"models"` value that is not a list (`ModelsJson` holds a list or an unreadable body; a `None` there makes the error-marker `any` at ollamaConnections.py:85 raise, so `ollama_model_exists` answers False);
  - options that are not strings (`", ".join` raises, and `ollama_answer_question` answers "Error generating answer");
  - a `"role"` that is present but not a string (`Message.role` holds only strings);
  - `json.loads` raising something other than `JSONDecodeError`, such as a recursion error on deeply nested text. It skips `convert_to_json` and reaches the outer handler, which `Parse<J>` cannot express, since its only failure is a decode error.
  A non-string `response` field of a chunk is modelled as an unreadable line (`Malformed`).
- Re-running `initialize_ai` with the OpenAI provider drops the previous handle without closing it. The model records this (the handle is overwritten) but states no leak property.
- Concurrency: the layer is single-threaded and holds no locks, so there is nothing to model.
