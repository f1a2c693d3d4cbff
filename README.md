# Chat service of steward-of-gondor, modelled in Dafny

The repository serves one local DeepSeek-Coder checkpoint over HTTP. Its logic
is all in `app.py`:

- `DeepSeekChatbot` chooses a device and loads a tokenizer and a model.
- Its `generate_response` wraps the user's message in a fixed chat template,
  runs the model, and extracts the assistant's turn from the decoded text.
- The `/chat` handler validates the JSON body in a fixed order. It fills in
  defaults, generates, and echoes the parameters it used. Every raised
  exception becomes a 500 reply.
- `/health` reports whether a model is loaded and on which device.

This project models that logic. It has six modules:

- `Outcomes` (`outcomes.dfy`): `Option`, and a `Result` that stands for a
  Python call that either returns or raises with `str(e)`.
- `PyStr` (`pystr.dfy`): the Python string operations the code relies on, on
  `seq<char>`. These are `str.isspace` and `str.strip()`, `str.find`, and
  `str.split(sep)`, which takes the leftmost non-overlapping occurrences.
  There are also `Join`, `First` (`[0]`) and `Last` (`[-1]`).
- `ChatTemplate` (`chat_template.dfy`): the prompt template and the extraction
  `split("<|im_start|>assistant\n")[-1].split("<|im_end|>")[0].strip()`.
- `Json` (`json.dfy`): the parsed request body. It also has the Python
  operations `chat` applies to the body: truth value, `dict.get`, and the
  chained comparison `0 < v <= hi` with its `TypeError`.
- `ChatApp` (`chat_app.dfy`): the `DeepSeekChatbot` class, the pure
  specification functions of generation, validation and the chat handler,
  the methods that carry them out on the bot's state, and `/health`.
- `ChatProperties` (`chat_properties.dfy`): lemmas about the handler as a
  whole.

The model follows Python's semantics where they differ from the obvious ones:

- `bool` is a subclass of `int`, so `"temperature": true` passes the range
  check as 1.
- A `null`, string, list or object temperature or top_p makes `0 < v`
  raise `TypeError`. The outer handler turns that into a 500 reply, not a 400.
- For a body that is not a JSON object, `'message' in data` does different
  things. On a string it is a substring test. On a list it is a membership
  test. On a number or `true` it raises. A string or list body that passes
  the test is then indexed with `'message'`, which raises. The messages of
  these `TypeError`s follow CPython 3.11 to 3.13.
- `max_length` is never checked. It is passed to generation and echoed as
  given, of whatever type.
- Loading stores the tokenizer before it loads the model. A model-load
  failure therefore leaves the tokenizer set and the model unset.

Tokenization, sampling and decoding are one function-typed parameter,
`Inference`. It receives the model and tokenizer handles, the formatted
prompt and the parameters, and returns decoded text or an error. The two
loaders (`from_pretrained`) and the directory-existence test are parameters
of `LoadModel` in the same way.

Some behaviour of the code is easy to get wrong:

- A non-numeric temperature or top_p gives 500, not 400.
- When the assistant marker is missing, extraction returns the stripped text
  before the first end marker (`ExtractWithoutAssistantMarker`).
- After the assistant marker, the response is cut at the first end marker
  (`ExtractCutsAtTurnEnd`).
- The response of a successful reply may be empty. An output that only
  echoes the prompt gives `""` (`ExtractOfBarePrompt`).
- `max_length` has no bound.

## Model

| member | source | states |
|---|---|---|
| `PyStr.IsSpaceMatchesTable` | app.py:149 | the whitespace test accepts exactly CPython's `str.isspace` code points, listed one by one |
| `PyStr.TrimStart` | app.py:102 | left half of `strip()`: the result is a suffix of the input, does not start with whitespace, and everything cut off is whitespace |
| `PyStr.TrimEnd` | app.py:102 | right half of `strip()`: the result is a prefix of the input, does not end with whitespace, and everything cut off is whitespace |
| `PyStr.Strip` | app.py:102 | `strip()` returns a slice of the input with no whitespace at either end, and every character removed on either side is whitespace |
| `PyStr.StripEmptyIffAllSpace` | app.py:149 | `message.strip()` is empty exactly when every character of the message is whitespace (both directions) |
| `PyStr.StripOfStripped` | app.py:102 | a string with no whitespace at either end is left unchanged by `strip()` |
| `PyStr.StripIdempotent` | app.py:102 | `strip()` applied twice equals `strip()` applied once |
| `PyStr.FindFrom` | app.py:102 | `find(sep, k)`: a found index is at or after `k` and `sep` occurs there; `None` only when no occurrence starts at or after `k` |
| `PyStr.FindFromLeftmost` | app.py:102 | no occurrence starts between `k` and the index `find(sep, k)` returns, so the scan finds the leftmost one |
| `PyStr.Find` | app.py:102 | the leftmost occurrence of the separator, with no occurrence before it; `None` exactly when the separator does not occur |
| `PyStr.SplitFrom` | app.py:102 | the pieces of `s[k..]` as `split` scans them from `k`: at least one, none containing the separator |
| `PyStr.Split` | app.py:102 | `split(sep)` returns at least one piece, and no piece contains the separator |
| `PyStr.JoinSplit` | app.py:102 | joining the pieces of `split(sep)` with `sep` gives back the input (round trip) |
| `PyStr.JoinSplitFrom` | app.py:102 | joining the pieces of `s[k..]` with `sep` gives back `s[k..]` |
| `PyStr.SplitOfFree` | app.py:102 | a string without the separator splits into itself alone |
| `PyStr.SplitFirst` | app.py:102 | `[0]` of the split is the text before the leftmost occurrence, or the whole input |
| `PyStr.SplitLastIsSuffix` | app.py:102 | `[-1]` of the split is a suffix of the input |
| `PyStr.SplitLastAfterSeparator` | app.py:102 | if the separator cannot overlap itself and the input ends with separator + text free of it, `[-1]` of the split is that text |
| `ChatTemplate.Format` | app.py:72 | the prompt is the user marker, the message verbatim, then `"<|im_end|>\n<|im_start|>assistant\n"`; it ends with the assistant marker and is 50 characters longer than the message |
| `ChatTemplate.FormatInjective` | app.py:72 | distinct messages give distinct prompts |
| `ChatTemplate.Extract` | app.py:102 | the extracted response contains neither marker and has no whitespace at either end |
| `ChatTemplate.AssistantOpenNoSelfOverlap` | app.py:102 | two occurrences of the assistant marker can never overlap |
| `ChatTemplate.ExtractIdempotent` | app.py:102 | extracting from an extracted response changes nothing |
| `ChatTemplate.ExtractWithoutAssistantMarker` | app.py:102 | with no assistant marker, the result is the stripped text before the first end marker, or the whole stripped text if that marker is missing too |
| `ChatTemplate.ExtractAfterPrompt` | app.py:72-102 | for decoded output `Format(m) + g`, where `g` holds neither marker, extraction yields `strip(g)`, whatever `m` is |
| `ChatTemplate.TurnEndNoSelfOverlap` | app.py:102 | two occurrences of the end marker can never overlap |
| `ChatTemplate.FindTurnEndAfter` | app.py:102 | in `g + "<|im_end|>" + rest` with `g` free of the end marker, the leftmost end marker is right after `g` |
| `ChatTemplate.ExtractCutsAtTurnEnd` | app.py:72-102 | for decoded output `Format(m) + g + "<|im_end|>" + rest`, with no assistant marker after the prompt and no end marker in `g`, extraction yields `strip(g)`: the text after the first end marker is dropped |
| `ChatTemplate.ExtractOfBarePrompt` | app.py:72-102 | an output that only echoes the prompt yields the empty response |
| `Json.FalsyValues` | app.py:138 | `not data` holds exactly for `null`, `false`, zero, and the empty string, list and object |
| `Json.NumericValue` | app.py:154-159 | ints and floats have their own value and bools the value 0 or 1 when Python orders them against `0`; other types have no number |
| `Json.Get` | app.py:144-146 | `dict.get(key, default)`: the stored value when the key is present, even `null`, else the default |
| `Json.BetweenZeroAnd` | app.py:154-162 | `0 < v <= hi` holds exactly for numbers in (0, hi], fails for other numbers, and raises the `int`/type `TypeError` for every non-number |
| `ChatApp.HttpReply.Status` | app.py:141-189 | success is 200, a validation reply 400, an exception reply 500 |
| `ChatApp.SelectDevice` | app.py:26 | a non-empty explicit device wins; without one, `cuda` exactly when it is available and `cpu` otherwise; the device is never empty |
| `ChatApp.DTypeFor` | app.py:42-47 | half precision exactly on `cuda` |
| `ChatApp.GenerateResult` | app.py:67-104 | unset model or tokenizer gives "Model not loaded. Call load_model() first."; inference errors pass through; a success is the extraction of the decoded output, free of both markers |
| `ChatApp.ParamsOf` | app.py:144-146 | each parameter is the body's field when present, else 512, 0.7 or 0.9 |
| `ChatApp.Validate` | app.py:136-162 | accepted exactly when the body is an object with a non-blank string message, a numeric temperature in (0, 2.0] and a numeric top_p in (0, 1.0]; checks run in order and the first failure decides its fixed 400 message or its 500 `TypeError` |
| `ChatApp.Chat` | app.py:135-189 | rejected requests get the validation reply; accepted ones get 200 with the response and the echoed parameters, or 500 with `"Internal server error: " + str(e)`; success implies acceptance |
| `ChatApp.DeepSeekChatbot.constructor` | app.py:24-28 | the device is chosen; model and tokenizer start unset |
| `ChatApp.DeepSeekChatbot.LoadModel` | app.py:31-52 | a missing path fails with the not-found message and changes nothing; otherwise the tokenizer is stored, then the model; the first failure is returned; loaded stays loaded; the model is never set without the tokenizer |
| `ChatApp.DeepSeekChatbot.GenerateResponse` | app.py:54-108 | carries out `GenerateResult` on the bot's fields; refuses when not loaded |
| `ChatApp.DeepSeekChatbot.HealthCheck` | app.py:113-120 | status is always "healthy"; `model_loaded` is whether the model is set, which in a valid state means loaded; the device is reported |
| `ChatApp.NewChatbot` | app.py:24-29 | construction then loading; no error exactly when the path exists and both loaders succeed, and then the bot is loaded |
| `ChatApp.HandleChat` | app.py:122-189 | the `/chat` handler on the bot's state gives exactly `Chat`'s reply; success implies a loaded bot and an acceptable request |
| `ChatProperties.RejectionSkipsGeneration` | app.py:138-171 | a request that fails validation gets the same non-success reply whatever the host state and inference do |
| `ChatProperties.UnloadedHostAnswers500` | app.py:67-68 | a valid request to an unloaded host gets 500 with the not-loaded message |
| `ChatProperties.SuccessfulReplyIsClean` | app.py:102 | every 200 reply holds a stripped response without markers and echoes the parameters |
| `ChatProperties.ReplyCarriesGeneratedText` | app.py:72-183 | when decoding gives the prompt plus marker-free text, the reply is that text stripped, with the model path and parameters |
| `ChatProperties.TemperatureChecked` | app.py:154-157 | with a good message, a float temperature gets the temperature error exactly when it is outside (0, 2.0] |
| `ChatProperties.TopPChecked` | app.py:159-162 | with a good message and temperature, a float top_p gets the top_p error exactly when it is outside (0, 1.0] |
| `ChatProperties.NullTemperatureIs500` | app.py:154 | a `null` temperature gives 500 with the `NoneType` comparison error |
| `ChatProperties.StringTopPIs500` | app.py:159 | a string top_p gives 500 with the `str` comparison error |
| `ChatProperties.MaxLengthUnchecked` | app.py:144 | any `max_length` value leaves the verdict unchanged and is passed on as given |
| `ChatProperties.NumberBodyIs500` | app.py:138 | a non-zero int or float, or `true`, as the whole body makes `'message' in data` raise, giving 500 "not iterable" |
| `ChatProperties.StringOrListBody` | app.py:138-143 | a non-empty string or list body holding "message" gets 500 from indexing it with a string; any other gets 400 "Missing 'message' field in request body" |
| `ChatProperties.HelloUsesDefaults` | app.py:143-146 | `{"message": "Hello"}` is accepted with 512, 0.7 and 0.9 |
| `ChatProperties.BlankMessageRefused` | app.py:149-152 | an empty or all-whitespace message gets 400 "Message must be a non-empty string" |
| `ChatProperties.MessageCheckedBeforeTemperature` | app.py:149-157 | a non-string message is refused with the message error even when the temperature is `null` |
| `ChatProperties.BoundaryValues` | app.py:154-162 | temperature 2.0 and top_p 1.0 are accepted; temperature 0 or 3.0 and top_p 0 are refused |
| `ChatProperties.BoolTemperature` | app.py:154 | `true` passes as temperature 1, `false` is refused as 0 |

## Left out

- Flask routing, `jsonify`, CORS and the 404/405 handlers: framework plumbing around the handler.
- Reading the request (`request.get_json()`): the model starts from the parsed value. `get_json()` runs inside the handler's `try`. Malformed JSON, or a non-JSON content type on recent Flask, makes it raise. Those failures become 500 replies "Internal server error: 400 Bad Request: ..." (or "415 ..."), which the model does not produce. On older Flask, `get_json()` returns `None` instead, and `Validate(JNull)` covers that case.
- NaN and infinite floats, which Python's `json` accepts: `JFloat` holds a real number. Both would be refused with 400 by the range checks.
- Tokenization (with truncation to 1024 tokens), sampling, `decode(skip_special_tokens=True)` and `.to(device)`: foreign library calls, folded into the `Inference` parameter.
- `from_pretrained` and `os.path.exists`: I/O, given as loader parameters and a boolean.
- The default arguments of `generate_response` (512, 0.7, 0.9): its only caller, `chat`, always passes all three, so `GenerateResult` takes them as inputs.
- Timing and `generation_time` (`time.time()` and `round(..., 2)`): a clock and float rounding. The reply body has no such field.
- Logging, `load_dotenv`, the port and debug environment variables, `app.run`: process start-up and I/O.
- Sharing the global `chatbot` across Flask's request threads: concurrency is not modelled. Each method runs alone on the bot.
- utils/test_client.py, utils/docker-test-client.py and utils/download_model_simple.py: interactive HTTP clients and a network download, not part of this model.
