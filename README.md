# CPF validation middleware, modelled in Dafny

This project models `middleware.c` of checkCpfRestApiGoCgo. The file validates a
Brazilian taxpayer identifier (CPF) by asking the SERPRO consultation service
about it. `validateCpf` returns one of four local codes:

- 200: the CPF exists and is regular.
- 400: the CPF text is malformed.
- 403: the subject is irregular or not found.
- 500: a server or communication problem.

It is built from four small pieces of logic and the entry point that runs them in
sequence, each modelled in its own module:

- `Sanitizer` (`treatCpf`): checks the length of the raw text and copies its ASCII
  digits, NUL-terminated, into the caller's 128-character buffer. It is a `method`
  over an `array<char>`, proved against the pure `Sanitize`/`Digits` functions.
- `StatusMapper` (`convertHttpCode`): the total switch from the remote HTTP status
  to a local code.
- `BodyExtractor` (`treatResponseData`): finds the first `codigo` in the body
  (`strstr` is modelled as the least index where the marker occurs) and reads the
  flag nine characters after it.
- `Accumulator` (`write_callback`): a class over a fixed `array<char>` of 1024
  characters. The array is kept NUL-terminated. A chunk is appended only when it
  fits below the capacity, and the whole chunk is always reported as consumed.
- `Middleware` (`validateCpf`): the class `CpfValidator` holds the process-wide
  state: the one-time global initialisation flag, whether the reusable handle exists,
  and a ghost log of the URLs requested (specification state only, so that contracts
  can say whether a request was made). The HTTP transport is replaced by a `Transport`
  value. It gives the result of each setup step whose failure aborts the call (global
  init, easy init, and the WRITEFUNCTION, WRITEDATA and URL options), the body chunks
  delivered during the request, the request's own result, whether the status could be
  read back, and that status.

Shared pieces live in `common.dfy`:

- `Wrappers.Option` stands for a pointer that may be NULL.
- `LocalCodes` holds the four codes.
- `CStrings.StrLen` is C's `strlen`: the index of the first NUL.

A `seq<char>` passed as a C string stands for the characters before its terminator;
`TreatCpf` and `ValidateCpf` require their CPF text to be NUL-free, as a C string is.
One Dafny `char` stands for one C `char`, a byte. So `|cpf|` is the byte count that
`strlen` returns at middleware.c:76, and the bound of 127 counts bytes, not Unicode
characters.

Two points of the code's control flow that the model keeps:

- A failed transfer does not by itself give 500. The code never reads the result
  of `curl_easy_perform` (middleware.c:281); it decides only on `curl_easy_getinfo`
  and the status it reads back. `Middleware.PerformResultIgnored` states this.
- Failures to build or set the authorisation header, and failures of the HTTPAUTH,
  FAILONERROR, NOSIGNAL and DNS_CACHE_TIMEOUT options, are only logged
  (middleware.c:232-243, 270-276). They do not change the result, so they are not
  outcomes in the model.

## Model

| member | source | states |
|---|---|---|
| `CStrings.StrLen` | middleware.c:176 | `strlen`: the result is the index of the first NUL, or the whole length when there is none; nothing before it is NUL |
| `Sanitizer.Sanitize` | middleware.c:76-95 | treatCpf fails exactly when the text is empty, longer than MAX_SIZE_CPF-1 = 127, or holds no digit; otherwise it yields the digits, 1 to 127 of them |
| `Sanitizer.Digits` | middleware.c:85-91 | the characters kept are all ASCII digits and no more numerous than the input |
| `Sanitizer.DigitPositions` | middleware.c:86-88 | the indices the loop copies from: increasing, each holding a digit, and every digit index included |
| `Sanitizer.DigitsAtPositions` | middleware.c:85-91 | the k-th character kept is the input character at the k-th digit position, so the output is exactly the digit subsequence in order |
| `Sanitizer.DigitsEmptyIff` | middleware.c:92-95 | no character is kept if and only if the input holds no digit |
| `Sanitizer.DigitsConcat` | middleware.c:86-90 | filtering a concatenation is the concatenation of the filtered parts, so digits keep their relative order |
| `Sanitizer.DigitsOfDigitString` | middleware.c:87-88 | a text made only of digits is copied whole |
| `Sanitizer.SanitizeIdempotent` | middleware.c:73-98 | treating an already treated CPF returns it unchanged |
| `Sanitizer.DigitsStep` | middleware.c:86-90 | one more loop iteration appends the current character exactly when it is a digit |
| `Sanitizer.FormattedCpfDigits` | middleware.c:86-90 | the digits of "404.442.820-13" are "40444282013" |
| `Sanitizer.FormattedCpfExample` | middleware.c:73-98 | "404.442.820-13" is treated to "40444282013" |
| `Sanitizer.TreatCpf` | middleware.c:73-98 | the array method returns success exactly when `Sanitize` does; on success the buffer's C string is the digits; a length failure writes nothing; otherwise digits and a NUL are written at indices at most 127 and the rest of the buffer is untouched |
| `StatusMapper.ConvertHttpCode` | middleware.c:108-133 | total; the result is a local code; 200 exactly for 200 and 206, 400 exactly for 400, 403 exactly for 404, 500 for every other status (401 and 500 included) |
| `BodyExtractor.FindFrom` | middleware.c:149 | the least index at or after the start where the marker occurs, or none when it occurs nowhere after it |
| `BodyExtractor.StrStr` | middleware.c:149 | `strstr`: the first occurrence of the marker, or None exactly when it occurs nowhere |
| `BodyExtractor.TreatResponseData` | middleware.c:142-160 | 500 exactly when the marker is absent or fewer than 10 characters remain from its first occurrence; otherwise 200 exactly when the character 9 past the marker is '0', else 403; never 400 |
| `BodyExtractor.FirstMarkerAfterClearHead` | middleware.c:149 | a marker placed after text without the marker is the first occurrence, including windows that straddle the join |
| `BodyExtractor.ProviderFlagDecides` | middleware.c:144-159 | for a body laid out as the provider sends it (`codigo":"` then the flag), the result is 200 for flag '0' and 403 for any other flag |
| `BodyExtractor.NoMarkerWithoutCo` | middleware.c:149-153 | text with no 'c' directly followed by 'o' holds no marker, so strstr finds nothing |
| `BodyExtractor.ExampleHeadIsClear` | middleware.c:145 | the text before the field in a minimal provider body holds no marker |
| `BodyExtractor.RegularExampleBody` | middleware.c:154-159 | the body `{"situacao":{"codigo":"0"}}` gives 200 |
| `BodyExtractor.IrregularExampleBody` | middleware.c:156-157 | the body `{"situacao":{"codigo":"1"}}` gives 403 |
| `BodyExtractor.MissingFieldExampleBody` | middleware.c:150-153 | a body without the field gives 500 |
| `Accumulator.AppendChunk` | middleware.c:177-184 | the rule for one chunk: the result is the stored text with the whole chunk appended when the sum of lengths is below 1024, and unchanged otherwise, so it always extends the stored text, and it stays below 1024 when the stored text does |
| `Accumulator.AppendAfterDrop` | middleware.c:177-184 | after a chunk is dropped for not fitting, a later chunk that fits is still appended directly after the earlier text |
| `Accumulator.Accumulate` | middleware.c:173-186 | the text stored after any sequence of chunks, starting empty, stays below 1024 characters |
| `Accumulator.AccumulateExtends` | middleware.c:177-184 | text stored after the first n chunks is a prefix of the text stored after all of them: a dropped chunk never corrupts earlier content |
| `Accumulator.AccumulateWhenAllFit` | middleware.c:177-181 | when all chunks together stay below the capacity, nothing is dropped and the text is their concatenation |
| `Accumulator.AccumulateNulFree` | middleware.c:179-180 | chunks without NUL give stored text without NUL, so `strlen` measures it exactly |
| `Accumulator.ResponseBuffer.Contents` | middleware.c:176 | the stored text, read as the buffer's C string, is shorter than 1024 |
| `Accumulator.ResponseBuffer.constructor` | middleware.c:252 | the buffer has 1024 characters and starts empty |
| `Accumulator.ResponseBuffer.WriteCallback` | middleware.c:171-187 | returns size*nmemb; the stored text becomes the old text plus the chunk when their lengths sum below 1024 and stays as it was otherwise; the terminator stays inside the buffer |
| `Middleware.CompleteUrl` | middleware.c:258-262 | the URL is the endpoint followed by the treated CPF, and with its terminator it fits the 1024-character URL buffer |
| `Middleware.SetupSucceeds` | middleware.c:210-266 | the five steps whose failure returns 500 all succeed: global init unless already done, easy init unless a handle exists, and the WRITEFUNCTION, WRITEDATA and URL options; once both inits are done only the three options matter |
| `Middleware.RequestedUrl` | middleware.c:258-281 | a request is made exactly when treatment and setup succeed, and it goes to the endpoint plus the treated digits, within the URL bound |
| `Middleware.Validate` | middleware.c:197-300 | the result is always one of the four local codes; 400 whenever treatment fails; 500 whenever treatment succeeds but a setup step that aborts the call fails or the status cannot be read back |
| `Middleware.TransportFailureGives500` | middleware.c:210-292 | after a good treatment, a failed global init, failed handle creation, failed WRITEFUNCTION, WRITEDATA or URL option, or a failed `curl_easy_getinfo` gives 500 |
| `Middleware.InvalidCpfShortCircuits` | middleware.c:199-203 | an empty, oversize or digitless CPF gives 400 with no request made, whatever the transport would do |
| `Middleware.StatusDecidesBeforeBody` | middleware.c:294-299 | a mapped status other than 200 is returned whatever the body holds; a mapped 200 returns the body's verdict on the accumulated chunks |
| `Middleware.InitialisedStateIgnoresInitFailures` | middleware.c:209-228 | once global init and the handle exist, init results are never consulted again |
| `Middleware.PerformResultIgnored` | middleware.c:280-292 | flipping the request's own result changes neither the code nor the request made |
| `Middleware.RemoteStatusScenarios` | middleware.c:294-296 | a remote 404 gives 403 and a remote 401 gives 500 |
| `Middleware.RegularCpfScenario` | middleware.c:197-300 | "404.442.820-13" with status 200 and a provider body with flag '0' gives 200, after a request to the endpoint plus "40444282013" |
| `Middleware.DeliverBody` | middleware.c:247-281 | feeding the chunks one by one to the write callback of an empty buffer leaves it holding `Accumulate` of them |
| `Middleware.CpfValidator.constructor` | middleware.c:209-219 | the process starts with no global init, no handle and no request |
| `Middleware.CpfValidator.ValidateCpf` | middleware.c:197-300 | returns `Validate` of the input and the prior state; the global flag and handle become set exactly when their init runs and succeeds; the request log grows by exactly the URL `RequestedUrl` gives |

## Left out

- libcurl itself (middleware.c:211, 221, 227, 232-256, 263, 270-292): it is a foreign library. The `Transport` value stands for the results of its calls.
- Concurrency on the static `global` flag and handle (middleware.c:209-228): the model is a single sequential object. Resetting an existing handle has no effect in the model.
- Logging (middleware.c:58-64): it has no effect on results.
- Accumulator.ResponseBuffer.constructor: the C buffer `curlOutput` (middleware.c:252) is never initialised before `strlen` reads it. The model starts it empty, which is what the code needs to work.
- Accumulator.ResponseBuffer.WriteCallback: does not model the `int` overflow of `size * nmemb` (middleware.c:173), the NULL `ptr`/`userdata` checks (middleware.c:174), or chunks holding NUL characters. Chunks are required NUL-free, because `strlen` would measure the stored text wrongly after one.
- The bearer token and the header it builds (middleware.c:35-41, 270-276): they are configuration that never affects the result. The base URL is modelled as a fixed prefix.
- A NULL `cpf` (middleware.c:76): `strlen(NULL)` is undefined behaviour, so the model always takes a string.
- Integer width of `int len = strlen(cpf)` (middleware.c:76): lengths are unbounded.
