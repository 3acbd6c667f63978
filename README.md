# Upload and chat endpoints, modelled in Dafny

The service has two HTTP endpoints behind a function-as-a-service adapter.

- `POST /file/upload` checks the filename's extension and the payload size. It
  derives a storage key `owner/sanitized-filename` and probes the object store
  for that key. It then writes the payload and, as a second independent write,
  a JSON metadata sidecar at `key.metadata.json`.
- `POST /project/chat` validates that at most five messages were sent. It calls
  a chat-completion API once, with a fixed system persona and one tool
  (`consultar_informacao`). When the reply asks for the tool, it calls a
  retrieval API once, with a fixed query, and returns that raw answer.

`src/file_upload.py` repeats `sanitize_filename` and `upload_file` of
`src/main.py` line for line (the lines are shifted by four). Both are modelled
once. The rows below cite the two files in turn.

The project has three modules:

- `Sanitizer` (sanitizer.dfy): the filename sanitiser. Transliteration is a
  per-character table, given as a parameter. Then comes a map (space to
  underscore) and a filter (keep `[a-zA-Z0-9_.]`) over `seq<char>`.
- `Upload` (upload.dfy): the store is a class `ObjectStore`. Its field
  `objects: map<string, StoredObject>` is what the handler mutates.
  `UploadFile` is the handler, a method with early exits. It is proved equal to
  the pure function `UploadSpec`, and the properties are lemmas about
  `UploadSpec`. How each store call behaves is an input of type `Faults`:
  - whether `head_object` raises a `ClientError`, raises another exception, or
    answers according to the key's presence;
  - whether each of the two `upload_fileobj` calls raises.
- `Chat` (chat.dfy): the validator and the handler, as pure functions. The two
  APIs are function parameters. The result is the ordered list of external
  calls made together with the response, so "no call", "exactly one retrieval"
  and "no second completion" can be stated.

Behaviour that follows the code rather than the endpoint's declared contract:

- A duplicate key is declared to give 409. In the code, the `HTTPException(409)`
  raised after a successful `head_object` (src/main.py:68) is not a
  `ClientError`. The outer `except Exception` (src/main.py:75) catches it and
  raises a 500 whose detail is "Failed to upload file to S3: " followed by
  `str()` of the 409 exception. The model gives `UploadFailed(Conflict)`, with
  status 500, and writes nothing. The text of `str()` is taken to be
  "409: <detail>", which is how Starlette's `HTTPException` renders itself.
  Starlette is not part of this model.
- Only "not found" is declared to let the write go ahead. The code lets every
  `ClientError` of the probe go ahead (src/main.py:72), for example a 403, and
  the payload then overwrites whatever the key holds. A probe exception that
  is not a `ClientError` reaches the outer handler and gives a 500 with no
  write.
- A failed primary write raises inside the `except ClientError` block. The
  outer handler therefore reports it as "Failed to upload file to S3: …"
  (500).
- The tool schema sent to the completion API declares the parameter `query`.
  Its `"required": ["query"]` entry sits beside `"parameters"`
  (src/main.py:134-143) rather than inside it, so the parameter is declared but
  not marked required. The arguments of the tool call are never read: the
  retrieval is the same whatever they are.

## Model

| member | source | states |
|---|---|---|
| `Sanitizer.Unidecode` | src/main.py:29 | transliteration keeps an all-ASCII string unchanged |
| `Sanitizer.UnidecodeIsAscii` | src/file_upload.py:25 | with a table that yields ASCII, the transliterated filename is ASCII |
| `Sanitizer.ReplaceSpaces` | src/main.py:31 | `replace(' ', '_')` keeps the length, turns every space into `_` and keeps every other character in place |
| `Sanitizer.ReplaceSpacesCounts` | src/file_upload.py:27 | after the replacement there are no spaces, and the number of underscores is the old underscores plus the old spaces |
| `Sanitizer.KeepAllowed` | src/main.py:31 | the regex removal keeps only `[a-zA-Z0-9_.]`, keeps each allowed character with its multiplicity, and never lengthens the string |
| `Sanitizer.KeepAllowedConcat` | src/file_upload.py:27 | the removal distributes over concatenation, so the kept characters keep their order |
| `Sanitizer.KeepAllowedFixes` | src/main.py:31 | a string of allowed characters is left unchanged by the removal |
| `Sanitizer.Sanitize` | src/file_upload.py:27 | the post-transliteration result has only `[a-zA-Z0-9_.]`, is ASCII, has no space, and is no longer than the transliterated input |
| `Sanitizer.SanitizeFilename` | src/main.py:28-32 | `sanitize_filename` yields only `[a-zA-Z0-9_.]` and no space, and is no longer than the transliteration |
| `Sanitizer.SanitizeChar` | src/file_upload.py:25-27 | one character at a time: a space becomes `_`, an allowed character stays, any other vanishes (the map comes before the filter) |
| `Sanitizer.SanitizeConcat` | src/main.py:29-31 | sanitising distributes over concatenation; with `SanitizeChar` this fixes the result for every input |
| `Sanitizer.SanitizeUnderscores` | src/main.py:29-31 | the output's underscores are exactly the input's underscores and spaces, so spaces are replaced before stripping |
| `Sanitizer.SanitizeIdempotent` | src/file_upload.py:27 | sanitising a sanitised string changes nothing |
| `Sanitizer.SanitizeFilenameIdempotent` | src/main.py:31 | `sanitize_filename(sanitize_filename(s)) == sanitize_filename(s)` for every table and every name |
| `Sanitizer.SanitizeKeepsSuffix` | src/main.py:58 | a suffix of allowed characters, such as `.csv`, comes through sanitising unchanged at the end |
| `Sanitizer.UnidecodeTwoReplaced` | src/file_upload.py:25 | transliteration replaces the non-ASCII characters and keeps the ASCII runs between them in place |
| `Sanitizer.UnidecodeExample` | src/main.py:29 | "relatório março.csv" is transliterated to "relatorio marco.csv" |
| `Sanitizer.SanitizeExample` | src/main.py:31 | "relatorio marco.csv" is sanitised to "relatorio_marco.csv" |
| `Sanitizer.SanitizeFilenameExample` | src/file_upload.py:24-28 | the whole sanitiser maps "relatório março.csv" to "relatorio_marco.csv" |
| `Upload.Response.Status` | src/main.py:40-98 | 200 means success, 400 the extension check, 413 the size check, and 500 any failure after the two checks, the conflict included |
| `Upload.Response.Text` | src/main.py:68-94 | a failure's detail starts with "Failed to upload file to S3: " or "Failed to upload metadata to S3: " and then carries the exception's text, which is "409: " and the conflict detail for a duplicate |
| `Upload.Head` | src/main.py:67-72 | the probe returns only for a present key with an answering probe; it raises a `ClientError` for an absent key or a client fault, and otherwise raises the fault's exception |
| `Upload.HasAllowedExtension` | src/main.py:38 | the raw filename passes exactly when its last four characters are ".csv" or ".pdf" |
| `Upload.ObjectKey` | src/main.py:58-60 | the key is the owner, unsanitised, then "/", then only `[a-zA-Z0-9_.]` with no further "/", and it is no longer than owner, "/" and the transliterated name |
| `Upload.KeyExample` | src/main.py:58-60 | owner "acme" and name "relatório março.csv" give the key "acme/relatorio_marco.csv" |
| `Upload.UploadSpec` | src/main.py:35-99 | 400 exactly when the extension fails, 413 exactly when it passes and the payload is too large, the conflict exactly when an admissible request meets an answering probe of a present key, and the store changes only after admissible checks, a `ClientError` probe and a successful primary write |
| `Upload.RejectsExtension` | src/main.py:38-42 | a name not ending in ".csv" or ".pdf" gets 400 whatever the payload, and the store is unchanged |
| `Upload.ExtensionIsCaseSensitive` | src/file_upload.py:34 | "report.CSV" fails the extension check |
| `Upload.SizeCeiling` | src/main.py:52-56 | 413 comes exactly when the extension passes and the payload exceeds 2 097 152 bytes, and then the store is unchanged |
| `Upload.SizeBoundary` | src/file_upload.py:48-52 | 2 097 152 bytes pass the size check; 2 097 153 bytes give 413 and leave the store unchanged |
| `Upload.DuplicateFails` | src/main.py:60-79 | an existing key with an answering probe gives a 500 carrying the conflict detail, and the store is unchanged (no payload, no sidecar) |
| `Upload.ClientErrorMeansAbsent` | src/file_upload.py:68-70 | a `ClientError` from the probe lets the primary write proceed, even over an existing object |
| `Upload.SuccessWritesTwoKeys` | src/main.py:60-98 | 200 comes exactly when the checks pass, the probe raises a `ClientError` and both writes succeed; the store then gains exactly `key ↦ payload` and `key.metadata.json ↦ sidecar(owner)` |
| `Upload.SidecarFailureKeepsPayload` | src/file_upload.py:84-90 | a failed sidecar write gives 500 and leaves the payload stored at the key |
| `Upload.NothingElseChanges` | src/main.py:58-94 | for every store and request, every key other than the key and its sidecar key keeps its object, no object is removed, and no other key is added |
| `Upload.EarlyErrorsWriteNothing` | src/file_upload.py:34-75 | 400, 413 and every failure up to and including the primary write leave the store as it was |
| `Upload.SecondUploadConflicts` | src/file_upload.py:56-75 | after a successful upload, the same owner and filename again fail with the conflict and the store still holds the first payload |
| `Upload.KeyHasExtension` | src/file_upload.py:54-56 | the storage key ends in the extension that the raw filename was checked for |
| `Upload.PutBlobKeepsWellFormed` | src/main.py:74 | writing a payload at a ".csv"/".pdf" key keeps every sidecar next to a payload |
| `Upload.PutSidecarKeepsWellFormed` | src/main.py:89 | writing the sidecar next to a stored payload keeps the store well formed |
| `Upload.UploadKeepsWellFormed` | src/main.py:58-94 | every outcome of an upload, failed or not, keeps the store well formed: a sidecar is never present without its payload |
| `Upload.ObjectStore.HeadObject` | src/main.py:67 | the probe reports Found only for a present key with an answering probe, and `ClientError` for an absent key or a client fault |
| `Upload.ObjectStore.UploadFileobj` | src/file_upload.py:70 | a write stores the object at the key unless it raises, and then it changes nothing |
| `Upload.ObjectStore.UploadFile` | src/main.py:35-99 | the handler's response and the new store are those of `UploadSpec`, and a well-formed store stays well formed |
| `Chat.CheckMaxMessages` | src/main.py:109-114 | a list is accepted exactly when it has at most 5 messages, and it is then returned unchanged |
| `Chat.CompletionFor` | src/main.py:121-147 | the completion request is the persona followed by the caller's messages in order, with model "gpt-3.5-turbo-0125", temperature 0 and the one tool `consultar_informacao(query)` |
| `Chat.Chat` | src/main.py:117-178 | a rejected body makes no call; an accepted one makes first the completion call and then at most one call, which is the fixed retrieval |
| `Chat.TooManyMessagesRejected` | src/main.py:110-114 | six or more messages are refused with a validation error (422) before any external call |
| `Chat.AtMostFiveAccepted` | src/main.py:110-127 | five or fewer messages pass, and the completion request, with its model, temperature and tool, carries them one for one and in order after the persona |
| `Chat.DirectAnswer` | src/main.py:149-150 | a reply without tool calls is returned verbatim after exactly one external call |
| `Chat.ToolCallRetrieves` | src/main.py:157-178 | a reply with a tool call leads to exactly one retrieval and no second completion, and the retrieval's answer is returned as it is |
| `Chat.RetrievalIsConstant` | src/main.py:159-176 | the retrieval query (`FixedRetrieval`) is always "pizzaplanet", one result, semantic search, filter `owner == "teste"` |
| `Chat.RetrievalIgnoresArguments` | src/main.py:154-176 | any two requests that reach the retrieval send the same retrieval and get the same response, whatever the conversation and the tool call's arguments |
| `Chat.OneCompletionCall` | src/main.py:121-147 | an accepted request calls the completion API exactly once, and a refused one never calls it |

## Left out

- `unidecode`'s tables: a foreign library. Transliteration is a parameter `Table` from each non-ASCII character to its replacement. ASCII characters pass through unchanged, as in the library. Nothing is assumed about the table's entries unless a lemma says so.
- The exact bytes of `json.dumps(metadata, indent=4)`: the sidecar is the value `MetadataJson(owner)`, which is what determines those bytes.
- boto3 and S3: the bucket, the credentials and the network are left out. The store is a map, and the outcome of each store call is an input.
- The OpenAI and Bedrock clients: network I/O. They are function parameters. The text of the system persona and the empty knowledge-base id are hard-coded literals and are not modelled.
- FastAPI, pydantic and Mangum plumbing: routing, multipart parsing, the asynchronous `read`/`seek`, and the rendering of `JSONResponse`. The 422 for a refused chat body is FastAPI's default answer to a pydantic validation error.
- A missing filename in the multipart form: it is refused by the framework before the handler runs.
- `Upload.ObjectStore.UploadFileobj`: a write that raises is taken to have stored nothing. A write that stores the object and then raises, such as a client-side timeout after the upload completed, is not modelled.
- The race between the existence probe and the write: concurrency, out of scope.
- app.py (the deployment stack) and src/main copy.py (an earlier draft that does not run) are not part of this model.
