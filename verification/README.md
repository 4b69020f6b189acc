# Memory-augmented chat turn and Crossref record projection

This project models the pure logic of two Python scripts, `membot.py` and `app.py`.

`membot.py` is a console chat with Gemini, backed by a mem0 memory store. One
iteration of its `main` loop does six things:

- it reads and strips a line, and stops on `exit` in any letter case;
- it appends the line to the history as a `user` entry;
- `chat_with_memories` searches mem0 with the text of the last entry, limit 5;
- it builds a system instruction from the fixed persona plus a bulleted list of the memories found;
- it asks Gemini for a reply on the whole history and appends that reply as a `model` entry;
- it hands the whole history, converted by `to_mem0_messages`, back to mem0 for write-back.

The model is functional. The Gemini reply and the mem0 search results are
inputs. The calls the code makes (search, generate, add) become records of
their arguments. The loop becomes a step function plus a method that runs
it over a sequence of supplied input lines.

`app.py`'s `crossref_search_json` turns a Crossref `/works` response into a
list of "essential" records. When anything raises, it returns
`{"error": str(e)}` instead. The model takes the HTTP status and the decoded
JSON body as inputs. Every Python failure path is an explicit error value
carrying the exception class and CPython 3's message. This covers
`.get` on a non-dict, `[0]` on an empty or unsubscriptable value, and a
non-iterable `items`.

Modules:

- `Wrappers` (wrappers.dfy): Option/Result.
- `Py` (py.dfy): Python string semantics used by the scripts, plus two readers for the round-trip lemmas.
  - used by the scripts: `str.isspace`/`strip`, `lower`, `join`, `str(int)`, exception values
  - readers the scripts do not use: `Split` (splitting at a character) and `ParseInt` (reading an integer)
- `History` (history.dfy): Gemini history entries, mem0 messages, `to_mem0_messages` and its inverse.
- `Prompt` (prompt.dfy): the system instruction and a reader that recovers the memories from it.
- `Chat` (chat.dfy): `chat_with_memories`.
- `Driver` (driver.dfy): the `main` loop, as one step and as a whole session.
- `Json` (json.dfy): decoded JSON values plus Python's `dict.get` and `v[0]` on them.
- `Crossref` (crossref.dfy): `crossref_search_json` after the HTTP request, including `for item in items` over any JSON value (`Crossref.Iterate`).

## Model

| member | source | states |
|---|---|---|
| History.ToMem0Messages | membot.py:30-40 | the conversion succeeds exactly when every entry has a first part (otherwise `["parts"][0]` raises); the output has the history's length and message i comes from entry i: its mapped role and the text of its first part only |
| History.MemoryRole | membot.py:36-39 | the role is "user" exactly for "user"; every other role, "model" included, becomes "assistant" |
| History.ToMem0Append | membot.py:30-40 | converting a concatenation is the concatenation of the conversions, so earlier messages never change as the history grows |
| History.HistoryRoundTrip | membot.py:30-40 | history to mem0 and back is the identity on entries with role user/model and one part |
| History.MessagesRoundTrip | membot.py:30-40 | mem0 to history and back is the identity on messages with role user/assistant |
| Prompt.SystemInstruction | membot.py:47-50 | the instruction starts with the persona followed by "\n\nUser Memories:\n"; it is exactly that header when no memory was found. Otherwise, when no memory contains a line break, the text after the header splits at "\n" into exactly one "- "-prefixed line per memory, in rank order |
| Prompt.InstructionGrows | membot.py:47-50 | for every list of memories, multi-line ones included: one memory gives the persona, the header, "- " and the memory; each further memory appends "\n- " and that memory, so the instruction is fixed for every list |
| Py.JoinSnoc | membot.py:47 | joining one more piece appends the separator and then the piece |
| Prompt.InstructionRoundTrip | membot.py:47-50 | the memories can be read back from the instruction, in order and complete, by splitting the text after the header into lines and dropping each line's required "- " (when no memory contains a line break) |
| Prompt.UnbulletedLineRejected | membot.py:47 | a memory line without its "- " bullet is not something the instruction can contain: the reader rejects it |
| Chat.ChatWithMemories | membot.py:42-69 | it returns exactly when the history is non-empty and every entry has a part (otherwise IndexError). The search uses the last entry's first text, the caller's user id and limit 5. Generation sees the whole incoming history under the augmented instruction. Exactly one model entry is appended and all earlier entries are kept. Write-back goes to the same user id and is the mem0 form of the whole updated history, ending in an assistant message with the generated text. On failure it states the list as the exception leaves it, and which calls were already issued: none when the query cannot be read, the search and the generation when the write-back conversion raises |
| Chat.AppendModelTurn | membot.py:59-67 | appending the model entry keeps the history convertible exactly when it was, and adds one trailing assistant message |
| Driver.ExitSpellings | membot.py:76-79 | the loop stops exactly when the stripped line is the four letters e, x, i, t, each in either case |
| Driver.ExitIgnoresPadding | membot.py:76-77 | surrounding whitespace never changes whether a line is "exit" |
| Driver.Step | membot.py:75-83 | it quits exactly on an exit line. Any other line, even an empty one, always reaches the chat turn, which returns on a well-formed history. The history then grows by the stripped line and the generated text, two entries. Search and write-back use "default_user", and the reply shown is "Gemini: " plus the generated text. A crash happens only after the search for the stripped line was issued |
| Driver.Transcript | membot.py:81-82 | after k completed iterations the history has exactly 2k entries |
| Driver.TranscriptEntries | membot.py:81-82 | in the driver's history, entry 2k is the k-th stripped line as a user entry and entry 2k+1 the k-th generated text as a model entry |
| Driver.TranscriptWellFormed | membot.py:81-82 | every entry the driver writes has a first part |
| Driver.StepContinues | membot.py:81-82 | on a history the driver built, a non-exit line never makes `chat_with_memories` raise |
| Driver.StepExtends | membot.py:75-83 | on the history built from the first k lines, a non-exit line k completes one iteration. The history becomes the transcript of the first k+1 lines, and the iteration's search, generation request, write-back and reply are exactly the expected record for line k |
| Driver.ExpectedWriteBack | membot.py:66-67 | write-back k receives the mem0 form of the whole history so far. That is 2k+2 messages, ending with line k as a user message and generated text k as an assistant message |
| Driver.Converse | membot.py:71-83 | starting from an empty history, the session stops at the first exit line (history unchanged by it) or when the lines run out, and no earlier line was exit. The history is the transcript of the processed lines, two entries per iteration. Record k holds a search with line k for "default_user" with limit 5, and a generation on the history up to that line under the instruction built from memories k. It also holds a write-back of the history up to reply k and the reply line "Gemini: " plus generated text k |
| Py.Strip | membot.py:76 | `strip()` yields the infix of the line that starts after the leading whitespace; everything outside it is whitespace and it neither starts nor ends with whitespace |
| Py.StripStripped | membot.py:76 | stripping a string without surrounding whitespace changes nothing |
| Py.StripIdempotent | membot.py:76 | stripping twice is stripping once |
| Py.Lower | membot.py:77 | `lower()` keeps the length and folds each character independently |
| Py.IntToStringRoundTrip | app.py:40 | `str(status)` reads back as the same integer |
| Json.Get | app.py:43 | `.get(key, default)` fails with AttributeError exactly on a non-dict, and otherwise gives the key's value or the default |
| Json.First | app.py:49-53 | `[0]` gives the first element of a non-empty list, or the first character of a non-empty string, and succeeds on nothing else. An empty list raises "list index out of range", an empty string IndexError, a dict KeyError "0" and null/bool/number TypeError |
| Crossref.StatusMessageRoundTrip | app.py:39-40 | the status error message names exactly the status that caused it |
| Crossref.ProjectItem | app.py:47-55 | a non-dict item raises AttributeError. A dict item projects exactly when its title and its publication date do, and a bad title is reported before a bad date. DOI, publisher, type and URL are copied, null when absent |
| Crossref.TitleRule | app.py:49 | the title is the first element of the "title" list, "Untitled" when the key is absent. An empty list raises IndexError and a null title raises TypeError |
| Crossref.PublishedRule | app.py:52-53 | the date is the first element of "published-print"."date-parts", or `[None]` when either key is absent. A "published-print" that is not a dict raises AttributeError |
| Crossref.ProjectItems | app.py:45-57 | the loop succeeds exactly when every item projects, and then yields one record per item in item order |
| Crossref.FirstBadItemReported | app.py:45-60 | when items fail, the error is that of the first failing item |
| Crossref.Iterate | app.py:46 | iterating a list gives its elements and a string gives the one-character string of each character, in order. An empty dict gives nothing, and a non-empty dict fails with the AttributeError of its first (string) key. Null, booleans and numbers are not iterable (TypeError) |
| Crossref.Essentials | app.py:43-57 | a body that is not a dict raises AttributeError, and so does a "message" that is not a dict. A missing "message" or "items" gives no records. Otherwise the result is the iteration's error or the item loop over what it yields |
| Crossref.Render | app.py:47-55 | each record is a dict with exactly the keys doi, title, publisher, type, published, url, holding the record's DOI, title, publisher, type, date and URL respectively |
| Crossref.CrossrefSearchJson | app.py:34-60 | a status other than 200 gives `{"error": "Crossref returned status <code>"}`. With status 200 the answer is a list exactly when the projection succeeds, and otherwise the error value of the exception that ended it |
| Crossref.MissingKeysGiveNoRecords | app.py:43 | a body without "message", or a message without "items", gives an empty list, not an error |
| Crossref.OneRecordPerItem | app.py:45-57 | when every item projects, the answer has one rendered record per item, in item order |
| Crossref.RecordCopiesItem | app.py:46-57 | record i of the answer holds item i's "DOI", "publisher", "type" and "URL" under "doi", "publisher", "type" and "url" (None when absent), and the title and date by their rules |
| Crossref.BadItemGivesError | app.py:45-60 | one item that raises turns the whole answer into that item's error value, discarding the records of the items before it |
| Crossref.StatusErrorNamesStatus | app.py:39-40 | on a bad status the answer is a one-key `error` object from which the status can be read back |

## Left out

- The Gemini `generate_content` call and the mem0 `search`/`add` calls are not modelled as behaviour.
  - The reply text and the search results are inputs.
  - The arguments of each call are recorded in `SearchCall`, `GenerateCall` and `AddCall`.
  - What mem0 stores, and how a write-back influences later searches, is not modelled.
- The shape of mem0's search answer (`relevant["results"]`, `m['memory']`) is not modelled. The memories arrive as strings, so a malformed search answer, which would raise KeyError, is outside the model.
- `response.text` is modelled as a string. The SDK can return None when the reply has no text part, and that case is not modelled.
- Client construction, the mem0 configuration dictionary and environment loading (membot.py:6-26) are left out: they are SDK setup.
- Only the reply lines of the driver's output are modelled. The banner, the `You: ` prompt written by `input()` and `Goodbye!` are fixed text with no logic.
- End of input is not a graceful stop. `Converse` ends with `InputExhausted` at the point where `input()` would raise EOFError and end the program.
- The code has no error handling, and the model follows the code. It does not model behaviour the code lacks:
  - an empty or whitespace-only line is appended as a user entry (no rejection);
  - a failing search, generation or write-back is not recovered from;
  - such failures are not modelled, because they happen inside the external calls.
- Py.Lower: folds only A-Z, where Python's `lower()` folds all of Unicode. This does not change the comparison with "exit". Of the characters outside A-Z, only KELVIN SIGN lowercases to a single ASCII letter, and that letter is "k". U+0130 lowercases to two characters.
- `requests.get`, the URL built from the query and the timeout (app.py:36-37) are left out. Exceptions raised by the request itself are left out too.
- Undecodable bodies are left out: `r.json()` raising on a body that is not JSON is not modelled, because the body arrives already decoded.
- Crossref.Iterate: a non-empty dict under "items" is reported as the AttributeError its first key would raise, without enumerating the keys, because a JSON object is modelled as an unordered map. For the same reason the record dict's key order is not represented.
- JSON numbers are kept as their literal text. They are only ever copied, so no floating-point value is interpreted. `TypeName` follows Python's int/float split on that text.
- The DSPy signature, configuration and ReAct agent (app.py:65-86) are left out, as are the FastAPI routes and templates (app.py:91-111) and the `Agent` class (app.py:17-22). `agent` is rebound to the DSPy program before any route runs, so `Agent` is never reached.
- memzep.py and memletta.py are left out: they are one-shot SDK provisioning scripts with no internal logic.
