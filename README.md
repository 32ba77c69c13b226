# SearchShell in Dafny

SearchShell answers a question from web context. A web search is run for the
query. The result pages are fetched and cut down to plain text. That text becomes
a context document of one block per result. The document is sent, with the
question, to a language model: Google's Gemini endpoint in one variant, a local
Ollama model in the other. Both variants come with an interactive shell. Its
`search` command reads flags off the command line for that one search. Its
`config` command changes the shell's settings until the next search.

This project models that core and proves properties of the model.

- `text.dfy` (`PyText`): the Python string operations the code relies on:
  `str.strip` with Python's full whitespace set, `split` on one character, `join`,
  slicing `s[:n]`, base-10 `int()`, `str(n)`, and `lower() == 'true'`.
- `json.dfy` (`Json`): decoded JSON values and what Python's `v[k]` does on them,
  including the `KeyError` / `IndexError` / `TypeError` cases and their messages.
- `extract.dfy` (`ContentExtractor`): `extract_content` after the page is parsed:
  - the region choice (`main`, then `article`, then a content `div`, then the whole
    document);
  - the line clean-up;
  - the 2000-character cut;
  - the empty result on any failure.
- `context_format.dfy` (`ContextFormat`): the block layout both wrappers share, the
  advisory text, and the prompt opening. `DecodeBlock` reads a block back; it is the
  inverse the block layout is proved against.
- `gemini_wrapper.dfy` (`GeminiWebWrapper`): `search_web`, `_get_page_title`,
  `generate_context` and `query_gemini`, with the exact prompt, the request body
  and the walk through the response.
- `ollama_wrapper.dfy` (`OllamaWebWrapper`): a `WebWrapper` class holding the model
  name, plus `search_web`, `generate_context` (which skips records without a URL)
  and `query_ollama`. The wrapper in `ollama-web-wrapper.py` is the same code as the
  one in `ollama_web_shell.py`, and one module models both.
- `commands.dfy` (`ShellCommands`): the `do_search` token loop as a function (`ScanFrom`),
  an independent reading of the same command line into flags and words (`Lex`, then
  `Apply`) proved equal to it, what `do_search` decides before any backend is
  called, and `do_config`.
- `gemini_shell.dfy` / `ollama_shell.dfy`: the two `SearchShell` classes. Their
  fields are updated in place by a `while` loop over the tokens and reset in the
  `finally` clause.

The network, HTML parsing and `shlex` are parameters. The search backend, the page
fetch, the title fetch, the Gemini POST and `ollama.chat` are function-typed
arguments. Each one returns either a failure or the value the code goes on to use.
`shlex.split(arg)` is passed in as its result, with `None` standing for the
`ValueError`.

Some behaviours of the code that a reader might not expect:

- **A failed fetch does not lead to the advisory.** A failed fetch still gives a
  block (Source, URL and, for Ollama, Summary lines). So the context is blank only
  when there is no block at all (`GeminiContextBlank`, `OllamaContextBlank`).
- **The Summary line is not optional.** The Ollama wrapper always writes it, even
  when the snippet is empty. The Gemini wrapper never writes one.
- **Only `search` resets the settings.** A setting changed by `config` stays until
  the next search, and that search uses it (`ConfigResultsThenSearch`).
- **The title fallback is the stripped URL.** When a page has no `<title>`, the
  title is the URL stripped. When the tag exists but holds no single string, the
  code returns the URL as it was, because stripping `None` raises.

## Model

| member | source | states |
|---|---|---|
| `PyText.Strip` | SearchShellGemini.py:180 | `line.strip()`: the result is empty exactly when the line is all whitespace; otherwise it starts and ends with non-whitespace |
| `PyText.StripInfix` | SearchShellGemini.py:180 | the stripped text is the part of the line between its leading and its trailing whitespace |
| `PyText.StripIdempotent` | SearchShellGemini.py:180 | stripping a stripped line changes nothing |
| `PyText.Split` | SearchShellGemini.py:180 | `text.split('\n')`: one more piece than there are newlines, and no piece holds a newline |
| `PyText.JoinSplit` | SearchShellGemini.py:180-181 | joining the pieces of a split with the same separator gives the text back |
| `PyText.SplitJoin` | SearchShellGemini.py:180-181 | splitting pieces joined by a separator they do not contain gives the pieces back |
| `PyText.JoinEmpty` | SearchShellGemini.py:51-52 | `' '.join(query_parts)` is empty exactly when there is at most one part and every part is empty |
| `PyText.Take` | SearchShellGemini.py:183 | `s[:n]` is a prefix of `s` of length `min(n, len(s))` |
| `PyText.ParseInt` | SearchShellGemini.py:41 | `int()` refuses a blank string, and any string holding one of the information separators U+001C to U+001F, which `int()` does not skip as whitespace |
| `PyText.IntRoundTrip` | SearchShellGemini.py:87 | `int(str(n)) == n` for every integer (the model has no 4300-digit limit) |
| `Json.Subscript` | SearchShellGemini.py:266 | `v[k]` finds a value exactly for a present key of a dict or an in-range index of a list or string; it is a `TypeError` exactly for a string key on a list or string, or for any key on None, a bool or a number |
| `Json.WalkAppend` | SearchShellGemini.py:266 | walking a path is walking its first part and then the rest |
| `Json.WalkNest` | SearchShellGemini.py:266 | the walk finds the value placed at the end of the same path |
| `ContentExtractor.FirstPresent` | SearchShellGemini.py:174-178 | `a or b or c`: the first present candidate, else the fallback |
| `ContentExtractor.RegionOrder` | SearchShellGemini.py:174-178 | the text comes from `main`, else `article`, else the content `div`, else the whole document |
| `ContentExtractor.CleanLines` | SearchShellGemini.py:180 | every kept line is non-empty and already stripped, and there are no more lines than before |
| `ContentExtractor.CleanLinesEmpty` | SearchShellGemini.py:180 | no line is kept exactly when every line is blank |
| `ContentExtractor.NormalisedLines` | SearchShellGemini.py:180-181 | the lines of the cleaned text are exactly the kept lines |
| `ContentExtractor.NormaliseIdempotent` | SearchShellGemini.py:180-181 | cleaning cleaned text changes nothing |
| `ContentExtractor.NormaliseEmpty` | SearchShellGemini.py:180-181 | the cleaned text is empty exactly when every line is blank |
| `ContentExtractor.ExtractContent` | SearchShellGemini.py:160-186 | at most 2000 characters; empty on any failure; otherwise a prefix of the cleaned region text, all of it when that fits, and exactly 2000 characters when it does not |
| `ContextFormat.DecodeBlockRoundTrip` | SearchShellGemini.py:200-214 | when no header value holds a newline, a block reads back as exactly its header values and its content, and has a content section exactly when the content is non-empty |
| `GeminiWebWrapper.PageTitle` | SearchShellGemini.py:145-158 | the stripped title; the stripped URL without a title tag; the raw URL on any failure or when the tag holds no single string |
| `GeminiWebWrapper.SearchWeb` | SearchShellGemini.py:130-143 | the loop builds exactly the records `Hits` describes, and drops them all when the search raises |
| `GeminiWebWrapper.HitsFields` | SearchShellGemini.py:130-143 | one record per URL, in order, with that URL, its page title and an empty body; no records at all when the search raises |
| `GeminiWebWrapper.GenerateContext` | SearchShellGemini.py:188-218 | the context is one block per record, in order, joined by newlines |
| `GeminiWebWrapper.GeminiBlocksRead` | SearchShellGemini.py:193-214 | as many blocks as records; when no title or URL holds a newline, each block reads back as its record's title, URL and extracted content |
| `GeminiWebWrapper.JoinStartsWithFirst` | SearchShellGemini.py:218 | the joined context starts with the first block |
| `GeminiWebWrapper.GeminiContextBlank` | SearchShellGemini.py:188-218 | the context is blank exactly when there are no records |
| `GeminiWebWrapper.QueryGeminiBlank` | SearchShellGemini.py:223-224 | a blank context gives the advisory, and the endpoint's behaviour makes no difference |
| `GeminiWebWrapper.RequestCarriesPrompt` | SearchShellGemini.py:226-252 | the request holds the prompt at `contents[0].parts[0].text`, and the prompt starts with the context and then the question |
| `GeminiWebWrapper.QueryGeminiAnswer` | SearchShellGemini.py:265-266 | any response with text at `candidates[0].content.parts[0].text` yields that text, whatever else it holds |
| `GeminiWebWrapper.QueryGeminiErrors` | SearchShellGemini.py:261-273 | a transport failure, a missing key or index, and a type error each give text under their own prefix |
| `GeminiWebWrapper.NoCandidates` | SearchShellGemini.py:266-268 | any response whose candidate list is empty is reported as a parse error, "list index out of range" |
| `GeminiWebWrapper.GeminiPipeline` | SearchShellGemini.py:188-273 | no records means the advisory; otherwise the answer is what the endpoint gives for the prompt over the context |
| `OllamaWebWrapper.WebWrapper.constructor` | ollama_web_shell.py:130-132 | the wrapper starts with the model it is given |
| `OllamaWebWrapper.WithUrl` | ollama_web_shell.py:176-181 | the records kept for blocks all have a non-empty URL, and are no more than the records |
| `OllamaWebWrapper.WithUrlAppend` | ollama_web_shell.py:176-181 | skipping records without a URL keeps the order of the rest |
| `OllamaWebWrapper.WithUrlMembers` | ollama_web_shell.py:176-181 | a record is kept exactly when it is among the results and has a URL |
| `OllamaWebWrapper.WithUrlAll` | ollama_web_shell.py:176-181 | nothing is skipped when every record has a URL |
| `OllamaWebWrapper.GenerateContext` | ollama-web-wrapper.py:57-92 | the context is one block per record with a URL, in order, joined by newlines |
| `OllamaWebWrapper.OllamaBlocksRead` | ollama_web_shell.py:184-200 | when no title, URL or snippet holds a newline, each block reads back as its record's title, URL, snippet and extracted content, with the Summary line always present |
| `OllamaWebWrapper.OllamaBlockCount` | ollama_web_shell.py:134-141 | no more blocks than records, and a failed search gives an empty context |
| `OllamaWebWrapper.OllamaContextBlank` | ollama_web_shell.py:171-204 | the context is blank exactly when no record has a URL |
| `OllamaWebWrapper.QueryOllamaBlank` | ollama_web_shell.py:209-210 | a blank context gives the advisory, and the model's behaviour makes no difference |
| `OllamaWebWrapper.MessagesCarryPrompt` | ollama_web_shell.py:212-224 | the one user message carries the prompt, and the prompt starts with the context and then the question |
| `OllamaWebWrapper.QueryOllamaAnswer` | ollama_web_shell.py:225 | any response with text at `message.content` yields that text, whatever else it holds |
| `OllamaWebWrapper.QueryOllamaErrors` | ollama_web_shell.py:219-227 | a failed call or a missing field is reported as text under "Error querying Ollama: " |
| `OllamaWebWrapper.OllamaPipeline` | ollama-web-wrapper.py:57-115 | no record with a URL means the advisory; otherwise the answer is what the named model gives for the prompt over the context |
| `ShellCommands.Head` | ollama_web_shell.py:41-57 | the first item of a command line takes one or two tokens, and exactly those tokens |
| `ShellCommands.Effected` | ollama_web_shell.py:42-53 | one item fails exactly when it is a results value `int()` refuses |
| `ShellCommands.ScanStep` | ollama_web_shell.py:40-58 | one turn of the token loop reads the first item of what is left and applies it |
| `ShellCommands.ScanIsApplyLex` | ollama_web_shell.py:39-58 | the token loop and the reading into flags and words agree from every position |
| `ShellCommands.LexCovers` | ollama_web_shell.py:39-58 | reading into flags and words loses, adds and reorders no token |
| `ShellCommands.ApplyWords` | SearchShellGemini.py:45-48 | the query words are exactly the tokens that are not flags, in order |
| `ShellCommands.ApplyFails` | SearchShellGemini.py:41-43 | the loop fails exactly when some results value is not an integer literal |
| `ShellCommands.ApplyShow` | SearchShellGemini.py:38-39 | the context is shown exactly when it was already on or a `--show-context` flag was given |
| `ShellCommands.ApplyLastResults` | SearchShellGemini.py:40-44 | the last results flag sets the number of results; with no results flag it is unchanged |
| `ShellCommands.ApplyLastModel` | ollama_web_shell.py:46-53 | the last model flag sets the model; with no model flag it is unchanged |
| `ShellCommands.GeminiLexHasNoModel` | SearchShellGemini.py:37-48 | the Gemini shell reads no model flag |
| `ShellCommands.ScanSummary` | SearchShellGemini.py:35-49 | the token loop fails exactly on a refused results value; otherwise its words are the word items, the show flag is honoured, and the Gemini shell keeps its model |
| `ShellCommands.ScanPlain` | SearchShellGemini.py:47-48 | a command line with no `--` token is all query and changes nothing |
| `ShellCommands.TrailingFlagIsWord` | ollama_web_shell.py:48-55 | `--results` or `--model` as the last token, when it is not itself the value of the flag before it, has no value to read and is a query word |
| `ShellCommands.ModelTakesFlagAsValue` | ollama_web_shell.py:51-53 | the token after `--model` is its value even when it is a flag itself: `--model --results` sets the model to `--results` |
| `ShellCommands.SegmentOfFlag` | SearchShellGemini.py:41 | `tok.split('=')[1]` is the text between the first and the second `=` |
| `ShellCommands.ResultsValueStopsAtEquals` | SearchShellGemini.py:40-41 | in `--results=X=Y` only `X` is parsed, and a refused `X` fails the search |
| `ShellCommands.GeminiModelFlagIsWord` | SearchShellGemini.py:45-46 | in the Gemini shell a `--model=` token is a query word wherever the loop meets it |
| `ShellCommands.BadResultsValue` | SearchShellGemini.py:42-43 | a separate results value that is not a number fails the search wherever the loop meets it |
| `ShellCommands.DecideSearchCases` | SearchShellGemini.py:24-54 | a blank argument asks for a query; if `shlex` fails, the whole argument is the query; a search runs only with a non-empty query; it asks for a query exactly when the words join to nothing |
| `ShellCommands.ConfigSetChanges` | ollama_web_shell.py:94-103 | `config set` changes only the named setting and ignores extra arguments; an unknown parameter (and `model` in the Gemini shell) changes nothing but is still reported as updated; a refused results value raises |
| `ShellCommands.ConfigOtherCommands` | SearchShellGemini.py:78-92 | `config` and `config show` change nothing; a short `set` and any other sub-command are rejected; only an update changes the settings |
| `ShellCommands.ConfigResults` | SearchShellGemini.py:83-87 | `config set results` with the decimal form of any integer `n` is reported as an update and stores exactly `n` |
| `ShellCommands.ConfigResultsThenSearch` | SearchShellGemini.py:83-87 | `config set results n` stores `n`, and the next search without flags uses it |
| `GeminiShell.SearchShell.constructor` | SearchShellGemini.py:15-19 | the shell starts with the context hidden and 3 results |
| `GeminiShell.SearchShell.Reset` | SearchShellGemini.py:71-73 | the settings go back to their defaults |
| `GeminiShell.SearchShell.ScanTokens` | SearchShellGemini.py:35-49 | the loop over the tokens sets the fields flag by flag, ending as the token scan says |
| `GeminiShell.SearchShell.ReadToken` | SearchShellGemini.py:37-49 | one turn of the loop reads one token, or two for a separate `--results` value; it either reports the results value `int()` refuses, or sets the named field or adds a query word so that the rest of the scan gives the same result |
| `GeminiShell.SearchShell.ReadCommand` | SearchShellGemini.py:24-54 | the query and settings the search runs with are the ones the decision function gives for the fields at entry |
| `GeminiShell.SearchShell.RunSearch` | SearchShellGemini.py:55-66 | the context is gathered with the shell's number of results, and the outcome is the context when the shell shows it and Gemini's answer over it |
| `GeminiShell.SearchShell.DoSearch` | SearchShellGemini.py:21-73 | the outcome is that of the search function for the fields at entry, and the fields are reset whatever happened |
| `GeminiShell.SearchShell.DoConfig` | SearchShellGemini.py:75-92 | the outcome is that of the config function, and only an update changes the fields |
| `GeminiShell.SearchBlank` | SearchShellGemini.py:24-26 | a blank argument asks for a query whatever the backends do |
| `GeminiShell.SearchRuns` | SearchShellGemini.py:51-66 | a search that runs uses the query words; the context is printed exactly when asked; no records gives the advisory; a printed context with records is not blank |
| `GeminiShell.SearchModel` | SearchShellGemini.py:35-49 | no token changes the settings' model field; the Gemini request names no model (the endpoint fixes it), so this only records that the shell has no model flag |
| `GeminiShell.SearchRefused` | SearchShellGemini.py:41-43 | a refused results value fails the search |
| `OllamaShell.SearchShell.constructor` | ollama_web_shell.py:17-22 | the shell starts with the context hidden, 3 results and the default model, and so does its wrapper |
| `OllamaShell.SearchShell.Reset` | ollama_web_shell.py:81-84 | the settings go back to their defaults |
| `OllamaShell.SearchShell.ScanTokens` | ollama_web_shell.py:39-58 | the loop over the tokens sets the fields flag by flag, ending as the token scan says |
| `OllamaShell.SearchShell.ReadToken` | ollama_web_shell.py:41-58 | one turn of the loop reads one token, or two for a separate `--results`/`--model` value; it either reports the results value `int()` refuses, or sets the named field or adds a query word so that the rest of the scan gives the same result |
| `OllamaShell.SearchShell.ReadCommand` | ollama_web_shell.py:27-63 | the query and settings the search runs with are the ones the decision function gives for the fields at entry |
| `OllamaShell.SearchShell.RunSearch` | ollama_web_shell.py:65-74 | the wrapper is given the shell's model, and that model answers over the gathered context |
| `OllamaShell.SearchShell.DoSearch` | ollama_web_shell.py:24-84 | the outcome is that of the search function for the fields at entry; the fields are reset whatever happened; the wrapper keeps the model of the search that ran |
| `OllamaShell.SearchShell.DoConfig` | ollama_web_shell.py:86-105 | the outcome is that of the config function, and only an update changes the fields |
| `OllamaShell.SearchBlank` | ollama_web_shell.py:27-29 | a blank argument asks for a query whatever the backends do |
| `OllamaShell.SearchRuns` | ollama_web_shell.py:60-77 | a search that runs uses the query words; the context is printed exactly when asked; no record with a URL gives the advisory |
| `OllamaShell.SearchModel` | ollama_web_shell.py:46-53 | the model asked is the one the last model flag named, or the shell's model without one |
| `OllamaShell.SearchRefused` | ollama_web_shell.py:44-50 | a refused results value fails the search |

## Left out

- **HTTP, HTML and search libraries.** `requests`, BeautifulSoup, `googlesearch` and
  DuckDuckGo are not modelled. A page fetch is a failure or a `Page` holding the
  text of each candidate region. Removing script, style and navigation elements,
  and `get_text`, happen inside that value.
- **Determinism.** The backends are functions, so fetching the same URL twice gives
  the same result. The model does not capture a network that answers differently
  from one call to the next.
- **Failure texts.** For transport failures and for `ollama.chat`, the text of
  `str(e)` is a parameter, not a modelled string.
- **`shlex.split`.** It is not modelled. Its result, or its failure, is an input.
- **Side effects with no bearing on results.** `print`, `time.sleep(1)`, the
  timeouts and the browser user-agent header are not modelled. Nor are loading the
  API key from `SearchShellGPT.toml`, `cmd.Cmd`'s command loop with
  `exit`/`quit`/`EOF`/`emptyline`, and the `argparse` `main` of
  `ollama-web-wrapper.py`.
- **Uncaught `do_config` errors.** A `shlex` failure or a refused `int()` in
  `do_config` is not caught there, so it ends the command loop. The model reports
  it as `Unreadable` or `ConfigBadNumber`, with the settings unchanged, and goes no
  further.
- **Fractional Gemini parameters.** `temperature` (0.7) and `topP` (0.95) are left
  out of `RequestBody`, because the JSON model has integers only.
- **Fractional numbers in responses.** Real Gemini responses hold floats such as
  `avgLogprobs`. The JSON model has integers only. A float met where the walk expects
  a container would give a `'float'` type error text, which the model writes as the
  `'int'` one.
- `PyText.ParseInt`: its contract states only that a blank string, and a string
  holding an information separator (U+001C to U+001F), is refused. Its body follows
  `int()` for ASCII digits, one optional sign and single underscores between digits.
  It strips the `str.isspace` set, which `int()` also skips apart from those four
  separators. The non-ASCII decimal digits Python also accepts are not modelled.
  Nor is the limit of 4300 digits that Python 3.11 (and the 2022 security releases
  of 3.7 to 3.10) puts on `int()` and `str()`. With that limit, a results value of
  more than 4300 digits raises `ValueError` and the search fails; the model accepts
  it. `IntRoundTrip` holds without the limit.
- `ContextFormat.DecodeBlockRoundTrip`, `GeminiWebWrapper.GeminiBlocksRead`,
  `OllamaWebWrapper.OllamaBlocksRead`: the read-back is proved only when no header value
  holds a newline. `.strip()` keeps an inner newline in a title such as
  `<title>A\nB</title>`, and such a block no longer reads back as its record.
- `PyText.Lower`: only ASCII letters are lowered. No other character lowers to a
  letter of `true`.
- `PyText.Strip`: the contract says what stripping keeps and removes. The exact
  whitespace set appears only in the body, as Python's `str.isspace` set.
- `Json.Subscript`: a negative index is not modelled (`Index` is a `nat`); the paths
  the code walks use indices 0 only.
