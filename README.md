# Workflow Builder backend, modelled in Dafny

This project models the in-memory core of the Workflow Builder API (`backend/main.py`).
The API keeps three dictionaries:

- `documents_store` holds uploaded PDF documents: filename, extracted text, upload time and word count.
- `embeddings_store` holds, per document, the text cut into fixed-size chunks with one embedding vector per chunk.
- `workflows_store` holds saved canvas workflows (nodes and edges).

The endpoints modelled are:

- `upload_document`: checks the `.pdf` suffix, counts words, builds a 500-character preview and writes the store.
- `generate_embeddings`: 8000-character chunks for the remote model, 1000-character chunks for the mock fallback.
- `save_workflow`.
- `execute_workflow`: picks the most recent document, does keyword retrieval of sentences, builds the context and fills a reply template.
- `get_embeddings`: the per-document summary.

Layout:

- `wrappers.dfy`: `Option` and `Result`.
- `pystr.dfy`: the Python string operations the code uses, stated over `string`.
  These are `str.isspace`, `split()`, `split('.')`, `strip()`, `lower()`, `'sep'.join`, `endswith`, `s[:n]`, `w in s`, and a list comprehension.
  Each operation except the `isspace` character set, which is a plain definition, is stated by its own contract, by lemmas (round trips, shape of the result), or by both.
- `chunking.dfy`: `[text[i:i+n] for i in range(0, len(text), n)]` and its properties.
- `decimal.dfy`: `str(n)` for the clock readings in ids, with its inverse.
- `retrieval.dfy`: the answering logic of `execute_workflow` as pure functions.
- `backend.dfy`: class `Server`. Its map fields are the three stores, plus `documentOrder`, the insertion order Python's dict keeps.
  Each endpoint that writes a store is a method with `modifies this`. Each endpoint that only reads is a function with `reads this`.
  The loops of the source (`text += page.get_text()`, `embeddings.append(...)`) are `while` loops.

`Server.Valid()` is the store invariant that every method keeps. It says:

- `documentOrder` lists each document key once.
- Each stored word count is the number of whitespace-separated words of the stored text.
- Every embeddings entry belongs to a stored document and has one embedding per chunk.
- The chunks are the fixed-size cut of their own concatenation.

Two uploads in the same second share the id `doc_<seconds>`. The second one replaces the first document, and any embeddings entry made for the first one stays behind under that key. The model keeps this behaviour.

## Model

| member | source | states |
|---|---|---|
| `PyStr.Truncate` | backend/main.py:93 | text of at most N characters is returned as is; longer text becomes its first N characters followed by "...", N+3 long |
| `PyStr.Take` | backend/main.py:213 | `s[:n]` is a prefix of `s` of length min(n, len(s)) |
| `PyStr.ToLower` | backend/main.py:203-204 | the result has the same length, is lower-cased, keeps whitespace, and leaves already lower-cased text unchanged; each ASCII capital becomes its small letter |
| `PyStr.EndsWith` | backend/main.py:64 | `s.endswith(x)` holds exactly when some tail slice `s[i:]` equals `x` |
| `PyStr.Contains` | backend/main.py:208 | `w in s`: the empty string occurs in every string, and an occurring word is no longer than the string |
| `PyStr.Concat` | backend/main.py:72-74 | the text accumulated by `text += part` starts with the first part |
| `PyStr.ConcatEmpty` | backend/main.py:72-74 | the accumulated text is empty exactly when every part is empty |
| `PyStr.Join` | backend/main.py:211 | `sep.join(xs)` with the empty separator is the plain concatenation of the pieces |
| `PyStr.JoinEndsWith` | backend/main.py:211 | `sep.join(xs)` ends with the last piece |
| `PyStr.Words` | backend/main.py:85 | every word `split()` yields is non-empty and contains no whitespace |
| `PyStr.WordsOfJoin` | backend/main.py:85 | `split()` of a single-space join of words gives back exactly those words, so the word count counts them |
| `PyStr.WordsOfBlank` | backend/main.py:208 | an empty or whitespace-only string has no words |
| `PyStr.WordsOfToken` | backend/main.py:85 | a non-empty run of non-whitespace is exactly one word |
| `PyStr.WordsAtSpace` | backend/main.py:85 | any whitespace character, wherever it stands, separates words: the words of `a + c + b` are those of `a` followed by those of `b`. With the two lemmas above this fixes `split()` on every string: runs of whitespace, newlines and leading or trailing whitespace add no words |
| `PyStr.WordsKeepLowered` | backend/main.py:204 | the words of a lower-cased query are lower-cased |
| `PyStr.Split` | backend/main.py:207 | `s.split('.')` yields at least one piece and no piece contains '.' |
| `PyStr.JoinSplit` | backend/main.py:207 | joining the pieces of `s.split(c)` with `c` gives `s` back |
| `PyStr.SplitJoin` | backend/main.py:207 | splitting a `c`-join of `c`-free pieces gives the pieces back |
| `PyStr.SplitKeepsLowered` | backend/main.py:203-207 | the sentences of lower-cased text are lower-cased |
| `PyStr.Strip` | backend/main.py:208 | a stripped sentence neither starts nor ends with whitespace |
| `PyStr.StripSlice` | backend/main.py:208 | `strip()` returns the slice between a leading and a trailing run of whitespace |
| `PyStr.StripKeepsToken` | backend/main.py:208 | a whitespace-free word contained in a sentence is still contained after stripping it |
| `PyStr.Comprehension` | backend/main.py:208 | a filtered comprehension is no longer than its input |
| `PyStr.ComprehensionEmpty` | backend/main.py:208 | a filtered comprehension is empty exactly when no element is kept |
| `PyStr.ComprehensionIndices` | backend/main.py:208 | `[f(x) for x in xs if keep(x)]` is `f` of exactly the kept elements, in their original order |
| `Chunking.Chunks` | backend/main.py:119 | every chunk of `[text[i:i+n] for i in range(0, len(text), n)]` (also line 147) is non-empty and at most n long |
| `Chunking.ChunksConcat` | backend/main.py:119 | concatenating the chunks gives the text back |
| `Chunking.ChunksSizes` | backend/main.py:147 | all chunks but the last are exactly n long |
| `Chunking.ChunksCount` | backend/main.py:119 | there are ceil(len(text)/n) chunks; empty text gives none |
| `Chunking.ChunkAt` | backend/main.py:147 | chunk k is `text[k*n : k*n+n]`, the element the comprehension builds for `i = k*n` |
| `Decimal.NatToString` | backend/main.py:78 | `str(n)` is a non-empty string of digits without a leading zero |
| `Decimal.ParseNatToString` | backend/main.py:78 | reading the digits of `str(n)` back gives n |
| `Decimal.NatToStringInjective` | backend/main.py:78 | different clock readings give different digit strings |
| `Decimal.TaggedInjective` | backend/main.py:78 | `prefix + str(n)` determines n |
| `Backend.DocumentId` | backend/main.py:78 | the id is "doc_" followed by decimal digits, with no leading zero unless the reading is 0, that read back as the clock reading |
| `Backend.WorkflowId` | backend/main.py:174 | the id is "workflow_" followed by decimal digits, with no leading zero unless the reading is 0, that read back as the clock reading |
| `Backend.DocumentIdInjective` | backend/main.py:78 | two documents get the same id only when uploaded in the same second |
| `Backend.WorkflowIdInjective` | backend/main.py:174 | two workflows get the same id only when saved in the same second |
| `Retrieval.LatestIndex` | backend/main.py:199 | the chosen upload time is maximal, and no earlier entry in insertion order has it (Python's `max` keeps the first maximum) |
| `Retrieval.AnyIn` | backend/main.py:208 | `any(word in s for word in words)` holds exactly when some word of the list occurs in `s` |
| `Retrieval.Mentions` | backend/main.py:208 | a sentence passes the filter exactly when its lower-cased form contains some query word |
| `Retrieval.Sentences` | backend/main.py:203-207 | the sentences are lower-cased and free of '.', there is at least one, and joined with '.' they give the lower-cased text back |
| `Retrieval.QueryWords` | backend/main.py:204-208 | the query words are non-empty, whitespace-free and lower-cased; a blank query has none |
| `Retrieval.Relevant` | backend/main.py:208 | there are no more relevant sentences than sentences, and none at all exactly when no sentence mentions a query word |
| `Retrieval.RelevantSentences` | backend/main.py:203-208 | every relevant sentence of a document is lower-cased, free of '.', and already stripped |
| `Retrieval.RelevantIndices` | backend/main.py:207-208 | the relevant sentences are the stripped sentences that mention a query word: all of them, in their original order |
| `Retrieval.RelevantMentionQuery` | backend/main.py:203-208 | every relevant sentence contains at least one query word as a substring |
| `Retrieval.BlankQueryFindsNothing` | backend/main.py:204-208 | an empty or whitespace-only query yields no relevant sentence |
| `Retrieval.StripStripped` | backend/main.py:208 | stripping a stripped sentence changes nothing |
| `Retrieval.Context` | backend/main.py:210-213 | with no relevant sentence the context is the first min(500, len) characters of the original, not lower-cased, text. Otherwise, split on '.', it gives the first of the (at most three) top relevant sentences and then each later one after a single space, so the separator is `'. '`; stripping those pieces gives the sentences back |
| `Retrieval.JoinAfterSpace` | backend/main.py:211 | `'. '.join` of stripped, dot-free sentences splits on '.' into the first sentence and each later one after a space; stripped, these are the sentences again |
| `Retrieval.MockResponses` | backend/main.py:245-249 | there are three templates; each contains the user query and `context[:200]`, and the first also contains the document's filename |
| `Retrieval.Answer` | backend/main.py:215-255 | `context_used` is the context truncated to 200 characters; the remote reply is passed through with method "openai"; otherwise the response is template number `pick` of `MockResponses`, which contains the query and `context[:200]`, with method "mock" |
| `Backend.RecordFor` | backend/main.py:112-159 | the stored entry has one embedding per chunk. It uses the remote model's 8000-character chunks exactly when the key is available and every remote call succeeds, otherwise 1000-character chunks with 1536-dimensional random vectors |
| `Backend.RecordForCounts` | backend/main.py:135-140 | on both paths `embeddings_count == chunks_count == ceil(len(text)/chunk size)` |
| `Backend.BuildRecord` | backend/main.py:112-159 | the remote-then-mock branches of `generate_embeddings` build exactly the entry `RecordFor` describes |
| `Backend.ExtractText` | backend/main.py:72-75 | the extracted text is the concatenation of the pages' texts |
| `Backend.EmbedRemotely` | backend/main.py:122-127 | one remote embedding per chunk, in order; the first failed call abandons the remote path |
| `Backend.EmbedRandomly` | backend/main.py:150-153 | one 1536-dimensional random vector per chunk |
| `Backend.Server.constructor` | backend/main.py:27-29 | the three stores start empty |
| `Backend.Server.UploadDocument` | backend/main.py:60-97 | a name not ending in ".pdf", or a file the PDF library cannot open, gives a 500 and leaves every store unchanged. Otherwise only key `doc_<now>` is written (replacing at most a same-second entry) with the text, `now` and the word count; the reply carries the same word count, the text length and the 500-character preview |
| `Backend.Server.GenerateEmbeddings` | backend/main.py:99-169 | an unknown document id gives 404 and changes nothing; otherwise only that id's embeddings entry is replaced by `RecordFor` of the text, and the reply's embedding count equals its chunk count |
| `Backend.Server.SaveWorkflow` | backend/main.py:171-181 | nodes and edges are stored verbatim under `workflow_<now>`; nothing else changes |
| `Backend.Server.LatestDocumentId` | backend/main.py:198-200 | the chosen document is stored, has the maximal upload time, and is the first such in insertion order |
| `Backend.Server.ExecuteWorkflow` | backend/main.py:183-255 | the fixed no-documents message exactly when nothing is stored; otherwise the answer built from the most recent document |
| `Backend.Server.EmbeddingsSummary` | backend/main.py:268-271 | one summary per embeddings entry, with its method and a chunk count equal to its number of embeddings |

## Left out

- FastAPI plumbing: the app object, CORS middleware, route decorators, the health-check route `/` and the `uvicorn` start-up. An `HTTPException` is modelled only as its status and detail.
- `get_documents` (lines 263-266) returns `documents_store` unchanged. In the model that is the field `Server.documents`, and there is no separate member.
- PDF text extraction with PyMuPDF (lines 68-75) is foreign code. A file is modelled as the list of its pages' texts, or as the reason the library could not open it. Only the concatenation loop is modelled.
- The remote embedding and chat calls (lines 114-144, 218-242) go over the network.
  - `EmbeddingService` models the embedding side: no key or no client, or a function answering each chunk, where `None` is a failed call.
  - `chat: Option<string>` models the chat side: the chat model's reply when the key is set and the call succeeds.
  - The system prompt that carries the context to the chat model, and the `max_tokens` limit, are not modelled.
- The random floats of mock embeddings (line 152) are not modelled. Only their number (1536 per vector) is kept.
- EmbeddingsSummary: the summary is a map, so it does not keep the order in which `get_embeddings` (line 271) lists the entries, which is the insertion order of `embeddings_store`.
- `random.choice` (line 252) is the parameter `pick`, with 0 <= pick < 3.
- `time.time()` is a non-negative integer number of seconds `now`. It is used for the id, for `upload_time` and for `created_at`. The sub-second part of the float clock is dropped, and the two clock reads of one request are taken to be equal.
- ToLower: `str.lower()` (used by `ExecuteWorkflow` through `Sentences`, `QueryWords` and `Mentions`) is modelled for ASCII letters only. Python's full Unicode lower-casing, which can change a string's length, is not modelled.
- The catch-all branches can only be reached through code the model does not contain, so `Reply` has no constructor for them:
  - the apology reply of `execute_workflow` (lines 257-261), whose shape is `{response: "I apologize, ...", method: "error"}`;
  - the 500 of `generate_embeddings` (lines 168-169).
- Request validation by pydantic (a 422 before a handler runs), a missing filename (`None`), the unused `workflow_id` field of `ChatMessage`, and the unused `ComponentConfig` model are not modelled.
- Interleaving of concurrent async requests is not modelled. Each endpoint call is one atomic step on the stores.
- The front-end canvas, the component catalog, the workflow validator and the chat session are not part of this model. Their code is not in `backend/main.py`.
