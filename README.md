# Chat with RAG — answer path and chat session, in Dafny

This project models the core of *Chat with RAG*, a Streamlit app for asking
questions about an uploaded PDF or PowerPoint file. It covers two files.

- `llm_providers.py` is the provider layer. It holds the two prompt
  templates, the context assembler and the client guards of the two backends
  (Gemini and Groq). It also holds the grounded and topical answer functions
  and the name-based dispatch, which fails closed on an unknown name.
- `streamlit_app.py` holds the orchestration and the session state. The
  answer path asks the grounded backend first. It falls back to the topical
  backend only when the grounded reply contains the not-found phrase, in any
  letter case. The session state covers the document, the message log and the
  queued sample question, with the Clear Chat, Clear Doc, Index, ask and
  Markdown-export handlers.

Modules, in dependency order:

| file | module | contents |
|---|---|---|
| `text.dfy` | `Text` | Python string operations the core relies on: `str.join`, substring `in`, `lower()`, `strip()`, string order and `sorted(set(...))` |
| `errors.dfy` | `Errors` | `Option`, `Result` and the exceptions of the answer path, with their `str()` text |
| `context.dfy` | `Context` | `_make_context`: deduplicate by id, format blocks, join, cut, frame |
| `providers.dfy` | `Providers` | templates, client guards, the four backend answer functions, dispatch |
| `orchestrator.dfy` | `Orchestrator` | the grounded-then-topical fallback and its citations |
| `session.dfy` | `Session` | messages, one chat turn, the session object and its handlers, Markdown export |

How the environment appears in the model:

- Each remote model is an abstract function from a request (client, model
  name, prompt) to a reply or a transport error. It lives in a `Host` value,
  together with the two library-import flags and the process environment.
  Every answer result carries the list of requests actually sent. That lets
  the contracts say "no request is made" and "at most two requests are made".
- Ingestion, the passage store and retrieval belong to `rag_core`, which is
  not part of this model. They are parameters: an ingest result, and a `Rag`
  value holding a load function and a retrieve function. Each of them returns
  a value or an error.
- Every Python exception caught by `except Exception` is an `Error` value.
  `ErrorText` gives the text that `str(e)` renders.

## Model

| member | source | states |
|---|---|---|
| Context.Kept | llm_providers.py:36-41 | Definition: the hits the loop keeps, scanning left to right and skipping a hit whose id an earlier hit already used. The `Kept*` lemmas below characterise it |
| Context.Blocks | llm_providers.py:40 | Definition: one `[ref]\ntext\n` block per hit, in order. That `MakeContext` builds exactly these blocks for the kept hits is its loop invariant |
| Context.Excerpts | llm_providers.py:42 | Definition: the kept blocks joined by `\n---\n` and cut to `max_chars` characters |
| Context.Assemble | llm_providers.py:42-43 | Definition: the string `_make_context` returns, the excerpts header, the excerpts, the question marker and the question. `MakeContext` is proved equal to it, and `AssembleShape` and `AssembleFrame` state its form |
| Context.MakeContext | llm_providers.py:35-43 | The loop over the hits gives exactly the assembled context. The context starts with `DOCUMENT EXCERPTS:\n` and ends with `\n\nQUESTION: ` plus the whole question. Its length is at most header + budget + marker + question |
| Context.KeptFirstOccurrences | llm_providers.py:36-41 | The kept hits are exactly the hits at the first occurrence of their id, in input order. Every first occurrence is kept and later duplicates are dropped |
| Context.KeptIdsDistinct | llm_providers.py:36-41 | No id appears twice among the kept hits |
| Context.KeptIds | llm_providers.py:36-41 | The kept hits carry exactly the ids of the input |
| Context.KeptFromInput | llm_providers.py:37-40 | Every kept hit is a hit of the input |
| Context.KeptIdempotent | llm_providers.py:36-41 | Deduplicating an already deduplicated list changes nothing |
| Context.AssembleShape | llm_providers.py:42-43 | The excerpt is a prefix of the joined blocks of at most `max_chars` characters. It is the whole join when the join fits, and exactly `max_chars` characters otherwise |
| Context.AssembleFrame | llm_providers.py:42-43 | The context starts with the excerpts header and ends with the question marker and the whole question. Between them are at most `max_chars` characters |
| Context.AssembleNoHits | llm_providers.py:42-43 | With no hits the context is the header, an empty excerpt, the marker and the question |
| Context.AssembleIgnoresLaterDuplicate | llm_providers.py:38-39 | Appending a hit whose id was already used leaves the context unchanged |
| Context.AssembleOfKept | llm_providers.py:36-43 | Deduplicating the hits beforehand leaves the context unchanged |
| Providers.ProviderNames | llm_providers.py:19-20 | Definition: `provider_names()`, the list `["Gemini", "Groq"]` |
| Providers.Select | llm_providers.py:102-114 | Dispatch succeeds exactly for the two offered names and returns the provider of that name. Any other name is `Unknown provider: <name>` |
| Providers.SelectName | llm_providers.py:19-20 | Every provider is offered, and selecting its name returns it |
| Providers.DocPrompt | llm_providers.py:23-27 | Definition: the grounded system template, character for character. That it asks for the canonical not-found phrase is `DocPromptHasCanonicalPhrase` |
| Providers.TopicalPrompt | llm_providers.py:29-33 | Definition: the topical system template, character for character. That it asks for the off-document label is `TopicalPromptAsksForLabel` |
| Providers.DocPromptHasCanonicalPhrase | llm_providers.py:23-27 | The grounded template asks for the phrase `I couldn't find an answer in the document.` |
| Providers.TopicalPromptAsksForLabel | llm_providers.py:29-33 | The topical template asks for the label `Off-doc (related):` |
| Providers.DocPromptFor | llm_providers.py:57 | Definition: the grounded prompt, the template, a blank line and the assembled context (also line 82) |
| Providers.TopicalPromptFor | llm_providers.py:63 | Definition: the topical prompt, the template, `\n\nQ: ` and the raw question (also line 92) |
| Providers.PromptsEndWithQuestion | llm_providers.py:55-63 | The grounded prompt starts with template + blank line + excerpts header and ends with the marker and the whole question. The topical prompt starts with its template and ends with the question |
| Providers.MakeClient | llm_providers.py:47-78 | A client is built, with the environment's key, exactly when the library imported and the key is non-empty. The missing-library error and the missing-key error come with their own messages |
| Providers.LibraryCheckedFirst | llm_providers.py:47-78 | Without the library the result does not depend on the environment |
| Providers.Request | llm_providers.py:55-98 | A failed guard sends nothing. Otherwise exactly one request is sent with the given model and prompt. A reply is stripped and a transport error is passed on |
| Providers.DocAnswer | llm_providers.py:55-59 | `_gemini_doc_answer` and `_groq_doc_answer` (lines 80-88): at most one request, to that provider's grounded model, with the grounded prompt. The answer is that request's stripped reply |
| Providers.TopicalAnswer | llm_providers.py:61-65 | `_gemini_topical_answer` and `_groq_topical_answer` (lines 90-98): at most one request, to that provider's topical model, with the topical prompt. The answer is that request's stripped reply |
| Providers.GenerateDocAnswer | llm_providers.py:102-107 | An unknown name sends nothing and raises `UnknownProvider`. Otherwise at most one request is sent, to the named provider, with its grounded model and the grounded prompt |
| Providers.GenerateTopicalAnswer | llm_providers.py:109-114 | The same as `GenerateDocAnswer`, with the topical model and the topical prompt |
| Providers.OfferedNamesReachBackend | llm_providers.py:102-114 | With the library and the key present, an offered name sends exactly one request to its backend, using that key |
| Orchestrator.Answering | streamlit_app.py:159-170 | At most two requests are made, and none for an unknown provider. The first request is the grounded prompt. A second request happens only after a grounded reply that says not found, and it is the topical prompt. A `doc` answer is the stripped grounded reply, does not say not found, and cites every hit. An `off-doc` answer is the stripped topical reply with no citations |
| Orchestrator.SaysNotFound | streamlit_app.py:162 | Definition: the fallback test, the lower-cased reply contains `couldn't find an answer in the document` |
| Orchestrator.FallbackIgnoresCase | streamlit_app.py:162 | A grounded reply that contains the trigger phrase in any letter case, anywhere in the reply, triggers the fallback |
| Orchestrator.FallbackNeedsTrigger | streamlit_app.py:162 | Conversely, a reply triggers the fallback only if some slice of it, lower-cased, is the trigger phrase |
| Orchestrator.CanonicalPhraseAnyCase | streamlit_app.py:162 | In particular, any letter-case variant of the whole canonical sentence inside a reply triggers the fallback |
| Orchestrator.Citations | streamlit_app.py:170 | Definition: the ref of each hit, in hit order, duplicates kept. That a grounded answer carries them is `Answering` and `GroundedAnswerCitesAllHits` |
| Orchestrator.CanonicalPhraseRoundTrips | streamlit_app.py:162 | The phrase the grounded template asks for is one the fallback test detects |
| Orchestrator.FallbackTakesTopicalPath | streamlit_app.py:162-166 | When the grounded reply says not found, the outcome is the topical result labelled `off-doc` with no citations, or the topical error. The request trace is the grounded request followed by the topical one |
| Orchestrator.GroundedAnswerCitesAllHits | streamlit_app.py:167-170 | Otherwise the grounded reply is the answer, in `doc` mode, citing each hit's ref in hit order |
| Orchestrator.GroundedFailureHasNoFallback | streamlit_app.py:152-192 | A failure of the grounded step is passed on and no topical request is made |
| Orchestrator.ShortReplyIsGrounded | streamlit_app.py:162 | A reply shorter than the trigger phrase never triggers the fallback |
| Orchestrator.GroundedScenario | streamlit_app.py:159-170 | A reply without the phrase, from a configured provider, is the `doc` answer after exactly one request |
| Orchestrator.CitedReplyIsKept | streamlit_app.py:162-170 | The reply `Revenue grew 12%. [ref: page_2]` strips to itself, does not trigger the fallback, and is cited as `page_2` |
| Orchestrator.OffDocScenario | streamlit_app.py:159-166 | A grounded reply equal to the canonical phrase leads to exactly two requests. The answer is the stripped topical reply, in `off-doc` mode, with no citations |
| Session.TurnFor | streamlit_app.py:145-192 | The reply is a well-formed assistant message after at most two requests. Without a truthy document id it is the upload prompt, with no request. A load failure, or a retrieval failure, gives the error reply with that failure's own text and sends no request. When both succeed, the requests are those of `Orchestrator.Answering` on the retrieved hits. Its error becomes the error reply with its text, and its answer becomes the reply with the same content, mode and citations, recording the hits |
| Session.ErrorReply | streamlit_app.py:188-190 | A well-formed assistant message without mode or citations, whose content is `⚠️ Error while answering: ` followed by the exception's text |
| Session.ReplyFor | streamlit_app.py:173-190 | Definition: an answering error becomes its error reply; an answer becomes an assistant message with its content, citations and mode and the hits it was given. The cases are stated by `TurnFor` and `AnswerHits` |
| Session.AnswerHits | streamlit_app.py:159-190 | The reply and the requests are those of `Orchestrator.Answering`, with exceptions turned into error replies |
| Session.AppendTurnKeepsLog | streamlit_app.py:141-190 | Appending a question and a well-formed reply keeps the log a sequence of user/assistant turns |
| Session.ConfigurationFailureReply | streamlit_app.py:188-190 | An unknown provider, a missing library or a missing key reaches the log as the error reply with that message. No request is made |
| Session.NoDocumentScenario | streamlit_app.py:145-150 | With no document id, or an empty one, the reply is the upload prompt whatever the collaborators would do |
| Session.Selected | streamlit_app.py:196-199 | Truthy typed input is the question. Otherwise a truthy queued question is. A truthy question results exactly when one of the two is truthy |
| Session.DocumentRefs | streamlit_app.py:112 | The document refs are strictly ascending, and they are exactly the refs of the chunks |
| Session.MessageLines | streamlit_app.py:238-243 | Definition: the lines one message adds to the export, the labelled content, the citations line when there are citations, and a blank line. `MessageLinesShape` states its form |
| Session.CitationLine | streamlit_app.py:242 | Definition: `_Citations:_ ` followed by the distinct citations, ascending, joined by `, ` |
| Session.MarkdownLines | streamlit_app.py:236-243 | Definition: the export lines of a log, message by message. `ExportMarkdown` is proved equal to their newline join |
| Session.MarkdownLinesConcat | streamlit_app.py:237-243 | The export of a concatenated log is the concatenation of the exports |
| Session.ExportAfterTurn | streamlit_app.py:237-243 | A turn adds the user block and then the reply block to the export |
| Session.MessageLinesShape | streamlit_app.py:238-243 | Each message gives a role line with its content, a citations line only when it has citations, and a blank line. The citations line lists the message's distinct citations in ascending order |
| Session.ChatSession.constructor | streamlit_app.py:74-87 | A fresh session has no document, no refs, no messages and no queued question |
| Session.ChatSession.ClearChat | streamlit_app.py:45-47 | The log is emptied and nothing else changes |
| Session.ChatSession.ClearDocument | streamlit_app.py:49-53 | The document id, name and refs are cleared. The log is kept |
| Session.ChatSession.QueueQuestion | streamlit_app.py:65-67 | The sample question is queued |
| Session.ChatSession.IndexDocument | streamlit_app.py:104-117 | A failed ingest changes nothing. A successful ingest records the new id and name. A failed load then keeps the old refs. A successful load sets the refs to the sorted distinct refs of the chunks. The log is never touched |
| Session.ChatSession.AskAndAnswer | streamlit_app.py:138-192 | The log grows by exactly the user message and the reply of `TurnFor`. The log stays a sequence of turns, and the requests are those of the turn |
| Session.ChatSession.NextQuestion | streamlit_app.py:196-199 | Typed input wins. Otherwise a queued question is taken and the queue emptied |
| Session.ChatSession.Submit | streamlit_app.py:196-202 | A truthy selected question is asked as by `AskAndAnswer`. Otherwise the log is unchanged and no request is made |
| Session.ChatSession.ExportMarkdown | streamlit_app.py:235-244 | The downloaded text is the per-message lines joined by newlines |
| Text.Strip | llm_providers.py:59 | The result is a slice of the input, with only whitespace removed at both ends, and does not start or end with whitespace. Whitespace is the set `str.isspace()` accepts: tab to carriage return, 0x1C-0x1F, space, U+0085, U+00A0, U+1680, U+2000-U+200A, U+2028, U+2029, U+202F, U+205F and U+3000 |
| Text.StripIdempotent | llm_providers.py:59 | Stripping an already stripped reply changes nothing |
| Text.StripUnpadded | llm_providers.py:59 | A string without leading or trailing whitespace is its own strip |
| Text.ContainsIgnoringCase | streamlit_app.py:162 | If `s` contains `u`, and `u` equals `t` up to letter case, then `s.lower()` contains `t.lower()` |
| Text.ContainsTransitive | streamlit_app.py:162 | Substring containment is transitive |
| Text.ContainsNoLonger | streamlit_app.py:162 | A string contains nothing longer than itself |
| Text.SortedSet | streamlit_app.py:242 | The result is strictly ascending, and has exactly the members of the input |
| Text.StrictlySortedUnique | streamlit_app.py:242 | Two strictly ascending lists with the same members are equal, so `sorted(set(...))` is determined by the set |
| Text.LessTransitive | streamlit_app.py:242 | Python string order is transitive |
| Text.LessTotal | streamlit_app.py:242 | Any two different strings are ordered one way |

Behaviours of the code a reader may not expect, which the model keeps:

- A grounded answer cites the ref of every retrieved hit (line 170). That
  includes duplicates and hits whose text was cut from the context.
  Duplicates are removed only in the display and in the export:
  `sorted(set(...))` at lines 133, 185 and 242.
- Indexing a document does not clear the message log (lines 104-117).
- Nothing ties the citations of a message to the refs of the current
  document. Clearing or re-indexing the document keeps earlier messages.
  The session invariant `Valid` states only what the code upholds: the log
  is made of user/assistant turns, and every message is well formed.

## Left out

- The Streamlit UI is not modelled: page layout, CSS, spinners, success and
  error banners, chat bubbles, citation chips, the document-overview panel,
  the retrieval debug panel and their `[:5]` / `[:50]` previews. They only
  display state.
- Relevance scores, the debug toggle and the Groq temperatures (0.2 and 0.6)
  are not modelled. They are floating-point values that do not affect the
  control flow modelled here.
- Writing the upload to `/tmp` (line 103) is not modelled. It is file I/O
  that happens before the `try` at line 104. A write failure is therefore
  not reported as "Failed to index": the run ends with an uncaught exception
  and the session state is unchanged. `IndexDocument` starts after a
  successful write.
- `rag_core` (`ingest_file`, `load_store`, `retrieve`) is not part of this
  model. Its results are parameters.
- The Gemini and Groq SDK calls are the abstract `remote` function of a
  `Host`. A reply whose text is missing (`None.strip()` in Python) is
  modelled as a transport error `Failed`.
- Providers.DocModel: the Groq model names are the defaults of
  `GROQ_MODEL_DOC` and `GROQ_MODEL_TOPICAL` (lines 69-70). They are read once
  at import, and the environment override is not modelled.
- Text.Lower: covers ASCII letters only. Python's `str.lower()` on other
  Unicode letters is not modelled.
- The JSON download (line 248) is not modelled: `json.dumps` encoding is out
  of scope. Only the Markdown export is modelled.
- Session.ChatSession.ExportMarkdown: the source shows the download button
  only when the log is non-empty (line 235). The model also defines the
  export of an empty log, which is the empty string.
- The `doc_id[:8]` shown in the success banner (line 115) is not modelled.
  It is display only.
- Session.ChatSession.constructor: models a fresh session. `_init_state`
  fills only missing keys (lines 74-85) on later reruns. That is the
  persistence of Streamlit's session state across reruns, which every other
  handler's `old(...)` state stands for.
- The provider selector's chosen value is a parameter of the answer
  operations. The selector widget itself is UI.
