# Candidate assistant core (felix-ai-demo `app.py`)

The repository is a Streamlit demo of a campaign assistant for a candidate, Javier Montoya.
It works in three steps:

- It splits a campaign document into paragraph chunks and embeds them.
- It stores the chunks in an in-memory ChromaDB collection.
- It answers voter questions with retrieval-augmented generation: embed the question, fetch up to
  three nearest chunks, wrap them in a grounded prompt and ask the chat model.

Beside the chat, a dashboard counts questions per campaign topic. It also logs the questions the
assistant declined to answer.

This project models the deterministic core of that program in Dafny and proves properties of it:

- `Strings`: the Python string operations the core relies on: `split`, `join`, `strip` with
  Python's `isspace` table, substring `in` and `str(n)`. A `StartsWith`
  predicate is a helper of the model; the program itself never calls `startswith`.
- `Chunking`: the chunker (split on blank lines, strip, drop empty pieces) and the positional
  chunk ids `doc_chunk_<i>`.
- `VectorStore`: the collection as a class holding `(id, text, vector)` entries. The one-time load
  `cargar_cerebro_candidato` is a method `Collection.Load`, proved against the specification
  function `Build`.
- `Answering`: `ask_candidato_ia` as a function of the outcomes of its three external calls.
  Those calls are the question embedding, the store query and the chat completion. Each is a
  function-typed oracle that returns `None` where the real call raises.
- `Dashboard`: the session state as a class `Session`, holding the chat history, the five topic
  counters and the unanswered-question log. `Session.HandleQuestion` is the update that one
  submitted question makes to all three.

Vectors are a type parameter `V`. Python's `str.lower` is a function parameter `lower`. The
source file has Windows line endings, but Python reads them as `"\n"`, so every literal here
uses `"\n"`.

## Model

| member | source | states |
|---|---|---|
| Strings.IsSpace | app.py:37 | defines Python's `str.isspace()` for one character by its table of code-point ranges; `Strings.InRangesIff` states that a character passes exactly when a listed range holds it |
| Strings.InRangesIff | app.py:37 | a character is in the range table exactly when some listed range holds it |
| Strings.Strip | app.py:37 | `strip()` yields a string with no whitespace at either end |
| Strings.StripEmptyIff | app.py:37 | a segment strips to the empty string, and is dropped, exactly when it is all Python whitespace |
| Strings.StripOffset | app.py:37 | what `strip()` keeps is a contiguous slice of the segment, with only whitespace before and after it |
| Strings.StripStripped | app.py:37 | `strip()` is idempotent: a stripped string is its own strip |
| Strings.StripPadded | app.py:33-37 | a stripped, non-empty text padded with whitespace on both sides strips back to the text |
| Strings.Split | app.py:36 | `split(sep)` always yields at least one part |
| Strings.JoinSplit | app.py:36 | joining the parts of `split(sep)` with `sep` gives the document back exactly, so no text is lost or reordered |
| Strings.SplitPartsAvoidSeparator | app.py:36 | no part of `split(sep)` contains `sep` |
| Strings.SplitWithoutSeparator | app.py:36 | a text without the separator splits into itself alone |
| Strings.SplitAfterPart | app.py:36 | a text beginning with a part that cannot reach into a following separator splits off that part first |
| Strings.SplitJoin | app.py:36 | splitting a join of parts that cannot form a separator at a joint gives the parts back |
| Strings.JoinContainsParts | app.py:69 | every part occurs in the joined string |
| Strings.Join | app.py:69 | a joined string starts with its first part |
| Strings.Contains | app.py:174 | defines Python's substring test `t in s` by a left-to-right scan; `Strings.ContainsAt` states its meaning |
| Strings.ContainsAt | app.py:174 | substring `in` holds exactly when the text occurs at some position |
| Strings.ContainsTransitive | app.py:174 | a text inside a text inside `s` is inside `s` |
| Strings.NatToString | app.py:49 | `str(n)` is a non-empty run of decimal digits, with a leading zero only for 0 |
| Strings.ParseNatToString | app.py:49 | `int(str(n)) == n` |
| Strings.NatToStringInjective | app.py:49 | distinct numbers have distinct decimal strings |
| Chunking.KeepNonEmpty | app.py:37 | the filtered comprehension keeps at most one item per segment and no empty item |
| Chunking.Chunks | app.py:36-37 | there are at most as many chunks as segments; every chunk is non-empty and its own `strip()` |
| Chunking.ChunksInOrder | app.py:36-37 | chunk `j` is the strip of segment `idx[j]` for strictly increasing `idx`, and every segment that does not strip to nothing is among them, so the chunks keep segment order and none is dropped wrongly |
| Chunking.ChunksOccurInDocument | app.py:36-37 | every chunk is a contiguous piece of the document |
| Chunking.ChunkAvoidsBreak | app.py:36-37 | no chunk contains a blank-line break |
| Chunking.StrippedKept | app.py:37 | the filter keeps stripped non-empty chunks unchanged |
| Chunking.ChunkingJoinedChunks | app.py:36-37 | chunking the chunks joined by blank lines gives the same chunks: re-chunking is stable |
| Chunking.CampaignDocumentChunks | app.py:33-37 | the placeholder document shipped in the source gives exactly one chunk, the placeholder line |
| Chunking.TwoParagraphs | app.py:36-37 | two one-line stripped paragraphs separated by a blank line chunk into those two lines, in order |
| Chunking.TwoSentenceDocumentChunks | app.py:36-37 | a concrete two-paragraph campaign document gives its two sentences as chunks |
| Chunking.ChunkId | app.py:49 | each id is `doc_chunk_` followed by `str(i)` of its position, with no padding, and those digits parse back to the position |
| Chunking.ChunkIds | app.py:49 | there is one id per chunk, id `i` is `ChunkId(i)`, and no two ids are equal |
| Chunking.FirstChunkId | app.py:49 | a one-chunk document is stored under `doc_chunk_0` |
| VectorStore.Ids | app.py:49-50 | defines the list of entry ids, position by position |
| VectorStore.AddAccepts | app.py:50 | defines the batch validation of `collection.add`: at least one id, one document and one embedding per id, and no id twice; `VectorStore.LoadFromEmpty` and `VectorStore.Collection.Add` state its consequences |
| VectorStore.Zip | app.py:50 | defines the stored batch: entry `i` holds id `i`, document `i` and embedding `i` |
| VectorStore.Build | app.py:44-50 | a non-empty collection is left unchanged with success; a failed load leaves the entries unchanged; a successful load leaves the collection non-empty |
| VectorStore.LoadFromEmpty | app.py:36-50 | a load into an empty collection succeeds iff the document has a chunk and the embedder returns one vector per chunk; the entries then align chunks, ids and vectors, the ids are distinct, the ids are `doc_chunk_0..n-1` and the count is the number of chunks |
| VectorStore.BuildIdempotent | app.py:44 | a load after a successful load changes nothing, whatever the embedder returns |
| VectorStore.RetryAfterFailure | app.py:44-50 | a load after a failed load does exactly what a first load with the new embedder would do, because the failure left the entries unchanged |
| VectorStore.BuildKeepsEntries | app.py:44-50 | a load never removes or changes stored entries |
| VectorStore.Collection.constructor | app.py:40-41 | a fresh ephemeral collection is empty |
| VectorStore.Collection.Count | app.py:44 | defines `count()` as the number of stored entries |
| VectorStore.Collection.Add | app.py:50 | the batch is accepted iff it is non-empty, has equal lengths and has distinct ids; an accepted batch is appended, and a rejected one changes nothing |
| VectorStore.Collection.Load | app.py:36-50 | the status and the new entries are those of `Build` on the old entries |
| Answering.Context | app.py:69 | the context contains every retrieved document, starts with the first, and is empty when none was retrieved |
| Answering.Prompt | app.py:75-83 | defines the f-string prompt: opening, context, divider, quoted question, the instruction with the exact refusal sentence, and closing; `Answering.PromptContents` states what it holds |
| Answering.PromptContents | app.py:75-83 | the prompt starts with the fixed opening, holds the context right after it, and holds the quoted question and the exact refusal sentence |
| Answering.TemplateShape | app.py:75-83 | the same placement facts for the seven template pieces, whatever their text |
| Answering.Completion | app.py:87-93 | defines the request: it carries the chat model `gpt-4o-mini`, the system instruction and the prompt as user message |
| Answering.Retrieve | app.py:59-69 | a failed question embedding, a missing collection or a failed query gives no documents; when the embedding succeeds and the collection exists, the documents are exactly the query's result for the question's vector, with `n_results` 3 |
| Answering.Ask | app.py:59-72 | a failed search step answers `"Error al buscar información."` |
| Answering.AskAfterSearch | app.py:75-97 | after a successful search, the answer is the model's text for the grounded prompt, or `"Error al generar la respuesta."` when the completion call raises |
| Answering.SearchFailureSkipsCompletion | app.py:59-72 | when the search fails, the completion oracle is never consulted: any other completion oracle gives the same answer |
| Answering.AnswerIsModelText | app.py:86-94 | the model's text is returned unchanged, and the prompt it saw holds every retrieved document, the quoted question and the refusal sentence |
| Answering.RefusalHasMarker | app.py:81 | the refusal sentence contains the unanswered marker |
| Answering.SearchFailureLacksMarker | app.py:72 | the search-failure string does not contain the marker |
| Answering.GenerationFailureLacksMarker | app.py:97 | the generation-failure string does not contain the marker |
| Dashboard.TopicsAreAllTopics | app.py:108 | the ordered topic list and the key set agree: every topic is in both, both have five elements, and the list has no repeats |
| Dashboard.NamesDistinct | app.py:108 | the five topic names are distinct, so a map keyed by topic is the source's dictionary keyed by name |
| Dashboard.InitialTally | app.py:108 | defines the initial counters: have exactly the five topics as keys, all zero |
| Dashboard.Keywords | app.py:162-170 | defines the keyword list of each topic, as written in the five checks |
| Dashboard.Mentions | app.py:162-170 | defines `any(keyword in prompt.lower() ...)` for one topic: some keyword of the topic occurs in the lowercased question; `Dashboard.Tallied` and `Dashboard.KeywordCounted` state its effect on the counters |
| Dashboard.Tallied | app.py:162-171 | the keys are unchanged; no counter decreases or rises by more than one; a counter rises by one iff the lowercased question contains one of its keywords |
| Dashboard.Bump | app.py:162-163 | one topic check changes that topic's counter alone, by one iff it is mentioned |
| Dashboard.TalliedInSteps | app.py:162-171 | the five checks in the source's order give `Tallied` |
| Dashboard.Matched | app.py:162-171 | the topics a question mentions, in order; no more of them than topics, and no topic twice when the topics are distinct |
| Dashboard.Total | app.py:187 | defines `sum(temas.values())` over the listed topics; `Dashboard.TallyTotal` and `Dashboard.TallyTotalBounds` state how one question changes it |
| Dashboard.TallyTotal | app.py:162-171 | one question raises the sum of the counters by the number of topics it mentions |
| Dashboard.TallyTotalBounds | app.py:162-171 | the sum rises by between 0 and 5 per question, and a question on no topic changes nothing |
| Dashboard.KeywordCounted | app.py:162-171 | a lowercased question that contains any keyword of a topic raises that topic's counter by exactly one |
| Dashboard.SecurityKeywordCounted | app.py:162-163 | every lowercased question containing "seguridad" raises the Seguridad counter by one |
| Dashboard.SecurityQuestionCounted | app.py:162 | the example question "¿qué propone sobre seguridad?" mentions Seguridad |
| Dashboard.WorkQuestionCounted | app.py:164 | "trabajo en el campo" mentions Empleo |
| Dashboard.FieldQuestionCounted | app.py:168 | "trabajo en el campo" mentions Agro |
| Dashboard.TwoTopicsCounted | app.py:164-169 | the checks are independent: tallying "trabajo en el campo" raises both the Empleo and the Agro counter by one |
| Dashboard.Logged | app.py:174-175 | defines the log after one answer: the question is appended iff the answer contains the marker; `Dashboard.LoggedAnswers` states which answers are logged |
| Dashboard.LoggedAnswers | app.py:174-175 | the refusal sentence is always logged; the two failure strings never are |
| Dashboard.Session.constructor | app.py:103-110 | the session starts with no messages, all five counters at zero and an empty log |
| Dashboard.Session.CheckTopic | app.py:162-163 | one keyword check updates the counters as `Bump` and changes nothing else |
| Dashboard.Session.Tally | app.py:162-171 | the topic map becomes `Tallied` of the old map on the lowercased question, and the key set stays the five topics |
| Dashboard.Session.LogIfUnanswered | app.py:174-175 | the question is appended to the log iff the response contains the marker |
| Dashboard.Session.HandleQuestion | app.py:144-175 | the response is `Ask`; the history gains the user's message followed by the assistant's; the counters are `Tallied` on `lower(question)`; the log is updated as `Logged` |

## Left out

- The user interface: page setup, the sidebar, the chat rendering, the spinners, the dashboard
  columns, the chart and the text area (app.py:15-23, 113-141, 147-148, 151, 157-158, 180-186,
  188-202). It is display only. The sum tested at app.py:187 is `Dashboard.Total`.
- The OpenAI client and the API-key handling (app.py:101-102, 115-125). In the model, the
  external calls are oracle parameters.
- The embedding, query and completion services themselves. They are oracles that return a value
  or `None` (a raised exception). The similarity ranking of ChromaDB is not modelled.
- Answering.Retrieve: the query oracle is not required to return at most three documents.
  `n_results=3` is passed to it, but the bound is ChromaDB's to keep.
- `st.cache_resource` (app.py:28): caching across sessions is not modelled. An exception raised
  by the embedding call (app.py:47) is not cached, so a later connect runs the load again; within
  one collection, `VectorStore.BuildIdempotent` and `VectorStore.RetryAfterFailure` state what such
  a repeated load does.
- `st.rerun()`, `print` and `st.error` (app.py:30, 52, 71, 96, 178) are side effects on the
  display and the log only.
- pandas and the chart data (app.py:188-189).
- Python's Unicode `str.lower()`. It is the `lower` parameter of `HandleQuestion`, and the topic
  checks are stated on its result.
- A completion whose message content is `None`: the model's text is taken to be a string.
- The empty-input guard of `st.chat_input` (app.py:144). `HandleQuestion` models the branch taken
  for a non-empty question.
- VectorStore.Collection.Add: ChromaDB's handling of ids that are already stored, and any further
  validation such as vector dimensions. In the source, the add runs only on an empty collection.
  It rejects an empty batch, which the OpenAI embedding call also does.
- Concurrency between browser sessions: one `Session` models one session's state.
- The topic map is keyed by a `Topic` datatype rather than by the strings of app.py:108.
  `Dashboard.Name` gives each topic's string, and `Dashboard.NamesDistinct` shows the two keyings
  agree.
- Answering.Retrieve: when there is no collection yet, the source still embeds the question
  first. It then fails on `None.query` and answers `"Error al buscar información."`. The model
  follows this code: it does not raise a separate not-ready error without calling any provider.
- Dashboard.Session.HandleQuestion: the method does not restate the refusal and failure cases of
  the log. They follow from its log clause together with `Dashboard.LoggedAnswers`.
