# Ride-help assistant: retrieval pipeline and feedback dashboard in Dafny

This project models two parts of a customer-support chat assistant for a ride-hailing app.

The first part is the backend's retrieval-augmented pipeline (`server.ts`). A query is routed to one of four support agents: billing, safety, lost & found or general. The knowledge-base snippets of that agent are ranked by lexical cosine similarity against the query. The best ones become the context of the prompt sent to the text generator. In detail, the model covers:

- the tokeniser: lowercase, then maximal runs of ASCII word characters;
- the vocabulary: deduplicated, in first-occurrence order, with its word-to-index map;
- term-count vectors and the per-agent vector table;
- cosine similarity;
- `retrieveContext`: stable sort by descending score, keep scores above 0.2, take the first three;
- the function-name-to-agent switch of the router;
- the context and prompt strings;
- the `/api/chat` endpoint as a decision.

The second part is the data side of the dashboard (`index.tsx`):

- rating a reply (`handleEvaluation`);
- the message filters;
- the satisfaction and latency figures;
- the per-agent good/bad/total tally;
- the list of the five most recent query/reply exchanges.

Modules, one per component:

| file | module | what it holds |
|---|---|---|
| `wrappers.dfy` | `Wrappers` | `Option`, and `Call` (a remote call that returned or threw) |
| `seqs.dfy` | `Seqs` | `filter`, `join`, `slice`, `reverse`, `flat` and counting on sequences |
| `agents.dfy` | `Agents` | the agents, the knowledge base (verbatim) and the persona instructions (verbatim) |
| `tokenizer.dfy` | `Tokenizer` | `toLowerCase().match(/\b\w+\b/g) \|\| []` |
| `vocabulary.dfy` | `Vocabulary` | `createVocabulary` and `vocabularyIndexMap` |
| `vectorizer.dfy` | `Vectorizer` | `textToVector` (imperative, over an array) and `VECTOR_DATABASE` (imperative accumulation) |
| `similarity.dfy` | `Similarity` | `cosineSimilarity` in exact arithmetic |
| `retrieval.dfy` | `Retrieval` | `retrieveContext`, including the in-place stable sort of the scored snippets |
| `routing.dfy` | `Routing` | the routing prompt and the function-name switch of `routeToAgent` |
| `chat.dfy` | `Chat` | the context block, the augmented prompt and the `/api/chat` decision |
| `dashboard.dfy` | `Dashboard` | `handleEvaluation` and the computations of the `Dashboard` component |

**Exact scores.** `cosineSimilarity` divides by a product of square roots. Term counts are never negative, so the similarity is never negative either, and it is fixed by its square `dot² / (|a|²·|b|²)`. That square is an exact rational number. Every comparison `retrieveContext` makes gives the same answer on squares:

- `score > 0.2` becomes `score² > 1/25`;
- `b.score - a.score` compares the squares.

The model therefore carries the squared similarity as a `real` throughout.

**The sort.** `Array.prototype.sort` is stable. Every stable sort by descending score gives the same result, so the reference definition is a functional insertion sort (`Retrieval.SortByScore`). Stability is stated per score value: for each value, the snippets with that score keep their knowledge-base order. `Retrieval.SortByScoreInPlace` is an in-place insertion sort over an array and is proved equal to that definition.

**Remote calls.** The two calls into the hosted model are inputs of `Chat.HandleChat`:

- `classify` answers the routing prompt with the name of the chosen function, or none;
- `generate` answers a persona instruction and a prompt with text.

Either call may throw. The measured latency is an input as well.

**Points of the code the model follows closely:**

- **Threshold and top-k.** 0.2 and 3 are constants of `retrieveContext` (`server.ts:130-131`), and so they are in the model.
- **Routing call that throws.** `routeToAgent` does not catch a throwing classification call. The throw reaches the endpoint's catch block (`server.ts:190-193`) and the answer is 500; the general agent is picked only when the call returns no usable function name (`server.ts:117-126`).
- **What the classifier sees.** The classifier receives the query inside the routing prompt of `server.ts:114`, not the bare query.
- **Context layout.** The context is a `CONTEXT:` header followed by one `- ` bullet per snippet (`server.ts:178`).

## Model

| member | source | states |
|---|---|---|
| Tokenizer.LowerChar | server.ts:55 | lowercasing maps each upper-case letter to the lower-case letter at the same alphabet position, changes nothing else, and so keeps word and non-word characters apart |
| Tokenizer.Lower | server.ts:55 | `toLowerCase` on ASCII: same length, each character lowercased by `Tokenizer.LowerChar` |
| Tokenizer.Tokens | server.ts:55 | the `match(/\b\w+\b/g) \|\| []` result; its contract is carried by `Tokenizer.TokensAreMaximalRuns`, `Tokenizer.TokensWellFormed` and `Tokenizer.TokensCoverWordChars` |
| Tokenizer.TokensWellFormed | server.ts:64 | every token is a non-empty, lower-case run of word characters |
| Tokenizer.SpansSpec | server.ts:64 | the span list holds every maximal run of word characters of a text and nothing else, strictly left to right |
| Tokenizer.TokensAreMaximalRuns | server.ts:64 | the tokens are, one for one and in order, the substrings of the lowercased text at its maximal word-character runs: the k-th token is the k-th run, none dropped or repeated |
| Tokenizer.EveryRunIsToken | server.ts:64 | every maximal run of word characters of the lowercased text is a token |
| Tokenizer.TokensCoverWordChars | server.ts:64 | concatenated, the tokens are exactly the word characters of the lowercased text, in order: no word character is lost or duplicated |
| Tokenizer.TokensOfSeparated | server.ts:54-55 | tokenising `a + " " + b` gives the tokens of `a` followed by those of `b` (the space never merges two words) |
| Tokenizer.TokensOfJoin | server.ts:54-55 | tokenising the space-joined knowledge base gives the concatenation of each snippet's tokens, in order |
| Tokenizer.TokensOfEmpty | server.ts:64 | the empty text has no tokens (the `\|\| []` fallback) |
| Vocabulary.CreateVocabulary | server.ts:53-57 | `createVocabulary`; its contract is carried by `Vocabulary.VocabularySpec` and `Vocabulary.VocabularyWordsAreTokens` |
| Vocabulary.DedupSpec | server.ts:56 | the deduplicated list has exactly the input's elements, no duplicates, in order of first occurrence |
| Vocabulary.VocabularySpec | server.ts:53-57 | the vocabulary is duplicate-free; a word is in it exactly when it is a token of some knowledge-base snippet; words appear in order of first occurrence in the corpus |
| Vocabulary.VocabularyWordsAreTokens | server.ts:53-57 | every vocabulary word is a non-empty lower-case run of word characters |
| Vocabulary.IndexMap | server.ts:60 | `vocabularyIndexMap`; its contract is carried by `Vocabulary.IndexMapInverse` and `Vocabulary.IndexMapPositions` |
| Vocabulary.IndexMapInverse | server.ts:60 | the index map's keys are exactly the vocabulary words and `vocabulary[map[w]] == w` |
| Vocabulary.IndexMapPositions | server.ts:60 | for a duplicate-free vocabulary, `map[vocabulary[i]] == i` for every position |
| Vectorizer.TextToVector | server.ts:62-71 | the vector has the vocabulary's length, and entry `i` is the number of occurrences of `vocabulary[i]` among the text's tokens |
| Vectorizer.TermVector | server.ts:62-71 | the term-count vector `textToVector` returns; `Vectorizer.TextToVector` proves the loop equal to it, and `Vectorizer.ZeroVectorIffNoOverlap` and `Vectorizer.TermVectorTotal` state its properties |
| Vectorizer.ZeroVectorIffNoOverlap | server.ts:65-69 | the vector is all zeros exactly when no token of the text is a vocabulary word |
| Vectorizer.EmptyTextIsZero | server.ts:63-64 | the empty text gives the all-zero vector of vocabulary length |
| Vectorizer.TermVectorTotal | server.ts:65-69 | the entries add up to the number of the text's tokens that are vocabulary words: out-of-vocabulary tokens are ignored, the others counted once |
| Vectorizer.BuildVectorDatabase | server.ts:73-80 | every agent has an entry; each agent's rows pair its snippets, in order and one for one, with their term vectors |
| Similarity.CosineSquared | server.ts:82-88 | the square of `cosineSimilarity`; its contract is carried by `Similarity.CosineBounds`, `Similarity.CosineSymmetric`, `Similarity.CosineSelf` and `Similarity.CosineOfZero` |
| Similarity.NormZeroIffAllZero | server.ts:84-86 | the magnitude is zero exactly for the all-zero vector |
| Similarity.CosineOfZero | server.ts:86 | the similarity is 0 when either vector is all zeros |
| Similarity.CosineSymmetric | server.ts:82-88 | the similarity is symmetric |
| Similarity.CosineSelf | server.ts:82-88 | a non-zero vector has similarity 1 with itself |
| Similarity.CauchySchwarz | server.ts:83-85 | the squared dot product is at most the product of the squared magnitudes |
| Similarity.CosineBounds | server.ts:82-88 | the similarity of count vectors lies in [0, 1] |
| Retrieval.SortByScore | server.ts:141 | the stable descending sort; its contract is carried by `Retrieval.SortByScoreSpec` |
| Retrieval.SortByScoreSpec | server.ts:141 | the sort yields non-increasing scores, is a permutation, and keeps snippets of equal score in their original order |
| Retrieval.InsertInPlace | server.ts:141 | one insertion step in place: the array becomes its sorted prefix with the next element inserted stably, followed by the untouched rest |
| Retrieval.SortByScoreInPlace | server.ts:141 | the in-place sort leaves the array equal to the stable descending sort of its old contents |
| Retrieval.WithScoreFilter | server.ts:144 | the threshold filter keeps every snippet of a score above the threshold, in order, and drops every other one |
| Retrieval.RelevantSpec | server.ts:141-144 | the sorted, filtered list holds exactly the snippets scoring above 0.2, in non-increasing score order, ties in knowledge-base order |
| Retrieval.RankedBoundsAndOrder | server.ts:143-146 | at most three results, each a scored snippet of the agent above the threshold, in non-increasing score order |
| Retrieval.RankedTiesInOrder | server.ts:141-145 | among results of equal score, the order is the knowledge-base order, and they are the first snippets of that score |
| Retrieval.RankedComplete | server.ts:141-146 | a snippet above the threshold that is left out means there are exactly three results, each scoring at least as high |
| Retrieval.RetrieveFromEntries | server.ts:143-146 | at most three texts are returned, each the text of one of the agent's rows |
| Retrieval.RetrieveNoOverlap | server.ts:133-146 | an all-zero query vector retrieves nothing |
| Retrieval.Retrieve | server.ts:141-146 | the texts `retrieveContext` returns; its contract is carried by `Retrieval.RankedBoundsAndOrder`, `Retrieval.RankedTiesInOrder`, `Retrieval.RankedComplete`, `Retrieval.RetrieveFromEntries` and `Retrieval.RetrieveNoOverlap` |
| Retrieval.RetrieveContext | server.ts:129-147 | vectorising the query, scoring the agent's rows, sorting in place, filtering and taking three gives the specified retrieval result |
| Agents.KnowledgeBaseSnippets | server.ts:14-51 | `Agents.KNOWLEDGE_BASE` is the snippet table copied verbatim, agent by agent in key order; the lemma states that every agent has snippets, nine for billing, seven for safety, five for lost & found and six for general inquiries |
| Agents.SystemInstruction | server.ts:90-95 | the four persona instructions, copied verbatim; no contract beyond the definition, because the generation call that consumes the persona is an opaque input of `Chat.HandleChat` |
| Routing.RoutingPrompt | server.ts:114 | the prompt of the classification call, copied verbatim from its template |
| Routing.RoutingPromptQuotesQuery | server.ts:114 | the prompt holds the whole query between the fixed prefix and the closing quote, so distinct queries give distinct prompts; what the classification call does with the prompt is an opaque input of `Chat.HandleChat` |
| Routing.AgentFor | server.ts:117-126 | the function-name switch; its contract is carried by `Routing.AgentForSpec` and `Routing.AgentForToolName` |
| Routing.AgentForSpec | server.ts:117-126 | `selectBillingAgent`, `selectSafetyAgent` and `selectLostAndFoundAgent` pick their agents exactly; every other name, and no call at all, picks the general agent |
| Routing.AgentForToolName | server.ts:100-124 | calling the function declared for an agent routes to that agent |
| Chat.BuildContext | server.ts:178 | the context string; its contract is carried by `Chat.ContextLayout` |
| Chat.AugmentedQuery | server.ts:150 | the prompt string; its contract is carried by `Chat.PromptLayout` |
| Chat.ContextLayout | server.ts:178 | the context is empty exactly when there are no sources; otherwise, for sources without line breaks, its lines are `CONTEXT:` and one `- ` line per source, in order |
| Chat.PromptLayout | server.ts:150 | for sources without line breaks and any query, line breaks included, the prompt's lines are the context's lines (one empty line without context), an empty line, `USER QUERY: ` followed by the query's first line, and then the query's further lines |
| Chat.HandleChat | server.ts:162-194 | the endpoint's answer; its contract is carried by `Chat.RejectsExactlyFalsyQueries`, `Chat.FalsyQueryMakesNoCalls`, `Chat.AnswersExactlyWhenCallsReturn`, `Chat.AnswerSpec` and `Chat.ServerErrorSpec` |
| Chat.RejectsExactlyFalsyQueries | server.ts:164-167 | the answer is 400 "Query is required" exactly when the query is missing or empty |
| Chat.FalsyQueryMakesNoCalls | server.ts:165-172 | for a missing or empty query the answer does not depend on either model call or on the clock |
| Chat.ServeRetrieval | server.ts:59-80 | building the vocabulary, its index map and the vector database from the knowledge base, then running `retrieveContext` for a request, gives exactly the sources `Chat.RetrieveFor` states, which the endpoint uses |
| Chat.RetrieveForSpec | server.ts:175 | at most three sources, each a snippet of the routed agent, and none for a query sharing no word with the vocabulary |
| Chat.AnswersExactlyWhenCallsReturn | server.ts:164-188 | the endpoint answers exactly when the query is present and non-empty, the routing call returns, and the generation call returns for the routed agent's persona and the prompt built from that agent's sources |
| Chat.AnswerSpec | server.ts:169-188 | a successful answer carries the routed agent, the sources retrieved for that agent and query, the text generated from that agent's persona and the prompt built from those sources, and the latency |
| Chat.ServerErrorSpec | server.ts:162-193 | the answer is 500 "Failed to process your request." exactly when the query is present and the routing call or the generation call threw |
| Dashboard.HandleEvaluation | index.tsx:68-74 | length and order are kept; every message with the id gets the rating; every other message is unchanged; no field other than the rating changes |
| Dashboard.LastRatingWins | index.tsx:68-74 | rating the same id twice is the same as rating it once with the second rating |
| Dashboard.RatingsCommute | index.tsx:68-74 | ratings of different ids commute |
| Dashboard.RatingKeepsFilters | index.tsx:251-253 | rating leaves the replies and the queries in place (up to the rating) and never shrinks the rated replies |
| Dashboard.CopilotMessages | index.tsx:251 | the replies; its contract is carried by `Dashboard.FiltersSpec` |
| Dashboard.UserMessages | index.tsx:252 | the queries; its contract is carried by `Dashboard.FiltersSpec` |
| Dashboard.EvaluatedMessages | index.tsx:253 | the rated replies; its contract is carried by `Dashboard.FiltersSpec` and `Dashboard.RatingKeepsFilters` |
| Dashboard.GoodRatings | index.tsx:254 | the number of good ratings; its contract is carried by `Dashboard.FiltersSpec` |
| Dashboard.FiltersSpec | index.tsx:251-254 | replies are exactly the assistant's messages other than the greeting; queries are the user's messages; rated replies are replies with a rating; good ratings ≤ rated replies ≤ replies |
| Dashboard.Percentage | index.tsx:256 | a share in percent lies in [0, 100], is 0 for an empty whole, and times the whole equals a hundred times the part |
| Dashboard.Satisfaction | index.tsx:256 | the satisfaction figure; its contract is carried by `Dashboard.SatisfactionSpec`, `Dashboard.AllGoodIsFull` and `Dashboard.Percentage` |
| Dashboard.SatisfactionSpec | index.tsx:256 | satisfaction lies in [0, 100] and is 0 when no reply is rated |
| Dashboard.AllGoodIsFull | index.tsx:254-256 | satisfaction is 100 when every rated reply is rated good |
| Dashboard.TotalLatency | index.tsx:258 | the latency total; its contract is carried by `Dashboard.TotalLatencySpec` |
| Dashboard.TotalLatencySpec | index.tsx:258 | replies without a latency add nothing to the total, and the total is additive over appended messages |
| Dashboard.AverageResponseTime | index.tsx:259 | the average is 0 without replies; otherwise, times the number of replies, it is the total latency |
| Dashboard.TallyOf | index.tsx:268-277 | one agent's tally over the replies; its contract is carried by `Dashboard.TallyBalanced`, `Dashboard.TallySums` and `Dashboard.TallyAgreesWithRatings` |
| Dashboard.AgentPerformance | index.tsx:261-277 | every agent has an entry, and each entry is that agent's tally over the replies in log order |
| Dashboard.TallyBalanced | index.tsx:268-276 | for every agent, good plus bad equals total |
| Dashboard.TallySums | index.tsx:268-277 | the totals of the four agents add up to the number of replies with an agent and a rating, and the goods to those rated good |
| Dashboard.TallyAgreesWithRatings | index.tsx:253-277 | tally totals never exceed the rated replies and tally goods never exceed the good ratings; the totals equal the rated replies when every reply names its agent |
| Dashboard.ExchangeStarts | index.tsx:279-286 | the collected positions increase strictly, and each is a user message directly followed by an assistant message |
| Dashboard.ExchangeStartsComplete | index.tsx:279-286 | every such position is collected |
| Dashboard.RecentStarts | index.tsx:287 | at most five exchanges are listed, each a user message directly followed by an assistant message |
| Dashboard.RecentStartsDescending | index.tsx:287 | the listed exchanges are newest first |
| Dashboard.RecentStartsComplete | index.tsx:287 | an exchange that is not listed is older than each of exactly five listed ones |
| Dashboard.PairAt | index.tsx:281-284 | an exchange pairs a user query with the assistant reply right after it |
| Dashboard.ExchangesAt | index.tsx:279-287 | one exchange per start position, in the same order, each the query at that position and the reply after it |
| Dashboard.RecentQueries | index.tsx:279-287 | the method's result pairs each listed position's query with the reply that follows it, in the listed order |

## Left out

- The hosted-model calls (`server.ts:109-116`, `151-156`) are remote and not deterministic. They are inputs of `Chat.HandleChat`: a routing answer (`Option<string>`) or a throw, and a generated text or a throw.
- Express, CORS, JSON parsing, `app.listen` and the catch block's `console.error` log line (`server.ts:191`) are transport and logging only (`server.ts:1-9`, `197-199`). The catch block is modelled only for throws of the two model calls. No other stage of the model can throw.
- Latency comes from `Date.now()` (`server.ts:169`, `181`) and is an input natural number.
- Floating point is not modelled: `Math.sqrt` and rounding in `cosineSimilarity`, and the satisfaction and average-time divisions with their `toFixed` display. Scores are exact squared similarities; percentages and averages are exact reals.
- Unicode lowercasing beyond ASCII is not modelled: `toLowerCase` is modelled on ASCII letters only. The model therefore does not capture characters such as U+0130 or the Kelvin sign, which lowercase to ASCII word characters in JavaScript.
- A query body that is truthy but not a string (a number, an object) is not modelled; the query is a present or absent string.
- A generated reply whose `text` is undefined is not modelled; the generated text is a string.
- The "ensure agent exists" branch of the tally (`index.tsx:270-272`) is not modelled. Agents form a closed type and all four start in the tally, so that branch cannot run.
- Rendering, refs, scrolling, the `setTimeout` flow animation, `fetch` and the message appends of `handleSubmit` (`index.tsx:76-141`) are not modelled, and neither is the `ReactDOM` mount.
- Dashboard.SatisfactionSpec: does not restate the ratio good / rated × 100 for the satisfaction figure itself; that ratio is proved for `Dashboard.Percentage`, which satisfaction applies to the good-rating and rated-reply counts.
