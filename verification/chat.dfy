/** The `/api/chat` endpoint (server.ts): validate the query, then route,
    retrieve and generate, in that order.

    The two calls into the hosted language model are inputs: `classify` answers
    the routing prompt with the name of the function it chose (or none), and
    `generate` answers a persona instruction and a prompt with text; either may
    throw. The measured latency is an input too. */
module Chat {
  import opened Wrappers
  import opened Seqs
  import opened Tokenizer
  import opened Agents
  import opened Vocabulary
  import opened Vectorizer
  import opened Similarity
  import opened Retrieval
  import opened Routing

  const CONTEXT_HEADER: string := "CONTEXT:\n- "
  const SOURCE_SEPARATOR: string := "\n- "
  const QUERY_MARKER: string := "\n\nUSER QUERY: "
  const QUERY_REQUIRED: string := "Query is required"
  const PROCESSING_FAILED: string := "Failed to process your request."

  /** The context block: empty without sources, otherwise a header and one bullet per source. */
  function BuildContext(sources: seq<string>): string
  {
    if |sources| > 0 then CONTEXT_HEADER + Join(sources, SOURCE_SEPARATOR) else ""
  }

  /** `augmentedQuery`: the context block, then the user's query. */
  function AugmentedQuery(context: string, query: string): string
  {
    context + QUERY_MARKER + query
  }

  /** The lines of `s`: the pieces between line breaks, used to state the layout
      of the prompt. */
  function Lines(s: string): (r: seq<string>)
    ensures |r| >= 1
    decreases |s|
  {
    if s == [] then [[]]
    else if s[0] == '\n' then [[]] + Lines(s[1..])
    else
      var rest := Lines(s[1..]);
      [[s[0]] + rest[0]] + rest[1..]
  }

  lemma {:induction false} LinesOfJoined(a: string, b: string)
    ensures Lines(a + "\n" + b) == Lines(a) + Lines(b)
    decreases |a|
  {
    if a == [] {
      assert (a + "\n" + b)[1..] == b;
    } else {
      assert (a + "\n" + b)[1..] == a[1..] + "\n" + b;
      LinesOfJoined(a[1..], b);
    }
  }

  lemma {:induction false} LinesOfLine(a: string)
    requires '\n' !in a
    ensures Lines(a) == [a]
    decreases |a|
  {
    if a != [] {
      assert a[0] != '\n' by { assert a[0] in a; }
      assert forall c :: c in a[1..] ==> c in a;
      LinesOfLine(a[1..]);
      assert a == [a[0]] + a[1..];
    }
  }

  /** A prefix without line breaks joins the first line of what follows it. */
  lemma {:induction false} LinesOfPrefix(p: string, q: string)
    requires '\n' !in p
    ensures Lines(p + q) == [p + Lines(q)[0]] + Lines(q)[1..]
    decreases |p|
  {
    if p != [] {
      assert p[0] != '\n' by { assert p[0] in p; }
      assert forall c :: c in p[1..] ==> c in p;
      assert (p + q)[1..] == p[1..] + q;
      LinesOfPrefix(p[1..], q);
      assert [p[0]] + (p[1..] + Lines(q)[0]) == p + Lines(q)[0];
    } else {
      assert p + q == q && p + Lines(q)[0] == Lines(q)[0];
      assert Lines(q) == [Lines(q)[0]] + Lines(q)[1..];
    }
  }

  /** One line per source, each marked as a list item. */
  function Bullets(sources: seq<string>): seq<string>
  {
    seq(|sources|, i requires 0 <= i < |sources| => "- " + sources[i])
  }

  /** A string without line breaks. */
  predicate IsLine(s: string)
  {
    '\n' !in s
  }

  lemma {:induction false} BulletLines(sources: seq<string>)
    requires sources != [] && forall i :: 0 <= i < |sources| ==> IsLine(sources[i])
    ensures Lines("- " + Join(sources, SOURCE_SEPARATOR)) == Bullets(sources)
    decreases |sources|
  {
    if |sources| == 1 {
      LinesOfLine("- " + sources[0]);
    } else {
      var rest := sources[1..];
      assert "- " + Join(sources, SOURCE_SEPARATOR)
          == ("- " + sources[0]) + "\n" + ("- " + Join(rest, SOURCE_SEPARATOR));
      LinesOfJoined("- " + sources[0], "- " + Join(rest, SOURCE_SEPARATOR));
      LinesOfLine("- " + sources[0]);
      BulletLines(rest);
      assert Bullets(sources) == ["- " + sources[0]] + Bullets(rest);
    }
  }

  /** The context is empty exactly when there are no sources; otherwise, when no
      source spans more than one line, read line by line it is the `CONTEXT:`
      header followed by one `- ` item per source, in retrieval order. */
  lemma ContextLayout(sources: seq<string>)
    ensures BuildContext(sources) == "" <==> sources == []
    ensures sources != [] && (forall i :: 0 <= i < |sources| ==> IsLine(sources[i])) ==>
      Lines(BuildContext(sources)) == ["CONTEXT:"] + Bullets(sources)
  {
    if sources != [] {
      assert BuildContext(sources) == "CONTEXT:" + "\n" + ("- " + Join(sources, SOURCE_SEPARATOR));
      assert |BuildContext(sources)| > 0;
      if forall i :: 0 <= i < |sources| ==> IsLine(sources[i]) {
        LinesOfJoined("CONTEXT:", "- " + Join(sources, SOURCE_SEPARATOR));
        LinesOfLine("CONTEXT:");
        BulletLines(sources);
      }
    }
  }

  /** Read line by line, the prompt is the context block (a single empty line when
      there is no context), an empty line, and the `USER QUERY:` line carrying the
      query's first line, followed by the query's further lines. */
  lemma PromptLayout(sources: seq<string>, query: string)
    requires forall i :: 0 <= i < |sources| ==> IsLine(sources[i])
    ensures Lines(AugmentedQuery(BuildContext(sources), query)) ==
      (if sources == [] then [""] else ["CONTEXT:"] + Bullets(sources))
      + ["", "USER QUERY: " + Lines(query)[0]] + Lines(query)[1..]
  {
    var context := BuildContext(sources);
    ContextLayout(sources);
    QueryLines(context, query);
    if sources == [] {
      assert Lines(context) == [""];
    }
  }

  lemma QueryLines(context: string, query: string)
    ensures Lines(AugmentedQuery(context, query)) ==
      Lines(context) + ["", "USER QUERY: " + Lines(query)[0]] + Lines(query)[1..]
  {
    var tail := "USER QUERY: " + query;
    var rest := "" + "\n" + tail;
    assert QUERY_MARKER + query == "\n" + rest;
    assert AugmentedQuery(context, query) == context + "\n" + rest;
    LinesOfJoined(context, rest);
    LinesOfJoined("", tail);
    assert '\n' !in "USER QUERY: ";
    LinesOfPrefix("USER QUERY: ", query);
  }

  /** `retrieveContext(agent, query)` against the tables built from `kb`. */
  function RetrieveFor(kb: KnowledgeBase, agent: Agent, query: string): seq<string>
  {
    var vocab := CreateVocabulary(kb);
    Retrieve(EntriesOf(vocab, kb.Docs(agent)), TermVector(vocab, query))
  }

  /** The server's own path to the sources of a request: at start-up the vocabulary,
      its index map and the vector database are built from `kb`, and the request
      runs `retrieveContext` against them. It gives what the endpoint retrieves. */
  method ServeRetrieval(kb: KnowledgeBase, agent: Agent, query: string) returns (sources: seq<string>)
    ensures sources == RetrieveFor(kb, agent, query)
  {
    var vocab := CreateVocabulary(kb);
    VocabularySpec(kb);
    var index := IndexMap(vocab);
    var db := BuildVectorDatabase(kb, vocab, index);
    sources := RetrieveContext(db, vocab, index, agent, query);
  }

  /** The JSON answer of the endpoint. */
  datatype Response =
    | Answer(text: string, sources: seq<string>, agent: Agent, latency: nat)
    | Error(status: nat, error: string)

  /** `!query`: the body has no query, or an empty one. */
  predicate IsFalsy(query: Option<string>)
  {
    query.None? || query.value == ""
  }

  /** The endpoint as a decision: reject a falsy query before any call; otherwise
      route, retrieve for the routed agent, build the prompt from the retrieved
      sources and generate with that agent's persona. A throwing call ends in the
      generic server error. */
  function HandleChat(kb: KnowledgeBase, query: Option<string>,
                      classify: string -> Call<Option<string>>,
                      generate: (string, string) -> Call<string>,
                      latency: nat): Response
  {
    if IsFalsy(query) then Error(400, QUERY_REQUIRED)
    else
      var q := query.value;
      match classify(RoutingPrompt(q))
      case Threw => Error(500, PROCESSING_FAILED)
      case Returned(functionCall) =>
        var agent := AgentFor(functionCall);
        var sources := RetrieveFor(kb, agent, q);
        match generate(SystemInstruction(agent), AugmentedQuery(BuildContext(sources), q))
        case Threw => Error(500, PROCESSING_FAILED)
        case Returned(text) => Answer(text, sources, agent, latency)
  }

  /** A falsy query, and only a falsy query, is answered with 400 "Query is required". */
  lemma RejectsExactlyFalsyQueries(kb: KnowledgeBase, query: Option<string>,
                                   classify: string -> Call<Option<string>>,
                                   generate: (string, string) -> Call<string>, latency: nat)
    ensures HandleChat(kb, query, classify, generate, latency) == Error(400, QUERY_REQUIRED) <==> IsFalsy(query)
  {
  }

  /** A falsy query is rejected before any stage runs: the answer does not depend on
      what either model call would have done. */
  lemma FalsyQueryMakesNoCalls(kb: KnowledgeBase, query: Option<string>,
                               classify: string -> Call<Option<string>>, generate: (string, string) -> Call<string>,
                               classify': string -> Call<Option<string>>, generate': (string, string) -> Call<string>,
                               latency: nat, latency': nat)
    requires IsFalsy(query)
    ensures HandleChat(kb, query, classify, generate, latency) == HandleChat(kb, query, classify', generate', latency')
  {
  }

  /** Every retrieved source is a snippet of the agent's knowledge base, there are at
      most three, and a query sharing no word with the vocabulary retrieves none. */
  lemma RetrieveForSpec(kb: KnowledgeBase, agent: Agent, query: string)
    ensures |RetrieveFor(kb, agent, query)| <= TOP_K
    ensures forall s :: s in RetrieveFor(kb, agent, query) ==> s in kb.Docs(agent)
    ensures (forall t :: t in Tokens(query) ==> t !in CreateVocabulary(kb)) ==> RetrieveFor(kb, agent, query) == []
  {
    var vocab := CreateVocabulary(kb);
    var docs := kb.Docs(agent);
    var entries := EntriesOf(vocab, docs);
    var queryVector := TermVector(vocab, query);
    RetrieveFromEntries(entries, queryVector);
    forall s | s in RetrieveFor(kb, agent, query)
      ensures s in docs
    {
      var i :| 0 <= i < |entries| && entries[i].text == s;
      assert docs[i] == s;
    }
    ZeroVectorIffNoOverlap(vocab, query);
    if AllZero(queryVector) {
      RetrieveNoOverlap(entries, queryVector);
    }
  }

  /** A successful answer comes from a truthy query whose two model calls returned:
      its agent is the one the routing call picked, its sources are what retrieval
      gives for that agent and query, and its text is what the generation call
      returned for that agent's persona and the prompt built from those sources. */
  lemma AnswerSpec(kb: KnowledgeBase, query: Option<string>,
                   classify: string -> Call<Option<string>>,
                   generate: (string, string) -> Call<string>, latency: nat)
    ensures var r := HandleChat(kb, query, classify, generate, latency);
      r.Answer? ==>
        !IsFalsy(query) && classify(RoutingPrompt(query.value)).Returned? &&
        var agent := AgentFor(classify(RoutingPrompt(query.value)).value);
        r.agent == agent && r.sources == RetrieveFor(kb, agent, query.value) &&
        generate(SystemInstruction(agent), AugmentedQuery(BuildContext(r.sources), query.value)) == Returned(r.text) &&
        r.latency == latency
  {
    if !IsFalsy(query) {
      var call := classify(RoutingPrompt(query.value));
      if call.Returned? {
        var agent := AgentFor(call.value);
        var sources := RetrieveFor(kb, agent, query.value);
        assert HandleChat(kb, query, classify, generate, latency) ==
          match generate(SystemInstruction(agent), AugmentedQuery(BuildContext(sources), query.value))
          case Threw => Error(500, PROCESSING_FAILED)
          case Returned(text) => Answer(text, sources, agent, latency);
      }
    }
  }

  /** A truthy query whose two model calls both return is answered, and nothing else is. */
  lemma AnswersExactlyWhenCallsReturn(kb: KnowledgeBase, query: Option<string>,
                                      classify: string -> Call<Option<string>>,
                                      generate: (string, string) -> Call<string>, latency: nat)
    ensures HandleChat(kb, query, classify, generate, latency).Answer? <==>
      !IsFalsy(query) &&
      classify(RoutingPrompt(query.value)).Returned? &&
      generate(SystemInstruction(AgentFor(classify(RoutingPrompt(query.value)).value)),
               AugmentedQuery(BuildContext(RetrieveFor(kb, AgentFor(classify(RoutingPrompt(query.value)).value), query.value)),
                              query.value)).Returned?
  {
  }

  /** The generic server error is the answer exactly when the query is truthy and one
      of the two model calls threw. */
  lemma ServerErrorSpec(kb: KnowledgeBase, query: Option<string>,
                        classify: string -> Call<Option<string>>,
                        generate: (string, string) -> Call<string>, latency: nat)
    ensures HandleChat(kb, query, classify, generate, latency) == Error(500, PROCESSING_FAILED) <==>
      !IsFalsy(query) &&
      (classify(RoutingPrompt(query.value)).Threw? ||
       generate(SystemInstruction(AgentFor(classify(RoutingPrompt(query.value)).value)),
                AugmentedQuery(BuildContext(RetrieveFor(kb, AgentFor(classify(RoutingPrompt(query.value)).value), query.value)),
                               query.value)).Threw?)
  {
  }
}
