/** Term-count vectors over the vocabulary, and the per-agent table of
    pre-vectorised snippets (server.ts, textToVector and VECTOR_DATABASE). */
module Vectorizer {
  import opened Seqs
  import opened Tokenizer
  import opened Agents
  import opened Vocabulary
  import opened Similarity

  /** Position i holds how often the i-th vocabulary word occurs among `tokens`. */
  function CountVector(vocab: seq<string>, tokens: seq<string>): seq<nat>
  {
    seq(|vocab|, i requires 0 <= i < |vocab| => Count(tokens, vocab[i]))
  }

  /** The term-count vector of a text. */
  function TermVector(vocab: seq<string>, text: string): seq<nat>
  {
    CountVector(vocab, Tokens(text))
  }

  /** `textToVector`: allocate a zero vector of vocabulary length, then add one at
      the index of every token the index map knows. */
  method TextToVector(vocab: seq<string>, index: map<string, nat>, text: string) returns (vector: seq<nat>)
    requires NoDup(vocab) && index == IndexMap(vocab)
    ensures |vector| == |vocab|
    ensures forall i :: 0 <= i < |vocab| ==> vector[i] == Count(Tokens(text), vocab[i])
  {
    IndexMapInverse(vocab);
    IndexMapPositions(vocab);
    var counts := new nat[|vocab|](_ => 0);
    var tokens := Tokens(text);
    for k := 0 to |tokens|
      invariant forall i :: 0 <= i < counts.Length ==> counts[i] == Count(tokens[..k], vocab[i])
    {
      var token := tokens[k];
      assert tokens[..k + 1][..k] == tokens[..k];
      if token in index {
        counts[index[token]] := counts[index[token]] + 1;
      }
    }
    assert tokens[..|tokens|] == tokens;
    vector := counts[..];
  }

  /** A text's vector is all zeros exactly when none of its tokens is a vocabulary
      word: out-of-vocabulary tokens contribute nothing. */
  lemma ZeroVectorIffNoOverlap(vocab: seq<string>, text: string)
    ensures AllZero(TermVector(vocab, text)) <==> forall t :: t in Tokens(text) ==> t !in vocab
  {
    var v := TermVector(vocab, text);
    forall i | 0 <= i < |vocab|
      ensures v[i] == 0 <==> vocab[i] !in Tokens(text)
    {
      CountPositive(Tokens(text), vocab[i]);
    }
    if !AllZero(v) {
      var i :| 0 <= i < |v| && v[i] != 0;
      assert vocab[i] in Tokens(text);
    }
  }

  /** The empty text gives the zero vector. */
  lemma EmptyTextIsZero(vocab: seq<string>)
    ensures |TermVector(vocab, "")| == |vocab| && AllZero(TermVector(vocab, ""))
  {
    TokensOfEmpty();
  }

  /** Sum of the entries of a vector. */
  function Sum(v: seq<nat>): nat
  {
    if v == [] then 0 else v[0] + Sum(v[1..])
  }

  /** Number of tokens that are vocabulary words. */
  function InVocabulary(tokens: seq<string>, vocab: seq<string>): nat
  {
    if tokens == [] then 0
    else InVocabulary(tokens[..|tokens| - 1], vocab) + (if tokens[|tokens| - 1] in vocab then 1 else 0)
  }

  lemma {:induction false} SumIncrement(v: seq<nat>, k: nat)
    requires k < |v|
    ensures Sum(v[k := v[k] + 1]) == Sum(v) + 1
  {
    if k > 0 {
      assert v[k := v[k] + 1][1..] == v[1..][k - 1 := v[k] + 1];
      SumIncrement(v[1..], k - 1);
    }
  }

  /** Every in-vocabulary token is counted exactly once: the entries of a text's
      vector add up to the number of its tokens that are vocabulary words. */
  lemma {:induction false} CountVectorTotal(vocab: seq<string>, tokens: seq<string>)
    requires NoDup(vocab)
    ensures Sum(CountVector(vocab, tokens)) == InVocabulary(tokens, vocab)
    decreases |tokens|
  {
    if tokens == [] {
      ZeroSum(CountVector(vocab, tokens));
    } else {
      var init, t := tokens[..|tokens| - 1], tokens[|tokens| - 1];
      CountVectorTotal(vocab, init);
      if t in vocab {
        var k :| 0 <= k < |vocab| && vocab[k] == t;
        assert CountVector(vocab, tokens) == CountVector(vocab, init)[k := Count(init, t) + 1];
        SumIncrement(CountVector(vocab, init), k);
      } else {
        assert CountVector(vocab, tokens) == CountVector(vocab, init);
      }
    }
  }

  lemma {:induction false} ZeroSum(v: seq<nat>)
    requires AllZero(v)
    ensures Sum(v) == 0
  {
    if v != [] {
      ZeroSum(v[1..]);
    }
  }

  /** For a duplicate-free vocabulary the vector's entries add up to the number of
      the text's tokens that are in the vocabulary. */
  lemma TermVectorTotal(vocab: seq<string>, text: string)
    requires NoDup(vocab)
    ensures Sum(TermVector(vocab, text)) == InVocabulary(Tokens(text), vocab)
  {
    CountVectorTotal(vocab, Tokens(text));
  }

  /** One row of the vector table. */
  datatype Entry = Entry(text: string, vector: seq<nat>)

  /** The rows for one agent: every snippet with its term vector, in snippet order. */
  function EntriesOf(vocab: seq<string>, docs: seq<string>): (rows: seq<Entry>)
    ensures forall i :: 0 <= i < |rows| ==> |rows[i].vector| == |vocab|
  {
    seq(|docs|, i requires 0 <= i < |docs| => Entry(docs[i], TermVector(vocab, docs[i])))
  }

  /** The table is fit for lookups: every agent has rows and every vector has the
      vocabulary's length. */
  predicate WellFormedDatabase(db: map<Agent, seq<Entry>>, vocab: seq<string>)
  {
    (forall a: Agent :: a in db) &&
    forall a, i :: a in db && 0 <= i < |db[a]| ==> |db[a][i].vector| == |vocab|
  }

  /** `VECTOR_DATABASE`: an accumulator record, filled agent by agent in key order,
      each agent's row list built by vectorising its snippets in order. */
  method BuildVectorDatabase(kb: KnowledgeBase, vocab: seq<string>, index: map<string, nat>)
    returns (db: map<Agent, seq<Entry>>)
    requires NoDup(vocab) && index == IndexMap(vocab)
    ensures WellFormedDatabase(db, vocab)
    ensures forall a: Agent :: a in db && db[a] == EntriesOf(vocab, kb.Docs(a))
    ensures forall a: Agent, i :: 0 <= i < |kb.Docs(a)| ==>
      |db[a]| == |kb.Docs(a)| && db[a][i].text == kb.Docs(a)[i] && db[a][i].vector == TermVector(vocab, kb.Docs(a)[i])
  {
    db := map[];
    for j := 0 to |AGENT_ORDER|
      invariant forall a :: a in db <==> a in AGENT_ORDER[..j]
      invariant forall a :: a in db ==> db[a] == EntriesOf(vocab, kb.Docs(a))
    {
      var agent := AGENT_ORDER[j];
      var docs := kb.Docs(agent);
      var rows: seq<Entry> := [];
      for i := 0 to |docs|
        invariant rows == EntriesOf(vocab, docs[..i])
      {
        var vector := TextToVector(vocab, index, docs[i]);
        assert vector == TermVector(vocab, docs[i]);
        rows := rows + [Entry(docs[i], vector)];
      }
      assert docs[..|docs|] == docs;
      db := db[agent := rows];
    }
    AgentOrderComplete();
    assert AGENT_ORDER[..|AGENT_ORDER|] == AGENT_ORDER;
  }
}
