/** The retrieve stage (server.ts, retrieveContext): score every snippet of the
    routed agent against the query, sort by descending score with a stable sort,
    keep the snippets scoring above 0.2 and return the texts of the first three. */
module Retrieval {
  import opened Seqs
  import opened Agents
  import opened Vocabulary
  import opened Vectorizer
  import opened Similarity

  /** `SIMILARITY_THRESHOLD = 0.2`, squared (scores are squared similarities). */
  const SIMILARITY_THRESHOLD_SQUARED: real := 1.0 / 25.0

  /** `TOP_K = 3`. */
  const TOP_K: nat := 3

  /** A snippet with its score; `score` is the squared cosine similarity. */
  datatype Scored = Scored(text: string, score: real)

  /** `agentKnowledge.map(doc => ({ text, score: cosineSimilarity(queryVector, doc.vector) }))`. */
  function ScoreAll(entries: seq<Entry>, queryVector: seq<nat>): seq<Scored>
    requires forall i :: 0 <= i < |entries| ==> |entries[i].vector| == |queryVector|
  {
    seq(|entries|, i requires 0 <= i < |entries| =>
      Scored(entries[i].text, CosineSquared(queryVector, entries[i].vector)))
  }

  /** Non-increasing scores. */
  predicate SortedByScore(s: seq<Scored>)
  {
    forall i, j :: 0 <= i < j < |s| ==> s[i].score >= s[j].score
  }

  /** Places `x` after every trailing element of `s` that scores at least as high:
      one step of a stable sort by descending score. */
  function Insert(s: seq<Scored>, x: Scored): (r: seq<Scored>)
    ensures |r| == |s| + 1
  {
    if s == [] || s[|s| - 1].score >= x.score then s + [x]
    else Insert(s[..|s| - 1], x) + [s[|s| - 1]]
  }

  /** `scoredDocs.sort((a, b) => b.score - a.score)`; the sort is stable. */
  function SortByScore(s: seq<Scored>): (r: seq<Scored>)
    ensures |r| == |s|
  {
    if s == [] then [] else Insert(SortByScore(s[..|s| - 1]), s[|s| - 1])
  }

  /** The elements of `s` whose score is `v`, in order. */
  function WithScore(s: seq<Scored>, v: real): seq<Scored>
  {
    if s == [] then [] else (if s[0].score == v then [s[0]] else []) + WithScore(s[1..], v)
  }

  lemma {:induction false} WithScoreAppend(a: seq<Scored>, b: seq<Scored>, v: real)
    ensures WithScore(a + b, v) == WithScore(a, v) + WithScore(b, v)
  {
    if a == [] {
      assert a + b == b;
    } else {
      var head := if a[0].score == v then [a[0]] else [];
      assert (a + b)[0] == a[0];
      assert (a + b)[1..] == a[1..] + b;
      assert WithScore(a + b, v) == head + WithScore(a[1..] + b, v);
      assert WithScore(a, v) == head + WithScore(a[1..], v);
      WithScoreAppend(a[1..], b, v);
    }
  }

  lemma {:induction false} InsertPermutes(s: seq<Scored>, x: Scored)
    ensures multiset(Insert(s, x)) == multiset(s) + multiset{x}
    decreases |s|
  {
    if s != [] && s[|s| - 1].score < x.score {
      var init, y := s[..|s| - 1], s[|s| - 1];
      assert s == init + [y];
      InsertPermutes(init, x);
    }
  }

  /** Inserting keeps a lower bound on the scores. */
  lemma {:induction false} InsertLowerBound(s: seq<Scored>, x: Scored, v: real)
    requires forall i :: 0 <= i < |s| ==> s[i].score >= v
    requires x.score >= v
    ensures forall i :: 0 <= i < |Insert(s, x)| ==> Insert(s, x)[i].score >= v
    decreases |s|
  {
    if s != [] && s[|s| - 1].score < x.score {
      InsertLowerBound(s[..|s| - 1], x, v);
    }
  }

  lemma {:induction false} InsertSorted(s: seq<Scored>, x: Scored)
    requires SortedByScore(s)
    ensures SortedByScore(Insert(s, x))
    decreases |s|
  {
    if s != [] && s[|s| - 1].score < x.score {
      var init, y := s[..|s| - 1], s[|s| - 1];
      InsertSorted(init, x);
      InsertLowerBound(init, x, y.score);
      assert Insert(s, x) == Insert(init, x) + [y];
    }
  }

  lemma {:induction false} InsertStable(s: seq<Scored>, x: Scored)
    ensures forall v :: WithScore(Insert(s, x), v) == WithScore(s, v) + WithScore([x], v)
    decreases |s|
  {
    if s == [] || s[|s| - 1].score >= x.score {
      forall v
        ensures WithScore(Insert(s, x), v) == WithScore(s, v) + WithScore([x], v)
      {
        WithScoreAppend(s, [x], v);
      }
    } else {
      var init, y := s[..|s| - 1], s[|s| - 1];
      assert s == init + [y];
      InsertStable(init, x);
      var r := Insert(init, x);
      forall v
        ensures WithScore(Insert(s, x), v) == WithScore(s, v) + WithScore([x], v)
      {
        WithScoreAppend(r, [y], v);
        WithScoreAppend(init, [y], v);
        // x scores strictly higher than y, so at most one of them has score v
        assert WithScore([x], v) == [] || WithScore([y], v) == [];
      }
    }
  }

  /** Inserting into a sorted sequence keeps it sorted, adds exactly `x`, and puts
      `x` after every element of its own score. */
  lemma InsertSpec(s: seq<Scored>, x: Scored)
    requires SortedByScore(s)
    ensures SortedByScore(Insert(s, x))
    ensures multiset(Insert(s, x)) == multiset(s) + multiset{x}
    ensures forall v :: WithScore(Insert(s, x), v) == WithScore(s, v) + WithScore([x], v)
  {
    InsertSorted(s, x);
    InsertPermutes(s, x);
    InsertStable(s, x);
  }

  /** The sort orders by non-increasing score, is a permutation, and is stable:
      for every score value, the elements having it keep their relative order. */
  lemma {:induction false} SortByScoreSpec(s: seq<Scored>)
    ensures SortedByScore(SortByScore(s))
    ensures multiset(SortByScore(s)) == multiset(s)
    ensures forall v :: WithScore(SortByScore(s), v) == WithScore(s, v)
    decreases |s|
  {
    if s != [] {
      var init, x := s[..|s| - 1], s[|s| - 1];
      assert s == init + [x];
      SortByScoreSpec(init);
      InsertSpec(SortByScore(init), x);
      forall v
        ensures WithScore(SortByScore(s), v) == WithScore(s, v)
      {
        WithScoreAppend(init, [x], v);
      }
    }
  }

  /** `doc.score > SIMILARITY_THRESHOLD`. */
  predicate IsRelevant(d: Scored)
  {
    d.score > SIMILARITY_THRESHOLD_SQUARED
  }

  /** The scored snippets that are returned: sorted, above the threshold, at most `TOP_K`. */
  function Ranked(entries: seq<Entry>, queryVector: seq<nat>): seq<Scored>
    requires forall i :: 0 <= i < |entries| ==> |entries[i].vector| == |queryVector|
  {
    Take(Relevant(entries, queryVector), TOP_K)
  }

  /** `.map(doc => doc.text)`. */
  function Texts(s: seq<Scored>): seq<string>
  {
    seq(|s|, i requires 0 <= i < |s| => s[i].text)
  }

  /** The texts `retrieveContext` returns. */
  function Retrieve(entries: seq<Entry>, queryVector: seq<nat>): seq<string>
    requires forall i :: 0 <= i < |entries| ==> |entries[i].vector| == |queryVector|
  {
    Texts(Ranked(entries, queryVector))
  }

  lemma {:induction false} FilterSorted(s: seq<Scored>)
    requires SortedByScore(s)
    ensures SortedByScore(Filter(s, IsRelevant))
  {
    if s != [] {
      FilterSorted(s[1..]);
      var rest := Filter(s[1..], IsRelevant);
      forall i | 0 <= i < |rest|
        ensures s[0].score >= rest[i].score
      {
        assert rest[i] in s[1..];
      }
    }
  }

  lemma {:induction false} WithScoreFilter(s: seq<Scored>, v: real)
    ensures WithScore(Filter(s, IsRelevant), v) == if v > SIMILARITY_THRESHOLD_SQUARED then WithScore(s, v) else []
  {
    if s != [] {
      WithScoreFilter(s[1..], v);
      WithScoreAppend(if IsRelevant(s[0]) then [s[0]] else [], Filter(s[1..], IsRelevant), v);
    }
  }

  /** `s` starts with `p`. */
  predicate IsPrefix(p: seq<Scored>, s: seq<Scored>)
  {
    |p| <= |s| && s[..|p|] == p
  }

  /** The snippets above the threshold, in sorted order. */
  function Relevant(entries: seq<Entry>, queryVector: seq<nat>): seq<Scored>
    requires forall i :: 0 <= i < |entries| ==> |entries[i].vector| == |queryVector|
  {
    Filter(SortByScore(ScoreAll(entries, queryVector)), IsRelevant)
  }

  /** The snippets above the threshold are exactly the scored snippets above it,
      sorted by non-increasing score, and for every score value in knowledge-base order. */
  lemma RelevantSpec(entries: seq<Entry>, queryVector: seq<nat>)
    requires forall i :: 0 <= i < |entries| ==> |entries[i].vector| == |queryVector|
    ensures forall d :: d in Relevant(entries, queryVector) <==>
      d in ScoreAll(entries, queryVector) && IsRelevant(d)
    ensures SortedByScore(Relevant(entries, queryVector))
    ensures forall v ::
      WithScore(Relevant(entries, queryVector), v) ==
      (if v > SIMILARITY_THRESHOLD_SQUARED then WithScore(ScoreAll(entries, queryVector), v) else [])
  {
    var scored := ScoreAll(entries, queryVector);
    var sorted := SortByScore(scored);
    SortByScoreSpec(scored);
    FilterSorted(sorted);
    forall d
      ensures d in sorted <==> d in scored
    {
      assert d in sorted <==> d in multiset(sorted);
      assert d in scored <==> d in multiset(scored);
    }
    forall v
      ensures WithScore(Filter(sorted, IsRelevant), v) ==
        (if v > SIMILARITY_THRESHOLD_SQUARED then WithScore(scored, v) else [])
    {
      WithScoreFilter(sorted, v);
    }
  }

  /** At most three results, each a snippet of the agent scoring above 0.2, in
      non-increasing score order. */
  lemma RankedBoundsAndOrder(entries: seq<Entry>, queryVector: seq<nat>)
    requires forall i :: 0 <= i < |entries| ==> |entries[i].vector| == |queryVector|
    ensures |Ranked(entries, queryVector)| <= TOP_K
    ensures forall d :: d in Ranked(entries, queryVector) ==>
      d in ScoreAll(entries, queryVector) && d.score > SIMILARITY_THRESHOLD_SQUARED
    ensures SortedByScore(Ranked(entries, queryVector))
  {
    RelevantSpec(entries, queryVector);
    var relevant := Relevant(entries, queryVector);
    forall d | d in Ranked(entries, queryVector)
      ensures d in relevant
    {
    }
  }

  /** Ties keep knowledge-base order: for every score value, the results having it
      are the first snippets of the agent having it. */
  lemma RankedTiesInOrder(entries: seq<Entry>, queryVector: seq<nat>)
    requires forall i :: 0 <= i < |entries| ==> |entries[i].vector| == |queryVector|
    ensures forall v :: IsPrefix(WithScore(Ranked(entries, queryVector), v), WithScore(ScoreAll(entries, queryVector), v))
  {
    RelevantSpec(entries, queryVector);
    var relevant := Relevant(entries, queryVector);
    var ranked := Ranked(entries, queryVector);
    assert relevant == ranked + relevant[|ranked|..];
    forall v
      ensures IsPrefix(WithScore(ranked, v), WithScore(ScoreAll(entries, queryVector), v))
    {
      WithScoreAppend(ranked, relevant[|ranked|..], v);
    }
  }

  /** Every returned text is the text of one of the entries, and there are at most three. */
  lemma RetrieveFromEntries(entries: seq<Entry>, queryVector: seq<nat>)
    requires forall i :: 0 <= i < |entries| ==> |entries[i].vector| == |queryVector|
    ensures |Retrieve(entries, queryVector)| <= TOP_K
    ensures forall s :: s in Retrieve(entries, queryVector) ==> exists i :: 0 <= i < |entries| && entries[i].text == s
  {
    var ranked := Ranked(entries, queryVector);
    forall s | s in Retrieve(entries, queryVector)
      ensures exists i :: 0 <= i < |entries| && entries[i].text == s
    {
      var k :| 0 <= k < |ranked| && ranked[k].text == s;
      RankedFromScored(entries, queryVector, ranked[k]);
    }
  }

  lemma RankedFromScored(entries: seq<Entry>, queryVector: seq<nat>, d: Scored)
    requires forall i :: 0 <= i < |entries| ==> |entries[i].vector| == |queryVector|
    requires d in Ranked(entries, queryVector)
    ensures exists i :: 0 <= i < |entries| && entries[i].text == d.text
  {
    RelevantSpec(entries, queryVector);
    assert d in Relevant(entries, queryVector);
    var scored := ScoreAll(entries, queryVector);
    var i :| 0 <= i < |entries| && scored[i] == d;
    assert entries[i].text == d.text;
  }

  /** No snippet above 0.2 is left out unless three results scoring at least as
      high fill the list. */
  lemma RankedComplete(entries: seq<Entry>, queryVector: seq<nat>)
    requires forall i :: 0 <= i < |entries| ==> |entries[i].vector| == |queryVector|
    ensures forall d ::
      (d in ScoreAll(entries, queryVector) && d.score > SIMILARITY_THRESHOLD_SQUARED && d !in Ranked(entries, queryVector)) ==>
      (|Ranked(entries, queryVector)| == TOP_K &&
       forall k :: 0 <= k < TOP_K ==> Ranked(entries, queryVector)[k].score >= d.score)
  {
    RelevantSpec(entries, queryVector);
    var relevant := Relevant(entries, queryVector);
    var ranked := Ranked(entries, queryVector);
    forall d | d in ScoreAll(entries, queryVector) && d.score > SIMILARITY_THRESHOLD_SQUARED && d !in ranked
      ensures |ranked| == TOP_K && forall k :: 0 <= k < TOP_K ==> ranked[k].score >= d.score
    {
      assert d in relevant;
      var p :| 0 <= p < |relevant| && relevant[p] == d;
      assert p >= TOP_K;
    }
  }

  /** A query without vocabulary overlap (the zero vector) retrieves nothing. */
  lemma RetrieveNoOverlap(entries: seq<Entry>, queryVector: seq<nat>)
    requires forall i :: 0 <= i < |entries| ==> |entries[i].vector| == |queryVector|
    requires AllZero(queryVector)
    ensures Retrieve(entries, queryVector) == []
  {
    RelevantSpec(entries, queryVector);
    var scored := ScoreAll(entries, queryVector);
    forall i | 0 <= i < |entries|
      ensures scored[i].score == 0.0
    {
      CosineOfZero(queryVector, entries[i].vector);
    }
    FilterNone(SortByScore(scored), IsRelevant);
  }

  /** Inserts `a[i]` into the sorted prefix `a[..i]`, shifting right every element
      of the prefix's tail that scores strictly lower. */
  method InsertInPlace(a: array<Scored>, i: nat)
    requires i < a.Length
    modifies a
    ensures a[..] == Insert(old(a[..i]), old(a[i])) + old(a[i + 1..])
  {
    ghost var sorted, rest := a[..i], a[i + 1..];
    var x := a[i];
    var j := i;
    assert sorted[..i] == sorted && sorted[i..] == [];
    assert a[..] == sorted[..i] + [a[i]] + (sorted[i..] + rest);
    while j > 0 && a[j - 1].score < x.score
      invariant 0 <= j <= i
      invariant a[..] == sorted[..j] + [a[j]] + (sorted[j..] + rest)
      invariant Insert(sorted, x) == Insert(sorted[..j], x) + sorted[j..]
    {
      ghost var before := a[..];
      SplitAt(before, sorted[..j], a[j], sorted[j..] + rest);
      InsertShift(sorted, x, j);
      a[j] := a[j - 1];
      assert a[..] == before[j := before[j - 1]];
      ShiftStep(before, sorted, rest, j);
      j := j - 1;
    }
    InsertStop(sorted, x, j);
    ghost var before := a[..];
    a[j] := x;
    assert a[..] == before[j := x];
    PlaceStep(before, sorted, rest, j, x);
  }

  lemma SplitAt(s: seq<Scored>, p: seq<Scored>, g: Scored, q: seq<Scored>)
    requires s == p + [g] + q
    ensures |s| == |p| + 1 + |q| && s[|p|] == g
    ensures forall k :: 0 <= k < |p| ==> s[k] == p[k]
  {
  }

  lemma ShiftStep(before: seq<Scored>, sorted: seq<Scored>, rest: seq<Scored>, j: nat)
    requires 0 < j <= |sorted| && |before| == |sorted| + 1 + |rest|
    requires before == sorted[..j] + [before[j]] + (sorted[j..] + rest)
    ensures before[j := before[j - 1]] == sorted[..j - 1] + [before[j - 1]] + (sorted[j - 1..] + rest)
  {
    assert before[j - 1] == sorted[j - 1];
    assert sorted[j - 1..] == [sorted[j - 1]] + sorted[j..];
    assert sorted[..j] == sorted[..j - 1] + [sorted[j - 1]];
  }

  lemma PlaceStep(before: seq<Scored>, sorted: seq<Scored>, rest: seq<Scored>, j: nat, x: Scored)
    requires j <= |sorted| && |before| == |sorted| + 1 + |rest|
    requires before == sorted[..j] + [before[j]] + (sorted[j..] + rest)
    ensures before[j := x] == (sorted[..j] + [x] + sorted[j..]) + rest
  {
  }

  lemma InsertShift(s: seq<Scored>, x: Scored, j: nat)
    requires 0 < j <= |s| && s[j - 1].score < x.score
    ensures Insert(s[..j], x) + s[j..] == Insert(s[..j - 1], x) + s[j - 1..]
  {
    assert s[..j][..j - 1] == s[..j - 1];
    assert s[j - 1..] == [s[j - 1]] + s[j..];
  }

  lemma InsertStop(s: seq<Scored>, x: Scored, j: nat)
    requires j <= |s| && (j == 0 || s[j - 1].score >= x.score)
    ensures Insert(s[..j], x) == s[..j] + [x]
  {
  }

  /** The in-place stable sort: insertion sort. */
  method SortByScoreInPlace(a: array<Scored>)
    modifies a
    ensures a[..] == SortByScore(old(a[..]))
  {
    ghost var original := a[..];
    for i := 0 to a.Length
      invariant a[..] == SortByScore(original[..i]) + original[i..]
    {
      ghost var before := a[..];
      SortedPrefixParts(original, i, before);
      InsertInPlace(a, i);
      SortedPrefixGrows(original, i, before, a[..]);
    }
    assert original[..a.Length] == original;
  }

  lemma SortedPrefixParts(original: seq<Scored>, i: nat, before: seq<Scored>)
    requires i < |original| && before == SortByScore(original[..i]) + original[i..]
    ensures before[..i] == SortByScore(original[..i])
    ensures before[i] == original[i] && before[i + 1..] == original[i + 1..]
  {
  }

  lemma SortedPrefixGrows(original: seq<Scored>, i: nat, before: seq<Scored>, after: seq<Scored>)
    requires i < |original| && before == SortByScore(original[..i]) + original[i..]
    requires after == Insert(before[..i], before[i]) + before[i + 1..]
    ensures after == SortByScore(original[..i + 1]) + original[i + 1..]
  {
    SortedPrefixParts(original, i, before);
    assert original[..i + 1][..i] == original[..i];
  }

  /** `retrieveContext(agent, query)`. */
  method RetrieveContext(db: map<Agent, seq<Entry>>, vocab: seq<string>, index: map<string, nat>,
                         agent: Agent, query: string)
    returns (sources: seq<string>)
    requires NoDup(vocab) && index == IndexMap(vocab)
    requires WellFormedDatabase(db, vocab)
    ensures sources == Retrieve(db[agent], TermVector(vocab, query))
  {
    var queryVector := TextToVector(vocab, index, query);
    assert queryVector == TermVector(vocab, query);
    var agentKnowledge := db[agent];
    var scoredDocs := ScoreAll(agentKnowledge, queryVector);
    var docs := new Scored[|scoredDocs|](i requires 0 <= i < |scoredDocs| => scoredDocs[i]);
    assert docs[..] == scoredDocs;
    SortByScoreInPlace(docs);
    sources := Texts(Take(Filter(docs[..], IsRelevant), TOP_K));
  }
}
