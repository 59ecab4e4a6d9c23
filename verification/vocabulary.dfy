/** The vocabulary built once from the knowledge base, and the word-to-index map
    (server.ts, createVocabulary and vocabularyIndexMap). */
module Vocabulary {
  import opened Seqs
  import opened Tokenizer
  import opened Agents

  /** `[...new Set(s)]`: each element once, in the order of its first occurrence.
      A set remembers insertion order, so adding the elements one by one keeps an
      element where it was first added. */
  function Dedup<T(==)>(s: seq<T>): seq<T>
  {
    if s == [] then []
    else
      var d := Dedup(s[..|s| - 1]);
      if s[|s| - 1] in d then d else d + [s[|s| - 1]]
  }

  /** The position of the first occurrence of `x` in `s`. */
  function FirstIndex<T(==)>(s: seq<T>, x: T): (r: nat)
    requires x in s
    ensures r < |s| && s[r] == x && x !in s[..r]
  {
    if s[0] == x then 0
    else
      var r := FirstIndex(s[1..], x);
      assert s[..r + 1] == [s[0]] + s[1..][..r];
      r + 1
  }

  /** The two properties of FirstIndex single out one position. */
  lemma FirstIndexUnique<T>(s: seq<T>, x: T, r: nat)
    requires r < |s| && s[r] == x && x !in s[..r]
    ensures FirstIndex(s, x) == r
  {
  }

  /** The deduplicated sequence holds exactly the elements of the input, each once,
      ordered by where each first occurs in the input. */
  lemma {:induction false} DedupSpec<T>(s: seq<T>)
    ensures forall x :: x in Dedup(s) <==> x in s
    ensures NoDup(Dedup(s))
    ensures forall i, j :: 0 <= i < j < |Dedup(s)| ==>
      Dedup(s)[i] in s && Dedup(s)[j] in s && FirstIndex(s, Dedup(s)[i]) < FirstIndex(s, Dedup(s)[j])
  {
    if s != [] {
      var init, last := s[..|s| - 1], s[|s| - 1];
      assert s == init + [last];
      DedupSpec(init);
      var d := Dedup(init);
      forall x | x in d
        ensures FirstIndex(s, x) == FirstIndex(init, x)
      {
        var f := FirstIndex(init, x);
        assert s[..f] == init[..f];
        FirstIndexUnique(s, x, f);
      }
      if last !in d {
        assert last !in s[..|s| - 1];
        FirstIndexUnique(s, last, |s| - 1);
      }
    }
  }

  /** `createVocabulary`: the deduplicated tokens of all snippets joined with spaces. */
  function CreateVocabulary(kb: KnowledgeBase): seq<string>
  {
    Dedup(Tokens(Join(kb.AllTexts(), " ")))
  }

  /** The tokens of every snippet, snippet by snippet. */
  function CorpusTokens(kb: KnowledgeBase): seq<string>
  {
    var texts := kb.AllTexts();
    Flatten(seq(|texts|, i requires 0 <= i < |texts| => Tokens(texts[i])))
  }

  lemma {:induction false} InFlatten<T>(ss: seq<seq<T>>, x: T)
    ensures x in Flatten(ss) <==> exists i :: 0 <= i < |ss| && x in ss[i]
  {
    if ss != [] {
      InFlatten(ss[1..], x);
      if x in Flatten(ss[1..]) {
        var i :| 0 <= i < |ss[1..]| && x in ss[1..][i];
        assert x in ss[i + 1];
      }
      forall i | 0 < i < |ss| && x in ss[i]
        ensures x in Flatten(ss[1..])
      {
        assert ss[1..][i - 1] == ss[i];
      }
    }
  }

  /** The vocabulary is duplicate-free, holds a word exactly when it is a token of some
      snippet, and lists the words in the order they first occur in the corpus. */
  lemma VocabularySpec(kb: KnowledgeBase)
    ensures NoDup(CreateVocabulary(kb))
    ensures forall w :: w in CreateVocabulary(kb) <==>
      exists i :: 0 <= i < |kb.AllTexts()| && w in Tokens(kb.AllTexts()[i])
    ensures forall i, j :: 0 <= i < j < |CreateVocabulary(kb)| ==>
      CreateVocabulary(kb)[i] in CorpusTokens(kb) && CreateVocabulary(kb)[j] in CorpusTokens(kb) &&
      FirstIndex(CorpusTokens(kb), CreateVocabulary(kb)[i]) < FirstIndex(CorpusTokens(kb), CreateVocabulary(kb)[j])
  {
    var texts := kb.AllTexts();
    var parts := seq(|texts|, i requires 0 <= i < |texts| => Tokens(texts[i]));
    TokensOfJoin(texts);
    DedupSpec(CorpusTokens(kb));
    forall w
      ensures w in CorpusTokens(kb) <==> exists i :: 0 <= i < |texts| && w in Tokens(texts[i])
    {
      InFlatten(parts, w);
      if w in CorpusTokens(kb) {
        var i :| 0 <= i < |parts| && w in parts[i];
        assert w in Tokens(texts[i]);
      }
      if exists i :: 0 <= i < |texts| && w in Tokens(texts[i]) {
        var i :| 0 <= i < |texts| && w in Tokens(texts[i]);
        assert w in parts[i];
      }
    }
  }

  /** Every vocabulary word is a non-empty run of lower-case word characters. */
  lemma VocabularyWordsAreTokens(kb: KnowledgeBase)
    ensures forall w :: w in CreateVocabulary(kb) ==> IsToken(w)
  {
    DedupSpec(Tokens(Join(kb.AllTexts(), " ")));
    TokensWellFormed(Join(kb.AllTexts(), " "));
  }

  /** `new Map(vocabulary.map((word, i) => [word, i]))`: entries are added in order,
      a later entry for the same key replacing an earlier one. */
  function IndexMap(vocab: seq<string>): map<string, nat>
  {
    if vocab == [] then map[]
    else IndexMap(vocab[..|vocab| - 1])[vocab[|vocab| - 1] := |vocab| - 1]
  }

  /** The index map has the vocabulary's words as keys and is a left inverse of the
      vocabulary: the word at the index a word maps to is that word. */
  lemma {:induction false} IndexMapInverse(vocab: seq<string>)
    ensures forall w :: w in IndexMap(vocab) <==> w in vocab
    ensures forall w :: w in IndexMap(vocab) ==> IndexMap(vocab)[w] < |vocab| && vocab[IndexMap(vocab)[w]] == w
  {
    if vocab != [] {
      var init := vocab[..|vocab| - 1];
      IndexMapInverse(init);
      assert vocab == init + [vocab[|vocab| - 1]];
    }
  }

  /** On a duplicate-free vocabulary the index map is also a right inverse:
      the i-th word maps to i. */
  lemma IndexMapPositions(vocab: seq<string>)
    requires NoDup(vocab)
    ensures forall i :: 0 <= i < |vocab| ==> vocab[i] in IndexMap(vocab) && IndexMap(vocab)[vocab[i]] == i
  {
    IndexMapInverse(vocab);
  }
}
