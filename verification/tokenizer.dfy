/** The tokeniser shared by vocabulary construction and vectorisation:
    `text.toLowerCase().match(/\b\w+\b/g) || []` on ASCII text. */
module Tokenizer {
  import opened Seqs

  /** `\w` without the Unicode flag: ASCII letters, digits and underscore. */
  predicate IsWordChar(c: char)
  {
    'a' <= c <= 'z' || 'A' <= c <= 'Z' || '0' <= c <= '9' || c == '_'
  }

  predicate IsUpper(c: char)
  {
    'A' <= c <= 'Z'
  }

  /** ASCII lower-casing of one character. */
  function LowerChar(c: char): (r: char)
    ensures !IsUpper(r)
    ensures IsWordChar(r) <==> IsWordChar(c)
    ensures !IsUpper(c) ==> r == c
    ensures IsUpper(c) ==> 'a' <= r <= 'z' && r as int - 'a' as int == c as int - 'A' as int
  {
    if IsUpper(c) then (c as int + 32) as char else c
  }

  /** `toLowerCase` restricted to ASCII. */
  function Lower(s: string): (r: string)
    ensures |r| == |s|
    ensures forall i :: 0 <= i < |s| ==> r[i] == LowerChar(s[i])
  {
    seq(|s|, i requires 0 <= i < |s| => LowerChar(s[i]))
  }

  /** Emits the run collected so far, if there is one. */
  function Flush(run: string): seq<string>
  {
    if run == [] then [] else [run]
  }

  /** Left-to-right scan: `run` is the word-character run that is still open. */
  function Scan(s: string, run: string): seq<string>
    decreases |s|
  {
    if s == [] then Flush(run)
    else if IsWordChar(s[0]) then Scan(s[1..], run + [s[0]])
    else Flush(run) + Scan(s[1..], [])
  }

  /** The tokens of a text: the maximal runs of word characters of its lower-cased form. */
  function Tokens(text: string): seq<string>
  {
    Scan(Lower(text), [])
  }

  /** A string without upper-case letters. */
  predicate IsLowerCase(s: string)
  {
    forall i :: 0 <= i < |s| ==> !IsUpper(s[i])
  }

  /** A well-formed token: non-empty, made of lower-case word characters. */
  predicate IsToken(t: string)
  {
    |t| > 0 && forall i :: 0 <= i < |t| ==> IsWordChar(t[i]) && !IsUpper(t[i])
  }

  /** `s[a..b]` is a maximal run of word characters: only word characters, and a
      word boundary (an end of `s` or a non-word character) on both sides. */
  predicate IsRun(s: string, a: int, b: int)
  {
    0 <= a < b <= |s| && (forall m :: a <= m < b ==> IsWordChar(s[m]))
    && (a == 0 || !IsWordChar(s[a - 1])) && (b == |s| || !IsWordChar(s[b]))
  }

  /** A stretch `[start, stop)` of positions of a text. */
  datatype Span = Span(start: nat, stop: nat)

  /** The positions of the maximal runs from position `k` on, when the run that is
      still open started at `i`. */
  function SpansFrom(s: string, i: nat, k: nat): seq<Span>
    requires i <= k <= |s|
    decreases |s| - k
  {
    if k == |s| then (if i < k then [Span(i, k)] else [])
    else if IsWordChar(s[k]) then SpansFrom(s, i, k + 1)
    else (if i < k then [Span(i, k)] else []) + SpansFrom(s, k + 1, k + 1)
  }

  /** The positions of the maximal runs of `s`, left to right. */
  function Spans(s: string): seq<Span>
  {
    SpansFrom(s, 0, 0)
  }

  /** `spans` lists every maximal run of `s` and nothing else, in increasing
      position order (so each run exactly once). */
  ghost predicate ListsRuns(s: string, spans: seq<Span>)
  {
    (forall k :: 0 <= k < |spans| ==> IsRun(s, spans[k].start, spans[k].stop))
    && (forall k :: 0 <= k < |spans| - 1 ==> spans[k].stop < spans[k + 1].start)
    && (forall a, b :: IsRun(s, a, b) ==> Span(a, b) in spans)
  }

  /** The scan's state at position `k`: the open run `s[i..k]` holds word characters
      only and starts at a word boundary. */
  predicate OpenRun(s: string, i: nat, k: nat)
  {
    i <= k <= |s| && (forall m :: i <= m < k ==> IsWordChar(s[m])) && (i == 0 || !IsWordChar(s[i - 1]))
  }

  lemma {:induction false} ScanWellFormed(s: string, run: string)
    requires IsLowerCase(s)
    requires forall i :: 0 <= i < |run| ==> IsWordChar(run[i]) && !IsUpper(run[i])
    ensures forall t :: t in Scan(s, run) ==> IsToken(t)
    decreases |s|
  {
    if s != [] {
      if IsWordChar(s[0]) {
        ScanWellFormed(s[1..], run + [s[0]]);
      } else {
        ScanWellFormed(s[1..], []);
      }
    }
  }

  /** Every token is non-empty and consists of lower-case word characters. */
  lemma TokensWellFormed(text: string)
    ensures forall t :: t in Tokens(text) ==> IsToken(t)
  {
    ScanWellFormed(Lower(text), []);
  }

  lemma {:induction false} SpansFromSound(s: string, i: nat, k: nat)
    requires OpenRun(s, i, k)
    ensures forall j :: 0 <= j < |SpansFrom(s, i, k)| ==>
      i <= SpansFrom(s, i, k)[j].start && IsRun(s, SpansFrom(s, i, k)[j].start, SpansFrom(s, i, k)[j].stop)
    decreases |s| - k
  {
    if k < |s| {
      if IsWordChar(s[k]) {
        SpansFromSound(s, i, k + 1);
      } else {
        SpansFromSound(s, k + 1, k + 1);
      }
    }
  }

  lemma {:induction false} SpansFromOrdered(s: string, i: nat, k: nat)
    requires OpenRun(s, i, k)
    ensures forall j :: 0 <= j < |SpansFrom(s, i, k)| - 1 ==> SpansFrom(s, i, k)[j].stop < SpansFrom(s, i, k)[j + 1].start
    decreases |s| - k
  {
    if k < |s| {
      if IsWordChar(s[k]) {
        SpansFromOrdered(s, i, k + 1);
      } else {
        var rest := SpansFrom(s, k + 1, k + 1);
        SpansFromOrdered(s, k + 1, k + 1);
        SpansFromSound(s, k + 1, k + 1);
        if i < k {
          assert SpansFrom(s, i, k) == [Span(i, k)] + rest;
        }
      }
    }
  }

  /** A run that starts inside the open run `s[i..k]`, when `k` ends it, is that run. */
  lemma RunMeetsOpenRun(s: string, i: nat, k: nat, a: int, b: int)
    requires OpenRun(s, i, k) && IsRun(s, a, b) && i <= a <= k
    requires k == |s| || !IsWordChar(s[k])
    ensures a == i && b == k
  {
  }

  lemma {:induction false} SpansFromComplete(s: string, i: nat, k: nat, a: int, b: int)
    requires OpenRun(s, i, k) && IsRun(s, a, b) && i <= a
    ensures Span(a, b) in SpansFrom(s, i, k)
    decreases |s| - k
  {
    if k == |s| {
      RunMeetsOpenRun(s, i, k, a, b);
      assert SpansFrom(s, i, k) == [Span(i, k)];
    } else if IsWordChar(s[k]) {
      SpansFromComplete(s, i, k + 1, a, b);
    } else if a <= k {
      RunMeetsOpenRun(s, i, k, a, b);
      assert SpansFrom(s, i, k) == [Span(i, k)] + SpansFrom(s, k + 1, k + 1);
    } else {
      SpansFromComplete(s, k + 1, k + 1, a, b);
    }
  }

  /** `Spans(s)` lists exactly the maximal runs of `s`, left to right. */
  lemma SpansSpec(s: string)
    ensures ListsRuns(s, Spans(s))
  {
    SpansFromSound(s, 0, 0);
    SpansFromOrdered(s, 0, 0);
    forall a, b | IsRun(s, a, b)
      ensures Span(a, b) in Spans(s)
    {
      SpansFromComplete(s, 0, 0, a, b);
    }
  }

  /** Spans that lie within `s`. */
  predicate InBounds(s: string, spans: seq<Span>)
  {
    forall j :: 0 <= j < |spans| ==> spans[j].start <= spans[j].stop <= |s|
  }

  /** The substrings of `s` at `spans`. */
  function Slices(s: string, spans: seq<Span>): (r: seq<string>)
    requires InBounds(s, spans)
    ensures |r| == |spans|
  {
    seq(|spans|, j requires 0 <= j < |spans| => s[spans[j].start..spans[j].stop])
  }

  lemma {:induction false} ScanSpans(s: string, i: nat, k: nat)
    requires OpenRun(s, i, k)
    ensures InBounds(s, SpansFrom(s, i, k))
    ensures Scan(s[k..], s[i..k]) == Slices(s, SpansFrom(s, i, k))
    decreases |s| - k
  {
    SpansFromSound(s, i, k);
    if k == |s| {
      FlushSlices(s, i, k);
    } else if IsWordChar(s[k]) {
      ScanWordStep(s, i, k);
      ScanSpans(s, i, k + 1);
    } else {
      ScanSeparatorStep(s, i, k);
      ScanSpans(s, k + 1, k + 1);
      FlushSlices(s, i, k);
      SlicesAppend(s, if i < k then [Span(i, k)] else [], SpansFrom(s, k + 1, k + 1));
    }
  }

  lemma FlushSlices(s: string, i: nat, k: nat)
    requires i <= k <= |s|
    ensures InBounds(s, if i < k then [Span(i, k)] else [])
    ensures Flush(s[i..k]) == Slices(s, if i < k then [Span(i, k)] else [])
  {
  }

  lemma ScanWordStep(s: string, i: nat, k: nat)
    requires OpenRun(s, i, k) && k < |s| && IsWordChar(s[k])
    ensures OpenRun(s, i, k + 1)
    ensures Scan(s[k..], s[i..k]) == Scan(s[k + 1..], s[i..k + 1])
    ensures SpansFrom(s, i, k) == SpansFrom(s, i, k + 1)
  {
    assert s[k..][1..] == s[k + 1..];
    assert s[i..k] + [s[k]] == s[i..k + 1];
  }

  lemma ScanSeparatorStep(s: string, i: nat, k: nat)
    requires OpenRun(s, i, k) && k < |s| && !IsWordChar(s[k])
    ensures OpenRun(s, k + 1, k + 1)
    ensures Scan(s[k..], s[i..k]) == Flush(s[i..k]) + Scan(s[k + 1..], s[k + 1..k + 1])
    ensures SpansFrom(s, i, k) == (if i < k then [Span(i, k)] else []) + SpansFrom(s, k + 1, k + 1)
  {
    assert s[k..][1..] == s[k + 1..];
    assert s[k + 1..k + 1] == [];
  }

  lemma SlicesAppend(s: string, a: seq<Span>, b: seq<Span>)
    requires InBounds(s, a) && InBounds(s, b)
    ensures InBounds(s, a + b) && Slices(s, a + b) == Slices(s, a) + Slices(s, b)
  {
  }

  /** The k-th token is the k-th maximal run of word characters of the lower-cased
      text, as `\b\w+\b` matches them left to right: no run is dropped, repeated
      or reordered. */
  lemma TokensAreMaximalRuns(text: string)
    ensures ListsRuns(Lower(text), Spans(Lower(text)))
    ensures InBounds(Lower(text), Spans(Lower(text)))
    ensures Tokens(text) == Slices(Lower(text), Spans(Lower(text)))
  {
    var s := Lower(text);
    SpansSpec(s);
    assert s[0..] == s && s[0..0] == [];
    ScanSpans(s, 0, 0);
  }

  /** Every maximal run of word characters of the lower-cased text is a token. */
  lemma EveryRunIsToken(text: string, a: int, b: int)
    requires IsRun(Lower(text), a, b)
    ensures Lower(text)[a..b] in Tokens(text)
  {
    TokensAreMaximalRuns(text);
    var k :| 0 <= k < |Spans(Lower(text))| && Spans(Lower(text))[k] == Span(a, b);
    assert Tokens(text)[k] == Lower(text)[a..b];
  }

  lemma {:induction false} ScanCovers(s: string, run: string)
    ensures Flatten(Scan(s, run)) == run + Filter(s, IsWordChar)
    decreases |s|
  {
    if s == [] {
      assert Flatten(Flush(run)) == run;
    } else if IsWordChar(s[0]) {
      ScanCovers(s[1..], run + [s[0]]);
      assert Scan(s, run) == Scan(s[1..], run + [s[0]]);
      assert Filter(s, IsWordChar) == [s[0]] + Filter(s[1..], IsWordChar);
      assert run + [s[0]] + Filter(s[1..], IsWordChar) == run + ([s[0]] + Filter(s[1..], IsWordChar));
    } else {
      ScanCovers(s[1..], []);
      assert Scan(s, run) == Flush(run) + Scan(s[1..], []);
      assert Filter(s, IsWordChar) == Filter(s[1..], IsWordChar);
      FlattenAppend(Flush(run), Scan(s[1..], []));
      assert Flatten(Flush(run)) == run;
      assert [] + Filter(s[1..], IsWordChar) == Filter(s[1..], IsWordChar);
    }
  }

  lemma {:induction false} FlattenAppend<T>(a: seq<seq<T>>, b: seq<seq<T>>)
    ensures Flatten(a + b) == Flatten(a) + Flatten(b)
  {
    if a == [] {
      assert a + b == b;
    } else {
      assert (a + b)[1..] == a[1..] + b;
      FlattenAppend(a[1..], b);
    }
  }

  /** Read together, the tokens are exactly the word characters of the lower-cased
      text, in order: no word character is dropped or repeated. */
  lemma TokensCoverWordChars(text: string)
    ensures Flatten(Tokens(text)) == Filter(Lower(text), IsWordChar)
  {
    ScanCovers(Lower(text), []);
  }

  lemma {:induction false} ScanSplits(a: string, c: char, b: string, run: string)
    requires !IsWordChar(c)
    ensures Scan(a + [c] + b, run) == Scan(a, run) + Scan(b, [])
    decreases |a|
  {
    if a == [] {
      assert (a + [c] + b)[1..] == b;
    } else {
      assert (a + [c] + b)[1..] == a[1..] + [c] + b;
      if IsWordChar(a[0]) {
        ScanSplits(a[1..], c, b, run + [a[0]]);
      } else {
        ScanSplits(a[1..], c, b, []);
      }
    }
  }

  /** A separator between two texts splits their tokens: tokenising `a + " " + b`
      gives the tokens of `a` followed by those of `b`. */
  lemma TokensOfSeparated(a: string, b: string)
    ensures Tokens(a + " " + b) == Tokens(a) + Tokens(b)
  {
    assert Lower(a + " " + b) == Lower(a) + [' '] + Lower(b);
    ScanSplits(Lower(a), ' ', Lower(b), []);
  }

  /** Tokenising texts joined with spaces gives each text's tokens in turn. */
  lemma {:induction false} TokensOfJoin(texts: seq<string>)
    ensures Tokens(Join(texts, " ")) == Flatten(seq(|texts|, i requires 0 <= i < |texts| => Tokens(texts[i])))
    decreases |texts|
  {
    var parts := seq(|texts|, i requires 0 <= i < |texts| => Tokens(texts[i]));
    if texts == [] {
      assert Lower("") == [];
    } else if |texts| == 1 {
      assert parts == [Tokens(texts[0])];
      assert Flatten(parts) == Tokens(texts[0]) + Flatten([]);
    } else {
      var rest := seq(|texts| - 1, i requires 0 <= i < |texts| - 1 => Tokens(texts[1..][i]));
      TokensOfJoin(texts[1..]);
      TokensOfSeparated(texts[0], Join(texts[1..], " "));
      assert parts[1..] == rest;
    }
  }

  /** The empty text has no tokens. */
  lemma TokensOfEmpty()
    ensures Tokens("") == []
  {
    assert Lower("") == [];
  }
}
