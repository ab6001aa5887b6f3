/** The first stage of `extract_keywords`: drop stop words and tokens that
    are not alphanumeric, keeping the rest in their original order. */
module Filtering {
  import opened Chars

  /** The words the extractor adds to NLTK's English stop list because they
      carry no meaning in a product search. */
  const AdditionalStopWords: set<string> :=
    {"need", "want", "looking", "for", "with", "has", "have",
     "a", "an", "the", "and", "or", "but"}

  /** The stop set the extractor uses: NLTK's English list (external data,
      hence a parameter) updated with the additional words. */
  function StopWords(english: set<string>): (stop: set<string>)
    ensures forall w :: w in stop <==> w in english || w in AdditionalStopWords
  {
    english + AdditionalStopWords
  }

  /** The condition of the list comprehension: not a stop word, and
      alphanumeric; an empty token is never kept. */
  predicate Keep(word: string, stop: set<string>)
    ensures Keep(word, stop) ==> word != ""
  {
    word !in stop && IsAlnum(word)
  }

  /** The comprehension over `tokens[i..]`: the tokens from position `i` on
      that satisfy `Keep`, in order. */
  function FilterFrom(tokens: seq<string>, stop: set<string>, i: nat): (kept: seq<string>)
    requires i <= |tokens|
    ensures |kept| <= |tokens| - i
    ensures forall k :: 0 <= k < |kept| ==> kept[k] !in stop && IsAlnum(kept[k])
    decreases |tokens| - i
  {
    if i == |tokens| then []
    else (if Keep(tokens[i], stop) then [tokens[i]] else []) + FilterFrom(tokens, stop, i + 1)
  }

  /** The list comprehension: every kept keyword is alphanumeric and no stop word. */
  function Filter(tokens: seq<string>, stop: set<string>): (kept: seq<string>)
    ensures |kept| <= |tokens|
    ensures forall k :: 0 <= k < |kept| ==> kept[k] !in stop && IsAlnum(kept[k])
  {
    FilterFrom(tokens, stop, 0)
  }

  /** The positions from `i` on whose token the comprehension keeps, in
      increasing order: the reference selection `Filter` is compared with. */
  function KeptFrom(tokens: seq<string>, stop: set<string>, i: nat): (idx: seq<nat>)
    requires i <= |tokens|
    ensures forall k :: 0 <= k < |idx| ==> i <= idx[k] < |tokens| && Keep(tokens[idx[k]], stop)
    ensures forall k, l :: 0 <= k < l < |idx| ==> idx[k] < idx[l]
    decreases |tokens| - i
  {
    if i == |tokens| then []
    else (if Keep(tokens[i], stop) then [i] else []) + KeptFrom(tokens, stop, i + 1)
  }

  /** A position from `i` on is among the kept positions exactly when the
      comprehension accepts its token. */
  lemma {:induction false} KeptFromComplete(tokens: seq<string>, stop: set<string>, i: nat, j: nat)
    requires i <= j < |tokens|
    ensures j in KeptFrom(tokens, stop, i) <==> Keep(tokens[j], stop)
    decreases |tokens| - i
  {
    if i < j {
      KeptFromComplete(tokens, stop, i + 1, j);
    }
  }

  /** From position `i` on, the comprehension yields the tokens at the kept
      positions, one for one. */
  lemma {:induction false} FilterAtKeptFrom(tokens: seq<string>, stop: set<string>, i: nat)
    requires i <= |tokens|
    ensures var kept, idx := FilterFrom(tokens, stop, i), KeptFrom(tokens, stop, i);
      |idx| == |kept| && forall k :: 0 <= k < |idx| ==> tokens[idx[k]] == kept[k]
    decreases |tokens| - i
  {
    if i < |tokens| {
      FilterAtKeptFrom(tokens, stop, i + 1);
    }
  }

  /** `Filter` picks exactly the tokens at the kept positions, in increasing
      order of position: an order-preserving subsequence of the tokens that
      misses no token the condition accepts. */
  lemma FilterIsOrderedSelection(tokens: seq<string>, stop: set<string>)
    ensures var kept, idx := Filter(tokens, stop), KeptFrom(tokens, stop, 0);
      && |idx| == |kept|
      && (forall k :: 0 <= k < |idx| ==> idx[k] < |tokens| && tokens[idx[k]] == kept[k])
      && (forall k, l :: 0 <= k < l < |idx| ==> idx[k] < idx[l])
      && (forall j :: 0 <= j < |tokens| ==> (j in idx <==> Keep(tokens[j], stop)))
  {
    FilterAtKeptFrom(tokens, stop, 0);
    forall j | 0 <= j < |tokens|
      ensures j in KeptFrom(tokens, stop, 0) <==> Keep(tokens[j], stop)
    {
      KeptFromComplete(tokens, stop, 0, j);
    }
  }

  /** From position `i` on, the comprehension yields nothing exactly when it
      rejects every token. */
  lemma {:induction false} FilterFromEmptyIff(tokens: seq<string>, stop: set<string>, i: nat)
    requires i <= |tokens|
    ensures FilterFrom(tokens, stop, i) == [] <==> forall j :: i <= j < |tokens| ==> !Keep(tokens[j], stop)
    decreases |tokens| - i
  {
    if i < |tokens| {
      FilterFromEmptyIff(tokens, stop, i + 1);
    }
  }

  /** The comprehension yields nothing exactly when it rejects every token;
      in particular an empty token list yields nothing. */
  lemma FilterEmptyIff(tokens: seq<string>, stop: set<string>)
    ensures Filter(tokens, stop) == [] <==> forall j :: 0 <= j < |tokens| ==> !Keep(tokens[j], stop)
  {
    FilterFromEmptyIff(tokens, stop, 0);
  }

  /** No word of the stop set, the additional words included, survives the filter. */
  lemma StopWordsDropped(tokens: seq<string>, english: set<string>, k: nat)
    requires k < |Filter(tokens, StopWords(english))|
    ensures Filter(tokens, StopWords(english))[k] !in AdditionalStopWords
    ensures Filter(tokens, StopWords(english))[k] !in english
  {
  }
}
