/** `extract_keywords` after tokenization: the filter followed by the
    combining walk, with the extractor's stop set. */
module Extractor {
  import opened Chars
  import opened Filtering
  import opened Combining

  /** The keywords of an already lower-cased token sequence, given NLTK's
      English stop list. */
  method ExtractKeywords(tokens: seq<string>, english: set<string>) returns (keywords: seq<string>)
    ensures keywords == CombineSpec(Filter(tokens, StopWords(english)))
  {
    var kept := Filter(tokens, StopWords(english));
    keywords := Combine(kept);
  }

  /** The result is empty exactly when every token is a stop word or not
      alphanumeric; in particular, no tokens give no keywords. */
  lemma ExtractEmptyIff(tokens: seq<string>, english: set<string>)
    ensures CombineSpec(Filter(tokens, StopWords(english))) == []
        <==> forall j :: 0 <= j < |tokens| ==> !Keep(tokens[j], StopWords(english))
  {
    FilterEmptyIff(tokens, StopWords(english));
  }

  /** Every extracted keyword is non-empty and alphanumeric, there are at
      most as many as kept tokens and at least half of them (rounded up), and
      together they spell out exactly the kept tokens. */
  lemma ExtractShape(tokens: seq<string>, english: set<string>)
    ensures var kept := Filter(tokens, StopWords(english));
      var keywords := CombineSpec(kept);
      && (forall j :: 0 <= j < |keywords| ==> IsAlnum(keywords[j]))
      && (|kept| + 1) / 2 <= |keywords| <= |kept|
      && Concat(keywords) == Concat(kept)
  {
    var kept := Filter(tokens, StopWords(english));
    CombineFromKeepsAlnum(kept, 0);
    CombinePreservesText(kept);
  }

  /** The case `extract_keywords` is written for: a number and its unit
      become one keyword, while a number that follows a joined pair stays
      alone at the end. */
  lemma ExampleNumberWithUnit()
    ensures CombineSpec(["laptop", "16", "gb", "ram"]) == ["laptop", "16gb", "ram"]
    ensures CombineSpec(["1", "2", "3"]) == ["12", "3"]
    ensures CombineSpec(["1", "2", "x"]) == ["12", "x"]
  {
    assert !IsDigitChar("laptop"[0]) && !IsDigitChar("ram"[0]);
    assert IsDigits("16") && !IsDigits("laptop") && !IsDigits("ram");
    assert IsDigits("1") && IsDigits("3");
    var ks := ["laptop", "16", "gb", "ram"];
    assert "16" + "gb" == "16gb";
    assert CombineFrom(ks, 3) == ["ram"];
    assert CombineFrom(ks, 1) == ["16gb", "ram"];
    var ns := ["1", "2", "3"];
    assert "1" + "2" == "12";
    assert CombineFrom(ns, 2) == ["3"];
    var xs := ["1", "2", "x"];
    assert !IsDigitChar("x"[0]) && !IsDigits("x");
    assert CombineFrom(xs, 2) == ["x"];
  }

  /** The query "need a laptop with 16 gb ram", once tokenized: the filter
      drops the additional stop words `need`, `a` and `with`, and the walk
      joins `16` with its unit. */
  lemma EndToEndQuery(english: set<string>)
    requires "laptop" !in english && "16" !in english && "gb" !in english && "ram" !in english
    ensures CombineSpec(Filter(["need", "a", "laptop", "with", "16", "gb", "ram"], StopWords(english)))
         == ["laptop", "16gb", "ram"]
  {
    var ts := ["need", "a", "laptop", "with", "16", "gb", "ram"];
    var stop := StopWords(english);
    assert "need" in stop && "a" in stop && "with" in stop;
    assert "laptop" !in AdditionalStopWords && "16" !in AdditionalStopWords;
    assert "gb" !in AdditionalStopWords && "ram" !in AdditionalStopWords;
    assert IsAlnum("laptop") && IsAlnum("16") && IsAlnum("gb") && IsAlnum("ram");
    assert FilterFrom(ts, stop, 7) == [];
    assert FilterFrom(ts, stop, 6) == ["ram"];
    assert FilterFrom(ts, stop, 5) == ["gb", "ram"];
    assert FilterFrom(ts, stop, 4) == ["16", "gb", "ram"];
    assert FilterFrom(ts, stop, 3) == ["16", "gb", "ram"];
    assert FilterFrom(ts, stop, 2) == ["laptop", "16", "gb", "ram"];
    assert Filter(ts, stop) == ["laptop", "16", "gb", "ram"];
    ExampleNumberWithUnit();
  }
}
