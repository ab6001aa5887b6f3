# Keyword extraction for product search, modelled in Dafny

Data Scout turns a free-text product query ("need a laptop with 16 gb ram")
into search keywords. `extract_keywords` in `app/extractor.py` lower-cases
and tokenizes the query. It then keeps the tokens that are neither stop
words nor non-alphanumeric. Last, it walks the kept keywords from left to
right. When the walk stops at a number and another keyword follows, it joins
the two and moves past both, so that `16`, `gb` becomes `16gb`. Otherwise it
copies the keyword through. A number in last position therefore stays alone.
So does a number that an earlier join already took: in `1 2 3` the `2` is
taken by the `1`, giving `12 3`. This project models what happens after
tokenization:

- `chars.dfy`: module `Chars`. The character classes behind `str.isdigit`
  and `str.isalnum`, restricted to ASCII. As in Python, the empty string is
  neither all digits nor alphanumeric.
- `filter.dfy`: module `Filtering`. The stop set is NLTK's English list,
  taken as a parameter, plus the thirteen extra words the extractor adds.
  This module also has the list comprehension that filters the tokens
  (`Filter`). It is compared with `KeptFrom`, an independent reference that
  lists the positions of the kept tokens.
- `combine.dfy`: module `Combining`. The combining loop is the method
  `Combine`, a `while` loop over `i` as in `extract_keywords`. It is proved equal to
  the recursive `CombineSpec`. Beside it, `Visits` lists the positions where
  the walk starts a step. The lemmas connect the combined list to those
  positions, to the joined text and to the length bounds.
- `extractor.dfy`: module `Extractor`. The whole pipeline, filter then
  combine, together with its end-to-end properties.

The token sequence is the input. The tokenizer and the lower-casing that
produce it are not modelled (see "Left out").

## Model

| member | source | states |
|---|---|---|
| `Chars.IsDigits` | app/extractor.py:27 | Definition of `str.isdigit()` over ASCII: non-empty, and every character is `0`-`9`. Its contract adds that a string of digits is also alphanumeric. |
| `Chars.IsAlnum` | app/extractor.py:21 | Definition of `str.isalnum()` over ASCII: non-empty, and every character is an ASCII digit or letter. Its contract restates the condition over the characters that occur in `s`, so that, as in Python, the empty string is not alphanumeric. |
| `Filtering.StopWords` | app/extractor.py:10-14 | Definition of the stop set: NLTK's English list united with the thirteen additional product-search words. Its contract spells the union out word by word. |
| `Filtering.Keep` | app/extractor.py:21 | Definition of the comprehension's condition: the token is not a stop word and is alphanumeric. Its contract restates from the body that an empty token is never kept. |
| `Filtering.FilterFrom` | app/extractor.py:21 | From any position on, the comprehension yields no more tokens than remain, and every token it yields is outside the stop set and non-empty alphanumeric. |
| `Filtering.Filter` | app/extractor.py:21 | The filtered list is no longer than the token list, and every filtered keyword is outside the stop set and non-empty alphanumeric. |
| `Filtering.KeptFrom` | app/extractor.py:21 | The reference selection: positions in strictly increasing order, each one inside the token list, and each one holding a token the condition accepts. |
| `Filtering.KeptFromComplete` | app/extractor.py:21 | A position is selected exactly when the condition accepts its token, so no acceptable token is missed. |
| `Filtering.FilterAtKeptFrom` | app/extractor.py:21 | The comprehension yields exactly the tokens at the selected positions, one for one and in the same order. |
| `Filtering.FilterIsOrderedSelection` | app/extractor.py:21 | The filtered list is an order-preserving subsequence of the tokens: it holds exactly the tokens at the accepted positions, in increasing order of position. |
| `Filtering.FilterFromEmptyIff` | app/extractor.py:21 | From any position on, the comprehension yields nothing exactly when it rejects every remaining token. |
| `Filtering.FilterEmptyIff` | app/extractor.py:21 | The filtered list is empty exactly when every token is a stop word or not alphanumeric, and so also when there are no tokens. |
| `Filtering.StopWordsDropped` | app/extractor.py:13-21 | No filtered keyword is one of the additional stop words or a word in NLTK's English list. |
| `Combining.Width` | app/extractor.py:27-32 | Definition of the step at `i`: two keywords exactly when the keyword at `i` is all digits and another keyword follows, and otherwise one. Its contract restates that case split and adds that the step never runs past the end. |
| `Combining.Piece` | app/extractor.py:27-31 | The entry the step at `i` appends (the join at line 28 or the copy at line 31) is exactly the keywords the step takes, joined end to end. |
| `Combining.CombineFrom` | app/extractor.py:26-32 | What the loop appends from position `i` on has at most as many entries as keywords remain, and at least half as many. |
| `Combining.CombineSpec` | app/extractor.py:24-32 | The combined list is no longer than the kept keywords and at least half as long, rounded up (`|keywords| <= 2 * |combined|`). |
| `Combining.CombineAdvance` | app/extractor.py:26-32 | One iteration keeps the loop invariant: after the step's entry is appended and `i` moves past the keywords the step took, the result so far plus the rest of the walk is unchanged. |
| `Combining.Combine` | app/extractor.py:24-34 | The loop returns exactly `CombineSpec(keywords)`. Its invariant keeps `0 <= i <= len(keywords)`, so the loop reads `keywords[i+1]` only when `i + 1 < len(keywords)`, and it terminates because `i` grows by one or two each iteration. |
| `Combining.Visits` | app/extractor.py:26-32 | Every position where the walk starts a step lies between the start and the end of the keywords. |
| `Combining.CombineFromPreservesText` | app/extractor.py:27-32 | From any position on, joining the appended entries gives exactly the joined remaining keywords. |
| `Combining.CombinePreservesText` | app/extractor.py:24-32 | Joining all combined entries gives exactly the joined kept keywords: no character is lost, added or reordered. |
| `Combining.CombineTraceFrom` | app/extractor.py:26-32 | From any position on, there is one entry per visited position. The entry for a position is the keyword there, joined with the next keyword exactly when it is a number that is not last. |
| `Combining.CombineTrace` | app/extractor.py:26-32 | The combined list, entry by entry, is the step's piece at each position the walk visits. |
| `Combining.VisitsWalkFrom` | app/extractor.py:26-32 | The walk starts at its first position, and each step moves `i` on by one or two, as the step's width says. The last step ends exactly at `len(keywords)`. |
| `Combining.VisitedIffNotJoinedFrom` | app/extractor.py:26-32 | From any start, a position starts a step exactly when it is not the successor that the number at the previous visited position was joined with. |
| `Combining.VisitedIffNotJoined` | app/extractor.py:26-32 | A position starts a step exactly when it is not the successor of a joined number. |
| `Combining.NumberJoinedWithSuccessor` | app/extractor.py:27-29 | A number at a visited position that is not last is always joined with its immediate successor, whatever that successor is, another number included. The joined pair is the output entry for that position, and the successor does not start a step of its own. |
| `Combining.VisitedKeywordStandsAlone` | app/extractor.py:27-31 | A keyword at any position the walk visits, which is either not a number or is in last position, appears in the output unchanged as the entry for that position. This includes a keyword after a number that an earlier join already took, as in `1 2 x`. |
| `Combining.KeywordStandsAlone` | app/extractor.py:27-31 | A corollary. Take a keyword that does not follow a number, and that is either not a number or is in last position. The walk visits it, and it appears in the output unchanged as an entry of its own. |
| `Combining.CombineFromKeepsAlnum` | app/extractor.py:21-28 | Combining alphanumeric keywords gives only alphanumeric entries, joined pairs included. |
| `Extractor.ExtractKeywords` | app/extractor.py:16-34 | The pipeline returns the combining walk applied to the filtered tokens, with NLTK's list plus the additional words as the stop set. |
| `Extractor.ExtractEmptyIff` | app/extractor.py:21-26 | The result is empty exactly when every token is a stop word or not alphanumeric. An empty token list is one such case. |
| `Extractor.ExtractShape` | app/extractor.py:21-34 | Every extracted keyword is non-empty alphanumeric. There are at most as many as there are filtered keywords and at least half as many, rounded up. Joined together, they spell out the filtered keywords exactly. |
| `Extractor.ExampleNumberWithUnit` | app/extractor.py:23-29 | `laptop 16 gb ram` combines to `laptop 16gb ram`. `1 2 3` combines to `12 3`: the second number was taken by the first join, so it is not joined with the third. `1 2 x` combines to `12 x`. |
| `Extractor.EndToEndQuery` | app/extractor.py:13-34 | The tokens of "need a laptop with 16 gb ram" give `laptop 16gb ram`, for any NLTK list that does not contain the four content words. The filter drops the additional stop words `need`, `a` and `with`, and the walk joins `16` with `gb`. |

## Left out

- Tokenization with NLTK's `word_tokenize`, `text.lower()` and the corpus downloads (app/extractor.py:2-7, 18). These are foreign library calls with file and network I/O, so the model takes the lower-cased token sequence as its input.
- The contents of NLTK's English stop list (app/extractor.py:10). This is external data, so it is the `english` parameter of `StopWords` and `ExtractKeywords`. The thirteen additional words of app/extractor.py:13 are spelled out.
- Unicode semantics of `str.isdigit` and `str.isalnum`. The model accepts only the ASCII digits `0`-`9` and the ASCII letters. Python also accepts other scripts' letters and digits, and characters such as superscript digits.
- The console `__main__` blocks of app/extractor.py:36-39 and app/main.py, which do `input`/`print` I/O.
- app.py and app/__init__.py: the Flask application, with one route that returns a constant greeting. There is no logic in them to verify.
