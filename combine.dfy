/** The second stage of `extract_keywords`: walk the kept keywords and join a
    number the walk stops at with the keyword after it, when there is one
    (`16`, `gb` becomes `16gb`, while `1`, `2`, `3` becomes `12`, `3`). */
module Combining {
  import opened Chars

  /** How many keywords the step of the walk that starts at `i` consumes:
      two when `keywords[i]` is all digits and another keyword follows,
      whatever that keyword is, and one otherwise. */
  function Width(keywords: seq<string>, i: nat): (w: nat)
    requires i < |keywords|
    ensures w == 1 || w == 2
    ensures i + w <= |keywords|
    ensures w == 2 <==> IsDigits(keywords[i]) && i + 1 < |keywords|
  {
    if IsDigits(keywords[i]) && i + 1 < |keywords| then 2 else 1
  }

  /** The entry the step at `i` appends: the keywords the step takes, joined. */
  function Piece(keywords: seq<string>, i: nat): (entry: string)
    requires i < |keywords|
    ensures entry == Concat(keywords[i..i + Width(keywords, i)])
  {
    var taken := keywords[i..i + Width(keywords, i)];
    if Width(keywords, i) == 2 then
      assert taken == [keywords[i], keywords[i + 1]] && taken[1..] == [keywords[i + 1]];
      assert Concat(taken[1..]) == keywords[i + 1] + Concat([]);
      keywords[i] + keywords[i + 1]
    else
      assert taken == [keywords[i]];
      assert Concat(taken) == keywords[i] + Concat([]);
      keywords[i]
  }

  /** What the combining loop appends from position `i` on. */
  function CombineFrom(keywords: seq<string>, i: nat): (combined: seq<string>)
    requires i <= |keywords|
    ensures |combined| <= |keywords| - i <= 2 * |combined|
    decreases |keywords| - i
  {
    if i == |keywords| then []
    else if IsDigits(keywords[i]) && i + 1 < |keywords| then
      [keywords[i] + keywords[i + 1]] + CombineFrom(keywords, i + 2)
    else
      [keywords[i]] + CombineFrom(keywords, i + 1)
  }

  /** The combined list: no longer than the keywords, and at least half as
      long, rounded up, since each entry takes one or two keywords. */
  function CombineSpec(keywords: seq<string>): (combined: seq<string>)
    ensures |combined| <= |keywords| <= 2 * |combined|
  {
    CombineFrom(keywords, 0)
  }

  /** The walk from `i` on is the entry of the step at `i`, then the walk
      from where that step ends. */
  lemma CombineFromStep(keywords: seq<string>, i: nat)
    requires i < |keywords|
    ensures CombineFrom(keywords, i) == [Piece(keywords, i)] + CombineFrom(keywords, i + Width(keywords, i))
  {
  }

  /** One step of the walk at `i` keeps the loop's invariant: appending the
      step's entry and moving past the keywords it took leaves the whole
      result unchanged. */
  lemma CombineAdvance(keywords: seq<string>, i: nat, combined: seq<string>)
    requires i < |keywords|
    ensures combined + CombineFrom(keywords, i)
         == (combined + [Piece(keywords, i)]) + CombineFrom(keywords, i + Width(keywords, i))
  {
    var rest := CombineFrom(keywords, i + Width(keywords, i));
    CombineFromStep(keywords, i);
    assert combined + ([Piece(keywords, i)] + rest) == (combined + [Piece(keywords, i)]) + rest;
  }

  /** The combining loop, as `extract_keywords` writes it: `i` advances by two after a
      join and by one otherwise, and `keywords[i + 1]` is read only when
      `i + 1 < |keywords|`. */
  method Combine(keywords: seq<string>) returns (combined: seq<string>)
    ensures combined == CombineSpec(keywords)
  {
    combined := [];
    var i := 0;
    while i < |keywords|
      invariant 0 <= i <= |keywords|
      invariant combined + CombineFrom(keywords, i) == CombineSpec(keywords)
      decreases |keywords| - i
    {
      CombineAdvance(keywords, i, combined);
      if IsDigits(keywords[i]) && i + 1 < |keywords| {
        combined := combined + [keywords[i] + keywords[i + 1]];
        i := i + 2;
      } else {
        combined := combined + [keywords[i]];
        i := i + 1;
      }
    }
  }

  /** All strings of `strings` joined end to end. */
  function Concat(strings: seq<string>): string {
    if strings == [] then "" else strings[0] + Concat(strings[1..])
  }

  /** Joining from position `i` on takes the string at `i`, then the rest. */
  lemma ConcatAt(strings: seq<string>, i: nat)
    requires i < |strings|
    ensures Concat(strings[i..]) == strings[i] + Concat(strings[i + 1..])
  {
    assert strings[i..][1..] == strings[i + 1..];
  }

  /** The positions at which the walk starts a step, from position `i` on. */
  function Visits(keywords: seq<string>, i: nat): (v: seq<nat>)
    requires i <= |keywords|
    ensures forall k :: 0 <= k < |v| ==> i <= v[k] < |keywords|
    decreases |keywords| - i
  {
    if i == |keywords| then [] else [i] + Visits(keywords, i + Width(keywords, i))
  }

  /** Joining a list that starts with `first` takes `first`, then the rest. */
  lemma ConcatCons(first: string, rest: seq<string>)
    ensures Concat([first] + rest) == first + Concat(rest)
  {
    assert ([first] + rest)[1..] == rest;
  }

  /** From position `i` on, joining the combined entries gives back exactly
      the joined keywords. */
  lemma {:induction false} CombineFromPreservesText(keywords: seq<string>, i: nat)
    requires i <= |keywords|
    ensures Concat(CombineFrom(keywords, i)) == Concat(keywords[i..])
    decreases |keywords| - i
  {
    if i < |keywords| {
      ConcatAt(keywords, i);
      if IsDigits(keywords[i]) && i + 1 < |keywords| {
        var a, b := keywords[i], keywords[i + 1];
        var rest := CombineFrom(keywords, i + 2);
        CombineFromPreservesText(keywords, i + 2);
        ConcatAt(keywords, i + 1);
        ConcatCons(a + b, rest);
        assert (a + b) + Concat(rest) == a + (b + Concat(rest));
      } else {
        CombineFromPreservesText(keywords, i + 1);
        ConcatCons(keywords[i], CombineFrom(keywords, i + 1));
      }
    }
  }

  /** Joining the combined entries gives back exactly the joined keywords:
      combining loses, adds and reorders no character. */
  lemma CombinePreservesText(keywords: seq<string>)
    ensures Concat(CombineSpec(keywords)) == Concat(keywords)
  {
    CombineFromPreservesText(keywords, 0);
    assert keywords[0..] == keywords;
  }

  /** The walk from position `i` on: one entry per visited position, and the
      entry at a visited position is the keyword there, joined with its
      successor exactly when it is a number that is not last. */
  lemma {:induction false} CombineTraceFrom(keywords: seq<string>, i: nat)
    requires i <= |keywords|
    ensures var v, r := Visits(keywords, i), CombineFrom(keywords, i);
      |v| == |r| && forall j :: 0 <= j < |r| ==> r[j] == Piece(keywords, v[j])
    decreases |keywords| - i
  {
    if i < |keywords| {
      var w := Width(keywords, i);
      CombineTraceFrom(keywords, i + w);
      var v, r := Visits(keywords, i), CombineFrom(keywords, i);
      var restV, restR := Visits(keywords, i + w), CombineFrom(keywords, i + w);
      assert v == [i] + restV;
      CombineFromStep(keywords, i);
      forall j | 0 <= j < |r|
        ensures r[j] == Piece(keywords, v[j])
      {
        if j > 0 {
          assert r[j] == restR[j - 1] && v[j] == restV[j - 1];
        }
      }
    }
  }

  /** The combined list, entry by entry, against the positions the walk visits. */
  lemma CombineTrace(keywords: seq<string>)
    ensures var v, r := Visits(keywords, 0), CombineSpec(keywords);
      |v| == |r| && forall j :: 0 <= j < |r| ==> r[j] == Piece(keywords, v[j])
  {
    CombineTraceFrom(keywords, 0);
  }

  /** The shape of the walk from `i`: it starts at `i`, each step advances by
      the step's width (one or two), and the last step ends exactly at the end
      of the keywords, so no index past the end is ever visited. */
  lemma {:induction false} VisitsWalkFrom(keywords: seq<string>, i: nat)
    requires i <= |keywords|
    ensures var v := Visits(keywords, i);
      && (i < |keywords| <==> |v| > 0)
      && (|v| > 0 ==> v[0] == i && v[|v| - 1] + Width(keywords, v[|v| - 1]) == |keywords|)
      && (forall j :: 0 <= j < |v| - 1 ==> v[j + 1] == v[j] + Width(keywords, v[j]))
    decreases |keywords| - i
  {
    if i < |keywords| {
      VisitsWalkFrom(keywords, i + Width(keywords, i));
    }
  }

  /** Which positions the walk visits, from `i` on: a position starts a step
      exactly when it is not the successor a number at the previous visited
      position was joined with. */
  lemma {:induction false} VisitedIffNotJoinedFrom(keywords: seq<string>, i: nat, p: nat)
    requires i <= p < |keywords|
    ensures var v := Visits(keywords, i);
      p in v <==> !(p > i && p - 1 in v && Width(keywords, p - 1) == 2)
    decreases |keywords| - i
  {
    var w := Width(keywords, i);
    var v := Visits(keywords, i);
    var tail := Visits(keywords, i + w);
    assert v == [i] + tail;
    if p == i {
    } else if p == i + 1 && w == 2 {
      assert p !in tail;
    } else if p == i + 1 {
      assert p in tail by { VisitsWalkFrom(keywords, i + w); }
    } else {
      VisitedIffNotJoinedFrom(keywords, i + w, p);
      if p == i + w {
        assert p in tail by { VisitsWalkFrom(keywords, i + w); }
      } else {
        assert p - 1 in v <==> p - 1 in tail;
      }
    }
  }

  /** Which positions the walk visits: every position that is not the
      successor of a joined number, and no other. */
  lemma VisitedIffNotJoined(keywords: seq<string>, p: nat)
    requires p < |keywords|
    ensures var v := Visits(keywords, 0);
      p in v <==> !(p > 0 && p - 1 in v && Width(keywords, p - 1) == 2)
  {
    VisitedIffNotJoinedFrom(keywords, 0, p);
  }

  /** A number at a visited position that is not last is always joined with
      its immediate successor, whatever that successor is (another number
      included), and the successor does not start a step of its own. */
  lemma NumberJoinedWithSuccessor(keywords: seq<string>, p: nat)
    requires p in Visits(keywords, 0)
    requires IsDigits(keywords[p]) && p + 1 < |keywords|
    ensures p + 1 !in Visits(keywords, 0)
    ensures exists j ::
      && 0 <= j < |CombineSpec(keywords)| && j < |Visits(keywords, 0)|
      && Visits(keywords, 0)[j] == p
      && CombineSpec(keywords)[j] == keywords[p] + keywords[p + 1]
  {
    var v := Visits(keywords, 0);
    CombineTrace(keywords);
    VisitedIffNotJoined(keywords, p + 1);
    var j :| 0 <= j < |v| && v[j] == p;
    assert CombineSpec(keywords)[j] == Piece(keywords, p);
  }

  /** A keyword at a visited position that is not a number, or is the last
      keyword, appears in the combined list unchanged and on its own. */
  lemma VisitedKeywordStandsAlone(keywords: seq<string>, p: nat)
    requires p in Visits(keywords, 0)
    requires !IsDigits(keywords[p]) || p + 1 == |keywords|
    ensures exists j ::
      && 0 <= j < |CombineSpec(keywords)| && j < |Visits(keywords, 0)|
      && Visits(keywords, 0)[j] == p
      && CombineSpec(keywords)[j] == keywords[p]
  {
    var v := Visits(keywords, 0);
    CombineTrace(keywords);
    var j :| 0 <= j < |v| && v[j] == p;
    assert CombineSpec(keywords)[j] == Piece(keywords, p);
  }

  /** A keyword that does not follow a number starts a step of its own; when
      it is not a number, or is the last keyword, it appears in the combined
      list unchanged and on its own. */
  lemma KeywordStandsAlone(keywords: seq<string>, p: nat)
    requires p < |keywords|
    requires p == 0 || !IsDigits(keywords[p - 1])
    requires !IsDigits(keywords[p]) || p + 1 == |keywords|
    ensures p in Visits(keywords, 0)
    ensures exists j ::
      && 0 <= j < |CombineSpec(keywords)| && j < |Visits(keywords, 0)|
      && Visits(keywords, 0)[j] == p
      && CombineSpec(keywords)[j] == keywords[p]
  {
    VisitedIffNotJoined(keywords, p);
    VisitedKeywordStandsAlone(keywords, p);
  }

  /** Combining alphanumeric keywords gives alphanumeric entries. */
  lemma {:induction false} CombineFromKeepsAlnum(keywords: seq<string>, i: nat)
    requires i <= |keywords|
    requires forall k :: 0 <= k < |keywords| ==> IsAlnum(keywords[k])
    ensures forall j :: 0 <= j < |CombineFrom(keywords, i)| ==> IsAlnum(CombineFrom(keywords, i)[j])
    decreases |keywords| - i
  {
    if i < |keywords| {
      if IsDigits(keywords[i]) && i + 1 < |keywords| {
        AlnumConcat(keywords[i], keywords[i + 1]);
        CombineFromKeepsAlnum(keywords, i + 2);
      } else {
        CombineFromKeepsAlnum(keywords, i + 1);
      }
    }
  }
}
