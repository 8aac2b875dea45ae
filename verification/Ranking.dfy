/** The search's `similar` list: BM25 scores, their order, and the cut-off after the best five. */
module Ranking {

  const K1: real := 1.5
  const B: real := 0.75
  const SIMILAR_CAP := 5

  /** A crawler of the catalogue with the words it is found by. */
  datatype Listed = Listed(name: string, id: string, totalRuns: int, tokens: seq<string>)

  // ---- BM25 ----

  function Occurrences(tokens: seq<string>, term: string): nat {
    if tokens == [] then 0
    else Occurrences(tokens[..|tokens| - 1], term) + if tokens[|tokens| - 1] == term then 1 else 0
  }

  /** In how many documents the term occurs. */
  function DocFreq(docs: seq<seq<string>>, term: string): nat {
    if docs == [] then 0
    else DocFreq(docs[..|docs| - 1], term) + if term in docs[|docs| - 1] then 1 else 0
  }

  function TotalLength(docs: seq<seq<string>>): nat {
    if docs == [] then 0 else TotalLength(docs[..|docs| - 1]) + |docs[|docs| - 1]|
  }

  function AverageLength(docs: seq<seq<string>>): real {
    if TotalLength(docs) == 0 then 1.0 else TotalLength(docs) as real / |docs| as real
  }

  /** The logarithm, of which only this is used: it is positive above one. */
  ghost predicate LogPositive(ln: real -> real) {
    forall x: real :: x > 1.0 ==> ln(x) > 0.0
  }

  function Odds(n: nat, df: nat): real {
    1.0 + (n as real - df as real + 0.5) / (df as real + 0.5)
  }

  /** What a term occurring `f` times in a document of length `dl` adds to its score. */
  function Weight(idf: real, f: nat, dl: nat, average: real): real
    requires average > 0.0 && f > 0
  {
    DenominatorPositive(f, dl, average);
    idf * (f as real * (K1 + 1.0)) / (f as real + K1 * (1.0 - B + B * dl as real / average))
  }

  function TermScore(ln: real -> real, docs: seq<seq<string>>, tokens: seq<string>, term: string): real {
    var f, dl := Occurrences(tokens, term), if tokens == [] then 1 else |tokens|;
    if f == 0 then 0.0
    else
      AveragePositive(docs);
      Weight(ln(Odds(|docs|, DocFreq(docs, term))), f, dl, AverageLength(docs))
  }

  /** The score of a document, summed over the query terms. */
  function Score(ln: real -> real, docs: seq<seq<string>>, tokens: seq<string>, query: seq<string>): real {
    if query == [] then 0.0
    else Score(ln, docs, tokens, query[..|query| - 1]) + TermScore(ln, docs, tokens, query[|query| - 1])
  }

  lemma PositiveQuotient(a: real, b: real)
    requires a >= 0.0 && b > 0.0
    ensures a / b >= 0.0
    ensures a > 0.0 ==> a / b > 0.0
  {
  }

  lemma AveragePositive(docs: seq<seq<string>>)
    ensures AverageLength(docs) > 0.0
  {
    if TotalLength(docs) != 0 {
      PositiveQuotient(TotalLength(docs) as real, |docs| as real);
    }
  }

  lemma DenominatorPositive(f: nat, dl: nat, average: real)
    requires average > 0.0 && f > 0
    ensures f as real + K1 * (1.0 - B + B * dl as real / average) > 0.0
  {
    PositiveQuotient(B * dl as real, average);
  }

  lemma PositiveProduct(a: real, b: real)
    requires a > 0.0 && b > 0.0
    ensures a * b > 0.0
  {
  }

  lemma WeightPositive(idf: real, f: nat, dl: nat, average: real)
    requires average > 0.0 && f > 0 && idf > 0.0
    ensures Weight(idf, f, dl, average) > 0.0
  {
    DenominatorPositive(f, dl, average);
    PositiveProduct(f as real, K1 + 1.0);
    PositiveProduct(idf, f as real * (K1 + 1.0));
    PositiveQuotient(idf * (f as real * (K1 + 1.0)), f as real + K1 * (1.0 - B + B * dl as real / average));
  }

  // ---- what is counted ----

  /** How often a term occurs. */
  lemma {:induction false} OccurrencesAre(tokens: seq<string>, term: string)
    ensures Occurrences(tokens, term) == multiset(tokens)[term]
  {
    if tokens != [] {
      OccurrencesAre(tokens[..|tokens| - 1], term);
      assert tokens == tokens[..|tokens| - 1] + [tokens[|tokens| - 1]];
    }
  }

  /** The documents a term occurs in. */
  function DocsWith(docs: seq<seq<string>>, term: string): set<nat> {
    set i: nat | i < |docs| && term in docs[i]
  }

  lemma {:induction false} DocFreqIs(docs: seq<seq<string>>, term: string)
    ensures DocFreq(docs, term) == |DocsWith(docs, term)|
  {
    if docs != [] {
      var init, n := docs[..|docs| - 1], |docs| - 1;
      DocFreqIs(init, term);
      assert DocsWith(docs, term) == DocsWith(init, term) + if term in docs[n] then {n} else {};
    }
  }

  lemma {:induction false} UniformTotal(docs: seq<seq<string>>, n: nat)
    requires forall i | 0 <= i < |docs| :: |docs[i]| == n
    ensures TotalLength(docs) == |docs| * n
  {
    if docs != [] {
      var init := docs[..|docs| - 1];
      UniformTotal(init, n);
      OneMoreTime(|init|, n);
    }
  }

  lemma OneMoreTime(k: nat, n: nat)
    ensures (k + 1) * n == k * n + n
  {
  }

  lemma DividedBack(a: real, k: real)
    requires k > 0.0
    ensures (k * a) / k == a && (a / k) * k == a
  {
  }

  /** Documents of one length have that length on average; and the average times their number is all words. */
  lemma AverageIs(docs: seq<seq<string>>, n: nat)
    requires docs != [] && n > 0
    ensures (forall i | 0 <= i < |docs| :: |docs[i]| == n) ==> AverageLength(docs) == n as real
    ensures TotalLength(docs) > 0 ==> AverageLength(docs) * |docs| as real == TotalLength(docs) as real
  {
    hide TotalLength;
    var k := |docs| as real;
    DividedBack(TotalLength(docs) as real, k);
    if forall i | 0 <= i < |docs| :: |docs[i]| == n {
      UniformTotal(docs, n);
      ProductCast(|docs|, n);
      PositiveProduct(k, n as real);
      DividedBack(n as real, k);
    }
  }

  lemma ProductCast(a: nat, b: nat)
    ensures (a * b) as real == a as real * b as real
  {
  }

  /** The words of a query add up. */
  lemma {:induction false} ScoresAdd(ln: real -> real, docs: seq<seq<string>>, tokens: seq<string>, a: seq<string>, b: seq<string>)
    ensures Score(ln, docs, tokens, a + b) == Score(ln, docs, tokens, a) + Score(ln, docs, tokens, b)
  {
    if b == [] {
      assert a + b == a;
    } else {
      var init, last := b[..|b| - 1], b[|b| - 1];
      ScoresAdd(ln, docs, tokens, a, init);
      assert (a + b)[..|a + b| - 1] == a + init && (a + b)[|a + b| - 1] == last;
    }
  }

  // ---- what makes a score higher ----

  /** The logarithm grows. */
  ghost predicate Increasing(ln: real -> real) {
    forall x: real, y: real :: 0.0 < x < y ==> ln(x) < ln(y)
  }

  lemma ProductGrows(a: real, b: real, c: real)
    requires c > 0.0 && a < b
    ensures a * c < b * c && c * a < c * b
  {
  }

  lemma QuotientGrows(a: real, b: real, c: real, d: real)
    requires b > 0.0 && d > 0.0 && a * d < c * b
    ensures a / b < c / d
  {
    assert a / b == (a * d) / (b * d) by {
      assert a == (a / b) * b;
      assert a * d == (a / b) * (b * d);
    }
    assert c / d == (c * b) / (b * d) by {
      assert c == (c / d) * d;
      assert c * b == (c / d) * (b * d);
    }
    PositiveProduct(b, d);
  }

  /** The part of the length in the weight's denominator. */
  function LengthPart(dl: nat, average: real): real
    requires average > 0.0
  {
    K1 * (1.0 - B + B * dl as real / average)
  }

  lemma LengthPartGrows(dl: nat, dl': nat, average: real)
    requires average > 0.0 && dl < dl'
    ensures 0.0 < LengthPart(dl, average) < LengthPart(dl', average)
  {
    PositiveQuotient(B * dl as real, average);
    QuotientGrows(B * dl as real, average, B * dl' as real, average);
  }

  /** In a document of average length a term that occurs once weighs just its rarity. */
  lemma WeightAtAverage(idf: real, dl: nat)
    requires dl > 0
    ensures Weight(idf, 1, dl, dl as real) == idf
  {
    assert B * dl as real / dl as real == B;
    assert 1.0 + K1 * (1.0 - B + B) == 2.5;
    assert idf * (1.0 * (K1 + 1.0)) == idf * 2.5;
  }

  /** The Okapi formula, with k1 = 1.5 and b = 0.75. */
  lemma WeightIs(idf: real, f: nat, dl: nat, average: real)
    requires average > 0.0 && f > 0
    ensures f as real + 1.5 * (0.25 + 0.75 * dl as real / average) > 0.0
    ensures Weight(idf, f, dl, average) == idf * (f as real * 2.5) / (f as real + 1.5 * (0.25 + 0.75 * dl as real / average))
  {
    DenominatorPositive(f, dl, average);
    var q := 0.75 * dl as real / average;
    assert B * dl as real / average == q;
    assert K1 * (1.0 - B + q) == 1.5 * (0.25 + q);
    assert f as real * (K1 + 1.0) == f as real * 2.5;
  }

  /** A rarer term weighs more. */
  lemma RarerWeighsMore(idf: real, idf': real, f: nat, dl: nat, average: real)
    requires average > 0.0 && f > 0 && idf < idf'
    ensures Weight(idf, f, dl, average) < Weight(idf', f, dl, average)
  {
    DenominatorPositive(f, dl, average);
    var n, d := f as real * (K1 + 1.0), f as real + K1 * (1.0 - B + B * dl as real / average);
    ProductGrows(idf, idf', n);
    ProductGrows(idf * n, idf' * n, d);
    QuotientGrows(idf * n, d, idf' * n, d);
  }

  /** A term that occurs more often weighs more. */
  lemma OftenerWeighsMore(idf: real, f: nat, f': nat, dl: nat, average: real)
    requires average > 0.0 && 0 < f < f' && idf > 0.0
    ensures Weight(idf, f, dl, average) < Weight(idf, f', dl, average)
  {
    DenominatorPositive(f, dl, average);
    DenominatorPositive(f', dl, average);
    PositiveQuotient(B * dl as real, average);
    var part, a, b := K1 * (1.0 - B + B * dl as real / average), f as real, f' as real;
    PositiveProduct(idf, K1 + 1.0);
    var c := idf * (K1 + 1.0);
    assert part > 0.0;
    assert idf * (a * (K1 + 1.0)) == c * a && idf * (b * (K1 + 1.0)) == c * b;
    ProductGrows(a * part, b * part, c) by {
      ProductGrows(a, b, part);
    }
    assert (c * a) * (b + part) == c * (a * b) + c * (a * part);
    assert (c * b) * (a + part) == c * (a * b) + c * (b * part);
    QuotientGrows(c * a, a + part, c * b, b + part);
  }

  /** A term weighs more in a shorter document. */
  lemma ShorterWeighsMore(idf: real, f: nat, dl: nat, dl': nat, average: real)
    requires average > 0.0 && f > 0 && idf > 0.0 && dl < dl'
    ensures Weight(idf, f, dl, average) > Weight(idf, f, dl', average)
  {
    DenominatorPositive(f, dl, average);
    DenominatorPositive(f, dl', average);
    LengthPartGrows(dl, dl', average);
    var n := idf * (f as real * (K1 + 1.0));
    PositiveProduct(f as real, K1 + 1.0);
    PositiveProduct(idf, f as real * (K1 + 1.0));
    ProductGrows(f as real + LengthPart(dl, average), f as real + LengthPart(dl', average), n);
    QuotientGrows(n, f as real + LengthPart(dl', average), n, f as real + LengthPart(dl, average));
  }

  lemma OddsFall(n: nat, df: nat, df': nat)
    requires df < df' <= n
    ensures 1.0 < Odds(n, df') < Odds(n, df)
  {
    var a, b := n as real - df as real + 0.5, n as real - df' as real + 0.5;
    var c, d := df as real + 0.5, df' as real + 0.5;
    PositiveQuotient(b, d);
    ProductGrows(b, a, c);
    ProductGrows(c, d, a);
    QuotientGrows(b, d, a, c);
  }

  /** Of two documents that hold a term each, as often and in the same length, and of two terms, the rarer one
      scores strictly more. */
  lemma RarerScoresMore(ln: real -> real, docs: seq<seq<string>>, tokens: seq<string>, common: string, rare: string)
    requires Increasing(ln) && DocFreq(docs, rare) < DocFreq(docs, common)
    requires Occurrences(tokens, rare) == Occurrences(tokens, common) > 0
    ensures TermScore(ln, docs, tokens, rare) > TermScore(ln, docs, tokens, common)
  {
    DocFreqBound(docs, common);
    AveragePositive(docs);
    OddsFall(|docs|, DocFreq(docs, rare), DocFreq(docs, common));
    var dl := if tokens == [] then 1 else |tokens|;
    RarerWeighsMore(ln(Odds(|docs|, DocFreq(docs, common))), ln(Odds(|docs|, DocFreq(docs, rare))), Occurrences(tokens, rare),
                    dl, AverageLength(docs));
  }

  lemma RarityIsPositive(ln: real -> real, docs: seq<seq<string>>, term: string)
    requires LogPositive(ln)
    ensures ln(Odds(|docs|, DocFreq(docs, term))) > 0.0
  {
    DocFreqBound(docs, term);
    PositiveQuotient(|docs| as real - DocFreq(docs, term) as real + 0.5, DocFreq(docs, term) as real + 0.5);
  }

  /** Of two documents of a length, the one that holds a term more often scores strictly more for it; and of
      two that hold it as often, the shorter one. */
  lemma DenserScoresMore(ln: real -> real, docs: seq<seq<string>>, more: seq<string>, less: seq<string>, term: string)
    requires LogPositive(ln)
    requires Occurrences(more, term) >= Occurrences(less, term) > 0 && |more| <= |less|
    requires Occurrences(more, term) > Occurrences(less, term) || |more| < |less|
    ensures TermScore(ln, docs, more, term) > TermScore(ln, docs, less, term)
  {
    AveragePositive(docs);
    RarityIsPositive(ln, docs, term);
    OccursIff(more, term);
    OccursIff(less, term);
    var idf, average := ln(Odds(|docs|, DocFreq(docs, term))), AverageLength(docs);
    var f, f' := Occurrences(less, term), Occurrences(more, term);
    if f < f' {
      OftenerWeighsMore(idf, f, f', |less|, average);
    }
    if |more| < |less| {
      ShorterWeighsMore(idf, f', |more|, |less|, average);
    }
  }

  lemma {:induction false} DocFreqBound(docs: seq<seq<string>>, term: string)
    ensures DocFreq(docs, term) <= |docs|
  {
    if docs != [] {
      DocFreqBound(docs[..|docs| - 1], term);
    }
  }

  lemma {:induction false} OccursIff(tokens: seq<string>, term: string)
    ensures Occurrences(tokens, term) > 0 <==> term in tokens
  {
    if tokens != [] {
      OccursIff(tokens[..|tokens| - 1], term);
      assert tokens == tokens[..|tokens| - 1] + [tokens[|tokens| - 1]];
    }
  }

  lemma TermScoreSign(ln: real -> real, docs: seq<seq<string>>, tokens: seq<string>, term: string)
    requires LogPositive(ln)
    ensures TermScore(ln, docs, tokens, term) >= 0.0
    ensures TermScore(ln, docs, tokens, term) > 0.0 <==> term in tokens
  {
    OccursIff(tokens, term);
    var dl := if tokens == [] then 1 else |tokens|;
    if term in tokens {
      DocFreqBound(docs, term);
      AveragePositive(docs);
      PositiveQuotient(|docs| as real - DocFreq(docs, term) as real + 0.5, DocFreq(docs, term) as real + 0.5);
      WeightPositive(ln(Odds(|docs|, DocFreq(docs, term))), Occurrences(tokens, term), dl, AverageLength(docs));
    }
  }

  predicate Shares(tokens: seq<string>, query: seq<string>) {
    exists t | t in query :: t in tokens
  }

  /** A score is positive exactly when the document contains a query term, however common the term is. */
  lemma {:induction false} PositiveIffShares(ln: real -> real, docs: seq<seq<string>>, tokens: seq<string>, query: seq<string>)
    requires LogPositive(ln)
    ensures Score(ln, docs, tokens, query) >= 0.0
    ensures Score(ln, docs, tokens, query) > 0.0 <==> Shares(tokens, query)
  {
    if query != [] {
      var init, last := query[..|query| - 1], query[|query| - 1];
      PositiveIffShares(ln, docs, tokens, init);
      TermScoreSign(ln, docs, tokens, last);
      assert query == init + [last];
      if Shares(tokens, init) {
        var t :| t in init && t in tokens;
        assert t in query;
      }
    }
  }

  /** `_bm25_scores`. */
  method Bm25Scores(ln: real -> real, query: seq<string>, docs: seq<seq<string>>) returns (scores: seq<real>)
    ensures |scores| == |docs| && forall i | 0 <= i < |docs| :: scores[i] == if query == [] then 0.0 else Score(ln, docs, docs[i], query)
  {
    if docs == [] || query == [] {
      return seq(|docs|, i => 0.0);
    }
    var docFreq := DocumentFrequencies(docs);
    var total := 0;
    for i := 0 to |docs|
      invariant total == TotalLength(docs[..i])
    {
      assert docs[..i + 1][..i] == docs[..i];
      total := total + |docs[i]|;
    }
    assert docs[..|docs|] == docs;
    var average := if total == 0 then 1.0 else total as real / |docs| as real;
    AveragePositive(docs);
    scores := [];
    for d := 0 to |docs|
      invariant |scores| == d && forall i | 0 <= i < d :: scores[i] == Score(ln, docs, docs[i], query)
    {
      var score := ScoreOne(ln, query, docs, docs[d], docFreq, average);
      scores := scores + [score];
    }
  }

  method DocumentFrequencies(docs: seq<seq<string>>) returns (docFreq: map<string, nat>)
    ensures forall t :: (if t in docFreq then docFreq[t] else 0) == DocFreq(docs, t)
  {
    docFreq := map[];
    for d := 0 to |docs|
      invariant forall t :: (if t in docFreq then docFreq[t] else 0) == DocFreq(docs[..d], t)
    {
      assert docs[..d + 1][..d] == docs[..d];
      ghost var before := docFreq;
      var words := set t | t in docs[d];
      ghost var all := words;
      while words != {}
        invariant words <= all
        invariant forall t :: (if t in docFreq then docFreq[t] else 0) ==
                              (if t in before then before[t] else 0) + if t in all && t !in words then 1 else 0
      {
        var t :| t in words;
        docFreq := docFreq[t := (if t in docFreq then docFreq[t] else 0) + 1];
        words := words - {t};
      }
    }
    assert docs[..|docs|] == docs;
  }

  method ScoreOne(ln: real -> real, query: seq<string>, docs: seq<seq<string>>, tokens: seq<string>,
                  docFreq: map<string, nat>, average: real) returns (score: real)
    requires average == AverageLength(docs) && average > 0.0
    requires forall t :: (if t in docFreq then docFreq[t] else 0) == DocFreq(docs, t)
    ensures score == Score(ln, docs, tokens, query)
  {
    var tf: map<string, nat> := map[];
    for i := 0 to |tokens|
      invariant forall t :: (if t in tf then tf[t] else 0) == Occurrences(tokens[..i], t)
    {
      assert tokens[..i + 1][..i] == tokens[..i];
      tf := tf[tokens[i] := (if tokens[i] in tf then tf[tokens[i]] else 0) + 1];
    }
    assert tokens[..|tokens|] == tokens;
    var dl := if tokens == [] then 1 else |tokens|;
    score := 0.0;
    for i := 0 to |query|
      invariant score == Score(ln, docs, tokens, query[..i])
    {
      assert query[..i + 1][..i] == query[..i];
      var term := query[i];
      var f := if term in tf then tf[term] else 0;
      if f > 0 {
        var df := if term in docFreq then docFreq[term] else 0;
        score := score + Weight(ln(Odds(|docs|, df)), f, dl, average);
      }
    }
    assert query[..|query|] == query;
  }

  // ---- the order ----

  /** Python's order of strings. */
  predicate TextLess(a: string, b: string) {
    b != [] && (a == [] || a[0] < b[0] || (a[0] == b[0] && TextLess(a[1..], b[1..])))
  }

  lemma PartLater(a: string, b: string, i: nat)
    requires i < |a| && i < |b| && a[..i] == b[..i]
    ensures i == 0 || a[0] == b[0]
  {
    if i > 0 {
      assert a[..i][0] == a[0] && b[..i][0] == b[0];
    }
  }

  /** One text is less than another exactly when it is the beginning of it, or smaller where they part. */
  lemma {:induction false} TextLessIff(a: string, b: string)
    ensures TextLess(a, b) <==>
            (a <= b && a != b) || exists i | 0 <= i < |a| && i < |b| :: a[..i] == b[..i] && a[i] < b[i]
  {
    if a != [] && b != [] {
      var s, t := a[1..], b[1..];
      assert a == [a[0]] + s && b == [b[0]] + t;
      TextLessIff(s, t);
      if a[0] == b[0] {
        if i :| 0 <= i < |s| && i < |t| && s[..i] == t[..i] && s[i] < t[i] {
          assert a[..i + 1] == [a[0]] + s[..i] && b[..i + 1] == [b[0]] + t[..i];
          assert a[i + 1] < b[i + 1];
        }
        if i :| 0 <= i < |a| && i < |b| && a[..i] == b[..i] && a[i] < b[i] {
          assert s[..i - 1] == a[..i][1..] && t[..i - 1] == b[..i][1..];
          assert s[i - 1] < t[i - 1];
        }
      } else {
        assert a[..0] == b[..0];
        forall i | 0 <= i < |a| && i < |b| && a[..i] == b[..i] ensures i == 0 || a[0] == b[0] {
          PartLater(a, b, i);
        }
      }
    }
  }

  lemma {:induction false} TextTotal(a: string, b: string)
    ensures TextLess(a, b) || a == b || TextLess(b, a)
  {
    if a != [] && b != [] && a[0] == b[0] {
      TextTotal(a[1..], b[1..]);
      if a[1..] == b[1..] {
        assert a == [a[0]] + a[1..] && b == [b[0]] + b[1..];
      }
    }
  }

  lemma {:induction false} TextTransitive(a: string, b: string, c: string)
    requires TextLess(a, b) && TextLess(b, c)
    ensures TextLess(a, c)
  {
    if a != [] && a[0] == b[0] && b[0] == c[0] {
      TextTransitive(a[1..], b[1..], c[1..]);
    }
  }

  function NameOf(c: Listed): string {
    if c.name != "" then c.name else c.id
  }

  /** The sort key: score and runs descending, then the name; entries that tie keep their order. */
  predicate Before(catalog: seq<Listed>, scores: seq<real>, i: nat, j: nat)
    requires i < |catalog| == |scores| && j < |catalog|
  {
    || scores[i] > scores[j]
    || (scores[i] == scores[j] && catalog[i].totalRuns > catalog[j].totalRuns)
    || (scores[i] == scores[j] && catalog[i].totalRuns == catalog[j].totalRuns
        && (TextLess(NameOf(catalog[i]), NameOf(catalog[j])) || (NameOf(catalog[i]) == NameOf(catalog[j]) && i < j)))
  }

  /** A better score comes first; among equals the crawler that ran more often; among these the name decides,
      and a crawler without one goes by its id. */
  lemma BeforeIs(catalog: seq<Listed>, scores: seq<real>, i: nat, j: nat)
    requires i < |catalog| == |scores| && j < |catalog| && Before(catalog, scores, i, j)
    ensures scores[i] >= scores[j]
    ensures scores[i] == scores[j] ==> catalog[i].totalRuns >= catalog[j].totalRuns
    ensures scores[i] == scores[j] && catalog[i].totalRuns == catalog[j].totalRuns ==>
              var a := if catalog[i].name == "" then catalog[i].id else catalog[i].name;
              var b := if catalog[j].name == "" then catalog[j].id else catalog[j].name;
              TextLess(a, b) || (a == b && i < j)
  {
  }

  lemma BeforeTotal(catalog: seq<Listed>, scores: seq<real>, i: nat, j: nat)
    requires i < |catalog| == |scores| && j < |catalog| && i != j
    ensures Before(catalog, scores, i, j) || Before(catalog, scores, j, i)
  {
    TextTotal(NameOf(catalog[i]), NameOf(catalog[j]));
  }

  lemma BeforeTransitive(catalog: seq<Listed>, scores: seq<real>, i: nat, j: nat, k: nat)
    requires i < |catalog| == |scores| && j < |catalog| && k < |catalog|
    requires Before(catalog, scores, i, j) && Before(catalog, scores, j, k)
    ensures Before(catalog, scores, i, k)
  {
    var a, b, c := NameOf(catalog[i]), NameOf(catalog[j]), NameOf(catalog[k]);
    if TextLess(a, b) && TextLess(b, c) {
      TextTransitive(a, b, c);
    }
  }

  predicate InRange(s: seq<nat>, n: nat) {
    forall k | 0 <= k < |s| :: s[k] < n
  }

  /** `sorted(range(n), key=...)`. */
  function Insert(catalog: seq<Listed>, scores: seq<real>, sorted: seq<nat>, x: nat): (r: seq<nat>)
    requires x < |catalog| == |scores| && InRange(sorted, |catalog|)
    ensures InRange(r, |catalog|) && |r| == |sorted| + 1
  {
    if sorted == [] then [x]
    else if Before(catalog, scores, x, sorted[0]) then [x] + sorted
    else [sorted[0]] + Insert(catalog, scores, sorted[1..], x)
  }

  function Sorted(catalog: seq<Listed>, scores: seq<real>, n: nat): (r: seq<nat>)
    requires n <= |catalog| == |scores|
    ensures InRange(r, |catalog|) && |r| == n
  {
    if n == 0 then [] else Insert(catalog, scores, Sorted(catalog, scores, n - 1), n - 1)
  }

  ghost predicate InOrder(catalog: seq<Listed>, scores: seq<real>, r: seq<nat>)
    requires |catalog| == |scores| && InRange(r, |catalog|)
  {
    forall a, b | 0 <= a < b < |r| :: Before(catalog, scores, r[a], r[b])
  }

  lemma {:induction false} InsertHas(catalog: seq<Listed>, scores: seq<real>, sorted: seq<nat>, x: nat, y: nat)
    requires x < |catalog| == |scores| && InRange(sorted, |catalog|)
    ensures y in Insert(catalog, scores, sorted, x) <==> y == x || y in sorted
  {
    if sorted != [] {
      assert sorted == [sorted[0]] + sorted[1..];
      if !Before(catalog, scores, x, sorted[0]) {
        InsertHas(catalog, scores, sorted[1..], x, y);
      }
    }
  }

  lemma {:induction false} SortedHas(catalog: seq<Listed>, scores: seq<real>, n: nat, y: nat)
    requires n <= |catalog| == |scores|
    ensures y in Sorted(catalog, scores, n) <==> y < n
  {
    if n > 0 {
      SortedHas(catalog, scores, n - 1, y);
      InsertHas(catalog, scores, Sorted(catalog, scores, n - 1), n - 1, y);
    }
  }

  lemma {:induction false} InsertInOrder(catalog: seq<Listed>, scores: seq<real>, sorted: seq<nat>, x: nat)
    requires x < |catalog| == |scores| && InRange(sorted, |catalog|) && x !in sorted
    requires InOrder(catalog, scores, sorted)
    ensures InOrder(catalog, scores, Insert(catalog, scores, sorted, x))
  {
    hide Before;
    var r := Insert(catalog, scores, sorted, x);
    if sorted != [] {
      var head, tail := sorted[0], sorted[1..];
      assert sorted == [head] + tail;
      if Before(catalog, scores, x, head) {
        forall b | 1 <= b < |r| ensures Before(catalog, scores, x, r[b]) {
          assert r[b] == sorted[b - 1];
          if b > 1 {
            BeforeTransitive(catalog, scores, x, head, r[b]);
          }
        }
      } else {
        BeforeTotal(catalog, scores, x, head);
        InsertInOrder(catalog, scores, tail, x);
        var rest := Insert(catalog, scores, tail, x);
        forall b | 1 <= b < |r| ensures Before(catalog, scores, head, r[b]) {
          assert r[b] == rest[b - 1] && rest[b - 1] in rest;
          InsertHas(catalog, scores, tail, x, rest[b - 1]);
          if rest[b - 1] != x {
            var k :| 0 <= k < |tail| && tail[k] == rest[b - 1];
            assert sorted[k + 1] == tail[k];
          }
        }
        forall a, b | 0 <= a < b < |r| ensures Before(catalog, scores, r[a], r[b]) {
          if a > 0 {
            assert r[a] == rest[a - 1] && r[b] == rest[b - 1];
          }
        }
      }
    }
  }

  lemma {:induction false} SortedInOrder(catalog: seq<Listed>, scores: seq<real>, n: nat)
    requires n <= |catalog| == |scores|
    ensures InOrder(catalog, scores, Sorted(catalog, scores, n))
  {
    if n > 0 {
      SortedInOrder(catalog, scores, n - 1);
      SortedHas(catalog, scores, n - 1, n - 1);
      InsertInOrder(catalog, scores, Sorted(catalog, scores, n - 1), n - 1);
    }
  }

  // ---- the cut-off ----

  datatype Similar = Similar(entry: nat, matched: seq<string>, missing: seq<string>)

  function Found(query: seq<string>, tokens: seq<string>, present: bool): seq<string> {
    if query == [] then []
    else
      var before, last := Found(query[..|query| - 1], tokens, present), query[|query| - 1];
      if (last in tokens) == present then before + [last] else before
  }

  lemma {:induction false} FoundIff(query: seq<string>, tokens: seq<string>, present: bool, t: string)
    ensures t in Found(query, tokens, present) <==> t in query && (t in tokens) == present
  {
    if query != [] {
      FoundIff(query[..|query| - 1], tokens, present, t);
      assert query == query[..|query| - 1] + [query[|query| - 1]];
    }
  }

  lemma {:induction false} FoundPartition(query: seq<string>, tokens: seq<string>)
    ensures |Found(query, tokens, true)| + |Found(query, tokens, false)| == |query|
  {
    if query != [] {
      FoundPartition(query[..|query| - 1], tokens);
    }
  }

  function TokensOf(catalog: seq<Listed>): seq<seq<string>> {
    seq(|catalog|, i requires 0 <= i < |catalog| => catalog[i].tokens)
  }

  function Scores(ln: real -> real, query: seq<string>, catalog: seq<Listed>): seq<real> {
    seq(|catalog|, i requires 0 <= i < |catalog| => Score(ln, TokensOf(catalog), catalog[i].tokens, query))
  }

  /** The row says which query terms the entry has and which it lacks: at least one of the former, and
      together all of them. */
  ghost predicate RowOk(query: seq<string>, catalog: seq<Listed>, s: Similar) {
    && s.entry < |catalog| && s.matched != [] && |s.matched| + |s.missing| == |query|
    && (forall t | t in s.matched :: t in query && t in catalog[s.entry].tokens)
    && (forall t | t in s.missing :: t in query && t !in catalog[s.entry].tokens)
  }

  function Entries(out: seq<Similar>): seq<nat> {
    seq(|out|, i requires 0 <= i < |out| => out[i].entry)
  }

  /** The best five of the entries that share a term with the query, in order: whatever else shares one
      comes after all of them, and is there only when the five places are taken. */
  ghost predicate BestFive(query: seq<string>, catalog: seq<Listed>, scores: seq<real>, out: seq<Similar>)
    requires |scores| == |catalog|
  {
    && |out| <= 5
    && (forall s | s in out :: RowOk(query, catalog, s))
    && (forall a, b | 0 <= a < b < |out| && out[a].entry < |catalog| && out[b].entry < |catalog| ::
          Before(catalog, scores, out[a].entry, out[b].entry))
    && (forall i | 0 <= i < |catalog| && Shares(catalog[i].tokens, query) && i !in Entries(out) ::
          |out| == 5
          && forall a | 0 <= a < |out| && out[a].entry < |catalog| :: Before(catalog, scores, out[a].entry, i))
  }

  function MakeRow(query: seq<string>, catalog: seq<Listed>, i: nat): Similar
    requires i < |catalog|
  {
    Similar(i, Found(query, catalog[i].tokens, true), Found(query, catalog[i].tokens, false))
  }

  lemma RowIsOk(query: seq<string>, catalog: seq<Listed>, i: nat)
    requires i < |catalog| && Shares(catalog[i].tokens, query)
    ensures RowOk(query, catalog, MakeRow(query, catalog, i))
  {
    var tokens := catalog[i].tokens;
    forall t ensures t in Found(query, tokens, true) <==> t in query && t in tokens {
      FoundIff(query, tokens, true, t);
    }
    forall t ensures t in Found(query, tokens, false) <==> t in query && t !in tokens {
      FoundIff(query, tokens, false, t);
    }
    FoundPartition(query, tokens);
    var t :| t in query && t in tokens;
    assert t in Found(query, tokens, true);
  }

  /** Behind an entry whose score is not positive nothing shares a term. */
  lemma NothingSharesFrom(ln: real -> real, query: seq<string>, catalog: seq<Listed>, ranked: seq<nat>, k: nat)
    requires LogPositive(ln) && k < |ranked| && InRange(ranked, |catalog|)
    requires InOrder(catalog, Scores(ln, query, catalog), ranked) && Scores(ln, query, catalog)[ranked[k]] <= 0.0
    ensures forall b | k <= b < |ranked| :: !Shares(catalog[ranked[b]].tokens, query)
  {
    var scores := Scores(ln, query, catalog);
    forall b | k <= b < |ranked| ensures !Shares(catalog[ranked[b]].tokens, query) {
      assert b == k || Before(catalog, scores, ranked[k], ranked[b]);
      assert scores[ranked[b]] <= 0.0;
      PositiveIffShares(ln, TokensOf(catalog), catalog[ranked[b]].tokens, query);
    }
  }

  /** The rows are those of the first entries in order, and the rest was cut off for one of two reasons. */
  lemma CutOff(query: seq<string>, catalog: seq<Listed>, scores: seq<real>, out: seq<Similar>)
    requires |scores| == |catalog|
    requires var ranked := Sorted(catalog, scores, |catalog|);
      && |out| <= |ranked| && |out| <= SIMILAR_CAP
      && (forall a | 0 <= a < |out| :: out[a].entry == ranked[a] && RowOk(query, catalog, out[a]))
      && (|out| == SIMILAR_CAP || forall b | |out| <= b < |ranked| :: !Shares(catalog[ranked[b]].tokens, query))
    ensures BestFive(query, catalog, scores, out)
  {
    var ranked := Sorted(catalog, scores, |catalog|);
    SortedInOrder(catalog, scores, |catalog|);
    forall a | 0 <= a < |out| ensures ranked[a] in Entries(out) {
      assert Entries(out)[a] == ranked[a];
    }
    forall i | 0 <= i < |catalog| && Shares(catalog[i].tokens, query) && i !in Entries(out)
      ensures |out| == 5
      ensures forall a | 0 <= a < |out| && out[a].entry < |catalog| :: Before(catalog, scores, out[a].entry, i)
    {
      SortedHas(catalog, scores, |catalog|, i);
      var b :| 0 <= b < |ranked| && ranked[b] == i;
    }
  }

  /** `_similar_matches`, on a query already split into distinct words. */
  method SimilarMatches(ln: real -> real, query: seq<string>, catalog: seq<Listed>) returns (out: seq<Similar>)
    requires LogPositive(ln)
    ensures BestFive(query, catalog, Scores(ln, query, catalog), out)
  {
    out := [];
    if query == [] || catalog == [] {
      return;
    }
    var docs := TokensOf(catalog);
    var scores := Bm25Scores(ln, query, docs);
    assert scores == Scores(ln, query, catalog);
    var ranked := Sorted(catalog, scores, |catalog|);
    SortedInOrder(catalog, scores, |catalog|);
    var k := 0;
    while k < |ranked|
      invariant 0 <= k <= |ranked| && |out| == k && k < SIMILAR_CAP
      invariant forall a | 0 <= a < k :: out[a].entry == ranked[a] && RowOk(query, catalog, out[a])
    {
      var i := ranked[k];
      PositiveIffShares(ln, docs, catalog[i].tokens, query);
      if scores[i] <= 0.0 {
        NothingSharesFrom(ln, query, catalog, ranked, k);
        break;
      }
      RowIsOk(query, catalog, i);
      out := out + [MakeRow(query, catalog, i)];
      k := k + 1;
      if |out| >= SIMILAR_CAP {
        break;
      }
    }
    CutOff(query, catalog, scores, out);
  }
}
