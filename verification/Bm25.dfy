/** BM25 in its two loop orders (`research_rank.py`, `eval_baselines.py`) and the scan that keeps
    only chunks sharing a token with the query (`research_ablation.py`). Tokens are opaque; the
    natural logarithm is the parameter `ln`, of which only `ln(x) > 0` for `x > 1` is used. */
module Bm25 {
  import opened Prelude

  type Token = nat
  type Tokens = seq<Token>

  datatype Params = Params(k1: real, b: real, ln: real -> real)

  ghost predicate Sensible(p: Params) {
    p.k1 >= 0.0 && 0.0 <= p.b <= 1.0 && forall x: real | x > 1.0 :: p.ln(x) > 0.0
  }

  // ------------------------------------------------------------ specification

  lemma {:induction false} FreqPositive(doc: Tokens, t: Token)
    ensures Times(doc, t) > 0 <==> t in doc
    ensures Times(doc, t) <= |doc|
  {
    if doc != [] {
      FreqPositive(doc[..|doc| - 1], t);
      assert doc == doc[..|doc| - 1] + [doc[|doc| - 1]];
    }
  }

  function DocFreq(docs: seq<Tokens>, t: Token): nat {
    if docs == [] then 0
    else DocFreq(docs[..|docs| - 1], t) + if t in docs[|docs| - 1] then 1 else 0
  }

  lemma {:induction false} DocFreqBounds(docs: seq<Tokens>, t: Token)
    ensures DocFreq(docs, t) <= |docs|
    ensures DocFreq(docs, t) > 0 <==> exists i | 0 <= i < |docs| :: t in docs[i]
  {
    if docs != [] {
      var front := docs[..|docs| - 1];
      DocFreqBounds(front, t);
      if exists i | 0 <= i < |docs| :: t in docs[i] {
        var i :| 0 <= i < |docs| && t in docs[i];
        if i < |front| { assert t in front[i]; }
      }
      if DocFreq(front, t) > 0 {
        var i :| 0 <= i < |front| && t in front[i];
        assert t in docs[i];
      }
    }
  }

  function TotalLength(docs: seq<Tokens>): nat {
    if docs == [] then 0 else TotalLength(docs[..|docs| - 1]) + |docs[|docs| - 1]|
  }

  lemma {:induction false} TotalLengthAtLeast(docs: seq<Tokens>, i: nat)
    requires i < |docs|
    ensures TotalLength(docs) >= |docs[i]|
  {
    if i < |docs| - 1 { TotalLengthAtLeast(docs[..|docs| - 1], i); }
  }

  /** Lengths of collections add up, and one document brings its own. */
  lemma {:induction false} LengthsAddUp(a: seq<Tokens>, b: seq<Tokens>)
    ensures TotalLength(a + b) == TotalLength(a) + TotalLength(b)
    ensures forall d: Tokens :: TotalLength([d]) == |d|
  {
    hide TotalLength;
    forall d: Tokens ensures TotalLength([d]) == |d| {
      TotalLengthSnoc([], d);
      assert [] + [d] == [d];
    }
    if b == [] {
      TotalLengthSnoc([], []);
      assert a + b == a;
    } else {
      var front, d := b[..|b| - 1], b[|b| - 1];
      LengthsAddUp(a, front);
      assert b == front + [d] && a + b == (a + front) + [d];
      TotalLengthSnoc(front, d);
      TotalLengthSnoc(a + front, d);
    }
  }

  lemma TotalLengthSnoc(docs: seq<Tokens>, d: Tokens)
    ensures TotalLength(docs + [d]) == TotalLength(docs) + |d| && TotalLength([]) == 0
  {
    assert (docs + [d])[..|docs|] == docs;
  }

  /** Mean document length, 0 without documents. */
  function AverageLength(docs: seq<Tokens>): real {
    if docs == [] then 0.0 else TotalLength(docs) as real / |docs| as real
  }

  function IdfArgument(n: nat, c: nat): real { 1.0 + (n as real - c as real + 0.5) / (c as real + 0.5) }

  function Idf(p: Params, docs: seq<Tokens>, t: Token): real { p.ln(IdfArgument(|docs|, DocFreq(docs, t))) }

  /** The document length relative to the average, weighted by `b`. */
  function LengthNorm(p: Params, length: nat, average: real): real {
    1.0 - p.b + p.b * (if average == 0.0 then 0.0 else length as real / average)
  }

  function Denominator(p: Params, f: nat, length: nat, average: real): real {
    f as real + p.k1 * LengthNorm(p, length, average)
  }

  lemma QuotientSign(x: real, y: real)
    requires x >= 0.0 && y > 0.0
    ensures x / y >= 0.0 && (x > 0.0 ==> x / y > 0.0)
  {
    var q := x / y;
    assert q * y == x;
  }

  lemma DenominatorPositive(p: Params, f: nat, length: nat, average: real)
    requires p.k1 >= 0.0 && 0.0 <= p.b <= 1.0 && f > 0 && average >= 0.0
    ensures Denominator(p, f, length, average) > 0.0
  {
    var q := if average == 0.0 then 0.0 else length as real / average;
    if average != 0.0 { QuotientSign(length as real, average); }
    ProductSign(p.b, q);
    assert LengthNorm(p, length, average) >= 0.0;
    ProductSign(p.k1, LengthNorm(p, length, average));
  }

  /** `idf * f * (k1 + 1) / denominator` for a token that occurs `f > 0` times. */
  function Weigh(p: Params, idf: real, f: nat, length: nat, average: real): real
    requires p.k1 >= 0.0 && 0.0 <= p.b <= 1.0 && f > 0 && average >= 0.0
  {
    DenominatorPositive(p, f, length, average);
    idf * f as real * (p.k1 + 1.0) / Denominator(p, f, length, average)
  }

  /** What one query token adds to the score of document `i`. */
  function Gain(p: Params, docs: seq<Tokens>, i: nat, t: Token): real
    requires i < |docs| && p.k1 >= 0.0 && 0.0 <= p.b <= 1.0
  {
    var f := Times(docs[i], t);
    if f == 0 then 0.0
    else
      AverageIsNotNegative(docs);
      Weigh(p, Idf(p, docs, t), f, |docs[i]|, AverageLength(docs))
  }

  lemma AverageIsNotNegative(docs: seq<Tokens>)
    ensures AverageLength(docs) >= 0.0
  {
    if docs != [] { QuotientSign(TotalLength(docs) as real, |docs| as real); }
  }

  lemma AverageIsPositive(docs: seq<Tokens>, i: nat)
    requires i < |docs| && docs[i] != []
    ensures AverageLength(docs) > 0.0
  {
    TotalLengthAtLeast(docs, i);
    QuotientSign(TotalLength(docs) as real, |docs| as real);
  }

  /** The BM25 score of document `i`; a repeated query token counts every time. */
  function Score(p: Params, docs: seq<Tokens>, i: nat, query: Tokens): real
    requires i < |docs| && p.k1 >= 0.0 && 0.0 <= p.b <= 1.0
  {
    if query == [] then 0.0
    else Score(p, docs, i, query[..|query| - 1]) + Gain(p, docs, i, query[|query| - 1])
  }

  predicate Overlaps(query: Tokens, doc: Tokens) { exists k | 0 <= k < |query| :: query[k] in doc }

  lemma IdfIsPositive(p: Params, docs: seq<Tokens>, t: Token)
    requires Sensible(p)
    ensures Idf(p, docs, t) > 0.0
  {
    DocFreqBounds(docs, t);
    var n, c := |docs|, DocFreq(docs, t);
    QuotientSign(n as real - c as real + 0.5, c as real + 0.5);
    assert IdfArgument(n, c) > 1.0;
  }

  lemma GainIsPositive(p: Params, docs: seq<Tokens>, i: nat, t: Token)
    requires Sensible(p) && i < |docs|
    ensures if t in docs[i] then Gain(p, docs, i, t) > 0.0 else Gain(p, docs, i, t) == 0.0
  {
    FreqPositive(docs[i], t);
    if t in docs[i] {
      IdfIsPositive(p, docs, t);
      AverageIsNotNegative(docs);
      var f := Times(docs[i], t);
      DenominatorPositive(p, f, |docs[i]|, AverageLength(docs));
      PositiveQuotient(Idf(p, docs, t), f as real, p.k1 + 1.0, Denominator(p, f, |docs[i]|, AverageLength(docs)));
    }
  }

  lemma PositiveQuotient(a: real, b: real, c: real, d: real)
    requires a > 0.0 && b > 0.0 && c > 0.0 && d > 0.0
    ensures a * b * c / d > 0.0
  {
    ProductSign(a, b);
    ProductSign(a * b, c);
    QuotientSign(a * b * c, d);
  }

  /** A score is never negative, and positive exactly when query and document share a token. */
  lemma {:induction false} PositiveExactlyOnOverlap(p: Params, docs: seq<Tokens>, i: nat, query: Tokens)
    requires Sensible(p) && i < |docs|
    ensures Score(p, docs, i, query) >= 0.0
    ensures Score(p, docs, i, query) > 0.0 <==> Overlaps(query, docs[i])
  {
    if query != [] {
      var front, t := query[..|query| - 1], query[|query| - 1];
      PositiveExactlyOnOverlap(p, docs, i, front);
      GainIsPositive(p, docs, i, t);
      if Overlaps(front, docs[i]) {
        var k :| 0 <= k < |front| && front[k] in docs[i];
        assert query[k] in docs[i];
      }
      if Overlaps(query, docs[i]) && t !in docs[i] {
        var k :| 0 <= k < |query| && query[k] in docs[i];
        assert front[k] in docs[i];
      }
    }
  }

  // ----------------------------------------------------- what a score depends on

  function Holders(docs: seq<Tokens>, t: Token): set<nat> { set i: nat | i < |docs| && t in docs[i] }

  lemma {:induction false} DocFreqIsCount(docs: seq<Tokens>, t: Token)
    ensures DocFreq(docs, t) == |Holders(docs, t)|
  {
    if docs == [] {
      assert Holders(docs, t) == {};
    } else {
      var front := docs[..|docs| - 1];
      DocFreqIsCount(front, t);
      assert Holders(docs, t) == Holders(front, t) + if t in docs[|docs| - 1] then {|docs| - 1} else {};
    }
  }

  /** Queries add up. */
  lemma {:induction false} ScoreIsAdditive(p: Params, docs: seq<Tokens>, i: nat, q: Tokens, r: Tokens)
    requires i < |docs| && p.k1 >= 0.0 && 0.0 <= p.b <= 1.0
    ensures Score(p, docs, i, q + r) == Score(p, docs, i, q) + Score(p, docs, i, r)
  {
    hide Gain;
    if r == [] {
      assert q + r == q;
    } else {
      ScoreIsAdditive(p, docs, i, q, r[..|r| - 1]);
      assert (q + r)[..|q + r| - 1] == q + r[..|r| - 1];
    }
  }

  lemma ScoreOfOne(p: Params, docs: seq<Tokens>, i: nat, t: Token)
    requires i < |docs| && p.k1 >= 0.0 && 0.0 <= p.b <= 1.0
    ensures AverageLength(docs) >= 0.0
    ensures Score(p, docs, i, [t]) ==
            if Times(docs[i], t) == 0 then 0.0
            else Weigh(p, Idf(p, docs, t), Times(docs[i], t), |docs[i]|, AverageLength(docs))
  {
    AverageIsNotNegative(docs);
    hide Weigh, Idf;
    assert [t][..0] == [];
  }

  /** The score for one token, written out: `n` documents of mean length `mean`, `c` of which hold it,
      and a document of length `l` that holds it `f` times. */
  lemma ScoreOfToken(p: Params, docs: seq<Tokens>, i: nat, t: Token,
                     n: real, c: real, f: real, l: real, mean: real, idf: real)
    requires i < |docs| && p.k1 >= 0.0 && 0.0 <= p.b <= 1.0 && t in docs[i]
    requires n == |docs| as real && c == |Holders(docs, t)| as real && mean == TotalLength(docs) as real / n
    requires f == |Positions(docs[i], t)| as real && l == |docs[i]| as real
    requires idf == p.ln(1.0 + (n - c + 0.5) / (c + 0.5))
    ensures mean > 0.0 && f + p.k1 * (1.0 - p.b + p.b * (l / mean)) > 0.0
    ensures Score(p, docs, i, [t]) == idf * f * (p.k1 + 1.0) / (f + p.k1 * (1.0 - p.b + p.b * (l / mean)))
  {
    AverageIsPositive(docs, i);
    FreqPositive(docs[i], t);
    TimesIsCount(docs[i], t);
    ScoreOfOne(p, docs, i, t);
    assert AverageLength(docs) == mean;
    hide *;
    IdfWritten(p, docs, t);
    WeighWritten(p, Idf(p, docs, t), Times(docs[i], t), |docs[i]|, AverageLength(docs), idf, f, l, mean);
  }

  lemma IdfWritten(p: Params, docs: seq<Tokens>, t: Token)
    ensures var n, c := |docs| as real, |Holders(docs, t)| as real;
            Idf(p, docs, t) == p.ln(1.0 + (n - c + 0.5) / (c + 0.5))
  {
    DocFreqIsCount(docs, t);
  }

  lemma WeighWritten(p: Params, idf: real, f: nat, length: nat, average: real,
                     idf': real, f': real, length': real, average': real)
    requires p.k1 >= 0.0 && 0.0 <= p.b <= 1.0 && f > 0 && average > 0.0
    requires idf' == idf && f' == f as real && length' == length as real && average' == average
    ensures var d := f' + p.k1 * (1.0 - p.b + p.b * (length' / average'));
            d > 0.0 && Weigh(p, idf, f, length, average) == idf' * f' * (p.k1 + 1.0) / d
  {
    DenominatorPositive(p, f, length, average);
  }

  ghost predicate Rising(ln: real -> real) { forall x: real, y: real | 0.0 < x < y :: ln(x) < ln(y) }

  lemma ProductRises(a: real, b: real, c: real)
    requires a < b && c > 0.0
    ensures a * c < b * c
  {
    assert (b - a) * c > 0.0;
  }

  lemma QuotientFalls(x: real, d: real, e: real)
    requires x > 0.0 && 0.0 < d < e
    ensures x / d > x / e > 0.0
  {
    var q, r := x / d, x / e;
    assert q * d == x && r * e == x;
    QuotientSign(x, e);
    ProductRises(d, e, r);
    if q <= r { ProductSign(r - q, d); }
  }

  lemma RareIsLarger(n: real, c: real, d: real)
    requires 0.0 <= c < d <= n
    ensures 1.0 < 1.0 + (n - d + 0.5) / (d + 0.5) < 1.0 + (n - c + 0.5) / (c + 0.5)
  {
    QuotientFalls(n - d + 0.5, c + 0.5, d + 0.5);
    QuotientRises(n - d + 0.5, n - c + 0.5, c + 0.5);
  }

  lemma IdfFallsWithDocFreq(p: Params, docs: seq<Tokens>, t: Token, u: Token)
    requires Rising(p.ln) && DocFreq(docs, t) < DocFreq(docs, u)
    ensures Idf(p, docs, t) > Idf(p, docs, u)
  {
    DocFreqBounds(docs, u);
    RareIsLarger(|docs| as real, DocFreq(docs, t) as real, DocFreq(docs, u) as real);
  }

  lemma WeighRises(p: Params, a: real, b: real, f: nat, length: nat, average: real)
    requires p.k1 >= 0.0 && 0.0 <= p.b <= 1.0 && f > 0 && average >= 0.0 && a < b
    ensures Weigh(p, a, f, length, average) < Weigh(p, b, f, length, average)
  {
    DenominatorPositive(p, f, length, average);
    hide Denominator;
    ProductRises(a, b, f as real);
    ProductRises(a * f as real, b * f as real, p.k1 + 1.0);
    QuotientRises(a * f as real * (p.k1 + 1.0), b * f as real * (p.k1 + 1.0), Denominator(p, f, length, average));
  }

  /** Of two tokens that a document holds equally often, the one in fewer documents scores higher. */
  lemma RareTokenScoresHigher(p: Params, docs: seq<Tokens>, i: nat, t: Token, u: Token)
    requires Sensible(p) && Rising(p.ln) && i < |docs|
    requires Times(docs[i], t) == Times(docs[i], u) > 0 && DocFreq(docs, t) < DocFreq(docs, u)
    ensures Score(p, docs, i, [t]) > Score(p, docs, i, [u])
  {
    hide Score, Weigh, Idf;
    ScoreOfOne(p, docs, i, t);
    ScoreOfOne(p, docs, i, u);
    IdfFallsWithDocFreq(p, docs, t, u);
    WeighRises(p, Idf(p, docs, u), Idf(p, docs, t), Times(docs[i], t), |docs[i]|, AverageLength(docs));
  }

  lemma NormPositive(p: Params, length: nat, average: real)
    requires 0.0 <= p.b <= 1.0 && length > 0 && average > 0.0
    ensures LengthNorm(p, length, average) > 0.0
  {
    var q := length as real / average;
    QuotientSign(length as real, average);
    assert LengthNorm(p, length, average) == 1.0 - p.b + p.b * q;
    MixPositive(p.b, q);
  }

  lemma MixPositive(b: real, q: real)
    requires 0.0 <= b <= 1.0 && q > 0.0
    ensures 1.0 - b + b * q > 0.0
  {
    if b > 0.0 { ProductSign(b, q); }
  }

  /** `x * f / (f + rest)` rises with `f`. */
  lemma Saturates(x: real, f: real, g: real, rest: real)
    requires x > 0.0 && 0.0 < f < g && rest > 0.0
    ensures x * f / (f + rest) < x * g / (g + rest)
  {
    ProductSign(x, rest);
    QuotientFalls(x * rest, f + rest, g + rest);
    Complement(x, f, rest);
    Complement(x, g, rest);
  }

  lemma Complement(x: real, f: real, rest: real)
    requires f + rest > 0.0
    ensures x * f / (f + rest) == x - x * rest / (f + rest)
  {
    assert x * f + x * rest == x * (f + rest);
    assert x * f / (f + rest) + x * rest / (f + rest) == x * (f + rest) / (f + rest) == x;
  }

  lemma WeighRisesWithFrequency(p: Params, idf: real, f: nat, g: nat, length: nat, average: real)
    requires p.k1 > 0.0 && 0.0 <= p.b <= 1.0 && 0 < f < g && length > 0 && average > 0.0 && idf > 0.0
    ensures Weigh(p, idf, f, length, average) < Weigh(p, idf, g, length, average)
  {
    var rest := p.k1 * LengthNorm(p, length, average);
    NormPositive(p, length, average);
    hide LengthNorm;
    ProductSign(p.k1, LengthNorm(p, length, average));
    ProductSign(idf, p.k1 + 1.0);
    Saturates(idf * (p.k1 + 1.0), f as real, g as real, rest);
    assert idf * f as real * (p.k1 + 1.0) == idf * (p.k1 + 1.0) * f as real;
    assert idf * g as real * (p.k1 + 1.0) == idf * (p.k1 + 1.0) * g as real;
  }

  lemma DenominatorRises(p: Params, f: nat, l: nat, m: nat, average: real)
    requires p.k1 > 0.0 && 0.0 < p.b <= 1.0 && l < m && average > 0.0
    ensures Denominator(p, f, l, average) < Denominator(p, f, m, average)
  {
    QuotientRises(l as real, m as real, average);
    ProductRises(l as real / average, m as real / average, p.b);
    assert LengthNorm(p, l, average) < LengthNorm(p, m, average);
    hide LengthNorm;
    ProductRises(LengthNorm(p, l, average), LengthNorm(p, m, average), p.k1);
  }

  lemma WeighFallsWithLength(p: Params, idf: real, f: nat, l: nat, m: nat, average: real)
    requires p.k1 > 0.0 && 0.0 < p.b <= 1.0 && f > 0 && l < m && average > 0.0 && idf > 0.0
    ensures Weigh(p, idf, f, l, average) > Weigh(p, idf, f, m, average)
  {
    hide Denominator, LengthNorm;
    DenominatorRises(p, f, l, m, average);
    DenominatorPositive(p, f, l, average);
    DenominatorPositive(p, f, m, average);
    ProductSign(idf, f as real);
    ProductSign(idf * f as real, p.k1 + 1.0);
    QuotientFalls(idf * f as real * (p.k1 + 1.0), Denominator(p, f, l, average), Denominator(p, f, m, average));
  }

  /** Of two documents of the same length, the one that holds a token more often scores higher. */
  lemma FrequentTokenScoresHigher(p: Params, docs: seq<Tokens>, i: nat, j: nat, t: Token)
    requires Sensible(p) && p.k1 > 0.0 && i < |docs| && j < |docs|
    requires |docs[i]| == |docs[j]| && Times(docs[i], t) > Times(docs[j], t)
    ensures Score(p, docs, i, [t]) > Score(p, docs, j, [t])
  {
    FreqPositive(docs[i], t);
    AverageIsPositive(docs, i);
    IdfIsPositive(p, docs, t);
    PositiveExactlyOnOverlap(p, docs, i, [t]);
    assert Overlaps([t], docs[i]) by { assert [t][0] in docs[i]; }
    hide Score, Weigh, Idf, AverageLength;
    ScoreOfOne(p, docs, i, t);
    ScoreOfOne(p, docs, j, t);
    if Times(docs[j], t) > 0 {
      WeighRisesWithFrequency(p, Idf(p, docs, t), Times(docs[j], t), Times(docs[i], t), |docs[i]|, AverageLength(docs));
    }
  }

  /** Of two documents that hold a token equally often, the shorter one scores higher. */
  lemma ShortDocumentScoresHigher(p: Params, docs: seq<Tokens>, i: nat, j: nat, t: Token)
    requires Sensible(p) && p.k1 > 0.0 && p.b > 0.0 && i < |docs| && j < |docs|
    requires |docs[i]| < |docs[j]| && Times(docs[i], t) == Times(docs[j], t) > 0
    ensures Score(p, docs, i, [t]) > Score(p, docs, j, [t])
  {
    AverageIsPositive(docs, j);
    IdfIsPositive(p, docs, t);
    hide Score, Weigh, Idf, AverageLength;
    ScoreOfOne(p, docs, i, t);
    ScoreOfOne(p, docs, j, t);
    WeighFallsWithLength(p, Idf(p, docs, t), Times(docs[i], t), |docs[i]|, |docs[j]|, AverageLength(docs));
  }

  // --------------------------------------------------------------- the index

  function Counts(doc: Tokens): map<Token, nat> { map t | t in doc :: Times(doc, t) }

  function IdfTable(p: Params, docs: seq<Tokens>): map<Token, real> {
    map t | t in Vocabulary(docs) :: Idf(p, docs, t)
  }

  function Vocabulary(docs: seq<Tokens>): set<Token> { set d, t | d in docs && t in d :: t }

  lemma CountsSnoc(doc: Tokens, t: Token)
    ensures Counts(doc + [t]) == Counts(doc)[t := (if t in Counts(doc) then Counts(doc)[t] else 0) + 1]
  {
    assert (doc + [t])[..|doc|] == doc;
    FreqPositive(doc, t);
  }

  /** `counts[t] += 1` over one document. */
  method CountTokens(doc: Tokens) returns (counts: map<Token, nat>)
    ensures counts == Counts(doc)
  {
    counts := map[];
    assert Counts([]) == map[];
    hide Counts;
    for k := 0 to |doc|
      invariant counts == Counts(doc[..k])
    {
      var t := doc[k];
      assert doc[..k + 1] == doc[..k] + [t];
      CountsSnoc(doc[..k], t);
      counts := counts[t := (if t in counts then counts[t] else 0) + 1];
    }
    assert doc[..|doc|] == doc;
  }

  lemma VocabularySnoc(docs: seq<Tokens>, doc: Tokens)
    ensures Vocabulary(docs + [doc]) == Vocabulary(docs) + set t | t in doc
  {
    forall t ensures t in Vocabulary(docs + [doc]) <==> t in Vocabulary(docs) || t in doc {
      assert doc in docs + [doc] && forall d | d in docs :: d in docs + [doc];
    }
  }

  lemma {:induction false} OutsideVocabulary(docs: seq<Tokens>, t: Token)
    ensures DocFreq(docs, t) > 0 <==> t in Vocabulary(docs)
  {
    if docs != [] {
      var front := docs[..|docs| - 1];
      OutsideVocabulary(front, t);
      VocabularySnoc(front, docs[|docs| - 1]);
      assert docs == front + [docs[|docs| - 1]];
    }
  }

  function DocFreqs(docs: seq<Tokens>): map<Token, nat> { map t | t in Vocabulary(docs) :: DocFreq(docs, t) }

  /** `df[t] += 1` for each distinct token of one more document. */
  method CountDocument(before: map<Token, nat>, counts: map<Token, nat>, ghost docs: seq<Tokens>, ghost doc: Tokens)
    returns (df: map<Token, nat>)
    requires before == DocFreqs(docs) && counts == Counts(doc)
    ensures df == DocFreqs(docs + [doc])
  {
    hide DocFreqs, Counts;
    df := before;
    var todo := counts.Keys;
    while todo != {}
      invariant todo <= counts.Keys && df.Keys == before.Keys + (counts.Keys - todo)
      invariant forall t | t in df :: df[t] == (if t in before then before[t] else 0)
                                               + (if t in counts && t !in todo then 1 else 0)
      decreases todo
    {
      var t :| t in todo;
      df := df[t := (if t in df then df[t] else 0) + 1];
      todo := todo - {t};
    }
    AllCounted(before, counts, df, docs, doc);
  }

  lemma AllCounted(before: map<Token, nat>, counts: map<Token, nat>, df: map<Token, nat>,
                   docs: seq<Tokens>, doc: Tokens)
    requires before == DocFreqs(docs) && counts == Counts(doc)
    requires df.Keys == before.Keys + counts.Keys
    requires forall t | t in df :: df[t] == (if t in before then before[t] else 0) + (if t in counts then 1 else 0)
    ensures df == DocFreqs(docs + [doc])
  {
    VocabularySnoc(docs, doc);
    assert (docs + [doc])[..|docs|] == docs;
    forall t | t in df ensures df[t] == DocFreq(docs + [doc], t) { OutsideVocabulary(docs, t); }
  }

  method BuildIdf(p: Params, n: nat, df: map<Token, nat>, ghost docs: seq<Tokens>) returns (idf: map<Token, real>)
    requires n == |docs| && df == DocFreqs(docs)
    ensures idf == IdfTable(p, docs)
  {
    idf := map t | t in df :: p.ln(IdfArgument(n, df[t]));
  }

  /** Everything both constructors compute about the collection. */
  method Index(p: Params, docs: seq<Tokens>) returns (tf: seq<map<Token, nat>>, idf: map<Token, real>)
    ensures |tf| == |docs| && forall i | 0 <= i < |docs| :: tf[i] == Counts(docs[i])
    ensures idf == IdfTable(p, docs)
  {
    tf := [];
    var df: map<Token, nat> := map[];
    for i := 0 to |docs|
      invariant |tf| == i && forall j | 0 <= j < i :: tf[j] == Counts(docs[j])
      invariant df == DocFreqs(docs[..i])
    {
      var counts := CountTokens(docs[i]);
      assert docs[..i + 1] == docs[..i] + [docs[i]];
      df := CountDocument(df, counts, docs[..i], docs[i]);
      tf := tf + [counts];
    }
    assert docs[..|docs|] == docs;
    idf := BuildIdf(p, |docs|, df, docs);
  }

  /** The lookup in the index gives exactly the gain of the specification. */
  lemma GainFromIndex(p: Params, docs: seq<Tokens>, i: nat, t: Token)
    requires i < |docs| && p.k1 >= 0.0 && 0.0 <= p.b <= 1.0
    ensures t !in IdfTable(p, docs) ==> t !in Counts(docs[i])
    ensures t in Counts(docs[i]) ==>
              Counts(docs[i])[t] == Times(docs[i], t) > 0 && IdfTable(p, docs)[t] == Idf(p, docs, t)
    ensures t in Counts(docs[i]) ==>
              (AverageLength(docs) > 0.0
               && Gain(p, docs, i, t) == Weigh(p, Idf(p, docs, t), Times(docs[i], t), |docs[i]|, AverageLength(docs)))
    ensures t !in Counts(docs[i]) ==> Gain(p, docs, i, t) == 0.0
  {
    FreqPositive(docs[i], t);
    assert docs[i] in docs;
    if t in docs[i] {
      AverageIsPositive(docs, i);
      DenominatorPositive(p, Times(docs[i], t), |docs[i]|, AverageLength(docs));
    }
  }

  lemma ScoreSnoc(p: Params, docs: seq<Tokens>, i: nat, query: Tokens, k: nat)
    requires i < |docs| && p.k1 >= 0.0 && 0.0 <= p.b <= 1.0 && k < |query|
    ensures Score(p, docs, i, query[..k + 1]) == Score(p, docs, i, query[..k]) + Gain(p, docs, i, query[k])
  {
    assert query[..k + 1][..k] == query[..k];
  }

  // ------------------------------------------------------ the two loop orders

  /** `research_rank.BM25`: outer loop over query tokens, inner loop over documents. */
  class TermMajor {
    const p: Params
    const n: nat
    const len: seq<nat>
    const avgdl: real
    const tf: seq<map<Token, nat>>
    const idf: map<Token, real>

    ghost predicate Indexes(docs: seq<Tokens>) {
      && n == |docs| == |len| == |tf| && p.k1 >= 0.0 && 0.0 <= p.b <= 1.0
      && (forall i | 0 <= i < n :: len[i] == |docs[i]| && tf[i] == Counts(docs[i]))
      && avgdl == AverageLength(docs) && idf == IdfTable(p, docs)
    }

    constructor (docs: seq<Tokens>, p: Params)
      requires p.k1 >= 0.0 && 0.0 <= p.b <= 1.0
      ensures Indexes(docs) && this.p == p
    {
      var counts, table := Index(p, docs);
      this.p, n, tf, idf := p, |docs|, counts, table;
      len := seq(|docs|, i requires 0 <= i < |docs| => |docs[i]|);
      avgdl := AverageLength(docs);
    }

    method Scores(query: Tokens, ghost docs: seq<Tokens>) returns (out: array<real>)
      requires Indexes(docs)
      ensures fresh(out) && out.Length == n
      ensures forall i | 0 <= i < n :: out[i] == Score(p, docs, i, query)
    {
      hide Weigh, Gain, Idf, AverageLength, Counts, IdfTable;
      out := new real[n](i => 0.0);
      for k := 0 to |query|
        invariant forall i | 0 <= i < n :: out[i] == Score(p, docs, i, query[..k])
      {
        var t := query[k];
        forall i | 0 <= i < n
          ensures Score(p, docs, i, query[..k + 1]) == Score(p, docs, i, query[..k]) + Gain(p, docs, i, t)
          ensures t !in idf ==> Gain(p, docs, i, t) == 0.0
        {
          ScoreSnoc(p, docs, i, query, k);
          GainFromIndex(p, docs, i, t);
        }
        if t !in idf {
          continue;
        }
        for i := 0 to n
          invariant forall j | 0 <= j < i :: out[j] == Score(p, docs, j, query[..k + 1])
          invariant forall j | i <= j < n :: out[j] == Score(p, docs, j, query[..k])
        {
          GainFromIndex(p, docs, i, t);
          var f := if t in tf[i] then tf[i][t] else 0;
          if f != 0 {
            out[i] := out[i] + Weigh(p, idf[t], f, len[i], avgdl);
          }
        }
      }
      assert query[..|query|] == query;
    }
  }

  /** How many tokens of `doc` are in `keys`. */
  function CountIn(doc: Tokens, keys: set<Token>): nat {
    if doc == [] then 0 else CountIn(doc[..|doc| - 1], keys) + if doc[|doc| - 1] in keys then 1 else 0
  }

  lemma {:induction false} CountInPlus(doc: Tokens, keys: set<Token>, t: Token)
    requires t !in keys
    ensures CountIn(doc, keys + {t}) == CountIn(doc, keys) + Times(doc, t)
  {
    if doc != [] { CountInPlus(doc[..|doc| - 1], keys, t); }
  }

  lemma {:induction false} CountInAll(doc: Tokens, keys: set<Token>)
    ensures CountIn(doc, {}) == 0
    ensures (forall t | t in doc :: t in keys) ==> CountIn(doc, keys) == |doc|
  {
    if doc != [] {
      var front := doc[..|doc| - 1];
      CountInAll(front, keys);
      assert doc == front + [doc[|doc| - 1]];
    }
  }

  /** `sum(c.values())` of a document's counter is its length. */
  method SumOfCounts(counts: map<Token, nat>, ghost doc: Tokens) returns (s: nat)
    requires counts == Counts(doc)
    ensures s == |doc|
  {
    s := 0;
    var todo := counts.Keys;
    CountInAll(doc, counts.Keys);
    assert counts.Keys - todo == {};
    while todo != {}
      invariant todo <= counts.Keys
      invariant s == CountIn(doc, counts.Keys - todo)
      decreases todo
    {
      var t :| t in todo;
      CountInPlus(doc, counts.Keys - todo, t);
      assert counts.Keys - (todo - {t}) == counts.Keys - todo + {t};
      s := s + counts[t];
      todo := todo - {t};
    }
    assert counts.Keys - todo == counts.Keys;
  }

  /** `eval_baselines.BM25`: outer loop over documents, inner loop over query tokens. */
  class DocMajor {
    const p: Params
    const docs: seq<map<Token, nat>>
    const len: seq<nat>
    const avg: real
    const idf: map<Token, real>

    ghost predicate Indexes(texts: seq<Tokens>) {
      && |docs| == |texts| == |len| && p.k1 >= 0.0 && 0.0 <= p.b <= 1.0
      && (forall i | 0 <= i < |docs| :: len[i] == |texts[i]| && docs[i] == Counts(texts[i]))
      && avg == AverageLength(texts) && idf == IdfTable(p, texts)
    }

    constructor (texts: seq<Tokens>, p: Params)
      requires p.k1 >= 0.0 && 0.0 <= p.b <= 1.0
      ensures Indexes(texts) && this.p == p
    {
      var counts, table := Index(p, texts);
      var lengths: seq<nat>, total := [], 0;
      for i := 0 to |texts|
        invariant |lengths| == i && forall j | 0 <= j < i :: lengths[j] == |texts[j]|
        invariant total == TotalLength(texts[..i])
      {
        var s := SumOfCounts(counts[i], texts[i]);
        assert texts[..i + 1][..i] == texts[..i];
        lengths, total := lengths + [s], total + s;
      }
      assert texts[..|texts|] == texts;
      this.p, docs, len, idf := p, counts, lengths, table;
      avg := total as real / (if |lengths| > 1 then |lengths| else 1) as real;
    }

    method Scores(query: Tokens, ghost texts: seq<Tokens>) returns (out: seq<real>)
      requires Indexes(texts)
      ensures |out| == |texts| && forall i | 0 <= i < |texts| :: out[i] == Score(p, texts, i, query)
    {
      hide Weigh, Gain, Idf, AverageLength, Counts, IdfTable;
      out := [];
      for i := 0 to |docs|
        invariant |out| == i && forall j | 0 <= j < i :: out[j] == Score(p, texts, j, query)
      {
        var s := 0.0;
        for k := 0 to |query|
          invariant s == Score(p, texts, i, query[..k])
        {
          var t := query[k];
          ScoreSnoc(p, texts, i, query, k);
          GainFromIndex(p, texts, i, t);
          var f := if t in docs[i] then docs[i][t] else 0;
          if f == 0 {
            continue;
          }
          s := s + Weigh(p, idf[t], f, len[i], avg);
        }
        assert query[..|query|] == query;
        out := out + [s];
      }
    }
  }

  // ------------------------------------------------------ overlap-filtered scan

  /** A result of `np.argsort(-s)`: all positions once, scores descending, ties in any order. */
  ghost predicate IsArgsort(order: seq<nat>, s: seq<real>) {
    && |order| == |s|
    && (forall p | 0 <= p < |order| :: order[p] < |s|)
    && (forall p, q | 0 <= p < q < |order| :: order[p] != order[q] && s[order[p]] >= s[order[q]])
  }

  /** The positions of `order` that share a token with the query, in order. */
  function Filtered(order: seq<nat>, query: set<Token>, tokenSets: seq<set<Token>>): seq<nat>
    requires forall p | 0 <= p < |order| :: order[p] < |tokenSets|
  {
    if order == [] then []
    else
      var front, j := Filtered(order[..|order| - 1], query, tokenSets), order[|order| - 1];
      if query * tokenSets[j] != {} then front + [j] else front
  }

  function Ids(chunkIds: seq<nat>, positions: seq<nat>): seq<nat>
    requires forall p | 0 <= p < |positions| :: positions[p] < |chunkIds|
  {
    seq(|positions|, p requires 0 <= p < |positions| => chunkIds[positions[p]])
  }

  /** The loop stops once `depth` chunks are kept; it looks only after keeping one. */
  function Kept(n: nat, depth: nat): nat {
    var limit := if depth == 0 then 1 else depth;
    if n < limit then n else limit
  }

  lemma {:induction false} FilteredGrows(order: seq<nat>, query: set<Token>, tokenSets: seq<set<Token>>, k: nat)
    requires forall p | 0 <= p < |order| :: order[p] < |tokenSets|
    requires k <= |order|
    ensures Filtered(order[..k], query, tokenSets) <= Filtered(order, query, tokenSets)
    ensures forall p | 0 <= p < |Filtered(order, query, tokenSets)| ::
              Filtered(order, query, tokenSets)[p] < |tokenSets|
  {
    if k < |order| {
      FilteredGrows(order[..|order| - 1], query, tokenSets, k);
      assert order[..|order| - 1][..k] == order[..k];
    } else {
      assert order[..k] == order;
      if order != [] { FilteredGrows(order[..k - 1], query, tokenSets, k - 1); }
    }
  }

  /** Every score is that of a position with the same chunk id. */
  ghost predicate ScoresRead(sims: map<nat, real>, chunkIds: seq<nat>, s: seq<real>)
    requires |chunkIds| == |s|
  {
    forall c | c in sims :: exists j | 0 <= j < |s| :: chunkIds[j] == c && sims[c] == s[j]
  }

  lemma OneMoreScore(sims: map<nat, real>, chunkIds: seq<nat>, s: seq<real>, j: nat)
    requires |chunkIds| == |s| && ScoresRead(sims, chunkIds, s) && j < |s|
    ensures ScoresRead(sims[chunkIds[j] := s[j]], chunkIds, s)
  {
  }

  /** What one more position in the order means for the first `n` that were kept. */
  lemma FilteredNext(order: seq<nat>, query: set<Token>, tokenSets: seq<set<Token>>, p: nat, n: nat, all: seq<nat>)
    requires forall q | 0 <= q < |order| :: order[q] < |tokenSets|
    requires all == Filtered(order, query, tokenSets)
    requires p < |order| && n <= |all| && Filtered(order[..p], query, tokenSets) == all[..n]
    ensures if query * tokenSets[order[p]] == {} then Filtered(order[..p + 1], query, tokenSets) == all[..n]
            else n < |all| && all[n] == order[p] && Filtered(order[..p + 1], query, tokenSets) == all[..n + 1]
  {
    hide Filtered;
    var next := Filtered(order[..p + 1], query, tokenSets);
    assert order[..p + 1] == order[..p] + [order[p]];
    FilteredSnoc(order[..p], order[p], query, tokenSets);
    FilteredGrows(order, query, tokenSets, p + 1);
    if query * tokenSets[order[p]] != {} {
      assert next == all[..n] + [order[p]] && next == all[..n + 1];
    }
  }

  lemma FilteredSnoc(order: seq<nat>, j: nat, query: set<Token>, tokenSets: seq<set<Token>>)
    requires (forall q | 0 <= q < |order| :: order[q] < |tokenSets|) && j < |tokenSets|
    ensures Filtered(order + [j], query, tokenSets)
         == Filtered(order, query, tokenSets) + if query * tokenSets[j] != {} then [j] else []
  {
    assert (order + [j])[..|order|] == order;
  }

  lemma IdsNext(chunkIds: seq<nat>, positions: seq<nat>, n: nat)
    requires n < |positions| && forall p | 0 <= p < |positions| :: positions[p] < |chunkIds|
    ensures Ids(chunkIds, positions[..n + 1]) == Ids(chunkIds, positions[..n]) + [chunkIds[positions[n]]]
  {
  }

  lemma NothingKept(order: seq<nat>, query: set<Token>, tokenSets: seq<set<Token>>, chunkIds: seq<nat>, s: seq<real>)
    requires |chunkIds| == |s|
    ensures Filtered([], query, tokenSets) == [] && Ids(chunkIds, []) == [] && ScoresRead(map[], chunkIds, s)
  {
  }

  method Bm25ChunkRank(chunkIds: seq<nat>, tokenSets: seq<set<Token>>, s: seq<real>, order: seq<nat>,
                       query: set<Token>, depth: nat)
    returns (ids: seq<nat>, sims: map<nat, real>)
    requires |chunkIds| == |tokenSets| == |s| && IsArgsort(order, s)
    ensures var all := Filtered(order, query, tokenSets);
            && (forall p | 0 <= p < |all| :: all[p] < |chunkIds|)
            && ids == Ids(chunkIds, all[..Kept(|all|, depth)])
    ensures sims.Keys == set c | c in ids
    ensures ScoresRead(sims, chunkIds, s)
  {
    assert forall p | 0 <= p < |order| :: order[p] < |s|;
    hide IsArgsort, Ids, ScoresRead, Filtered;
    FilteredGrows(order, query, tokenSets, 0);
    ghost var all := Filtered(order, query, tokenSets);
    ids, sims := [], map[];
    NothingKept(order, query, tokenSets, chunkIds, s);
    for p := 0 to |order|
      invariant |ids| <= |all| && Filtered(order[..p], query, tokenSets) == all[..|ids|]
      invariant ids == Ids(chunkIds, all[..|ids|])
      invariant depth > 0 ==> |ids| < depth
      invariant depth == 0 ==> ids == []
      invariant sims.Keys == set c | c in ids
      invariant ScoresRead(sims, chunkIds, s)
    {
      var j := order[p];
      FilteredNext(order, query, tokenSets, p, |ids|, all);
      if query * tokenSets[j] == {} {
        continue;
      }
      var cid := chunkIds[j];
      IdsNext(chunkIds, all, |ids|);
      OneMoreScore(sims, chunkIds, s, j);
      ids := ids + [cid];
      sims := sims[cid := s[j]];
      if |ids| >= depth {
        break;
      }
    }
    assert order[..|order|] == order;
  }

  predicate Descending(order: seq<nat>, s: seq<real>) {
    && (forall p | 0 <= p < |order| :: order[p] < |s|)
    && (forall p, q | 0 <= p < q < |order| :: s[order[p]] >= s[order[q]])
  }

  /** If overlap means a positive score, the filter only cuts off the zeros at the end. */
  lemma {:induction false} FilteredIsPrefix(order: seq<nat>, s: seq<real>, query: set<Token>,
                                            tokenSets: seq<set<Token>>)
    requires |tokenSets| == |s| && Descending(order, s)
    requires forall j | 0 <= j < |s| :: s[j] >= 0.0 && (query * tokenSets[j] != {} <==> s[j] > 0.0)
    ensures var all := Filtered(order, query, tokenSets);
            && all <= order
            && (forall p | 0 <= p < |all| :: s[order[p]] > 0.0)
            && (forall p | |all| <= p < |order| :: s[order[p]] == 0.0)
  {
    if order != [] {
      var front, j := order[..|order| - 1], order[|order| - 1];
      FilteredIsPrefix(front, s, query, tokenSets);
      var kept := Filtered(front, query, tokenSets);
      assert |kept| < |front| ==> s[front[|kept|]] == s[order[|kept|]] >= s[j];
      assert order == front + [j];
      if s[j] > 0.0 {
        assert kept == front;
      }
    }
  }

  function Overlapping(docs: seq<Tokens>, query: Tokens): set<nat> {
    set j | 0 <= j < |docs| && Overlaps(query, docs[j])
  }

  lemma {:induction false} DistinctPrefixSize(order: seq<nat>, n: nat)
    requires n <= |order| && forall p, q | 0 <= p < q < |order| :: order[p] != order[q]
    ensures |set p | 0 <= p < n :: order[p]| == n
  {
    if n > 0 {
      DistinctPrefixSize(order, n - 1);
      assert (set p | 0 <= p < n :: order[p]) == (set p | 0 <= p < n - 1 :: order[p]) + {order[n - 1]};
    }
  }

  function Range(n: nat): set<nat> { if n == 0 then {} else Range(n - 1) + {n - 1} }

  lemma {:induction false} RangeIsBelow(n: nat)
    ensures |Range(n)| == n && forall x: nat :: x in Range(n) <==> x < n
  {
    if n > 0 { RangeIsBelow(n - 1); }
  }

  /** A permutation of the positions misses none of them. */
  lemma ArgsortCovers(order: seq<nat>, j: nat)
    requires (forall p | 0 <= p < |order| :: order[p] < |order|)
    requires (forall p, q | 0 <= p < q < |order| :: order[p] != order[q])
    requires j < |order|
    ensures j in order
  {
    var hit := set p | 0 <= p < |order| :: order[p];
    DistinctPrefixSize(order, |order|);
    RangeIsBelow(|order|);
    if j !in order {
      forall x | x in hit ensures x in Range(|order|) - {j} {
        var p :| 0 <= p < |order| && order[p] == x;
      }
      SubsetSize(hit, Range(|order|) - {j});
    }
  }

  function TokenSet(doc: Tokens): set<Token> { set t | t in doc }

  function TokenSets(docs: seq<Tokens>): (sets: seq<set<Token>>)
    ensures |sets| == |docs|
  {
    seq(|docs|, j requires 0 <= j < |docs| => TokenSet(docs[j]))
  }

  lemma SharedToken(query: Tokens, doc: Tokens)
    ensures TokenSet(query) * TokenSet(doc) != {} <==> Overlaps(query, doc)
  {
    if TokenSet(query) * TokenSet(doc) != {} {
      var t :| t in TokenSet(query) * TokenSet(doc);
      var k :| 0 <= k < |query| && query[k] == t;
      assert query[k] in doc;
    }
    if Overlaps(query, doc) {
      var k :| 0 <= k < |query| && query[k] in doc;
      assert query[k] in TokenSet(query) * TokenSet(doc);
    }
  }

  lemma ScoresSeparateOverlap(p: Params, docs: seq<Tokens>, query: Tokens, s: seq<real>)
    requires Sensible(p) && |s| == |docs|
    requires forall j | 0 <= j < |docs| :: s[j] == Score(p, docs, j, query)
    ensures forall j | 0 <= j < |docs| :: s[j] >= 0.0 && (Overlaps(query, docs[j]) <==> s[j] > 0.0)
    ensures forall j | 0 <= j < |docs| :: TokenSet(query) * TokenSets(docs)[j] != {} <==> s[j] > 0.0
  {
    forall j | 0 <= j < |docs|
      ensures s[j] >= 0.0 && (Overlaps(query, docs[j]) <==> s[j] > 0.0)
      ensures TokenSet(query) * TokenSets(docs)[j] != {} <==> s[j] > 0.0
    {
      PositiveExactlyOnOverlap(p, docs, j, query);
      SharedToken(query, docs[j]);
    }
  }

  lemma OverlappingCount(docs: seq<Tokens>, query: Tokens, s: seq<real>, order: seq<nat>, n: nat)
    requires |s| == |docs| && IsArgsort(order, s) && n <= |order|
    requires forall j | 0 <= j < |docs| :: Overlaps(query, docs[j]) <==> s[j] > 0.0
    requires (forall q | 0 <= q < n :: s[order[q]] > 0.0) && (forall q | n <= q < |order| :: s[order[q]] == 0.0)
    ensures n == |Overlapping(docs, query)|
  {
    var first := set q | 0 <= q < n :: order[q];
    DistinctPrefixSize(order, n);
    forall j | j in Overlapping(docs, query) ensures j in first {
      ArgsortCovers(order, j);
      var q :| 0 <= q < |order| && order[q] == j;
      assert s[order[q]] > 0.0;
    }
    assert first == Overlapping(docs, query);
  }

  /** On BM25 scores of the same tokens the overlap-filtered scan keeps the first chunks of
      the score order, `min(depth, overlapping)` of them: each shares a token with the query,
      and none scores less than an overlapping chunk that was left out. */
  lemma OverlapScanTakesTop(p: Params, docs: seq<Tokens>, query: Tokens, s: seq<real>, order: seq<nat>, depth: nat)
    requires Sensible(p) && |s| == |docs| && IsArgsort(order, s)
    requires forall j | 0 <= j < |docs| :: s[j] == Score(p, docs, j, query)
    ensures var all := Filtered(order, TokenSet(query), TokenSets(docs));
            var m := Kept(|all|, depth);
            && |all| == |Overlapping(docs, query)| <= |order|
            && all[..m] == order[..m]
            && (forall q | 0 <= q < m :: Overlaps(query, docs[order[q]]))
            && (forall q, j | 0 <= q < m && 0 <= j < |docs| && j !in order[..m] :: s[order[q]] >= s[j])
  {
    var all := Filtered(order, TokenSet(query), TokenSets(docs));
    var m := Kept(|all|, depth);
    ScoresSeparateOverlap(p, docs, query, s);
    FilteredIsPrefix(order, s, TokenSet(query), TokenSets(docs));
    OverlappingCount(docs, query, s, order, |all|);
    hide Filtered, Overlaps, Score, TokenSet, TokenSets, Overlapping;
    assert forall r | 0 <= r < m :: order[..m][r] == order[r];
    forall q, j | 0 <= q < m && 0 <= j < |docs| && j !in order[..m] ensures s[order[q]] >= s[j] {
      ArgsortCovers(order, j);
      var r :| 0 <= r < |order| && order[r] == j;
    }
  }
}
