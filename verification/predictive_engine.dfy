/** The deterministic part of `PredictiveAnalyticsEngine`: the metrics it
    extracts from collected text (counts, numbers, the ten most frequent
    words) and the threshold classifiers that turn those metrics into the
    market-growth, competition, opportunity and risk predictions. */
module PredictiveEngine {
  import opened PyText
  import opened Patterns

  const NumericCap: nat := 20
  const KeywordCap: nat := 10
  const IndicatorCap: nat := 5

  const CompetitionStems: seq<string> := ["concorrente", "competidor", "mercado", "empresa"]
  const OpportunityStems: seq<string> := ["oportunidade", "crescimento", "demanda", "necessidade"]
  const RiskStems: seq<string> := ["problema", "desafio", "dificuldade", "barreira"]

  /** `s[:n]` */
  function Prefix<T>(s: seq<T>, n: nat): (r: seq<T>)
    ensures |r| == (if |s| < n then |s| else n)
    ensures r == s[..|r|]
  {
    if |s| < n then s else s[..n]
  }

  predicate Distinct(ws: seq<string>) {
    forall i, j :: 0 <= i < j < |ws| ==> ws[i] != ws[j]
  }

  // ---------------------------------------------------------------------
  // Word frequencies
  // ---------------------------------------------------------------------

  /** One item of the `word_freq` dictionary */
  datatype Entry = Entry(word: string, count: nat)

  /** The keys of a dictionary held as its items in insertion order */
  function KeysOf(es: seq<Entry>): (ks: seq<string>)
    ensures |ks| == |es|
    ensures forall i :: 0 <= i < |es| ==> ks[i] == es[i].word
  {
    if es == [] then [] else [es[0].word] + KeysOf(es[1..])
  }

  /** `d.get(w, 0)` */
  function Get(es: seq<Entry>, w: string): nat {
    if es == [] then 0 else if es[0].word == w then es[0].count else Get(es[1..], w)
  }

  /** The words in order of first occurrence: the reference for the key
      order of a dictionary filled by the words one after another */
  function FirstOccurrences(ws: seq<string>): (r: seq<string>)
    ensures Distinct(r)
    ensures forall w :: w in r <==> w in ws
  {
    if ws == [] then []
    else
      var r := FirstOccurrences(ws[..|ws| - 1]);
      var w := ws[|ws| - 1];
      assert ws == ws[..|ws| - 1] + [w];
      if w in r then r else r + [w]
  }

  /** `d[w] = d.get(w, 0) + 1` on an insertion-ordered dictionary */
  function Bump(es: seq<Entry>, w: string): (r: seq<Entry>)
    ensures forall v :: Get(r, v) == Get(es, v) + (if v == w then 1 else 0)
    ensures KeysOf(r) == if w in KeysOf(es) then KeysOf(es) else KeysOf(es) + [w]
  {
    if es == [] then [Entry(w, 1)]
    else if es[0].word == w then [es[0].(count := es[0].count + 1)] + es[1..]
    else
      var r := [es[0]] + Bump(es[1..], w);
      assert KeysOf(r) == [es[0].word] + KeysOf(Bump(es[1..], w));
      r
  }

  /** The loop that fills `word_freq`, one word after another */
  function Tally(ws: seq<string>): (r: seq<Entry>)
    ensures forall v :: Get(r, v) == multiset(ws)[v]
    ensures KeysOf(r) == FirstOccurrences(ws)
  {
    if ws == [] then []
    else
      var front := ws[..|ws| - 1];
      var w := ws[|ws| - 1];
      assert ws == front + [w];
      Bump(Tally(front), w)
  }

  /** The `if len(word) > 3` guard of that loop */
  function LongEnough(ws: seq<string>): (r: seq<string>)
    ensures forall w :: w in r <==> w in ws && |w| > 3
  {
    if ws == [] then []
    else (if |ws[0]| > 3 then [ws[0]] else []) + LongEnough(ws[1..])
  }

  /** The guard never drops a word the `\b\w{4,}\b` scan returns */
  lemma {:induction false} LongEnoughKeepsAll(ws: seq<string>)
    requires forall w :: w in ws ==> |w| >= 4
    ensures LongEnough(ws) == ws
  {
    if ws != [] {
      LongEnoughKeepsAll(ws[1..]);
    }
  }

  // ---------------------------------------------------------------------
  // `sorted(word_freq.items(), key=count, reverse=True)`
  // ---------------------------------------------------------------------

  predicate Descending(es: seq<Entry>) {
    forall i, j :: 0 <= i < j < |es| ==> es[i].count >= es[j].count
  }

  /** The entries with count c, in their order */
  function WithCount(es: seq<Entry>, c: nat): seq<Entry> {
    if es == [] then []
    else (if es[0].count == c then [es[0]] else []) + WithCount(es[1..], c)
  }

  /** Put e in front of the first entry whose count is not above its own */
  function Insert(e: Entry, es: seq<Entry>): (r: seq<Entry>)
    requires Descending(es)
    ensures Descending(r)
    ensures multiset(r) == multiset{e} + multiset(es)
    ensures |r| == |es| + 1
  {
    if es == [] || es[0].count <= e.count then
      assert forall k :: 0 <= k < |es| ==> es[k].count <= e.count by {
        if es != [] { assert forall k :: 0 <= k < |es| ==> es[k].count <= es[0].count; }
      }
      ConsDescending(e, es);
      [e] + es
    else
      var t := Insert(e, es[1..]);
      assert multiset(es) == multiset{es[0]} + multiset(es[1..]) by {
        assert es == [es[0]] + es[1..];
      }
      BoundedByHead(es);
      CountsBounded(t, e, es[1..], es[0].count);
      ConsDescending(es[0], t);
      [es[0]] + t
  }

  /** An entry counting at least as much as every entry of a descending
      list can go in front of it */
  lemma ConsDescending(x: Entry, t: seq<Entry>)
    requires Descending(t) && forall k :: 0 <= k < |t| ==> t[k].count <= x.count
    ensures Descending([x] + t)
  {
    forall i, j | 0 <= i < j < |[x] + t| ensures ([x] + t)[i].count >= ([x] + t)[j].count {
      assert ([x] + t)[j] == t[j - 1];
      if i > 0 { assert ([x] + t)[i] == t[i - 1]; }
    }
  }

  /** In a descending list no entry counts more than the head */
  lemma BoundedByHead(es: seq<Entry>)
    requires es != [] && Descending(es)
    ensures forall k :: 0 <= k < |es[1..]| ==> es[1..][k].count <= es[0].count
  {
    forall k | 0 <= k < |es[1..]| ensures es[1..][k].count <= es[0].count {
      assert es[1..][k] == es[k + 1];
    }
  }

  /** A list holding e and the entries of rest counts no more than a bound
      both respect */
  lemma CountsBounded(t: seq<Entry>, e: Entry, rest: seq<Entry>, bound: nat)
    requires multiset(t) == multiset{e} + multiset(rest)
    requires e.count <= bound && forall k :: 0 <= k < |rest| ==> rest[k].count <= bound
    ensures forall k :: 0 <= k < |t| ==> t[k].count <= bound
  {
    forall k | 0 <= k < |t| ensures t[k].count <= bound {
      assert t[k] in multiset(t);
      if t[k] != e {
        assert t[k] in multiset(rest);
        var i :| 0 <= i < |rest| && rest[i] == t[k];
      }
    }
  }

  /** Python's stable sort by descending count */
  function SortDesc(es: seq<Entry>): (r: seq<Entry>)
    ensures Descending(r)
    ensures multiset(r) == multiset(es)
    ensures |r| == |es|
  {
    if es == [] then []
    else
      assert es == [es[0]] + es[1..];
      Insert(es[0], SortDesc(es[1..]))
  }

  lemma {:induction false} WithCountAppend(a: seq<Entry>, b: seq<Entry>, c: nat)
    ensures WithCount(a + b, c) == WithCount(a, c) + WithCount(b, c)
  {
    if a == [] {
      assert a + b == b;
    } else {
      assert (a + b)[0] == a[0];
      assert (a + b)[1..] == a[1..] + b;
      WithCountAppend(a[1..], b, c);
    }
  }

  /** Everything before the insertion point counts more than e */
  lemma {:induction false} InsertWithCount(e: Entry, es: seq<Entry>, c: nat)
    requires Descending(es)
    ensures WithCount(Insert(e, es), c) == (if e.count == c then [e] else []) + WithCount(es, c)
  {
    if es == [] || es[0].count <= e.count {
      assert ([e] + es)[1..] == es;
    } else {
      var r := [es[0]] + Insert(e, es[1..]);
      assert r[1..] == Insert(e, es[1..]);
      InsertWithCount(e, es[1..], c);
      if e.count == c {
        assert es[0].count != c;
        assert WithCount(es, c) == WithCount(es[1..], c);
      }
    }
  }

  /** Stability: entries of equal count keep their relative order */
  lemma {:induction false} SortStable(es: seq<Entry>, c: nat)
    ensures WithCount(SortDesc(es), c) == WithCount(es, c)
  {
    if es != [] {
      SortStable(es[1..], c);
      InsertWithCount(es[0], SortDesc(es[1..]), c);
    }
  }

  /** No word is the key of two entries */
  predicate DistinctWords(es: seq<Entry>) {
    forall i, j :: 0 <= i < j < |es| ==> es[i].word != es[j].word
  }

  lemma {:induction false} InsertDistinct(e: Entry, es: seq<Entry>)
    requires Descending(es) && DistinctWords(es)
    requires forall x :: x in es ==> x.word != e.word
    ensures DistinctWords(Insert(e, es))
  {
    if es != [] && es[0].count > e.count {
      var t := Insert(e, es[1..]);
      InsertDistinct(e, es[1..]);
      forall k | 0 <= k < |t| ensures t[k].word != es[0].word {
        assert t[k] in multiset(t);
        if t[k] != e {
          assert t[k] in multiset(es[1..]);
          var i :| 0 <= i < |es[1..]| && es[1..][i] == t[k];
          assert es[i + 1] == t[k];
        }
      }
    }
  }

  lemma {:induction false} SortDistinct(es: seq<Entry>)
    requires DistinctWords(es)
    ensures DistinctWords(SortDesc(es))
  {
    if es != [] {
      SortDistinct(es[1..]);
      forall x | x in SortDesc(es[1..]) ensures x.word != es[0].word {
        assert x in multiset(SortDesc(es[1..]));
        var i :| 0 <= i < |es[1..]| && es[1..][i] == x;
        assert es[i + 1] == x;
      }
      InsertDistinct(es[0], SortDesc(es[1..]));
    }
  }

  /** In a dictionary without repeated keys, `d.get` finds each item's count */
  lemma {:induction false} GetMember(es: seq<Entry>, i: nat)
    requires DistinctWords(es) && i < |es|
    ensures Get(es, es[i].word) == es[i].count
  {
    if i > 0 {
      assert es[1..][i - 1] == es[i];
      GetMember(es[1..], i - 1);
    }
  }

  // ---------------------------------------------------------------------
  // `_extract_real_metrics`
  // ---------------------------------------------------------------------

  datatype Metrics = Metrics(
    contentLength: nat,
    dataPoints: nat,
    sourcesCount: nat,
    numericData: seq<string>,
    keywords: seq<Entry>)

  /** The words `re.findall(r'\b\w{4,}\b', content.lower())` returns */
  function LongWords(content: string): (ws: seq<string>)
    ensures forall w :: w in ws ==> |w| >= 4
  {
    FindAll(LongWord, Lower(content))
  }

  function ExtractRealMetrics(content: string): (m: Metrics)
    ensures m.contentLength == |content|
    ensures m.sourcesCount == Count(content, "URL:") + Count(content, "Fonte:")
    // every number is counted, the first twenty are kept
    ensures m.dataPoints == |FindAll(Number, content)|
    ensures m.numericData == Prefix(FindAll(Number, content), NumericCap)
    ensures |m.numericData| <= NumericCap
  {
    var numbers := FindAll(Number, content);
    Metrics(|content|, |numbers|, Count(content, "URL:") + Count(content, "Fonte:"),
            Prefix(numbers, NumericCap), Top(LongEnough(LongWords(content))))
  }

  /** The tally of the words: no key twice, each key's count the number of
      its occurrences. */
  lemma TallyCounts(ws: seq<string>)
    ensures DistinctWords(Tally(ws))
    ensures forall x :: x in Tally(ws) ==> x.word in ws && x.count == multiset(ws)[x.word]
    ensures forall w :: w in ws ==> exists x :: x in Tally(ws) && x.word == w
    ensures |Tally(ws)| == |FirstOccurrences(ws)|
  {
    var es := Tally(ws);
    assert KeysOf(es) == FirstOccurrences(ws);
    forall i, j | 0 <= i < j < |es| ensures es[i].word != es[j].word {
      assert KeysOf(es)[i] == es[i].word && KeysOf(es)[j] == es[j].word;
    }
    forall x | x in es ensures x.word in ws && x.count == multiset(ws)[x.word] {
      var i :| 0 <= i < |es| && es[i] == x;
      assert KeysOf(es)[i] == x.word;
      GetMember(es, i);
    }
    forall w | w in ws ensures exists x :: x in es && x.word == w {
      assert w in KeysOf(es);
      var i :| 0 <= i < |es| && KeysOf(es)[i] == w;
      assert es[i] in es;
    }
  }

  /** `dict(sorted(word_freq.items(), ...)[:10])` for the tallied words */
  function Top(ws: seq<string>): seq<Entry> {
    Prefix(SortDesc(Tally(ws)), KeywordCap)
  }

  /** At most ten words, none twice, most frequent first */
  lemma TopShape(ws: seq<string>)
    ensures |Top(ws)| == (if |FirstOccurrences(ws)| < KeywordCap then |FirstOccurrences(ws)| else KeywordCap)
    ensures DistinctWords(Top(ws))
    ensures Descending(Top(ws))
  {
    TallyCounts(ws);
    SortDistinct(Tally(ws));
  }

  /** Each kept word is one of the words, with its number of occurrences */
  lemma TopCounts(ws: seq<string>)
    ensures forall i :: 0 <= i < |Top(ws)| ==>
              Top(ws)[i].word in ws && Top(ws)[i].count == multiset(ws)[Top(ws)[i].word]
  {
    var freq := Tally(ws);
    TallyCounts(ws);
    var sorted := SortDesc(freq);
    var kw := Top(ws);
    forall i | 0 <= i < |kw| ensures kw[i].word in ws && kw[i].count == multiset(ws)[kw[i].word] {
      assert kw[i] == sorted[i];
      assert sorted[i] in multiset(sorted);
      assert sorted[i] in freq;
    }
  }

  /** No word left out occurs more often than a word kept */
  lemma TopMaximal(ws: seq<string>)
    ensures forall w, i :: w in ws && w !in KeysOf(Top(ws)) && 0 <= i < |Top(ws)| ==>
              multiset(ws)[w] <= Top(ws)[i].count
  {
    var freq := Tally(ws);
    TallyCounts(ws);
    var sorted := SortDesc(freq);
    var kw := Top(ws);
    forall w, i | w in ws && w !in KeysOf(kw) && 0 <= i < |kw|
      ensures multiset(ws)[w] <= kw[i].count
    {
      var x :| x in freq && x.word == w;
      assert x in multiset(sorted);
      PrefixMaximal(sorted, KeywordCap, x, i);
    }
  }

  /** An entry outside a prefix of a descending list counts no more than
      any entry inside it */
  lemma PrefixMaximal(es: seq<Entry>, n: nat, x: Entry, i: nat)
    requires Descending(es) && x in es && x.word !in KeysOf(Prefix(es, n)) && i < |Prefix(es, n)|
    ensures x.count <= Prefix(es, n)[i].count
  {
    var kw := Prefix(es, n);
    var p :| 0 <= p < |es| && es[p] == x;
    assert p >= |kw| by {
      assert forall q :: 0 <= q < |kw| ==> KeysOf(kw)[q] == es[q].word;
    }
  }

  /** `keywords_frequency` is the top of the long words of the lowered text */
  lemma TopKeywords(content: string)
    ensures ExtractRealMetrics(content).keywords == Top(LongWords(content))
    ensures |ExtractRealMetrics(content).keywords| <= KeywordCap
  {
    LongEnoughKeepsAll(LongWords(content));
  }

  // ---------------------------------------------------------------------
  // The classifiers
  // ---------------------------------------------------------------------

  /** `[w for w in keys if any(stem in w for stem in stems)]` */
  function SelectTerms(keys: seq<string>, stems: seq<string>): (r: seq<string>)
    ensures |r| <= |keys|
    ensures forall w :: w in r <==> w in keys && ContainsAny(w, stems)
    ensures Distinct(keys) ==> Distinct(r)
  {
    if keys == [] then []
    else
      var rest := SelectTerms(keys[1..], stems);
      assert keys == [keys[0]] + keys[1..];
      if ContainsAny(keys[0], stems) then [keys[0]] + rest else rest
  }

  /** Selecting from a concatenation selects from each part, in order: with
      `SelectTerms([w], stems)` being `[w]` or `[]` as `w` matches, this pins
      the list down to the matching keys in their order. */
  lemma {:induction false} SelectTermsAppend(a: seq<string>, b: seq<string>, stems: seq<string>)
    ensures SelectTerms(a + b, stems) == SelectTerms(a, stems) + SelectTerms(b, stems)
  {
    if a == [] {
      assert a + b == b;
    } else {
      assert (a + b)[1..] == a[1..] + b;
      SelectTermsAppend(a[1..], b, stems);
    }
  }

  /** Over distinct keys the count is the number of matching keys */
  lemma SelectTermsCount(keys: seq<string>, stems: seq<string>)
    requires Distinct(keys)
    ensures |SelectTerms(keys, stems)| == |set w | w in keys && ContainsAny(w, stems)|
  {
    var r := SelectTerms(keys, stems);
    assert (set w | w in keys && ContainsAny(w, stems)) == (set w | w in r);
    DistinctCard(r);
  }

  /** A list without repeats has as many items as its set of items */
  lemma {:induction false} DistinctCard(ws: seq<string>)
    requires Distinct(ws)
    ensures |set w | w in ws| == |ws|
  {
    if ws != [] {
      assert Distinct(ws[1..]) by {
        forall i, j | 0 <= i < j < |ws[1..]| ensures ws[1..][i] != ws[1..][j] {
          assert ws[1..][i] == ws[i + 1] && ws[1..][j] == ws[j + 1];
        }
      }
      DistinctCard(ws[1..]);
      assert (set w | w in ws) == {ws[0]} + (set w | w in ws[1..]);
      assert ws[0] !in ws[1..];
    }
  }

  datatype MarketGrowth = MarketGrowth(
    growthPotential: string,
    confidence: real,
    dataQuality: string,
    sourcesAnalyzed: nat,
    numericIndicators: nat)

  /** The evidence score `data_points * 2 + sources_count * 5` */
  function Evidence(m: Metrics): nat {
    m.dataPoints * 2 + m.sourcesCount * 5
  }

  /** `_predict_market_growth`, with `quality_score` as an exact rational */
  function PredictMarketGrowth(m: Metrics): (g: MarketGrowth)
    ensures 0.0 <= g.confidence <= 1.0
    ensures Evidence(m) <= 100 ==> g.confidence * 100.0 == Evidence(m) as real
    ensures Evidence(m) >= 100 ==> g.confidence == 1.0
    ensures g.growthPotential == "Alto" <==> Evidence(m) > 70
    ensures g.growthPotential == "Médio" <==> 40 < Evidence(m) <= 70
    ensures g.growthPotential == "Baixo" <==> Evidence(m) <= 40
    ensures g.dataQuality == "Alta" <==> m.dataPoints > 50
    ensures g.dataQuality == "Média" <==> 20 < m.dataPoints <= 50
    ensures g.dataQuality == "Baixa" <==> m.dataPoints <= 20
    ensures g.sourcesAnalyzed == m.sourcesCount
    ensures g.numericIndicators == |m.numericData|
  {
    var ratio := (Evidence(m) as real) / 100.0;
    var q := if ratio < 1.0 then ratio else 1.0;
    MarketGrowth(
      if q > 0.7 then "Alto" else if q > 0.4 then "Médio" else "Baixo",
      q,
      if m.dataPoints > 50 then "Alta" else if m.dataPoints > 20 then "Média" else "Baixa",
      m.sourcesCount,
      |m.numericData|)
  }

  datatype Competition = Competition(
    intensity: string,
    playersMentioned: nat,
    competitiveKeywords: seq<string>,
    saturation: string)

  /** `_analyze_competition_data` */
  function AnalyzeCompetition(m: Metrics): (c: Competition)
    // the count is the number of keys holding a stem, the list the first five of them in key order
    ensures c.playersMentioned == |SelectTerms(KeysOf(m.keywords), CompetitionStems)|
    ensures c.competitiveKeywords == Prefix(SelectTerms(KeysOf(m.keywords), CompetitionStems), IndicatorCap)
    ensures c.playersMentioned <= |m.keywords|
    ensures forall w :: w in c.competitiveKeywords ==> w in KeysOf(m.keywords) && ContainsAny(w, CompetitionStems)
    ensures |c.competitiveKeywords| == (if c.playersMentioned < IndicatorCap then c.playersMentioned else IndicatorCap)
    ensures c.intensity == "Alta" <==> c.playersMentioned > 3
    ensures c.intensity == "Alta" || c.intensity == "Média"
    ensures c.saturation == "Moderada" <==> |m.keywords| > 20
    ensures c.saturation == "Moderada" || c.saturation == "Baixa"
  {
    var terms := SelectTerms(KeysOf(m.keywords), CompetitionStems);
    Competition(
      if |terms| > 3 then "Alta" else "Média",
      |terms|,
      Prefix(terms, IndicatorCap),
      if |m.keywords| > 20 then "Moderada" else "Baixa")
  }

  datatype Opportunity = Opportunity(
    score: nat,
    indicators: seq<string>,
    gapsIdentified: nat,
    growthSignals: string)

  /** `_score_opportunities` */
  function ScoreOpportunities(m: Metrics): (o: Opportunity)
    // the count is the number of keys holding a stem, the list the first five of them in key order
    ensures o.gapsIdentified == |SelectTerms(KeysOf(m.keywords), OpportunityStems)|
    ensures o.indicators == Prefix(SelectTerms(KeysOf(m.keywords), OpportunityStems), IndicatorCap)
    ensures o.gapsIdentified <= |m.keywords|
    ensures o.score <= 100
    ensures o.score == 100 <==> o.gapsIdentified >= 5
    ensures o.gapsIdentified < 5 ==> o.score == 20 * o.gapsIdentified
    ensures forall w :: w in o.indicators ==> w in KeysOf(m.keywords) && ContainsAny(w, OpportunityStems)
    ensures |o.indicators| == (if o.gapsIdentified < IndicatorCap then o.gapsIdentified else IndicatorCap)
    ensures o.growthSignals == "Fortes" <==> o.gapsIdentified > 2
    ensures o.growthSignals == "Fortes" || o.growthSignals == "Moderados"
  {
    var terms := SelectTerms(KeysOf(m.keywords), OpportunityStems);
    Opportunity(
      if |terms| * 20 < 100 then |terms| * 20 else 100,
      Prefix(terms, IndicatorCap),
      |terms|,
      if |terms| > 2 then "Fortes" else "Moderados")
  }

  datatype Risk = Risk(
    level: string,
    indicators: seq<string>,
    challengesIdentified: nat,
    mitigationNeeded: bool)

  /** `_assess_real_risks` */
  function AssessRisks(m: Metrics): (r: Risk)
    // the count is the number of keys holding a stem, the list the first five of them in key order
    ensures r.challengesIdentified == |SelectTerms(KeysOf(m.keywords), RiskStems)|
    ensures r.indicators == Prefix(SelectTerms(KeysOf(m.keywords), RiskStems), IndicatorCap)
    ensures r.challengesIdentified <= |m.keywords|
    ensures r.level == "Alto" <==> r.challengesIdentified > 3
    ensures r.level == "Médio" <==> 2 <= r.challengesIdentified <= 3
    ensures r.level == "Baixo" <==> r.challengesIdentified <= 1
    ensures r.mitigationNeeded <==> r.challengesIdentified > 2
    ensures forall w :: w in r.indicators ==> w in KeysOf(m.keywords) && ContainsAny(w, RiskStems)
    ensures |r.indicators| == (if r.challengesIdentified < IndicatorCap then r.challengesIdentified else IndicatorCap)
  {
    var terms := SelectTerms(KeysOf(m.keywords), RiskStems);
    Risk(
      if |terms| > 3 then "Alto" else if |terms| > 1 then "Médio" else "Baixo",
      Prefix(terms, IndicatorCap),
      |terms|,
      |terms| > 2)
  }

  /** The predictions `_generate_real_predictions` builds from the text,
      without the confidence level */
  datatype Predictions = Predictions(
    growth: MarketGrowth,
    competition: Competition,
    opportunity: Opportunity,
    risk: Risk)

  function GenerateRealPredictions(content: string): (p: Predictions)
    ensures p.growth.numericIndicators <= NumericCap
  {
    var m := ExtractRealMetrics(content);
    Predictions(PredictMarketGrowth(m), AnalyzeCompetition(m), ScoreOpportunities(m), AssessRisks(m))
  }

  /** With at most ten keywords the market saturation is always "Baixa":
      the "Moderada" branch cannot be reached from the extracted metrics. */
  lemma SaturationAlwaysLow(content: string)
    ensures GenerateRealPredictions(content).competition.saturation == "Baixa"
  {
    TopKeywords(content);
  }

  /** Every term counted by a classifier is one of the extracted keywords,
      so none counts more than ten, and the opportunity score is a
      multiple of 20. */
  lemma TermCountsBounded(content: string)
    ensures GenerateRealPredictions(content).competition.playersMentioned <= KeywordCap
    ensures GenerateRealPredictions(content).opportunity.gapsIdentified <= KeywordCap
    ensures GenerateRealPredictions(content).risk.challengesIdentified <= KeywordCap
    ensures GenerateRealPredictions(content).opportunity.score % 20 == 0
  {
    var m := ExtractRealMetrics(content);
    assert |m.keywords| <= KeywordCap by { TopKeywords(content); }
    ClassifiersBounded(m);
  }

  lemma ClassifiersBounded(m: Metrics)
    requires |m.keywords| <= KeywordCap
    ensures AnalyzeCompetition(m).playersMentioned <= KeywordCap
    ensures ScoreOpportunities(m).gapsIdentified <= KeywordCap
    ensures AssessRisks(m).challengesIdentified <= KeywordCap
    ensures ScoreOpportunities(m).score % 20 == 0
  {}

  /** High data quality means more than fifty numbers were found, of which
      the first twenty are reported */
  lemma HighQualityFullNumbers(content: string)
    requires GenerateRealPredictions(content).growth.dataQuality == "Alta"
    ensures GenerateRealPredictions(content).growth.numericIndicators == NumericCap
    ensures |FindAll(Number, content)| > 50
  {}
}
