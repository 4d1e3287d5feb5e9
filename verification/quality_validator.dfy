/** The content quality rubric of `ContentQualityValidator`
    (src/services/content_quality_validator.py): a report for one
    (content, url) pair, the per-key batch, and the batch summary.

    The rubric adds five sub-scores, each taken from a fixed ladder, and
    tags the report with at most one issue or strength per factor, in the
    order the factors are evaluated. Empty content short-circuits before any
    factor runs. */
module QualityValidator {
  import opened Wrappers
  import opened PyText
  import opened Patterns
  import Url
  import opened Ratio

  // ---------------------------------------------------------------------
  // Constants of the validator
  // ---------------------------------------------------------------------

  const MinContentLength: nat := 100
  const ExcellentThreshold: nat := 90
  const GoodThreshold: nat := 70
  const FairThreshold: nat := 50
  /** The 'poor' threshold is the score bar for validity, not a level bound */
  const PoorThreshold: nat := 30

  const EmptyContent: string := "Conteúdo vazio"
  const TooShort: string := "Conteúdo muito curto"
  const LowWordDensity: string := "Baixa densidade de palavras"
  const FewData: string := "Poucos dados estruturados"
  const LowRelevance: string := "Baixa relevância temática"

  const Extensive: string := "Conteúdo extenso"
  const Substantial: string := "Conteúdo substancial"
  const HighDensity: string := "Alta densidade de palavras"
  const RichData: string := "Rico em dados numéricos"
  const OfficialSource: string := "Fonte oficial/confiável"
  const NewsSource: string := "Fonte jornalística confiável"
  const HighlyRelevant: string := "Altamente relevante"

  const TrustedDomains: seq<string> := ["gov.br", "edu.br", "org.br", "ibge.gov.br", "sebrae.com.br"]
  const NewsDomains: seq<string> := ["g1.globo.com", "exame.com", "valor.globo.com", "estadao.com.br"]
  const RelevanceKeywords: seq<string> :=
    ["mercado", "negócio", "empresa", "crescimento", "oportunidade",
     "tendência", "análise", "dados", "pesquisa", "estudo"]

  /** The five structured-data patterns, in the order they are counted */
  const DataPatterns: seq<Pattern> := [Percent, Currency, Magnitude, RecentYear, Quantity]

  // ---------------------------------------------------------------------
  // Reports
  // ---------------------------------------------------------------------

  datatype Level = Invalid | Poor | Fair | Good | Excellent

  /** Position of a level in the order invalid < poor < fair < good < excellent */
  function Rank(l: Level): nat {
    match l
    case Invalid => 0
    case Poor => 1
    case Fair => 2
    case Good => 3
    case Excellent => 4
  }

  /** The tag a factor adds to the report, if any */
  datatype Note = Plain | Issue(text: string) | Strength(text: string)

  /** The points one factor contributes, with its tag */
  datatype Grade = Grade(points: nat, note: Note)

  /** The five factors in evaluation order */
  datatype Rubric = Rubric(length: Grade, words: Grade, data: Grade, source: Grade, relevance: Grade) {

    function Total(): nat {
      length.points + words.points + data.points + source.points + relevance.points
    }

    function Issues(): seq<string> {
      IssueOf(length) + IssueOf(words) + IssueOf(data) + IssueOf(source) + IssueOf(relevance)
    }

    function Strengths(): seq<string> {
      StrengthOf(length) + StrengthOf(words) + StrengthOf(data) + StrengthOf(source) + StrengthOf(relevance)
    }
  }

  function IssueOf(g: Grade): seq<string> {
    if g.note.Issue? then [g.note.text] else []
  }

  function StrengthOf(g: Grade): seq<string> {
    if g.note.Strength? then [g.note.text] else []
  }

  /** The dictionary `validate_content` returns. The empty-content report
      has no strengths, length or word count. */
  datatype Report =
    | EmptyReport(valid: bool, score: nat, level: Level, issues: seq<string>, url: string)
    | Scored(valid: bool, score: nat, level: Level, issues: seq<string>, strengths: seq<string>,
             url: string, contentLength: nat, wordCount: nat)

  // ---------------------------------------------------------------------
  // The five factors
  // ---------------------------------------------------------------------

  /** 1. Length, up to 25 points */
  function LengthGrade(n: nat): (g: Grade)
    ensures g.points in {0, 10, 15, 20, 25}
    // the bands: 2000, 1000, 500 and 100 characters
    ensures g.points == 25 <==> n >= 2000
    ensures g.points == 20 <==> 1000 <= n < 2000
    ensures g.points == 15 <==> 500 <= n < 1000
    ensures g.points == 10 <==> MinContentLength <= n < 500
    ensures g.note.Issue? <==> n < MinContentLength
    ensures g.note.Issue? ==> g.note.text == TooShort
    ensures g.note == Strength(Extensive) <==> n >= 2000
    ensures g.note == Strength(Substantial) <==> 1000 <= n < 2000
    ensures g.note.Strength? <==> n >= 1000
  {
    if n >= 2000 then Grade(25, Strength(Extensive))
    else if n >= 1000 then Grade(20, Strength(Substantial))
    else if n >= 500 then Grade(15, Plain)
    else if n >= MinContentLength then Grade(10, Plain)
    else Grade(0, Issue(TooShort))
  }

  /** 2. Word density, up to 25 points */
  function WordGrade(n: nat): (g: Grade)
    ensures g.points in {0, 15, 20, 25}
    // the bands: 300, 150 and 75 words
    ensures g.points == 25 <==> n >= 300
    ensures g.points == 20 <==> 150 <= n < 300
    ensures g.points == 15 <==> 75 <= n < 150
    ensures g.note.Issue? <==> n < 75
    ensures g.note.Issue? ==> g.note.text == LowWordDensity
    ensures g.note.Strength? <==> n >= 300
    ensures g.note.Strength? ==> g.note.text == HighDensity
  {
    if n >= 300 then Grade(25, Strength(HighDensity))
    else if n >= 150 then Grade(20, Plain)
    else if n >= 75 then Grade(15, Plain)
    else Grade(0, Issue(LowWordDensity))
  }

  /** Total number of structured-data matches over the five patterns */
  function DataMatches(content: string): (n: nat)
    ensures n <= 5 * |content|
  {
    CountMatches(Percent, content) + CountMatches(Currency, content) + CountMatches(Magnitude, content)
    + CountMatches(RecentYear, content) + CountMatches(Quantity, content)
  }

  /** 3. Structured data, up to 20 points */
  function DataGrade(n: nat): (g: Grade)
    ensures g.points in {0, 10, 15, 20}
    // the bands: 10, 5 and 2 matches
    ensures g.points == 20 <==> n >= 10
    ensures g.points == 15 <==> 5 <= n < 10
    ensures g.points == 10 <==> 2 <= n < 5
    ensures g.note.Issue? <==> n < 2
    ensures g.note.Issue? ==> g.note.text == FewData
    ensures g.note.Strength? <==> n >= 10
    ensures g.note.Strength? ==> g.note.text == RichData
  {
    if n >= 10 then Grade(20, Strength(RichData))
    else if n >= 5 then Grade(15, Plain)
    else if n >= 2 then Grade(10, Plain)
    else Grade(0, Issue(FewData))
  }

  /** 4. Source trust, from the lower-cased netloc: trusted substrings are
      checked first, then news substrings, then the `.com.br` suffix. */
  function SourceGrade(domain: string): (g: Grade)
    ensures g.points in {5, 8, 12, 15}
    ensures !g.note.Issue?
    ensures g.points == 15 <==> ContainsAny(domain, TrustedDomains)
    ensures g.points == 12 <==> !ContainsAny(domain, TrustedDomains) && ContainsAny(domain, NewsDomains)
    ensures g.points == 8 <==>
              !ContainsAny(domain, TrustedDomains) && !ContainsAny(domain, NewsDomains) && EndsWith(domain, ".com.br")
    ensures g.note == Strength(OfficialSource) <==> g.points == 15
    ensures g.note == Strength(NewsSource) <==> g.points == 12
    ensures g.note.Strength? <==> g.points >= 12
  {
    if ContainsAny(domain, TrustedDomains) then Grade(15, Strength(OfficialSource))
    else if ContainsAny(domain, NewsDomains) then Grade(12, Strength(NewsSource))
    else if EndsWith(domain, ".com.br") then Grade(8, Plain)
    else Grade(5, Plain)
  }

  /** Number of keywords of `kws` that occur in `text`, each counted once */
  function CountPresent(text: string, kws: seq<string>): (n: nat)
    ensures n <= |kws|
  {
    if kws == [] then 0
    else (if Contains(text, kws[0]) then 1 else 0) + CountPresent(text, kws[1..])
  }

  /** For distinct keywords the count is the number of different keywords present */
  lemma {:induction false} CountPresentIsCardinality(text: string, kws: seq<string>)
    requires forall i, j :: 0 <= i < j < |kws| ==> kws[i] != kws[j]
    ensures CountPresent(text, kws) == |PresentKeywords(text, kws)|
  {
    if kws != [] {
      var rest := kws[1..];
      CountPresentIsCardinality(text, rest);
      forall j | 0 <= j < |rest| ensures rest[j] != kws[0] {
        assert rest[j] == kws[j + 1];
      }
      PresentKeywordsCons(text, kws);
    }
  }

  /** The keywords of `kws` that occur in `text` */
  ghost function PresentKeywords(text: string, kws: seq<string>): set<string> {
    set k | k in kws && Contains(text, k)
  }

  lemma PresentKeywordsCons(text: string, kws: seq<string>)
    requires kws != []
    ensures PresentKeywords(text, kws) ==
      PresentKeywords(text, kws[1..]) + (if Contains(text, kws[0]) then {kws[0]} else {})
  {
    var rest := kws[1..];
    forall x ensures x in kws <==> x == kws[0] || x in rest {
      assert kws == [kws[0]] + rest;
    }
  }

  lemma RelevanceKeywordsDistinct()
    ensures forall i, j :: 0 <= i < j < |RelevanceKeywords| ==> RelevanceKeywords[i] != RelevanceKeywords[j]
  {}

  /** 5. Topical relevance, up to 15 points, from the lower-cased content */
  function RelevanceGrade(n: nat): (g: Grade)
    ensures g.points in {0, 8, 12, 15}
    // the bands: 8, 5 and 3 keywords
    ensures g.points == 15 <==> n >= 8
    ensures g.points == 12 <==> 5 <= n < 8
    ensures g.points == 8 <==> 3 <= n < 5
    ensures g.note.Issue? <==> n < 3
    ensures g.note.Issue? ==> g.note.text == LowRelevance
    ensures g.note.Strength? <==> n >= 8
    ensures g.note.Strength? ==> g.note.text == HighlyRelevant
  {
    if n >= 8 then Grade(15, Strength(HighlyRelevant))
    else if n >= 5 then Grade(12, Plain)
    else if n >= 3 then Grade(8, Plain)
    else Grade(0, Issue(LowRelevance))
  }

  /** The four issue texts are different from each other */
  lemma IssueTextsDistinct()
    ensures TooShort != LowWordDensity && TooShort != FewData && TooShort != LowRelevance
    ensures LowWordDensity != FewData && LowWordDensity != LowRelevance
    ensures FewData != LowRelevance
  {
    assert TooShort[0] != LowWordDensity[0] && TooShort[0] != FewData[0] && TooShort[0] != LowRelevance[0];
    assert |LowWordDensity| != |FewData| && |LowWordDensity| != |LowRelevance|;
    assert FewData[0] != LowRelevance[0];
  }

  /** Which issue a rubric reports is decided by which factors flagged one */
  lemma RubricIssues(rb: Rubric)
    requires rb.length.note.Issue? ==> rb.length.note.text == TooShort
    requires rb.words.note.Issue? ==> rb.words.note.text == LowWordDensity
    requires rb.data.note.Issue? ==> rb.data.note.text == FewData
    requires !rb.source.note.Issue?
    requires rb.relevance.note.Issue? ==> rb.relevance.note.text == LowRelevance
    ensures TooShort in rb.Issues() <==> rb.length.note.Issue?
    ensures LowWordDensity in rb.Issues() <==> rb.words.note.Issue?
    ensures FewData in rb.Issues() <==> rb.data.note.Issue?
    ensures LowRelevance in rb.Issues() <==> rb.relevance.note.Issue?
    ensures |rb.Issues()| + |rb.Strengths()| <= 5
  {
    IssueTextsDistinct();
    var i := rb.Issues();
    assert i == IssueOf(rb.length) + IssueOf(rb.words) + IssueOf(rb.data) + IssueOf(rb.source) + IssueOf(rb.relevance);
    assert IssueOf(rb.source) == [];
  }

  /** What the five factors read off the content: its length, its number of
      words, its structured-data matches and how many relevance keywords
      occur in its lower-cased form */
  datatype Measures = Measures(length: nat, words: nat, data: nat, present: nat)

  function Measure(content: string): Measures {
    Measures(|content|, |Words(content)|, DataMatches(content), CountPresent(Lower(content), RelevanceKeywords))
  }

  /** The issues of non-empty content, in the order the factors append them */
  function IssuesFor(ms: Measures): seq<string> {
    (if ms.length < MinContentLength then [TooShort] else [])
    + (if ms.words < 75 then [LowWordDensity] else [])
    + (if ms.data < 2 then [FewData] else [])
    + (if ms.present < 3 then [LowRelevance] else [])
  }

  /** The strengths of non-empty content from a netloc lower-cased to
      `domain`, in the order the factors append them */
  function StrengthsFor(ms: Measures, domain: string): seq<string> {
    (if ms.length >= 2000 then [Extensive] else if ms.length >= 1000 then [Substantial] else [])
    + (if ms.words >= 300 then [HighDensity] else [])
    + (if ms.data >= 10 then [RichData] else [])
    + (if ContainsAny(domain, TrustedDomains) then [OfficialSource]
       else if ContainsAny(domain, NewsDomains) then [NewsSource] else [])
    + (if ms.present >= 8 then [HighlyRelevant] else [])
  }

  /** The rubric tags the report with exactly the issues and strengths the
      thresholds call for, in factor order */
  lemma RubricNotes(content: string, domain: string)
    ensures Grade5(content, domain).Issues() == IssuesFor(Measure(content))
    ensures Grade5(content, domain).Strengths() == StrengthsFor(Measure(content), domain)
  {
    var ms := Measure(content);
    MeasuredIssues(ms, domain);
    MeasuredStrengths(ms, domain);
  }

  /** The rubric as a function of the measures */
  function GradeMeasures(ms: Measures, domain: string): Rubric {
    Rubric(LengthGrade(ms.length), WordGrade(ms.words), DataGrade(ms.data),
           SourceGrade(domain), RelevanceGrade(ms.present))
  }

  lemma MeasuredIssues(ms: Measures, domain: string)
    ensures GradeMeasures(ms, domain).Issues() == IssuesFor(ms)
  {
    var rb := GradeMeasures(ms, domain);
    var l, w, d, p := IssueOf(rb.length), IssueOf(rb.words), IssueOf(rb.data), IssueOf(rb.relevance);
    assert l == (if ms.length < MinContentLength then [TooShort] else []);
    assert w == (if ms.words < 75 then [LowWordDensity] else []);
    assert d == (if ms.data < 2 then [FewData] else []);
    assert p == (if ms.present < 3 then [LowRelevance] else []);
    assert IssueOf(rb.source) == [];
    assert rb.Issues() == l + w + d + [] + p;
    assert l + w + d + [] + p == l + w + d + p;
  }

  lemma MeasuredStrengths(ms: Measures, domain: string)
    ensures GradeMeasures(ms, domain).Strengths() == StrengthsFor(ms, domain)
  {
    var rb := GradeMeasures(ms, domain);
    assert StrengthOf(rb.length) == (if ms.length >= 2000 then [Extensive] else if ms.length >= 1000 then [Substantial] else []);
    assert StrengthOf(rb.words) == (if ms.words >= 300 then [HighDensity] else []);
    assert StrengthOf(rb.data) == (if ms.data >= 10 then [RichData] else []);
    assert StrengthOf(rb.source) == (if ContainsAny(domain, TrustedDomains) then [OfficialSource]
                                     else if ContainsAny(domain, NewsDomains) then [NewsSource] else []);
    assert StrengthOf(rb.relevance) == (if ms.present >= 8 then [HighlyRelevant] else []);
  }

  /** The rubric of non-empty content whose netloc, lower-cased, is `domain` */
  function Grade5(content: string, domain: string): Rubric {
    GradeMeasures(Measure(content), domain)
  }

  /** The five sub-scores add up to between 5 and 100 */
  lemma TotalRange(rb: Rubric)
    requires rb.length.points in {0, 10, 15, 20, 25} && rb.words.points in {0, 15, 20, 25}
    requires rb.data.points in {0, 10, 15, 20} && rb.source.points in {5, 8, 12, 15}
    requires rb.relevance.points in {0, 8, 12, 15}
    ensures 5 <= rb.Total() <= 100
  {
    assert rb.length.points <= 25 && rb.words.points <= 25 && rb.data.points <= 20;
    assert 5 <= rb.source.points <= 15 && rb.relevance.points <= 15;
  }

  /** The report built from a rubric for non-empty content */
  function ScoredReport(url: string, ms: Measures, rb: Rubric): (rep: Report)
    requires rb.length == LengthGrade(ms.length)
    requires rb.words == WordGrade(ms.words)
    requires rb.data == DataGrade(ms.data)
    requires !rb.source.note.Issue? && rb.source.points in {5, 8, 12, 15}
    requires rb.relevance == RelevanceGrade(ms.present)
    ensures rep.Scored?
    ensures rep.url == url
    ensures rep.contentLength == ms.length
    ensures rep.wordCount == ms.words
    ensures rep.score == rb.Total()
    ensures 5 <= rep.score <= 100
    ensures rep.level != Invalid && rep.level == LevelOf(rep.score)
    ensures rep.valid <==> ms.length >= MinContentLength && rep.score >= PoorThreshold
    ensures rep.issues == rb.Issues() && rep.strengths == rb.Strengths()
  {
    TotalRange(rb);
    var score := rb.Total();
    Scored(ms.length >= MinContentLength && score >= PoorThreshold,
           score, LevelOf(score), rb.Issues(), rb.Strengths(),
           url, ms.length, ms.words)
  }

  /** Each issue of a scored report is raised exactly when its factor fails */
  lemma ScoredIssues(url: string, ms: Measures, rb: Rubric)
    requires rb.length == LengthGrade(ms.length)
    requires rb.words == WordGrade(ms.words)
    requires rb.data == DataGrade(ms.data)
    requires !rb.source.note.Issue? && rb.source.points in {5, 8, 12, 15}
    requires rb.relevance == RelevanceGrade(ms.present)
    ensures var rep := ScoredReport(url, ms, rb);
            && |rep.issues| + |rep.strengths| <= 5
            && (TooShort in rep.issues <==> ms.length < MinContentLength)
            && (LowWordDensity in rep.issues <==> ms.words < 75)
            && (FewData in rep.issues <==> ms.data < 2)
            && (LowRelevance in rep.issues <==> ms.present < 3)
  {
    RubricIssues(rb);
  }

  /** Quality level of a score: 90/70/50 thresholds, else poor */
  function LevelOf(score: int): (l: Level)
    ensures l != Invalid
    ensures l == Excellent <==> score >= ExcellentThreshold
    ensures l == Good <==> GoodThreshold <= score < ExcellentThreshold
    ensures l == Fair <==> FairThreshold <= score < GoodThreshold
    ensures l == Poor <==> score < FairThreshold
  {
    if score >= ExcellentThreshold then Excellent
    else if score >= GoodThreshold then Good
    else if score >= FairThreshold then Fair
    else Poor
  }

  // ---------------------------------------------------------------------
  // validate_content
  // ---------------------------------------------------------------------

  /** `validate_content(content, url)`. It raises only when `urlparse`
      rejects the URL, which happens after the empty-content check. */
  function ValidateContent(content: string, url: string): (r: Result<Report, string>)
    // empty content: fixed invalid report, no factor runs
    ensures content == [] ==> r == Success(EmptyReport(false, 0, Invalid, [EmptyContent], url))
    // the only exception is the URL parser's
    ensures r.Failure? <==> content != [] && Url.Netloc(url).Failure?
    ensures r.Failure? ==> r.error == Url.InvalidIPv6
    ensures r.Success? && content != [] ==>
      var rep := r.value;
      && rep.Scored?
      && rep.url == url
      && rep.contentLength == |content|
      && rep.wordCount == |Words(content)|
      && 5 <= rep.score <= 100
      && rep.level != Invalid
      && rep.level == LevelOf(rep.score)
      && (rep.valid <==> |content| >= MinContentLength && rep.score >= PoorThreshold)
      && |rep.issues| + |rep.strengths| <= 5
      && (TooShort in rep.issues <==> |content| < MinContentLength)
      && (LowWordDensity in rep.issues <==> |Words(content)| < 75)
      && (FewData in rep.issues <==> DataMatches(content) < 2)
      && (LowRelevance in rep.issues <==> CountPresent(Lower(content), RelevanceKeywords) < 3)
    // both lists in full, in the order the factors append them
    ensures r.Success? && content != [] ==>
      && r.value.issues == IssuesFor(Measure(content))
      && r.value.strengths == StrengthsFor(Measure(content), Lower(Url.Netloc(url).value))
  {
    if content == [] then Success(EmptyReport(false, 0, Invalid, [EmptyContent], url))
    else
      match Url.Netloc(url)
      case Failure(e) => Failure(e)
      case Success(netloc) =>
        ScoredReportOfContent(content, url, Lower(netloc));
        RubricNotes(content, Lower(netloc));
        Success(ScoredReport(url, Measure(content), Grade5(content, Lower(netloc))))
  }

  /** The scored report of non-empty content, in terms of the content */
  lemma ScoredReportOfContent(content: string, url: string, domain: string)
    ensures var rep := ScoredReport(url, Measure(content), Grade5(content, domain));
      && rep.Scored?
      && rep.url == url
      && rep.contentLength == |content|
      && rep.wordCount == |Words(content)|
      && 5 <= rep.score <= 100
      && rep.level != Invalid
      && rep.level == LevelOf(rep.score)
      && (rep.valid <==> |content| >= MinContentLength && rep.score >= PoorThreshold)
      && |rep.issues| + |rep.strengths| <= 5
      && (TooShort in rep.issues <==> |content| < MinContentLength)
      && (LowWordDensity in rep.issues <==> |Words(content)| < 75)
      && (FewData in rep.issues <==> DataMatches(content) < 2)
      && (LowRelevance in rep.issues <==> CountPresent(Lower(content), RelevanceKeywords) < 3)
  {
    ScoredIssues(url, Measure(content), Grade5(content, domain));
  }

  /** The report of non-empty content with a parseable URL is the rubric's */
  lemma ValidateContentScored(content: string, url: string)
    requires content != [] && Url.Netloc(url).Success?
    ensures ValidateContent(content, url)
            == Success(ScoredReport(url, Measure(content), Grade5(content, Lower(Url.Netloc(url).value))))
  {}

  /** The reported score is the sum of the five sub-scores */
  lemma ScoreIsSumOfFactors(content: string, url: string)
    requires content != [] && Url.Netloc(url).Success?
    ensures ValidateContent(content, url).value.score ==
      LengthGrade(|content|).points
      + WordGrade(|Words(content)|).points
      + DataGrade(DataMatches(content)).points
      + SourceGrade(Lower(Url.Netloc(url).value)).points
      + RelevanceGrade(CountPresent(Lower(content), RelevanceKeywords)).points
  {
    ValidateContentScored(content, url);
    var rb := Grade5(content, Lower(Url.Netloc(url).value));
    assert ValidateContent(content, url).value.score == rb.Total();
  }

  /** Length and word sub-scores never decrease as the content grows */
  lemma FactorLaddersMonotone(m: nat, n: nat)
    requires m <= n
    ensures LengthGrade(m).points <= LengthGrade(n).points
    ensures WordGrade(m).points <= WordGrade(n).points
    ensures DataGrade(m).points <= DataGrade(n).points
    ensures RelevanceGrade(m).points <= RelevanceGrade(n).points
  {}

  /** The level is order-preserving in the score */
  lemma LevelMonotone(a: int, b: int)
    requires a <= b
    ensures Rank(LevelOf(a)) <= Rank(LevelOf(b))
  {}

  /** The relevance factor counts each keyword once, so at most ten */
  lemma RelevanceCountsDistinctKeywords(content: string)
    ensures CountPresent(Lower(content), RelevanceKeywords)
            == |PresentKeywords(Lower(content), RelevanceKeywords)|
    ensures CountPresent(Lower(content), RelevanceKeywords) <= 10
  {
    RelevanceKeywordsDistinct();
    CountPresentIsCardinality(Lower(content), RelevanceKeywords);
  }

  /** Content under 100 characters has at most 50 words, so it earns no
      length or word points: it scores at most 50, is never valid, and is at
      best 'fair'. */
  lemma ShortContentAtMostFair(content: string, url: string)
    requires content != [] && |content| < MinContentLength
    requires ValidateContent(content, url).Success?
    ensures ValidateContent(content, url).value.score <= 50
    ensures !ValidateContent(content, url).value.valid
    ensures ValidateContent(content, url).value.level in {Poor, Fair}
  {
    var domain := Lower(Url.Netloc(url).value);
    ValidateContentScored(content, url);
    ShortRubric(content, domain);
    LowScoreLevel(Grade5(content, domain).Total());
  }

  lemma LowScoreLevel(score: int)
    requires score <= 50
    ensures LevelOf(score) in {Poor, Fair}
  {}

  lemma ShortRubric(content: string, domain: string)
    requires |content| < MinContentLength
    ensures Grade5(content, domain).Total() <= 50
  {
    ShortHasFewWords(content);
    SizeFreePoints(Grade5(content, domain), |content|, |Words(content)|);
  }

  /** With no length or word points, the other three factors give at most 50 */
  lemma SizeFreePoints(rb: Rubric, n: nat, w: nat)
    requires rb.length == LengthGrade(n) && n < MinContentLength
    requires rb.words == WordGrade(w) && w <= 50
    requires rb.data.points in {0, 10, 15, 20}
    requires rb.source.points in {5, 8, 12, 15}
    requires rb.relevance.points in {0, 8, 12, 15}
    ensures rb.Total() <= 50
  {}

  /** Fewer than 100 characters hold at most 50 words */
  lemma ShortHasFewWords(content: string)
    requires |content| < MinContentLength
    ensures |Words(content)| <= 50
  {
    WordCountBound(content);
  }


  /** A valid report's level is poor or better, and its score is at least 30 */
  lemma ValidIsAtLeastPoor(content: string, url: string)
    requires ValidateContent(content, url).Success?
    requires ValidateContent(content, url).value.valid
    ensures ValidateContent(content, url).value.score >= PoorThreshold
    ensures |content| >= MinContentLength
  {}

  /** `sebrae.com.br` is trusted (15) even though it also ends in `.com.br` (8) */
  lemma SebraeIsTrusted()
    ensures EndsWith("sebrae.com.br", ".com.br")
    ensures SourceGrade("sebrae.com.br").points == 15
  {
    assert Contains("sebrae.com.br", TrustedDomains[4]);
  }

  // ---------------------------------------------------------------------
  // validate_batch
  // ---------------------------------------------------------------------

  /** `validate_batch(content_dict)`: the per-key report; the first report
      that raises makes the whole call raise. */
  function ValidateBatch(contents: map<string, string>): (r: Result<map<string, Report>, string>)
    ensures r.Success? <==> forall u :: u in contents ==> ValidateContent(contents[u], u).Success?
    ensures r.Failure? ==> r.error == Url.InvalidIPv6
    ensures r.Success? ==> r.value.Keys == contents.Keys
    ensures r.Success? ==> forall u :: u in contents ==> Success(r.value[u]) == ValidateContent(contents[u], u)
  {
    if exists u :: u in contents && ValidateContent(contents[u], u).Failure? then Failure(Url.InvalidIPv6)
    else Success(map u | u in contents :: ValidateContent(contents[u], u).value)
  }

  // ---------------------------------------------------------------------
  // get_validation_summary
  // ---------------------------------------------------------------------

  /** The summary without its `extractor_stats` field (see SummarizeAsWritten).
      Rates are exact rationals: Python's float division and `round(.., 2)`
      are not modelled. */
  datatype Summary = Summary(
    totalValidated: nat,
    validContent: nat,
    invalidContent: nat,
    successRate: real,
    averageQualityScore: real,
    qualityDistribution: map<Level, nat>)

  ghost function ValidKeys(v: map<string, Report>, ks: set<string>): set<string>
    requires ks <= v.Keys
  {
    set u | u in ks && v[u].valid
  }

  ghost function LevelKeys(v: map<string, Report>, ks: set<string>, l: Level): set<string>
    requires ks <= v.Keys
  {
    set u | u in ks && v[u].level == l
  }

  ghost function Pick(ks: set<string>): string
    requires ks != {}
  {
    var k :| k in ks; k
  }

  /** Sum of the scores of the reports at keys `ks` */
  ghost function ScoreSum(v: map<string, Report>, ks: set<string>): nat
    requires ks <= v.Keys
    decreases |ks|
  {
    if ks == {} then 0 else v[Pick(ks)].score + ScoreSum(v, ks - {Pick(ks)})
  }

  /** The sum does not depend on which key is taken first */
  lemma {:induction false} ScoreSumRemove(v: map<string, Report>, ks: set<string>, k: string)
    requires ks <= v.Keys && k in ks
    ensures ScoreSum(v, ks) == v[k].score + ScoreSum(v, ks - {k})
    decreases |ks|
  {
    var j := Pick(ks);
    if j != k {
      ScoreSumRemove(v, ks - {j}, k);
      ScoreSumRemove(v, ks - {k}, j);
      assert ks - {j} - {k} == ks - {k} - {j};
    }
  }

  function CountOf(d: map<Level, nat>, l: Level): nat {
    if l in d then d[l] else 0
  }

  /** Sum of the counts of a level histogram */
  function DistributionTotal(d: map<Level, nat>): nat {
    CountOf(d, Invalid) + CountOf(d, Poor) + CountOf(d, Fair) + CountOf(d, Good) + CountOf(d, Excellent)
  }

  /** Counting one more report of level l */
  function Tally(d: map<Level, nat>, l: Level): (d': map<Level, nat>)
    ensures CountOf(d', l) == CountOf(d, l) + 1
    ensures forall m :: m != l ==> CountOf(d', m) == CountOf(d, m)
    ensures d'.Keys == d.Keys + {l}
    ensures DistributionTotal(d') == DistributionTotal(d) + 1
  {
    var d' := d[l := CountOf(d, l) + 1];
    assert forall m :: CountOf(d', m) == CountOf(d, m) + (if m == l then 1 else 0);
    d'
  }

  /** What one more key adds to the set of valid keys */
  lemma AddValidKey(v: map<string, Report>, done: set<string>, k: string)
    requires done <= v.Keys && k in v.Keys && k !in done
    ensures |ValidKeys(v, done + {k})| == |ValidKeys(v, done)| + (if v[k].valid then 1 else 0)
  {
    if v[k].valid {
      assert ValidKeys(v, done + {k}) == ValidKeys(v, done) + {k};
    } else {
      assert ValidKeys(v, done + {k}) == ValidKeys(v, done);
    }
  }

  /** What one more key adds to the set of keys of level l */
  lemma AddLevelKey(v: map<string, Report>, done: set<string>, k: string, l: Level)
    requires done <= v.Keys && k in v.Keys && k !in done
    ensures |LevelKeys(v, done + {k}, l)| == |LevelKeys(v, done, l)| + (if v[k].level == l then 1 else 0)
  {
    if v[k].level == l {
      assert LevelKeys(v, done + {k}, l) == LevelKeys(v, done, l) + {k};
    } else {
      assert LevelKeys(v, done + {k}, l) == LevelKeys(v, done, l);
    }
  }

  lemma ValidKeysBound(v: map<string, Report>, ks: set<string>)
    requires ks <= v.Keys
    ensures |ValidKeys(v, ks)| <= |ks|
  {
    var good := ValidKeys(v, ks);
    assert ks == good + (ks - good);
  }

  /** Running totals over the reports seen so far */
  datatype Tallies = Tallies(valid: nat, scores: nat, dist: map<Level, nat>)

  /** Adding one report to the running totals */
  function AddReport(t: Tallies, r: Report): (t': Tallies)
    ensures t'.valid == t.valid + (if r.valid then 1 else 0)
    ensures t'.scores == t.scores + r.score
  {
    Tallies(t.valid + (if r.valid then 1 else 0), t.scores + r.score, Tally(t.dist, r.level))
  }

  /** `t` holds exactly the totals of the reports at keys `done` */
  ghost predicate Counts(v: map<string, Report>, done: set<string>, t: Tallies)
    requires done <= v.Keys
  {
    && t.valid == |ValidKeys(v, done)|
    && t.scores == ScoreSum(v, done)
    && (forall l :: l in t.dist ==> t.dist[l] > 0)
    && (forall l :: CountOf(t.dist, l) == |LevelKeys(v, done, l)|)
    && DistributionTotal(t.dist) == |done|
  }

  /** Nothing seen, nothing counted */
  lemma CountsEmpty(v: map<string, Report>)
    ensures Counts(v, {}, Tallies(0, 0, map[]))
  {
    forall l ensures CountOf(map[], l) == |LevelKeys(v, {}, l)| {
      assert LevelKeys(v, {}, l) == {};
    }
    assert ValidKeys(v, {}) == {};
  }

  /** Taking one more key keeps the totals exact */
  lemma CountsStep(v: map<string, Report>, done: set<string>, k: string, t: Tallies)
    requires done <= v.Keys && k in v.Keys && k !in done
    requires Counts(v, done, t)
    ensures Counts(v, done + {k}, AddReport(t, v[k]))
  {
    AddValidKey(v, done, k);
    DistributionStep(v, done, k, t.dist);
    ScoreSumRemove(v, done + {k}, k);
    assert done + {k} - {k} == done;
  }

  /** Counting one more report keeps the histogram exact */
  lemma DistributionStep(v: map<string, Report>, done: set<string>, k: string, d: map<Level, nat>)
    requires done <= v.Keys && k in v.Keys && k !in done
    requires forall l :: l in d ==> d[l] > 0
    requires forall l :: CountOf(d, l) == |LevelKeys(v, done, l)|
    requires DistributionTotal(d) == |done|
    ensures forall l :: l in Tally(d, v[k].level) ==> Tally(d, v[k].level)[l] > 0
    ensures forall l :: CountOf(Tally(d, v[k].level), l) == |LevelKeys(v, done + {k}, l)|
    ensures DistributionTotal(Tally(d, v[k].level)) == |done + {k}|
  {
    var r := v[k];
    forall l ensures |LevelKeys(v, done + {k}, l)| == |LevelKeys(v, done, l)| + (if r.level == l then 1 else 0) {
      AddLevelKey(v, done, k, l);
    }
  }


  /** One more key moved from the keys to visit to the keys seen */
  lemma MoveKey(keys: set<string>, todo: set<string>, done: set<string>, k: string)
    requires todo !! done && todo + done == keys && k in todo
    ensures (todo - {k}) !! (done + {k}) && (todo - {k}) + (done + {k}) == keys
    ensures |todo - {k}| < |todo| && done <= keys && k in keys && k !in done
  {}

  /** `get_validation_summary(validations)` without the `extractor_stats`
      field: counts, validity rate, mean score and the histogram of levels
      that occur. */
  method Summarize(validations: map<string, Report>) returns (s: Summary)
    ensures s.totalValidated == |validations|
    ensures s.validContent == |ValidKeys(validations, validations.Keys)|
    ensures s.validContent + s.invalidContent == s.totalValidated
    ensures forall l :: l in s.qualityDistribution ==> s.qualityDistribution[l] > 0
    ensures forall l :: CountOf(s.qualityDistribution, l) == |LevelKeys(validations, validations.Keys, l)|
    ensures DistributionTotal(s.qualityDistribution) == s.totalValidated
    ensures s.successRate == Percentage(s.validContent, s.totalValidated)
    ensures s.averageQualityScore == Mean(ScoreSum(validations, validations.Keys), s.totalValidated)
  {
    var todo := validations.Keys;
    var done: set<string> := {};
    var t := Tallies(0, 0, map[]);
    CountsEmpty(validations);
    while todo != {}
      invariant todo !! done && todo + done == validations.Keys
      invariant Counts(validations, done, t)
      decreases |todo|
    {
      var k :| k in todo;
      MoveKey(validations.Keys, todo, done, k);
      CountsStep(validations, done, k, t);
      t := AddReport(t, validations[k]);
      todo := todo - {k};
      done := done + {k};
    }
    assert done == validations.Keys;
    s := FromTallies(validations, t);
  }

  /** The summary built from exact totals over every report */
  function FromTallies(v: map<string, Report>, t: Tallies): (s: Summary)
    requires Counts(v, v.Keys, t)
    ensures s.totalValidated == |v|
    ensures s.validContent == |ValidKeys(v, v.Keys)|
    ensures s.validContent + s.invalidContent == s.totalValidated
    ensures forall l :: l in s.qualityDistribution ==> s.qualityDistribution[l] > 0
    ensures forall l :: CountOf(s.qualityDistribution, l) == |LevelKeys(v, v.Keys, l)|
    ensures DistributionTotal(s.qualityDistribution) == s.totalValidated
    ensures s.successRate == Percentage(s.validContent, s.totalValidated)
    ensures s.averageQualityScore == Mean(ScoreSum(v, v.Keys), s.totalValidated)
  {
    ValidKeysBound(v, v.Keys);
    var total := |v|;
    Summary(total, t.valid, total - t.valid, Percentage(t.valid, total), Mean(t.scores, total), t.dist)
  }

  // ---------------------------------------------------------------------
  // The summary as written
  // ---------------------------------------------------------------------

  /** The attributes `__init__` sets on the validator object. There is no
      `stats` attribute among them. */
  datatype ValidatorObject = ValidatorObject(
    minContentLength: nat,
    qualityThresholds: map<string, nat>,
    stats: Option<map<string, int>>)

  /** `ContentQualityValidator()` */
  function NewValidator(): (v: ValidatorObject)
    ensures v.minContentLength == MinContentLength
    ensures v.stats.None?
  {
    ValidatorObject(MinContentLength,
                    map["excellent" := ExcellentThreshold, "good" := GoodThreshold,
                        "fair" := FairThreshold, "poor" := PoorThreshold],
                    None)
  }

  const NoStatsAttribute: string := "'ContentQualityValidator' object has no attribute 'stats'"

  /** `get_extractor_stats()`: reads the missing `stats` attribute */
  function GetExtractorStats(v: ValidatorObject): (r: Result<map<string, int>, string>)
    ensures r.Failure? <==> v.stats.None?
  {
    match v.stats
    case None => Failure(NoStatsAttribute)
    case Some(s) => Success(s)
  }

  /** `get_validation_summary` as written: the summary dictionary ends with
      `extractor_stats`, whose lookup raises AttributeError on every
      validator the constructor builds, for every input. */
  method SummarizeAsWritten(v: ValidatorObject, validations: map<string, Report>)
    returns (r: Result<(Summary, map<string, int>), string>)
    ensures v == NewValidator() ==> r == Failure(NoStatsAttribute)
    ensures r.Success? ==> r.value.0.totalValidated == |validations|
  {
    var s := Summarize(validations);
    match GetExtractorStats(v)
    case Failure(e) => r := Failure(e);
    case Success(stats) => r := Success((s, stats));
  }
}
