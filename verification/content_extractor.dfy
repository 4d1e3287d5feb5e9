/** `RobustContentExtractor`: three fetch strategies tried in priority order
    (Jina Reader, direct page text, aggressive fallback), each accepted only
    above a length bar, with six counters threaded through every call.

    The network is an oracle: for each strategy, `Pages` holds the text the
    HTTP call would yield (the Jina response body, or the page text left
    after the HTML tags are removed), or None when the status is not 200 or
    the strategy's own exception handler returned None. */
module ContentExtractor {
  import opened Wrappers
  import opened PyText
  import opened TextCleaner
  import Ratio

  const JinaLimit: nat := 15000
  const JinaMarker: string := "... [conteúdo truncado]"
  /** Stripped length a Jina or direct result must exceed */
  const PrimaryBar: nat := 100
  /** Stripped length a fallback result must exceed */
  const FallbackBar: nat := 50

  datatype Strategy = Jina | Direct | Fallback

  /** The order in which the strategies are tried */
  function Priority(st: Strategy): nat {
    match st
    case Jina => 0
    case Direct => 1
    case Fallback => 2
  }

  /** The oracle: what each strategy's HTTP call yields for one URL */
  datatype Pages = Pages(jina: Option<string>, direct: Option<string>, fallback: Option<string>)

  /** The environment read by the constructor: `JINA_API_KEY` */
  datatype Config = Config(jinaKey: Option<string>)

  /** `if self.jina_api_key:` — set and non-empty */
  predicate JinaEnabled(cfg: Config) {
    cfg.jinaKey.Some? && cfg.jinaKey.value != []
  }

  /** The `stats` dictionary */
  datatype Stats = Stats(
    total: nat,
    successful: nat,
    failed: nat,
    jina: nat,
    direct: nat,
    fallback: nat)

  const InitialStats: Stats := Stats(0, 0, 0, 0, 0, 0)

  /** Every extraction ended as exactly one success or failure, and every
      success is credited to exactly one strategy. */
  predicate Consistent(s: Stats) {
    s.successful + s.failed == s.total && s.jina + s.direct + s.fallback == s.successful
  }

  lemma InitialStatsConsistent()
    ensures Consistent(InitialStats)
  {}

  // ---------------------------------------------------------------------
  // The three strategies
  // ---------------------------------------------------------------------

  /** `_extract_with_jina`: the body, capped at 15000 characters plus a
      marker; it is not cleaned. */
  function JinaTier(page: Option<string>): (r: Option<string>)
    ensures r.Some? <==> page.Some?
    ensures r.Some? ==> |r.value| <= JinaLimit + |JinaMarker| || r.value == page.value
    ensures r.Some? && |page.value| <= JinaLimit ==> r.value == page.value
    ensures r.Some? && |page.value| > JinaLimit ==> |r.value| == JinaLimit + |JinaMarker|
    ensures r.Some? && |page.value| > JinaLimit ==> r.value == page.value[..JinaLimit] + JinaMarker
  {
    match page
    case None => None
    case Some(body) => Some(Truncate(body, JinaLimit, JinaMarker))
  }

  /** `_extract_direct`: the cleaned page text */
  function DirectTier(page: Option<string>): (r: Option<string>)
    ensures r.Some? <==> page.Some?
    ensures r.Some? ==> r.value == CleanText(page.value)
    // a result is stripped, empty for an empty page, and within the cleaner's cap
    ensures r.Some? ==> IsStripped(r.value) && |r.value| <= CleanLimit + |CleanMarker|
    ensures r.Some? && page.value == [] ==> r.value == []
  {
    match page
    case None => None
    case Some(text) => Some(CleanText(text))
  }

  /** `_extract_fallback`: the cleaned page text when it is longer than 50
      characters, else None */
  function FallbackTier(page: Option<string>): (r: Option<string>)
    ensures r.Some? <==> page.Some? && |CleanText(page.value)| > FallbackBar
    ensures r.Some? ==> r.value == CleanText(page.value)
    // a result is stripped, longer than 50 and within the cleaner's cap
    ensures r.Some? ==> IsStripped(r.value) && FallbackBar < |r.value| <= CleanLimit + |CleanMarker|
  {
    match page
    case None => None
    case Some(text) =>
      var c := CleanText(text);
      if |c| > FallbackBar then Some(c) else None
  }

  /** What the three strategy methods return for one URL */
  datatype Offers = Offers(jina: Option<string>, direct: Option<string>, fallback: Option<string>)

  function Offered(pages: Pages): Offers {
    Offers(JinaTier(pages.jina), DirectTier(pages.direct), FallbackTier(pages.fallback))
  }

  /** `content and len(content.strip()) > bar` */
  predicate Passes(content: Option<string>, bar: nat) {
    content.Some? && |Strip(content.value)| > bar
  }

  // ---------------------------------------------------------------------
  // extract_content
  // ---------------------------------------------------------------------

  datatype Verdict = Won(strategy: Strategy, content: string) | Exhausted

  /** The outcome of the strategy chain and the strategies it consulted, in order */
  datatype Chain = Chain(verdict: Verdict, consulted: seq<Strategy>)

  predicate JinaWins(cfg: Config, o: Offers) {
    JinaEnabled(cfg) && Passes(o.jina, PrimaryBar)
  }

  predicate DirectWins(cfg: Config, o: Offers) {
    !JinaWins(cfg, o) && Passes(o.direct, PrimaryBar)
  }

  predicate FallbackWins(cfg: Config, o: Offers) {
    !JinaWins(cfg, o) && !DirectWins(cfg, o) && Passes(o.fallback, FallbackBar)
  }

  /** Strategies listed in the order the chain tries them */
  predicate InPriorityOrder(ss: seq<Strategy>) {
    forall i, j :: 0 <= i < j < |ss| ==> Priority(ss[i]) < Priority(ss[j])
  }

  lemma PriorityOrders()
    ensures InPriorityOrder([Jina]) && InPriorityOrder([Direct])
    ensures InPriorityOrder([Jina, Direct]) && InPriorityOrder([Direct, Fallback])
    ensures InPriorityOrder([Jina, Direct, Fallback])
  {}

  /** The body of the `try` in `extract_content`, on what the strategies offer */
  function RunChain(cfg: Config, o: Offers): (c: Chain)
    // the first strategy whose result clears its bar wins, with that result
    ensures c.verdict.Won? && c.verdict.strategy == Jina <==> JinaWins(cfg, o)
    ensures c.verdict.Won? && c.verdict.strategy == Direct <==> DirectWins(cfg, o)
    ensures c.verdict.Won? && c.verdict.strategy == Fallback <==> FallbackWins(cfg, o)
    ensures c.verdict.Won? && c.verdict.strategy == Jina ==> Some(c.verdict.content) == o.jina
    ensures c.verdict.Won? && c.verdict.strategy == Direct ==> Some(c.verdict.content) == o.direct
    ensures c.verdict.Won? && c.verdict.strategy == Fallback ==> Some(c.verdict.content) == o.fallback
    // Jina is asked only when a key is set; nothing is asked after a win
    ensures Jina in c.consulted <==> JinaEnabled(cfg)
    ensures Direct in c.consulted <==> !JinaWins(cfg, o)
    ensures Fallback in c.consulted <==> !JinaWins(cfg, o) && !DirectWins(cfg, o)
    ensures InPriorityOrder(c.consulted)
  {
    PriorityOrders();
    var first := if JinaEnabled(cfg) then [Jina] else [];
    if JinaWins(cfg, o) then Chain(Won(Jina, o.jina.value), [Jina])
    else if DirectWins(cfg, o) then Chain(Won(Direct, o.direct.value), first + [Direct])
    else if FallbackWins(cfg, o) then Chain(Won(Fallback, o.fallback.value), first + [Direct, Fallback])
    else Chain(Exhausted, first + [Direct, Fallback])
  }

  /** A returned text clears 50 stripped characters, and 100 unless it came
      from the fallback */
  lemma ChainBars(cfg: Config, o: Offers)
    ensures RunChain(cfg, o).verdict.Won? ==> |Strip(RunChain(cfg, o).verdict.content)| > FallbackBar
    ensures RunChain(cfg, o).verdict.Won? && RunChain(cfg, o).verdict.strategy != Fallback ==>
              |Strip(RunChain(cfg, o).verdict.content)| > PrimaryBar
  {}

  /** What one call returns, which strategies it asked, and the counters after it */
  datatype Extraction = Extraction(content: Option<string>, consulted: seq<Strategy>, stats: Stats)

  /** `not url or not url.startswith(('http://', 'https://'))` fails */
  predicate IsWebUrl(url: string) {
    url != [] && (StartsWith(url, "http://") || StartsWith(url, "https://"))
  }

  /** The counters after the chain ends with verdict v */
  function Record(s: Stats, v: Verdict): (s': Stats)
    ensures s'.total == s.total
    ensures v.Exhausted? ==> s' == s.(failed := s.failed + 1)
    ensures v.Won? && v.strategy == Jina ==> s' == s.(successful := s.successful + 1, jina := s.jina + 1)
    ensures v.Won? && v.strategy == Direct ==> s' == s.(successful := s.successful + 1, direct := s.direct + 1)
    ensures v.Won? && v.strategy == Fallback ==> s' == s.(successful := s.successful + 1, fallback := s.fallback + 1)
  {
    match v
    case Exhausted => s.(failed := s.failed + 1)
    case Won(Jina, _) => s.(successful := s.successful + 1, jina := s.jina + 1)
    case Won(Direct, _) => s.(successful := s.successful + 1, direct := s.direct + 1)
    case Won(Fallback, _) => s.(successful := s.successful + 1, fallback := s.fallback + 1)
  }

  /** `extract_content(url)` with the counters `s` before the call */
  function ExtractContent(cfg: Config, url: string, o: Offers, s: Stats): (e: Extraction)
    // an invalid URL returns at once: no strategy, no counter
    ensures !IsWebUrl(url) ==> e == Extraction(None, [], s)
    ensures e.stats.total == s.total + (if IsWebUrl(url) then 1 else 0)
    ensures IsWebUrl(url) ==> e.consulted == RunChain(cfg, o).consulted
    // the text is the first passing strategy's, and its counters are recorded
    ensures IsWebUrl(url) ==>
              e.content == (if RunChain(cfg, o).verdict.Won? then Some(RunChain(cfg, o).verdict.content) else None)
    ensures IsWebUrl(url) ==> e.stats == Record(s.(total := s.total + 1), RunChain(cfg, o).verdict)
    // exactly one of successful / failed moves, and it matches the result
    ensures IsWebUrl(url) ==>
              (e.content.Some? <==> e.stats.successful == s.successful + 1 && e.stats.failed == s.failed)
    ensures IsWebUrl(url) ==>
              (e.content.None? <==> e.stats.failed == s.failed + 1 && e.stats.successful == s.successful)
    ensures e.content.Some? ==> |Strip(e.content.value)| > FallbackBar
    ensures e.stats.jina + e.stats.direct + e.stats.fallback
            == s.jina + s.direct + s.fallback + (if e.content.Some? then 1 else 0)
    ensures Consistent(s) ==> Consistent(e.stats)
  {
    Settle(Attempt(cfg, url, o), s)
  }

  /** The chain run for a URL that passes the check, or None */
  function Attempt(cfg: Config, url: string, o: Offers): (a: Option<Chain>)
    ensures a.None? <==> !IsWebUrl(url)
    ensures a.Some? ==> a.value == RunChain(cfg, o)
  {
    if IsWebUrl(url) then Some(RunChain(cfg, o)) else None
  }

  /** The result and counters once the outcome `a` is known */
  function Settle(a: Option<Chain>, s: Stats): (e: Extraction)
  {
    match a
    case None => Extraction(None, [], s)
    case Some(c) =>
      var s' := Record(s.(total := s.total + 1), c.verdict);
      match c.verdict
      case Won(_, text) => Extraction(Some(text), c.consulted, s')
      case Exhausted => Extraction(None, c.consulted, s')
  }

  /** The change to the counters that settling outcome `a` makes */
  function Step(a: Option<Chain>): (d: Stats)
    ensures Consistent(d)
    ensures d.total == (if a.Some? then 1 else 0)
    ensures d.successful == (if a.Some? && a.value.verdict.Won? then 1 else 0)
  {
    match a
    case None => InitialStats
    case Some(c) => Record(InitialStats.(total := 1), c.verdict)
  }

  /** Settling adds the same amounts to any counters */
  lemma SettleAddsStep(a: Option<Chain>, s: Stats)
    ensures Settle(a, s).stats == Plus(s, Step(a))
  {
    match a
    case None =>
      PlusNothing(s);
    case Some(c) =>
      SettleChain(c, s);
  }

  /** Settling returns the same text and consulted list from any counters */
  lemma SettleIgnoresStats(a: Option<Chain>, s: Stats)
    ensures Settle(a, s).content == Settle(a, InitialStats).content
    ensures Settle(a, s).consulted == Settle(a, InitialStats).consulted
  {
    match a
    case None =>
    case Some(c) =>
      SettleChain(c, s);
      SettleChain(c, InitialStats);
  }

  lemma SettleChain(c: Chain, s: Stats)
    ensures Settle(Some(c), s).stats == Plus(s, Step(Some(c)))
    ensures Settle(Some(c), s).content == (if c.verdict.Won? then Some(c.verdict.content) else None)
    ensures Settle(Some(c), s).consulted == c.consulted
  {
    var s' := Record(s.(total := s.total + 1), c.verdict);
    RecordPlus(s, c.verdict);
    match c.verdict
    case Won(_, text) =>
      assert Settle(Some(c), s) == Extraction(Some(text), c.consulted, s');
    case Exhausted =>
      assert Settle(Some(c), s) == Extraction(None, c.consulted, s');
  }

  lemma ContentIgnoresStats(cfg: Config, url: string, o: Offers, s: Stats, t: Stats)
    ensures ExtractContent(cfg, url, o, s).content == ExtractContent(cfg, url, o, t).content
    ensures ExtractContent(cfg, url, o, s).consulted == ExtractContent(cfg, url, o, t).consulted
  {
    SettleIgnoresStats(Attempt(cfg, url, o), s);
    SettleIgnoresStats(Attempt(cfg, url, o), t);
  }

  function Plus(a: Stats, b: Stats): (c: Stats)
    ensures Consistent(a) && Consistent(b) ==> Consistent(c)
  {
    Stats(a.total + b.total, a.successful + b.successful, a.failed + b.failed,
          a.jina + b.jina, a.direct + b.direct, a.fallback + b.fallback)
  }

  lemma PlusNothing(s: Stats)
    ensures Plus(s, InitialStats) == s
  {}

  lemma RecordPlus(s: Stats, v: Verdict)
    ensures Record(s.(total := s.total + 1), v) == Plus(s, Record(InitialStats.(total := 1), v))
  {}

  /** Bounds on what each strategy can return: Jina text is at most 15000
      characters plus its marker; direct and fallback text is cleaned, so at
      most 12000 plus the cleaner's marker, and fallback text is longer than
      50 characters. */
  lemma OfferBounds(pages: Pages)
    ensures Offered(pages).jina.Some? ==> |Offered(pages).jina.value| <= JinaLimit + |JinaMarker|
    ensures Offered(pages).direct.Some? ==> |Offered(pages).direct.value| <= CleanLimit + |CleanMarker|
    ensures Offered(pages).fallback.Some? ==>
              FallbackBar < |Offered(pages).fallback.value| <= CleanLimit + |CleanMarker|
  {}

  /** Whatever `extract_content` returns is at most 15000 characters plus
      the Jina marker */
  lemma ResultBounded(cfg: Config, url: string, pages: Pages, s: Stats)
    requires ExtractContent(cfg, url, Offered(pages), s).content.Some?
    ensures |ExtractContent(cfg, url, Offered(pages), s).content.value| <= JinaLimit + |JinaMarker|
  {
    OfferBounds(pages);
  }

  /** `clear_cache()`: returns True and touches nothing */
  function ClearCache(s: Stats): (r: (bool, Stats))
    ensures r.0
    ensures r.1 == s
  {
    (true, s)
  }

  /** The dictionary `get_extractor_stats` returns */
  datatype StatsReport = StatsReport(counters: Stats, successRate: real, jinaAvailable: bool)

  /** `get_extractor_stats()` */
  function ExtractorStats(cfg: Config, s: Stats): (r: StatsReport)
    ensures r.counters == s
    ensures r.jinaAvailable <==> JinaEnabled(cfg)
    ensures s.total == 0 ==> r.successRate == 0.0
    ensures s.total > 0 ==> r.successRate * (s.total as real) == (s.successful as real) * 100.0
    ensures Consistent(s) ==> 0.0 <= r.successRate <= 100.0
  {
    StatsReport(s, Ratio.Percentage(s.successful, s.total), JinaEnabled(cfg))
  }
}
