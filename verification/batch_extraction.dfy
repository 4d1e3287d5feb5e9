/** `RobustContentExtractor.batch_extract`: every URL submitted as its own
    `extract_content` task, results gathered into a dictionary keyed by URL.
    The thread pool is replaced by running the tasks one after another; the
    final counters are shown not to depend on the order. */
module BatchExtraction {
  import opened Wrappers
  import opened ContentExtractor

  const NoWorkers: string := "max_workers must be greater than 0"

  /** The change one call makes to the counters */
  function Delta(cfg: Config, url: string, o: Offers): (d: Stats)
    ensures Consistent(d)
    ensures d.total <= 1
  {
    Step(Attempt(cfg, url, o))
  }

  /** A call adds the same amounts whatever the counters were before */
  lemma ExtractAddsDelta(cfg: Config, url: string, o: Offers, s: Stats)
    ensures ExtractContent(cfg, url, o, s).stats == Plus(s, Delta(cfg, url, o))
  {
    SettleAddsStep(Attempt(cfg, url, o), s);
  }

  /** One submitted task: a URL and what the strategies return for it */
  datatype Task = Task(url: string, offers: Offers)

  datatype Batch = Batch(results: map<string, Option<string>>, stats: Stats)

  /** The URLs of the tasks */
  function Urls(tasks: seq<Task>): set<string> {
    if tasks == [] then {} else {tasks[0].url} + Urls(tasks[1..])
  }

  /** The URL set holds exactly the submitted URLs */
  lemma {:induction false} UrlsMembers(tasks: seq<Task>)
    ensures forall u :: u in Urls(tasks) <==> exists i :: 0 <= i < |tasks| && tasks[i].url == u
    decreases |tasks|
  {
    if tasks != [] {
      UrlsMembers(tasks[1..]);
      forall u ensures u in Urls(tasks) <==> exists i :: 0 <= i < |tasks| && tasks[i].url == u {
        if u in Urls(tasks[1..]) {
          var i :| 0 <= i < |tasks[1..]| && tasks[1..][i].url == u;
          assert tasks[i + 1].url == u;
        }
        if exists i :: 0 <= i < |tasks| && tasks[i].url == u {
          var i :| 0 <= i < |tasks| && tasks[i].url == u;
          if i > 0 { assert tasks[1..][i - 1].url == u; }
        }
      }
    }
  }

  /** Total change to the counters made by the tasks */
  function SumDelta(cfg: Config, tasks: seq<Task>): (d: Stats)
    ensures Consistent(d)
    ensures d.total <= |tasks|
  {
    if tasks == [] then InitialStats
    else Plus(Delta(cfg, tasks[0].url, tasks[0].offers), SumDelta(cfg, tasks[1..]))
  }

  /** The text a task yields, whatever the counters */
  function ResultOf(cfg: Config, t: Task): Option<string> {
    ExtractContent(cfg, t.url, t.offers, InitialStats).content
  }

  /** One task run from counters `s`: its text and the counters after it */
  function RunOne(cfg: Config, t: Task, s: Stats): (r: (Option<string>, Stats))
    ensures r.0 == ResultOf(cfg, t)
    ensures r.1 == Plus(s, Delta(cfg, t.url, t.offers))
  {
    var e := ExtractContent(cfg, t.url, t.offers, s);
    ContentIgnoresStats(cfg, t.url, t.offers, s, InitialStats);
    ExtractAddsDelta(cfg, t.url, t.offers, s);
    (e.content, e.stats)
  }

  lemma PlusAssoc(a: Stats, b: Stats, c: Stats)
    ensures Plus(Plus(a, b), c) == Plus(a, Plus(b, c))
  {}

  /** A way of running one task from given counters: its text and the
      counters after it */
  type Runner = (Task, Stats) -> (Option<string>, Stats)

  /** The tasks one after another through `run`, each result stored under its
      URL; a URL submitted twice keeps the result of its later submission. */
  function Gather(run: Runner, tasks: seq<Task>, acc: Batch): Batch
    decreases |tasks|
  {
    if tasks == [] then acc
    else
      var r := run(tasks[0], acc.stats);
      Gather(run, tasks[1..], Batch(acc.results[tasks[0].url := r.0], r.1))
  }

  /** The result keys are the keys before plus the submitted URLs */
  lemma {:induction false} GatherKeys(run: Runner, tasks: seq<Task>, acc: Batch)
    ensures Gather(run, tasks, acc).results.Keys == acc.results.Keys + Urls(tasks)
    decreases |tasks|
  {
    if tasks != [] {
      var r := run(tasks[0], acc.stats);
      GatherKeys(run, tasks[1..], Batch(acc.results[tasks[0].url := r.0], r.1));
    }
  }

  /** A key no task submits keeps its value */
  lemma {:induction false} GatherKeeps(run: Runner, tasks: seq<Task>, acc: Batch, u: string)
    requires u in acc.results && u !in Urls(tasks)
    ensures u in Gather(run, tasks, acc).results
    ensures Gather(run, tasks, acc).results[u] == acc.results[u]
    decreases |tasks|
  {
    if tasks != [] {
      var r := run(tasks[0], acc.stats);
      GatherKeeps(run, tasks[1..], Batch(acc.results[tasks[0].url := r.0], r.1), u);
    }
  }

  /** When a task's text does not depend on the counters, every submitted URL
      holds the text of one of its submissions */
  lemma {:induction false} GatherResults(run: Runner, text: Task -> Option<string>, tasks: seq<Task>, acc: Batch, u: string)
    requires forall t, s :: run(t, s).0 == text(t)
    requires u in Urls(tasks)
    ensures u in Gather(run, tasks, acc).results
    ensures exists i :: 0 <= i < |tasks| && tasks[i].url == u
                        && Gather(run, tasks, acc).results[u] == text(tasks[i])
    decreases |tasks|
  {
    var t := tasks[0];
    var r := run(t, acc.stats);
    var acc' := Batch(acc.results[t.url := r.0], r.1);
    assert Gather(run, tasks, acc) == Gather(run, tasks[1..], acc');
    if u in Urls(tasks[1..]) {
      GatherResults(run, text, tasks[1..], acc', u);
      var i :| 0 <= i < |tasks[1..]| && tasks[1..][i].url == u
               && Gather(run, tasks[1..], acc').results[u] == text(tasks[1..][i]);
      assert tasks[i + 1] == tasks[1..][i];
    } else {
      GatherKeeps(run, tasks[1..], acc', u);
    }
  }

  /** When each task adds a fixed change to the counters, the counters end
      as the counters before plus the sum of the changes */
  lemma {:induction false} GatherStats(run: Runner, f: Task -> Stats, tasks: seq<Task>, acc: Batch)
    requires forall t, s :: run(t, s).1 == Plus(s, f(t))
    ensures Gather(run, tasks, acc).stats == Plus(acc.stats, SumOf(f, tasks))
    decreases |tasks|
  {
    if tasks == [] {
      PlusNothing(acc.stats);
    } else {
      var t := tasks[0];
      var r := run(t, acc.stats);
      GatherStats(run, f, tasks[1..], Batch(acc.results[t.url := r.0], r.1));
      PlusAssoc(acc.stats, f(t), SumOf(f, tasks[1..]));
    }
  }

  /** `extract_content` as a runner */
  function Extractor(cfg: Config): Runner {
    (t: Task, s: Stats) => RunOne(cfg, t, s)
  }

  function TextOf(cfg: Config): Task -> Option<string> {
    (t: Task) => ResultOf(cfg, t)
  }

  /** The tasks of a batch run one after another */
  function RunTasks(cfg: Config, tasks: seq<Task>, acc: Batch): Batch {
    Gather(Extractor(cfg), tasks, acc)
  }

  /** The extractor yields the same text from any counters and adds its
      task's change to them */
  lemma ExtractorFacts(cfg: Config)
    ensures forall t, s :: Extractor(cfg)(t, s).0 == TextOf(cfg)(t)
    ensures forall t, s :: Extractor(cfg)(t, s).1 == Plus(s, DeltaOf(cfg)(t))
  {}

  /** Every submitted URL holds the text a call from counters `s` gives for
      one of its submissions */
  lemma BatchResults(cfg: Config, tasks: seq<Task>, s: Stats)
    ensures forall u :: u in Urls(tasks) ==>
              u in RunTasks(cfg, tasks, Batch(map[], s)).results
              && exists i :: 0 <= i < |tasks| && tasks[i].url == u
                             && RunTasks(cfg, tasks, Batch(map[], s)).results[u]
                                == ExtractContent(cfg, u, tasks[i].offers, s).content
  {
    var b := RunTasks(cfg, tasks, Batch(map[], s));
    forall u | u in Urls(tasks)
      ensures u in b.results && exists i :: 0 <= i < |tasks| && tasks[i].url == u
                                            && b.results[u] == ExtractContent(cfg, u, tasks[i].offers, s).content
    {
      ExtractorFacts(cfg);
      GatherResults(Extractor(cfg), TextOf(cfg), tasks, Batch(map[], s), u);
      var i :| 0 <= i < |tasks| && tasks[i].url == u && b.results[u] == TextOf(cfg)(tasks[i]);
      ContentIgnoresStats(cfg, u, tasks[i].offers, s, InitialStats);
    }
  }

  /** The counters end as the counters before plus every task's change */
  lemma BatchStats(cfg: Config, tasks: seq<Task>, s: Stats)
    ensures RunTasks(cfg, tasks, Batch(map[], s)).stats == Plus(s, SumDelta(cfg, tasks))
  {
    ExtractorFacts(cfg);
    GatherStats(Extractor(cfg), DeltaOf(cfg), tasks, Batch(map[], s));
    SumDeltaIsSumOf(cfg, tasks);
  }

  /** `batch_extract(urls, max_workers)` run one task after another, from
      counters `s`. A pool with no worker raises before any task runs. */
  function BatchExtract(cfg: Config, tasks: seq<Task>, maxWorkers: int, s: Stats): (r: Result<Batch, string>)
    ensures maxWorkers <= 0 <==> r.Failure?
    ensures r.Failure? ==> r.error == NoWorkers
    // one entry per distinct URL, holding the result of one of its submissions
    ensures r.Success? ==> r.value.results.Keys == Urls(tasks)
    ensures r.Success? ==> forall u :: u in r.value.results ==>
              exists i :: 0 <= i < |tasks| && tasks[i].url == u
                          && r.value.results[u] == ExtractContent(cfg, u, tasks[i].offers, s).content
    // the counters add up over the tasks and stay consistent
    ensures r.Success? ==> r.value.stats == Plus(s, SumDelta(cfg, tasks))
    ensures r.Success? ==> r.value.stats.total <= s.total + |tasks|
    ensures r.Success? && Consistent(s) ==> Consistent(r.value.stats)
  {
    if maxWorkers <= 0 then Failure(NoWorkers)
    else
      var b := RunTasks(cfg, tasks, Batch(map[], s));
      GatherKeys(Extractor(cfg), tasks, Batch(map[], s));
      BatchResults(cfg, tasks, s);
      BatchStats(cfg, tasks, s);
      Success(b)
  }

  // ---------------------------------------------------------------------
  // The counters do not depend on completion order
  // ---------------------------------------------------------------------

  /** The sum of f over the tasks, for any per-task change f */
  function SumOf(f: Task -> Stats, tasks: seq<Task>): Stats {
    if tasks == [] then InitialStats else Plus(f(tasks[0]), SumOf(f, tasks[1..]))
  }

  function DeltaOf(cfg: Config): Task -> Stats {
    (t: Task) => Delta(cfg, t.url, t.offers)
  }

  lemma {:induction false} SumDeltaIsSumOf(cfg: Config, tasks: seq<Task>)
    ensures SumDelta(cfg, tasks) == SumOf(DeltaOf(cfg), tasks)
    decreases |tasks|
  {
    if tasks != [] {
      SumDeltaIsSumOf(cfg, tasks[1..]);
      assert DeltaOf(cfg)(tasks[0]) == Delta(cfg, tasks[0].url, tasks[0].offers);
    }
  }

  lemma SumOfCons(f: Task -> Stats, t: Task, ts: seq<Task>)
    ensures SumOf(f, [t] + ts) == Plus(f(t), SumOf(f, ts))
  {
    assert ([t] + ts)[1..] == ts;
  }

  lemma Reorder(a: Stats, b: Stats, c: Stats)
    ensures Plus(a, Plus(b, c)) == Plus(b, Plus(a, c))
  {}

  /** Taking task j out first gives the same sum */
  lemma {:induction false} SumOfRemove(f: Task -> Stats, tasks: seq<Task>, j: nat)
    requires j < |tasks|
    ensures SumOf(f, tasks) == Plus(f(tasks[j]), SumOf(f, tasks[..j] + tasks[j + 1..]))
  {
    if j > 0 {
      var rest := tasks[1..];
      var rest' := rest[..j - 1] + rest[j..];
      assert rest[j - 1] == tasks[j];
      assert tasks[..j] + tasks[j + 1..] == [tasks[0]] + rest';
      SumOfRemove(f, rest, j - 1);
      Reorder(f(tasks[0]), f(tasks[j]), SumOf(f, rest'));
      SumOfCons(f, tasks[0], rest');
    } else {
      assert tasks[..0] + tasks[1..] == tasks[1..];
    }
  }

  /** Taking out the element at j takes one copy of it out of the multiset */
  lemma RemoveAt<T>(s: seq<T>, j: nat)
    requires j < |s|
    ensures multiset(s[..j] + s[j + 1..]) == multiset(s) - multiset{s[j]}
  {
    assert s == s[..j] + [s[j]] + s[j + 1..];
    assert multiset(s) == multiset(s[..j]) + multiset{s[j]} + multiset(s[j + 1..]);
  }

  /** Any reordering of the tasks gives the same sum */
  lemma {:induction false} SumOfPermutation(f: Task -> Stats, tasks: seq<Task>, other: seq<Task>)
    requires multiset(tasks) == multiset(other)
    ensures SumOf(f, tasks) == SumOf(f, other)
    decreases |tasks|
  {
    if tasks == [] {
      assert |other| == |multiset(other)| == 0;
    } else {
      var t := tasks[0];
      assert t in multiset(other) by { assert t in tasks; assert t in multiset(tasks); }
      var j :| 0 <= j < |other| && other[j] == t;
      var rest := other[..j] + other[j + 1..];
      assert multiset(tasks[1..]) == multiset(rest) by {
        RemoveAt(other, j);
        assert multiset(rest) == multiset(other) - multiset{t};
        assert tasks == [t] + tasks[1..];
        assert multiset(tasks[1..]) == multiset(tasks) - multiset{t};
      }
      SumOfPermutation(f, tasks[1..], rest);
      SumOfRemove(f, other, j);
    }
  }

  /** Any reordering of the tasks changes the counters the same way */
  lemma SumDeltaPermutation(cfg: Config, tasks: seq<Task>, other: seq<Task>)
    requires multiset(tasks) == multiset(other)
    ensures SumDelta(cfg, tasks) == SumDelta(cfg, other)
  {
    SumDeltaIsSumOf(cfg, tasks);
    SumDeltaIsSumOf(cfg, other);
    SumOfPermutation(DeltaOf(cfg), tasks, other);
  }

  /** The final counters of a batch are the same in every completion order */
  lemma BatchStatsOrderFree(cfg: Config, tasks: seq<Task>, other: seq<Task>, maxWorkers: int, s: Stats)
    requires multiset(tasks) == multiset(other) && maxWorkers > 0
    ensures BatchExtract(cfg, tasks, maxWorkers, s).value.stats
            == BatchExtract(cfg, other, maxWorkers, s).value.stats
  {
    SumDeltaPermutation(cfg, tasks, other);
  }
}
