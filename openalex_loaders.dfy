/**
 * The five DOI matchers that give arXiv papers their OpenAlex ids. Each one
 * streams a gzipped works file, turns every work with a DOI and an id into a
 * `{doi, openalex_id}` candidate, gathers the candidates into batches and
 * sends each batch as one UNWIND statement that sets `openalex_id` on the
 * papers with that DOI. They differ only in a handful of choices:
 *
 *   loader                           filter         keeps ids  catches batch errors  batch
 *   production_openalex_loader.py    none           yes        yes                   25000
 *   openalex_loader.py               preloaded DOIs no         no                    5000
 *   fast_openalex_loader.py          none           no         no                    10000
 *   ultra_fast_loader.py             none           no         yes                   20000
 *   performance_test_loader.py       none           no         no                    1000 (fixed)
 *
 * A batch error that is not caught by the batch function is caught by the
 * per-line `except Exception: continue`, so the batch is kept and the next
 * work is added to it; only an error of the final batch reaches the
 * file-level handler.
 */
module OpenAlexLoaders {
  import opened Common
  import opened Graph
  import opened OpenAlexModels

  // ---------------------------------------------------------------- lines and candidates

  /** One line of a works file: one that `json.loads` or `OpenAlexWork(**data)` rejects, or the validated work. */
  datatype WorkLine = Malformed | Decoded(work: OpenAlexWork)

  const DoiPrefix: string := "https://doi.org/"

  /** `work.doi.replace("https://doi.org/", "")`. */
  function CleanDoi(doi: string): string {
    RemoveAll(doi, DoiPrefix)
  }

  /** `work.doi and work.id`. */
  predicate HasDoiAndId(w: OpenAlexWork) {
    Truthy(w.doi) && w.id != ""
  }

  /** The candidate a line yields before any filter: a work with a DOI and an id, its DOI cleaned. */
  function WorkCandidate(line: WorkLine): Option<DoiUpdate> {
    if line.Decoded? && HasDoiAndId(line.work) then Some(DoiUpdate(CleanDoi(line.work.doi.value), line.work.id)) else None
  }

  /** `clean_doi in neo4j_dois` for the loader with a preloaded set; every DOI passes without one. */
  predicate Passes(filter: Option<set<string>>, doi: string) {
    filter.None? || doi in filter.value
  }

  /** The candidate a line adds to the batch. */
  function Queued(filter: Option<set<string>>, line: WorkLine): Option<DoiUpdate> {
    var c := WorkCandidate(line);
    if c.Some? && Passes(filter, c.value.doi) then c else None
  }

  function QueueOf(filter: Option<set<string>>): WorkLine -> Option<DoiUpdate> {
    line => Queued(filter, line)
  }

  /** `max_records and line_num > max_records`: no limit when it is absent or 0. */
  predicate LimitHit(limit: Option<int>, lineNum: nat) {
    limit.Some? && limit.value != 0 && lineNum > limit.value
  }

  /** How many of the first `n` lines are read before the limit breaks the loop. */
  function LinesRead(limit: Option<int>, n: nat): (r: nat)
    ensures r <= n
  {
    if limit.None? || limit.value == 0 then n
    else if limit.value < 0 then 0
    else if limit.value < n then limit.value
    else n
  }

  // ---------------------------------------------------------------- one batch

  /**
   * What distinguishes the loaders' batch functions: whether the statement
   * has `WHERE p.openalex_id IS NULL`, and whether a store error is caught
   * and reported as 0 matches.
   */
  datatype Variant = Variant(onlyUnset: bool, catchesErrors: bool)

  const Production := Variant(true, true)
  const Optimized := Variant(false, false)
  const Fast := Variant(false, false)
  const UltraFast := Variant(false, true)
  const PerformanceTest := Variant(false, false)

  /** The failure the oracle holds for the next statement. */
  predicate NextFails(st: Store) {
    st.faults != [] && st.faults[0]
  }

  /**
   * The batch function: 0 for an empty batch, which sends no statement;
   * otherwise the UNWIND statement runs, and either the store fails, giving 0
   * if the variant catches the error and `false` (an exception) if not, or it
   * sets the ids and returns the number of (row, paper) matches.
   */
  function ProcessBatch(v: Variant, st: Store, batch: seq<DoiUpdate>): (bool, nat, Store) {
    if batch == [] then (true, 0, st)
    else if NextFails(st) then (v.catchesErrors, 0, Store(st.graph, Tail(st.faults)))
    else (true, MatchCount(st.graph.papers, batch, v.onlyUnset),
          Store(st.graph.(papers := SetIds(st.graph.papers, batch, v.onlyUnset)), Tail(st.faults)))
  }

  /** The batch function is the one statement it sends, with its failure caught or not. */
  lemma ProcessBatchRuns(v: Variant, st: Store, batch: seq<DoiUpdate>)
    requires batch != []
    ensures var (o, st') := Run(st, SetOpenAlexIds(batch, v.onlyUnset));
      ProcessBatch(v, st, batch) == if o.Done? then (true, o.count, st') else (v.catchesErrors, 0, st')
  {
  }

  /** `_process_batch_production`, `_process_batch_bulk`, `_process_batch_fast`, `_process_batch_ultra_fast`, `_process_batch_with_timing`. */
  method StoreBatch(v: Variant, st: Store, batch: seq<DoiUpdate>) returns (ok: bool, matched: nat, st': Store)
    ensures (ok, matched, st') == ProcessBatch(v, st, batch)
  {
    if batch == [] {
      return true, 0, st;
    }
    var r := Run(st, SetOpenAlexIds(batch, v.onlyUnset));
    ProcessBatchRuns(v, st, batch);
    st' := r.1;
    if r.0.Done? {
      ok, matched := true, r.0.count;
    } else {
      ok, matched := v.catchesErrors, 0;
    }
  }

  // ---------------------------------------------------------------- the file

  /** The arguments of a file call: `max_records`, `batch_size` and the preloaded DOI set if any. */
  datatype Config = Config(limit: Option<int>, batchSize: int, filter: Option<set<string>>)

  type Flush = (Store, seq<DoiUpdate>) -> (bool, nat, Store)

  /**
   * The loop's state: the store, `update_batch`, the counters
   * `total_works_processed`, `works_with_doi` and `neo4j_matches`, whether the
   * limit broke the loop, and (for the proofs) every batch handed to the
   * batch function so far.
   */
  datatype FileState = FileState(st: Store, batch: seq<DoiUpdate>, works: nat, withDoi: nat, matches: nat,
                                 stopped: bool, submitted: seq<seq<DoiUpdate>>)

  /**
   * Line `lineNum` of the loop. The limit is checked first; a line that does
   * not decode is skipped; a decoded work is counted, and one with a DOI and
   * an id is counted again, added when it passes the filter, and then the
   * batch is flushed once it is full. A flush that raises leaves the batch
   * and the matches as they were.
   */
  function LineStep(s: FileState, line: WorkLine, lineNum: nat, c: Config, flush: Flush): FileState {
    if s.stopped then s
    else if LimitHit(c.limit, lineNum) then FileState(s.st, s.batch, s.works, s.withDoi, s.matches, true, s.submitted)
    else if line.Malformed? then s
    else match WorkCandidate(line)
      case None => FileState(s.st, s.batch, s.works + 1, s.withDoi, s.matches, false, s.submitted)
      case Some(u) =>
        var batch := if Passes(c.filter, u.doi) then s.batch + [u] else s.batch;
        if |batch| >= c.batchSize then
          var r := flush(s.st, batch);
          if r.0 then FileState(r.2, [], s.works + 1, s.withDoi + 1, s.matches + r.1, false, s.submitted + [batch])
          else FileState(r.2, batch, s.works + 1, s.withDoi + 1, s.matches, false, s.submitted + [batch])
        else FileState(s.st, batch, s.works + 1, s.withDoi + 1, s.matches, false, s.submitted)
  }

  /** The loop after the first `n` lines. */
  function LoadLines(st: Store, lines: seq<WorkLine>, c: Config, flush: Flush, n: nat): FileState
    requires n <= |lines|
  {
    if n == 0 then FileState(st, [], 0, 0, 0, false, [])
    else LineStep(LoadLines(st, lines, c, flush, n - 1), lines[n - 1], n, c, flush)
  }

  /** The counters a file call returns; `files` is `files_processed`. */
  datatype Stats = Stats(files: nat, works: nat, withDoi: nat, matches: nat)

  /**
   * The loop, then the remainder. A remainder that raises reaches the
   * file-level handler, which logs it: the counters are returned without
   * its matches.
   */
  function FileOutcome(st: Store, lines: seq<WorkLine>, c: Config, flush: Flush): (Stats, Store) {
    var s := LoadLines(st, lines, c, flush, |lines|);
    if s.batch == [] then (Stats(1, s.works, s.withDoi, s.matches), s.st)
    else
      var r := flush(s.st, s.batch);
      (Stats(1, s.works, s.withDoi, if r.0 then s.matches + r.1 else s.matches), r.2)
  }

  /** A variant's batch function, as the loop's flush. */
  function Flusher(v: Variant): Flush {
    (st: Store, batch: seq<DoiUpdate>) => ProcessBatch(v, st, batch)
  }

  /** The shared body of `process_file_production`, `process_file_optimized`, `process_file_fast`, `process_file_ultra_fast` and `test_single_file_performance`. */
  method ProcessFile(v: Variant, st: Store, lines: seq<WorkLine>, c: Config) returns (stats: Stats, st': Store)
    ensures (stats, st') == FileOutcome(st, lines, c, Flusher(v))
  {
    st' := st;
    var batch: seq<DoiUpdate> := [];
    var works: nat, withDoi: nat, matches: nat := 0, 0, 0;
    var stopped := false;
    ghost var submitted: seq<seq<DoiUpdate>> := [];
    var i := 0;
    while i < |lines| && !stopped
      invariant 0 <= i <= |lines|
      invariant LoadLines(st, lines, c, Flusher(v), i) == FileState(st', batch, works, withDoi, matches, stopped, submitted)
    {
      ghost var next := LineStep(FileState(st', batch, works, withDoi, matches, false, submitted), lines[i], i + 1, c, Flusher(v));
      LoadLinesStep(st, lines, c, Flusher(v), i + 1);
      if LimitHit(c.limit, i + 1) {
        stopped := true;
      } else {
        if lines[i].Decoded? {
          var work := lines[i].work;
          works := works + 1;
          if HasDoiAndId(work) {
            withDoi := withDoi + 1;
            var u := DoiUpdate(CleanDoi(work.doi.value), work.id);
            if Passes(c.filter, u.doi) {
              batch := batch + [u];
            }
            if |batch| >= c.batchSize {
              submitted := submitted + [batch];
              var ok, matched;
              ok, matched, st' := StoreBatch(v, st', batch);
              if ok {
                matches := matches + matched;
                batch := [];
              }
            }
          }
        }
      }
      assert FileState(st', batch, works, withDoi, matches, stopped, submitted) == next;
      i := i + 1;
    }
    LoadLinesStopped(st, lines, c, Flusher(v), i, |lines|);
    if batch != [] {
      var ok, matched;
      ok, matched, st' := StoreBatch(v, st', batch);
      if ok {
        matches := matches + matched;
      }
    }
    stats := Stats(1, works, withDoi, matches);
  }

  lemma LoadLinesStep(st: Store, lines: seq<WorkLine>, c: Config, flush: Flush, n: nat)
    requires 0 < n <= |lines|
    ensures LoadLines(st, lines, c, flush, n) == LineStep(LoadLines(st, lines, c, flush, n - 1), lines[n - 1], n, c, flush)
  {
  }

  /** Once the limit has broken the loop, further lines change nothing. */
  lemma {:induction false} LoadLinesStopped(st: Store, lines: seq<WorkLine>, c: Config, flush: Flush, n: nat, m: nat)
    requires n <= m <= |lines|
    requires n == m || LoadLines(st, lines, c, flush, n).stopped
    ensures LoadLines(st, lines, c, flush, m) == LoadLines(st, lines, c, flush, n)
    decreases m
  {
    if m > n {
      LoadLinesStopped(st, lines, c, flush, n, m - 1);
    }
  }

  // ---------------------------------------------------------------- counters and candidates

  function WorkOf(line: WorkLine): Option<OpenAlexWork> {
    if line.Decoded? then Some(line.work) else None
  }

  /**
   * Whatever the batch function does, the counters count the lines read:
   * `total_works_processed` the works that validated, `works_with_doi` those
   * with a DOI and an id; and the loop breaks only at the limit. A malformed
   * line counts towards the limit.
   */
  lemma {:induction false} LoadCounts(st: Store, lines: seq<WorkLine>, c: Config, flush: Flush, n: nat)
    requires n <= |lines|
    ensures var s := LoadLines(st, lines, c, flush, n);
      var r := LinesRead(c.limit, n);
      s.works == |FilterMap(lines, WorkOf, r)|
      && s.withDoi == |FilterMap(lines, WorkCandidate, r)|
      && (s.stopped <==> r < n)
    decreases n
  {
    if n > 0 {
      LoadCounts(st, lines, c, flush, n - 1);
      CountStep(LoadLines(st, lines, c, flush, n - 1), lines[n - 1], n, c, flush);
      var r0 := LinesRead(c.limit, n - 1);
      if r0 < n - 1 {
        assert LinesRead(c.limit, n) == r0;
      } else if LimitHit(c.limit, n) {
        assert LinesRead(c.limit, n) == n - 1;
      } else {
        assert LinesRead(c.limit, n) == n;
        FilterMapStep(lines, WorkOf, n - 1);
        FilterMapStep(lines, WorkCandidate, n - 1);
      }
    }
  }

  /** A batch function that never raises. */
  ghost predicate AlwaysOk(flush: Flush) {
    forall st: Store, b: seq<DoiUpdate> :: flush(st, b).0
  }

  /** One line of `LoadCounts`. */
  lemma CountStep(s: FileState, line: WorkLine, n: nat, c: Config, flush: Flush)
    ensures var s' := LineStep(s, line, n, c, flush);
      var read := !s.stopped && !LimitHit(c.limit, n);
      s'.works == s.works + (if read && WorkOf(line).Some? then 1 else 0)
      && s'.withDoi == s.withDoi + (if read && WorkCandidate(line).Some? then 1 else 0)
      && s'.stopped == (s.stopped || LimitHit(c.limit, n))
  {
  }

  /** One line of `LoadSizes`. */
  lemma SizeStep(s: FileState, line: WorkLine, n: nat, c: Config, flush: Flush)
    requires AlwaysOk(flush)
    requires c.filter.None? || c.batchSize >= 1
    requires (forall b :: b in s.submitted ==> |b| == Threshold(c.batchSize)) && |s.batch| < Threshold(c.batchSize)
    ensures var s' := LineStep(s, line, n, c, flush);
      (forall b :: b in s'.submitted ==> |b| == Threshold(c.batchSize)) && |s'.batch| < Threshold(c.batchSize)
  {
    if !s.stopped && !LimitHit(c.limit, n) && WorkCandidate(line).Some? {
      var u := WorkCandidate(line).value;
      var b := if Passes(c.filter, u.doi) then s.batch + [u] else s.batch;
      if |b| >= c.batchSize {
        assert flush(s.st, b).0;
        assert |b| == Threshold(c.batchSize);
      }
    }
  }

  /** One line of `LoadCandidates`. */
  lemma CandidateStep(s: FileState, line: WorkLine, n: nat, c: Config, flush: Flush, before: seq<DoiUpdate>)
    requires AlwaysOk(flush)
    requires Concat(s.submitted) + s.batch == before
    ensures var s' := LineStep(s, line, n, c, flush);
      Concat(s'.submitted) + s'.batch
        == if !s.stopped && !LimitHit(c.limit, n) && Queued(c.filter, line).Some? then before + [Queued(c.filter, line).value] else before
  {
    var s' := LineStep(s, line, n, c, flush);
    if s.stopped || LimitHit(c.limit, n) || line.Malformed? || WorkCandidate(line).None? {
      assert s'.submitted == s.submitted && s'.batch == s.batch;
    } else {
      var u := WorkCandidate(line).value;
      var b := if Passes(c.filter, u.doi) then s.batch + [u] else s.batch;
      assert Concat(s.submitted) + b == if Passes(c.filter, u.doi) then before + [u] else before;
      if |b| >= c.batchSize {
        assert flush(s.st, b).0;
        assert s'.submitted == s.submitted + [b] && s'.batch == [];
        ConcatSnoc(s.submitted, b);
      } else {
        assert s'.submitted == s.submitted && s'.batch == b;
      }
    }
  }

  /**
   * When every batch goes through, the batches handed over and the pending
   * one are, in order, exactly the candidates of the lines read.
   */
  lemma {:induction false} LoadCandidates(st: Store, lines: seq<WorkLine>, c: Config, flush: Flush, n: nat)
    requires n <= |lines|
    requires AlwaysOk(flush)
    ensures var s := LoadLines(st, lines, c, flush, n);
      Concat(s.submitted) + s.batch == FilterMap(lines, QueueOf(c.filter), LinesRead(c.limit, n))
    decreases n
  {
    if n > 0 {
      var prev := LoadLines(st, lines, c, flush, n - 1);
      var s' := LoadLines(st, lines, c, flush, n);
      assert s' == LineStep(prev, lines[n - 1], n, c, flush);
      LoadCandidates(st, lines, c, flush, n - 1);
      LoadCounts(st, lines, c, flush, n - 1);
      var before := FilterMap(lines, QueueOf(c.filter), LinesRead(c.limit, n - 1));
      var q := Queued(c.filter, lines[n - 1]);
      CandidateStep(prev, lines[n - 1], n, c, flush, before);
      if !prev.stopped && !LimitHit(c.limit, n) {
        assert LinesRead(c.limit, n - 1) == n - 1 && LinesRead(c.limit, n) == n;
        FilterMapStep(lines, QueueOf(c.filter), n - 1);
        assert QueueOf(c.filter)(lines[n - 1]) == q;
        assert Concat(s'.submitted) + s'.batch == if q.Some? then before + [q.value] else before;
      } else {
        assert LinesRead(c.limit, n) == LinesRead(c.limit, n - 1);
        assert Concat(s'.submitted) + s'.batch == before;
      }
    }
  }

  /** Without a filter every work with a DOI and an id is queued, so `works_with_doi` is the number of candidates. */
  lemma {:induction false} UnfilteredCandidates(lines: seq<WorkLine>, n: nat)
    requires n <= |lines|
    ensures FilterMap(lines, QueueOf(None), n) == FilterMap(lines, WorkCandidate, n)
    decreases n
  {
    if n > 0 {
      UnfilteredCandidates(lines, n - 1);
      assert QueueOf(None)(lines[n - 1]) == WorkCandidate(lines[n - 1]);
    }
  }

  /** With the preloaded set, only DOIs in it are queued, so there are at most `works_with_doi` candidates. */
  lemma {:induction false} FilteredCandidates(lines: seq<WorkLine>, dois: set<string>, n: nat)
    requires n <= |lines|
    ensures var q := FilterMap(lines, QueueOf(Some(dois)), n);
      |q| <= |FilterMap(lines, WorkCandidate, n)|
      && forall i :: 0 <= i < |q| ==> q[i].doi in dois
    decreases n
  {
    if n > 0 {
      FilteredCandidates(lines, dois, n - 1);
      assert QueueOf(Some(dois))(lines[n - 1]) == Queued(Some(dois), lines[n - 1]);
    }
  }

  /**
   * When every batch goes through, each batch handed over holds exactly
   * `batch_size` candidates and the pending one fewer. With the preloaded set
   * and a `batch_size` below 1 the flush check also fires on an empty batch,
   * so that case is excluded.
   */
  lemma {:induction false} LoadSizes(st: Store, lines: seq<WorkLine>, c: Config, flush: Flush, n: nat)
    requires n <= |lines|
    requires AlwaysOk(flush)
    requires c.filter.None? || c.batchSize >= 1
    ensures var s := LoadLines(st, lines, c, flush, n);
      (forall b :: b in s.submitted ==> |b| == Threshold(c.batchSize))
      && |s.batch| < Threshold(c.batchSize)
    decreases n
  {
    if n > 0 {
      LoadSizes(st, lines, c, flush, n - 1);
      SizeStep(LoadLines(st, lines, c, flush, n - 1), lines[n - 1], n, c, flush);
    }
  }

  /**
   * A batch whose statement raises is kept and handed over again, one
   * candidate longer, with the next candidate, so its rows are sent twice.
   */
  lemma Resubmitted(s: FileState, l1: WorkLine, l2: WorkLine, n: nat, c: Config, flush: Flush)
    requires !s.stopped && !LimitHit(c.limit, n) && !LimitHit(c.limit, n + 1)
    requires Queued(c.filter, l1).Some? && Queued(c.filter, l2).Some?
    requires |s.batch| + 1 >= c.batchSize
    requires !flush(s.st, s.batch + [Queued(c.filter, l1).value]).0
    ensures var u1 := Queued(c.filter, l1).value;
      var u2 := Queued(c.filter, l2).value;
      var s1 := LineStep(s, l1, n, c, flush);
      var s2 := LineStep(s1, l2, n + 1, c, flush);
      s1.batch == s.batch + [u1] && s2.submitted == s.submitted + [s.batch + [u1], s.batch + [u1, u2]]
  {
    var u1 := Queued(c.filter, l1).value;
    var u2 := Queued(c.filter, l2).value;
    assert s.batch + [u1] + [u2] == s.batch + [u1, u2];
  }

  /**
   * When the next work with a DOI is filtered out instead, the size check,
   * which sits outside the filter, hands the kept batch over again unchanged.
   */
  lemma ResubmittedUnchanged(s: FileState, l1: WorkLine, l2: WorkLine, n: nat, c: Config, flush: Flush)
    requires !s.stopped && !LimitHit(c.limit, n) && !LimitHit(c.limit, n + 1)
    requires Queued(c.filter, l1).Some? && WorkCandidate(l2).Some? && Queued(c.filter, l2).None?
    requires |s.batch| + 1 >= c.batchSize
    requires !flush(s.st, s.batch + [Queued(c.filter, l1).value]).0
    ensures var b := s.batch + [Queued(c.filter, l1).value];
      var s1 := LineStep(s, l1, n, c, flush);
      var s2 := LineStep(s1, l2, n + 1, c, flush);
      s1.batch == b && s2.submitted == s.submitted + [b, b]
  {
  }

  /** The production and ultra-fast batch functions catch every store error, so every batch goes through. */
  lemma CatchingFlushSucceeds(v: Variant)
    requires v.catchesErrors
    ensures AlwaysOk(Flusher(v))
  {
  }

  /**
   * `process_file_production` and `process_file_ultra_fast`: the batches
   * handed over, with the remainder, are the works with a DOI and an id in
   * file order, every one but the remainder of exactly `batch_size`
   * candidates, and there are `works_with_doi` of them.
   */
  lemma CatchingFileBatches(v: Variant, st: Store, lines: seq<WorkLine>, limit: Option<int>, batchSize: int)
    requires v.catchesErrors
    ensures var c := Config(limit, batchSize, None);
      var s := LoadLines(st, lines, c, Flusher(v), |lines|);
      var cands := FilterMap(lines, WorkCandidate, LinesRead(limit, |lines|));
      Concat(s.submitted) + s.batch == cands
      && s.withDoi == |cands|
      && (forall b :: b in s.submitted ==> |b| == Threshold(batchSize))
      && |s.batch| < Threshold(batchSize)
  {
    var c := Config(limit, batchSize, None);
    CatchingFlushSucceeds(v);
    LoadCandidates(st, lines, c, Flusher(v), |lines|);
    LoadCounts(st, lines, c, Flusher(v), |lines|);
    LoadSizes(st, lines, c, Flusher(v), |lines|);
    UnfilteredCandidates(lines, LinesRead(limit, |lines|));
  }

  // ---------------------------------------------------------------- what a file does to the graph

  /** The graph changed at most in the papers' OpenAlex ids: same nodes, same edges, same other fields. */
  predicate IdsOnly(g: Graph, g': Graph) {
    g' == g.(papers := g'.papers)
    && g'.papers.Keys == g.papers.Keys
    && forall k :: k in g.papers ==> g'.papers[k] == g.papers[k].(openalexId := g'.papers[k].openalexId)
  }

  ghost predicate FlushIdsOnly(flush: Flush) {
    forall st: Store, b: seq<DoiUpdate> :: IdsOnly(st.graph, flush(st, b).2.graph)
  }

  /** Every batch function only sets ids. */
  lemma FlusherIdsOnly(v: Variant)
    ensures FlushIdsOnly(Flusher(v))
  {
    forall st: Store, b: seq<DoiUpdate> ensures IdsOnly(st.graph, Flusher(v)(st, b).2.graph) {
    }
  }

  lemma {:induction false} LoadIdsOnly(st: Store, lines: seq<WorkLine>, c: Config, flush: Flush, n: nat)
    requires n <= |lines| && FlushIdsOnly(flush)
    ensures IdsOnly(st.graph, LoadLines(st, lines, c, flush, n).st.graph)
    decreases n
  {
    if n > 0 {
      LoadIdsOnly(st, lines, c, flush, n - 1);
    }
  }

  /** A file run only sets OpenAlex ids on existing papers: it creates and deletes nothing. */
  lemma FileIdsOnly(v: Variant, st: Store, lines: seq<WorkLine>, c: Config)
    ensures IdsOnly(st.graph, FileOutcome(st, lines, c, Flusher(v)).1.graph)
  {
    FlusherIdsOnly(v);
    LoadIdsOnly(st, lines, c, Flusher(v), |lines|);
  }

  /** The non-empty DOIs of the papers: what `_load_neo4j_dois` reads. */
  function StoreDois(g: Graph): set<string> {
    set k | k in g.papers && Truthy(g.papers[k].doi) :: g.papers[k].doi.value
  }

  /** Setting ids leaves the DOIs alone, so a DOI set loaded once never goes stale through the loader's own writes. */
  lemma IdsOnlyKeepsDois(g: Graph, g': Graph)
    requires IdsOnly(g, g')
    ensures StoreDois(g') == StoreDois(g)
  {
    forall d | d in StoreDois(g) ensures d in StoreDois(g') {
      var k :| k in g.papers && Truthy(g.papers[k].doi) && g.papers[k].doi.value == d;
      assert g'.papers[k].doi == g.papers[k].doi;
    }
  }

  /** Papers whose id was already set: `production_openalex_loader.py` never touches them. */
  predicate Retains(g: Graph, g': Graph) {
    forall k :: k in g.papers && g.papers[k].openalexId.Some? ==> k in g'.papers && g'.papers[k] == g.papers[k]
  }

  ghost predicate FlushRetains(flush: Flush) {
    forall st: Store, b: seq<DoiUpdate> :: Retains(st.graph, flush(st, b).2.graph)
  }

  lemma ProductionFlushRetains()
    ensures FlushRetains(Flusher(Production))
  {
    forall st: Store, b: seq<DoiUpdate> ensures Retains(st.graph, Flusher(Production)(st, b).2.graph) {
      forall k | k in st.graph.papers && st.graph.papers[k].openalexId.Some? {
        SetOpenAlexIdsKeepsExisting(st.graph, b, k);
      }
    }
  }

  lemma {:induction false} LoadRetains(st: Store, lines: seq<WorkLine>, c: Config, flush: Flush, n: nat)
    requires n <= |lines| && FlushRetains(flush)
    ensures Retains(st.graph, LoadLines(st, lines, c, flush, n).st.graph)
    decreases n
  {
    if n > 0 {
      LoadRetains(st, lines, c, flush, n - 1);
    }
  }

  /** `WHERE p.openalex_id IS NULL`: over a whole production file, an id once set is never overwritten. */
  lemma ProductionKeepsIds(st: Store, lines: seq<WorkLine>, c: Config)
    ensures Retains(st.graph, FileOutcome(st, lines, c, Flusher(Production)).1.graph)
  {
    ProductionFlushRetains();
    LoadRetains(st, lines, c, Flusher(Production), |lines|);
  }

  /**
   * Without the `IS NULL` guard a later batch overwrites: a paper that had an
   * id and whose DOI a successful batch carries ends with that batch's id.
   */
  lemma OverwritingBatch(v: Variant, st: Store, batch: seq<DoiUpdate>, k: string)
    requires !v.onlyUnset && batch != [] && !NextFails(st)
    requires k in st.graph.papers && st.graph.papers[k].doi.Some? && HasDoiRow(batch, st.graph.papers[k].doi.value)
    ensures var g' := ProcessBatch(v, st, batch).2.graph;
      k in g'.papers && g'.papers[k].openalexId == LastIdFor(batch, st.graph.papers[k].doi.value)
  {
    ProcessBatchRuns(v, st, batch);
    SetOpenAlexIdsEffect(st.graph, batch, false, k);
  }

  // ---------------------------------------------------------------- totals

  /** `total_works_processed` of a file, independent of the store. */
  function FileWorks(lines: seq<WorkLine>, limit: Option<int>): nat {
    |FilterMap(lines, WorkOf, LinesRead(limit, |lines|))|
  }

  /** `works_with_doi` of a file, independent of the store. */
  function FileWithDoi(lines: seq<WorkLine>, limit: Option<int>): nat {
    |FilterMap(lines, WorkCandidate, LinesRead(limit, |lines|))|
  }

  /** A file call counts one file and the works it read, whatever the store does. */
  lemma FileStats(st: Store, lines: seq<WorkLine>, c: Config, flush: Flush)
    ensures var t := FileOutcome(st, lines, c, flush).0;
      t.files == 1 && t.works == FileWorks(lines, c.limit) && t.withDoi == FileWithDoi(lines, c.limit)
  {
    LoadCounts(st, lines, c, flush, |lines|);
  }

  function Add(a: Stats, b: Stats): Stats {
    Stats(a.files + b.files, a.works + b.works, a.withDoi + b.withDoi, a.matches + b.matches)
  }

  /**
   * The files one after another, each starting from the store the previous
   * one left, their stats added to `total`.
   */
  function FilesFrom(total: Stats, st: Store, files: seq<seq<WorkLine>>, c: Config, flush: Flush): (Stats, Store)
    decreases |files|
  {
    if files == [] then (total, st)
    else
      var (one, st1) := FileOutcome(st, files[0], c, flush);
      FilesFrom(Add(total, one), st1, files[1..], c, flush)
  }

  const NoStats := Stats(0, 0, 0, 0)

  function WorksPerFile(files: seq<seq<WorkLine>>, limit: Option<int>): seq<nat> {
    seq(|files|, i requires 0 <= i < |files| => FileWorks(files[i], limit))
  }

  function WithDoiPerFile(files: seq<seq<WorkLine>>, limit: Option<int>): seq<nat> {
    seq(|files|, i requires 0 <= i < |files| => FileWithDoi(files[i], limit))
  }

  /**
   * The `neo4j_matches` of each file in run order, each file's counted
   * against the store the files before it left.
   */
  function MatchesPerFile(st: Store, files: seq<seq<WorkLine>>, c: Config, flush: Flush): (ms: seq<nat>)
    ensures |ms| == |files|
    decreases |files|
  {
    if files == [] then []
    else
      var (one, st1) := FileOutcome(st, files[0], c, flush);
      [one.matches] + MatchesPerFile(st1, files[1..], c, flush)
  }

  /**
   * Full-run totals: one per file, the per-file works and DOI counts summed
   * whatever the store does, and the per-file matches summed.
   */
  lemma {:induction false} FilesTotals(total: Stats, st: Store, files: seq<seq<WorkLine>>, c: Config, flush: Flush)
    ensures var t := FilesFrom(total, st, files, c, flush).0;
      t.files == total.files + |files|
      && t.works == total.works + Sum(WorksPerFile(files, c.limit))
      && t.withDoi == total.withDoi + Sum(WithDoiPerFile(files, c.limit))
      && t.matches == total.matches + Sum(MatchesPerFile(st, files, c, flush))
    decreases |files|
  {
    if files != [] {
      var (one, st1) := FileOutcome(st, files[0], c, flush);
      FileStats(st, files[0], c, flush);
      FilesTotals(Add(total, one), st1, files[1..], c, flush);
      assert WorksPerFile(files, c.limit)[1..] == WorksPerFile(files[1..], c.limit);
      assert WithDoiPerFile(files, c.limit)[1..] == WithDoiPerFile(files[1..], c.limit);
      assert MatchesPerFile(st, files, c, flush)[1..] == MatchesPerFile(st1, files[1..], c, flush);
    }
  }

  /**
   * The matches of file `i` are those `FileOutcome` reports for it against
   * the store the first `i` files leave.
   */
  lemma {:induction false} MatchesPerFileAt(st: Store, files: seq<seq<WorkLine>>, c: Config, flush: Flush, i: nat)
    requires i < |files|
    ensures MatchesPerFile(st, files, c, flush)[i]
         == FileOutcome(FilesFrom(NoStats, st, files[..i], c, flush).1, files[i], c, flush).0.matches
    decreases i
  {
    var (one, st1) := FileOutcome(st, files[0], c, flush);
    if i == 0 {
      assert files[..0] == [];
    } else {
      MatchesPerFileAt(st1, files[1..], c, flush, i - 1);
      assert files[..i][0] == files[0] && files[..i][1..] == files[1..][..i - 1];
      FilesFromStore(Add(NoStats, one), NoStats, st1, files[1..][..i - 1], c, flush);
    }
  }

  /** The store a run leaves does not depend on the totals it starts from. */
  lemma {:induction false} FilesFromStore(t1: Stats, t2: Stats, st: Store, files: seq<seq<WorkLine>>, c: Config, flush: Flush)
    ensures FilesFrom(t1, st, files, c, flush).1 == FilesFrom(t2, st, files, c, flush).1
    decreases |files|
  {
    if files != [] {
      var (one, st1) := FileOutcome(st, files[0], c, flush);
      FilesFromStore(Add(t1, one), Add(t2, one), st1, files[1..], c, flush);
    }
  }

  lemma {:induction false} FilesFromAppend(total: Stats, st: Store, xs: seq<seq<WorkLine>>, ys: seq<seq<WorkLine>>,
                                           c: Config, flush: Flush)
    ensures var (t1, st1) := FilesFrom(total, st, xs, c, flush);
      FilesFrom(total, st, xs + ys, c, flush) == FilesFrom(t1, st1, ys, c, flush)
    decreases |xs|
  {
    if xs == [] {
      assert xs + ys == ys;
    } else {
      var (one, st1) := FileOutcome(st, xs[0], c, flush);
      assert (xs + ys)[0] == xs[0] && (xs + ys)[1..] == xs[1..] + ys;
      FilesFromAppend(Add(total, one), st1, xs[1..], ys, c, flush);
    }
  }

  // ---------------------------------------------------------------- the data directory

  /** An entry of the works directory: whether it is a directory, and its `part_*.gz` files in sorted order. */
  datatype Dir = Dir(isDir: bool, parts: seq<seq<WorkLine>>)

  /** The part files of an entry the drivers process: all of them for a directory, none otherwise. */
  function PartsOf(d: Dir): seq<seq<WorkLine>> {
    if d.isDir then d.parts else []
  }

  /** Every part file of every directory, directories and files in sorted order. */
  function AllParts(dirs: seq<Dir>): seq<seq<WorkLine>>
    decreases |dirs|
  {
    if dirs == [] then [] else PartsOf(dirs[0]) + AllParts(dirs[1..])
  }

  /** The aggregation loops of the full-dataset drivers: every part file of every directory, stats summed. */
  method ProcessDataset(v: Variant, st: Store, dirs: seq<Dir>, c: Config) returns (total: Stats, st': Store)
    ensures (total, st') == FilesFrom(NoStats, st, AllParts(dirs), c, Flusher(v))
  {
    total, st' := NoStats, st;
    assert dirs[0..] == dirs;
    for i := 0 to |dirs|
      invariant FilesFrom(total, st', AllParts(dirs[i..]), c, Flusher(v)) == FilesFrom(NoStats, st, AllParts(dirs), c, Flusher(v))
    {
      ghost var rest := AllParts(dirs[i + 1..]);
      assert dirs[i..][1..] == dirs[i + 1..];
      assert AllParts(dirs[i..]) == PartsOf(dirs[i]) + rest;
      FilesFromAppend(total, st', PartsOf(dirs[i]), rest, c, Flusher(v));
      if dirs[i].isDir {
        total, st' := ProcessParts(v, total, st', dirs[i].parts, c);
      }
    }
    assert dirs[|dirs|..] == [];
  }

  /** The inner loop over one directory's part files, each processed whole and its stats added. */
  method ProcessParts(v: Variant, total: Stats, st: Store, parts: seq<seq<WorkLine>>, c: Config) returns (total': Stats, st': Store)
    ensures (total', st') == FilesFrom(total, st, parts, c, Flusher(v))
  {
    total', st' := total, st;
    assert parts[0..] == parts;
    for j := 0 to |parts|
      invariant FilesFrom(total', st', parts[j..], c, Flusher(v)) == FilesFrom(total, st, parts, c, Flusher(v))
    {
      assert parts[j..][0] == parts[j] && parts[j..][1..] == parts[j + 1..];
      var one;
      one, st' := ProcessFile(v, st', parts[j], c);
      total' := Add(total', one);
    }
    assert parts[|parts|..] == [];
  }

  /** Over a whole run the loaders only set ids, so the DOIs stay those of the start. */
  lemma {:induction false} FilesIdsOnly(v: Variant, total: Stats, st: Store, files: seq<seq<WorkLine>>, c: Config)
    ensures IdsOnly(st.graph, FilesFrom(total, st, files, c, Flusher(v)).1.graph)
    decreases |files|
  {
    if files != [] {
      var (one, st1) := FileOutcome(st, files[0], c, Flusher(v));
      FileIdsOnly(v, st, files[0], c);
      FilesIdsOnly(v, Add(total, one), st1, files[1..], c);
    }
  }

  /** The set `_load_neo4j_dois` caches stays equal to the store's DOIs for a whole run of `process_full_dataset`. */
  lemma DatasetKeepsDois(st: Store, dirs: seq<Dir>, c: Config)
    ensures StoreDois(FilesFrom(NoStats, st, AllParts(dirs), c, Flusher(Optimized)).1.graph) == StoreDois(st.graph)
  {
    FilesIdsOnly(Optimized, NoStats, st, AllParts(dirs), c);
    IdsOnlyKeepsDois(st.graph, FilesFrom(NoStats, st, AllParts(dirs), c, Flusher(Optimized)).1.graph);
  }

  // ---------------------------------------------------------------- production, fast and ultra-fast drivers

  /** `process_file_production`. */
  method ProcessFileProduction(st: Store, lines: seq<WorkLine>, maxRecords: Option<int>, batchSize: int) returns (stats: Stats, st': Store)
    ensures (stats, st') == FileOutcome(st, lines, Config(maxRecords, batchSize, None), Flusher(Production))
  {
    stats, st' := ProcessFile(Production, st, lines, Config(maxRecords, batchSize, None));
  }

  /** The aggregation of `process_full_dataset_production`: whole files, no record limit. */
  method ProcessFullDatasetProduction(st: Store, dirs: seq<Dir>, batchSize: int) returns (total: Stats, st': Store)
    ensures (total, st') == FilesFrom(NoStats, st, AllParts(dirs), Config(None, batchSize, None), Flusher(Production))
  {
    total, st' := ProcessDataset(Production, st, dirs, Config(None, batchSize, None));
  }

  /** `process_file_fast`. */
  method ProcessFileFast(st: Store, lines: seq<WorkLine>, maxRecords: Option<int>, batchSize: int) returns (stats: Stats, st': Store)
    ensures (stats, st') == FileOutcome(st, lines, Config(maxRecords, batchSize, None), Flusher(Fast))
  {
    stats, st' := ProcessFile(Fast, st, lines, Config(maxRecords, batchSize, None));
  }

  /** The aggregation of `process_full_dataset_fast`. */
  method ProcessFullDatasetFast(st: Store, dirs: seq<Dir>, batchSize: int) returns (total: Stats, st': Store)
    ensures (total, st') == FilesFrom(NoStats, st, AllParts(dirs), Config(None, batchSize, None), Flusher(Fast))
  {
    total, st' := ProcessDataset(Fast, st, dirs, Config(None, batchSize, None));
  }

  /** `process_file_ultra_fast`. */
  method ProcessFileUltraFast(st: Store, lines: seq<WorkLine>, maxRecords: Option<int>, batchSize: int) returns (stats: Stats, st': Store)
    ensures (stats, st') == FileOutcome(st, lines, Config(maxRecords, batchSize, None), Flusher(UltraFast))
  {
    stats, st' := ProcessFile(UltraFast, st, lines, Config(maxRecords, batchSize, None));
  }

  /** The batch size the ultra-fast driver passes. */
  const UltraFastMainBatchSize := 20000

  /** The aggregation loop of the ultra-fast `main`. */
  method UltraFastMain(st: Store, dirs: seq<Dir>) returns (total: Stats, st': Store)
    ensures (total, st') == FilesFrom(NoStats, st, AllParts(dirs), Config(None, UltraFastMainBatchSize, None), Flusher(UltraFast))
  {
    total, st' := ProcessDataset(UltraFast, st, dirs, Config(None, UltraFastMainBatchSize, None));
  }

  // ---------------------------------------------------------------- the loader with a preloaded DOI set

  /** `OpenAlexLoader` of `openalex_loader.py`, with its cached DOI set. */
  class OpenAlexLoader {
    var neo4jDois: Option<set<string>>

    constructor()
      ensures neo4jDois == None
    {
      neo4jDois := None;
    }

    /** `_load_neo4j_dois`: the store's DOIs, read once and then returned from the cache. */
    method LoadNeo4jDois(st: Store) returns (dois: set<string>)
      modifies this
      ensures dois == if old(neo4jDois).Some? then old(neo4jDois).value else StoreDois(st.graph)
      ensures neo4jDois == Some(dois)
    {
      if neo4jDois.Some? {
        return neo4jDois.value;
      }
      dois := StoreDois(st.graph);
      neo4jDois := Some(dois);
    }

    /** `process_file_optimized`: the shared loop, filtered by the cached set. */
    method ProcessFileOptimized(st: Store, lines: seq<WorkLine>, maxRecords: Option<int>, batchSize: int) returns (stats: Stats, st': Store)
      modifies this
      ensures neo4jDois == Some(if old(neo4jDois).Some? then old(neo4jDois).value else StoreDois(st.graph))
      ensures (stats, st') == FileOutcome(st, lines, Config(maxRecords, batchSize, neo4jDois), Flusher(Optimized))
    {
      var dois := LoadNeo4jDois(st);
      stats, st' := ProcessFile(Optimized, st, lines, Config(maxRecords, batchSize, Some(dois)));
    }

    /** `process_full_dataset`: the set is loaded once, before the first file, and every file uses it. */
    method ProcessFullDataset(st: Store, dirs: seq<Dir>, batchSize: int) returns (total: Stats, st': Store)
      modifies this
      ensures neo4jDois == Some(if old(neo4jDois).Some? then old(neo4jDois).value else StoreDois(st.graph))
      ensures (total, st') == FilesFrom(NoStats, st, AllParts(dirs), Config(None, batchSize, neo4jDois), Flusher(Optimized))
    {
      var dois := LoadNeo4jDois(st);
      total, st' := ProcessDataset(Optimized, st, dirs, Config(None, batchSize, Some(dois)));
    }
  }

  // ---------------------------------------------------------------- the performance test

  /** `batch_size` in `test_single_file_performance`, which takes none from its caller. */
  const PerformanceBatchSize := 1000

  /** `test_single_file_performance`. */
  method TestSingleFilePerformance(st: Store, lines: seq<WorkLine>, maxRecords: Option<int>) returns (stats: Stats, st': Store)
    ensures (stats, st') == FileOutcome(st, lines, Config(maxRecords, PerformanceBatchSize, None), Flusher(PerformanceTest))
  {
    stats, st' := ProcessFile(PerformanceTest, st, lines, Config(maxRecords, PerformanceBatchSize, None));
  }

  /** The first part file of every directory that has one, in order. */
  function FirstParts(dirs: seq<Dir>): seq<seq<WorkLine>>
    decreases |dirs|
  {
    if dirs == [] then []
    else (if dirs[0].isDir && dirs[0].parts != [] then [dirs[0].parts[0]] else []) + FirstParts(dirs[1..])
  }

  /** The files `test_multiple_files` picks while `budget` more may be tested. */
  function Selected(dirs: seq<Dir>, budget: int): seq<seq<WorkLine>>
    decreases |dirs|
  {
    if dirs == [] then []
    else if dirs[0].isDir && budget > 0 && dirs[0].parts != [] then [dirs[0].parts[0]] + Selected(dirs[1..], budget - 1)
    else Selected(dirs[1..], budget)
  }

  function Clamp(m: int, n: nat): (r: nat)
    ensures r <= n
  {
    if m < 0 then 0 else if m < n then m else n
  }

  /**
   * `test_multiple_files` tests the first part file of each directory, in
   * order, and stops after `max_files` of them: at most one file per
   * directory and at most `max_files` files.
   */
  lemma {:induction false} SelectedFirstParts(dirs: seq<Dir>, maxFiles: int)
    ensures Selected(dirs, maxFiles) == FirstParts(dirs)[..Clamp(maxFiles, |FirstParts(dirs)|)]
    decreases |dirs|
  {
    if dirs != [] {
      var rest := FirstParts(dirs[1..]);
      if dirs[0].isDir && dirs[0].parts != [] && maxFiles > 0 {
        SelectedFirstParts(dirs[1..], maxFiles - 1);
        var k := Clamp(maxFiles - 1, |rest|);
        assert FirstParts(dirs) == [dirs[0].parts[0]] + rest;
        assert Clamp(maxFiles, |rest| + 1) == k + 1;
        assert ([dirs[0].parts[0]] + rest)[..k + 1] == [dirs[0].parts[0]] + rest[..k];
      } else if dirs[0].isDir && dirs[0].parts != [] {
        SelectedEmpty(dirs[1..], maxFiles);
      } else {
        SelectedFirstParts(dirs[1..], maxFiles);
      }
    }
  }

  lemma {:induction false} SelectedEmpty(dirs: seq<Dir>, budget: int)
    requires budget <= 0
    ensures Selected(dirs, budget) == []
    decreases |dirs|
  {
    if dirs != [] {
      SelectedEmpty(dirs[1..], budget);
    }
  }

  /** `test_multiple_files`: the first part file of each directory, until `max_files` files have been tested. */
  method TestMultipleFiles(st: Store, dirs: seq<Dir>, maxFiles: int, maxRecordsPerFile: int) returns (total: Stats, st': Store)
    ensures (total, st') == FilesFrom(NoStats, st, Selected(dirs, maxFiles),
                                      Config(Some(maxRecordsPerFile), PerformanceBatchSize, None), Flusher(PerformanceTest))
  {
    var c := Config(Some(maxRecordsPerFile), PerformanceBatchSize, None);
    var filesTested := 0;
    total, st' := NoStats, st;
    assert dirs[0..] == dirs;
    for i := 0 to |dirs|
      invariant FilesFrom(total, st', Selected(dirs[i..], maxFiles - filesTested), c, Flusher(PerformanceTest))
             == FilesFrom(NoStats, st, Selected(dirs, maxFiles), c, Flusher(PerformanceTest))
    {
      assert dirs[i..][0] == dirs[i] && dirs[i..][1..] == dirs[i + 1..];
      var tested;
      total, st', tested := TestDirectory(total, st', dirs[i..], filesTested, maxFiles, maxRecordsPerFile);
      if tested {
        filesTested := filesTested + 1;
      }
    }
    assert dirs[|dirs|..] == [];
  }

  /**
   * One pass of the directory loop over the first entry of `dirs`: passed
   * over unless it is a directory and fewer than `max_files` files have been
   * tested; otherwise its first part file, if any, is tested, and the inner
   * loop breaks.
   */
  method TestDirectory(total: Stats, st: Store, dirs: seq<Dir>, filesTested: int, maxFiles: int, maxRecordsPerFile: int)
    returns (total': Stats, st': Store, tested: bool)
    requires dirs != []
    ensures var c := Config(Some(maxRecordsPerFile), PerformanceBatchSize, None);
      FilesFrom(total', st', Selected(dirs[1..], maxFiles - (if tested then filesTested + 1 else filesTested)), c, Flusher(PerformanceTest))
      == FilesFrom(total, st, Selected(dirs, maxFiles - filesTested), c, Flusher(PerformanceTest))
  {
    var c := Config(Some(maxRecordsPerFile), PerformanceBatchSize, None);
    total', st', tested := total, st, false;
    if !dirs[0].isDir || filesTested >= maxFiles {
      SelectedSkip(total, st, dirs, maxFiles - filesTested, c, Flusher(PerformanceTest));
      return;
    }
    var parts := dirs[0].parts;
    if parts != [] {
      SelectedTake(total, st, dirs, maxFiles - filesTested, c, Flusher(PerformanceTest));
      var one;
      one, st' := TestSingleFilePerformance(st, parts[0], Some(maxRecordsPerFile));
      total' := Add(total, one);
      tested := true;
    } else {
      SelectedSkip(total, st, dirs, maxFiles - filesTested, c, Flusher(PerformanceTest));
    }
  }

  /** An entry that is no directory, has no part file or finds the budget spent is passed over. */
  lemma SelectedSkip(total: Stats, st: Store, dirs: seq<Dir>, budget: int, c: Config, flush: Flush)
    requires dirs != [] && !(dirs[0].isDir && budget > 0 && dirs[0].parts != [])
    ensures FilesFrom(total, st, Selected(dirs, budget), c, flush) == FilesFrom(total, st, Selected(dirs[1..], budget), c, flush)
  {
  }

  /** Otherwise its first part file is run, and the budget shrinks by one. */
  lemma SelectedTake(total: Stats, st: Store, dirs: seq<Dir>, budget: int, c: Config, flush: Flush)
    requires dirs != [] && dirs[0].isDir && budget > 0 && dirs[0].parts != []
    ensures var (one, st1) := FileOutcome(st, dirs[0].parts[0], c, flush);
      FilesFrom(total, st, Selected(dirs, budget), c, flush) == FilesFrom(Add(total, one), st1, Selected(dirs[1..], budget - 1), c, flush)
  {
    var sel := Selected(dirs, budget);
    assert sel[0] == dirs[0].parts[0] && sel[1..] == Selected(dirs[1..], budget - 1);
  }

  /** `files_tested` ends as the smaller of `max_files` and the number of directories with a part file. */
  lemma TestMultipleFilesCount(st: Store, dirs: seq<Dir>, maxFiles: int, maxRecordsPerFile: int)
    ensures var c := Config(Some(maxRecordsPerFile), PerformanceBatchSize, None);
      FilesFrom(NoStats, st, Selected(dirs, maxFiles), c, Flusher(PerformanceTest)).0.files
        == Clamp(maxFiles, |FirstParts(dirs)|)
  {
    var c := Config(Some(maxRecordsPerFile), PerformanceBatchSize, None);
    SelectedFirstParts(dirs, maxFiles);
    FilesTotals(NoStats, st, Selected(dirs, maxFiles), c, Flusher(PerformanceTest));
  }

  // ---------------------------------------------------------------- DOI cleaning

  /** A DOI without the prefix is left as it is. */
  lemma CleanDoiAbsent(doi: string)
    requires !Occurs(doi, DoiPrefix)
    ensures CleanDoi(doi) == doi
  {
    RemoveAllAbsent(doi, DoiPrefix);
  }

  /** A DOI with one leading prefix and no other loses exactly that prefix. */
  lemma CleanDoiLeading(rest: string)
    requires !Occurs(rest, DoiPrefix)
    ensures CleanDoi(DoiPrefix + rest) == rest
  {
    var d := DoiPrefix + rest;
    assert StartsWith(d, DoiPrefix);
    assert d[|DoiPrefix|..] == rest;
    RemoveAllAbsent(rest, DoiPrefix);
  }

  /** The cleaning is not idempotent: removing the prefix can join the text around it into a new prefix. */
  lemma CleanDoiNotIdempotent()
    ensures var d := DoiPrefix[..1] + DoiPrefix + DoiPrefix[1..];
      CleanDoi(d) == DoiPrefix && CleanDoi(CleanDoi(d)) == ""
  {
    assert DoiPrefix[0] == 'h' && DoiPrefix[1] == 't';
    SpliceRemoved(DoiPrefix);
  }

  /** A leading occurrence is dropped whole. */
  lemma RemoveAllLeading(pat: string, rest: string)
    requires pat != []
    ensures RemoveAll(pat + rest, pat) == RemoveAll(rest, pat)
  {
    var s := pat + rest;
    assert s[..|pat|] == pat;
    assert s[|pat|..] == rest;
  }

  /** A string shorter than the pattern has no occurrence of it. */
  lemma RemoveAllShort(s: string, pat: string)
    requires pat != [] && |s| < |pat|
    ensures RemoveAll(s, pat) == s
  {
    assert !Occurs(s, pat) by {
      forall i ensures !OccursAt(s, pat, i) { }
    }
    RemoveAllAbsent(s, pat);
  }

  /** The splice's first character cannot start the pattern. */
  lemma RemoveAllSpliceHead(pat: string)
    requires |pat| >= 2 && pat[0] != pat[1]
    ensures RemoveAll(pat[..1] + pat + pat[1..], pat) == [pat[0]] + RemoveAll(pat + pat[1..], pat)
  {
    var rest := pat + pat[1..];
    var d := [pat[0]] + rest;
    assert pat[..1] == [pat[0]];
    assert pat[..1] + pat + pat[1..] == d;
    assert d[1] == pat[0];
    assert d[1..] == rest;
    assert !StartsWith(d, pat) by {
      var h := d[..|pat|];
      assert h[1] == d[1];
      assert h != pat by { assert h[1] != pat[1]; }
    }
    RemoveAllNotStarting(d, pat);
  }

  /** Without a leading occurrence the first character is kept. */
  lemma RemoveAllNotStarting(s: string, pat: string)
    requires pat != [] && s != [] && !StartsWith(s, pat)
    ensures RemoveAll(s, pat) == [s[0]] + RemoveAll(s[1..], pat)
  {
  }

  /** A pattern cut after its first character with a whole copy in between: removing the copy rebuilds the pattern. */
  lemma SpliceRemoved(pat: string)
    requires |pat| >= 2 && pat[0] != pat[1]
    ensures RemoveAll(pat[..1] + pat + pat[1..], pat) == pat
    ensures RemoveAll(pat, pat) == []
  {
    RemoveAllSpliceHead(pat);
    RemoveAllLeading(pat, pat[1..]);
    RemoveAllShort(pat[1..], pat);
    assert [pat[0]] + pat[1..] == pat;
    RemoveAllLeading(pat, []);
    assert pat + [] == pat;
  }
}
