/**
 * The optimized bulk loader: it reads the arXiv metadata snapshot line by line,
 * gathers the decoded records into batches and writes each batch with five
 * UNWIND statements (papers, authors, categories, WROTE, HAS_CATEGORY). Unlike
 * the updater it never deletes an edge and never stamps `last_modified`.
 */
module ArxivLoaderOptimized {
  import opened Common
  import opened Dates
  import opened Graph
  import opened ArxivRecords

  // ---------------------------------------------------------------- one batch

  /** The statements `process_paper_batch` sends, the optional ones only when they have rows. */
  function LoadStatements(b: BatchRows): seq<Stmt> {
    [MergePapers(b.papers, None)]
    + (if b.authorRels != [] then [MergeAuthors(Firsts(b.authorRels))] else [])
    + (if b.categoryRels != [] then [MergeCategories(Seconds(b.categoryRels))] else [])
    + (if b.authorRels != [] then [MergeWrote(b.authorRels)] else [])
    + (if b.categoryRels != [] then [MergeHasCategory(b.categoryRels)] else [])
  }

  /**
   * The graph the statements leave: the batch's papers merged without a
   * timestamp, its authors and categories added, and one WROTE and one
   * HAS_CATEGORY edge added per row; no edge is removed.
   */
  function Merged(g: Graph, b: BatchRows): Graph
    requires AllKeyed(b.papers)
  {
    var papers := MergeRows(g.papers, b.papers, None);
    var a := b.authorRels;
    var c := b.categoryRels;
    g.(papers := papers,
       authors := g.authors + (set i | 0 <= i < |a| :: a[i].0),
       categories := g.categories + (set i | 0 <= i < |c| :: c[i].1),
       wrote := g.wrote + AddedWrote(a, papers),
       hasCategory := g.hasCategory + AddedHasCategory(c, papers))
  }

  lemma MergeWroteStep(g: Graph, a: seq<(string, Text)>)
    requires forall i :: 0 <= i < |a| ==> a[i].0 in g.authors
    ensures ApplyAll(g, if a != [] then [MergeWrote(a)] else [])
         == Some(g.(wrote := g.wrote + AddedWrote(a, g.papers)))
  {
    if a == [] {
      assert AddedWrote(a, g.papers) == {};
      assert g.(wrote := g.wrote + {}) == g;
    } else {
      MergeWroteEffect(g, a);
    }
  }

  lemma MergeHasCategoryStep(g: Graph, c: seq<(Text, string)>)
    requires forall i :: 0 <= i < |c| ==> c[i].1 in g.categories
    ensures ApplyAll(g, if c != [] then [MergeHasCategory(c)] else [])
         == Some(g.(hasCategory := g.hasCategory + AddedHasCategory(c, g.papers)))
  {
    if c == [] {
      assert AddedHasCategory(c, g.papers) == {};
      assert g.(hasCategory := g.hasCategory + {}) == g;
    } else {
      MergeHasCategoryEffect(g, c);
    }
  }

  /** The statements of a batch whose rows can all be stored succeed in the graph and leave `Merged`. */
  lemma LoadStatementsEffect(g: Graph, b: BatchRows)
    requires AllStorable(b.papers)
    ensures ApplyAll(g, LoadStatements(b)) == Some(Merged(g, b))
  {
    var a := b.authorRels;
    var c := b.categoryRels;
    var s1: seq<Stmt> := [MergePapers(b.papers, None)];
    var s2: seq<Stmt> := if a != [] then [MergeAuthors(Firsts(a))] else [];
    var s3: seq<Stmt> := if c != [] then [MergeCategories(Seconds(c))] else [];
    var s4: seq<Stmt> := if a != [] then [MergeWrote(a)] else [];
    var s5: seq<Stmt> := if c != [] then [MergeHasCategory(c)] else [];
    assert LoadStatements(b) == s1 + s2 + s3 + s4 + s5;
    var r := Merged(g, b);
    var g1 := g.(papers := r.papers);
    var g2 := g1.(authors := r.authors);
    var g3 := g2.(categories := r.categories);
    var g4 := g3.(wrote := r.wrote);
    MergePapersEffect(g, b.papers, None);
    AuthorsStep(g1, a);
    CategoriesStep(g2, c);
    MergeWroteStep(g3, a);
    MergeHasCategoryStep(g4, c);
    assert g4.(hasCategory := r.hasCategory) == r;
    ApplyAllAppend(g, s1, s2);
    ApplyAllAppend(g, s1 + s2, s3);
    ApplyAllAppend(g, s1 + s2 + s3, s4);
    ApplyAllAppend(g, s1 + s2 + s3 + s4, s5);
  }

  /**
   * `process_paper_batch`: nothing for an empty batch; `false` when it
   * raises, either while preparing the rows (the store untouched) or at a
   * statement (the statements before it kept, since the session has no
   * transaction).
   */
  function BatchRun(st: Store, batch: seq<PaperRecord>): (bool, Store) {
    if batch == [] then (true, st)
    else if !DatesOk(batch) then (false, st)
    else RunAll(st, LoadStatements(BatchOf(batch)))
  }

  /** `process_paper_batch`. */
  method ProcessPaperBatch(st: Store, batch: seq<PaperRecord>) returns (ok: bool, st': Store)
    ensures (ok, st') == BatchRun(st, batch)
  {
    if batch == [] {
      return true, st;
    }
    var prepared := PrepareBatch(batch);
    if prepared.Err? {
      return false, st;
    }
    ok, st' := Execute(st, LoadStatements(prepared.value));
  }

  // ---------------------------------------------------------------- batch properties

  /** A non-empty batch that went through succeeded at every statement, so it left the merged graph. */
  lemma BatchRunSucceeded(st: Store, batch: seq<PaperRecord>)
    requires batch != [] && BatchRun(st, batch).0
    ensures DatesOk(batch) && AllStorable(Rows(batch))
    ensures BatchRun(st, batch).1.graph == Merged(st.graph, BatchOf(batch))
  {
    var ss := LoadStatements(BatchOf(batch));
    var g' := BatchRun(st, batch).1.graph;
    RunAllPrefix(st, ss);
    assert ss[..|ss|] == ss;
    assert ApplyAll(st.graph, ss) == Some(g');
    assert ss[0] == MergePapers(Rows(batch), None);
    assert Apply(st.graph, ss[0]).Some?;
    LoadStatementsEffect(st.graph, BatchOf(batch));
  }

  /**
   * When the database does not fail, a batch goes through exactly when no
   * `update_date` makes `strptime` raise and every record can be stored: it
   * has an id and no list field holding a null.
   */
  lemma BatchRunFaultFree(st: Store, batch: seq<PaperRecord>)
    requires NoFaults(st.faults, 5)
    ensures BatchRun(st, batch).0
        <==> batch == [] || (DatesOk(batch) && forall i :: 0 <= i < |batch| ==> StorableRecord(batch[i]))
  {
    RowsStorable(batch);
    if batch != [] && DatesOk(batch) {
      var ss := LoadStatements(BatchOf(batch));
      assert NoFaults(st.faults, |ss|);
      RunAllFaultFree(st, ss);
      if AllStorable(Rows(batch)) {
        LoadStatementsEffect(st.graph, BatchOf(batch));
      } else {
        assert ss[0] == MergePapers(Rows(batch), None);
      }
    }
  }

  /** Whatever happens, a batch deletes nothing: every node and relationship is kept. */
  lemma BatchRunGrows(st: Store, batch: seq<PaperRecord>)
    ensures Grows(st.graph, BatchRun(st, batch).1.graph)
  {
    if batch != [] && DatesOk(batch) {
      var ss := LoadStatements(BatchOf(batch));
      LoadStatementsOnlyMerge(BatchOf(batch));
      RunAllGrows(st, ss);
    }
  }

  lemma LoadStatementsOnlyMerge(b: BatchRows)
    ensures forall s :: s in LoadStatements(b) ==> OnlyMerges(s)
  {
  }

  /**
   * The paper MERGE: a paper the batch names carries the fields of one of its
   * records with `last_modified` and its OpenAlex id kept from before; a
   * paper the batch does not name is untouched.
   */
  lemma LoadedPaper(st: Store, batch: seq<PaperRecord>, k: string)
    requires batch != [] && BatchRun(st, batch).0
    ensures var g := st.graph;
      var g' := BatchRun(st, batch).1.graph;
      (!Names(batch, k) ==> Lookup(g'.papers, k) == Lookup(g.papers, k))
      && (Names(batch, k) ==>
            k in g'.papers
            && (exists i :: 0 <= i < |batch| && batch[i].id == Some(k)
                  && g'.papers[k] == UpsertNode(Lookup(g.papers, k), RowOf(batch[i]), None))
            && g'.papers[k].lastModified == (if k in g.papers then g.papers[k].lastModified else None)
            && g'.papers[k].openalexId == (if k in g.papers then g.papers[k].openalexId else None))
  {
    var g := st.graph;
    var rows := Rows(batch);
    BatchRunSucceeded(st, batch);
    MergeRowsEffect(g.papers, rows, None, k);
    LastRowForFound(rows, k);
    if Names(batch, k) {
      var i :| 0 <= i < |batch| && batch[i].id == Some(k);
      assert rows[i].arxivId == Some(k);
      var row := LastRowFor(rows, k).value;
      var j :| 0 <= j < |rows| && rows[j] == row;
      assert row == RowOf(batch[j]);
    }
  }

  /** After a batch went through, `name` wrote `k` exactly when it did before or a record of the batch for `k` lists it. */
  lemma LoadedWrote(st: Store, batch: seq<PaperRecord>, name: string, k: string)
    requires BatchRun(st, batch).0
    ensures (name, k) in BatchRun(st, batch).1.graph.wrote <==> (name, k) in st.graph.wrote || AuthorOf(batch, name, k)
  {
    if batch != [] {
      BatchRunSucceeded(st, batch);
      var papers := MergeRows(st.graph.papers, Rows(batch), None);
      AddedWroteOf(batch, papers, name, k);
      if AuthorOf(batch, name, k) {
        RecordMerged(batch, st.graph.papers, None, k);
      }
    }
  }

  /** After a batch went through, `k` has category `cat` exactly when it did before or a record of the batch for `k` lists it. */
  lemma LoadedHasCategory(st: Store, batch: seq<PaperRecord>, k: string, cat: string)
    requires BatchRun(st, batch).0
    ensures (k, cat) in BatchRun(st, batch).1.graph.hasCategory <==> (k, cat) in st.graph.hasCategory || CategoryOf(batch, k, cat)
  {
    if batch != [] {
      BatchRunSucceeded(st, batch);
      var papers := MergeRows(st.graph.papers, Rows(batch), None);
      AddedHasCategoryOf(batch, papers, k, cat);
      if CategoryOf(batch, k, cat) {
        RecordMerged(batch, st.graph.papers, None, k);
      }
    }
  }

  /** Merging the same batch twice leaves the graph of the first pass. */
  lemma MergedTwice(g: Graph, b: BatchRows)
    requires AllKeyed(b.papers)
    ensures Merged(Merged(g, b), b) == Merged(g, b)
  {
    MergeRowsUnstampedTwice(g.papers, b.papers);
  }

  /** Loading the same batch again after it went through changes nothing at all. */
  lemma LoadTwice(st: Store, batch: seq<PaperRecord>)
    requires BatchRun(st, batch).0
    requires BatchRun(BatchRun(st, batch).1, batch).0
    ensures BatchRun(BatchRun(st, batch).1, batch).1.graph == BatchRun(st, batch).1.graph
  {
    if batch != [] {
      var st1 := BatchRun(st, batch).1;
      BatchRunSucceeded(st, batch);
      BatchRunSucceeded(st1, batch);
      MergedTwice(st.graph, BatchOf(batch));
    }
  }

  // ---------------------------------------------------------------- the file

  /**
   * The loop's state: the store, the pending batch, the records counted,
   * whether it has broken out, and (for the proofs) every batch handed to
   * `process_paper_batch` so far.
   */
  datatype LoadState = LoadState(st: Store, batch: seq<PaperRecord>, count: nat, stopped: bool,
                                 submitted: seq<seq<PaperRecord>>)

  /**
   * One line of the loop. A record is appended and counted; a full batch is
   * processed and, when that succeeds, emptied; then the limit is checked.
   * When processing raises, `except Exception: continue` keeps the batch and
   * skips the limit check.
   */
  function LineStep(s: LoadState, line: Line, batchSize: int, limit: Option<int>,
                    flush: (Store, seq<PaperRecord>) -> (bool, Store)): LoadState
  {
    if s.stopped || line.Malformed? then s
    else
      var batch := s.batch + [line.paper];
      var count := s.count + 1;
      if |batch| >= batchSize then
        var r := flush(s.st, batch);
        if r.0 then LoadState(r.1, [], count, LimitReached(limit, count), s.submitted + [batch])
        else LoadState(r.1, batch, count, false, s.submitted + [batch])
      else LoadState(s.st, batch, count, LimitReached(limit, count), s.submitted)
  }

  /** The loop after the first `n` lines; once it has broken out, further lines are not read. */
  function LoadLines(st: Store, lines: seq<Line>, batchSize: int, limit: Option<int>,
                     flush: (Store, seq<PaperRecord>) -> (bool, Store), n: nat): LoadState
    requires n <= |lines|
  {
    if n == 0 then LoadState(st, [], 0, false, [])
    else LineStep(LoadLines(st, lines, batchSize, limit, flush, n - 1), lines[n - 1], batchSize, limit, flush)
  }

  /** How `load_arxiv_data` ends: the records counted, or the exception of the final batch. */
  datatype LoadResult = Loaded(count: nat) | LoadRaised

  /** The loop, then the final batch, whose failure is not caught. */
  function LoadOutcome(st: Store, lines: seq<Line>, batchSize: int, limit: Option<int>,
                       flush: (Store, seq<PaperRecord>) -> (bool, Store)): (LoadResult, Store)
  {
    var s := LoadLines(st, lines, batchSize, limit, flush, |lines|);
    if s.batch == [] then (Loaded(s.count), s.st)
    else
      var r := flush(s.st, s.batch);
      (if r.0 then Loaded(s.count) else LoadRaised, r.1)
  }

  /** The loader's batch processing, as the loop's flush. */
  function Flush(): (Store, seq<PaperRecord>) -> (bool, Store) {
    (st: Store, batch: seq<PaperRecord>) => BatchRun(st, batch)
  }

  /** The body of the file loop for one line, before the loop has broken out. */
  method ReadLine(st: Store, batch: seq<PaperRecord>, count: nat, ghost submitted: seq<seq<PaperRecord>>,
                  line: Line, batchSize: int, limit: Option<int>)
    returns (st': Store, batch': seq<PaperRecord>, count': nat, stopped: bool, ghost submitted': seq<seq<PaperRecord>>)
    ensures LoadState(st', batch', count', stopped, submitted')
         == LineStep(LoadState(st, batch, count, false, submitted), line, batchSize, limit, Flush())
  {
    st', batch', count', stopped, submitted' := st, batch, count, false, submitted;
    if line.Decoded? {
      batch' := batch + [line.paper];
      count' := count + 1;
      if |batch'| >= batchSize {
        submitted' := submitted + [batch'];
        var ok;
        ok, st' := ProcessPaperBatch(st, batch');
        assert (ok, st') == Flush()(st, batch');
        if ok {
          batch' := [];
          stopped := LimitReached(limit, count');
        }
      } else {
        stopped := LimitReached(limit, count');
      }
    }
  }

  /** `load_arxiv_data` over the lines of the file. */
  method LoadArxivData(st: Store, lines: seq<Line>, limit: Option<int>, batchSize: int) returns (result: LoadResult, st': Store)
    ensures (result, st') == LoadOutcome(st, lines, batchSize, limit, Flush())
  {
    st' := st;
    var count: nat := 0;
    var batch: seq<PaperRecord> := [];
    ghost var submitted: seq<seq<PaperRecord>> := [];
    var stopped := false;
    var i := 0;
    while i < |lines| && !stopped
      invariant 0 <= i <= |lines|
      invariant LoadLines(st, lines, batchSize, limit, Flush(), i) == LoadState(st', batch, count, stopped, submitted)
    {
      LoadLinesStep(st, lines, batchSize, limit, Flush(), i + 1);
      st', batch, count, stopped, submitted := ReadLine(st', batch, count, submitted, lines[i], batchSize, limit);
      i := i + 1;
    }
    LoadLinesStopped(st, lines, batchSize, limit, Flush(), i, |lines|);
    if batch != [] {
      var ok;
      ok, st' := ProcessPaperBatch(st', batch);
      assert (ok, st') == Flush()(LoadLines(st, lines, batchSize, limit, Flush(), |lines|).st, batch);
      if !ok {
        return LoadRaised, st';
      }
    }
    return Loaded(count), st';
  }

  // ---------------------------------------------------------------- loop properties

  lemma LoadLinesStep(st: Store, lines: seq<Line>, batchSize: int, limit: Option<int>,
                      flush: (Store, seq<PaperRecord>) -> (bool, Store), n: nat)
    requires 0 < n <= |lines|
    ensures LoadLines(st, lines, batchSize, limit, flush, n)
         == LineStep(LoadLines(st, lines, batchSize, limit, flush, n - 1), lines[n - 1], batchSize, limit, flush)
  {
  }

  /** Once the loop has broken out, reading further changes nothing. */
  lemma {:induction false} LoadLinesStopped(st: Store, lines: seq<Line>, batchSize: int, limit: Option<int>,
                                             flush: (Store, seq<PaperRecord>) -> (bool, Store), n: nat, m: nat)
    requires n <= m <= |lines|
    requires n == m || LoadLines(st, lines, batchSize, limit, flush, n).stopped
    ensures LoadLines(st, lines, batchSize, limit, flush, m) == LoadLines(st, lines, batchSize, limit, flush, n)
    decreases m
  {
    if m > n {
      LoadLinesStopped(st, lines, batchSize, limit, flush, n, m - 1);
    }
  }

  /**
   * The count is the number of records decoded before the loop broke out: all
   * of them when it did not, and it breaks out only at the limit.
   */
  lemma {:induction false} LoadCount(st: Store, lines: seq<Line>, batchSize: int, limit: Option<int>,
                                      flush: (Store, seq<PaperRecord>) -> (bool, Store), n: nat)
    requires n <= |lines|
    ensures var s := LoadLines(st, lines, batchSize, limit, flush, n);
      s.count <= |DecodedUpTo(lines, n)|
      && (!s.stopped ==> s.count == |DecodedUpTo(lines, n)|)
      && (s.stopped ==> LimitReached(limit, s.count))
    decreases n
  {
    if n > 0 {
      LoadCount(st, lines, batchSize, limit, flush, n - 1);
    }
  }

  /**
   * When every batch goes through, the batches handed over and the pending one
   * are, in order, exactly the records read.
   */
  lemma {:induction false} LoadRead(st: Store, lines: seq<Line>, batchSize: int, limit: Option<int>,
                                     flush: (Store, seq<PaperRecord>) -> (bool, Store), n: nat)
    requires n <= |lines|
    requires forall s: Store, b: seq<PaperRecord> :: flush(s, b).0
    ensures var s := LoadLines(st, lines, batchSize, limit, flush, n);
      s.count <= |DecodedUpTo(lines, n)|
      && Concat(s.submitted) + s.batch == DecodedUpTo(lines, n)[..s.count]
    decreases n
  {
    if n > 0 {
      var prev := LoadLines(st, lines, batchSize, limit, flush, n - 1);
      LoadRead(st, lines, batchSize, limit, flush, n - 1);
      LoadCount(st, lines, batchSize, limit, flush, n - 1);
      var before := DecodedUpTo(lines, n - 1);
      assert DecodedUpTo(lines, n) == if lines[n - 1].Decoded? then before + [lines[n - 1].paper] else before;
      ReadStep(prev, lines[n - 1], batchSize, limit, flush, before);
    }
  }

  /** One line of `LoadRead`: the records handed over or pending stay the records read. */
  lemma ReadStep(s: LoadState, line: Line, batchSize: int, limit: Option<int>,
                 flush: (Store, seq<PaperRecord>) -> (bool, Store), before: seq<PaperRecord>)
    requires forall s: Store, b: seq<PaperRecord> :: flush(s, b).0
    requires s.count <= |before| && Concat(s.submitted) + s.batch == before[..s.count]
    requires !s.stopped ==> s.count == |before|
    ensures var s' := LineStep(s, line, batchSize, limit, flush);
      var after := if line.Decoded? then before + [line.paper] else before;
      s'.count <= |after| && Concat(s'.submitted) + s'.batch == after[..s'.count]
  {
    var after := if line.Decoded? then before + [line.paper] else before;
    if !s.stopped && line.Decoded? {
      assert before[..s.count] == before && after[..s.count + 1] == after;
      ReadDecoded(s, line.paper, batchSize, limit, flush);
    } else {
      assert after[..s.count] == before[..s.count];
    }
  }

  /** A decoded record joins the pending batch, which is handed over whole once full. */
  lemma ReadDecoded(s: LoadState, p: PaperRecord, batchSize: int, limit: Option<int>,
                    flush: (Store, seq<PaperRecord>) -> (bool, Store))
    requires forall s: Store, b: seq<PaperRecord> :: flush(s, b).0
    requires !s.stopped
    ensures var s' := LineStep(s, Decoded(p), batchSize, limit, flush);
      s'.count == s.count + 1 && Concat(s'.submitted) + s'.batch == Concat(s.submitted) + s.batch + [p]
  {
    var s' := LineStep(s, Decoded(p), batchSize, limit, flush);
    var b := s.batch + [p];
    if |b| >= batchSize {
      assert flush(s.st, b).0;
      assert s'.submitted == s.submitted + [b] && s'.batch == [];
      ConcatSnoc(s.submitted, b);
    } else {
      assert s'.submitted == s.submitted && s'.batch == b;
    }
  }

  /**
   * When every batch goes through, each batch handed over is full, the
   * pending one is not, and the loop breaks out as soon as a positive limit
   * is reached.
   */
  lemma {:induction false} LoadSizes(st: Store, lines: seq<Line>, batchSize: int, limit: Option<int>,
                                      flush: (Store, seq<PaperRecord>) -> (bool, Store), n: nat)
    requires n <= |lines|
    requires forall s: Store, b: seq<PaperRecord> :: flush(s, b).0
    ensures var s := LoadLines(st, lines, batchSize, limit, flush, n);
      (forall b :: b in s.submitted ==> |b| == Threshold(batchSize))
      && |s.batch| < Threshold(batchSize)
      && (limit.Some? && limit.value >= 1 ==> s.count <= limit.value && (!s.stopped ==> s.count < limit.value))
    decreases n
  {
    if n > 0 {
      LoadSizes(st, lines, batchSize, limit, flush, n - 1);
    }
  }

  /**
   * A batch that raises is kept and handed over again, one record longer,
   * with the next record: its records may be written twice.
   */
  lemma Resubmitted(s: LoadState, p: PaperRecord, q: PaperRecord, batchSize: int, limit: Option<int>,
                    flush: (Store, seq<PaperRecord>) -> (bool, Store))
    requires !s.stopped && |s.batch| + 1 >= batchSize
    requires !flush(s.st, s.batch + [p]).0
    ensures var s1 := LineStep(s, Decoded(p), batchSize, limit, flush);
      var s2 := LineStep(s1, Decoded(q), batchSize, limit, flush);
      s1.batch == s.batch + [p] && !s1.stopped
      && s2.submitted == s.submitted + [s.batch + [p], s.batch + [p, q]]
  {
    assert s.batch + [p] + [q] == s.batch + [p, q];
  }

  /**
   * The limit is checked only after a batch that did not raise: with a batch
   * size of one and every batch raising, the loop never breaks out and reads
   * every record, whatever the limit.
   */
  lemma {:induction false} LimitSkippedOnFailure(st: Store, lines: seq<Line>, batchSize: int, limit: Option<int>,
                                                  flush: (Store, seq<PaperRecord>) -> (bool, Store), n: nat)
    requires n <= |lines| && batchSize <= 1
    requires forall s, b :: !flush(s, b).0
    ensures !LoadLines(st, lines, batchSize, limit, flush, n).stopped
    ensures LoadLines(st, lines, batchSize, limit, flush, n).count == |DecodedUpTo(lines, n)|
    decreases n
  {
    if n > 0 {
      LimitSkippedOnFailure(st, lines, batchSize, limit, flush, n - 1);
    }
  }

  /** A flush that deletes nothing makes a load that deletes nothing, however it ends. */
  lemma {:induction false} LoadLinesGrows(st: Store, lines: seq<Line>, batchSize: int, limit: Option<int>,
                                           flush: (Store, seq<PaperRecord>) -> (bool, Store), n: nat)
    requires n <= |lines|
    requires forall s: Store, b: seq<PaperRecord> :: Grows(s.graph, flush(s, b).1.graph)
    ensures Grows(st.graph, LoadLines(st, lines, batchSize, limit, flush, n).st.graph)
    decreases n
  {
    if n > 0 {
      LoadLinesGrows(st, lines, batchSize, limit, flush, n - 1);
    }
  }

  lemma FlushGrows()
    ensures forall s: Store, b: seq<PaperRecord> :: Grows(s.graph, Flush()(s, b).1.graph)
  {
    forall s: Store, b: seq<PaperRecord> ensures Grows(s.graph, Flush()(s, b).1.graph) {
      BatchRunGrows(s, b);
    }
  }

  /** The optimized loader never removes a node or a relationship, even when it raises. */
  lemma LoadGrows(st: Store, lines: seq<Line>, batchSize: int, limit: Option<int>)
    ensures Grows(st.graph, LoadOutcome(st, lines, batchSize, limit, Flush()).1.graph)
  {
    FlushGrows();
    LoadLinesGrows(st, lines, batchSize, limit, Flush(), |lines|);
  }
}
