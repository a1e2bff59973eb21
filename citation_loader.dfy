/**
 * The citation loader: it streams the OpenAlex works files again and, for
 * every work that is itself a paper of the graph (its OpenAlex id is in the
 * id set loaded from the store), queues one `(citing, cited)` pair for each
 * referenced work that is also a paper of the graph. The pairs are sent in
 * batches as one UNWIND statement that MERGEs a CITES edge between the two
 * matched papers. Every store error is caught by the batch function.
 */
module CitationLoader {
  import opened Common
  import opened Graph
  import opened OpenAlexModels
  import opened OpenAlexLoaders

  // ---------------------------------------------------------------- pairs

  /** `work.id and work.referenced_works and work.id in neo4j_openalex_ids`. */
  predicate Qualifies(w: OpenAlexWork, ids: set<string>) {
    w.id != "" && w.referencedWorks != [] && w.id in ids
  }

  /** The pairs the inner loop queues for the references `refs`: those in the set, in reference order. */
  function CitePairs(citing: string, refs: seq<string>, ids: set<string>): seq<(string, string)>
    decreases |refs|
  {
    if refs == [] then []
    else CitePairs(citing, refs[..|refs| - 1], ids) + (if refs[|refs| - 1] in ids then [(citing, refs[|refs| - 1])] else [])
  }

  /** The pairs one line queues. */
  function LinePairs(ids: set<string>, line: WorkLine): seq<(string, string)> {
    if line.Decoded? && Qualifies(line.work, ids) then CitePairs(line.work.id, line.work.referencedWorks, ids) else []
  }

  function PairsOf(ids: set<string>): WorkLine -> seq<(string, string)> {
    (line: WorkLine) => LinePairs(ids, line)
  }

  function QualifyingOf(ids: set<string>): WorkLine -> Option<OpenAlexWork> {
    (line: WorkLine) => if line.Decoded? && Qualifies(line.work, ids) then Some(line.work) else None
  }

  /** Both ends of every pair are ids of the set, the citing end the work's own, and each cited end one of its references. */
  lemma {:induction false} CitePairsIn(citing: string, refs: seq<string>, ids: set<string>)
    ensures var ps := CitePairs(citing, refs, ids);
      |ps| <= |refs|
      && forall i :: 0 <= i < |ps| ==> ps[i].0 == citing && ps[i].1 in ids && ps[i].1 in refs
    decreases |refs|
  {
    if refs != [] {
      var init := refs[..|refs| - 1];
      CitePairsIn(citing, init, ids);
      assert forall r :: r in init ==> r in refs;
    }
  }

  /**
   * A reference in the set yields a pair, in reference order: its pair
   * follows the pairs of the references before it, and these come first.
   */
  lemma CitePairsHas(citing: string, refs: seq<string>, ids: set<string>, i: nat)
    requires i < |refs| && refs[i] in ids
    ensures CitePairs(citing, refs[..i + 1], ids) == CitePairs(citing, refs[..i], ids) + [(citing, refs[i])]
    ensures CitePairs(citing, refs[..i + 1], ids) <= CitePairs(citing, refs, ids)
    ensures (citing, refs[i]) in CitePairs(citing, refs, ids)
  {
    var pre := refs[..i + 1];
    assert pre[..|pre| - 1] == refs[..i] && pre[|pre| - 1] == refs[i];
    CitePairsPrefix(citing, refs, ids, i + 1);
    var ps := CitePairs(citing, refs, ids);
    assert ps[|CitePairs(citing, refs[..i], ids)|] == (citing, refs[i]);
  }

  /** The pairs of the first `n` references begin the pairs of all of them. */
  lemma {:induction false} CitePairsPrefix(citing: string, refs: seq<string>, ids: set<string>, n: nat)
    requires n <= |refs|
    ensures CitePairs(citing, refs[..n], ids) <= CitePairs(citing, refs, ids)
    decreases |refs| - n
  {
    if n == |refs| {
      assert refs[..n] == refs;
    } else {
      var init := refs[..|refs| - 1];
      assert init[..n] == refs[..n];
      CitePairsPrefix(citing, init, ids, n);
    }
  }

  // ---------------------------------------------------------------- one batch

  /**
   * `_create_citation_batch`: 0 for an empty batch, which sends nothing; 0
   * when the statement fails, which is caught; otherwise the CITES edges
   * between the matched papers are merged and `count(*)` is returned.
   */
  function CitationBatch(st: Store, batch: seq<(string, string)>): (nat, Store) {
    if batch == [] then (0, st)
    else if NextFails(st) then (0, Store(st.graph, Tail(st.faults)))
    else (CiteCount(st.graph.papers, batch), Store(st.graph.(cites := st.graph.cites + CitesAdded(st.graph.papers, batch)), Tail(st.faults)))
  }

  /** The batch function is the one statement it sends, with its failure caught. */
  lemma CitationBatchRuns(st: Store, batch: seq<(string, string)>)
    requires batch != []
    ensures var (o, st') := Run(st, MergeCites(batch));
      CitationBatch(st, batch) == if o.Done? then (o.count, st') else (0, st')
  {
  }

  /** `_create_citation_batch`. */
  method CreateCitationBatch(st: Store, batch: seq<(string, string)>) returns (created: nat, st': Store)
    ensures (created, st') == CitationBatch(st, batch)
  {
    if batch == [] {
      return 0, st;
    }
    var r := Run(st, MergeCites(batch));
    CitationBatchRuns(st, batch);
    st' := r.1;
    created := if r.0.Done? then r.0.count else 0;
  }

  /**
   * A batch only adds CITES edges, each between two papers whose ids a pair
   * of the batch names, and a pair names the papers that hold its ids.
   */
  lemma CitationBatchEffect(st: Store, batch: seq<(string, string)>, a: string, b: string)
    ensures var g := st.graph;
      var g' := CitationBatch(st, batch).1.graph;
      g' == g.(cites := g'.cites)
      && ((a, b) in g'.cites <==>
            (a, b) in g.cites
            || (batch != [] && !NextFails(st) && a in g.papers && b in g.papers && CitePairFor(g.papers, batch, a, b)))
  {
    if batch != [] && !NextFails(st) {
      MergeCitesEffect(st.graph, batch, a, b);
    }
  }

  /**
   * MERGE makes a repeated batch harmless: once a batch has gone through,
   * sending it again adds no edge, yet reports the same `count(*)`, which
   * counts matched rows and not edges created.
   */
  lemma CitationBatchTwice(st: Store, batch: seq<(string, string)>)
    requires !NextFails(st)
    ensures var (made1, st1) := CitationBatch(st, batch);
      CitationBatch(st1, batch).1.graph == st1.graph
      && (!NextFails(st1) ==> CitationBatch(st1, batch).0 == made1)
  {
    var st1 := CitationBatch(st, batch).1;
    if batch != [] && !NextFails(st1) {
      assert st1.graph.papers == st.graph.papers;
      assert st1.graph.cites == st.graph.cites + CitesAdded(st.graph.papers, batch);
      assert st1.graph.cites + CitesAdded(st1.graph.papers, batch) == st1.graph.cites;
    }
  }

  // ---------------------------------------------------------------- the file

  /** The arguments of a file call: `max_records`, `batch_size` and the id set. */
  datatype CiteConfig = CiteConfig(limit: Option<int>, batchSize: int, ids: set<string>)

  type CiteFlush = (Store, seq<(string, string)>) -> (nat, Store)

  /**
   * The loop's state: the store, `citation_batch`, the counters
   * `total_works_processed`, `works_with_references`,
   * `total_reference_pairs` and `successful_citations`, whether the limit
   * broke the loop, and (for the proofs) every batch sent so far.
   */
  datatype CiteState = CiteState(st: Store, batch: seq<(string, string)>, works: nat, withRefs: nat, pairs: nat,
                                 created: nat, stopped: bool, submitted: seq<seq<(string, string)>>)

  /**
   * Line `lineNum`: the limit first; a malformed line is skipped; a work is
   * counted; a qualifying work is counted again, queues its pairs, and the
   * batch is sent once it holds at least `batch_size` pairs.
   */
  function CiteStep(s: CiteState, line: WorkLine, lineNum: nat, c: CiteConfig, flush: CiteFlush): CiteState {
    if s.stopped then s
    else if LimitHit(c.limit, lineNum) then CiteState(s.st, s.batch, s.works, s.withRefs, s.pairs, s.created, true, s.submitted)
    else if line.Malformed? then s
    else if !Qualifies(line.work, c.ids) then
      CiteState(s.st, s.batch, s.works + 1, s.withRefs, s.pairs, s.created, false, s.submitted)
    else
      var ps := CitePairs(line.work.id, line.work.referencedWorks, c.ids);
      var batch := s.batch + ps;
      if |batch| >= c.batchSize then
        var r := flush(s.st, batch);
        CiteState(r.1, [], s.works + 1, s.withRefs + 1, s.pairs + |ps|, s.created + r.0, false, s.submitted + [batch])
      else CiteState(s.st, batch, s.works + 1, s.withRefs + 1, s.pairs + |ps|, s.created, false, s.submitted)
  }

  function CiteLines(st: Store, lines: seq<WorkLine>, c: CiteConfig, flush: CiteFlush, n: nat): CiteState
    requires n <= |lines|
  {
    if n == 0 then CiteState(st, [], 0, 0, 0, 0, false, [])
    else CiteStep(CiteLines(st, lines, c, flush, n - 1), lines[n - 1], n, c, flush)
  }

  /** The counters `process_file_citations` returns. */
  datatype CiteStats = CiteStats(files: nat, works: nat, withRefs: nat, pairs: nat, created: nat)

  /** The loop, then the remainder. */
  function CiteOutcome(st: Store, lines: seq<WorkLine>, c: CiteConfig, flush: CiteFlush): (CiteStats, Store) {
    var s := CiteLines(st, lines, c, flush, |lines|);
    if s.batch == [] then (CiteStats(1, s.works, s.withRefs, s.pairs, s.created), s.st)
    else
      var r := flush(s.st, s.batch);
      (CiteStats(1, s.works, s.withRefs, s.pairs, s.created + r.0), r.1)
  }

  function CiteFlusher(): CiteFlush {
    (st: Store, batch: seq<(string, string)>) => CitationBatch(st, batch)
  }

  /** The loop of `process_file_citations` over a file, with the id set already loaded. */
  method CiteFile(st: Store, lines: seq<WorkLine>, c: CiteConfig) returns (stats: CiteStats, st': Store)
    ensures (stats, st') == CiteOutcome(st, lines, c, CiteFlusher())
  {
    st' := st;
    var batch: seq<(string, string)> := [];
    var works: nat, withRefs: nat, pairs: nat, created: nat := 0, 0, 0, 0;
    var stopped := false;
    ghost var submitted: seq<seq<(string, string)>> := [];
    var i := 0;
    while i < |lines| && !stopped
      invariant 0 <= i <= |lines|
      invariant CiteLines(st, lines, c, CiteFlusher(), i) == CiteState(st', batch, works, withRefs, pairs, created, stopped, submitted)
    {
      ghost var next := CiteStep(CiteState(st', batch, works, withRefs, pairs, created, false, submitted), lines[i], i + 1, c, CiteFlusher());
      CiteLinesStep(st, lines, c, CiteFlusher(), i + 1);
      if LimitHit(c.limit, i + 1) {
        stopped := true;
      } else if lines[i].Decoded? {
        st', batch, works, withRefs, pairs, created, submitted :=
          CiteWork(st', batch, works, withRefs, pairs, created, submitted, lines[i].work, i + 1, c);
      }
      assert CiteState(st', batch, works, withRefs, pairs, created, stopped, submitted) == next;
      i := i + 1;
    }
    CiteLinesStopped(st, lines, c, CiteFlusher(), i, |lines|);
    if batch != [] {
      var made;
      made, st' := CreateCitationBatch(st', batch);
      created := created + made;
    }
    stats := CiteStats(1, works, withRefs, pairs, created);
  }

  /** One decoded work of the loop, below the limit: counted, and its pairs queued and sent when it qualifies. */
  method CiteWork(st: Store, batch: seq<(string, string)>, works: nat, withRefs: nat, pairs: nat, created: nat,
                  ghost submitted: seq<seq<(string, string)>>, work: OpenAlexWork, lineNum: nat, c: CiteConfig)
    returns (st': Store, batch': seq<(string, string)>, works': nat, withRefs': nat, pairs': nat, created': nat,
             ghost submitted': seq<seq<(string, string)>>)
    requires !LimitHit(c.limit, lineNum)
    ensures CiteState(st', batch', works', withRefs', pairs', created', false, submitted')
         == CiteStep(CiteState(st, batch, works, withRefs, pairs, created, false, submitted), Decoded(work), lineNum, c, CiteFlusher())
  {
    st', batch', works', withRefs', pairs', created', submitted' := st, batch, works + 1, withRefs, pairs, created, submitted;
    if Qualifies(work, c.ids) {
      withRefs' := withRefs + 1;
      batch', pairs' := QueueReferences(work.id, work.referencedWorks, c.ids, batch, pairs);
      if |batch'| >= c.batchSize {
        submitted' := submitted + [batch'];
        var made;
        made, st' := CreateCitationBatch(st, batch');
        assert (made, st') == CiteFlusher()(st, batch');
        created' := created + made;
        batch' := [];
      }
    }
  }

  /** The inner loop over `work.referenced_works`. */
  method QueueReferences(citing: string, refs: seq<string>, ids: set<string>, batch: seq<(string, string)>, pairs: nat)
    returns (batch': seq<(string, string)>, pairs': nat)
    ensures batch' == batch + CitePairs(citing, refs, ids)
    ensures pairs' == pairs + |CitePairs(citing, refs, ids)|
  {
    batch', pairs' := batch, pairs;
    for k := 0 to |refs|
      invariant batch' == batch + CitePairs(citing, refs[..k], ids)
      invariant pairs' == pairs + |CitePairs(citing, refs[..k], ids)|
    {
      assert refs[..k + 1][..k] == refs[..k];
      if refs[k] in ids {
        batch' := batch' + [(citing, refs[k])];
        pairs' := pairs' + 1;
      }
    }
    assert refs[..|refs|] == refs;
  }

  lemma CiteLinesStep(st: Store, lines: seq<WorkLine>, c: CiteConfig, flush: CiteFlush, n: nat)
    requires 0 < n <= |lines|
    ensures CiteLines(st, lines, c, flush, n) == CiteStep(CiteLines(st, lines, c, flush, n - 1), lines[n - 1], n, c, flush)
  {
  }

  lemma {:induction false} CiteLinesStopped(st: Store, lines: seq<WorkLine>, c: CiteConfig, flush: CiteFlush, n: nat, m: nat)
    requires n <= m <= |lines|
    requires n == m || CiteLines(st, lines, c, flush, n).stopped
    ensures CiteLines(st, lines, c, flush, m) == CiteLines(st, lines, c, flush, n)
    decreases m
  {
    if m > n {
      CiteLinesStopped(st, lines, c, flush, n, m - 1);
    }
  }

  // ---------------------------------------------------------------- what a file queues

  /** One line of `CiteCounts`. */
  lemma CiteCountStep(s: CiteState, line: WorkLine, n: nat, c: CiteConfig, flush: CiteFlush)
    ensures var s' := CiteStep(s, line, n, c, flush);
      var read := !s.stopped && !LimitHit(c.limit, n);
      s'.works == s.works + (if read && WorkOf(line).Some? then 1 else 0)
      && s'.withRefs == s.withRefs + (if read && QualifyingOf(c.ids)(line).Some? then 1 else 0)
      && s'.pairs == s.pairs + (if read then |LinePairs(c.ids, line)| else 0)
      && Concat(s'.submitted) + s'.batch == Concat(s.submitted) + s.batch + (if read then LinePairs(c.ids, line) else [])
      && s'.stopped == (s.stopped || LimitHit(c.limit, n))
  {
    if !s.stopped && !LimitHit(c.limit, n) && line.Decoded? && Qualifies(line.work, c.ids) {
      var b := s.batch + LinePairs(c.ids, line);
      if |b| >= c.batchSize {
        ConcatSnoc(s.submitted, b);
      }
    }
  }

  /**
   * Whatever the batch function does, the counters count the lines read:
   * `total_works_processed` the works that validated, `works_with_references`
   * the qualifying works; and the loop breaks only at the limit.
   */
  lemma {:induction false} CiteCounts(st: Store, lines: seq<WorkLine>, c: CiteConfig, flush: CiteFlush, n: nat)
    requires n <= |lines|
    ensures var s := CiteLines(st, lines, c, flush, n);
      var r := LinesRead(c.limit, n);
      s.works == |FilterMap(lines, WorkOf, r)|
      && s.withRefs == |FilterMap(lines, QualifyingOf(c.ids), r)|
      && (s.stopped <==> r < n)
    decreases n
  {
    if n > 0 {
      CiteCounts(st, lines, c, flush, n - 1);
      CiteCountStep(CiteLines(st, lines, c, flush, n - 1), lines[n - 1], n, c, flush);
      var r0 := LinesRead(c.limit, n - 1);
      if r0 < n - 1 {
        assert LinesRead(c.limit, n) == r0;
      } else if LimitHit(c.limit, n) {
        assert LinesRead(c.limit, n) == n - 1;
      } else {
        assert LinesRead(c.limit, n) == n;
        FilterMapStep(lines, WorkOf, n - 1);
        FilterMapStep(lines, QualifyingOf(c.ids), n - 1);
      }
    }
  }

  /**
   * `total_reference_pairs` counts the pairs queued, which are, batch after
   * batch and then the pending one, the pairs of the qualifying works read,
   * in file order.
   */
  lemma {:induction false} CiteQueued(st: Store, lines: seq<WorkLine>, c: CiteConfig, flush: CiteFlush, n: nat)
    requires n <= |lines|
    ensures var s := CiteLines(st, lines, c, flush, n);
      var all := FlatMap(lines, PairsOf(c.ids), LinesRead(c.limit, n));
      Concat(s.submitted) + s.batch == all && s.pairs == |all|
    decreases n
  {
    if n > 0 {
      var prev := CiteLines(st, lines, c, flush, n - 1);
      var s' := CiteLines(st, lines, c, flush, n);
      CiteLinesStep(st, lines, c, flush, n);
      CiteQueued(st, lines, c, flush, n - 1);
      CiteCounts(st, lines, c, flush, n - 1);
      CiteCountStep(prev, lines[n - 1], n, c, flush);
      var before := FlatMap(lines, PairsOf(c.ids), LinesRead(c.limit, n - 1));
      if !prev.stopped && !LimitHit(c.limit, n) {
        assert LinesRead(c.limit, n - 1) == n - 1 && LinesRead(c.limit, n) == n;
        assert FlatMap(lines, PairsOf(c.ids), n) == before + LinePairs(c.ids, lines[n - 1]);
      } else {
        assert LinesRead(c.limit, n) == LinesRead(c.limit, n - 1);
        assert Concat(s'.submitted) + s'.batch == before;
      }
    }
  }

  /** Every pair queued from a file joins a qualifying work of the lines read to one of its references, and both ids are in the set. */
  lemma PairsFromFile(lines: seq<WorkLine>, ids: set<string>, n: nat, p: (string, string)) returns (i: nat)
    requires n <= |lines| && p in FlatMap(lines, PairsOf(ids), n)
    ensures i < n && lines[i].Decoded? && Qualifies(lines[i].work, ids)
    ensures p.0 == lines[i].work.id && p.1 in lines[i].work.referencedWorks
    ensures p.0 in ids && p.1 in ids
  {
    i := FlatMapSource(lines, PairsOf(ids), n, p);
    var w := lines[i].work;
    CitePairsIn(w.id, w.referencedWorks, ids);
  }

  /** Every reference in the set of a qualifying work read is queued. */
  lemma FilePairsHas(lines: seq<WorkLine>, ids: set<string>, n: nat, i: nat, k: nat)
    requires i < n <= |lines| && lines[i].Decoded? && Qualifies(lines[i].work, ids)
    requires k < |lines[i].work.referencedWorks| && lines[i].work.referencedWorks[k] in ids
    ensures (lines[i].work.id, lines[i].work.referencedWorks[k]) in FlatMap(lines, PairsOf(ids), n)
  {
    var w := lines[i].work;
    CitePairsHas(w.id, w.referencedWorks, ids, k);
    FlatMapHas(lines, PairsOf(ids), n, i, (w.id, w.referencedWorks[k]));
  }

  /** One line of `CiteSizes`. */
  lemma CiteSizeStep(s: CiteState, line: WorkLine, n: nat, c: CiteConfig, flush: CiteFlush)
    requires (forall b :: b in s.submitted ==> |b| >= c.batchSize) && |s.batch| < Threshold(c.batchSize)
    ensures var s' := CiteStep(s, line, n, c, flush);
      (forall b :: b in s'.submitted ==> |b| >= c.batchSize) && |s'.batch| < Threshold(c.batchSize)
  {
  }

  /**
   * Every batch sent holds at least `batch_size` pairs, and the pending one
   * fewer than that (none when `batch_size` is below 1). A work's pairs are
   * all queued before the size check, so a batch can exceed `batch_size`.
   */
  lemma {:induction false} CiteSizes(st: Store, lines: seq<WorkLine>, c: CiteConfig, flush: CiteFlush, n: nat)
    requires n <= |lines|
    ensures var s := CiteLines(st, lines, c, flush, n);
      (forall b :: b in s.submitted ==> |b| >= c.batchSize) && |s.batch| < Threshold(c.batchSize)
    decreases n
  {
    if n > 0 {
      CiteSizes(st, lines, c, flush, n - 1);
      CiteSizeStep(CiteLines(st, lines, c, flush, n - 1), lines[n - 1], n, c, flush);
    }
  }

  /** A work with three references in the set, read with `batch_size` 2 and nothing pending, is sent as one batch of three. */
  lemma CiteBatchOvershoots(s: CiteState, w: OpenAlexWork, n: nat, c: CiteConfig, flush: CiteFlush)
    requires !s.stopped && !LimitHit(c.limit, n) && s.batch == [] && c.batchSize == 2
    requires w.id != "" && w.id in c.ids && |w.referencedWorks| == 3
    requires forall k :: 0 <= k < 3 ==> w.referencedWorks[k] in c.ids
    ensures var s' := CiteStep(s, Decoded(w), n, c, flush);
      s'.submitted == s.submitted + [CitePairs(w.id, w.referencedWorks, c.ids)]
      && |s'.submitted[|s.submitted|]| == 3 > c.batchSize
  {
    var refs := w.referencedWorks;
    var ps := CitePairs(w.id, refs, c.ids);
    assert [] + ps == ps;
    assert refs[..2][..1] == refs[..1] && refs[..3][..2] == refs[..2] && refs[..1][..0] == [] && refs[..3] == refs;
    assert |CitePairs(w.id, refs[..1], c.ids)| == 1;
    assert |CitePairs(w.id, refs[..2], c.ids)| == 2;
    assert |ps| == 3;
  }

  // ---------------------------------------------------------------- what a file does to the graph

  /** No statement sent to the store fails. */
  predicate Clean(st: Store) {
    NoFaults(st.faults, |st.faults|)
  }

  lemma CitesAddedAppend(papers: map<string, Paper>, xs: seq<(string, string)>, ys: seq<(string, string)>)
    ensures CitesAdded(papers, xs + ys) == CitesAdded(papers, xs) + CitesAdded(papers, ys)
  {
    forall a, b | a in papers && b in papers
      ensures CitePairFor(papers, xs + ys, a, b) <==> CitePairFor(papers, xs, a, b) || CitePairFor(papers, ys, a, b)
    {
      if CitePairFor(papers, xs + ys, a, b) {
        var i :| 0 <= i < |xs + ys| && papers[a].openalexId == Some((xs + ys)[i].0) && papers[b].openalexId == Some((xs + ys)[i].1);
        if i < |xs| {
          assert (xs + ys)[i] == xs[i];
        } else {
          assert (xs + ys)[i] == ys[i - |xs|];
        }
      }
      if CitePairFor(papers, xs, a, b) {
        var i :| 0 <= i < |xs| && papers[a].openalexId == Some(xs[i].0) && papers[b].openalexId == Some(xs[i].1);
        assert (xs + ys)[i] == xs[i];
      }
      if CitePairFor(papers, ys, a, b) {
        var i :| 0 <= i < |ys| && papers[a].openalexId == Some(ys[i].0) && papers[b].openalexId == Some(ys[i].1);
        assert (xs + ys)[|xs| + i] == ys[i];
      }
    }
  }

  lemma {:induction false} CiteCountAppend(papers: map<string, Paper>, xs: seq<(string, string)>, ys: seq<(string, string)>)
    ensures CiteCount(papers, xs + ys) == CiteCount(papers, xs) + CiteCount(papers, ys)
    decreases |xs|
  {
    if xs == [] {
      assert xs + ys == ys;
    } else {
      assert (xs + ys)[0] == xs[0] && (xs + ys)[1..] == xs[1..] + ys;
      CiteCountAppend(papers, xs[1..], ys);
    }
  }

  /**
   * One batch changes only the CITES edges: it adds at most the edges its
   * pairs name and reports at most their `count(*)`; when the store does not
   * fail, exactly those.
   */
  lemma CitationBatchBounds(st: Store, batch: seq<(string, string)>)
    ensures var (made, st') := CitationBatch(st, batch);
      var g := st.graph;
      var g' := st'.graph;
      g' == g.(cites := g'.cites) && g.cites <= g'.cites <= g.cites + CitesAdded(g.papers, batch)
      && made <= CiteCount(g.papers, batch)
      && (Clean(st) ==> Clean(st') && g'.cites == g.cites + CitesAdded(g.papers, batch) && made == CiteCount(g.papers, batch))
  {
    if batch == [] {
      assert CitesAdded(st.graph.papers, batch) == {};
    }
  }

  /**
   * What the batches sent so far have done: only CITES edges changed, at most
   * those the sent pairs name were added and at most their `count(*)`
   * reported; without store errors, exactly those.
   */
  ghost predicate SentBounds(st0: Store, s: CiteState) {
    var g := st0.graph;
    var g' := s.st.graph;
    var sent := Concat(s.submitted);
    g' == g.(cites := g'.cites) && g.cites <= g'.cites <= g.cites + CitesAdded(g.papers, sent)
    && s.created <= CiteCount(g.papers, sent)
    && (Clean(st0) ==> Clean(s.st) && g'.cites == g.cites + CitesAdded(g.papers, sent) && s.created == CiteCount(g.papers, sent))
  }

  lemma SentStep(st0: Store, s: CiteState, line: WorkLine, n: nat, c: CiteConfig)
    requires SentBounds(st0, s)
    ensures SentBounds(st0, CiteStep(s, line, n, c, CiteFlusher()))
  {
    if !s.stopped && !LimitHit(c.limit, n) && line.Decoded? && Qualifies(line.work, c.ids) {
      var b := s.batch + LinePairs(c.ids, line);
      if |b| >= c.batchSize {
        var papers := st0.graph.papers;
        CitationBatchBounds(s.st, b);
        ConcatSnoc(s.submitted, b);
        CitesAddedAppend(papers, Concat(s.submitted), b);
        CiteCountAppend(papers, Concat(s.submitted), b);
      }
    }
  }

  lemma {:induction false} CiteLinesSent(st: Store, lines: seq<WorkLine>, c: CiteConfig, n: nat)
    requires n <= |lines|
    ensures SentBounds(st, CiteLines(st, lines, c, CiteFlusher(), n))
    decreases n
  {
    if n == 0 {
      assert CitesAdded(st.graph.papers, []) == {};
    } else {
      CiteLinesSent(st, lines, c, n - 1);
      SentStep(st, CiteLines(st, lines, c, CiteFlusher(), n - 1), lines[n - 1], n, c);
    }
  }

  /**
   * A file run changes only the CITES edges. It adds at most the edges the
   * file's pairs name, between the papers holding each pair's two ids, and
   * reports at most their `count(*)`; when no statement fails, it adds
   * exactly those edges and reports exactly that count.
   */
  lemma CiteFileEffect(st: Store, lines: seq<WorkLine>, c: CiteConfig)
    ensures var (stats, st') := CiteOutcome(st, lines, c, CiteFlusher());
      var all := FlatMap(lines, PairsOf(c.ids), LinesRead(c.limit, |lines|));
      var g := st.graph;
      var g' := st'.graph;
      g' == g.(cites := g'.cites) && g.cites <= g'.cites <= g.cites + CitesAdded(g.papers, all)
      && stats.created <= CiteCount(g.papers, all)
      && (Clean(st) ==> Clean(st') && g'.cites == g.cites + CitesAdded(g.papers, all) && stats.created == CiteCount(g.papers, all))
  {
    var s := CiteLines(st, lines, c, CiteFlusher(), |lines|);
    CiteLinesSent(st, lines, c, |lines|);
    CiteQueued(st, lines, c, CiteFlusher(), |lines|);
    var papers := st.graph.papers;
    if s.batch != [] {
      CitationBatchBounds(s.st, s.batch);
      CitesAddedAppend(papers, Concat(s.submitted), s.batch);
      CiteCountAppend(papers, Concat(s.submitted), s.batch);
    } else {
      assert Concat(s.submitted) + s.batch == Concat(s.submitted);
    }
  }

  // ---------------------------------------------------------------- the id set and `count(*)`

  /** The non-empty OpenAlex ids of the papers: what `_load_neo4j_openalex_ids` reads. */
  function PaperIds(papers: map<string, Paper>): set<string> {
    set k | k in papers && papers[k].openalexId.Some? && papers[k].openalexId.value != "" :: papers[k].openalexId.value
  }

  /** No two papers share an OpenAlex id. */
  predicate UniqueIds(papers: map<string, Paper>) {
    forall a, b :: a in papers && b in papers && papers[a].openalexId.Some? && papers[a].openalexId == papers[b].openalexId ==> a == b
  }

  /** An id of the set is held by at least one paper, and by exactly one when ids are unique. */
  lemma HoldersOfId(papers: map<string, Paper>, id: string)
    requires id in PaperIds(papers)
    ensures |Holders(papers, id)| >= 1
    ensures UniqueIds(papers) ==> |Holders(papers, id)| == 1
  {
    var k :| k in papers && papers[k].openalexId.Some? && papers[k].openalexId.value != "" && papers[k].openalexId.value == id;
    assert k in Holders(papers, id);
    if UniqueIds(papers) {
      assert Holders(papers, id) == {k};
    }
  }

  /**
   * `count(*)` returns one row per pair and match: when both ids of every
   * pair are held by papers it is at least the number of pairs, and exactly
   * that when ids are unique.
   */
  lemma {:induction false} CiteCountCovers(papers: map<string, Paper>, pairs: seq<(string, string)>)
    requires forall i :: 0 <= i < |pairs| ==> pairs[i].0 in PaperIds(papers) && pairs[i].1 in PaperIds(papers)
    ensures CiteCount(papers, pairs) >= |pairs|
    ensures UniqueIds(papers) ==> CiteCount(papers, pairs) == |pairs|
    decreases |pairs|
  {
    if pairs != [] {
      HoldersOfId(papers, pairs[0].0);
      HoldersOfId(papers, pairs[0].1);
      var h0, h1 := |Holders(papers, pairs[0].0)|, |Holders(papers, pairs[0].1)|;
      assert h0 * h1 >= 1 by {
        assert h0 * h1 >= 1 * h1;
      }
      assert forall i :: 0 <= i < |pairs[1..]| ==> pairs[1..][i] == pairs[i + 1];
      CiteCountCovers(papers, pairs[1..]);
    }
  }

  /**
   * With the id set taken from the store and no statement failing, every
   * queued pair matches, so `successful_citations` is at least
   * `total_reference_pairs`, and equal to it when ids are unique.
   */
  lemma CiteFileCounts(st: Store, lines: seq<WorkLine>, c: CiteConfig)
    requires Clean(st) && c.ids <= PaperIds(st.graph.papers)
    ensures var stats := CiteOutcome(st, lines, c, CiteFlusher()).0;
      stats.created >= stats.pairs
      && (UniqueIds(st.graph.papers) ==> stats.created == stats.pairs)
  {
    var all := FlatMap(lines, PairsOf(c.ids), LinesRead(c.limit, |lines|));
    CiteFileEffect(st, lines, c);
    CiteQueued(st, lines, c, CiteFlusher(), |lines|);
    forall i | 0 <= i < |all| ensures all[i].0 in PaperIds(st.graph.papers) && all[i].1 in PaperIds(st.graph.papers) {
      var _ := PairsFromFile(lines, c.ids, LinesRead(c.limit, |lines|), all[i]);
    }
    CiteCountCovers(st.graph.papers, all);
  }

  // ---------------------------------------------------------------- totals

  /** `total_works_processed` of a file, independent of the store. */
  function CiteFileWorks(lines: seq<WorkLine>, limit: Option<int>): nat {
    |FilterMap(lines, WorkOf, LinesRead(limit, |lines|))|
  }

  /** `works_with_references` of a file, independent of the store. */
  function CiteFileWithRefs(lines: seq<WorkLine>, c: CiteConfig): nat {
    |FilterMap(lines, QualifyingOf(c.ids), LinesRead(c.limit, |lines|))|
  }

  /** `total_reference_pairs` of a file, independent of the store. */
  function CiteFilePairs(lines: seq<WorkLine>, c: CiteConfig): nat {
    |FlatMap(lines, PairsOf(c.ids), LinesRead(c.limit, |lines|))|
  }

  /** A file call counts one file and what it read, whatever the store does. */
  lemma CiteFileStats(st: Store, lines: seq<WorkLine>, c: CiteConfig, flush: CiteFlush)
    ensures var t := CiteOutcome(st, lines, c, flush).0;
      t.files == 1 && t.works == CiteFileWorks(lines, c.limit)
      && t.withRefs == CiteFileWithRefs(lines, c) && t.pairs == CiteFilePairs(lines, c)
  {
    CiteCounts(st, lines, c, flush, |lines|);
    CiteQueued(st, lines, c, flush, |lines|);
  }

  function AddCite(a: CiteStats, b: CiteStats): CiteStats {
    CiteStats(a.files + b.files, a.works + b.works, a.withRefs + b.withRefs, a.pairs + b.pairs, a.created + b.created)
  }

  const NoCiteStats := CiteStats(0, 0, 0, 0, 0)

  /** The files one after another, each starting from the store the previous one left, their stats added to `total`. */
  function CiteFilesFrom(total: CiteStats, st: Store, files: seq<seq<WorkLine>>, c: CiteConfig, flush: CiteFlush): (CiteStats, Store)
    decreases |files|
  {
    if files == [] then (total, st)
    else
      var (one, st1) := CiteOutcome(st, files[0], c, flush);
      CiteFilesFrom(AddCite(total, one), st1, files[1..], c, flush)
  }

  function CiteWorksPerFile(files: seq<seq<WorkLine>>, c: CiteConfig): seq<nat> {
    seq(|files|, i requires 0 <= i < |files| => CiteFileWorks(files[i], c.limit))
  }

  function WithRefsPerFile(files: seq<seq<WorkLine>>, c: CiteConfig): seq<nat> {
    seq(|files|, i requires 0 <= i < |files| => CiteFileWithRefs(files[i], c))
  }

  function PairsPerFile(files: seq<seq<WorkLine>>, c: CiteConfig): seq<nat> {
    seq(|files|, i requires 0 <= i < |files| => CiteFilePairs(files[i], c))
  }

  /**
   * The `successful_citations` of each file in run order, each file's
   * counted against the store the files before it left.
   */
  function CreatedPerFile(st: Store, files: seq<seq<WorkLine>>, c: CiteConfig, flush: CiteFlush): (cs: seq<nat>)
    ensures |cs| == |files|
    decreases |files|
  {
    if files == [] then []
    else
      var (one, st1) := CiteOutcome(st, files[0], c, flush);
      [one.created] + CreatedPerFile(st1, files[1..], c, flush)
  }

  /**
   * Full-run totals: one per file, the per-file read counts summed whatever
   * the store does, and the per-file created counts summed.
   */
  lemma {:induction false} CiteFilesTotals(total: CiteStats, st: Store, files: seq<seq<WorkLine>>, c: CiteConfig, flush: CiteFlush)
    ensures var t := CiteFilesFrom(total, st, files, c, flush).0;
      t.files == total.files + |files|
      && t.works == total.works + Sum(CiteWorksPerFile(files, c))
      && t.withRefs == total.withRefs + Sum(WithRefsPerFile(files, c))
      && t.pairs == total.pairs + Sum(PairsPerFile(files, c))
      && t.created == total.created + Sum(CreatedPerFile(st, files, c, flush))
    decreases |files|
  {
    if files != [] {
      var (one, st1) := CiteOutcome(st, files[0], c, flush);
      CiteFileStats(st, files[0], c, flush);
      CiteFilesTotals(AddCite(total, one), st1, files[1..], c, flush);
      PerFileTail(files, c);
      assert CreatedPerFile(st, files, c, flush)[1..] == CreatedPerFile(st1, files[1..], c, flush);
    }
  }

  /**
   * The created count of file `i` is the one `CiteOutcome` reports for it
   * against the store the first `i` files leave.
   */
  lemma {:induction false} CreatedPerFileAt(st: Store, files: seq<seq<WorkLine>>, c: CiteConfig, flush: CiteFlush, i: nat)
    requires i < |files|
    ensures CreatedPerFile(st, files, c, flush)[i]
         == CiteOutcome(CiteFilesFrom(NoCiteStats, st, files[..i], c, flush).1, files[i], c, flush).0.created
    decreases i
  {
    var (one, st1) := CiteOutcome(st, files[0], c, flush);
    if i == 0 {
      assert files[..0] == [];
    } else {
      CreatedPerFileAt(st1, files[1..], c, flush, i - 1);
      assert files[..i][0] == files[0] && files[..i][1..] == files[1..][..i - 1];
      CiteFilesFromStore(AddCite(NoCiteStats, one), NoCiteStats, st1, files[1..][..i - 1], c, flush);
    }
  }

  /** The store a run leaves does not depend on the totals it starts from. */
  lemma {:induction false} CiteFilesFromStore(t1: CiteStats, t2: CiteStats, st: Store, files: seq<seq<WorkLine>>,
                                              c: CiteConfig, flush: CiteFlush)
    ensures CiteFilesFrom(t1, st, files, c, flush).1 == CiteFilesFrom(t2, st, files, c, flush).1
    decreases |files|
  {
    if files != [] {
      var (one, st1) := CiteOutcome(st, files[0], c, flush);
      CiteFilesFromStore(AddCite(t1, one), AddCite(t2, one), st1, files[1..], c, flush);
    }
  }

  /** The per-file counts of all files but the first are the tails of the per-file counts. */
  lemma PerFileTail(files: seq<seq<WorkLine>>, c: CiteConfig)
    requires files != []
    ensures Sum(CiteWorksPerFile(files, c)) == CiteFileWorks(files[0], c.limit) + Sum(CiteWorksPerFile(files[1..], c))
    ensures Sum(WithRefsPerFile(files, c)) == CiteFileWithRefs(files[0], c) + Sum(WithRefsPerFile(files[1..], c))
    ensures Sum(PairsPerFile(files, c)) == CiteFilePairs(files[0], c) + Sum(PairsPerFile(files[1..], c))
  {
    assert CiteWorksPerFile(files, c)[1..] == CiteWorksPerFile(files[1..], c);
    assert WithRefsPerFile(files, c)[1..] == WithRefsPerFile(files[1..], c);
    assert PairsPerFile(files, c)[1..] == PairsPerFile(files[1..], c);
  }

  lemma {:induction false} CiteFilesFromAppend(total: CiteStats, st: Store, xs: seq<seq<WorkLine>>, ys: seq<seq<WorkLine>>,
                                               c: CiteConfig, flush: CiteFlush)
    ensures var (t1, st1) := CiteFilesFrom(total, st, xs, c, flush);
      CiteFilesFrom(total, st, xs + ys, c, flush) == CiteFilesFrom(t1, st1, ys, c, flush)
    decreases |xs|
  {
    if xs == [] {
      assert xs + ys == ys;
    } else {
      var (one, st1) := CiteOutcome(st, xs[0], c, flush);
      assert (xs + ys)[0] == xs[0] && (xs + ys)[1..] == xs[1..] + ys;
      CiteFilesFromAppend(AddCite(total, one), st1, xs[1..], ys, c, flush);
    }
  }

  /**
   * A whole run changes only CITES edges and only adds them, so the id set
   * loaded at its start stays the store's. With no statement failing and
   * that set, `successful_citations` stays at least `total_reference_pairs`,
   * and equal to it when ids are unique.
   */
  lemma {:induction false} CiteFilesEffect(total: CiteStats, st: Store, files: seq<seq<WorkLine>>, c: CiteConfig)
    ensures var (t, st') := CiteFilesFrom(total, st, files, c, CiteFlusher());
      var g := st.graph;
      st'.graph == g.(cites := st'.graph.cites) && g.cites <= st'.graph.cites
      && PaperIds(st'.graph.papers) == PaperIds(g.papers)
      && (Clean(st) && c.ids <= PaperIds(g.papers) && total.created >= total.pairs ==> t.created >= t.pairs)
      && (Clean(st) && c.ids <= PaperIds(g.papers) && UniqueIds(g.papers) && total.created == total.pairs ==> t.created == t.pairs)
    decreases |files|
  {
    if files != [] {
      var (one, st1) := CiteOutcome(st, files[0], c, CiteFlusher());
      CiteFileEffect(st, files[0], c);
      if Clean(st) && c.ids <= PaperIds(st.graph.papers) {
        CiteFileCounts(st, files[0], c);
      }
      CiteFilesEffect(AddCite(total, one), st1, files[1..], c);
    }
  }

  // ---------------------------------------------------------------- the data directory

  /** The aggregation loop of `process_full_dataset_citations`: every part file of every directory, whole files, stats summed. */
  method CiteDataset(st: Store, dirs: seq<Dir>, c: CiteConfig) returns (total: CiteStats, st': Store)
    ensures (total, st') == CiteFilesFrom(NoCiteStats, st, AllParts(dirs), c, CiteFlusher())
  {
    total, st' := NoCiteStats, st;
    assert dirs[0..] == dirs;
    for i := 0 to |dirs|
      invariant CiteFilesFrom(total, st', AllParts(dirs[i..]), c, CiteFlusher()) == CiteFilesFrom(NoCiteStats, st, AllParts(dirs), c, CiteFlusher())
    {
      ghost var rest := AllParts(dirs[i + 1..]);
      assert dirs[i..][1..] == dirs[i + 1..];
      assert AllParts(dirs[i..]) == PartsOf(dirs[i]) + rest;
      CiteFilesFromAppend(total, st', PartsOf(dirs[i]), rest, c, CiteFlusher());
      if dirs[i].isDir {
        var parts := dirs[i].parts;
        ghost var goal := CiteFilesFrom(total, st', parts, c, CiteFlusher());
        assert parts[0..] == parts;
        for j := 0 to |parts|
          invariant CiteFilesFrom(total, st', parts[j..], c, CiteFlusher()) == goal
        {
          assert parts[j..][0] == parts[j] && parts[j..][1..] == parts[j + 1..];
          var one;
          one, st' := CiteFile(st', parts[j], c);
          total := AddCite(total, one);
        }
        assert parts[|parts|..] == [];
      }
    }
    assert dirs[|dirs|..] == [];
  }

  // ---------------------------------------------------------------- the loader object

  /** `CitationLoader`: the driver and the cached id set. */
  class CitationLoader {
    /** `neo4j_openalex_ids`: `None` until first loaded. */
    var neo4jOpenalexIds: Option<set<string>>

    /** The constructor: nothing cached yet. The index it creates and the counts it logs do not change the model. */
    constructor()
      ensures neo4jOpenalexIds == None
    {
      neo4jOpenalexIds := None;
    }

    /** `_load_neo4j_openalex_ids`: the cached set if there is one, otherwise the store's ids, which are then cached. */
    method LoadNeo4jOpenalexIds(st: Store) returns (ids: set<string>)
      modifies this
      ensures ids == if old(neo4jOpenalexIds).Some? then old(neo4jOpenalexIds).value else PaperIds(st.graph.papers)
      ensures neo4jOpenalexIds == Some(ids)
    {
      if neo4jOpenalexIds.Some? {
        return neo4jOpenalexIds.value;
      }
      ids := PaperIds(st.graph.papers);
      neo4jOpenalexIds := Some(ids);
    }

    /** `process_file_citations`. */
    method ProcessFileCitations(st: Store, lines: seq<WorkLine>, maxRecords: Option<int>, batchSize: int)
      returns (stats: CiteStats, st': Store)
      modifies this
      ensures neo4jOpenalexIds == Some(if old(neo4jOpenalexIds).Some? then old(neo4jOpenalexIds).value else PaperIds(st.graph.papers))
      ensures (stats, st') == CiteOutcome(st, lines, CiteConfig(maxRecords, batchSize, neo4jOpenalexIds.value), CiteFlusher())
    {
      var ids := LoadNeo4jOpenalexIds(st);
      stats, st' := CiteFile(st, lines, CiteConfig(maxRecords, batchSize, ids));
    }

    /**
     * `process_full_dataset_citations`: the ids loaded once, then every part
     * file of every directory with no record limit; each file call finds the
     * set cached.
     */
    method ProcessFullDatasetCitations(st: Store, dirs: seq<Dir>, batchSize: int) returns (total: CiteStats, st': Store)
      modifies this
      ensures neo4jOpenalexIds == Some(if old(neo4jOpenalexIds).Some? then old(neo4jOpenalexIds).value else PaperIds(st.graph.papers))
      ensures (total, st') == CiteFilesFrom(NoCiteStats, st, AllParts(dirs), CiteConfig(None, batchSize, neo4jOpenalexIds.value), CiteFlusher())
    {
      var ids := LoadNeo4jOpenalexIds(st);
      total, st' := CiteDataset(st, dirs, CiteConfig(None, batchSize, ids));
    }
  }

  /**
   * A fresh loader's full run: the set is the store's ids at the start and
   * stays so; with no store errors every pair found is matched at least once.
   */
  lemma FreshRunCounts(st: Store, dirs: seq<Dir>, batchSize: int)
    requires Clean(st)
    ensures var (t, st') := CiteFilesFrom(NoCiteStats, st, AllParts(dirs), CiteConfig(None, batchSize, PaperIds(st.graph.papers)), CiteFlusher());
      PaperIds(st'.graph.papers) == PaperIds(st.graph.papers)
      && t.created >= t.pairs
      && (UniqueIds(st.graph.papers) ==> t.created == t.pairs)
  {
    CiteFilesEffect(NoCiteStats, st, AllParts(dirs), CiteConfig(None, batchSize, PaperIds(st.graph.papers)));
  }
}
